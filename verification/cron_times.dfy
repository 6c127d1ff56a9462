/** What an expression means by the clock and the civil date, read off its words. */
module CronTimes {
  import opened CronExpressions
  import opened CronSchedules
  import opened Text

  // ----- the syntax of one field ------------------------------------------------------------

  lemma NumeralShape(word: string, v: nat)
    requires Numeral(word, v)
    ensures '-' !in word && '/' !in word && ',' !in word && word != "" && word != "*"
    ensures NumberOf(word) == Some(v)
  {
    NotStar(word, v);
  }

  lemma {:induction false} SplitOnce(a: string, b: string, sep: char)
    requires sep !in a
    ensures Split(a + [sep] + b, sep) == [a] + Split(b, sep)
  {
    var text := a + [sep] + b;
    if a == "" {
      assert text[1..] == b;
    } else {
      assert text[0] == a[0] && text[1..] == a[1..] + [sep] + b;
      SplitOnce(a[1..], b, sep);
      var rest := [a[1..]] + Split(b, sep);
      assert rest[0] == a[1..] && rest[1..] == Split(b, sep) && [a[0]] + a[1..] == a;
    }
  }

  lemma {:induction false} FirstSlash(a: string, b: string, c: char)
    requires c !in a
    ensures IndexOf(a + [c] + b, c) == |a|
  {
    var text := a + [c] + b;
    if a == "" {
    } else {
      assert text[0] == a[0] && text[1..] == a[1..] + [c] + b;
      FirstSlash(a[1..], b, c);
    }
  }

  lemma PiecesJoin(piece: string, rest: seq<string>, b: Bounds, v: nat)
    ensures PiecesMatch([piece] + rest, b, v) <==> PiecesMatch([piece], b, v) || PiecesMatch(rest, b, v)
  {
    var all := [piece] + rest;
    assert piece in all && forall p | p in rest :: p in all;
    assert forall p | p in all :: p == piece || p in rest;
    assert piece in [piece];
  }

  /** A list stands for what its parts stand for. */
  lemma ListField(a: string, b: string, bounds: Bounds)
    requires ',' !in a
    ensures FieldSet(a + "," + b, bounds)
         == if FieldSet(a, bounds).Some? && FieldSet(b, bounds).Some?
            then Some(FieldSet(a, bounds).value + FieldSet(b, bounds).value) else None
  {
    var all, rest := a + "," + b, Split(b, ',');
    assert a + [','] + b == all;
    SplitOnce(a, b, ',');
    OnePiece(a, ',');
    assert Split(all, ',') == [a] + rest && Split(a, ',') == [a];
    assert FieldValid(all, bounds) <==> FieldValid(a, bounds) && FieldValid(b, bounds) by {
      assert a in [a] + rest && a in [a] && forall p | p in rest :: p in [a] + rest;
      assert forall p | p in [a] + rest :: p == a || p in rest;
    }
    if FieldValid(all, bounds) {
      forall v: nat
        ensures v in FieldSet(all, bounds).value <==> v in FieldSet(a, bounds).value || v in FieldSet(b, bounds).value
      {
        PiecesJoin(a, rest, bounds, v);
      }
      assert FieldSet(all, bounds).value == FieldSet(a, bounds).value + FieldSet(b, bounds).value;
    }
  }

  /** One piece stands for the values from lo to hi in steps, when these lie within the bounds. */
  lemma PieceField(piece: string, lo: nat, hi: nat, step: nat, b: Bounds)
    requires ',' !in piece && step > 0 && b.min <= lo <= hi <= b.max
    requires RangeOf(piece, b) == Some(Range(lo, hi, step))
    ensures FieldSet(piece, b).Some?
    ensures forall v: nat :: v in FieldSet(piece, b).value <==> lo <= v <= hi && (v - lo) % step == 0
  {
    OnePieceField(piece, b);
  }

  lemma RangeEnds(x: string, y: string, lo: nat, hi: nat, stepped: bool, b: Bounds)
    requires Numeral(x, lo) && Numeral(y, hi)
    ensures Ends(x + "-" + y, stepped, b) == (Some(lo), Some(hi))
    ensures '/' !in x + "-" + y && ',' !in x + "-" + y
  {
    NumeralShape(x, lo);
    NumeralShape(y, hi);
    SplitOnce(x, y, '-');
    OnePiece(y, '-');
    assert x + ['-'] + y == x + "-" + y && (x + "-" + y)[|x|] == '-';
    assert Split(x + "-" + y, '-') == [x, y];
  }

  /** A range holds both its ends and what lies between. */
  lemma RangeField(x: string, y: string, lo: nat, hi: nat, b: Bounds)
    requires Numeral(x, lo) && Numeral(y, hi) && b.min <= lo <= hi <= b.max
    ensures FieldSet(x + "-" + y, b).Some?
    ensures forall v: nat :: v in FieldSet(x + "-" + y, b).value <==> lo <= v <= hi
  {
    var piece := x + "-" + y;
    RangeEnds(x, y, lo, hi, false, b);
    NoSlash(piece, '/');
    assert piece[..|piece|] == piece;
    PieceField(piece, lo, hi, 1, b);
  }

  /** A stepped piece, from the ends of what stands before the slash. */
  lemma SteppedField(body: string, s: string, lo: nat, hi: nat, step: nat, b: Bounds)
    requires '/' !in body && ',' !in body && Numeral(s, step) && step > 0
    requires Ends(body, true, b) == (Some(lo), Some(hi)) && b.min <= lo <= hi <= b.max
    ensures FieldSet(body + "/" + s, b).Some?
    ensures forall v: nat :: v in FieldSet(body + "/" + s, b).value <==> lo <= v <= hi && (v - lo) % step == 0
  {
    var piece := body + "/" + s;
    NumeralShape(s, step);
    FirstSlash(body, s, '/');
    assert body + ['/'] + s == piece;
    assert piece[..|body|] == body && piece[|body| + 1..] == s;
    PieceField(piece, lo, hi, step, b);
  }

  /** A start with a step runs to the upper bound of the field. */
  lemma SteppedStart(x: string, s: string, lo: nat, step: nat, b: Bounds)
    requires Numeral(x, lo) && Numeral(s, step) && step > 0 && b.min <= lo <= b.max
    ensures FieldSet(x + "/" + s, b).Some?
    ensures forall v: nat :: v in FieldSet(x + "/" + s, b).value <==> lo <= v <= b.max && (v - lo) % step == 0
  {
    NumeralShape(x, lo);
    SteppedField(x, s, lo, b.max, step, b);
  }

  lemma SteppedRange(x: string, y: string, s: string, lo: nat, hi: nat, step: nat, b: Bounds)
    requires Numeral(x, lo) && Numeral(y, hi) && Numeral(s, step) && step > 0 && b.min <= lo <= hi <= b.max
    ensures FieldSet(x + "-" + y + "/" + s, b).Some?
    ensures forall v: nat :: v in FieldSet(x + "-" + y + "/" + s, b).value <==> lo <= v <= hi && (v - lo) % step == 0
  {
    RangeEnds(x, y, lo, hi, true, b);
    SteppedField(x + "-" + y, s, lo, hi, step, b);
  }

  lemma SteppedStar(s: string, step: nat, b: Bounds)
    requires Numeral(s, step) && step > 0 && b.min <= b.max
    ensures FieldSet("*" + "/" + s, b).Some?
    ensures forall v: nat :: v in FieldSet("*" + "/" + s, b).value <==> b.min <= v <= b.max && (v - b.min) % step == 0
  {
    SteppedField("*", s, b.min, b.max, step, b);
  }

  /** A number outside the bounds of its field makes the field invalid. */
  lemma OutOfBounds(word: string, v: nat, b: Bounds)
    requires Numeral(word, v) && !(b.min <= v <= b.max)
    ensures FieldSet(word, b) == None
  {
    NumeralShape(word, v);
    NoSlash(word, '/');
    assert word[..|word|] == word;
    OnePiece(word, ',');
    assert word in Split(word, ',');
  }

  // ----- the words of an expression ------------------------------------------------------------

  /** The minute of the hour, the hour of the day and the weekday of an instant; Thursday was the first day. */
  function MinuteOfHour(t: int): nat { t / MINUTE % 60 }
  function HourOfDay(t: int): nat { t / HOUR % 24 }
  function WeekdayOf(t: int): nat { (t / DAY + 4) % 7 }

  lemma TimeOfDay(t: int)
    ensures t % DAY / HOUR == HourOfDay(t) && t % HOUR / MINUTE == MinuteOfHour(t)
  {
    var d, r := t / DAY, t % DAY;
    assert t == d * 24 * HOUR + r;
    assert t / HOUR == d * 24 + r / HOUR;
    var h, q := t / HOUR, t % HOUR;
    assert t == h * 60 * MINUTE + q;
    assert t / MINUTE == h * 60 + q / MINUTE;
  }

  predicate ValidWords(words: seq<string>) {
    |words| == 5 && forall i | 0 <= i < 5 :: FieldSet(words[i], FIELD_BOUNDS[i]).Some?
  }

  /** The weekday is one the fifth word selects, where 0 and 7 are both Sunday. */
  predicate OnWeekday(word: string, dow: nat) {
    FieldSet(word, FIELD_BOUNDS[4]).Some? &&
    (dow in FieldSet(word, FIELD_BOUNDS[4]).value || (dow == 0 && 7 in FieldSet(word, FIELD_BOUNDS[4]).value))
  }

  /** The date is one the third and the fifth word select: by either, when both are restricted. */
  predicate OnDate(words: seq<string>, date: Civil, dow: nat)
    requires ValidWords(words)
  {
    && date.month in FieldSet(words[3], FIELD_BOUNDS[3]).value
    && (|| (words[2] == "*" && words[4] == "*")
        || (words[2] != "*" && date.dom in FieldSet(words[2], FIELD_BOUNDS[2]).value)
        || (words[4] != "*" && OnWeekday(words[4], dow)))
  }

  /**
   Exactly the whole minutes fire whose minute, hour and date the first, the second and the other
   words select.
  */
  lemma FiresWhen(expr: string, cal: Calendar, t: int)
    requires ValidWords(Words(expr))
    ensures LegalFire(expr, cal, t)
       <==> && OnMinute(t) && OnDate(Words(expr), cal(t / DAY), WeekdayOf(t))
            && MinuteOfHour(t) in FieldSet(Words(expr)[0], FIELD_BOUNDS[0]).value
            && HourOfDay(t) in FieldSet(Words(expr)[1], FIELD_BOUNDS[1]).value
  {
    ValidFields(expr);
    TimeOfDay(t);
  }

  lemma ValidFields(expr: string)
    requires ValidWords(Words(expr))
    ensures Fields(expr).Some?
    ensures var words, f := Words(expr), Fields(expr).value;
            && f.minutes == FieldSet(words[0], FIELD_BOUNDS[0]).value
            && f.hours == FieldSet(words[1], FIELD_BOUNDS[1]).value
            && f.doms == FieldSet(words[2], FIELD_BOUNDS[2]).value
            && f.months == FieldSet(words[3], FIELD_BOUNDS[3]).value
            && f.domRestricted == (words[2] != "*") && f.dowRestricted == (words[4] != "*")
            && forall d: nat | d < 7 :: d in f.dows <==> OnWeekday(words[4], d)
  {
    var words := Words(expr);
    assert FieldSet(words[0], FIELD_BOUNDS[0]).Some? && FieldSet(words[1], FIELD_BOUNDS[1]).Some?;
    assert FieldSet(words[2], FIELD_BOUNDS[2]).Some? && FieldSet(words[3], FIELD_BOUNDS[3]).Some?;
    assert FieldSet(words[4], FIELD_BOUNDS[4]).Some?;
  }

  /** No expression fires that is not five valid words. */
  lemma InvalidNeverFires(expr: string, cal: Calendar, t: int)
    requires !ValidWords(Words(expr))
    ensures !LegalFire(expr, cal, t)
  {
    var words := Words(expr);
    if |words| == 5 {
      var i :| 0 <= i < 5 && FieldSet(words[i], FIELD_BOUNDS[i]).None?;
      assert i == 0 || i == 1 || i == 2 || i == 3 || i == 4;
    }
  }

  // ----- a time of day -------------------------------------------------------------------------

  /** Months and days of the month are counted as on the wall. */
  ghost predicate Civilized(cal: Calendar) {
    forall d :: 1 <= cal(d).month <= 12 && 1 <= cal(d).dom <= 31
  }

  predicate Daily(words: seq<string>, m: nat, h: nat) {
    && |words| == 5 && Numeral(words[0], m) && Numeral(words[1], h) && m <= 59 && h <= 23
    && words[2] == "*" && words[3] == "*" && words[4] == "*"
  }

  predicate Weekly(words: seq<string>, m: nat, h: nat, dow: nat) {
    && |words| == 5 && Numeral(words[0], m) && Numeral(words[1], h) && m <= 59 && h <= 23
    && words[2] == "*" && words[3] == "*" && Numeral(words[4], dow) && dow <= 7
  }

  lemma AtTime(t: int, m: nat, h: nat)
    requires m <= 59 && h <= 23
    ensures OnMinute(t) && MinuteOfHour(t) == m && HourOfDay(t) == h <==> t % DAY == h * HOUR + m * MINUTE
  {
    TimeOfDay(t);
    var d, r := t / DAY, t % DAY;
    assert t == d * DAY + r;
    assert t % HOUR == r % HOUR;
    assert t % MINUTE == r % MINUTE;
  }

  /** Where something fires within the span of the scan, the next run is found by then. */
  lemma FoundBy(expr: string, cal: Calendar, after: int, t: int)
    requires LegalFire(expr, cal, t) && after < t < after + SCAN_SPAN
    ensures var r := CronNext(expr, cal, after);
            && r.Some? && after < r.value <= t && LegalFire(expr, cal, r.value)
            && forall u | after < u < r.value :: !LegalFire(expr, cal, u)
  {
    CronNextIsLeast(expr, cal, after);
    assert Matcher(Fields(expr).value, cal)(t);
    var r := CronNext(expr, cal, after);
    forall u | after < u < r.value ensures !LegalFire(expr, cal, u) {
      assert OnMinute(u) ==> !Matcher(Fields(expr).value, cal)(u);
    }
  }

  /** The next run is the first instant to fire after the given one, if one does within five years of 366 days. */
  lemma NextWithin(expr: string, cal: Calendar, after: int)
    ensures CronNext(expr, cal, after).None?
       <==> forall t | after < t < after + 158_112_000_000 :: !LegalFire(expr, cal, t)
    ensures CronNext(expr, cal, after).Some? ==>
              var r := CronNext(expr, cal, after).value;
              && after < r < after + 158_112_000_000 && LegalFire(expr, cal, r)
              && forall t | after < t < r :: !LegalFire(expr, cal, t)
  {
    var r := CronNext(expr, cal, after);
    if r.Some? {
      FoundInSpan(expr, cal, after);
      FoundBy(expr, cal, after, r.value);
    } else {
      forall t | after < t < after + 158_112_000_000 ensures !LegalFire(expr, cal, t) {
        if LegalFire(expr, cal, t) { FoundBy(expr, cal, after, t); }
      }
    }
  }

  lemma FoundInSpan(expr: string, cal: Calendar, after: int)
    requires CronNext(expr, cal, after).Some?
    ensures var r := CronNext(expr, cal, after).value; after < r < after + SCAN_SPAN && LegalFire(expr, cal, r)
  {
    CronNextIsLeast(expr, cal, after);
  }

  /** The next time of day h:m after an instant. */
  function NextTime(after: int, m: nat, h: nat): int {
    var today := after / DAY * DAY + h * HOUR + m * MINUTE;
    if today > after then today else today + DAY
  }

  lemma NextTimeIsLeast(after: int, m: nat, h: nat)
    requires m <= 59 && h <= 23
    ensures after < NextTime(after, m, h) <= after + DAY
    ensures NextTime(after, m, h) % DAY == h * HOUR + m * MINUTE
    ensures forall u | after < u < NextTime(after, m, h) :: u % DAY != h * HOUR + m * MINUTE
  {
    var x, d := h * HOUR + m * MINUTE, after / DAY;
    assert after == d * DAY + after % DAY;
    forall u | after < u < NextTime(after, m, h) ensures u % DAY != x {
      assert u == u / DAY * DAY + u % DAY;
    }
  }

  /** A number selects its own weekday alone, and seven is Sunday. */
  lemma NumberedWeekday(word: string, dow: nat, x: nat)
    requires Numeral(word, dow) && dow <= 7 && x < 7
    ensures OnWeekday(word, x) <==> x == dow % 7
  {
    NumberField(word, dow, FIELD_BOUNDS[4]);
    var days := FieldSet(word, FIELD_BOUNDS[4]).value;
    assert days == {dow};
    assert x in days <==> x == dow;
    assert 7 in days <==> dow == 7;
  }

  lemma StarDates(words: seq<string>)
    requires |words| == 5 && words[2] == "*" && words[3] == "*"
    ensures FieldSet(words[2], FIELD_BOUNDS[2]).Some? && FieldSet(words[3], FIELD_BOUNDS[3]).Some?
    ensures forall v: nat | 1 <= v <= 12 :: v in FieldSet(words[3], FIELD_BOUNDS[3]).value
  {
    StarField(FIELD_BOUNDS[2]);
    StarField(FIELD_BOUNDS[3]);
  }

  lemma DailyFires(expr: string, cal: Calendar, m: nat, h: nat, t: int)
    requires Daily(Words(expr), m, h) && Civilized(cal)
    ensures LegalFire(expr, cal, t) <==> t % DAY == h * HOUR + m * MINUTE
  {
    var words := Words(expr);
    NumberField(words[0], m, FIELD_BOUNDS[0]);
    NumberField(words[1], h, FIELD_BOUNDS[1]);
    StarDates(words);
    StarField(FIELD_BOUNDS[4]);
    assert 1 <= cal(t / DAY).month <= 12;
    FiresWhen(expr, cal, t);
    AtTime(t, m, h);
  }

  /** "m h * * *" fires next at the next h:m, on any civil calendar. */
  lemma DailyNext(expr: string, cal: Calendar, m: nat, h: nat, after: int)
    requires Daily(Words(expr), m, h) && Civilized(cal)
    ensures CronNext(expr, cal, after) == Some(NextTime(after, m, h))
  {
    var t := NextTime(after, m, h);
    NextTimeIsLeast(after, m, h);
    DailyFires(expr, cal, m, h, t);
    FoundBy(expr, cal, after, t);
    var found := CronNext(expr, cal, after).value;
    DailyFires(expr, cal, m, h, found);
    assert found == t;
  }

  lemma WeeklyFires(expr: string, cal: Calendar, m: nat, h: nat, dow: nat, t: int)
    requires Weekly(Words(expr), m, h, dow) && Civilized(cal)
    ensures LegalFire(expr, cal, t) <==> t % DAY == h * HOUR + m * MINUTE && WeekdayOf(t) == dow % 7
  {
    var words := Words(expr);
    NumberField(words[0], m, FIELD_BOUNDS[0]);
    NumberField(words[1], h, FIELD_BOUNDS[1]);
    NumberField(words[4], dow, FIELD_BOUNDS[4]);
    NotStar(words[4], dow);
    StarDates(words);
    NumberedWeekday(words[4], dow, WeekdayOf(t));
    assert 1 <= cal(t / DAY).month <= 12;
    FiresWhen(expr, cal, t);
    AtTime(t, m, h);
  }

  predicate WeeklyTime(t: int, m: nat, h: nat, dow: nat) {
    t % DAY == h * HOUR + m * MINUTE && WeekdayOf(t) == dow % 7
  }

  lemma SomeWeekdayComes(t: int, dow: nat) returns (k: nat)
    ensures k < 7 && WeekdayOf(t + k * DAY) == dow % 7 && (t + k * DAY) % DAY == t % DAY
  {
    k := (dow % 7 + 7 - WeekdayOf(t)) % 7;
    DaysLater(t, k);
  }

  lemma DaysLater(t: int, k: nat)
    ensures (t + k * DAY) / DAY == t / DAY + k && (t + k * DAY) % DAY == t % DAY
  {
    var d, x := t / DAY, t % DAY;
    assert t + k * DAY == (d + k) * DAY + x;
    MultipleMod(d + k, DAY, x);
  }

  lemma SomeWeeklyTime(after: int, m: nat, h: nat, dow: nat) returns (found: int)
    requires m <= 59 && h <= 23
    ensures after < found <= after + 7 * DAY && WeeklyTime(found, m, h, dow)
  {
    NextTimeIsLeast(after, m, h);
    var first := NextTime(after, m, h);
    var k := SomeWeekdayComes(first, dow);
    found := first + k * DAY;
    assert k * DAY <= 6 * DAY;
  }

  /** "m h * * d" fires next at the first h:m of that weekday, within a week; 0 and 7 are both Sunday. */
  lemma WeeklyNext(expr: string, cal: Calendar, m: nat, h: nat, dow: nat, after: int) returns (t: int)
    requires Weekly(Words(expr), m, h, dow) && Civilized(cal)
    ensures CronNext(expr, cal, after) == Some(t)
    ensures after < t <= after + 7 * DAY && WeeklyTime(t, m, h, dow)
    ensures forall u | after < u < t :: !WeeklyTime(u, m, h, dow)
  {
    var found := SomeWeeklyTime(after, m, h, dow);
    WeeklyFires(expr, cal, m, h, dow, found);
    FoundBy(expr, cal, after, found);
    t := CronNext(expr, cal, after).value;
    WeeklyFires(expr, cal, m, h, dow, t);
    forall u | after < u < t ensures !WeeklyTime(u, m, h, dow) {
      WeeklyFires(expr, cal, m, h, dow, u);
    }
  }

  // ----- half past nine ---------------------------------------------------------------------

  const HALF_PAST_NINE := "30 9 * * *"

  lemma HalfPastNineWords()
    ensures Daily(Words(HALF_PAST_NINE), 30, 9)
  {
    assert Word("30") && Word("9") && Word("*");
    FiveWords("30", "9", "*", "*", "*");
    assert HALF_PAST_NINE == "30" + " " + "9" + " " + "*" + " " + "*" + " " + "*";
    assert "9"[..0] == "" && "3"[..0] == "" && "30"[..1] == "3";
    assert DigitsValue("3") == 3;
    assert Numeral("30", 30) && Numeral("9", 9);
  }

  /** After midnight of the first day it fires at half past nine that morning, then every day. */
  lemma HalfPastNine(cal: Calendar)
    requires Civilized(cal)
    ensures CronNext(HALF_PAST_NINE, cal, 0) == Some(34_200_000)
    ensures CronNext(HALF_PAST_NINE, cal, 34_200_000) == Some(120_600_000)
  {
    HalfPastNineWords();
    DailyNext(HALF_PAST_NINE, cal, 30, 9, 0);
    DailyNext(HALF_PAST_NINE, cal, 30, 9, 34_200_000);
  }

  /** The cadence of a daily job is a day, and its catch-up grace the ceiling of two hours. */
  lemma DailyCadence(expr: string, cal: Calendar, m: nat, h: nat, now: int)
    requires Daily(Words(expr), m, h) && Civilized(cal)
    ensures Cadence(Cron(expr), cal, now) == Some(DAY) && CatchupGrace(Cron(expr), cal, now) == 7_200_000
  {
    var first := NextTime(now, m, h);
    DailyNext(expr, cal, m, h, now);
    DailyNext(expr, cal, m, h, first);
    NextTimeIsLeast(now, m, h);
    NextTimeIsLeast(first, m, h);
    assert NextTime(first, m, h) == first + DAY;
  }
}
