/** Two expressions worked out: where the day rule leaves POSIX, and a slot that is claimed twice. */
module CronExpressions {
  import opened CivilDays
  import opened CronRuns
  import opened CronSchedules
  import opened CronStore
  import opened Text

  /** A blank ends the word before it. */
  lemma {:induction false} NextWord(word: string, rest: string, sofar: string)
    requires forall c | c in word :: !IsSpace(c)
    requires sofar + word != ""
    ensures Words(word + " " + rest, sofar) == [sofar + word] + Words(rest, "")
    decreases |word|
  {
    var text := word + " " + rest;
    if word == "" {
      assert text[1..] == rest && sofar + word == sofar;
    } else {
      assert text[1..] == word[1..] + " " + rest;
      assert (sofar + [word[0]]) + word[1..] == sofar + word;
      NextWord(word[1..], rest, sofar + [word[0]]);
    }
  }

  lemma {:induction false} LastWord(word: string, sofar: string)
    requires (forall c | c in word :: !IsSpace(c)) && sofar + word != ""
    ensures Words(word, sofar) == [sofar + word]
    decreases |word|
  {
    if word == "" {
      assert sofar + word == sofar;
    } else {
      assert (sofar + [word[0]]) + word[1..] == sofar + word;
      LastWord(word[1..], sofar + [word[0]]);
    }
  }

  /** The words of a line, a blank between each two. */
  function Line(words: seq<string>): string {
    if words == [] then "" else if |words| == 1 then words[0] else words[0] + " " + Line(words[1..])
  }

  predicate Word(w: string) { w != "" && forall c | c in w :: !IsSpace(c) }

  lemma {:induction false} WordsOfLine(words: seq<string>)
    requires forall w | w in words :: Word(w)
    ensures Words(Line(words)) == words
  {
    if words == [] {
    } else if |words| == 1 {
      assert "" + words[0] == words[0] && words == [words[0]];
      assert Word(words[0]);
      LastWord(words[0], "");
    } else {
      assert "" + words[0] == words[0] && words == [words[0]] + words[1..];
      assert Word(words[0]);
      WordsOfLine(words[1..]);
      NextWord(words[0], Line(words[1..]), "");
    }
  }

  lemma FiveWords(a: string, b: string, c: string, d: string, e: string)
    requires Word(a) && Word(b) && Word(c) && Word(d) && Word(e)
    ensures Words(Line([a, b, c, d, e])) == [a, b, c, d, e]
    ensures Line([a, b, c, d, e]) == a + " " + b + " " + c + " " + d + " " + e
  {
    WordsOfLine([a, b, c, d, e]);
    assert [d, e][1..] == [e] && [c, d, e][1..] == [d, e];
    assert [b, c, d, e][1..] == [c, d, e] && [a, b, c, d, e][1..] == [b, c, d, e];
    assert Line([d, e]) == d + " " + e;
    assert Line([c, d, e]) == c + " " + d + " " + e;
    assert Line([b, c, d, e]) == b + " " + c + " " + d + " " + e;
  }

  /** A word of digits that denotes v. */
  predicate Numeral(word: string, v: nat) {
    word != "" && (forall c | c in word :: IsDigit(c)) && DigitsValue(word) == v
  }

  /** A word of digits denotes its value alone. */
  lemma NumberField(word: string, v: nat, b: Bounds)
    requires Numeral(word, v) && b.min <= v <= b.max
    ensures FieldSet(word, b) == Some({v})
  {
    assert IsDigit(word[0]) && '-' !in word && '/' !in word && ',' !in word;
    NoSlash(word, '/');
    assert word[..|word|] == word;
    assert RangeOf(word, b) == Some(Range(v, v, 1));
    OnePieceField(word, b);
    assert FieldSet(word, b).value == {v};
  }

  lemma NotStar(word: string, v: nat)
    requires Numeral(word, v)
    ensures word != "*"
  {
    assert IsDigit(word[0]);
  }

  lemma Numerals()
    ensures Numeral("0", 0) && Numeral("1", 1) && Numeral("2", 2) && Numeral("29", 29)
  {
    assert "0"[..0] == "" && "1"[..0] == "" && "2"[..0] == "" && "29"[..1] == "2";
    assert DigitsValue("2") == 2;
  }

  // ----- the day rule at a Monday in February ---------------------------------------------

  const MONDAYS := "0 0 * 1 1"

  /** Midnight on the Mondays of January, however it is spaced. */
  predicate JanuaryMondays(words: seq<string>) {
    && |words| == 5 && Numeral(words[0], 0) && Numeral(words[1], 0)
    && words[2] == "*" && Numeral(words[3], 1) && Numeral(words[4], 1)
  }

  lemma MondayFields(expr: string)
    requires JanuaryMondays(Words(expr))
    ensures Fields(expr).Some?
    ensures var f := Fields(expr).value;
            f.months == {1} && f.dows == {1} && !f.domRestricted && f.dowRestricted && MonthRestricted(expr)
  {
    var words := Words(expr);
    NumberField(words[0], 0, FIELD_BOUNDS[0]);
    NumberField(words[1], 0, FIELD_BOUNDS[1]);
    StarField(FIELD_BOUNDS[2]);
    NumberField(words[3], 1, FIELD_BOUNDS[3]);
    NumberField(words[4], 1, FIELD_BOUNDS[4]);
    NotStar(words[3], 1);
    NotStar(words[4], 1);
    var dows := FieldSet(words[4], FIELD_BOUNDS[4]).value;
    assert dows == {1};
    assert (set d | d in dows :: if d == 7 then 0 else d) == {1};
  }

  lemma MondayWords()
    ensures JanuaryMondays(Words(MONDAYS))
  {
    assert Word("0") && Word("1") && Word("*");
    FiveWords("0", "0", "*", "1", "1");
    assert MONDAYS == "0" + " " + "0" + " " + "*" + " " + "1" + " " + "1";
    Numerals();
  }

  /** A Monday in February fires under POSIX and not here; so does a Tuesday in January. */
  lemma MondayInFebruary()
    ensures Fields(MONDAYS).Some? && MonthRestricted(MONDAYS)
    ensures var f := Fields(MONDAYS).value;
            && PosixDay(f, true, Civil(2, 7), 1) && !MatchesDay(f, Civil(2, 7), 1)
            && PosixDay(f, true, Civil(1, 7), 2) && !MatchesDay(f, Civil(1, 7), 2)
  {
    MondayWords();
    MondayFields(MONDAYS);
  }

  // ----- a leap day with none for five years after it ---------------------------------------

  const LEAP_DAY := "0 0 29 2 *"

  predicate LeapDays(words: seq<string>) {
    && |words| == 5 && Numeral(words[0], 0) && Numeral(words[1], 0)
    && Numeral(words[2], 29) && Numeral(words[3], 2) && words[4] == "*"
  }

  lemma LeapDayFields(expr: string)
    requires LeapDays(Words(expr))
    ensures Fields(expr).Some?
    ensures var f := Fields(expr).value;
            && f.minutes == {0} && f.hours == {0} && f.doms == {29} && f.months == {2}
            && f.domRestricted && !f.dowRestricted
  {
    var words := Words(expr);
    NumberField(words[0], 0, FIELD_BOUNDS[0]);
    NumberField(words[1], 0, FIELD_BOUNDS[1]);
    NumberField(words[2], 29, FIELD_BOUNDS[2]);
    NumberField(words[3], 2, FIELD_BOUNDS[3]);
    StarField(FIELD_BOUNDS[4]);
    NotStar(words[2], 29);
  }

  lemma LeapDayWords()
    ensures LeapDays(Words(LEAP_DAY))
  {
    assert Word("0") && Word("29") && Word("2") && Word("*");
    FiveWords("0", "0", "29", "2", "*");
    assert LEAP_DAY == "0" + " " + "0" + " " + "29" + " " + "2" + " " + "*";
    Numerals();
  }

  /** The first hour and minute of a day hold one whole minute. */
  lemma Midnight(t: int)
    requires OnMinute(t) && t % DAY / HOUR == 0 && t % HOUR / MINUTE == 0
    ensures t % DAY == 0
  {
    var d, r := t / DAY, t % DAY;
    assert t == d * DAY + r && 0 <= r < HOUR;
    MultipleMod(d * 24, HOUR, r);
    assert t % HOUR == r && r < MINUTE;
    MultipleMod(d * 1440, MINUTE, r);
  }

  lemma AtMidnight(t: int)
    requires OnMinute(t)
    ensures t % DAY / HOUR == 0 && t % HOUR / MINUTE == 0 <==> t % DAY == 0
  {
    if t % DAY == 0 {
      assert t == t / DAY * 24 * HOUR;
      assert t % HOUR == 0;
    } else if t % DAY / HOUR == 0 && t % HOUR / MINUTE == 0 {
      Midnight(t);
    }
  }

  /** The expression accepts the first minute of a leap day and nothing else. */
  lemma OnlyLeapDays(expr: string, cal: Calendar, t: int)
    requires LeapDays(Words(expr)) && OnMinute(t)
    ensures Fields(expr).Some?
    ensures Matches(Fields(expr).value, cal, t) <==> t % DAY == 0 && cal(t / DAY) == Civil(2, 29)
  {
    LeapDayFields(expr);
    var f := Fields(expr).value;
    assert MatchesDay(f, cal(t / DAY), Weekday(t / DAY)) <==> cal(t / DAY) == Civil(2, 29);
    AtMidnight(t);
  }

  /** A leap day such as that of 2096, which the calendar follows with none for 1830 days. */
  predicate LonelyLeapDay(cal: Calendar, day: int) {
    cal(day) == Civil(2, 29) && forall d | day < d <= day + 1830 :: cal(d) != Civil(2, 29)
  }

  /** A later midnight inside the bound of the scan starts one of the next 1830 days. */
  lemma DaysApart(day: int, t: int)
    requires t % DAY == 0 && day * DAY < t < day * DAY + SCAN_SPAN
    ensures day < t / DAY <= day + 1830
  {
    assert t == t / DAY * DAY;
  }

  lemma NoneAfterIt(expr: string, cal: Calendar, day: int)
    requires LeapDays(Words(expr)) && LonelyLeapDay(cal, day)
    ensures CronNext(expr, cal, day * DAY) == None
  {
    CronNextIsLeast(expr, cal, day * DAY);
    var again := CronNext(expr, cal, day * DAY);
    if again.Some? {
      OnlyLeapDays(expr, cal, again.value);
      DaysApart(day, again.value);
    }
  }

  lemma FirstIsLeast(ok: int -> bool, from: int, deadline: int, r: Option<int>)
    requires IsLeastMinute(ok, from, deadline, r) && from < deadline && OnMinute(from) && ok(from)
    ensures r == Some(from)
  {
  }

  lemma MidnightOf(day: int)
    ensures OnMinute(day * DAY) && day * DAY % DAY == 0 && day * DAY / DAY == day
  {
  }

  lemma FoundOnIt(expr: string, cal: Calendar, day: int)
    requires LeapDays(Words(expr)) && LonelyLeapDay(cal, day)
    ensures CronNext(expr, cal, day * DAY - 1) == Some(day * DAY)
  {
    MidnightOf(day);
    FoundAt(expr, cal, day * DAY);
  }

  lemma FoundAt(expr: string, cal: Calendar, t: int)
    requires LeapDays(Words(expr)) && OnMinute(t) && t % DAY == 0 && cal(t / DAY) == Civil(2, 29)
    ensures CronNext(expr, cal, t - 1) == Some(t)
  {
    OnlyLeapDays(expr, cal, t);
    MatchingNext(expr, cal, t);
  }

  lemma MatchingNext(expr: string, cal: Calendar, t: int)
    requires LegalFire(expr, cal, t)
    ensures CronNext(expr, cal, t - 1) == Some(t)
  {
    CronNextIsLeast(expr, cal, t - 1);
    FirstIsLeast(Matcher(Fields(expr).value, cal), t, t - 1 + SCAN_SPAN, CronNext(expr, cal, t - 1));
  }

  lemma LeapDayLapses(expr: string, cal: Calendar, day: int)
    requires LeapDays(Words(expr)) && LonelyLeapDay(cal, day)
    ensures Lapses(Cron(expr), cal, day * DAY - 1, day * DAY)
  {
    FoundOnIt(expr, cal, day);
    NoneAfterIt(expr, cal, day);
  }

  /** The yearly job on the leap day is claimed twice for that day. */
  lemma LeapDayClaimedTwice(id: string, cal: Calendar, day: int) returns (run: seq<Label>)
    requires LonelyLeapDay(cal, day)
    ensures ClaimsTwice(id, Cron(LEAP_DAY), cal, day * DAY - 1, run)
  {
    LeapDayWords();
    LeapDayLapses(LEAP_DAY, cal, day);
    run := SameSlotTwice(id, Cron(LEAP_DAY), cal, day * DAY - 1, day * DAY);
  }

  lemma LonelyIn2096()
    ensures LonelyLeapDay(Gregorian, LAST_LEAP_DAY)
  {
    LeapDayOf2096();
    forall d | LAST_LEAP_DAY < d <= LAST_LEAP_DAY + 1830 ensures Gregorian(d) != Civil(2, 29) {
      NoLeapDayAfter(d);
    }
  }

  /** In the civil calendar that day is 29 February 2096: the next one is eight years later. */
  lemma ClaimedTwiceIn2096(id: string) returns (run: seq<Label>)
    ensures ClaimsTwice(id, Cron(LEAP_DAY), Gregorian, LAST_LEAP_DAY * DAY - 1, run)
  {
    LonelyIn2096();
    run := LeapDayClaimedTwice(id, Gregorian, LAST_LEAP_DAY);
  }
}
