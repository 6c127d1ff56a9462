/**
 Schedules and the minute-scanning cron engine (src/pi_embedded/cron/schedule.ts).
 Instants are whole milliseconds since the epoch; the calendar, which the platform's date
 type supplies, is a parameter giving month and day of month for each day number.
*/
module CronSchedules {
  import opened Text

  const MINUTE := 60_000
  const HOUR := 3_600_000
  const DAY := 86_400_000
  const ONESHOT_GRACE := 120_000
  const CATCHUP_GRACE_MIN := 120_000
  const CATCHUP_GRACE_MAX := 7_200_000
  const SCAN_SPAN := 5 * 366 * DAY

  datatype Civil = Civil(month: int, dom: int)
  type Calendar = int -> Civil

  datatype Schedule =
    | Once(runAt: int)
    | Interval(minutes: nat)
    | Cron(expr: string)

  datatype Bounds = Bounds(min: nat, max: nat)

  const FIELD_BOUNDS := [Bounds(0, 59), Bounds(0, 23), Bounds(1, 31), Bounds(1, 12), Bounds(0, 7)]

  // ----- field syntax --------------------------------------------------------------

  function Split(s: string, sep: char): (parts: seq<string>)
    ensures |parts| > 0
    ensures forall p <- parts :: sep !in p
  {
    if s == "" then [""]
    else if s[0] == sep then [""] + Split(s[1..], sep)
    else var rest := Split(s[1..], sep); [[s[0]] + rest[0]] + rest[1..]
  }

  predicate IsDigit(c: char) { '0' <= c <= '9' }

  function DigitsValue(s: string): nat
    requires forall c <- s :: IsDigit(c)
  {
    if s == "" then 0 else
    var last := s[|s| - 1];
    assert IsDigit(last);
    10 * DigitsValue(s[..|s| - 1]) + (last - '0') as nat
  }

  /** Numeric conversion on the alphabet of cron fields: the empty text is zero. */
  function NumberOf(s: string): Option<nat> {
    if forall c <- s :: IsDigit(c) then Some(DigitsValue(s)) else None
  }

  function IndexOf(s: string, c: char): (i: nat)
    ensures i <= |s| && c !in s[..i] && (i < |s| ==> s[i] == c)
  {
    if s == "" || s[0] == c then 0 else 1 + IndexOf(s[1..], c)
  }

  /** One comma-separated piece of a field: every value from lo to hi in steps. */
  datatype Range = Range(lo: nat, hi: nat, step: nat)

  function Ends(body: string, stepped: bool, b: Bounds): (Option<nat>, Option<nat>) {
    if body == "*" || body == "" then (Some(b.min), Some(b.max))
    else if '-' in body then
      var sides := Split(body, '-');
      (NumberOf(sides[0]), if |sides| > 1 then NumberOf(sides[1]) else None)
    else (NumberOf(body), if stepped then Some(b.max) else NumberOf(body))
  }

  function RangeOf(piece: string, b: Bounds): (r: Option<Range>)
    ensures r.Some? ==> r.value.step > 0 && b.min <= r.value.lo <= r.value.hi <= b.max
  {
    var slash := IndexOf(piece, '/');
    var step := if slash < |piece| then NumberOf(piece[slash + 1..]) else Some(1);
    var (lo, hi) := Ends(piece[..slash], slash < |piece|, b);
    if step.None? || step.value == 0 || lo.None? || hi.None? then None
    else if lo.value < b.min || hi.value > b.max || lo.value > hi.value then None
    else Some(Range(lo.value, hi.value, step.value))
  }

  predicate InRange(r: Range, v: nat)
    requires r.step > 0
  {
    r.lo <= v <= r.hi && (v - r.lo) % r.step == 0
  }

  predicate FieldValid(field: string, b: Bounds) {
    forall p <- Split(field, ',') :: RangeOf(p, b).Some?
  }

  predicate PiecesMatch(pieces: seq<string>, b: Bounds, v: nat) {
    exists p <- pieces :: RangeOf(p, b).Some? && InRange(RangeOf(p, b).value, v)
  }

  /** What a field denotes: the values some piece covers, or nothing when a piece is malformed. */
  function FieldSet(field: string, b: Bounds): Option<set<nat>> {
    if FieldValid(field, b)
    then Some(set v: nat | b.min <= v <= b.max && PiecesMatch(Split(field, ','), b, v))
    else None
  }

  method AddRange(out: set<nat>, r: Range) returns (s: set<nat>)
    requires r.step > 0
    ensures forall v: nat :: v in s <==> v in out || InRange(r, v)
  {
    s := out;
    var v := r.lo;
    ghost var k := 0;
    while v <= r.hi
      invariant v == r.lo + k * r.step && k >= 0
      invariant forall u: nat :: u in s <==> u in out || (InRange(r, u) && u < v)
      decreases r.hi + 1 - v
    {
      NextStep(r, k);
      s := s + {v};
      v := v + r.step;
      k := k + 1;
    }
  }

  /** Between two steps of a range there is no value of the range. */
  lemma NextStep(r: Range, k: nat)
    requires r.step > 0
    ensures (k * r.step) % r.step == 0 && (k + 1) * r.step == k * r.step + r.step
    ensures forall d: nat :: k * r.step < d < k * r.step + r.step ==> d % r.step != 0
  {
    MultipleMod(k, r.step, 0);
    forall d: nat | k * r.step < d < k * r.step + r.step
      ensures d % r.step != 0
    {
      MultipleMod(k, r.step, d - k * r.step);
    }
  }

  lemma AtLeastOnce(n: int, d: int)
    requires n > 0
    ensures d >= 1 ==> n * d >= n
    ensures d <= -1 ==> n * d <= -n
  {
  }

  lemma MultipleMod(k: int, n: nat, rest: nat)
    requires rest < n
    ensures (k * n + rest) % n == rest
  {
    var a := k * n + rest;
    var q, m := a / n, a % n;
    var d := k - q;
    assert n * d == m - rest by {
      assert a == n * q + m;
      assert n * (k - q) == n * k - n * q;
    }
    AtLeastOnce(n, d);
  }

  lemma OneMorePiece(pieces: seq<string>, i: nat, b: Bounds, v: nat)
    requires i < |pieces|
    ensures PiecesMatch(pieces[..i + 1], b, v)
       <==> PiecesMatch(pieces[..i], b, v) || (RangeOf(pieces[i], b).Some? && InRange(RangeOf(pieces[i], b).value, v))
  {
    assert pieces[..i + 1] == pieces[..i] + [pieces[i]];
  }

  /** The field parser, piece by piece; the caller sees a failure as None. */
  method ParseField(field: string, b: Bounds) returns (r: Option<set<nat>>)
    ensures r == FieldSet(field, b)
  {
    var pieces := Split(field, ',');
    var out: set<nat> := {};
    for i := 0 to |pieces|
      invariant forall j | 0 <= j < i :: RangeOf(pieces[j], b).Some?
      invariant forall v :: v in out <==> PiecesMatch(pieces[..i], b, v)
      invariant forall v <- out :: b.min <= v <= b.max
    {
      var range := RangeOf(pieces[i], b);
      if range.None? {
        assert pieces[i] in pieces;
        return None;
      }
      out := AddRange(out, range.value);
      forall v: nat ensures v in out <==> PiecesMatch(pieces[..i + 1], b, v) {
        OneMorePiece(pieces, i, b, v);
      }
    }
    assert pieces[..|pieces|] == pieces;
    r := Some(out);
    assert out == set v: nat | b.min <= v <= b.max && PiecesMatch(pieces, b, v);
  }

  // ----- expressions and the day rule ----------------------------------------------

  datatype CronFields = CronFields(
    minutes: set<nat>, hours: set<nat>, doms: set<nat>, months: set<nat>, dows: set<nat>,
    domRestricted: bool, dowRestricted: bool)

  /** The words of a text separated by runs of white space. */
  function Words(s: string, word: string := ""): seq<string> {
    if s == "" then if word == "" then [] else [word]
    else if IsSpace(s[0]) then (if word == "" then [] else [word]) + Words(s[1..], "")
    else Words(s[1..], word + [s[0]])
  }

  function Fields(expr: string): Option<CronFields> {
    var parts := Words(expr);
    if |parts| != 5 then None else
    var minutes, hours := FieldSet(parts[0], FIELD_BOUNDS[0]), FieldSet(parts[1], FIELD_BOUNDS[1]);
    var doms, months := FieldSet(parts[2], FIELD_BOUNDS[2]), FieldSet(parts[3], FIELD_BOUNDS[3]);
    var dows := FieldSet(parts[4], FIELD_BOUNDS[4]);
    if minutes.None? || hours.None? || doms.None? || months.None? || dows.None? then None
    else Some(CronFields(minutes.value, hours.value, doms.value, months.value,
                         set d | d in dows.value :: if d == 7 then 0 else d,
                         parts[2] != "*", parts[4] != "*"))
  }

  function Weekday(day: int): nat { (day + 4) % 7 }

  predicate MatchesDay(f: CronFields, date: Civil, dow: nat) {
    if date.month !in f.months then false
    else if f.domRestricted && f.dowRestricted then date.dom in f.doms || dow in f.dows
    else if f.domRestricted then date.dom in f.doms
    else if f.dowRestricted then dow in f.dows
    else true
  }

  /** Whether an expression names its months, read off its fourth word as the other day fields are. */
  predicate MonthRestricted(expr: string) {
    |Words(expr)| == 5 && Words(expr)[3] != "*"
  }

  /** The day rule of POSIX.1-2017, Shell and Utilities, crontab, INPUT FILES. */
  predicate PosixDay(f: CronFields, monthRestricted: bool, date: Civil, dow: nat) {
    var monthAndDom := (monthRestricted ==> date.month in f.months) && (f.domRestricted ==> date.dom in f.doms);
    if !f.dowRestricted then monthAndDom
    else if !monthRestricted && !f.domRestricted then dow in f.dows
    else monthAndDom || dow in f.dows
  }

  /** A word without separators is one piece. */
  lemma {:induction false} OnePiece(word: string, sep: char)
    requires sep !in word
    ensures Split(word, sep) == [word]
  {
    if word == "" {
    } else {
      assert word == [word[0]] + word[1..];
      OnePiece(word[1..], sep);
    }
  }

  lemma {:induction false} NoSlash(word: string, c: char)
    requires c !in word
    ensures IndexOf(word, c) == |word|
  {
    if word == "" {
    } else {
      assert word == [word[0]] + word[1..];
      NoSlash(word[1..], c);
    }
  }

  /** A field of one piece denotes what the piece covers. */
  lemma OnePieceField(field: string, b: Bounds)
    requires ',' !in field && RangeOf(field, b).Some?
    ensures FieldSet(field, b).Some?
    ensures forall v: nat :: v in FieldSet(field, b).value <==> InRange(RangeOf(field, b).value, v)
  {
    OnePiece(field, ',');
    assert field in [field];
  }

  /** A star stands for every value of its field. */
  lemma StarField(b: Bounds)
    requires b.min <= b.max
    ensures FieldSet("*", b).Some?
    ensures forall v: nat :: v in FieldSet("*", b).value <==> b.min <= v <= b.max
  {
    NoSlash("*", '/');
    assert "*"[..1] == "*";
    assert RangeOf("*", b) == Some(Range(b.min, b.max, 1));
    OnePieceField("*", b);
  }

  predicate LeavesPosix(f: CronFields, monthRestricted: bool, date: Civil, dow: nat) {
    && f.dowRestricted && monthRestricted
    && (if f.domRestricted then date.month !in f.months && dow in f.dows
        else (date.month in f.months) != (dow in f.dows))
  }

  /**
   On every civil date the engine follows the POSIX day rule except where month and day of week
   are both restricted: POSIX then lets the weekday match outside the month, or the whole month
   match, and the engine does not.
  */
  lemma DayRuleAgainstPosix(expr: string, date: Civil, dow: nat)
    requires Fields(expr).Some? && 1 <= date.month <= 12
    ensures MatchesDay(Fields(expr).value, date, dow) == PosixDay(Fields(expr).value, MonthRestricted(expr), date, dow)
       <==> !LeavesPosix(Fields(expr).value, MonthRestricted(expr), date, dow)
  {
    StarField(FIELD_BOUNDS[3]);
  }

  // ----- the minute scan ------------------------------------------------------------

  predicate Matches(f: CronFields, cal: Calendar, t: int) {
    && MatchesDay(f, cal(t / DAY), Weekday(t / DAY))
    && t % DAY / HOUR in f.hours
    && t % HOUR / MINUTE in f.minutes
  }

  predicate OnMinute(t: int) { t % MINUTE == 0 }

  function FirstMinuteAfter(after: int): (t: int)
    ensures after < t <= after + MINUTE && OnMinute(t)
  {
    after / MINUTE * MINUTE + MINUTE
  }

  function Matcher(f: CronFields, cal: Calendar): int -> bool {
    t => Matches(f, cal, t)
  }

  function Scan(ok: int -> bool, cursor: int, deadline: int): Option<int>
    decreases deadline - cursor
  {
    if cursor >= deadline then None
    else if ok(cursor) then Some(cursor)
    else Scan(ok, cursor + MINUTE, deadline)
  }

  function CronNext(expr: string, cal: Calendar, after: int): Option<int> {
    var f := Fields(expr);
    if f.None? then None else Scan(Matcher(f.value, cal), FirstMinuteAfter(after), after + SCAN_SPAN)
  }

  /** The result is the least accepted minute in [from, deadline), or there is none. */
  ghost predicate IsLeastMinute(ok: int -> bool, from: int, deadline: int, r: Option<int>) {
    && (r.Some? ==> from <= r.value < deadline && OnMinute(r.value) && ok(r.value))
    && (forall u | from <= u < (if r.Some? then r.value else deadline) && OnMinute(u) :: !ok(u))
  }

  lemma NextMinute(t: int)
    requires OnMinute(t)
    ensures OnMinute(t + MINUTE) && forall u | t < u < t + MINUTE :: !OnMinute(u)
  {
  }

  lemma {:induction false} ScanIsLeast(ok: int -> bool, cursor: int, deadline: int)
    requires OnMinute(cursor)
    ensures IsLeastMinute(ok, cursor, deadline, Scan(ok, cursor, deadline))
    decreases deadline - cursor
  {
    if cursor >= deadline || ok(cursor) {
    } else {
      NextMinute(cursor);
      ScanIsLeast(ok, cursor + MINUTE, deadline);
    }
  }

  /** The scan as written: a cursor stepping one minute at a time. */
  method ScanMinutes(f: CronFields, cal: Calendar, from: int, deadline: int) returns (r: Option<int>)
    ensures r == Scan(Matcher(f, cal), from, deadline)
  {
    var cursor := from;
    while cursor < deadline
      invariant Scan(Matcher(f, cal), from, deadline) == Scan(Matcher(f, cal), cursor, deadline)
    {
      if Matcher(f, cal)(cursor) { return Some(cursor); }
      cursor := cursor + MINUTE;
    }
    r := None;
  }

  method CronNextAfter(expr: string, cal: Calendar, after: int) returns (r: Option<int>)
    ensures r == CronNext(expr, cal, after)
  {
    var parsed := Fields(expr);
    if parsed.None? { return None; }
    var cursor := after / MINUTE * MINUTE;
    if cursor <= after {
      cursor := cursor + MINUTE;
    }
    assert cursor == FirstMinuteAfter(after);
    r := ScanMinutes(parsed.value, cal, cursor, after + SCAN_SPAN);
  }

  /** The least whole minute strictly later that matches; none exactly when there is none in range. */
  lemma CronNextIsLeast(expr: string, cal: Calendar, after: int)
    ensures var r := CronNext(expr, cal, after);
            && (Fields(expr).None? ==> r == None)
            && (Fields(expr).Some? ==> IsLeastMinute(Matcher(Fields(expr).value, cal), after + 1, after + SCAN_SPAN, r))
  {
    if Fields(expr).Some? {
      var first := FirstMinuteAfter(after);
      ScanIsLeast(Matcher(Fields(expr).value, cal), first, after + SCAN_SPAN);
      forall u | after < u < first ensures !OnMinute(u) {
        assert u / MINUTE == after / MINUTE;
      }
    }
  }

  /** A minute the expression accepts. */
  predicate LegalFire(expr: string, cal: Calendar, t: int) {
    Fields(expr).Some? && OnMinute(t) && Matches(Fields(expr).value, cal, t)
  }

  lemma CronNextIsLegal(expr: string, cal: Calendar, after: int)
    ensures var r := CronNext(expr, cal, after);
            r.Some? ==> after < r.value && LegalFire(expr, cal, r.value)
  {
    CronNextIsLeast(expr, cal, after);
  }

  // ----- next run and catch-up ------------------------------------------------------

  function RecoverableOneshot(runAt: int, now: int, lastRun: Option<int>): Option<int> {
    if lastRun.Some? || runAt < now - ONESHOT_GRACE then None else Some(runAt)
  }

  function ComputeNextRun(sch: Schedule, cal: Calendar, now: int, lastRun: Option<int>): Option<int> {
    match sch
    case Once(runAt) => RecoverableOneshot(runAt, now, lastRun)
    case Interval(minutes) => Some((if lastRun.Some? then lastRun.value else now) + minutes * MINUTE)
    case Cron(expr) => CronNext(expr, cal, if lastRun.Some? then lastRun.value else now)
  }

  function Cadence(sch: Schedule, cal: Calendar, now: int): (r: Option<int>)
    ensures r.Some? ==> r.value > 0
  {
    match sch
    case Once(_) => None
    case Interval(minutes) => if minutes > 0 then Some(minutes * MINUTE) else None
    case Cron(expr) =>
      var first := CronNext(expr, cal, now);
      if first.None? then None else
      var second := CronNext(expr, cal, first.value);
      if second.None? then None
      else if second.value - first.value > 0 then Some(second.value - first.value) else None
  }

  /** Half the period, rounded down, between the floor and the ceiling; the floor when it is unknown. */
  function CatchupGrace(sch: Schedule, cal: Calendar, now: int): (g: int)
    ensures CATCHUP_GRACE_MIN <= g <= CATCHUP_GRACE_MAX
    ensures g > CATCHUP_GRACE_MIN ==> Cadence(sch, cal, now).Some? && 2 * g <= Cadence(sch, cal, now).value
    ensures g < CATCHUP_GRACE_MAX && Cadence(sch, cal, now).Some? ==> Cadence(sch, cal, now).value < 2 * g + 2
  {
    var period := Cadence(sch, cal, now);
    if period.None? then CATCHUP_GRACE_MIN else
    var half := period.value / 2;
    if half < CATCHUP_GRACE_MIN then CATCHUP_GRACE_MIN
    else if half > CATCHUP_GRACE_MAX then CATCHUP_GRACE_MAX else half
  }

  /** A recurring schedule that can be computed at all is computed strictly later. */
  lemma NextRunIsLater(sch: Schedule, cal: Calendar, now: int)
    requires !sch.Once? && (sch.Interval? ==> sch.minutes >= 1)
    ensures var r := ComputeNextRun(sch, cal, now, None);
            && r == ComputeNextRun(sch, cal, now, Some(now))
            && (r.Some? ==> now < r.value)
            && (r.Some? && sch.Cron? ==> LegalFire(sch.expr, cal, r.value))
  {
    if sch.Cron? {
      CronNextIsLegal(sch.expr, cal, now);
    }
  }
}
