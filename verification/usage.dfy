/**
 Token accounting (src/pi_state/usage.ts): the coalescer and the apply path it feeds.
 Costs are real numbers; an absent counter is zero, which is how every reader treats it.
*/
module TokenUsage {
  import opened Text

  /** The summed fields: input, output, cache read, cache write, reasoning, api calls. */
  const FIELDS := 6
  const API_CALLS := 5
  type Counters = c: seq<int> | |c| == FIELDS witness [0, 0, 0, 0, 0, 0]

  const ZERO: Counters := [0, 0, 0, 0, 0, 0]

  function Plus(a: Counters, b: Counters): (r: Counters)
    ensures forall i | 0 <= i < FIELDS :: r[i] == a[i] + b[i]
  {
    seq(FIELDS, i requires 0 <= i < FIELDS => a[i] + b[i])
  }

  predicate AnyNonZero(c: Counters) {
    exists i | 0 <= i < FIELDS :: c[i] != 0
  }

  predicate AllNonNegative(c: Counters) {
    forall i | 0 <= i < FIELDS :: c[i] >= 0
  }

  /** The route fields of a delta; None is an absent field. */
  datatype Route = Route(
    model: Option<string>,
    costStatus: Option<string>, costSource: Option<string>, pricingVersion: Option<string>,
    provider: Option<string>, baseUrl: Option<string>, mode: Option<string>)

  datatype Delta = Delta(
    tokens: Counters, estimated: Option<real>, actual: Option<real>,
    route: Route, task: Option<string>, absolute: bool)

  datatype Queued = Queued(session: string, delta: Delta)

  // ----- coalescing -------------------------------------------------------------------

  /** In the key an absent field reads as the empty string. */
  function KeyText(f: Option<string>): string {
    if f.None? then "" else f.value
  }

  function KeyOf(q: Queued): Option<(string, seq<string>)> {
    if q.delta.absolute then None else
    var r := q.delta.route;
    Some((q.session, [KeyText(r.model), KeyText(r.costStatus), KeyText(r.costSource), KeyText(r.pricingVersion),
                      KeyText(r.provider), KeyText(r.baseUrl), KeyText(r.mode)]))
  }

  /** Sum of two optional costs; two absent costs stay absent. */
  function PlusCost(a: Option<real>, b: Option<real>): Option<real> {
    if b.None? then a else Some((if a.None? then 0.0 else a.value) + b.value)
  }

  function MergeDelta(x: Delta, q: Delta): Delta {
    Delta(Plus(x.tokens, q.tokens), PlusCost(x.estimated, q.estimated), PlusCost(x.actual, q.actual),
          x.route, x.task, x.absolute)
  }

  function Absorb(x: Queued, q: Queued): Queued {
    Queued(x.session, MergeDelta(x.delta, q.delta))
  }

  predicate Joins(x: Queued, q: Queued) {
    KeyOf(q).Some? && KeyOf(x) == KeyOf(q)
  }

  /** Runs of adjacent same-key deltas become one delta each. */
  function Coalesce(batch: seq<Queued>): (r: seq<Queued>)
    ensures batch != [] ==> r != []
  {
    if batch == [] then [] else Joined(Coalesce(batch[..|batch| - 1]), batch[|batch| - 1])
  }

  /** One more delta: absorbed by the last group, or a group of its own. */
  function Joined(done: seq<Queued>, q: Queued): (r: seq<Queued>)
    ensures r != []
  {
    if done != [] && Joins(done[|done| - 1], q)
    then done[..|done| - 1] + [Absorb(done[|done| - 1], q)]
    else done + [q]
  }

  method CoalesceTokenDeltas(batch: seq<Queued>) returns (groups: seq<Queued>)
    ensures groups == Coalesce(batch)
  {
    groups := [];
    for i := 0 to |batch|
      invariant groups == Coalesce(batch[..i])
    {
      assert batch[..i + 1][..i] == batch[..i];
      var q := batch[i];
      ghost var next := Joined(groups, q);
      if groups != [] && KeyOf(q).Some? && KeyOf(groups[|groups| - 1]) == KeyOf(q) {
        var merged := groups[|groups| - 1];
        groups := groups[|groups| - 1 := Absorb(merged, q)];
      } else {
        groups := groups + [q];
      }
      assert groups == next;
    }
    assert batch[..|batch|] == batch;
  }

  /** Adjacent groups never share a key. */
  ghost predicate Separated(groups: seq<Queued>) {
    forall i | 0 < i < |groups| :: !Joins(groups[i - 1], groups[i])
  }

  lemma {:induction false} CoalesceSeparates(batch: seq<Queued>)
    ensures Separated(Coalesce(batch))
  {
    if batch == [] {
    } else {
      CoalesceSeparates(batch[..|batch| - 1]);
    }
  }

  lemma {:induction false} SeparatedIsFixed(groups: seq<Queued>)
    requires Separated(groups)
    ensures Coalesce(groups) == groups
  {
    if groups == [] {
    } else {
      SeparatedIsFixed(groups[..|groups| - 1]);
    }
  }

  lemma CoalesceIdempotent(batch: seq<Queued>)
    ensures Coalesce(Coalesce(batch)) == Coalesce(batch)
  {
    CoalesceSeparates(batch);
    SeparatedIsFixed(Coalesce(batch));
  }

  // ----- the tables -----------------------------------------------------------------------

  /** A sessions row; None is a null column. */
  datatype SessionRow = SessionRow(
    tokens: Counters, estimated: Option<real>, actual: Option<real>,
    costStatus: Option<string>, costSource: Option<string>, pricingVersion: Option<string>,
    model: Option<string>, provider: Option<string>, baseUrl: Option<string>, mode: Option<string>)

  const FRESH_ROW := SessionRow(ZERO, None, None, None, None, None, None, None, None, None)

  /** The billing route a usage row is attributed to. */
  datatype UsageRoute = UsageRoute(session: string, model: string, provider: string, baseUrl: string, mode: string)
  datatype UsageRow = UsageRow(route: UsageRoute, task: string, tokens: Counters, estimated: real, actual: real)

  datatype Tables = Tables(sessions: map<string, SessionRow>, usage: seq<UsageRow>)

  function Coalesced(a: Option<string>, b: Option<string>): Option<string> {
    if a.Some? then a else b
  }

  predicate Truthy(c: Option<real>) { c.Some? && c.value != 0.0 }
  predicate Named(f: Option<string>) { f.Some? && f.value != "" }
  function Or(c: Option<real>, d: real): real { if c.Some? then c.value else d }

  predicate Accounted(d: Delta) {
    AnyNonZero(d.tokens) || Truthy(d.estimated) || Truthy(d.actual)
  }

  function RowOf(sessions: map<string, SessionRow>, session: string): SessionRow {
    if session in sessions then sessions[session] else FRESH_ROW
  }

  /** The first accounted event on a row without calls stamps the authoritative route. */
  function Stamped(row: SessionRow, d: Delta): SessionRow {
    if row.tokens[API_CALLS] == 0 && Accounted(d) && Named(d.route.model) && Named(d.route.provider)
       && (row.model != d.route.model || row.provider != d.route.provider)
    then row.(model := d.route.model, provider := d.route.provider,
              baseUrl := Some(KeyText(d.route.baseUrl)), mode := Some(KeyText(d.route.mode)))
    else row
  }

  function Updated(row: SessionRow, d: Delta): SessionRow {
    var accounted := Accounted(d);
    row.(
      tokens := if d.absolute then d.tokens else Plus(row.tokens, d.tokens),
      estimated := if d.absolute then Some(Or(d.estimated, 0.0))
                   else Some(Or(row.estimated, 0.0) + Or(d.estimated, 0.0)),
      actual := if d.actual.None? then row.actual
                else if d.absolute then d.actual
                else Some(Or(row.actual, 0.0) + d.actual.value),
      costStatus := Coalesced(d.route.costStatus, row.costStatus),
      costSource := Coalesced(d.route.costSource, row.costSource),
      pricingVersion := Coalesced(d.route.pricingVersion, row.pricingVersion),
      provider := Coalesced(row.provider, if accounted then d.route.provider else None),
      baseUrl := Coalesced(row.baseUrl, if accounted then d.route.baseUrl else None),
      mode := Coalesced(row.mode, if accounted then d.route.mode else None),
      model := Coalesced(row.model, if accounted then d.route.model else None))
  }

  /** The sessions row after one delta. */
  function After(row: SessionRow, d: Delta): SessionRow {
    Updated(Stamped(row, d), d)
  }

  predicate RecordsUsage(d: Delta) {
    !d.absolute && (AnyNonZero(d.tokens) || Truthy(d.estimated))
  }

  function UsageRouteOf(session: string, row: SessionRow, d: Delta): UsageRoute {
    UsageRoute(session,
               KeyText(Coalesced(d.route.model, row.model)), KeyText(Coalesced(d.route.provider, row.provider)),
               KeyText(Coalesced(d.route.baseUrl, row.baseUrl)), KeyText(Coalesced(d.route.mode, row.mode)))
  }

  function Added(row: UsageRow, r: UsageRow): UsageRow {
    row.(tokens := Plus(row.tokens, r.tokens), estimated := row.estimated + r.estimated, actual := row.actual + r.actual)
  }

  /** Insert, or add to the row with the same route and task. */
  function Upsert(rows: seq<UsageRow>, r: UsageRow): seq<UsageRow> {
    if rows == [] then [r]
    else if rows[0].route == r.route && rows[0].task == r.task then
      [Added(rows[0], r)] + rows[1..]
    else [rows[0]] + Upsert(rows[1..], r)
  }

  lemma {:induction false} UpsertPosition(rows: seq<UsageRow>, r: UsageRow, i: nat)
    requires i <= |rows|
    requires forall k | 0 <= k < i :: !(rows[k].route == r.route && rows[k].task == r.task)
    requires i < |rows| ==> rows[i].route == r.route && rows[i].task == r.task
    ensures Upsert(rows, r) == if i < |rows| then rows[i := Added(rows[i], r)] else rows + [r]
  {
    if i == 0 {
    } else {
      UpsertPosition(rows[1..], r, i - 1);
      assert rows == [rows[0]] + rows[1..];
    }
  }

  function Apply(t: Tables, q: Queued): Tables {
    var row := After(RowOf(t.sessions, q.session), q.delta);
    var d := q.delta;
    Tables(
      t.sessions[q.session := row],
      if RecordsUsage(d)
      then Upsert(t.usage, UsageRow(UsageRouteOf(q.session, row, d), KeyText(d.task), d.tokens,
                                    Or(d.estimated, 0.0), Or(d.actual, 0.0)))
      else t.usage)
  }

  lemma RowAfterApply(t: Tables, q: Queued)
    ensures q.session in Apply(t, q).sessions
    ensures RowOf(Apply(t, q).sessions, q.session) == Apply(t, q).sessions[q.session]
         == After(RowOf(t.sessions, q.session), q.delta)
  {
  }

  function ApplyAll(t: Tables, batch: seq<Queued>): Tables {
    if batch == [] then t else Apply(ApplyAll(t, batch[..|batch| - 1]), batch[|batch| - 1])
  }

  /** Counters and estimated cost of one session and route, over all tasks. */
  function Total(rows: seq<UsageRow>, route: UsageRoute): (Counters, real) {
    if rows == [] then (ZERO, 0.0) else
    var (c, e) := Total(rows[1..], route);
    if rows[0].route == route then (Plus(rows[0].tokens, c), rows[0].estimated + e) else (c, e)
  }

  /** The sessions table, and usage summed over tasks: what a batch means. */
  ghost predicate SameMeaning(a: Tables, b: Tables) {
    a.sessions == b.sessions && forall route :: Total(a.usage, route) == Total(b.usage, route)
  }

  lemma {:induction false} UpsertAdds(rows: seq<UsageRow>, r: UsageRow, route: UsageRoute)
    ensures Total(Upsert(rows, r), route).0
         == if r.route == route then Plus(Total(rows, route).0, r.tokens) else Total(rows, route).0
    ensures Total(Upsert(rows, r), route).1
         == Total(rows, route).1 + if r.route == route then r.estimated else 0.0
  {
    if rows == [] {
    } else {
      UpsertAdds(rows[1..], r, route);
      var rest := Upsert(rows[1..], r);
      if rows[0].route == r.route && rows[0].task == r.task {
        assert Upsert(rows, r)[1..] == rows[1..];
      } else {
        assert Upsert(rows, r) == [rows[0]] + rest && Upsert(rows, r)[1..] == rest;
      }
    }
  }

  lemma ApplyRespectsMeaning(a: Tables, b: Tables, q: Queued)
    requires SameMeaning(a, b)
    ensures SameMeaning(Apply(a, q), Apply(b, q))
  {
    var row := After(RowOf(a.sessions, q.session), q.delta);
    var d := q.delta;
    var r := UsageRow(UsageRouteOf(q.session, row, d), KeyText(d.task), d.tokens,
                      Or(d.estimated, 0.0), Or(d.actual, 0.0));
    UpsertRespectsTotals(a.usage, b.usage, r);
    assert Apply(a, q).sessions == Apply(b, q).sessions;
    assert Apply(a, q).usage == if RecordsUsage(d) then Upsert(a.usage, r) else a.usage;
    assert Apply(b, q).usage == if RecordsUsage(d) then Upsert(b.usage, r) else b.usage;
  }

  lemma UpsertRespectsTotals(a: seq<UsageRow>, b: seq<UsageRow>, r: UsageRow)
    requires forall route :: Total(a, route) == Total(b, route)
    ensures forall route :: Total(Upsert(a, r), route) == Total(Upsert(b, r), route)
  {
    forall route ensures Total(Upsert(a, r), route) == Total(Upsert(b, r), route) {
      UpsertAdds(a, r, route);
      UpsertAdds(b, r, route);
    }
  }

  // ----- coalescing preserves meaning ---------------------------------------------------

  predicate NonNegative(d: Delta) {
    AllNonNegative(d.tokens) && Or(d.estimated, 0.0) >= 0.0 && Or(d.actual, 0.0) >= 0.0
  }

  /** No route field is the empty string. */
  predicate WellRouted(r: Route) {
    && r.model != Some("") && r.costStatus != Some("") && r.costSource != Some("") && r.pricingVersion != Some("")
    && r.provider != Some("") && r.baseUrl != Some("") && r.mode != Some("")
  }

  predicate Regular(batch: seq<Queued>) {
    forall q <- batch :: NonNegative(q.delta) && WellRouted(q.delta.route)
  }

  lemma KeyFixesRoute(x: Queued, q: Queued)
    requires Joins(x, q) && WellRouted(x.delta.route) && WellRouted(q.delta.route)
    ensures x.session == q.session && x.delta.route == q.delta.route && !x.delta.absolute && !q.delta.absolute
  {
    var a, b := KeyOf(x).value.1, KeyOf(q).value.1;
    assert a[0] == b[0] && a[1] == b[1] && a[2] == b[2] && a[3] == b[3];
    assert a[4] == b[4] && a[5] == b[5] && a[6] == b[6];
  }

  /** Two deltas that may be merged. */
  predicate Pair(x: Delta, q: Delta) {
    x.route == q.route && !x.absolute && !q.absolute && NonNegative(x) && NonNegative(q)
  }

  predicate Stamps(row: SessionRow, d: Delta) {
    && row.tokens[API_CALLS] == 0 && Accounted(d) && Named(d.route.model) && Named(d.route.provider)
    && (row.model != d.route.model || row.provider != d.route.provider)
  }

  lemma SumsOfNonNegatives(a: Counters, b: Counters)
    requires AllNonNegative(a) && AllNonNegative(b)
    ensures AnyNonZero(Plus(a, b)) <==> AnyNonZero(a) || AnyNonZero(b)
  {
  }

  lemma CostsOfNonNegatives(a: Option<real>, b: Option<real>)
    requires Or(a, 0.0) >= 0.0 && Or(b, 0.0) >= 0.0
    ensures Truthy(PlusCost(a, b)) <==> Truthy(a) || Truthy(b)
  {
  }

  lemma PairAccounted(x: Delta, q: Delta)
    requires Pair(x, q)
    ensures Accounted(MergeDelta(x, q)) <==> Accounted(x) || Accounted(q)
    ensures RecordsUsage(MergeDelta(x, q)) <==> RecordsUsage(x) || RecordsUsage(q)
  {
    SumsOfNonNegatives(x.tokens, q.tokens);
    CostsOfNonNegatives(x.estimated, q.estimated);
    CostsOfNonNegatives(x.actual, q.actual);
  }

  lemma PlusAssociates(a: Counters, b: Counters, c: Counters)
    ensures Plus(Plus(a, b), c) == Plus(a, Plus(b, c)) && Plus(ZERO, a) == a && Plus(a, ZERO) == a
  {
  }

  lemma PlusCostAdds(a: Option<real>, b: Option<real>)
    ensures Or(PlusCost(a, b), 0.0) == Or(a, 0.0) + Or(b, 0.0)
  {
  }

  /** The numeric columns do not depend on the stamp. */
  lemma Numbers(row: SessionRow, d: Delta)
    requires !d.absolute
    ensures After(row, d).tokens == Plus(row.tokens, d.tokens)
    ensures After(row, d).estimated == Some(Or(row.estimated, 0.0) + Or(d.estimated, 0.0))
    ensures After(row, d).actual == if d.actual.None? then row.actual else Some(Or(row.actual, 0.0) + d.actual.value)
  {
  }

  lemma ActualAbsorbs(row: SessionRow, x: Delta, q: Delta)
    requires !x.absolute && !q.absolute
    ensures After(row, MergeDelta(x, q)).actual == After(After(row, x), q).actual
  {
    Numbers(row, x);
    Numbers(After(row, x), q);
    Numbers(row, MergeDelta(x, q));
  }

  lemma NumbersAbsorb(row: SessionRow, x: Delta, q: Delta)
    requires !x.absolute && !q.absolute
    ensures After(row, MergeDelta(x, q)).tokens == After(After(row, x), q).tokens
    ensures After(row, MergeDelta(x, q)).estimated == After(After(row, x), q).estimated
    ensures After(row, MergeDelta(x, q)).actual == After(After(row, x), q).actual
  {
    ActualAbsorbs(row, x, q);
    var first := After(row, x);
    Numbers(row, x);
    Numbers(first, q);
    Numbers(row, MergeDelta(x, q));
    PlusAssociates(row.tokens, x.tokens, q.tokens);
    PlusCostAdds(x.estimated, q.estimated);
    var both := After(first, q);
    assert both.tokens == Plus(Plus(row.tokens, x.tokens), q.tokens);
    assert both.estimated == Some(Or(row.estimated, 0.0) + Or(x.estimated, 0.0) + Or(q.estimated, 0.0));
  }

  /** Once accounted, a second delta of the same route changes no route column. */
  lemma RouteSettled(row: SessionRow, x: Delta, q: Delta)
    requires x.route == q.route && Accounted(x) && !x.absolute && NonNegative(x) && row.tokens[API_CALLS] >= 0
    ensures !Stamps(After(row, x), q)
    ensures var first := After(row, x);
            var second := After(first, q);
            && second.model == first.model && second.provider == first.provider
            && second.baseUrl == first.baseUrl && second.mode == first.mode
  {
    if Named(x.route.model) && Named(x.route.provider) && row.tokens[API_CALLS] == 0 {
      assert Stamped(row, x).model == x.route.model && Stamped(row, x).provider == x.route.provider;
    }
  }

  /** An unaccounted delta changes no route column and no counter. */
  lemma UnaccountedIsSilent(row: SessionRow, x: Delta)
    requires !Accounted(x) && !x.absolute && NonNegative(x)
    ensures var first := After(row, x);
            && first.tokens == row.tokens
            && first.model == row.model && first.provider == row.provider
            && first.baseUrl == row.baseUrl && first.mode == row.mode
  {
    assert x.tokens == ZERO;
  }

  /** The route columns depend on the row's route columns and call count, and on being accounted. */
  lemma RouteColumnsDepend(row: SessionRow, other: SessionRow, d: Delta, e: Delta)
    requires row.model == other.model && row.provider == other.provider && row.baseUrl == other.baseUrl
    requires row.mode == other.mode && row.tokens[API_CALLS] == other.tokens[API_CALLS]
    requires d.route == e.route && (Accounted(d) <==> Accounted(e))
    ensures var a, b := After(row, d), After(other, e);
            a.model == b.model && a.provider == b.provider && a.baseUrl == b.baseUrl && a.mode == b.mode
  {
    assert Stamps(row, d) <==> Stamps(other, e);
  }

  lemma RouteAbsorbs(row: SessionRow, x: Delta, q: Delta)
    requires Pair(x, q) && row.tokens[API_CALLS] >= 0
    ensures var a, b := After(row, MergeDelta(x, q)), After(After(row, x), q);
            a.model == b.model && a.provider == b.provider && a.baseUrl == b.baseUrl && a.mode == b.mode
  {
    PairAccounted(x, q);
    if Accounted(x) {
      RouteColumnsDepend(row, row, MergeDelta(x, q), x);
      RouteSettled(row, x, q);
    } else {
      UnaccountedIsSilent(row, x);
      RouteColumnsDepend(row, After(row, x), MergeDelta(x, q), q);
    }
  }

  /** One row: applying the merged delta leaves it as applying the two deltas in turn. */
  lemma RowAbsorbs(row: SessionRow, x: Delta, q: Delta)
    requires Pair(x, q) && row.tokens[API_CALLS] >= 0
    ensures After(row, MergeDelta(x, q)) == After(After(row, x), q)
  {
    NumbersAbsorb(row, x, q);
    RouteAbsorbs(row, x, q);
    CostColumns(row, MergeDelta(x, q));
    CostColumns(row, x);
    CostColumns(After(row, x), q);
  }

  lemma CostColumns(row: SessionRow, d: Delta)
    ensures After(row, d).costStatus == Coalesced(d.route.costStatus, row.costStatus)
    ensures After(row, d).costSource == Coalesced(d.route.costSource, row.costSource)
    ensures After(row, d).pricingVersion == Coalesced(d.route.pricingVersion, row.pricingVersion)
  {
  }

  // ----- when one row agrees, exactly -------------------------------------------------------

  /** What a delta does to the route columns of a row: nothing, fill what is null, or stamp them all. */
  datatype Touch = Untouched | Filled | Stamping

  function TouchOf(row: SessionRow, d: Delta): Touch {
    if !Accounted(d) then Untouched else if Stamps(row, d) then Stamping else Filled
  }

  /** The route columns after a touch. */
  function Touched(row: SessionRow, r: Route, t: Touch): seq<Option<string>> {
    match t
    case Untouched => [row.model, row.provider, row.baseUrl, row.mode]
    case Filled => [Coalesced(row.model, r.model), Coalesced(row.provider, r.provider),
                    Coalesced(row.baseUrl, r.baseUrl), Coalesced(row.mode, r.mode)]
    case Stamping => [r.model, r.provider, Some(KeyText(r.baseUrl)), Some(KeyText(r.mode))]
  }

  /** The stronger of two touches. */
  function Stronger(a: Touch, b: Touch): Touch {
    if a.Stamping? || b.Stamping? then Stamping else if a.Filled? || b.Filled? then Filled else Untouched
  }

  /** The touch of two deltas in turn. */
  function InTurn(row: SessionRow, x: Delta, q: Delta): Touch {
    Stronger(TouchOf(row, x), TouchOf(After(row, x), q))
  }

  lemma TouchMeans(row: SessionRow, d: Delta)
    ensures var a := After(row, d);
            [a.model, a.provider, a.baseUrl, a.mode] == Touched(row, d.route, TouchOf(row, d))
  {
  }

  lemma TouchedTwice(row: SessionRow, mid: SessionRow, r: Route, a: Touch, b: Touch)
    requires [mid.model, mid.provider, mid.baseUrl, mid.mode] == Touched(row, r, a)
    requires a.Stamping? || b.Stamping? ==> Named(r.model) && Named(r.provider)
    ensures Touched(mid, r, b) == Touched(row, r, Stronger(a, b))
  {
    var c := [mid.model, mid.provider, mid.baseUrl, mid.mode];
    assert mid.model == c[0] && mid.provider == c[1] && mid.baseUrl == c[2] && mid.mode == c[3];
  }

  /**
   Two deltas of one route, whatever their signs and the call count, leave a row as their sum does
   exactly when the sum touches its route columns as the two in turn do.
  */
  lemma RowAgreesExactly(row: SessionRow, x: Delta, q: Delta)
    requires x.route == q.route && !x.absolute && !q.absolute
    ensures After(row, MergeDelta(x, q)) == After(After(row, x), q)
       <==> Touched(row, x.route, TouchOf(row, MergeDelta(x, q))) == Touched(row, x.route, InTurn(row, x, q))
  {
    var m, mid := MergeDelta(x, q), After(row, x);
    NumbersAbsorb(row, x, q);
    CostColumns(row, m);
    CostColumns(row, x);
    CostColumns(mid, q);
    TouchMeans(row, m);
    TouchMeans(row, x);
    TouchMeans(mid, q);
    TouchedTwice(row, mid, x.route, TouchOf(row, x), TouchOf(mid, q));
    SameRow(After(row, m), After(mid, q));
  }

  lemma SameRow(a: SessionRow, b: SessionRow)
    requires a.tokens == b.tokens && a.estimated == b.estimated && a.actual == b.actual
    requires a.costStatus == b.costStatus && a.costSource == b.costSource && a.pricingVersion == b.pricingVersion
    ensures a == b <==> [a.model, a.provider, a.baseUrl, a.mode] == [b.model, b.provider, b.baseUrl, b.mode]
  {
    var p, q := [a.model, a.provider, a.baseUrl, a.mode], [b.model, b.provider, b.baseUrl, b.mode];
    if p == q {
      assert p[0] == q[0] && p[1] == q[1] && p[2] == q[2] && p[3] == q[3];
    }
  }

  /** A recorded delta is attributed to the same route before and after the other half is applied. */
  lemma AttributionAbsorbs(session: string, row: SessionRow, x: Delta, q: Delta)
    requires Pair(x, q) && row.tokens[API_CALLS] >= 0
    ensures var first, second := After(row, x), After(After(row, x), q);
            && (RecordsUsage(x) ==> UsageRouteOf(session, first, x) == UsageRouteOf(session, second, MergeDelta(x, q)))
            && (RecordsUsage(q) ==> UsageRouteOf(session, second, q) == UsageRouteOf(session, second, MergeDelta(x, q)))
  {
    if RecordsUsage(x) {
      RouteSettled(row, x, q);
    }
  }

  lemma UnrecordedAddsNothing(d: Delta)
    requires NonNegative(d) && !d.absolute && !RecordsUsage(d)
    ensures d.tokens == ZERO && Or(d.estimated, 0.0) == 0.0
  {
  }

  lemma ApplyAbsorbed(t: Tables, x: Queued, q: Queued)
    requires CallsCounted(t)
    requires Joins(x, q) && NonNegative(x.delta) && NonNegative(q.delta)
    requires WellRouted(x.delta.route) && WellRouted(q.delta.route)
    ensures SameMeaning(Apply(t, Absorb(x, q)), Apply(Apply(t, x), q))
  {
    KeyFixesRoute(x, q);
    var row := RowOf(t.sessions, x.session);
    RowAbsorbs(row, x.delta, q.delta);
    assert RowOf(Apply(t, x).sessions, q.session) == After(row, x.delta);
    forall route
      ensures Total(Apply(t, Absorb(x, q)).usage, route) == Total(Apply(Apply(t, x), q).usage, route)
    {
      TotalsAbsorb(t, x, q, route);
    }
  }

  /** If recorded, the delta goes to this route exactly when `here`. */
  predicate Goes(t: Tables, q: Queued, route: UsageRoute, here: bool) {
    && NonNegative(q.delta) && !q.delta.absolute
    && (RecordsUsage(q.delta) ==>
          (here <==> UsageRouteOf(q.session, After(RowOf(t.sessions, q.session), q.delta), q.delta) == route))
  }

  function Raised(total: (Counters, real), d: Delta, here: bool): (Counters, real) {
    if here then (Plus(total.0, d.tokens), total.1 + Or(d.estimated, 0.0)) else total
  }

  lemma RaisedTwice(total: (Counters, real), x: Delta, q: Delta, here: bool)
    ensures Raised(Raised(total, x, here), q, here) == Raised(total, MergeDelta(x, q), here)
  {
    PlusAssociates(total.0, x.tokens, q.tokens);
    PlusCostAdds(x.estimated, q.estimated);
  }

  /** A delta adds itself to a route, or nothing, whether or not it is recorded. */
  lemma Contribution(t: Tables, q: Queued, route: UsageRoute, here: bool)
    requires Goes(t, q, route, here)
    ensures Total(Apply(t, q).usage, route) == Raised(Total(t.usage, route), q.delta, here)
  {
    TotalAfter(t, q, route);
    if !RecordsUsage(q.delta) {
      UnrecordedAddsNothing(q.delta);
      PlusAssociates(Total(t.usage, route).0, ZERO, ZERO);
    }
  }

  lemma TotalsAbsorb(t: Tables, x: Queued, q: Queued, route: UsageRoute)
    requires CallsCounted(t) && x.session == q.session && Pair(x.delta, q.delta)
    ensures Total(Apply(t, Absorb(x, q)).usage, route) == Total(Apply(Apply(t, x), q).usage, route)
  {
    var m := Absorb(x, q);
    var here := PairHere(t, x, q, route);
    Contribution(t, x, route, here);
    Contribution(Apply(t, x), q, route, here);
    Contribution(t, m, route, here);
    RaisedTwice(Total(t.usage, route), x.delta, q.delta, here);
  }

  /** Both halves of a pair, and the pair merged, go to the same route. */
  lemma PairHere(t: Tables, x: Queued, q: Queued, route: UsageRoute) returns (here: bool)
    requires CallsCounted(t) && x.session == q.session && Pair(x.delta, q.delta)
    ensures Goes(t, x, route, here) && Goes(Apply(t, x), q, route, here) && Goes(t, Absorb(x, q), route, here)
  {
    var row := RowOf(t.sessions, x.session);
    var m := MergeDelta(x.delta, q.delta);
    RowAbsorbs(row, x.delta, q.delta);
    AttributionAbsorbs(x.session, row, x.delta, q.delta);
    MergedNonNegative(x.delta, q.delta);
    RowAfterApply(t, x);
    here := UsageRouteOf(x.session, After(row, m), m) == route;
  }

  lemma MergedNonNegative(x: Delta, q: Delta)
    requires NonNegative(x) && NonNegative(q)
    ensures NonNegative(MergeDelta(x, q))
  {
  }

  /** What one delta adds to a route's total. */
  lemma TotalAfter(t: Tables, q: Queued, route: UsageRoute)
    ensures var adds := RecordsUsage(q.delta)
                        && UsageRouteOf(q.session, After(RowOf(t.sessions, q.session), q.delta), q.delta) == route;
            var (c, e) := Total(t.usage, route);
            Total(Apply(t, q).usage, route)
              == (if adds then Plus(c, q.delta.tokens) else c, if adds then e + Or(q.delta.estimated, 0.0) else e)
  {
    var d := q.delta;
    var row := After(RowOf(t.sessions, q.session), d);
    UpsertAdds(t.usage, UsageRow(UsageRouteOf(q.session, row, d), KeyText(d.task), d.tokens,
                                 Or(d.estimated, 0.0), Or(d.actual, 0.0)), route);
  }

  /** No sessions row counts a negative number of calls. */
  predicate CallsCounted(t: Tables) {
    forall k <- t.sessions :: t.sessions[k].tokens[API_CALLS] >= 0
  }

  lemma {:induction false} CallsStayCounted(t: Tables, batch: seq<Queued>)
    requires CallsCounted(t) && Regular(batch)
    ensures CallsCounted(ApplyAll(t, batch))
  {
    if batch == [] {
    } else {
      CallsStayCounted(t, batch[..|batch| - 1]);
      assert batch[|batch| - 1] in batch;
    }
  }

  lemma {:induction false} GroupsRegular(batch: seq<Queued>)
    requires Regular(batch)
    ensures Regular(Coalesce(batch))
  {
    if batch == [] {
    } else {
      var done, q := Coalesce(batch[..|batch| - 1]), batch[|batch| - 1];
      GroupsRegular(batch[..|batch| - 1]);
      assert q in batch && Regular(done);
      if done != [] && Joins(done[|done| - 1], q) {
        var last := done[|done| - 1];
        assert last in done;
        MergedNonNegative(last.delta, q.delta);
        assert Coalesce(batch) == done[..|done| - 1] + [Absorb(last, q)];
      } else {
        assert Coalesce(batch) == done + [q];
      }
    }
  }

  /**
   Coalescing preserves what a batch means: every sessions row is the same, and so are the
   counters and the estimated cost recorded for every session and route, summed over tasks.
  */
  lemma {:induction false} CoalescePreservesMeaning(t: Tables, batch: seq<Queued>)
    requires CallsCounted(t) && Regular(batch)
    ensures SameMeaning(ApplyAll(t, Coalesce(batch)), ApplyAll(t, batch))
  {
    if batch == [] {
    } else {
      var init, q := batch[..|batch| - 1], batch[|batch| - 1];
      var done := Coalesce(init);
      assert q in batch && Regular(init);
      CoalescePreservesMeaning(t, init);
      ApplyRespectsMeaning(ApplyAll(t, done), ApplyAll(t, init), q);
      GroupsRegular(init);
      JoinedPreservesMeaning(t, done, q);
    }
  }

  lemma JoinedPreservesMeaning(t: Tables, done: seq<Queued>, q: Queued)
    requires CallsCounted(t) && Regular(done) && NonNegative(q.delta) && WellRouted(q.delta.route)
    ensures SameMeaning(ApplyAll(t, Joined(done, q)), Apply(ApplyAll(t, done), q))
  {
    if done != [] && Joins(done[|done| - 1], q) {
      var front, last := done[..|done| - 1], done[|done| - 1];
      assert last in done && Regular(front);
      CallsStayCounted(t, front);
      ApplyAbsorbed(ApplyAll(t, front), last, q);
      assert (front + [Absorb(last, q)])[..|front|] == front;
    } else {
      assert (done + [q])[..|done|] == done;
    }
  }

  lemma {:induction false} ApplyAllSplits(t: Tables, a: seq<Queued>, b: seq<Queued>)
    ensures ApplyAll(t, a + b) == ApplyAll(ApplyAll(t, a), b)
    decreases |b|
  {
    if b == [] {
      assert a + b == a;
    } else {
      var n := |b| - 1;
      assert (a + b)[..|a + b| - 1] == a + b[..n];
      ApplyAllSplits(t, a, b[..n]);
    }
  }

  lemma {:induction false} ApplyAllRespectsMeaning(a: Tables, b: Tables, batch: seq<Queued>)
    requires SameMeaning(a, b)
    ensures SameMeaning(ApplyAll(a, batch), ApplyAll(b, batch))
  {
    if batch == [] {
    } else {
      var n := |batch| - 1;
      ApplyAllRespectsMeaning(a, b, batch[..n]);
      ApplyRespectsMeaning(ApplyAll(a, batch[..n]), ApplyAll(b, batch[..n]), batch[n]);
    }
  }

  /** The writer's work: batch after batch, each coalesced. */
  function ApplyBatches(t: Tables, batches: seq<seq<Queued>>): Tables {
    if batches == [] then t
    else ApplyAll(ApplyBatches(t, batches[..|batches| - 1]), Coalesce(batches[|batches| - 1]))
  }

  lemma {:induction false} BatchedCallsStayCounted(t: Tables, batches: seq<seq<Queued>>)
    requires CallsCounted(t) && forall b <- batches :: Regular(b)
    ensures CallsCounted(ApplyBatches(t, batches))
  {
    if batches == [] {
    } else {
      var last := batches[|batches| - 1];
      assert last in batches;
      BatchedCallsStayCounted(t, batches[..|batches| - 1]);
      GroupsRegular(last);
      CallsStayCounted(ApplyBatches(t, batches[..|batches| - 1]), Coalesce(last));
    }
  }

  /** Wherever the queue happens to be cut into batches, the tables mean the deltas in order. */
  lemma {:induction false} BatchingIsInvisible(t: Tables, batches: seq<seq<Queued>>)
    requires CallsCounted(t) && forall b <- batches :: Regular(b)
    ensures SameMeaning(ApplyBatches(t, batches), ApplyAll(t, Flatten(batches)))
  {
    if batches == [] {
    } else {
      var front, last := batches[..|batches| - 1], batches[|batches| - 1];
      assert last in batches;
      BatchingIsInvisible(t, front);
      BatchedCallsStayCounted(t, front);
      CoalescePreservesMeaning(ApplyBatches(t, front), last);
      ApplyAllRespectsMeaning(ApplyBatches(t, front), ApplyAll(t, Flatten(front)), last);
      ApplyAllSplits(t, Flatten(front), last);
    }
  }

  // ----- the three conditions are needed ----------------------------------------------------

  const BARE := Route(None, None, None, None, None, None, None)
  const EMPTY := Tables(map[], [])

  function Call(n: int, r: Route): Queued {
    Queued("s", Delta([n, 0, 0, 0, 0, 0], None, None, r, None, false))
  }

  lemma ApplyTwo(t: Tables, a: Queued, b: Queued)
    ensures ApplyAll(t, [a, b]) == Apply(Apply(t, a), b) && ApplyAll(t, [a]) == Apply(t, a)
    ensures Joins(a, b) ==> Coalesce([a, b]) == [Absorb(a, b)]
  {
    assert [a, b][..1] == [a] && [a][..0] == [];
    assert Coalesce([a]) == [a];
    assert ApplyAll(t, [a]) == Apply(ApplyAll(t, []), a);
  }

  /** An accounted delta that names no model never stamps the route; it only fills an absent model. */
  lemma UnnamedModel(row: SessionRow, d: Delta)
    requires !Named(d.route.model) && d.tokens[0] != 0
    ensures After(row, d).model == Coalesced(row.model, d.route.model)
  {
    assert Accounted(d);
  }

  const BLANK := BARE.(model := Some(""))
  const FIRST_CALL := Call(1, BARE)
  const BLANK_CALL := Call(1, BLANK)

  lemma RawBatchShowsBlank()
    ensures ApplyAll(EMPTY, [FIRST_CALL, BLANK_CALL]).sessions["s"].model == Some("")
  {
    ApplyTwo(EMPTY, FIRST_CALL, BLANK_CALL);
    RowAfterApply(EMPTY, FIRST_CALL);
    RowAfterApply(Apply(EMPTY, FIRST_CALL), BLANK_CALL);
    UnnamedModel(FRESH_ROW, FIRST_CALL.delta);
    UnnamedModel(After(FRESH_ROW, FIRST_CALL.delta), BLANK_CALL.delta);
  }

  lemma BlankCallJoins()
    ensures Coalesce([FIRST_CALL, BLANK_CALL]) == [Absorb(FIRST_CALL, BLANK_CALL)]
  {
    ApplyTwo(EMPTY, FIRST_CALL, BLANK_CALL);
  }

  lemma MergedBatchDropsBlank(m: Queued)
    requires m == Absorb(FIRST_CALL, BLANK_CALL)
    ensures "s" in ApplyAll(EMPTY, [m]).sessions && ApplyAll(EMPTY, [m]).sessions["s"].model == None
  {
    ApplyTwo(EMPTY, m, BLANK_CALL);
    RowAfterApply(EMPTY, m);
    UnnamedModel(FRESH_ROW, m.delta);
  }

  /** An empty route string shares a key with an absent one, and the model column shows it. */
  lemma EmptyStringRouteDiffers()
    ensures ApplyAll(EMPTY, Coalesce([FIRST_CALL, BLANK_CALL])).sessions
         != ApplyAll(EMPTY, [FIRST_CALL, BLANK_CALL]).sessions
  {
    RawBatchShowsBlank();
    BlankCallJoins();
    MergedBatchDropsBlank(Absorb(FIRST_CALL, BLANK_CALL));
  }

  const PRICED := BARE.(model := Some("m"), provider := Some("p"))

  lemma CallThenRefund()
    ensures ApplyAll(EMPTY, [Call(1, PRICED), Call(-1, PRICED)]).sessions["s"].model == Some("m")
  {
    var a, b := Call(1, PRICED), Call(-1, PRICED);
    ApplyTwo(EMPTY, a, b);
    RowAfterApply(EMPTY, a);
    RowAfterApply(Apply(EMPTY, a), b);
    CallStamps();
    RouteSettled(FRESH_ROW, a.delta, b.delta);
  }

  lemma CallStamps()
    ensures var d := Call(1, PRICED).delta;
            Accounted(d) && NonNegative(d) && After(FRESH_ROW, d).model == Some("m")
  {
    assert Call(1, PRICED).delta.tokens[0] == 1;
  }

  lemma CallAndRefundIsSilent()
    ensures var d := MergeDelta(Call(1, PRICED).delta, Call(-1, PRICED).delta);
            d.tokens == ZERO && !Accounted(d) && NonNegative(d) && !d.absolute
  {
    assert Plus([1, 0, 0, 0, 0, 0], [-1, 0, 0, 0, 0, 0]) == ZERO;
  }

  lemma CallAndRefundMerged()
    ensures ApplyAll(EMPTY, Coalesce([Call(1, PRICED), Call(-1, PRICED)])).sessions["s"].model == None
  {
    var a, b := Call(1, PRICED), Call(-1, PRICED);
    var m := Absorb(a, b);
    ApplyTwo(EMPTY, a, b);
    ApplyTwo(EMPTY, m, b);
    RowAfterApply(EMPTY, m);
    CallAndRefundIsSilent();
    UnaccountedIsSilent(FRESH_ROW, m.delta);
  }

  /** Two deltas that cancel out are no accounted usage when merged: the route is never stamped. */
  lemma NegativeDeltaDiffers()
    ensures var batch := [Call(1, PRICED), Call(-1, PRICED)];
            ApplyAll(EMPTY, Coalesce(batch)).sessions != ApplyAll(EMPTY, batch).sessions
  {
    CallThenRefund();
    CallAndRefundMerged();
  }

  const COUNTED := Queued("s", Delta([1, 0, 0, 0, 0, 1], None, None, PRICED, None, false))
  const MISCOUNTED := FRESH_ROW.(tokens := [0, 0, 0, 0, 0, -1], model := Some("old"))

  lemma MiscountedRow()
    ensures var one := After(MISCOUNTED, COUNTED.delta);
            && one.model == Some("old") && one.tokens[API_CALLS] == 0
            && After(one, COUNTED.delta).model == Some("m")
  {
    var d := COUNTED.delta;
    assert d.tokens[0] == 1 && Accounted(d);
    assert Stamped(MISCOUNTED, d) == MISCOUNTED;
  }

  lemma MiscountedMerged()
    ensures After(MISCOUNTED, MergeDelta(COUNTED.delta, COUNTED.delta)).model == Some("old")
  {
  }

  const MISCOUNTED_TABLES := Tables(map["s" := MISCOUNTED], [])

  lemma MiscountedInOrder()
    ensures ApplyAll(MISCOUNTED_TABLES, [COUNTED, COUNTED]).sessions["s"].model == Some("m")
  {
    ApplyTwo(MISCOUNTED_TABLES, COUNTED, COUNTED);
    RowAfterApply(MISCOUNTED_TABLES, COUNTED);
    RowAfterApply(Apply(MISCOUNTED_TABLES, COUNTED), COUNTED);
    MiscountedRow();
  }

  lemma MiscountedCoalesced(m: Queued)
    requires m == Absorb(COUNTED, COUNTED)
    ensures "s" in ApplyAll(MISCOUNTED_TABLES, [m]).sessions
    ensures ApplyAll(MISCOUNTED_TABLES, [m]).sessions["s"].model == Some("old")
  {
    ApplyTwo(MISCOUNTED_TABLES, m, COUNTED);
    RowAfterApply(MISCOUNTED_TABLES, m);
    MiscountedMerged();
  }

  lemma JoinsItself(q: Queued)
    requires !q.delta.absolute
    ensures Coalesce([q, q]) == [Absorb(q, q)]
  {
    ApplyTwo(EMPTY, q, q);
  }

  lemma CountedIsRegular()
    ensures Regular([COUNTED, COUNTED])
  {
    assert forall q | q in [COUNTED, COUNTED] :: q == COUNTED;
  }

  /** From a row that counts minus one calls, the second of two deltas stamps the route and their sum does not. */
  lemma NegativeCountDiffers()
    ensures Regular([COUNTED, COUNTED])
    ensures ApplyAll(MISCOUNTED_TABLES, Coalesce([COUNTED, COUNTED])).sessions
         != ApplyAll(MISCOUNTED_TABLES, [COUNTED, COUNTED]).sessions
  {
    MiscountedInOrder();
    JoinsItself(COUNTED);
    CountedIsRegular();
    MiscountedCoalesced(Absorb(COUNTED, COUNTED));
  }

  // ----- the database object ---------------------------------------------------------------

  class StateDb {
    var sessions: map<string, SessionRow>
    var usage: seq<UsageRow>

    function View(): Tables
      reads this
    {
      Tables(sessions, usage)
    }

    method UpsertUsage(r: UsageRow)
      modifies this`usage
      ensures usage == Upsert(old(usage), r)
    {
      var i := 0;
      while i < |usage| && !(usage[i].route == r.route && usage[i].task == r.task)
        invariant 0 <= i <= |usage|
        invariant forall k | 0 <= k < i :: !(usage[k].route == r.route && usage[k].task == r.task)
      {
        i := i + 1;
      }
      UpsertPosition(usage, r, i);
      if i == |usage| {
        usage := usage + [r];
      } else {
        usage := usage[i := Added(usage[i], r)];
      }
    }

    /** Row creation, stamp, update and usage attribution, in one transaction. */
    method ApplyTokenCountsInTx(session: string, d: Delta)
      modifies this
      ensures View() == Apply(old(View()), Queued(session, d))
    {
      if session !in sessions {
        sessions := sessions[session := FRESH_ROW];
      }
      var existing := sessions[session];
      var accounted := Accounted(d);
      if existing.tokens[API_CALLS] == 0 && accounted && Named(d.route.model) && Named(d.route.provider)
         && (existing.model != d.route.model || existing.provider != d.route.provider)
      {
        sessions := sessions[session := existing.(
          model := d.route.model, provider := d.route.provider,
          baseUrl := Some(KeyText(d.route.baseUrl)), mode := Some(KeyText(d.route.mode)))];
      }
      sessions := sessions[session := Updated(sessions[session], d)];
      if RecordsUsage(d) {
        UpsertUsage(UsageRow(UsageRouteOf(session, sessions[session], d), KeyText(d.task), d.tokens,
                             Or(d.estimated, 0.0), Or(d.actual, 0.0)));
      }
    }

    method ApplyGroups(groups: seq<Queued>)
      modifies this
      ensures View() == ApplyAll(old(View()), groups)
    {
      ghost var start := View();
      for i := 0 to |groups|
        invariant View() == ApplyAll(start, groups[..i])
      {
        assert groups[..i + 1][..i] == groups[..i];
        ApplyTokenCountsInTx(groups[i].session, groups[i].delta);
      }
      assert groups[..|groups|] == groups;
    }

    /** A batch as the writer applies it: coalesced, then delta by delta. */
    method ApplyBatch(batch: seq<Queued>)
      modifies this
      ensures View() == ApplyAll(old(View()), Coalesce(batch))
      ensures CallsCounted(old(View())) && Regular(batch) ==> SameMeaning(View(), ApplyAll(old(View()), batch))
    {
      if CallsCounted(View()) && Regular(batch) {
        CoalescePreservesMeaning(View(), batch);
      }
      var groups := CoalesceTokenDeltas(batch);
      ApplyGroups(groups);
    }
  }
}
