/** Where usage is booked (src/pi_state/usage.ts): which route a delta's counters and costs go to. */
module UsageAttribution {
  import opened Text
  import opened TokenUsage

  /** A column of the booked route: what the delta names, else what the sessions row holds. */
  function Column(own: Option<string>, row: Option<string>): string {
    match own
    case Some(text) => text
    case None => match row case Some(text) => text case None => ""
  }

  /** The route a delta is booked on, given the sessions row as it leaves it. */
  function BookedOn(q: Queued, row: SessionRow): UsageRoute {
    var r := q.delta.route;
    UsageRoute(q.session, Column(r.model, row.model), Column(r.provider, row.provider),
               Column(r.baseUrl, row.baseUrl), Column(r.mode, row.mode))
  }

  /** The counters and the estimated cost of a route after some more of them. */
  function Grown(total: (Counters, real), d: Delta): (Counters, real) {
    (Plus(total.0, d.tokens), total.1 + Or(d.estimated, 0.0))
  }

  /**
   A delta adds its counters and its estimated cost to the one route it is booked on, and to no
   other; an absolute one adds nothing to any.
  */
  lemma BookedOnce(t: Tables, q: Queued, route: UsageRoute)
    ensures q.session in Apply(t, q).sessions
    ensures Total(Apply(t, q).usage, route)
         == if !q.delta.absolute && route == BookedOn(q, Apply(t, q).sessions[q.session])
            then Grown(Total(t.usage, route), q.delta) else Total(t.usage, route)
  {
    TotalAfter(t, q, route);
    RowAfterApply(t, q);
    if !q.delta.absolute && !RecordsUsage(q.delta) {
      assert q.delta.tokens == ZERO && Or(q.delta.estimated, 0.0) == 0.0;
      PlusAssociates(Total(t.usage, route).0, ZERO, ZERO);
    }
  }

  /** All four columns of the route are named. */
  predicate NamesAll(r: Route) {
    r.model.Some? && r.provider.Some? && r.baseUrl.Some? && r.mode.Some?
  }

  function NamedRoute(q: Queued): UsageRoute
    requires NamesAll(q.delta.route)
  {
    var r := q.delta.route;
    UsageRoute(q.session, r.model.value, r.provider.value, r.baseUrl.value, r.mode.value)
  }

  /** A delta that names its route is booked there, whatever the sessions row holds. */
  lemma BookedWhereNamed(t: Tables, q: Queued, route: UsageRoute)
    requires NamesAll(q.delta.route)
    ensures Total(Apply(t, q).usage, route)
         == if !q.delta.absolute && route == NamedRoute(q)
            then Grown(Total(t.usage, route), q.delta) else Total(t.usage, route)
  {
    BookedOnce(t, q, route);
  }

  predicate AllNamed(batch: seq<Queued>) {
    forall q | q in batch :: NamesAll(q.delta.route)
  }

  /** What the deltas of a batch that name a route add up to. */
  function Booked(batch: seq<Queued>, route: UsageRoute): (Counters, real)
    requires AllNamed(batch)
  {
    if batch == [] then (ZERO, 0.0) else
    var before, q := Booked(batch[..|batch| - 1], route), batch[|batch| - 1];
    assert q in batch;
    if !q.delta.absolute && NamedRoute(q) == route then Grown(before, q.delta) else before
  }

  function Sum(a: (Counters, real), b: (Counters, real)): (Counters, real) {
    (Plus(a.0, b.0), a.1 + b.1)
  }

  /** Over a batch the total of every route grows by the sum over the deltas that name it. */
  lemma {:induction false} BatchIsBooked(t: Tables, batch: seq<Queued>, route: UsageRoute)
    requires AllNamed(batch)
    ensures Total(ApplyAll(t, batch).usage, route) == Sum(Total(t.usage, route), Booked(batch, route))
  {
    var start := Total(t.usage, route);
    if batch == [] {
      PlusAssociates(start.0, ZERO, ZERO);
    } else {
      var init, q := batch[..|batch| - 1], batch[|batch| - 1];
      assert q in batch;
      BatchIsBooked(t, init, route);
      BookedWhereNamed(ApplyAll(t, init), q, route);
      GrownSum(start, Booked(init, route), q.delta);
    }
  }

  lemma GrownSum(a: (Counters, real), b: (Counters, real), d: Delta)
    ensures Grown(Sum(a, b), d) == Sum(a, Grown(b, d))
  {
    PlusAssociates(a.0, b.0, d.tokens);
  }

  /** So it does when the batch is coalesced, for regular deltas. */
  lemma CoalescedIsBooked(t: Tables, batch: seq<Queued>, route: UsageRoute)
    requires AllNamed(batch) && CallsCounted(t) && Regular(batch)
    ensures Total(ApplyAll(t, Coalesce(batch)).usage, route) == Sum(Total(t.usage, route), Booked(batch, route))
  {
    CoalescePreservesMeaning(t, batch);
    BatchIsBooked(t, batch, route);
  }

  // ----- task by task ------------------------------------------------------------------------

  /** Counters, estimated and actual cost booked for one route and one task. */
  function TaskTotal(rows: seq<UsageRow>, route: UsageRoute, task: string): (Counters, real, real) {
    if rows == [] then (ZERO, 0.0, 0.0) else
    var (c, e, a) := TaskTotal(rows[1..], route, task);
    if rows[0].route == route && rows[0].task == task
    then (Plus(rows[0].tokens, c), rows[0].estimated + e, rows[0].actual + a) else (c, e, a)
  }

  function Raised(total: (Counters, real, real), r: UsageRow): (Counters, real, real) {
    (Plus(total.0, r.tokens), total.1 + r.estimated, total.2 + r.actual)
  }

  lemma {:induction false} UpsertAddsTask(rows: seq<UsageRow>, r: UsageRow, route: UsageRoute, task: string)
    ensures TaskTotal(Upsert(rows, r), route, task)
         == if r.route == route && r.task == task then Raised(TaskTotal(rows, route, task), r)
            else TaskTotal(rows, route, task)
  {
    if rows == [] {
      PlusAssociates(r.tokens, ZERO, ZERO);
      assert [r][1..] == [];
    } else {
      UpsertAddsTask(rows[1..], r, route, task);
      var rest, next := Upsert(rows[1..], r), Upsert(rows, r);
      var tail := TaskTotal(rows[1..], route, task);
      PlusCommutes(rows[0].tokens, r.tokens, tail.0);
      if rows[0].route == r.route && rows[0].task == r.task {
        assert next == [Added(rows[0], r)] + rows[1..] && next[1..] == rows[1..];
      } else {
        assert next == [rows[0]] + rest && next[1..] == rest;
        PlusAssociates(rows[0].tokens, tail.0, r.tokens);
      }
    }
  }

  lemma PlusCommutes(a: Counters, b: Counters, c: Counters)
    ensures Plus(Plus(a, b), c) == Plus(Plus(a, c), b)
  {
  }

  /** A delta with a counter or an estimated cost that is not zero. */
  predicate Counts(d: Delta) {
    d.tokens != ZERO || (d.estimated.Some? && d.estimated.value != 0.0)
  }

  lemma CountsMeans(d: Delta)
    ensures RecordsUsage(d) <==> !d.absolute && Counts(d)
  {
    if !AnyNonZero(d.tokens) { assert d.tokens == ZERO; }
  }

  /** Counting deltas are booked with their actual cost under their own task; no other is booked at all. */
  lemma TaskIsBooked(t: Tables, q: Queued, route: UsageRoute, task: string)
    ensures var d, row := q.delta, Apply(t, q).sessions[q.session];
            TaskTotal(Apply(t, q).usage, route, task)
              == if !d.absolute && Counts(d) && route == BookedOn(q, row) && task == Column(d.task, None)
                 then (var total := TaskTotal(t.usage, route, task);
                       (Plus(total.0, d.tokens), total.1 + Or(d.estimated, 0.0), total.2 + Or(d.actual, 0.0)))
                 else TaskTotal(t.usage, route, task)
  {
    var d, row := q.delta, After(RowOf(t.sessions, q.session), q.delta);
    RowAfterApply(t, q);
    CountsMeans(d);
    assert Column(d.task, None) == KeyText(d.task);
    assert UsageRouteOf(q.session, row, d) == BookedOn(q, row);
    UpsertAddsTask(t.usage, UsageRow(UsageRouteOf(q.session, row, d), KeyText(d.task), d.tokens,
                                     Or(d.estimated, 0.0), Or(d.actual, 0.0)), route, task);
  }

  /** No two rows of the usage table share route and task. */
  predicate OneRowEach(rows: seq<UsageRow>) {
    forall i, j | 0 <= i < j < |rows| :: rows[i].route != rows[j].route || rows[i].task != rows[j].task
  }

  lemma {:induction false} UpsertKeepsOneEach(rows: seq<UsageRow>, r: UsageRow)
    requires OneRowEach(rows)
    ensures OneRowEach(Upsert(rows, r))
    ensures forall k | k in Upsert(rows, r) ::
              (k.route == r.route && k.task == r.task) || k in rows
  {
    if rows == [] {
    } else {
      var head, rest := rows[0], Upsert(rows[1..], r);
      assert OneRowEach(rows[1..]);
      UpsertKeepsOneEach(rows[1..], r);
      if head.route == r.route && head.task == r.task {
        var next := [Added(head, r)] + rows[1..];
        assert forall j | 0 < j < |next| :: next[j] == rows[j];
      } else {
        forall j | 0 <= j < |rest| ensures rest[j].route != head.route || rest[j].task != head.task {
          assert rest[j] in rest;
        }
      }
    }
  }

  /** Every table that deltas make from an empty one has one row for each route and task. */
  lemma {:induction false} RowsAreUnique(batch: seq<Queued>)
    ensures OneRowEach(ApplyAll(EMPTY, batch).usage)
  {
    if batch == [] {
    } else {
      var t, q := ApplyAll(EMPTY, batch[..|batch| - 1]), batch[|batch| - 1];
      RowsAreUnique(batch[..|batch| - 1]);
      var row := After(RowOf(t.sessions, q.session), q.delta);
      UpsertKeepsOneEach(t.usage, UsageRow(UsageRouteOf(q.session, row, q.delta), KeyText(q.delta.task), q.delta.tokens,
                                           Or(q.delta.estimated, 0.0), Or(q.delta.actual, 0.0)));
    }
  }

  // ----- the sessions row ----------------------------------------------------------------------

  /** An absolute delta sets the counters and the estimated cost of its row, and the actual cost it has. */
  lemma AbsoluteSets(t: Tables, q: Queued)
    requires q.delta.absolute
    ensures q.session in Apply(t, q).sessions
    ensures var row := Apply(t, q).sessions[q.session];
            && row.tokens == q.delta.tokens && row.estimated == Some(Or(q.delta.estimated, 0.0))
            && row.actual == (if q.delta.actual.Some? then q.delta.actual else RowOf(t.sessions, q.session).actual)
    ensures Apply(t, q).usage == t.usage
  {
    RowAfterApply(t, q);
  }

  /** Other sessions keep their rows. */
  lemma OtherSessionsKept(t: Tables, q: Queued, other: string)
    requires other != q.session
    ensures other in Apply(t, q).sessions <==> other in t.sessions
    ensures other in t.sessions ==> Apply(t, q).sessions[other] == t.sessions[other]
  {
  }

  // ----- a change of model in the middle of a session ---------------------------------------

  function CallOn(model: string, provider: string): Queued {
    Queued("s", Delta([1, 0, 0, 0, 0, 1], None, None,
                      Route(Some(model), None, None, None, Some(provider), Some(""), Some("")), None, false))
  }

  /** One call on each of two models is one call booked on each. */
  lemma EachModelItsOwn()
    ensures var after := ApplyAll(EMPTY, [CallOn("a", "p"), CallOn("b", "q")]).usage;
            && Total(after, UsageRoute("s", "a", "p", "", "")).0 == [1, 0, 0, 0, 0, 1]
            && Total(after, UsageRoute("s", "b", "q", "", "")).0 == [1, 0, 0, 0, 0, 1]
  {
    var a, b := CallOn("a", "p"), CallOn("b", "q");
    ApplyTwo(EMPTY, a, b);
    forall route ensures Total(ApplyAll(EMPTY, [a, b]).usage, route)
      == var first := if route == NamedRoute(a) then Grown((ZERO, 0.0), a.delta) else (ZERO, 0.0);
         if route == NamedRoute(b) then Grown(first, b.delta) else first
    {
      BookedWhereNamed(EMPTY, a, route);
      BookedWhereNamed(Apply(EMPTY, a), b, route);
    }
    assert "a" != "b";
    PlusAssociates(a.delta.tokens, ZERO, ZERO);
    PlusAssociates(b.delta.tokens, ZERO, ZERO);
  }
}
