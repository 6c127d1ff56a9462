/**
 Human-wait accounting (src/pi_embedded/approvals/human-wait.ts): overlapping windows of a
 session coalesce into periods, and each period counts up to a ceiling.
*/
module HumanWait {
  import opened Sequences
  import opened Text

  datatype SessionKey = SessionKey(text: string)

  datatype Event = Opened(at: real) | Closed(at: real)

  /** One period, however long it was open, clamped to the ceiling. */
  function Clamped(started: real, now: real, ceiling: real): real {
    var length := if now - started > 0.0 then now - started else 0.0;
    if length < ceiling then length else ceiling
  }

  // ----- the reference: periods of a trace -------------------------------------------------

  /** How many windows are open after a trace. */
  function Depth(trace: seq<Event>): int {
    if trace == [] then 0 else
    Depth(trace[..|trace| - 1]) + (if trace[|trace| - 1].Opened? then 1 else -1)
  }

  /** Windows are closed only after they were opened. */
  predicate Balanced(trace: seq<Event>) {
    trace == [] || (Balanced(trace[..|trace| - 1]) && Depth(trace) >= 0)
  }

  /** The length of the shortest prefix, not shorter than `n`, that leaves no window open. */
  function FirstReturn(trace: seq<Event>, n: nat): (r: Option<nat>)
    requires n <= |trace|
    ensures r.Some? ==> n <= r.value <= |trace| && Depth(trace[..r.value]) == 0
    ensures forall k | n <= k < (if r.Some? then r.value else |trace| + 1) :: Depth(trace[..k]) != 0
    decreases |trace| - n
  {
    if Depth(trace[..n]) == 0 then Some(n)
    else if n == |trace| then None
    else FirstReturn(trace, n + 1)
  }

  /** The sum over the maximal periods with an open window, the last one up to `now` if still open. */
  function PeriodSum(trace: seq<Event>, now: real, ceiling: real): real {
    if trace == [] then 0.0 else
    match FirstReturn(trace, 1)
    case None => Clamped(trace[0].at, now, ceiling)
    case Some(n) => Clamped(trace[0].at, trace[n - 1].at, ceiling) + PeriodSum(trace[n..], now, ceiling)
  }

  /** The length of a wait, no less than zero and no more than the ceiling. */
  predicate WaitOf(length: real, from: real, upTo: real, ceiling: real) {
    && (upTo - from > ceiling && ceiling >= 0.0 ==> length == ceiling)
    && (0.0 <= upTo - from <= ceiling ==> length == upTo - from)
    && (upTo <= from && ceiling >= 0.0 ==> length == 0.0)
  }

  /** A period counts from its first opening to its last closing, or to the present while it is open. */
  lemma SinglePeriod(trace: seq<Event>, now: real, ceiling: real)
    requires trace != [] && FirstReturn(trace, 1) in {None, Some(|trace|)}
    ensures WaitOf(PeriodSum(trace, now, ceiling), trace[0].at,
                   if FirstReturn(trace, 1).None? then now else trace[|trace| - 1].at, ceiling)
  {
    if FirstReturn(trace, 1).Some? {
      assert trace[|trace|..] == [];
    }
  }

  // ----- the ledger ------------------------------------------------------------------------------

  datatype Ledger = Ledger(windowStarted: Option<real>, pending: int, completed: real)

  const FRESH := Ledger(None, 0, 0.0)

  function Record(state: Ledger, e: Event, ceiling: real): Ledger {
    match e
    case Opened(at) =>
      Ledger(if state.pending == 0 then Some(at) else state.windowStarted, state.pending + 1, state.completed)
    case Closed(at) =>
      if state.pending != 1 then state.(pending := state.pending - 1)
      else Ledger(None, 0,
                  if state.windowStarted.Some? then state.completed + Clamped(state.windowStarted.value, at, ceiling)
                  else state.completed)
  }

  function LedgerOf(trace: seq<Event>, ceiling: real): Ledger {
    if trace == [] then FRESH else
    Record(LedgerOf(trace[..|trace| - 1], ceiling), trace[|trace| - 1], ceiling)
  }

  function Read(state: Ledger, now: real, ceiling: real): real {
    state.completed
    + (if state.windowStarted.Some? then Clamped(state.windowStarted.value, now, ceiling) else 0.0)
  }

  // ----- the ledger computes the period sum --------------------------------------------------------

  lemma {:induction false} DepthAppend(a: seq<Event>, b: seq<Event>)
    ensures Depth(a + b) == Depth(a) + Depth(b)
    decreases |b|
  {
    if b == [] {
      assert a + b == a;
    } else {
      assert (a + b)[..|a + b| - 1] == a + b[..|b| - 1];
      DepthAppend(a, b[..|b| - 1]);
    }
  }

  /** After a period has closed, the rest of the trace is accounted as a trace of its own. */
  lemma {:induction false} LedgerAppend(a: seq<Event>, b: seq<Event>, ceiling: real)
    requires Depth(a) == 0 && LedgerOf(a, ceiling).pending == 0 && LedgerOf(a, ceiling).windowStarted == None
    ensures LedgerOf(a + b, ceiling)
         == LedgerOf(b, ceiling).(completed := LedgerOf(a, ceiling).completed + LedgerOf(b, ceiling).completed)
    decreases |b|
  {
    if b == [] {
      assert a + b == a;
    } else {
      assert (a + b)[..|a + b| - 1] == a + b[..|b| - 1];
      LedgerAppend(a, b[..|b| - 1], ceiling);
    }
  }

  lemma {:induction false} LedgerDepth(trace: seq<Event>, ceiling: real)
    requires Balanced(trace)
    ensures LedgerOf(trace, ceiling).pending == Depth(trace)
    ensures LedgerOf(trace, ceiling).windowStarted.Some? <==> Depth(trace) > 0
  {
    if trace == [] {
    } else {
      BalancedPrefix(trace, |trace| - 1);
      LedgerDepth(trace[..|trace| - 1], ceiling);
      assert trace[..|trace|] == trace;
    }
  }

  lemma {:induction false} BalancedPrefix(trace: seq<Event>, n: nat)
    requires Balanced(trace) && n <= |trace|
    ensures Balanced(trace[..n]) && Depth(trace[..n]) >= 0
  {
    if n < |trace| {
      BalancedPrefix(trace[..|trace| - 1], n);
      assert trace[..|trace| - 1][..n] == trace[..n];
    } else {
      assert trace[..n] == trace;
    }
  }

  /** Inside one period the ledger only remembers when it began. */
  lemma {:induction false} LedgerWithin(trace: seq<Event>, n: nat, ceiling: real)
    requires Balanced(trace) && 1 <= n <= |trace|
    requires forall k | 1 <= k <= n :: Depth(trace[..k]) != 0
    ensures LedgerOf(trace[..n], ceiling) == Ledger(Some(trace[0].at), Depth(trace[..n]), 0.0)
  {
    BalancedPrefix(trace, n);
    LedgerDepth(trace[..n], ceiling);
    if n == 1 {
      assert trace[..1][..0] == [];
      assert trace[..1] == [trace[0]];
      BalancedPrefix(trace, 1);
    } else {
      assert trace[..n][..n - 1] == trace[..n - 1];
      BalancedPrefix(trace, n - 1);
      LedgerWithin(trace, n - 1, ceiling);
      BalancedPrefix(trace, n - 1);
    }
  }

  /** What `seconds` reads off the ledger is the period sum of the session's trace. */
  lemma {:induction false} LedgerReadsPeriodSum(trace: seq<Event>, now: real, ceiling: real)
    requires Balanced(trace)
    ensures Read(LedgerOf(trace, ceiling), now, ceiling) == PeriodSum(trace, now, ceiling)
    decreases |trace|
  {
    if trace == [] { return; }
    assert trace[..|trace|] == trace;
    match FirstReturn(trace, 1)
    case None =>
      LedgerWithin(trace, |trace|, ceiling);
    case Some(n) =>
      var a, b := trace[..n], trace[n..];
      assert trace == a + b;
      OnePeriod(trace, n, ceiling);
      RestBalanced(a, b);
      LedgerAppend(a, b, ceiling);
      LedgerReadsPeriodSum(b, now, ceiling);
  }

  lemma OnePeriod(trace: seq<Event>, n: nat, ceiling: real)
    requires Balanced(trace) && 1 <= n <= |trace| && Depth(trace[..n]) == 0
    requires forall k | 1 <= k < n :: Depth(trace[..k]) != 0
    ensures LedgerOf(trace[..n], ceiling) == Ledger(None, 0, Clamped(trace[0].at, trace[n - 1].at, ceiling))
  {
    assert trace[..n][..n - 1] == trace[..n - 1];
    BalancedPrefix(trace, n);
    if n > 1 {
      LedgerWithin(trace, n - 1, ceiling);
      BalancedPrefix(trace, n - 1);
    }
  }

  lemma {:induction false} RestBalanced(a: seq<Event>, b: seq<Event>)
    requires Balanced(a + b) && Depth(a) == 0
    ensures Balanced(b)
    decreases |b|
  {
    if b == [] {
    } else {
      assert (a + b)[..|a + b| - 1] == a + b[..|b| - 1];
      DepthAppend(a, b);
      RestBalanced(a, b[..|b| - 1]);
    }
  }

  // ----- what the sum means --------------------------------------------------------------------------

  /** The clock never goes back along the trace and is at `now` or before. */
  predicate Ordered(trace: seq<Event>, now: real) {
    && (forall i, j | 0 <= i < j < |trace| :: trace[i].at <= trace[j].at)
    && (forall i | 0 <= i < |trace| :: trace[i].at <= now)
  }

  /** Overlap is never counted twice: the sum is at most the time since the first window opened. */
  lemma {:induction false} NeverDoubleCounts(trace: seq<Event>, now: real, ceiling: real)
    requires trace != [] && Ordered(trace, now) && ceiling >= 0.0
    ensures 0.0 <= PeriodSum(trace, now, ceiling) <= now - trace[0].at
    decreases |trace|
  {
    match FirstReturn(trace, 1)
    case None =>
    case Some(n) =>
      if n < |trace| {
        assert Ordered(trace[n..], now);
        NeverDoubleCounts(trace[n..], now, ceiling);
      } else {
        assert trace[n..] == [];
      }
  }

  /** Reading later never gives less. */
  lemma {:induction false} ReadsGrow(trace: seq<Event>, now: real, later: real, ceiling: real)
    requires now <= later
    ensures PeriodSum(trace, now, ceiling) <= PeriodSum(trace, later, ceiling)
    decreases |trace|
  {
    if trace == [] || FirstReturn(trace, 1).None? {
    } else {
      ReadsGrow(trace[FirstReturn(trace, 1).value..], now, later, ceiling);
    }
  }

  /** Opening or closing a window changes nothing at that instant. */
  lemma EventsAreContinuous(trace: seq<Event>, e: Event, ceiling: real)
    requires Balanced(trace + [e]) && ceiling >= 0.0
    ensures PeriodSum(trace + [e], e.at, ceiling) == PeriodSum(trace, e.at, ceiling)
  {
    var all := trace + [e];
    assert all[..|trace|] == trace && all[..|all|] == all;
    BalancedPrefix(all, |trace|);
    BalancedPrefix(all, |all|);
    LedgerReadsPeriodSum(all, e.at, ceiling);
    LedgerReadsPeriodSum(trace, e.at, ceiling);
    LedgerDepth(all, ceiling);
    LedgerDepth(trace, ceiling);
  }

  /** Hence `seconds` never decreases along a trace while the clock does not go back. */
  lemma {:induction false} SecondsNeverDecrease(trace: seq<Event>, more: seq<Event>, all: seq<Event>,
                                               now: real, later: real, ceiling: real)
    requires all == trace + more && Balanced(all) && ceiling >= 0.0 && now <= later
    requires Ordered(more, later) && forall i | 0 <= i < |more| :: now <= more[i].at
    ensures PeriodSum(trace, now, ceiling) <= PeriodSum(all, later, ceiling)
    decreases |more|
  {
    if more == [] {
      assert trace + more == trace;
      ReadsGrow(trace, now, later, ceiling);
    } else {
      var n := |more| - 1;
      var init, e := more[..n], more[n];
      assert trace + more == (trace + init) + [e];
      assert (trace + more)[..|trace + init|] == trace + init;
      BalancedPrefix(trace + more, |trace + init|);
      SecondsNeverDecrease(trace, init, trace + init, now, e.at, ceiling);
      EventsAreContinuous(trace + init, e, ceiling);
      ReadsGrow(trace + more, e.at, later, ceiling);
    }
  }

  // ----- eviction ----------------------------------------------------------------------------------------

  const MAX_SESSIONS := 256

  /** The keys left after dropping idle ones, oldest first, until `excess` of them are gone. */
  function Evicted(order: seq<SessionKey>, idle: set<SessionKey>, excess: int): seq<SessionKey> {
    if order == [] || excess <= 0 then order
    else if order[0] in idle then Evicted(order[1..], idle, excess - 1)
    else [order[0]] + Evicted(order[1..], idle, excess)
  }

  /** Eviction only takes idle keys, and none while there is room. */
  lemma {:induction false} EvictsOnlyIdle(order: seq<SessionKey>, idle: set<SessionKey>, excess: int)
    ensures forall k | k in Evicted(order, idle, excess) :: k in order
    ensures forall k | k in order && k !in idle :: k in Evicted(order, idle, excess)
  {
    if order == [] || excess == 0 {
    } else {
      assert order == [order[0]] + order[1..];
      EvictsOnlyIdle(order[1..], idle, if order[0] in idle then excess - 1 else excess);
    }
  }

  /** Eviction takes the oldest idle keys and stops as soon as there is room. */
  lemma {:induction false} EvictsOldestIdle(order: seq<SessionKey>, idle: set<SessionKey>, excess: nat, i: nat, j: nat)
    requires NoDuplicates(order) && i < j < |order| && order[i] in idle
    ensures order[i] in Evicted(order, idle, excess) ==> order[j] in Evicted(order, idle, excess)
    ensures |Evicted(order, idle, excess)| >= |order| - excess
  {
    EvictionStops(order, idle, excess);
    EvictsOnlyIdle(order[1..], idle, if order[0] in idle then excess - 1 else excess);
    if excess > 0 {
      assert forall k | 0 <= k < |order| - 1 :: order[1..][k] == order[k + 1];
      if order[0] in idle {
        if i > 0 { EvictsOldestIdle(order[1..], idle, excess - 1, i - 1, j - 1); }
      } else if i > 0 {
        EvictsOldestIdle(order[1..], idle, excess, i - 1, j - 1);
      }
    }
  }

  lemma {:induction false} EvictionStops(order: seq<SessionKey>, idle: set<SessionKey>, excess: nat)
    ensures |Evicted(order, idle, excess)| >= |order| - excess
    ensures |Evicted(order, idle, excess)| > |order| - excess ==>
              forall k | k in Evicted(order, idle, excess) :: k !in idle
  {
    if order == [] || excess == 0 {
    } else {
      if order[0] in idle {
        EvictionStops(order[1..], idle, excess - 1);
      } else {
        EvictionStops(order[1..], idle, excess);
      }
    }
  }

  lemma {:induction false} EvictionKeepsDistinct(order: seq<SessionKey>, idle: set<SessionKey>, excess: int)
    requires NoDuplicates(order)
    ensures NoDuplicates(Evicted(order, idle, excess))
  {
    if order == [] || excess == 0 {
    } else {
      var tail := order[1..];
      assert forall k | 0 <= k < |tail| :: tail[k] == order[k + 1];
      if order[0] in idle {
        EvictionKeepsDistinct(tail, idle, excess - 1);
      } else {
        EvictionKeepsDistinct(tail, idle, excess);
        EvictsOnlyIdle(tail, idle, excess);
        assert order[0] !in tail;
      }
    }
  }

  // ----- the accounting object ---------------------------------------------------------------------------

  /** The close function handed to one caller; closing twice does nothing. */
  class WaitWindow {
    const sessionKey: SessionKey
    var closed: bool

    constructor (sessionKey: SessionKey)
      ensures this.sessionKey == sessionKey && !closed
    {
      this.sessionKey := sessionKey;
      closed := false;
    }
  }

  ghost function On(windows: set<WaitWindow>, key: SessionKey): set<WaitWindow> {
    set w | w in windows && w.sessionKey == key
  }

  function KeySet(order: seq<SessionKey>): set<SessionKey> {
    if order == [] then {} else {order[0]} + KeySet(order[1..])
  }

  lemma {:induction false} KeySetMember(order: seq<SessionKey>, key: SessionKey)
    ensures key in KeySet(order) <==> key in order
  {
    if order == [] {
    } else {
      KeySetMember(order[1..], key);
      assert order == [order[0]] + order[1..];
    }
  }

  lemma {:induction false} KeySetWithout(order: seq<SessionKey>, key: SessionKey)
    requires NoDuplicates(order)
    ensures KeySet(Without(order, key)) == KeySet(order) - {key}
  {
    if order == [] {
    } else {
      DistinctTail(order);
      KeySetWithout(order[1..], key);
      KeySetMember(order[1..], order[0]);
      if order[0] != key {
        var r := [order[0]] + Without(order[1..], key);
        assert r[1..] == Without(order[1..], key);
      }
    }
  }

  lemma {:induction false} KeySetAppend(order: seq<SessionKey>, key: SessionKey)
    ensures KeySet(order + [key]) == KeySet(order) + {key}
  {
    if order == [] {
    } else {
      KeySetAppend(order[1..], key);
      assert (order + [key])[1..] == order[1..] + [key];
    }
  }

  /** A map with its insertion order. */
  predicate KeyedBy(states: map<SessionKey, Ledger>, order: seq<SessionKey>) {
    NoDuplicates(order) && states.Keys == KeySet(order)
  }

  predicate Within(states: map<SessionKey, Ledger>, before: map<SessionKey, Ledger>) {
    forall k | k in states :: k in before && states[k] == before[k]
  }

  function IdleOf(states: map<SessionKey, Ledger>): set<SessionKey> {
    set k | k in states && states[k].pending == 0
  }

  /** Every state is the ledger of its trace. */
  ghost predicate Tracks(states: map<SessionKey, Ledger>, traces: map<SessionKey, seq<Event>>, ceiling: real) {
    && traces.Keys == states.Keys
    && forall k | k in states :: Balanced(traces[k]) && states[k] == LedgerOf(traces[k], ceiling)
  }

  ghost predicate Counts(states: map<SessionKey, Ledger>, open: set<WaitWindow>) {
    && (forall w | w in open :: w.sessionKey in states)
    && (forall k | k in states :: states[k].pending == |On(open, k)|)
  }

  /** One more window on its session, none elsewhere. */
  lemma OnAdded(windows: set<WaitWindow>, w: WaitWindow)
    requires w !in windows
    ensures |On(windows + {w}, w.sessionKey)| == |On(windows, w.sessionKey)| + 1
    ensures forall k | k != w.sessionKey :: On(windows + {w}, k) == On(windows, k)
  {
    assert On(windows + {w}, w.sessionKey) == On(windows, w.sessionKey) + {w};
  }

  /** One window fewer on its session, none elsewhere. */
  lemma OnRemoved(windows: set<WaitWindow>, w: WaitWindow)
    requires w in windows
    ensures |On(windows - {w}, w.sessionKey)| == |On(windows, w.sessionKey)| - 1
    ensures forall k | k != w.sessionKey :: On(windows - {w}, k) == On(windows, k)
  {
    assert On(windows - {w}, w.sessionKey) == On(windows, w.sessionKey) - {w};
  }

  lemma CountsMoved(before: map<SessionKey, Ledger>, open: set<WaitWindow>, after: map<SessionKey, Ledger>, w: WaitWindow)
    requires Counts(before, open) && w.sessionKey in before && w.sessionKey in after
    requires after == before[w.sessionKey := after[w.sessionKey]]
    ensures w !in open && after[w.sessionKey].pending == before[w.sessionKey].pending + 1 ==> Counts(after, open + {w})
    ensures w in open && after[w.sessionKey].pending == before[w.sessionKey].pending - 1 ==> Counts(after, open - {w})
  {
    if w in open { OnRemoved(open, w); } else { OnAdded(open, w); }
  }

  /** Sessions with an open window keep their trace; only idle ones can be gone. */
  ghost predicate Keeps(before: map<SessionKey, seq<Event>>, after: map<SessionKey, seq<Event>>, except: SessionKey) {
    && (forall k | k in after && k != except :: k in before && after[k] == before[k])
    && (forall k | k in before && k !in after :: Depth(before[k]) == 0)
  }

  lemma KeepsUpdated(before: map<SessionKey, seq<Event>>, after: map<SessionKey, seq<Event>>, key: SessionKey, trace: seq<Event>)
    requires Keeps(before, after, key) && key in after
    ensures Keeps(before, after[key := trace], key)
  {
  }

  ghost function Surviving(states: map<SessionKey, Ledger>, traces: map<SessionKey, seq<Event>>, key: SessionKey): map<SessionKey, seq<Event>> {
    (map k | k in states && k in traces :: traces[k])[key := []]
  }

  /** A new session with some idle ones evicted leaves the books in order. */
  lemma EvictionIsSafe(before: map<SessionKey, Ledger>, traces: map<SessionKey, seq<Event>>,
                       after: map<SessionKey, Ledger>, traces': map<SessionKey, seq<Event>>,
                       open: set<WaitWindow>, key: SessionKey, ceiling: real)
    requires Tracks(before, traces, ceiling) && Counts(before, open)
    requires key !in before && key in after && after[key] == FRESH && Within(after - {key}, before)
    requires forall k | k in before && k !in after :: before[k].pending == 0
    requires traces' == Surviving(after, traces, key)
    ensures Tracks(after, traces', ceiling) && Counts(after, open)
    ensures Keeps(traces, traces', key) && traces'[key] == []
  {
    EvictionKeepsCounts(before, after, open, key);
    forall k | k in before && k !in after ensures Depth(traces[k]) == 0 {
      LedgerDepth(traces[k], ceiling);
    }
    assert Tracks(after, traces', ceiling);
    assert Keeps(traces, traces', key);
  }

  lemma EvictionKeepsCounts(before: map<SessionKey, Ledger>, after: map<SessionKey, Ledger>, open: set<WaitWindow>, key: SessionKey)
    requires Counts(before, open)
    requires key !in before && key in after && after[key] == FRESH && Within(after - {key}, before)
    requires forall k | k in before && k !in after :: before[k].pending == 0
    ensures Counts(after, open)
  {
    assert On(open, key) == {};
    forall w | w in open ensures w.sessionKey in after {
      assert w in On(open, w.sessionKey);
    }
    forall k | k in after ensures after[k].pending == |On(open, k)| {
      if k != key { assert k in after - {key}; }
    }
  }

  class HumanWaitAccounting {
    const ceiling: real
    var order: seq<SessionKey>
    var states: map<SessionKey, Ledger>
    /** What happened to each session since its state was created. */
    ghost var traces: map<SessionKey, seq<Event>>
    ghost var open: set<WaitWindow>

    predicate Keyed()
      reads `order, `states
    {
      KeyedBy(states, order)
    }

    ghost predicate Tracked()
      reads `states, `traces
    {
      Tracks(states, traces, ceiling)
    }

    /** A session's pending count is the number of its open windows. */
    ghost predicate Valid()
      reads this
    {
      && Keyed()
      && Tracked()
      && Counts(states, open)
    }

    constructor (ceiling: real)
      ensures Valid() && open == {} && traces == map[] && this.ceiling == ceiling
    {
      this.ceiling := ceiling;
      order, states := [], map[];
      traces, open := map[], {};
    }

    method Delete(key: SessionKey)
      requires Keyed() && key in states
      modifies `order, `states
      ensures Keyed() && order == Without(old(order), key) && states == old(states) - {key}
    {
      WithoutDistinct(order, key);
      KeySetWithout(order, key);
      KeySetMember(order, key);
      var i := 0;
      while i < |order| && order[i] != key
        invariant 0 <= i <= |order| && key !in order[..i]
      {
        i := i + 1;
      }
      WithoutAt(order, key, i);
      assert i < |order| by { assert order[..|order|] == order; }
      order := order[..i] + order[i + 1..];
      states := states - {key};
    }

    /** Make room for a session: idle ones go, oldest first, until there is room or none is idle. */
    method EvictIdle()
      requires Keyed()
      modifies `order, `states
      ensures Keyed() && order == Evicted(old(order), IdleOf(old(states)), |old(order)| - MAX_SESSIONS + 1)
      ensures Within(states, old(states))
    {
      var keys := order;
      ghost var idle := IdleOf(states);
      var i := 0;
      while i < |keys| && |order| >= MAX_SESSIONS
        invariant 0 <= i <= |keys| && order == Considered(keys, idle, i)
        invariant Keyed() && Within(states, old(states))
      {
        StillKnown(keys, idle, i);
        KeySetMember(order, keys[i]);
        assert keys[i] in idle <==> states[keys[i]].pending == 0;
        if states[keys[i]].pending == 0 {
          Delete(keys[i]);
        }
        i := i + 1;
      }
      ConsideredStops(keys, idle, i);
      ConsideredIsEvicted(keys, idle);
    }

    /** A session without a state gets a fresh one, at the end of the order. */
    method CreateState(sessionKey: SessionKey)
      requires Keyed() && sessionKey !in states
      modifies `order, `states
      ensures Keyed()
      ensures order == Evicted(old(order), IdleOf(old(states)), |old(order)| - MAX_SESSIONS + 1) + [sessionKey]
      ensures sessionKey in states && states[sessionKey] == FRESH
      ensures Within(states - {sessionKey}, old(states))
      ensures forall k | k in old(states) && k !in states :: old(states)[k].pending == 0
      ensures |old(order)| < MAX_SESSIONS ==> old(states).Keys <= states.Keys
    {
      if |order| >= MAX_SESSIONS {
        EvictIdle();
      }
      EvictedKeysWereIdle(old(states), old(order), states, order);
      KeySetMember(order, sessionKey);
      KeySetAppend(order, sessionKey);
      order := order + [sessionKey];
      states := states[sessionKey := FRESH];
    }

    ghost function TraceOf(key: SessionKey): seq<Event>
      reads this
    {
      if key in traces then traces[key] else []
    }

    /** Open a window: the session's trace grows, and no session with an open window is evicted. */
    method Begin(sessionKey: SessionKey, now: real) returns (w: WaitWindow)
      requires Valid()
      modifies this
      ensures Valid() && open == old(open) + {w}
      ensures fresh(w) && w.sessionKey == sessionKey && !w.closed
      ensures TraceOf(sessionKey) == old(TraceOf(sessionKey)) + [Opened(now)]
      ensures Keeps(old(traces), traces, sessionKey)
      ensures sessionKey in old(states) || |old(order)| < MAX_SESSIONS ==> old(states).Keys <= states.Keys
    {
      EnsureState(sessionKey);
      KeepsUpdated(old(traces), traces, sessionKey, traces[sessionKey] + [Opened(now)]);
      w := NewWindow(sessionKey, now);
    }

    /** One more window on a session that has a state. */
    method NewWindow(sessionKey: SessionKey, now: real) returns (w: WaitWindow)
      requires Valid() && sessionKey in states
      modifies `states, `traces, `open
      ensures Valid() && open == old(open) + {w}
      ensures fresh(w) && w.sessionKey == sessionKey && !w.closed
      ensures traces == old(traces)[sessionKey := old(traces)[sessionKey] + [Opened(now)]]
      ensures states.Keys == old(states).Keys
    {
      w := new WaitWindow(sessionKey);
      OpenIn(sessionKey, now);
      CountsMoved(old(states), open, states, w);
      open := open + {w};
    }

    /** The first window of a period starts its clock. */
    method OpenIn(key: SessionKey, now: real)
      requires Keyed() && Tracked() && key in states
      modifies `states, `traces
      ensures Keyed() && Tracked()
      ensures states == old(states)[key := states[key]] && states[key].pending == old(states)[key].pending + 1
      ensures traces == old(traces)[key := old(traces)[key] + [Opened(now)]]
    {
      var state := states[key];
      RecordKeepsBalance(traces[key], Opened(now), ceiling);
      traces := traces[key := traces[key] + [Opened(now)]];
      states := states[key :=
        Ledger(if state.pending == 0 then Some(now) else state.windowStarted, state.pending + 1, state.completed)];
    }

    /** The last window of a period completes it. */
    method CloseIn(key: SessionKey, now: real)
      requires Keyed() && Tracked() && key in states && states[key].pending > 0
      modifies `states, `traces
      ensures Keyed() && Tracked()
      ensures states == old(states)[key := states[key]] && states[key].pending == old(states)[key].pending - 1
      ensures traces == old(traces)[key := old(traces)[key] + [Closed(now)]]
    {
      var current := states[key];
      LedgerDepth(traces[key], ceiling);
      RecordKeepsBalance(traces[key], Closed(now), ceiling);
      current := current.(pending := current.pending - 1);
      if current.pending == 0 {
        if current.windowStarted.Some? {
          current := current.(completed := current.completed + Clamped(current.windowStarted.value, now, ceiling));
        }
        current := current.(windowStarted := None);
      }
      states := states[key := current];
      traces := traces[key := traces[key] + [Closed(now)]];
    }

    /** An open window keeps its session's pending count positive. */
    lemma OpenIsPending(w: WaitWindow)
      requires Valid() && w in open
      ensures states[w.sessionKey].pending > 0
    {
      assert w in On(open, w.sessionKey);
    }

    method EnsureState(sessionKey: SessionKey)
      requires Valid()
      modifies `order, `states, `traces
      ensures Valid() && sessionKey in states
      ensures traces[sessionKey] == old(TraceOf(sessionKey))
      ensures Keeps(old(traces), traces, sessionKey)
      ensures sessionKey in old(states) || |old(order)| < MAX_SESSIONS ==> old(states).Keys <= states.Keys
    {
      if sessionKey !in states {
        AddState(sessionKey);
      }
    }

    method AddState(sessionKey: SessionKey)
      requires Valid() && sessionKey !in states
      modifies `order, `states, `traces
      ensures Valid() && sessionKey in states && traces[sessionKey] == []
      ensures Keeps(old(traces), traces, sessionKey)
      ensures |old(order)| < MAX_SESSIONS ==> old(states).Keys <= states.Keys
    {
      CreateState(sessionKey);
      EvictionIsSafe(old(states), old(traces), states, Surviving(states, traces, sessionKey), open, sessionKey, ceiling);
      traces := Surviving(states, traces, sessionKey);
    }

    /** Close a window: once, and only the first close counts. A window not closed yet is open. */
    method Close(w: WaitWindow, now: real)
      requires Valid() && (w in open || w.closed)
      modifies this, w
      ensures Valid() && w.closed
      ensures old(w.closed) ==> open == old(open) && traces == old(traces)
      ensures !old(w.closed) ==>
                && open == old(open) - {w}
                && traces == old(traces)[w.sessionKey := old(TraceOf(w.sessionKey)) + [Closed(now)]]
    {
      if w.closed { return; }
      CloseOpen(w, now);
    }

    method CloseOpen(w: WaitWindow, now: real)
      requires Valid() && w in open
      modifies `states, `traces, `open, w
      ensures Valid() && w.closed && open == old(open) - {w}
      ensures traces == old(traces)[w.sessionKey := old(traces)[w.sessionKey] + [Closed(now)]]
    {
      OpenIsPending(w);
      CloseIn(w.sessionKey, now);
      CountsMoved(old(states), open, states, w);
      open := open - {w};
      w.closed := true;
    }

    /** The seconds read for a session are the period sum of its trace. */
    method Seconds(sessionKey: SessionKey, now: real) returns (total: real)
      requires Valid()
      ensures total == PeriodSum(TraceOf(sessionKey), now, ceiling)
    {
      if sessionKey !in states { return 0.0; }
      var state := states[sessionKey];
      total := state.completed;
      if state.windowStarted.Some? {
        total := total + Clamped(state.windowStarted.value, now, ceiling);
      }
      LedgerReadsPeriodSum(traces[sessionKey], now, ceiling);
    }
  }

  lemma RecordKeepsBalance(trace: seq<Event>, e: Event, ceiling: real)
    requires Balanced(trace) && (e.Closed? ==> Depth(trace) > 0)
    ensures Balanced(trace + [e])
    ensures LedgerOf(trace + [e], ceiling) == Record(LedgerOf(trace, ceiling), e, ceiling)
  {
    var all := trace + [e];
    assert all[..|trace|] == trace && all[..|all|] == all;
    assert forall k | 0 <= k <= |trace| :: all[..k] == trace[..k];
    assert trace[..|trace|] == trace;
  }

  /** The order after the first `n` keys were considered for eviction. */
  function Considered(keys: seq<SessionKey>, idle: set<SessionKey>, n: nat): seq<SessionKey>
    requires n <= |keys|
  {
    if n == 0 then keys else
    var order := Considered(keys, idle, n - 1);
    if |order| >= MAX_SESSIONS && keys[n - 1] in idle then Without(order, keys[n - 1]) else order
  }

  lemma {:induction false} ConsideredStops(keys: seq<SessionKey>, idle: set<SessionKey>, n: nat)
    requires n <= |keys| && (n == |keys| || |Considered(keys, idle, n)| < MAX_SESSIONS)
    ensures Considered(keys, idle, |keys|) == Considered(keys, idle, n)
    decreases |keys| - n
  {
    if n == |keys| {
    } else {
      ConsideredStops(keys, idle, n + 1);
    }
  }

  /** Part of the way: `kept` stay, `left` are still to consider. */
  ghost predicate EvictionLeft(keys: seq<SessionKey>, idle: set<SessionKey>, kept: seq<SessionKey>, left: seq<SessionKey>) {
    Evicted(keys, idle, |keys| - MAX_SESSIONS + 1) == kept + Evicted(left, idle, |kept + left| - MAX_SESSIONS + 1)
  }

  lemma EvictionLeftStep(keys: seq<SessionKey>, idle: set<SessionKey>, kept: seq<SessionKey>,
                         key: SessionKey, rest: seq<SessionKey>)
    requires EvictionLeft(keys, idle, kept, [key] + rest)
    ensures |kept| + 1 + |rest| >= MAX_SESSIONS ==>
              EvictionLeft(keys, idle, if key in idle then kept else kept + [key], rest)
    ensures |kept| + 1 + |rest| < MAX_SESSIONS ==> EvictionLeft(keys, idle, kept + [key], rest)
  {
    assert ([key] + rest)[1..] == rest;
  }

  lemma TailSplit(keys: seq<SessionKey>, n: nat)
    requires n < |keys|
    ensures keys[n..] == [keys[n]] + keys[n + 1..]
  {
  }

  lemma ConsideredOne(keys: seq<SessionKey>, idle: set<SessionKey>, n: nat)
    requires n < |keys|
    ensures var order := Considered(keys, idle, n);
            Considered(keys, idle, n + 1)
              == if |order| >= MAX_SESSIONS && keys[n] in idle then Without(order, keys[n]) else order
  {
  }

  lemma {:induction false} ConsideredShape(keys: seq<SessionKey>, idle: set<SessionKey>, n: nat)
    returns (kept: seq<SessionKey>)
    requires NoDuplicates(keys) && n <= |keys|
    ensures Considered(keys, idle, n) == kept + keys[n..] && NoDuplicates(Considered(keys, idle, n))
    ensures EvictionLeft(keys, idle, kept, keys[n..])
  {
    if n == 0 {
      kept := [];
      assert keys[0..] == keys && [] + keys == keys;
    } else {
      var order, key, rest := Considered(keys, idle, n - 1), keys[n - 1], keys[n..];
      var before := ConsideredShape(keys, idle, n - 1);
      TailSplit(keys, n - 1);
      ConsideredOne(keys, idle, n - 1);
      kept := ConsideredStep(keys, idle, before, key, rest, order);
    }
  }

  lemma ConsideredStep(keys: seq<SessionKey>, idle: set<SessionKey>, before: seq<SessionKey>,
                       key: SessionKey, rest: seq<SessionKey>, order: seq<SessionKey>)
    returns (kept: seq<SessionKey>)
    requires order == before + ([key] + rest) && NoDuplicates(order) && EvictionLeft(keys, idle, before, [key] + rest)
    ensures var next := if |order| >= MAX_SESSIONS && key in idle then Without(order, key) else order;
            next == kept + rest && NoDuplicates(next)
    ensures EvictionLeft(keys, idle, kept, rest)
  {
    Splits(order, before, key, rest);
    EvictionLeftStep(keys, idle, before, key, rest);
    WithoutDistinct(order, key);
    assert before + ([key] + rest) == (before + [key]) + rest;
    kept := if |order| >= MAX_SESSIONS && key in idle then before else before + [key];
  }

  lemma StillKnown(keys: seq<SessionKey>, idle: set<SessionKey>, n: nat)
    requires NoDuplicates(keys) && n < |keys|
    ensures keys[n] in Considered(keys, idle, n)
  {
    var kept := ConsideredShape(keys, idle, n);
    assert (kept + keys[n..])[|kept|] == keys[n];
  }

  lemma ConsideredIsEvicted(keys: seq<SessionKey>, idle: set<SessionKey>)
    requires NoDuplicates(keys)
    ensures Considered(keys, idle, |keys|) == Evicted(keys, idle, |keys| - MAX_SESSIONS + 1)
  {
    var kept := ConsideredShape(keys, idle, |keys|);
    assert kept + [] == kept;
  }

  lemma EvictedKeysWereIdle(before: map<SessionKey, Ledger>, keys: seq<SessionKey>,
                            after: map<SessionKey, Ledger>, order: seq<SessionKey>)
    requires KeyedBy(before, keys) && KeyedBy(after, order)
    requires order == Evicted(keys, IdleOf(before), |keys| - MAX_SESSIONS + 1)
    ensures forall k | k in before && k !in after :: before[k].pending == 0
  {
    EvictsOnlyIdle(keys, IdleOf(before), |keys| - MAX_SESSIONS + 1);
    forall k | k in before && k !in after ensures before[k].pending == 0 {
      KeySetMember(keys, k);
      KeySetMember(order, k);
    }
  }

  lemma Around(order: seq<SessionKey>, kept: seq<SessionKey>, key: SessionKey, rest: seq<SessionKey>)
    requires order == kept + ([key] + rest)
    ensures |order| == |kept| + 1 + |rest| && order[|kept|] == key
    ensures order[..|kept|] == kept && order[|kept| + 1..] == rest
  {
  }

  lemma Splits(order: seq<SessionKey>, kept: seq<SessionKey>, key: SessionKey, rest: seq<SessionKey>)
    requires NoDuplicates(order) && order == kept + ([key] + rest)
    ensures key in order && Without(order, key) == kept + rest
  {
    Around(order, kept, key, rest);
    forall k | 0 <= k < |kept| ensures kept[k] != key { assert order[k] == kept[k]; }
    WithoutAt(order, key, |kept|);
  }
}
