/**
 The blocking approval gate of one session (src/pi_embedded/approvals/gate.ts) as a transition
 system. Steps are cut where the gate awaits: hooks, the prompt, and each bounded wait slice.
 Outside cron sessions, which the gate answers without touching the queue.
*/
module ApprovalGate {
  import opened ApprovalQueue
  import opened Sequences
  import opened Text

  /** A queue entry; `owner` is the waiter that created it. */
  datatype Entry = Entry(data: Request, owner: nat, result: Option<Choice>, done: bool)

  /** What the gate returns; `via` is the entry whose answer it is. */
  datatype Decision = Decision(resolved: bool, choice: Option<Choice>, coalesced: bool, notifyFailed: bool, via: nat)

  datatype Phase =
    | Announcing(leader: nat)            // follower: hook pending
    | Following(leader: nat)             // follower: parked on the leader's entry
    | Reprompting                        // follower: the leader was answered once
    | Prompting(entry: nat)              // own entry queued: hook and prompt pending
    | Waiting(entry: nat)                // parked on the own entry
    | Reporting(decision: Decision)      // closing hook pending
    | Returned(decision: Decision)

  datatype Waiter = Waiter(command: string, patternKeys: seq<string>, phase: Phase)

  /** Queue and entries of the session, its waiters, and two logs: answers given, entries gone. */
  datatype State = State(
    entries: seq<Entry>, queue: seq<nat>, waiters: seq<Waiter>,
    answers: seq<(nat, Choice)>, departed: seq<nat>)

  const START := State([], [], [], [], [])

  /** What a waiter sees at the top of its polling loop. */
  datatype Poll = Poll(interrupted: bool, expired: bool)

  datatype Label =
    | Ask(command: string, patternKeys: seq<string>, candidateId: string, requestId: string)
    | Announced(w: nat, poll: Poll)
    | Reprompt(w: nat, requestId: string)
    | Prompted(w: nat, delivered: bool, poll: Poll)
    | Woken(w: nat, settled: bool, poll: Poll)
    | Reported(w: nat)
    | Resolve(choice: Choice, options: ResolveOptions)
    | ClearSession
    | UnregisterNotify

  // ----- pieces of steps ------------------------------------------------------------------

  function WithPhase(s: State, w: nat, phase: Phase): State
    requires w < |s.waiters|
  {
    s.(waiters := s.waiters[w := s.waiters[w].(phase := phase)])
  }

  /** Settle entries that left the queue; no answer means they are only released. */
  function Settled(entries: seq<Entry>, targets: seq<nat>, answer: Option<Choice>): (r: seq<Entry>)
    ensures |r| == |entries|
  {
    seq(|entries|, i requires 0 <= i < |entries| =>
      if i in targets then
        entries[i].(done := true, result := if answer.Some? then answer else entries[i].result)
      else entries[i])
  }

  function DropEntry(s: State, e: nat): State {
    if e in s.queue then s.(queue := Without(s.queue, e), departed := s.departed + [e]) else s
  }

  function Enqueue(s: State, w: nat, requestId: string): State
    requires w < |s.waiters|
  {
    var waiter := s.waiters[w];
    var e := |s.entries|;
    WithPhase(
      s.(entries := s.entries + [Entry(Request(waiter.command, waiter.patternKeys, requestId), w, None, false)],
         queue := s.queue + [e]),
      w, Prompting(e))
  }

  /** The first pending entry with the identity of the request. */
  function FindIdentical(entries: seq<Entry>, queue: seq<nat>, command: string, keys: seq<string>): (r: Option<nat>)
    requires forall i | 0 <= i < |queue| :: queue[i] < |entries|
    ensures r.Some? ==>
              exists i | 0 <= i < |queue| ::
                && queue[i] == r.value && Identical(entries[r.value].data, command, keys)
                && forall k | 0 <= k < i :: !Identical(entries[queue[k]].data, command, keys)
    ensures r.None? ==> forall i | 0 <= i < |queue| :: !Identical(entries[queue[i]].data, command, keys)
  {
    if queue == [] then None
    else if Identical(entries[queue[0]].data, command, keys) then Some(queue[0])
    else FindIdentical(entries, queue[1..], command, keys)
  }

  /** A follower at the top of its loop. */
  function FollowTop(s: State, w: nat, leader: nat, poll: Poll): State
    requires w < |s.waiters|
  {
    if poll.interrupted then WithPhase(s, w, Reporting(Decision(true, Some(Deny), true, false, leader)))
    else if poll.expired then WithPhase(s, w, Reporting(Decision(false, None, true, false, leader)))
    else WithPhase(s, w, Following(leader))
  }

  /** A follower whose leader was settled. */
  function Adopt(s: State, w: nat, leader: nat): State
    requires w < |s.waiters| && leader < |s.entries|
  {
    var choice := s.entries[leader].result;
    if choice == Some(Once) then WithPhase(s, w, Reprompting)
    else WithPhase(s, w, Reporting(Decision(choice.Some?, choice, true, false, leader)))
  }

  /** A waiter leaves its wait: its entry leaves the queue and its result is read. */
  function Decide(s: State, w: nat, e: nat, resolved: bool): State
    requires w < |s.waiters| && e < |s.entries|
  {
    WithPhase(DropEntry(s, e), w, Reporting(Decision(resolved, s.entries[e].result, false, false, e)))
  }

  /** The entries after a waiter's own interrupt denied one of them. */
  function Denied(entries: seq<Entry>, e: nat, deny: bool): seq<Entry>
    requires e < |entries|
  {
    if deny then entries[e := entries[e].(result := Some(Deny), done := true)] else entries
  }

  /** A waiter at the top of its loop. */
  function WaitTop(s: State, w: nat, e: nat, poll: Poll): State
    requires w < |s.waiters| && e < |s.entries|
  {
    if poll.interrupted then
      Decide(s.(entries := Denied(s.entries, e, true)), w, e, true)
    else if poll.expired then Decide(s, w, e, false)
    else WithPhase(s, w, Waiting(e))
  }

  function RequestIds(entries: seq<Entry>): nat -> string {
    e => if 0 <= e < |entries| then entries[e].data.requestId else ""
  }

  function LogAnswers(targets: seq<nat>, choice: Choice): (r: seq<(nat, Choice)>)
    ensures |r| == |targets| && forall i | 0 <= i < |r| :: r[i] == (targets[i], choice)
  {
    seq(|targets|, i requires 0 <= i < |targets| => (targets[i], choice))
  }

  function ResolveTargets(s: State, options: ResolveOptions): seq<nat> {
    Targets(s.queue, options, RequestIds(s.entries))
  }

  function DoResolve(s: State, choice: Choice, options: ResolveOptions): State {
    var targets := ResolveTargets(s, options);
    s.(entries := Settled(s.entries, targets, Some(choice)),
       queue := Remaining(s.queue, options, RequestIds(s.entries)),
       answers := s.answers + LogAnswers(targets, choice),
       departed := s.departed + targets)
  }

  function Release(s: State, answer: Option<Choice>): State {
    s.(entries := Settled(s.entries, s.queue, answer), queue := [], departed := s.departed + s.queue)
  }

  // ----- steps -------------------------------------------------------------------------------

  predicate Enabled(s: State, l: Label) {
    match l
    case Ask(_, _, _, _) => forall i | 0 <= i < |s.queue| :: s.queue[i] < |s.entries|
    case Announced(w, _) => w < |s.waiters| && s.waiters[w].phase.Announcing?
    case Reprompt(w, _) => w < |s.waiters| && s.waiters[w].phase.Reprompting?
    case Prompted(w, _, _) =>
      w < |s.waiters| && s.waiters[w].phase.Prompting? && s.waiters[w].phase.entry < |s.entries|
    case Woken(w, settled, _) =>
      && w < |s.waiters|
      && (|| (s.waiters[w].phase.Following? && s.waiters[w].phase.leader < |s.entries|
              && (settled ==> s.entries[s.waiters[w].phase.leader].done))
          || (s.waiters[w].phase.Waiting? && s.waiters[w].phase.entry < |s.entries|
              && (settled ==> s.entries[s.waiters[w].phase.entry].done)))
    case Reported(w) => w < |s.waiters| && s.waiters[w].phase.Reporting?
    case Resolve(_, _) => true
    case ClearSession => true
    case UnregisterNotify => true
  }

  function DoAsk(s: State, l: Label): State
    requires l.Ask? && Enabled(s, l)
  {
    var w := |s.waiters|;
    var arrived := s.(waiters := s.waiters + [Waiter(l.command, l.patternKeys, Reprompting)]);
    var leader := FindIdentical(s.entries, s.queue, l.command, l.patternKeys);
    if leader.Some? && s.entries[leader.value].data.requestId != l.candidateId
    then WithPhase(arrived, w, Announcing(leader.value))
    else Enqueue(arrived, w, l.requestId)
  }

  function DoPrompted(s: State, w: nat, delivered: bool, poll: Poll): State
    requires Enabled(s, Prompted(w, delivered, poll))
  {
    var e := s.waiters[w].phase.entry;
    if delivered then WaitTop(s, w, e, poll)
    else WithPhase(DropEntry(s, e), w, Reporting(Decision(false, None, false, true, e)))
  }

  function DoWoken(s: State, w: nat, settled: bool, poll: Poll): State
    requires Enabled(s, Woken(w, settled, poll))
  {
    var phase := s.waiters[w].phase;
    if phase.Following? then
      if settled then Adopt(s, w, phase.leader) else FollowTop(s, w, phase.leader, poll)
    else if settled then Decide(s, w, phase.entry, true)
    else WaitTop(s, w, phase.entry, poll)
  }

  function Step(s: State, l: Label): State
    requires Enabled(s, l)
  {
    match l
    case Ask(_, _, _, _) => DoAsk(s, l)
    case Announced(w, poll) => FollowTop(s, w, s.waiters[w].phase.leader, poll)
    case Reprompt(w, requestId) => Enqueue(s, w, requestId)
    case Prompted(w, delivered, poll) => DoPrompted(s, w, delivered, poll)
    case Woken(w, settled, poll) => DoWoken(s, w, settled, poll)
    case Reported(w) => WithPhase(s, w, Returned(s.waiters[w].phase.decision))
    case Resolve(choice, options) => DoResolve(s, choice, options)
    case ClearSession => Release(s, Some(Deny))
    case UnregisterNotify => Release(s, None)
  }

  /** The state after a run from `s`; none when some step of it was not possible. */
  function After(s: State, run: seq<Label>): Option<State> {
    if run == [] then Some(s) else
    var before := After(s, run[..|run| - 1]);
    if before.Some? && Enabled(before.value, run[|run| - 1]) then Some(Step(before.value, run[|run| - 1])) else None
  }

  // ----- the queue and its entries --------------------------------------------------------------

  /** Oldest first; every entry created is pending or gone, never both, and gone once. */
  ghost predicate Books(n: nat, queue: seq<nat>, departed: seq<nat>) {
    && Increasing(queue)
    && NoDuplicates(departed)
    && (forall e | e in queue :: e < n && e !in departed)
    && (forall e | e in departed :: e < n)
    && (forall e: nat | e < n && e !in departed :: e in queue)
  }

  /** Nothing pending was settled yet. */
  predicate PendingOpen(entries: seq<Entry>, queue: seq<nat>) {
    forall e | e in queue :: 0 <= e < |entries| && !entries[e].done && entries[e].result.None?
  }

  ghost predicate QueueSound(s: State) {
    Books(|s.entries|, s.queue, s.departed) && PendingOpen(s.entries, s.queue)
  }

  lemma IncreasingTail(queue: seq<nat>)
    requires queue != []
    ensures Increasing(queue) <==> Increasing(queue[1..]) && forall x | x in queue[1..] :: queue[0] < x
  {
    assert forall i | 0 <= i < |queue| - 1 :: queue[1..][i] == queue[i + 1];
    if Increasing(queue[1..]) && (forall x | x in queue[1..] :: queue[0] < x) {
      forall i, j | 0 <= i < j < |queue| ensures queue[i] < queue[j] {
        assert queue[j] == queue[1..][j - 1] && queue[1..][j - 1] in queue[1..];
        if i > 0 { assert queue[i] == queue[1..][i - 1]; }
      }
    }
  }

  lemma {:induction false} WithoutIncreasing(queue: seq<nat>, e: nat)
    requires Increasing(queue)
    ensures Increasing(Without(queue, e)) && e !in Without(queue, e)
  {
    if queue == [] {
    } else {
      IncreasingTail(queue);
      WithoutIncreasing(queue[1..], e);
      if queue[0] != e {
        var r := [queue[0]] + Without(queue[1..], e);
        assert r[1..] == Without(queue[1..], e);
        IncreasingTail(r);
      }
    }
  }

  lemma {:induction false} SplitIncreasing(queue: seq<nat>, id: string, idOf: nat -> string)
    requires Increasing(queue)
    ensures Increasing(Others(queue, id, idOf)) && Increasing(Matching(queue, id, idOf))
  {
    if queue == [] {
    } else {
      IncreasingTail(queue);
      SplitIncreasing(queue[1..], id, idOf);
      var m, o := Matching(queue[1..], id, idOf), Others(queue[1..], id, idOf);
      assert ([queue[0]] + m)[1..] == m && ([queue[0]] + o)[1..] == o;
      IncreasingTail([queue[0]] + m);
      IncreasingTail([queue[0]] + o);
      assert [] + m == m && [] + o == o;
    }
  }

  lemma BooksDrop(n: nat, queue: seq<nat>, departed: seq<nat>, e: nat)
    requires Books(n, queue, departed) && e in queue
    ensures Books(n, Without(queue, e), departed + [e])
  {
    WithoutIncreasing(queue, e);
  }

  lemma BooksEnqueue(n: nat, queue: seq<nat>, departed: seq<nat>)
    requires Books(n, queue, departed)
    ensures Books(n + 1, queue + [n], departed)
  {
    var q := queue + [n];
    assert forall i | 0 <= i < |queue| :: q[i] in queue;
    assert q[|queue|] == n;
  }

  lemma BooksSettle(n: nat, queue: seq<nat>, departed: seq<nat>, targets: seq<nat>, rest: seq<nat>)
    requires Books(n, queue, departed) && Increasing(rest) && NoDuplicates(targets)
    requires forall e | e in targets :: e in queue && e !in rest
    requires forall e | e in rest :: e in queue
    requires forall e | e in queue :: e in targets || e in rest
    ensures Books(n, rest, departed + targets)
  {
    var all := departed + targets;
    forall i, j | 0 <= i < j < |all| ensures all[i] != all[j] {
      if j >= |departed| { assert all[j] == targets[j - |departed|]; }
      if i < |departed| { assert all[i] in departed; }
    }
  }
  /** The answer log names each entry once, and only entries that are gone. */
  ghost predicate AnswersSound(s: State) {
    && (forall i | 0 <= i < |s.answers| :: s.answers[i].0 in s.departed)
    && (forall i, j | 0 <= i < j < |s.answers| :: s.answers[i].0 != s.answers[j].0)
  }

  predicate Consented(s: State, e: nat, choice: Option<Choice>) {
    choice.Some? && choice.value != Deny ==> (e, choice.value) in s.answers
  }

  predicate ResultsConsented(s: State) {
    forall e: nat | e < |s.entries| :: Consented(s, e, s.entries[e].result)
  }

  predicate Names(s: State, e: nat, waiter: Waiter) {
    e < |s.entries| && Identical(s.entries[e].data, waiter.command, waiter.patternKeys)
  }

  predicate DecisionSound(s: State, w: nat, waiter: Waiter, d: Decision) {
    && Names(s, d.via, waiter)
    && Consented(s, d.via, d.choice)
    && (d.coalesced ==> d.choice != Some(Once))
    && (!d.coalesced ==> s.entries[d.via].owner == w)
  }

  /** What holds of a waiter in each phase; one parked on its own entry is never stranded. */
  predicate WaiterSound(s: State, w: nat, waiter: Waiter) {
    match waiter.phase
    case Announcing(leader) => Names(s, leader, waiter)
    case Following(leader) => Names(s, leader, waiter)
    case Reprompting => true
    case Prompting(e) => Names(s, e, waiter) && s.entries[e].owner == w && (e in s.queue || s.entries[e].done)
    case Waiting(e) => Names(s, e, waiter) && s.entries[e].owner == w && (e in s.queue || s.entries[e].done)
    case Reporting(d) => DecisionSound(s, w, waiter, d)
    case Returned(d) => DecisionSound(s, w, waiter, d)
  }

  ghost predicate CoreSound(s: State) {
    QueueSound(s) && AnswersSound(s) && ResultsConsented(s)
  }

  ghost predicate SoundExcept(s: State, w: nat) {
    CoreSound(s) && forall v: nat | v < |s.waiters| && v != w :: WaiterSound(s, v, s.waiters[v])
  }

  ghost predicate Sound(s: State) {
    CoreSound(s) && forall v: nat | v < |s.waiters| :: WaiterSound(s, v, s.waiters[v])
  }

  // ----- preservation -----------------------------------------------------------------------------

  /** Nothing a waiter relies on is lost; only entries of `w` may leave the queue unsettled. */
  ghost predicate Extends(s: State, t: State, w: nat) {
    && |s.entries| <= |t.entries|
    && (forall a | a in s.answers :: a in t.answers)
    && (forall e: nat | e < |s.entries| ::
          && t.entries[e].data == s.entries[e].data && t.entries[e].owner == s.entries[e].owner
          && (s.entries[e].done ==> t.entries[e].done))
    && (forall e | e in s.queue && e < |s.entries| ::
          e in t.queue || t.entries[e].done || s.entries[e].owner == w)
  }

  lemma WaiterKept(s: State, t: State, w: nat, v: nat, waiter: Waiter)
    requires WaiterSound(s, v, waiter) && Extends(s, t, w) && v != w
    ensures WaiterSound(t, v, waiter)
  {
  }

  lemma OthersKept(s: State, t: State, w: nat)
    requires SoundExcept(s, w) && CoreSound(t) && Extends(s, t, w) && t.waiters == s.waiters
    ensures SoundExcept(t, w)
  {
    forall v: nat | v < |s.waiters| && v != w ensures WaiterSound(t, v, t.waiters[v]) {
      WaiterKept(s, t, w, v, s.waiters[v]);
    }
  }

  lemma PhaseSound(s: State, w: nat, phase: Phase)
    requires SoundExcept(s, w) && w < |s.waiters|
    requires WaiterSound(s, w, s.waiters[w].(phase := phase))
    ensures Sound(WithPhase(s, w, phase))
  {
    var t := WithPhase(s, w, phase);
    forall v: nat | v < |t.waiters| ensures WaiterSound(t, v, t.waiters[v]) {
      if v != w { WaiterKept(s, t, w, v, s.waiters[v]); }
      SameView(s, t, w, t.waiters[w]);
    }
  }

  lemma SameView(s: State, t: State, w: nat, waiter: Waiter)
    requires t == s.(waiters := t.waiters) && WaiterSound(s, w, waiter)
    ensures WaiterSound(t, w, waiter)
  {
  }

  lemma DropCore(s: State, e: nat, deny: bool)
    requires CoreSound(s) && e < |s.entries|
    ensures CoreSound(DropEntry(s.(entries := Denied(s.entries, e, deny)), e))
  {
    var u := s.(entries := Denied(s.entries, e, deny));
    var t := DropEntry(u, e);
    if e in s.queue {
      BooksDrop(|s.entries|, s.queue, s.departed, e);
      WithoutIncreasing(s.queue, e);
    }
    forall i: nat | i < |t.entries| ensures Consented(t, i, t.entries[i].result) {
      assert Consented(s, i, s.entries[i].result);
    }
  }

  /** A waiter's entry leaves the queue, perhaps denied by its own interrupt. */
  lemma DropKeeps(s: State, w: nat, e: nat, deny: bool)
    requires SoundExcept(s, w) && e < |s.entries| && s.entries[e].owner == w
    ensures SoundExcept(DropEntry(s.(entries := Denied(s.entries, e, deny)), e), w)
  {
    DropCore(s, e, deny);
    OthersKept(s, DropEntry(s.(entries := Denied(s.entries, e, deny)), e), w);
  }

  lemma DecideKeeps(s: State, w: nat, e: nat, deny: bool, d: Decision)
    requires SoundExcept(s, w) && w < |s.waiters| && Names(s, e, s.waiters[w]) && s.entries[e].owner == w
    requires d.via == e && !d.coalesced
    requires d.choice == None || d.choice == (if deny then Some(Deny) else s.entries[e].result)
    ensures Sound(WithPhase(DropEntry(s.(entries := Denied(s.entries, e, deny)), e), w, Reporting(d)))
  {
    DropKeeps(s, w, e, deny);
    assert Consented(s, e, s.entries[e].result);
    PhaseSound(DropEntry(s.(entries := Denied(s.entries, e, deny)), e), w, Reporting(d));
  }

  lemma EnqueueKeeps(s: State, w: nat, requestId: string)
    requires SoundExcept(s, w) && w < |s.waiters|
    ensures Sound(Enqueue(s, w, requestId))
  {
    var e, waiter := |s.entries|, s.waiters[w];
    var entry := Entry(Request(waiter.command, waiter.patternKeys, requestId), w, None, false);
    var t := s.(entries := s.entries + [entry], queue := s.queue + [e]);
    assert forall i: nat | i < |s.entries| :: t.entries[i] == s.entries[i];
    BooksEnqueue(e, s.queue, s.departed);
    assert ResultsConsented(t) by {
      assert forall i: nat | i < |s.entries| :: Consented(s, i, s.entries[i].result) ==> Consented(t, i, t.entries[i].result);
    }
    OthersKept(s, t, w);
    assert e in t.queue by { assert t.queue[|s.queue|] == e; }
    PhaseSound(t, w, Prompting(e));
  }

  lemma AnswersAppend(s: State, targets: seq<nat>, logged: seq<(nat, Choice)>, t: State)
    requires QueueSound(s) && AnswersSound(s) && NoDuplicates(targets)
    requires forall e | e in targets :: e in s.queue
    requires logged == [] || (|logged| == |targets| && forall i | 0 <= i < |targets| :: logged[i].0 == targets[i])
    requires t.answers == s.answers + logged && t.departed == s.departed + targets
    ensures AnswersSound(t)
  {
    forall i | 0 <= i < |t.answers| ensures t.answers[i].0 in t.departed {
      if i >= |s.answers| { assert t.answers[i].0 == targets[i - |s.answers|]; }
    }
    forall i, j | 0 <= i < j < |t.answers| ensures t.answers[i].0 != t.answers[j].0 {
      if j >= |s.answers| { assert t.answers[j].0 == targets[j - |s.answers|]; }
      if i < |s.answers| { assert t.answers[i].0 in s.departed; }
    }
  }

  /** Entries that leave together, settled with the same answer. */
  lemma SettleKeeps(s: State, targets: seq<nat>, rest: seq<nat>, answer: Option<Choice>, logged: seq<(nat, Choice)>)
    requires Sound(s) && Increasing(rest) && NoDuplicates(targets)
    requires forall e | e in targets :: e in s.queue && e !in rest
    requires forall e | e in rest :: e in s.queue
    requires forall e | e in s.queue :: e in targets || e in rest
    requires answer.Some? && answer.value != Deny ==> logged == LogAnswers(targets, answer.value)
    requires logged == [] || (answer.Some? && logged == LogAnswers(targets, answer.value))
    ensures var t := s.(entries := Settled(s.entries, targets, answer), queue := rest,
                        answers := s.answers + logged, departed := s.departed + targets);
            Sound(t)
  {
    var t := s.(entries := Settled(s.entries, targets, answer), queue := rest,
                answers := s.answers + logged, departed := s.departed + targets);
    BooksSettle(|s.entries|, s.queue, s.departed, targets, rest);
    AnswersAppend(s, targets, logged, t);
    forall e: nat | e < |t.entries| ensures Consented(t, e, t.entries[e].result) {
      assert Consented(s, e, s.entries[e].result);
      if e in targets && answer.Some? && answer.value != Deny {
        var i :| 0 <= i < |targets| && targets[i] == e;
        assert t.answers[|s.answers| + i] == (e, answer.value);
      }
    }
    OthersKept(s, t, |s.waiters|);
  }

  lemma ArriveKeeps(s: State, waiter: Waiter)
    requires Sound(s) && waiter.phase == Reprompting
    ensures Sound(s.(waiters := s.waiters + [waiter]))
  {
    var t := s.(waiters := s.waiters + [waiter]);
    forall v: nat | v < |t.waiters| ensures WaiterSound(t, v, t.waiters[v]) {
      if v < |s.waiters| { SameView(s, t, v, s.waiters[v]); }
    }
  }

  lemma AskKeeps(s: State, l: Label)
    requires Sound(s) && l.Ask? && Enabled(s, l)
    ensures Sound(DoAsk(s, l))
  {
    var w, waiter := |s.waiters|, Waiter(l.command, l.patternKeys, Reprompting);
    var arrived := s.(waiters := s.waiters + [waiter]);
    ArriveKeeps(s, waiter);
    var leader := FindIdentical(s.entries, s.queue, l.command, l.patternKeys);
    if leader.Some? && s.entries[leader.value].data.requestId != l.candidateId {
      PhaseSound(arrived, w, Announcing(leader.value));
    } else {
      EnqueueKeeps(arrived, w, l.requestId);
    }
  }

  lemma FollowKeeps(s: State, w: nat, leader: nat, poll: Poll)
    requires Sound(s) && w < |s.waiters| && Names(s, leader, s.waiters[w])
    ensures Sound(FollowTop(s, w, leader, poll))
  {
    PhaseSound(s, w,
      if poll.interrupted then Reporting(Decision(true, Some(Deny), true, false, leader))
      else if poll.expired then Reporting(Decision(false, None, true, false, leader))
      else Following(leader));
  }

  lemma AdoptKeeps(s: State, w: nat, leader: nat)
    requires Sound(s) && w < |s.waiters| && Names(s, leader, s.waiters[w])
    ensures Sound(Adopt(s, w, leader))
  {
    var choice := s.entries[leader].result;
    assert Consented(s, leader, choice);
    PhaseSound(s, w,
      if choice == Some(Once) then Reprompting
      else Reporting(Decision(choice.Some?, choice, true, false, leader)));
  }

  lemma WaitKeeps(s: State, w: nat, e: nat, poll: Poll)
    requires Sound(s) && w < |s.waiters| && Names(s, e, s.waiters[w]) && s.entries[e].owner == w
    requires e in s.queue || s.entries[e].done
    ensures Sound(WaitTop(s, w, e, poll))
  {
    if poll.interrupted {
      DecideKeeps(s, w, e, true, Decision(true, Some(Deny), false, false, e));
    } else if poll.expired {
      DecideKeeps(s, w, e, false, Decision(false, s.entries[e].result, false, false, e));
    } else {
      PhaseSound(s, w, Waiting(e));
    }
  }

  lemma ResolveKeeps(s: State, choice: Choice, options: ResolveOptions)
    requires Sound(s)
    ensures Sound(DoResolve(s, choice, options))
  {
    var idOf := RequestIds(s.entries);
    var targets, rest := Targets(s.queue, options, idOf), Remaining(s.queue, options, idOf);
    ResolveKeepsDistinct(s.queue, options, idOf);
    if Given(options.requestId) {
      SplitIncreasing(s.queue, options.requestId.value, idOf);
    } else if s.queue != [] {
      IncreasingTail(s.queue);
    }
    SettleKeeps(s, targets, rest, Some(choice), LogAnswers(targets, choice));
  }

  lemma ReleaseKeeps(s: State, answer: Option<Choice>)
    requires Sound(s) && (answer == None || answer == Some(Deny))
    ensures Sound(Release(s, answer))
  {
    assert s.answers + [] == s.answers;
    SettleKeeps(s, s.queue, [], answer, []);
  }

  lemma StepKeeps(s: State, l: Label)
    requires Sound(s) && Enabled(s, l)
    ensures Sound(Step(s, l))
  {
    match l
    case Ask(_, _, _, _) => AskKeeps(s, l);
    case Announced(w, poll) =>
      assert WaiterSound(s, w, s.waiters[w]);
      FollowKeeps(s, w, s.waiters[w].phase.leader, poll);
    case Reprompt(w, requestId) => EnqueueKeeps(s, w, requestId);
    case Prompted(w, delivered, poll) => PromptedKeeps(s, w, delivered, poll);
    case Woken(w, settled, poll) => WokenKeeps(s, w, settled, poll);
    case Reported(w) =>
      assert WaiterSound(s, w, s.waiters[w]);
      PhaseSound(s, w, Returned(s.waiters[w].phase.decision));
    case Resolve(choice, options) => ResolveKeeps(s, choice, options);
    case ClearSession => ReleaseKeeps(s, Some(Deny));
    case UnregisterNotify => ReleaseKeeps(s, None);
  }

  lemma PromptedKeeps(s: State, w: nat, delivered: bool, poll: Poll)
    requires Sound(s) && Enabled(s, Prompted(w, delivered, poll))
    ensures Sound(DoPrompted(s, w, delivered, poll))
  {
    var e := s.waiters[w].phase.entry;
    assert WaiterSound(s, w, s.waiters[w]);
    if delivered {
      WaitKeeps(s, w, e, poll);
    } else {
      DecideKeeps(s, w, e, false, Decision(false, None, false, true, e));
    }
  }

  lemma WokenKeeps(s: State, w: nat, settled: bool, poll: Poll)
    requires Sound(s) && Enabled(s, Woken(w, settled, poll))
    ensures Sound(DoWoken(s, w, settled, poll))
  {
    var phase := s.waiters[w].phase;
    assert WaiterSound(s, w, s.waiters[w]);
    if phase.Following? {
      if settled { AdoptKeeps(s, w, phase.leader); } else { FollowKeeps(s, w, phase.leader, poll); }
    } else if settled {
      DecideKeeps(s, w, phase.entry, false, Decision(true, s.entries[phase.entry].result, false, false, phase.entry));
    } else {
      WaitKeeps(s, w, phase.entry, poll);
    }
  }

  // ----- every run -----------------------------------------------------------------------------------

  lemma {:induction false} RunsKeep(s: State, run: seq<Label>)
    requires Sound(s) && After(s, run).Some?
    ensures Sound(After(s, run).value)
  {
    if run == [] {
    } else {
      RunsKeep(s, run[..|run| - 1]);
      StepKeeps(After(s, run[..|run| - 1]).value, run[|run| - 1]);
    }
  }

  lemma RunsAreSound(run: seq<Label>)
    requires After(START, run).Some?
    ensures Sound(After(START, run).value)
  {
    RunsKeep(START, run);
  }

  /** Somebody answered `choice` by a resolve call that targeted entry `e`. */
  ghost predicate Answered(run: seq<Label>, e: nat, choice: Choice) {
    exists i | 0 <= i < |run| :: AnsweredAt(run, i, e, choice)
  }

  predicate AnsweredAt(run: seq<Label>, i: nat, e: nat, choice: Choice)
    requires i < |run|
  {
    && run[i].Resolve? && run[i].choice == choice && After(START, run[..i]).Some?
    && e in ResolveTargets(After(START, run[..i]).value, run[i].options)
  }

  lemma StepAnswers(s: State, l: Label, e: nat, choice: Choice)
    requires Enabled(s, l) && (e, choice) in Step(s, l).answers
    ensures (e, choice) in s.answers || (l.Resolve? && l.choice == choice && e in ResolveTargets(s, l.options))
  {
  }

  lemma {:induction false} LogIsHistory(run: seq<Label>, e: nat, choice: Choice)
    requires After(START, run).Some? && (e, choice) in After(START, run).value.answers
    ensures Answered(run, e, choice)
  {
    var n := |run| - 1;
    StepAnswers(After(START, run[..n]).value, run[n], e, choice);
    if (e, choice) in After(START, run[..n]).value.answers {
      LogIsHistory(run[..n], e, choice);
      var i :| 0 <= i < n && AnsweredAt(run[..n], i, e, choice);
      assert run[..n][..i] == run[..i];
      assert AnsweredAt(run, i, e, choice);
    } else {
      assert AnsweredAt(run, n, e, choice);
    }
  }

  /**
   Consent: a waiter that returns an approval, resolved or not, has it from a resolve call that
   targeted an entry for the same command and pattern keys; an answer of once is returned only
   by the waiter that created that entry.
  */
  lemma Consent(run: seq<Label>, s: State, w: nat, d: Decision)
    requires After(START, run) == Some(s) && w < |s.waiters| && s.waiters[w].phase == Returned(d)
    requires d.choice.Some? && d.choice.value != Deny
    ensures d.via < |s.entries| && s.entries[d.via].data.command == s.waiters[w].command
    ensures s.entries[d.via].data.patternKeys == s.waiters[w].patternKeys
    ensures Answered(run, d.via, d.choice.value)
    ensures d.choice.value == Once ==> !d.coalesced && s.entries[d.via].owner == w
  {
    RunsAreSound(run);
    assert WaiterSound(s, w, s.waiters[w]);
    LogIsHistory(run, d.via, d.choice.value);
  }

  /** One answer of once covers one waiter. */
  lemma OnceCoversOneWaiter(run: seq<Label>, s: State, v: nat, w: nat, d: Decision, e: Decision)
    requires After(START, run) == Some(s) && v < |s.waiters| && w < |s.waiters|
    requires s.waiters[v].phase == Returned(d) && s.waiters[w].phase == Returned(e)
    requires d.choice == Some(Once) && e.choice == Some(Once) && d.via == e.via
    ensures v == w
  {
    Consent(run, s, v, d);
    Consent(run, s, w, e);
  }

  /** Each entry is answered at most once, and each entry created is pending or gone, gone once. */
  lemma EntriesLeaveOnce(run: seq<Label>)
    requires After(START, run).Some?
    ensures var s := After(START, run).value;
            && Books(|s.entries|, s.queue, s.departed) && PendingOpen(s.entries, s.queue)
            && forall i, j | 0 <= i < j < |s.answers| :: s.answers[i].0 != s.answers[j].0
  {
    RunsAreSound(run);
  }

  /**
   A resolve call settles exactly its targets, all pending before and gone after; without a
   request id and without `all` that is the oldest pending entry.
  */
  lemma ResolveSettles(s: State, choice: Choice, options: ResolveOptions)
    requires QueueSound(s)
    ensures NoDuplicates(ResolveTargets(s, options))
    ensures forall e: nat | e < |s.entries| ::
              e in ResolveTargets(s, options) <==> !s.entries[e].done && DoResolve(s, choice, options).entries[e].done
    ensures forall e | e in s.queue ::
              if e in ResolveTargets(s, options) then e !in DoResolve(s, choice, options).queue
              else e in DoResolve(s, choice, options).queue
  {
    ResolveKeepsDistinct(s.queue, options, RequestIds(s.entries));
  }

  lemma ResolveTakesOldest(s: State, options: ResolveOptions)
    requires QueueSound(s) && s.queue != [] && !Given(options.requestId) && !options.resolveAll
    ensures |ResolveTargets(s, options)| == 1
    ensures forall e | e in s.queue :: ResolveTargets(s, options)[0] <= e
  {
    IncreasingTail(s.queue);
    assert s.queue == [s.queue[0]] + s.queue[1..];
  }

  /** A waiter parked on its own entry can always be answered or wake up: it is never stranded. */
  lemma WaitersAreNotStranded(run: seq<Label>, s: State, w: nat)
    requires After(START, run) == Some(s) && w < |s.waiters| && s.waiters[w].phase.Waiting?
    ensures s.waiters[w].phase.entry in s.queue || Enabled(s, Woken(w, true, Poll(false, false)))
  {
    RunsAreSound(run);
    assert WaiterSound(s, w, s.waiters[w]);
  }

  // ----- followers of an entry nobody can settle ---------------------------------------------------

  /** The entry left the queue and was not settled. */
  predicate Orphan(s: State, e: nat) {
    e < |s.entries| && e !in s.queue && !s.entries[e].done
  }

  lemma OrphanStep(s: State, l: Label, e: nat)
    requires Sound(s) && Enabled(s, l) && Orphan(s, e)
    ensures Orphan(Step(s, l), e)
  {
    match l
    case Prompted(w, delivered, poll) =>
      assert WaiterSound(s, w, s.waiters[w]);
    case Woken(w, settled, poll) =>
      assert WaiterSound(s, w, s.waiters[w]);
    case _ =>
  }

  lemma {:induction false} OrphanStays(s: State, more: seq<Label>, e: nat)
    requires Sound(s) && Orphan(s, e) && After(s, more).Some?
    ensures Orphan(After(s, more).value, e)
  {
    if more == [] {
    } else {
      var before := more[..|more| - 1];
      OrphanStays(s, before, e);
      RunsKeep(s, before);
      OrphanStep(After(s, before).value, more[|more| - 1], e);
    }
  }

  predicate Settles(s: State, more: seq<Label>, e: nat) {
    After(s, more).Some? && e < |After(s, more).value.entries| && After(s, more).value.entries[e].done
  }

  const DENY_ALL := Resolve(Deny, ResolveOptions(true, None, None))

  /**
   A follower may still see its leader settled exactly when the leader's entry is pending or
   settled already; otherwise only its own deadline or interrupt ends the wait.
  */
  lemma FollowerCanBeSettled(run: seq<Label>, s: State, w: nat, leader: nat)
    requires After(START, run) == Some(s) && w < |s.waiters| && s.waiters[w].phase == Following(leader)
    ensures leader < |s.entries|
    ensures (exists more :: Settles(s, more, leader)) <==> leader in s.queue || s.entries[leader].done
  {
    RunsAreSound(run);
    assert WaiterSound(s, w, s.waiters[w]);
    if s.entries[leader].done {
      assert Settles(s, [], leader);
    } else if leader in s.queue {
      RunAppend(s, [], DENY_ALL);
      assert Settles(s, [] + [DENY_ALL], leader);
    } else {
      forall more ensures !Settles(s, more, leader) {
        if After(s, more).Some? { OrphanStays(s, more, leader); }
      }
    }
  }

  /** Its owner gave the entry up without an answer: the prompt failed, or the wait expired. */
  predicate GivenUp(s: State, e: nat)
    requires e < |s.entries|
  {
    var w := s.entries[e].owner;
    w < |s.waiters| &&
    var phase := s.waiters[w].phase;
    && (phase.Reporting? || phase.Returned?)
    && phase.decision.via == e && !phase.decision.coalesced
    && !phase.decision.resolved && phase.decision.choice.None?
  }

  ghost predicate OrphansGivenUp(s: State) {
    forall e: nat | Orphan(s, e) :: GivenUp(s, e)
  }

  lemma DecideGivesUp(s: State, w: nat, own: nat, resolved: bool, e: nat)
    requires Sound(s) && w < |s.waiters| && own < |s.entries| && s.entries[own].owner == w
    requires !resolved || s.entries[own].done
    requires !s.waiters[w].phase.Reporting? && !s.waiters[w].phase.Returned?
    requires own in s.queue || s.entries[own].done
    requires Orphan(Decide(s, w, own, resolved), e) && (Orphan(s, e) ==> GivenUp(s, e))
    ensures GivenUp(Decide(s, w, own, resolved), e)
  {
    if e != own {
      assert Orphan(s, e);
    }
  }

  lemma PromptedGivesUp(s: State, w: nat, delivered: bool, poll: Poll, e: nat)
    requires Sound(s) && Enabled(s, Prompted(w, delivered, poll))
    requires Orphan(DoPrompted(s, w, delivered, poll), e) && (Orphan(s, e) ==> GivenUp(s, e))
    ensures GivenUp(DoPrompted(s, w, delivered, poll), e)
  {
    var own := s.waiters[w].phase.entry;
    assert WaiterSound(s, w, s.waiters[w]);
    if delivered {
      WaitGivesUp(s, w, own, poll, e);
    } else if e != own {
      assert Orphan(s, e);
    }
  }

  lemma WaitGivesUp(s: State, w: nat, own: nat, poll: Poll, e: nat)
    requires Sound(s) && w < |s.waiters| && own < |s.entries| && s.entries[own].owner == w
    requires !s.waiters[w].phase.Reporting? && !s.waiters[w].phase.Returned?
    requires own in s.queue || s.entries[own].done
    requires Orphan(WaitTop(s, w, own, poll), e) && (Orphan(s, e) ==> GivenUp(s, e))
    ensures GivenUp(WaitTop(s, w, own, poll), e)
  {
    if poll.interrupted {
      assert e != own;
      assert Orphan(s, e);
    } else if poll.expired {
      DecideGivesUp(s, w, own, false, e);
    }
  }

  lemma WokenGivesUp(s: State, w: nat, settled: bool, poll: Poll, e: nat)
    requires Sound(s) && Enabled(s, Woken(w, settled, poll))
    requires Orphan(DoWoken(s, w, settled, poll), e) && (Orphan(s, e) ==> GivenUp(s, e))
    ensures GivenUp(DoWoken(s, w, settled, poll), e)
  {
    var phase := s.waiters[w].phase;
    assert WaiterSound(s, w, s.waiters[w]);
    if phase.Following? {
      assert Orphan(s, e);
    } else if settled {
      DecideGivesUp(s, w, phase.entry, true, e);
    } else {
      WaitGivesUp(s, w, phase.entry, poll, e);
    }
  }

  lemma GivenUpStep(s: State, l: Label, e: nat)
    requires Sound(s) && Enabled(s, l) && Orphan(Step(s, l), e) && (Orphan(s, e) ==> GivenUp(s, e))
    ensures GivenUp(Step(s, l), e)
  {
    match l
    case Prompted(w, delivered, poll) => PromptedGivesUp(s, w, delivered, poll, e);
    case Woken(w, settled, poll) => WokenGivesUp(s, w, settled, poll, e);
    case _ =>
      assert Orphan(s, e);
  }

  /** Entries are orphaned only by their own waiters, which then report no answer. */
  lemma {:induction false} OrphansAreGivenUp(run: seq<Label>)
    requires After(START, run).Some?
    ensures OrphansGivenUp(After(START, run).value)
  {
    if run == [] {
    } else {
      var before := run[..|run| - 1];
      OrphansAreGivenUp(before);
      RunsAreSound(before);
      forall e: nat | Orphan(After(START, run).value, e) ensures GivenUp(After(START, run).value, e) {
        GivenUpStep(After(START, before).value, run[|run| - 1], e);
      }
    }
  }

  lemma RunAppend(s: State, run: seq<Label>, l: Label)
    requires After(s, run).Some? && Enabled(After(s, run).value, l)
    ensures After(s, run + [l]) == Some(Step(After(s, run).value, l))
  {
    assert (run + [l])[..|run|] == run;
  }

  const IDLE := Poll(false, false)
  const EXPIRED := Poll(false, true)
  const FIRST_ASK := Ask("rm", ["k"], "c0", "r0")
  const SECOND_ASK := Ask("rm", ["k"], "c1", "r1")
  const FOLLOWED := [] + [FIRST_ASK] + [SECOND_ASK] + [Announced(1, IDLE)]
  const FAILED_PROMPT := FOLLOWED + [Prompted(0, false, IDLE)]
  const TIMED_OUT := FOLLOWED + [Prompted(0, true, IDLE)] + [Woken(0, false, EXPIRED)]

  const ASKED := State([Entry(Request("rm", ["k"], "r0"), 0, None, false)], [0], [Waiter("rm", ["k"], Prompting(0))], [], [])
  const ASKED_TWICE := ASKED.(waiters := [Waiter("rm", ["k"], Prompting(0)), Waiter("rm", ["k"], Announcing(0))])
  const LEADER_FOLLOWED := ASKED.(waiters := [Waiter("rm", ["k"], Prompting(0)), Waiter("rm", ["k"], Following(0))])

  lemma FirstSteps()
    ensures DoAsk(START, FIRST_ASK) == ASKED
    ensures Enabled(ASKED, SECOND_ASK) && DoAsk(ASKED, SECOND_ASK) == ASKED_TWICE
    ensures Enabled(ASKED_TWICE, Announced(1, IDLE)) && Step(ASKED_TWICE, Announced(1, IDLE)) == LEADER_FOLLOWED
  {
    assert DoAsk(START, FIRST_ASK).waiters == ASKED.waiters;
    assert DoAsk(START, FIRST_ASK).entries == ASKED.entries;
    assert DoAsk(ASKED, SECOND_ASK).waiters == ASKED_TWICE.waiters;
    assert Step(ASKED_TWICE, Announced(1, IDLE)).waiters == LEADER_FOLLOWED.waiters;
  }

  lemma LeaderIsFollowed()
    ensures After(START, FOLLOWED) == Some(LEADER_FOLLOWED)
  {
    FirstSteps();
    RunAppend(START, [], FIRST_ASK);
    RunAppend(START, [] + [FIRST_ASK], SECOND_ASK);
    RunAppend(START, [] + [FIRST_ASK] + [SECOND_ASK], Announced(1, IDLE));
  }

  /** A follower is left behind when the prompt of its leader fails. */
  lemma FollowerOfFailedPrompt()
    ensures After(START, FAILED_PROMPT).Some?
    ensures var s := After(START, FAILED_PROMPT).value;
            |s.waiters| == 2 && s.waiters[1].phase == Following(0) && Orphan(s, 0)
  {
    LeaderIsFollowed();
    RunAppend(START, FOLLOWED, Prompted(0, false, IDLE));
    assert Without([0], 0) == [];
  }

  /** And when its leader's wait expires first. */
  lemma FollowerOfTimedOutLeader()
    ensures After(START, TIMED_OUT).Some?
    ensures var s := After(START, TIMED_OUT).value;
            |s.waiters| == 2 && s.waiters[1].phase == Following(0) && Orphan(s, 0)
  {
    LeaderIsFollowed();
    RunAppend(START, FOLLOWED, Prompted(0, true, IDLE));
    RunAppend(START, FOLLOWED + [Prompted(0, true, IDLE)], Woken(0, false, EXPIRED));
    assert Without([0], 0) == [];
  }
}
