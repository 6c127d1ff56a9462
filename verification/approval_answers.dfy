/** What a waiter of the gate returns, told from the calls made on its entry. */
module ApprovalAnswers {
  import opened ApprovalGate
  import opened ApprovalQueue
  import opened Sequences
  import opened Text

  /** What became of an entry: the last of these that happened to it. */
  datatype Verdict = Answer(choice: Choice) | Cleared | Released | Interrupted

  function ChoiceOf(v: Verdict): Option<Choice> {
    match v
    case Answer(choice) => Some(choice)
    case Cleared => Some(Deny)
    case Released => None
    case Interrupted => Some(Deny)
  }

  /** The waiter's own interrupt is seen at the top of its loop. */
  predicate InterruptsOwn(s: State, l: Label, e: nat) {
    || (l.Prompted? && l.delivered && l.poll.interrupted
        && l.w < |s.waiters| && s.waiters[l.w].phase == Prompting(e))
    || (l.Woken? && !l.settled && l.poll.interrupted
        && l.w < |s.waiters| && s.waiters[l.w].phase == Waiting(e))
  }

  /** What a step does to an entry, if anything. */
  function VerdictOf(s: State, l: Label, e: nat): Option<Verdict> {
    if l.Resolve? && e in ResolveTargets(s, l.options) then Some(Answer(l.choice))
    else if l.ClearSession? && e in s.queue then Some(Cleared)
    else if l.UnregisterNotify? && e in s.queue then Some(Released)
    else if InterruptsOwn(s, l, e) then Some(Interrupted)
    else None
  }

  function Fate(run: seq<Label>, e: nat): Option<Verdict>
    requires After(START, run).Some?
  {
    if run == [] then None else
    var before := run[..|run| - 1];
    var v := VerdictOf(After(START, before).value, run[|run| - 1], e);
    if v.Some? then v else Fate(before, e)
  }

  // ----- asking ----------------------------------------------------------------------------

  /** The oldest pending entry for this command and these keys. */
  predicate Leads(s: State, leader: nat, command: string, keys: seq<string>) {
    exists i | 0 <= i < |s.queue| ::
      && s.queue[i] == leader && leader < |s.entries|
      && s.entries[leader].data.command == command && s.entries[leader].data.patternKeys == keys
      && forall k | 0 <= k < i && s.queue[k] < |s.entries| ::
           !(s.entries[s.queue[k]].data.command == command && s.entries[s.queue[k]].data.patternKeys == keys)
  }

  /**
   A question follows the oldest pending one for the same command and keys, unless that is the one
   it comes from; otherwise it joins the end of the queue under its own id.
  */
  lemma AskMeans(s: State, l: Label)
    requires l.Ask? && Enabled(s, l)
    ensures var t, w := Step(s, l), |s.waiters|;
            && |t.waiters| == w + 1 && t.waiters[..w] == s.waiters
            && t.waiters[w].command == l.command && t.waiters[w].patternKeys == l.patternKeys
            && (t.waiters[w].phase.Announcing? <==>
                  exists leader: nat :: Leads(s, leader, l.command, l.patternKeys)
                                        && s.entries[leader].data.requestId != l.candidateId)
            && (t.waiters[w].phase.Announcing? ==>
                  Leads(s, t.waiters[w].phase.leader, l.command, l.patternKeys) && t == s.(waiters := t.waiters))
            && (!t.waiters[w].phase.Announcing? ==>
                  && t.waiters[w].phase == Prompting(|s.entries|) && t.queue == s.queue + [|s.entries|]
                  && t.entries == s.entries + [Entry(Request(l.command, l.patternKeys, l.requestId), w, None, false)])
  {
    var leader := FindIdentical(s.entries, s.queue, l.command, l.patternKeys);
    if leader.Some? {
      assert Leads(s, leader.value, l.command, l.patternKeys);
      forall other: nat | Leads(s, other, l.command, l.patternKeys) ensures other == leader.value {
        OneLeads(s, other, leader.value, l.command, l.patternKeys);
      }
    }
  }

  lemma OneLeads(s: State, a: nat, b: nat, command: string, keys: seq<string>)
    requires forall i | 0 <= i < |s.queue| :: s.queue[i] < |s.entries|
    requires Leads(s, a, command, keys) && Leads(s, b, command, keys)
    ensures a == b
  {
  }

  // ----- entries are as their fate says -----------------------------------------------------

  predicate Bears(entry: Entry, fate: Option<Verdict>) {
    && (entry.done <==> fate.Some?)
    && entry.result == (if fate.Some? then ChoiceOf(fate.value) else None)
  }

  lemma SettledBears(s: State, targets: seq<nat>, answer: Option<Choice>, e: nat)
    requires e < |s.entries| && PendingOpen(s.entries, s.queue) && forall t | t in targets :: t in s.queue
    ensures var entry := Settled(s.entries, targets, answer)[e];
            if e in targets then entry.done && entry.result == answer else entry == s.entries[e]
  {
  }

  lemma StepBears(s: State, l: Label, e: nat)
    requires Sound(s) && Enabled(s, l) && e < |s.entries|
    ensures |Step(s, l).entries| >= |s.entries|
    ensures var v := VerdictOf(s, l, e);
            if v.Some? then Bears(Step(s, l).entries[e], v)
            else Step(s, l).entries[e].done == s.entries[e].done && Step(s, l).entries[e].result == s.entries[e].result
  {
    match l
    case Resolve(choice, options) => SettledBears(s, ResolveTargets(s, options), Some(choice), e);
    case ClearSession => SettledBears(s, s.queue, Some(Deny), e);
    case UnregisterNotify => SettledBears(s, s.queue, None, e);
    case _ => WaiterBears(s, l, e);
  }

  lemma WaiterBears(s: State, l: Label, e: nat)
    requires Enabled(s, l) && e < |s.entries| && !l.Resolve? && !l.ClearSession? && !l.UnregisterNotify?
    ensures |Step(s, l).entries| >= |s.entries|
    ensures Step(s, l).entries[e]
         == if InterruptsOwn(s, l, e) then s.entries[e].(done := true, result := Some(Deny)) else s.entries[e]
  {
  }

  lemma NoVerdictBefore(s: State, l: Label, e: nat)
    requires Sound(s) && Enabled(s, l) && e >= |s.entries|
    ensures VerdictOf(s, l, e) == None
    ensures e < |Step(s, l).entries| ==> Bears(Step(s, l).entries[e], None)
  {
    if l.Prompted? || l.Woken? {
      assert WaiterSound(s, l.w, s.waiters[l.w]);
    }
  }

  /** In every reachable state an entry bears the answer its fate gave it. */
  lemma {:induction false} EntryBearsFate(run: seq<Label>, e: nat)
    requires After(START, run).Some?
    ensures if e < |After(START, run).value.entries| then Bears(After(START, run).value.entries[e], Fate(run, e))
            else Fate(run, e).None?
  {
    if run == [] {
    } else {
      var before, l := run[..|run| - 1], run[|run| - 1];
      var s := After(START, before).value;
      RunsAreSound(before);
      EntryBearsFate(before, e);
      if e < |s.entries| {
        StepBears(s, l, e);
      } else {
        NoVerdictBefore(s, l, e);
      }
    }
  }

  // ----- leaving the gate ---------------------------------------------------------------------

  predicate HasDecision(waiter: Waiter, d: Decision) {
    waiter.phase == Reporting(d) || waiter.phase == Returned(d)
  }

  /** What the fate of an entry answers so far. */
  function AnswerSoFar(run: seq<Label>, e: nat): Option<Choice>
    requires After(START, run).Some?
  {
    var fate := Fate(run, e);
    if fate.Some? then ChoiceOf(fate.value) else None
  }

  /**
   The step by which a waiter leaves with a decision: its prompt failed; it was woken by the
   settling of its own entry or of its leader's; or its loop saw the interrupt or the deadline.
  */
  predicate LeavesBy(before: seq<Label>, l: Label, w: nat, d: Decision)
    requires After(START, before).Some?
  {
    var s := After(START, before).value;
    && w < |s.waiters| && (l.Prompted? || l.Woken? || l.Announced?) && l.w == w
    && match s.waiters[w].phase
       case Prompting(e) =>
         && l.Prompted?
         && d == (if !l.delivered then Decision(false, None, false, true, e)
                  else if l.poll.interrupted then Decision(true, Some(Deny), false, false, e)
                  else Decision(false, AnswerSoFar(before, e), false, false, e))
         && (!l.delivered || l.poll.interrupted || l.poll.expired)
       case Waiting(e) =>
         && l.Woken?
         && d == (if l.settled then Decision(true, AnswerSoFar(before, e), false, false, e)
                  else if l.poll.interrupted then Decision(true, Some(Deny), false, false, e)
                  else Decision(false, AnswerSoFar(before, e), false, false, e))
         && (if l.settled then Fate(before, e).Some? else l.poll.interrupted || l.poll.expired)
       case Announcing(leader) =>
         && l.Announced?
         && d == (if l.poll.interrupted then Decision(true, Some(Deny), true, false, leader)
                  else Decision(false, None, true, false, leader))
         && (l.poll.interrupted || l.poll.expired)
       case Following(leader) =>
         && l.Woken?
         && d == (if l.settled then Decision(AnswerSoFar(before, leader).Some?, AnswerSoFar(before, leader), true, false, leader)
                  else if l.poll.interrupted then Decision(true, Some(Deny), true, false, leader)
                  else Decision(false, None, true, false, leader))
         && (if l.settled then Fate(before, leader).Some? && AnswerSoFar(before, leader) != Some(Once)
             else l.poll.interrupted || l.poll.expired)
       case _ => false
  }

  lemma LeavingStep(before: seq<Label>, l: Label, w: nat, d: Decision)
    requires After(START, before).Some?
    requires var s := After(START, before).value;
             && Enabled(s, l) && w < |Step(s, l).waiters| && HasDecision(Step(s, l).waiters[w], d)
             && !(w < |s.waiters| && HasDecision(s.waiters[w], d))
    ensures LeavesBy(before, l, w, d)
  {
    var s := After(START, before).value;
    RunsAreSound(before);
    assert w < |s.waiters|;
    assert WaiterSound(s, w, s.waiters[w]);
    match s.waiters[w].phase
    case Prompting(e) => EntryBearsFate(before, e);
    case Waiting(e) => EntryBearsFate(before, e);
    case Following(leader) => EntryBearsFate(before, leader);
    case _ =>
  }

  /** And every such step makes its decision. */
  lemma LeavingIsMade(before: seq<Label>, l: Label, w: nat, d: Decision)
    requires After(START, before).Some? && Enabled(After(START, before).value, l) && LeavesBy(before, l, w, d)
    ensures var t := Step(After(START, before).value, l); w < |t.waiters| && t.waiters[w].phase == Reporting(d)
  {
    var s := After(START, before).value;
    RunsAreSound(before);
    assert WaiterSound(s, w, s.waiters[w]);
    match s.waiters[w].phase
    case Prompting(e) => EntryBearsFate(before, e);
    case Waiting(e) => EntryBearsFate(before, e);
    case Following(leader) => EntryBearsFate(before, leader);
    case _ =>
  }

  /** What becomes of a waiter at a step that is its own, sees no interrupt and no deadline, and settles nothing. */
  predicate WaitsOn(before: seq<Label>, l: Label, was: Phase, next: Phase)
    requires After(START, before).Some?
  {
    match was
    case Announcing(leader) => l.Announced? ==> next == Following(leader)
    case Following(leader) =>
      l.Woken? ==> (if l.settled then AnswerSoFar(before, leader) == Some(Once) ==> next == Reprompting
                    else next == Following(leader))
    case Prompting(e) => l.Prompted? && l.delivered ==> next == Waiting(e)
    case Waiting(e) => l.Woken? && !l.settled ==> next == Waiting(e)
    case _ => true
  }

  predicate OwnStep(l: Label, w: nat) {
    (l.Prompted? || l.Woken? || l.Announced?) && l.w == w
  }

  /** A waiter that does not leave waits on; a follower whose leader was answered once asks for itself. */
  lemma WaitersGoOn(before: seq<Label>, l: Label, w: nat)
    requires After(START, before).Some? && Enabled(After(START, before).value, l)
    requires w < |After(START, before).value.waiters|
    ensures w < |Step(After(START, before).value, l).waiters|
    ensures var was, next := After(START, before).value.waiters[w], Step(After(START, before).value, l).waiters[w];
            && next.command == was.command && next.patternKeys == was.patternKeys
            && (OwnStep(l, w) && !l.poll.interrupted && !l.poll.expired ==> WaitsOn(before, l, was.phase, next.phase))
            && (l.Reprompt? && l.w == w ==> next.phase == Prompting(|After(START, before).value.entries|))
            && (l.Reported? && l.w == w ==> was.phase.Reporting? && next.phase == Returned(was.phase.decision))
            && (!OwnStep(l, w) && !(l.Reprompt? && l.w == w) && !(l.Reported? && l.w == w) ==> next == was)
  {
    var s := After(START, before).value;
    RunsAreSound(before);
    assert WaiterSound(s, w, s.waiters[w]);
    if s.waiters[w].phase.Following? { EntryBearsFate(before, s.waiters[w].phase.leader); }
  }

  /** A fresh prompt of a follower queues an entry of its own. */
  lemma RepromptMeans(s: State, w: nat, requestId: string)
    requires Enabled(s, Reprompt(w, requestId))
    ensures var t := Step(s, Reprompt(w, requestId));
            && t.queue == s.queue + [|s.entries|]
            && t.entries == s.entries + [Entry(Request(s.waiters[w].command, s.waiters[w].patternKeys, requestId), w, None, false)]
  {
  }

  /**
   The calls of the user are always possible. One that names a request settles exactly the pending
   entries with its id, with its choice; the others all, or the oldest; clearing and releasing all.
  */
  lemma CallsMean(run: seq<Label>, s: State, choice: Choice, options: ResolveOptions, e: nat)
    requires After(START, run) == Some(s) && e < |s.entries|
    ensures Enabled(s, Resolve(choice, options)) && Enabled(s, ClearSession) && Enabled(s, UnregisterNotify)
    ensures Given(options.requestId) <==> options.requestId.Some? && options.requestId.value != ""
    ensures var targeted := e in s.queue && (if Given(options.requestId) then s.entries[e].data.requestId == options.requestId.value
                                             else options.resolveAll || s.queue[0] == e);
            && (e in ResolveTargets(s, options) <==> targeted)
            && (targeted ==> Step(s, Resolve(choice, options)).entries[e] == s.entries[e].(done := true, result := Some(choice))
                             && e !in Step(s, Resolve(choice, options)).queue)
            && (!targeted ==> Step(s, Resolve(choice, options)).entries[e] == s.entries[e]
                              && (e in s.queue ==> e in Step(s, Resolve(choice, options)).queue))
    ensures Step(s, ClearSession).queue == [] && Step(s, UnregisterNotify).queue == []
    ensures e in s.queue ==> Step(s, ClearSession).entries[e] == s.entries[e].(done := true, result := Some(Deny))
                             && Step(s, UnregisterNotify).entries[e] == s.entries[e].(done := true)
  {
    RunsAreSound(run);
    ResolveSettles(s, choice, options);
    TargetsMean(s.queue, options, RequestIds(s.entries), e);
  }

  /** Every decision was made by such a step. */
  lemma {:induction false} DecisionsAreMade(run: seq<Label>, w: nat, d: Decision) returns (i: nat)
    requires After(START, run).Some?
    requires w < |After(START, run).value.waiters| && HasDecision(After(START, run).value.waiters[w], d)
    ensures i < |run| && After(START, run[..i]).Some? && LeavesBy(run[..i], run[i], w, d)
  {
    var before, l := run[..|run| - 1], run[|run| - 1];
    var s := After(START, before).value;
    if w < |s.waiters| && HasDecision(s.waiters[w], d) {
      i := DecisionsAreMade(before, w, d);
      assert before[..i] == run[..i];
    } else {
      i := |run| - 1;
      LeavingStep(before, l, w, d);
    }
  }

  // ----- the own answer -------------------------------------------------------------------------

  /** A decision on the waiter's own entry, whose prompt was delivered. */
  predicate Own(d: Decision) {
    !d.coalesced && !d.notifyFailed
  }

  /** Once a waiter has left, nothing happens to its entry any more. */
  lemma LeftAlone(s: State, l: Label, w: nat, d: Decision)
    requires Sound(s) && Enabled(s, l) && Own(d)
    requires w < |s.waiters| && HasDecision(s.waiters[w], d) && d.via !in s.queue
    ensures VerdictOf(s, l, d.via) == None
    ensures d.via !in Step(s, l).queue
  {
    assert WaiterSound(s, w, s.waiters[w]);
    if l.Prompted? || l.Woken? {
      assert WaiterSound(s, l.w, s.waiters[l.w]);
    }
  }

  lemma OwnEntryLeaves(s: State, l: Label, e: nat)
    requires Sound(s) && Enabled(s, l) && (l.Prompted? || l.Woken?)
    requires s.waiters[l.w].phase == Prompting(e) || s.waiters[l.w].phase == Waiting(e)
    requires (s.waiters[l.w].phase.Waiting? && l.Woken? && l.settled) || l.poll.interrupted || l.poll.expired
    requires l.Prompted? ==> l.delivered
    ensures e !in Step(s, l).queue
  {
    assert WaiterSound(s, l.w, s.waiters[l.w]);
    WithoutDistinct(s.queue, e);
  }

  lemma OwnVerdict(s: State, l: Label, e: nat)
    requires Enabled(s, l) && (l.Prompted? || l.Woken?)
    requires s.waiters[l.w].phase == Prompting(e) || s.waiters[l.w].phase == Waiting(e)
    ensures VerdictOf(s, l, e)
         == if l.poll.interrupted && (if l.Prompted? then l.delivered else !l.settled) then Some(Interrupted) else None
  {
  }

  lemma OwnLeaving(before: seq<Label>, l: Label, w: nat, d: Decision)
    requires After(START, before).Some? && Enabled(After(START, before).value, l)
    requires LeavesBy(before, l, w, d) && Own(d)
    ensures var s := After(START, before).value;
            && d.via !in Step(s, l).queue
            && d.choice == (if VerdictOf(s, l, d.via).Some? then ChoiceOf(VerdictOf(s, l, d.via).value)
                            else AnswerSoFar(before, d.via))
            && (d.resolved ==> VerdictOf(s, l, d.via).Some? || Fate(before, d.via).Some?)
  {
    var s := After(START, before).value;
    RunsAreSound(before);
    assert s.waiters[w].phase == Prompting(d.via) || s.waiters[w].phase == Waiting(d.via);
    OwnEntryLeaves(s, l, d.via);
    OwnVerdict(s, l, d.via);
  }

  /**
   A waiter that asked for itself returns the answer its entry was given: always when it returns
   resolved, and what there was by then when its deadline passed.
  */
  lemma {:induction false} AnswerIsReturned(run: seq<Label>, s: State, w: nat, d: Decision)
    requires After(START, run) == Some(s) && w < |s.waiters| && HasDecision(s.waiters[w], d) && Own(d)
    ensures d.choice == AnswerSoFar(run, d.via) && (d.resolved ==> Fate(run, d.via).Some?)
    ensures d.via !in s.queue
  {
    var before, l := run[..|run| - 1], run[|run| - 1];
    var r := After(START, before).value;
    RunsAreSound(before);
    if w < |r.waiters| && HasDecision(r.waiters[w], d) {
      AnswerIsReturned(before, r, w, d);
      LeftAlone(r, l, w, d);
    } else {
      LeavingStep(before, l, w, d);
      OwnLeaving(before, l, w, d);
    }
  }

  // ----- and what the calls were -----------------------------------------------------------------

  lemma AnsweredLater(run: seq<Label>, s: State, e: nat, choice: Choice) returns (i: nat)
    requires run != [] && After(START, run[..|run| - 1]) == Some(s) && Answered(run, e, choice)
    ensures i < |run| && AnsweredAt(run, i, e, choice)
    ensures i == |run| - 1 ==> VerdictOf(s, run[i], e) == Some(Answer(choice))
  {
    i :| 0 <= i < |run| && AnsweredAt(run, i, e, choice);
    if i == |run| - 1 {
      AnsweredNow(run, s, e, choice);
    }
  }

  lemma AnsweredNow(run: seq<Label>, s: State, e: nat, choice: Choice)
    requires run != [] && After(START, run[..|run| - 1]) == Some(s) && AnsweredAt(run, |run| - 1, e, choice)
    ensures VerdictOf(s, run[|run| - 1], e) == Some(Answer(choice))
  {
  }

  lemma AnsweredEarlier(run: seq<Label>, i: nat, e: nat, choice: Choice)
    requires i < |run| - 1 && AnsweredAt(run, i, e, choice)
    ensures Answered(run[..|run| - 1], e, choice)
  {
    assert run[..|run| - 1][..i] == run[..i];
    assert AnsweredAt(run[..|run| - 1], i, e, choice);
  }

  /** An entry that a resolve call targeted bears that answer, unless its own waiter was interrupted after. */
  lemma {:induction false} AnsweredBears(run: seq<Label>, e: nat, choice: Choice)
    requires After(START, run).Some? && Answered(run, e, choice)
    ensures Fate(run, e) == Some(Answer(choice)) || Fate(run, e) == Some(Interrupted)
  {
    var before, l := run[..|run| - 1], run[|run| - 1];
    var s := After(START, before).value;
    RunsAreSound(before);
    var i := AnsweredLater(run, s, e, choice);
    if VerdictOf(s, l, e) != Some(Answer(choice)) {
      AnsweredEarlier(run, i, e, choice);
      AnsweredBears(before, e, choice);
      EntryBearsFate(before, e);
      SettledIsGone(s, l, e);
    }
  }

  lemma SettledIsGone(s: State, l: Label, e: nat)
    requires Sound(s) && Enabled(s, l) && e < |s.entries| && s.entries[e].done
    ensures VerdictOf(s, l, e).None? || VerdictOf(s, l, e) == Some(Interrupted)
  {
    assert e !in s.queue;
  }

  /**
   The converse of consent. A waiter that returns resolved on its own entry returns the choice of
   any resolve call that targeted the entry, and no choice exactly when the entry was only
   released, unless its own interrupt ended the wait: then it returns a denial.
  */
  lemma ApprovalIsReturned(run: seq<Label>, s: State, w: nat, d: Decision)
    requires After(START, run) == Some(s) && w < |s.waiters| && s.waiters[w].phase == Returned(d)
    requires Own(d) && d.resolved
    ensures Fate(run, d.via).Some?
    ensures Fate(run, d.via) == Some(Interrupted) || Fate(run, d.via) == Some(Cleared) ==> d.choice == Some(Deny)
    ensures Fate(run, d.via) != Some(Interrupted) ==> forall c | Answered(run, d.via, c) :: d.choice == Some(c)
    ensures d.choice.None? <==> Fate(run, d.via) == Some(Released)
  {
    AnswerIsReturned(run, s, w, d);
    forall c | Answered(run, d.via, c) && Fate(run, d.via) != Some(Interrupted) ensures d.choice == Some(c) {
      AnsweredBears(run, d.via, c);
    }
  }

  /** A follower that returns resolved was interrupted, or returns what its leader's entry was given by then. */
  lemma FollowerReturnsAnswer(run: seq<Label>, s: State, w: nat, d: Decision) returns (i: nat)
    requires After(START, run) == Some(s) && w < |s.waiters| && s.waiters[w].phase == Returned(d)
    requires d.coalesced && d.resolved
    ensures i < |run| && After(START, run[..i]).Some?
    ensures if (run[i].Announced? || (run[i].Woken? && !run[i].settled)) && run[i].poll.interrupted
            then d.choice == Some(Deny)
            else run[i].Woken? && run[i].w == w && run[i].settled && d.choice.Some? && d.choice == AnswerSoFar(run[..i], d.via)
  {
    i := DecisionsAreMade(run, w, d);
  }

  /** The user approves once and the waiter returns that: a run from the question to the answer. */
  const ONCE := Resolve(Once, ResolveOptions(false, None, None))
  const APPROVED := [] + [FIRST_ASK] + [Prompted(0, true, IDLE)] + [ONCE] + [Woken(0, true, IDLE)] + [Reported(0)]

  lemma OnceIsReturned()
    ensures After(START, APPROVED).Some?
    ensures var s := After(START, APPROVED).value;
            |s.waiters| == 1 && s.waiters[0].phase == Returned(Decision(true, Some(Once), false, false, 0))
  {
    FirstSteps();
    var r1 := [] + [FIRST_ASK];
    var r2 := r1 + [Prompted(0, true, IDLE)];
    var r3 := r2 + [ONCE];
    var r4 := r3 + [Woken(0, true, IDLE)];
    RunAppend(START, [], FIRST_ASK);
    RunAppend(START, r1, Prompted(0, true, IDLE));
    RunAppend(START, r2, ONCE);
    assert ResolveTargets(After(START, r2).value, ONCE.options) == [0];
    RunAppend(START, r3, Woken(0, true, IDLE));
    RunAppend(START, r4, Reported(0));
  }
}
