/**
 Cross-process turn leases (src/pi_state/leases.ts): a compare-and-set lease keyed by the
 compression-lineage root of a session, and transcript writes fenced by it.
*/
module TurnLeases {
  import opened Text

  // ----- the lineage walk ---------------------------------------------------------------

  /** A fork marker in the decoded model config; null counts as absent. */
  datatype Marker = Absent | Id(id: string) | NotText

  datatype SessionRow = SessionRow(
    parent: Option<string>, fromTool: bool, branchedFrom: Marker, delegateFrom: Marker, endReason: Option<string>)

  type Sessions = map<string, SessionRow>

  predicate HasParent(row: SessionRow) {
    row.parent.Some? && row.parent.value != ""
  }

  /** Branches, delegates and tool children: a marker counts only when it names the parent. */
  predicate IsExplicitForkChild(row: SessionRow) {
    || row.fromTool
    || (if HasParent(row)
        then row.branchedFrom == Id(row.parent.value) || row.delegateFrom == Id(row.parent.value)
        else !row.branchedFrom.Absent? || !row.delegateFrom.Absent?)
  }

  /** The parent a session continues: it must exist, have ended by compression, and not be forked from. */
  function Up(sessions: Sessions, id: string): (parent: Option<string>)
    ensures parent.Some? ==> id in sessions && parent.value in sessions
  {
    if id in sessions && HasParent(sessions[id]) && !IsExplicitForkChild(sessions[id])
       && sessions[id].parent.value in sessions
       && sessions[sessions[id].parent.value].endReason == Some("compression")
    then sessions[id].parent
    else None
  }

  /** Climb until there is no parent to continue or it was already seen. */
  function Climb(sessions: Sessions, current: string, seen: set<string>): string
    decreases sessions.Keys - seen
  {
    var parent := Up(sessions, current);
    if parent.Some? && parent.value !in seen then Climb(sessions, parent.value, seen + {parent.value}) else current
  }

  /** The key a session's lease is stored under. */
  function LineageRoot(sessions: Sessions, id: string): string {
    if id == "" then id else Climb(sessions, id, {id})
  }

  method LineageRootOnDb(sessions: Sessions, sessionId: string) returns (root: string)
    ensures root == LineageRoot(sessions, sessionId)
  {
    if sessionId == "" || sessionId !in sessions {
      return sessionId;
    }
    var current, seen := sessionId, {sessionId};
    while true
      invariant current in sessions
      invariant Climb(sessions, current, seen) == LineageRoot(sessions, sessionId)
      decreases sessions.Keys - seen
    {
      var row := sessions[current];
      if !HasParent(row) || row.parent.value in seen || IsExplicitForkChild(row) {
        break;
      }
      var parentId := row.parent.value;
      if parentId !in sessions || sessions[parentId].endReason != Some("compression") {
        break;
      }
      seen := seen + {parentId};
      current := parentId;
    }
    return current;
  }

  /** The `n`-th session continued from `id`. */
  function Ancestor(sessions: Sessions, id: string, n: nat): Option<string>
    decreases n
  {
    if n == 0 then Some(id) else
    var parent := Up(sessions, id);
    if parent.Some? then Ancestor(sessions, parent.value, n - 1) else None
  }

  ghost predicate Reaches(sessions: Sessions, from: string, to: string) {
    exists n: nat :: Ancestor(sessions, from, n) == Some(to)
  }

  /** A walk that never meets `c` does not care whether `c` was seen. */
  lemma {:induction false} ClimbIgnores(sessions: Sessions, x: string, seen: set<string>, c: string)
    requires !Reaches(sessions, x, c)
    ensures Climb(sessions, x, seen + {c}) == Climb(sessions, x, seen)
    decreases sessions.Keys - seen
  {
    var parent := Up(sessions, x);
    if parent.Some? {
      var y := parent.value;
      assert y != c by { assert Ancestor(sessions, y, 0) == Some(y) && Ancestor(sessions, x, 1) == Some(y); }
      if y !in seen {
        ReachesUp(sessions, x, c);
        ClimbIgnores(sessions, y, seen + {y}, c);
        assert seen + {c} + {y} == seen + {y} + {c};
      }
    }
  }

  lemma ReachesUp(sessions: Sessions, x: string, c: string)
    requires Up(sessions, x).Some?
    ensures Reaches(sessions, Up(sessions, x).value, c) ==> Reaches(sessions, x, c)
  {
    if n: nat :| Ancestor(sessions, Up(sessions, x).value, n) == Some(c) {
      assert Ancestor(sessions, x, n + 1) == Some(c);
    }
  }

  /** A walk ends where it is or somewhere new. */
  lemma {:induction false} ClimbIsNew(sessions: Sessions, x: string, seen: set<string>)
    ensures Climb(sessions, x, seen) == x || Climb(sessions, x, seen) !in seen
    decreases sessions.Keys - seen
  {
    var parent := Up(sessions, x);
    if parent.Some? && parent.value !in seen {
      ClimbIsNew(sessions, parent.value, seen + {parent.value});
    }
  }

  /** A walk whose way to `c` is unseen gets there, and stops if the next step was seen. */
  lemma {:induction false} ClimbArrives(sessions: Sessions, x: string, seen: set<string>, c: string, n: nat)
    requires Ancestor(sessions, x, n) == Some(c)
    requires forall k: nat | 0 < k <= n :: Ancestor(sessions, x, k).Some? && Ancestor(sessions, x, k).value !in seen
    requires forall j: nat, k: nat | j < k <= n :: Ancestor(sessions, x, j) != Ancestor(sessions, x, k)
    requires Up(sessions, c).Some? && Up(sessions, c).value in seen
    ensures Climb(sessions, x, seen) == c
    decreases n
  {
    if n == 0 {
    } else {
      assert Ancestor(sessions, x, 1).Some?;
      var y := Up(sessions, x).value;
      assert Ancestor(sessions, x, 1) == Some(y) by { assert Ancestor(sessions, y, 0) == Some(y); }
      forall k: nat | 0 < k <= n - 1
        ensures Ancestor(sessions, y, k).Some? && Ancestor(sessions, y, k).value !in seen + {y}
      {
        assert Ancestor(sessions, y, k) == Ancestor(sessions, x, k + 1);
        assert Ancestor(sessions, x, 1) != Ancestor(sessions, x, k + 1);
      }
      forall j: nat, k: nat | j < k <= n - 1 ensures Ancestor(sessions, y, j) != Ancestor(sessions, y, k) {
        assert Ancestor(sessions, y, j) == Ancestor(sessions, x, j + 1);
        assert Ancestor(sessions, y, k) == Ancestor(sessions, x, k + 1);
      }
      ClimbArrives(sessions, y, seen + {y}, c, n - 1);
    }
  }

  lemma {:induction false} AncestorAdd(sessions: Sessions, x: string, j: nat, m: nat)
    requires Ancestor(sessions, x, j).Some?
    ensures Ancestor(sessions, x, j + m) == Ancestor(sessions, Ancestor(sessions, x, j).value, m)
    decreases j
  {
    if j == 0 {
    } else {
      AncestorAdd(sessions, Up(sessions, x).value, j - 1, m);
    }
  }

  lemma {:induction false} AncestorsBetween(sessions: Sessions, x: string, k: nat, n: nat)
    requires Ancestor(sessions, x, n).Some? && k <= n
    ensures Ancestor(sessions, x, k).Some?
    decreases k
  {
    if k == 0 {
    } else {
      AncestorsBetween(sessions, Up(sessions, x).value, k - 1, n - 1);
    }
  }

  /** The first time a walk meets `c`. */
  lemma {:induction false} FirstMeeting(sessions: Sessions, x: string, c: string, n: nat) returns (m: nat)
    requires Ancestor(sessions, x, n) == Some(c)
    ensures m <= n && Ancestor(sessions, x, m) == Some(c)
    ensures forall k: nat | k < m :: Ancestor(sessions, x, k) != Some(c)
  {
    if k: nat :| k < n && Ancestor(sessions, x, k) == Some(c) {
      m := FirstMeeting(sessions, x, c, k);
    } else {
      m := n;
    }
  }

  /** Up to its first meeting with `c` a walk never repeats itself. */
  lemma NoRepeatBefore(sessions: Sessions, x: string, c: string, m: nat, j: nat, k: nat)
    requires Ancestor(sessions, x, m) == Some(c) && j < k <= m
    requires forall i: nat | i < m :: Ancestor(sessions, x, i) != Some(c)
    ensures Ancestor(sessions, x, j) != Ancestor(sessions, x, k)
  {
    AncestorsBetween(sessions, x, j, m);
    AncestorsBetween(sessions, x, k, m);
    AncestorAdd(sessions, x, j, m - k);
    AncestorAdd(sessions, x, k, m - k);
    assert j + (m - k) < m;
  }

  /**
   A continued session has its parent's root exactly when the chain above the parent does not
   lead back to it; on a cycle of two or more the two roots differ.
  */
  lemma ContinuationSharesRoot(sessions: Sessions, child: string)
    requires child != "" && Up(sessions, child).Some?
    ensures LineageRoot(sessions, child) == LineageRoot(sessions, Up(sessions, child).value)
       <==> child == Up(sessions, child).value || !Reaches(sessions, Up(sessions, child).value, child)
  {
    var parent := Up(sessions, child).value;
    if child != parent {
      assert LineageRoot(sessions, child) == Climb(sessions, parent, {child} + {parent});
      assert {child} + {parent} == {parent} + {child};
      if Reaches(sessions, parent, child) {
        var n: nat :| Ancestor(sessions, parent, n) == Some(child);
        CycleRoots(sessions, child, parent, n);
      } else {
        ClimbIgnores(sessions, parent, {parent}, child);
      }
    }
  }

  lemma CycleRoots(sessions: Sessions, child: string, parent: string, n: nat)
    requires Up(sessions, child) == Some(parent) && child != parent && Ancestor(sessions, parent, n) == Some(child)
    ensures Climb(sessions, parent, {parent}) == child
    ensures Climb(sessions, parent, {parent} + {child}) != child
  {
    var m := FirstMeeting(sessions, parent, child, n);
    forall j: nat, k: nat | j < k <= m ensures Ancestor(sessions, parent, j) != Ancestor(sessions, parent, k) {
      NoRepeatBefore(sessions, parent, child, m, j, k);
    }
    forall k: nat | 0 < k <= m
      ensures Ancestor(sessions, parent, k).Some? && Ancestor(sessions, parent, k).value !in {parent}
    {
      AncestorsBetween(sessions, parent, k, m);
      assert Ancestor(sessions, parent, 0) != Ancestor(sessions, parent, k);
    }
    ClimbArrives(sessions, parent, {parent}, child, m);
    ClimbIsNew(sessions, parent, {parent} + {child});
  }

  lemma {:induction false} ClimbSame(a: Sessions, b: Sessions, x: string, seen: set<string>)
    requires forall y :: y in a ==> Up(a, y) == Up(b, y)
    requires x in a
    ensures Climb(a, x, seen) == Climb(b, x, seen)
    decreases a.Keys - seen
  {
    if Up(a, x).None? || Up(a, x).value in seen {
    } else {
      ClimbSame(a, b, Up(a, x).value, seen + {Up(a, x).value});
    }
  }

  /**
   A new session that has not ended by compression changes no other root; a continuation takes
   its parent's root, whatever the graph looks like above it.
  */
  lemma NewSessionKeepsRoots(sessions: Sessions, id: string, row: SessionRow, other: string)
    requires id != "" && id !in sessions && row.endReason != Some("compression")
    ensures other != id ==> LineageRoot(sessions[id := row], other) == LineageRoot(sessions, other)
    ensures Up(sessions[id := row], id).Some? ==>
              LineageRoot(sessions[id := row], id) == LineageRoot(sessions, Up(sessions[id := row], id).value)
  {
    var after := sessions[id := row];
    assert forall y | y in sessions :: Up(sessions, y) == Up(after, y);
    if other in sessions {
      ClimbSame(sessions, after, other, {other});
    }
    if Up(after, id).Some? {
      var parent := Up(after, id).value;
      if Reaches(after, parent, id) {
        var n: nat :| Ancestor(after, parent, n) == Some(id);
        NeverClimbedTo(after, parent, id, n);
      }
      ContinuationSharesRoot(after, id);
      ClimbSame(sessions, after, parent, {parent});
    }
  }

  /** A session that has not ended by compression is nobody's continued parent. */
  lemma {:induction false} NeverClimbedTo(sessions: Sessions, x: string, id: string, n: nat)
    requires x != id && id in sessions && sessions[id].endReason != Some("compression")
    ensures Ancestor(sessions, x, n) != Some(id)
    decreases n
  {
    if n == 0 || Up(sessions, x).None? {
    } else {
      NeverClimbedTo(sessions, Up(sessions, x).value, id, n - 1);
    }
  }

  const LEFT := SessionRow(Some("b"), false, Absent, Absent, Some("compression"))
  const RIGHT := SessionRow(Some("a"), false, Absent, Absent, Some("compression"))

  /** Two sessions that continue each other have different roots. */
  lemma CycleSplitsRoots()
    ensures var cyclic: Sessions := map["a" := LEFT, "b" := RIGHT];
            Up(cyclic, "a") == Some("b") && LineageRoot(cyclic, "a") == "b" && LineageRoot(cyclic, "b") == "a"
  {
    var cyclic: Sessions := map["a" := LEFT, "b" := RIGHT];
    assert Up(cyclic, "a") == Some("b") && Up(cyclic, "b") == Some("a");
    assert LineageRoot(cyclic, "a") == Climb(cyclic, "b", {"a"} + {"b"});
    assert LineageRoot(cyclic, "b") == Climb(cyclic, "a", {"b"} + {"a"});
  }

  // ----- leases ---------------------------------------------------------------------------

  datatype Lease = Lease(holder: string, acquiredAt: real, expiresAt: real)

  datatype Db = Db(sessions: Sessions, leases: map<string, Lease>)

  /** What is known of the process behind a holder; a holder without a process id is never proven dead. */
  datatype Probe = Probe(pid: Option<int>, selfPid: int, alive: bool)

  predicate ProvenDead(probe: Probe) {
    probe.pid.Some? && probe.pid.value > 0 && probe.pid.value != probe.selfPid && !probe.alive
  }

  function Ttl(seconds: real): real {
    if seconds > 0.1 then seconds else 0.1
  }

  predicate Holds(leases: map<string, Lease>, key: string, holder: string) {
    key in leases && leases[key].holder == holder
  }

  /** The transactions on the lease table, and any change of the session table between them. */
  datatype Label =
    | Acquire(session: string, holder: string, ttl: real, now: real, probe: string -> Probe)
    | Refresh(session: string, holder: string, ttl: real, now: real)
    | Release(session: string, holder: string)
    | Write(session: string, holder: string, ttl: real, now: real)
    | Rewire(sessions: Sessions)

  /** Expired, or its holder proven dead. */
  predicate Reclaimable(lease: Lease, now: real, probe: string -> Probe) {
    lease.expiresAt <= now || ProvenDead(probe(lease.holder))
  }

  /** Reclaim if allowed, insert if free. */
  function Acquired(leases: map<string, Lease>, key: string, holder: string, ttl: real, now: real,
                    probe: string -> Probe)
    : map<string, Lease>
  {
    if key !in leases || Reclaimable(leases[key], now, probe)
    then leases[key := Lease(holder, now, now + Ttl(ttl))]
    else leases
  }

  /** Extend only while still the holder. */
  function Extended(leases: map<string, Lease>, key: string, holder: string, expiresAt: real): map<string, Lease> {
    if Holds(leases, key, holder) then leases[key := leases[key].(expiresAt := expiresAt)] else leases
  }

  function Released(leases: map<string, Lease>, key: string, holder: string): map<string, Lease> {
    if Holds(leases, key, holder) then leases - {key} else leases
  }

  predicate Admitted(db: Db, session: string, holder: string) {
    holder == "" || Holds(db.leases, LineageRoot(db.sessions, session), holder)
  }

  /** A guarded write renews an expired lease that still matches. */
  function Guarded(leases: map<string, Lease>, key: string, holder: string, ttl: real, now: real): map<string, Lease> {
    if Holds(leases, key, holder) && leases[key].expiresAt <= now
    then Extended(leases, key, holder, now + Ttl(ttl))
    else leases
  }

  function Step(db: Db, l: Label): Db {
    match l
    case Acquire(session, holder, ttl, now, probe) =>
      if session == "" || holder == "" then db
      else db.(leases := Acquired(db.leases, LineageRoot(db.sessions, session), holder, ttl, now, probe))
    case Refresh(session, holder, ttl, now) =>
      if session == "" || holder == "" then db
      else db.(leases := Extended(db.leases, LineageRoot(db.sessions, session), holder, now + Ttl(ttl)))
    case Release(session, holder) =>
      if session == "" || holder == "" then db
      else db.(leases := Released(db.leases, LineageRoot(db.sessions, session), holder))
    case Write(session, holder, ttl, now) =>
      if holder == "" then db
      else db.(leases := Guarded(db.leases, LineageRoot(db.sessions, session), holder, ttl, now))
    case Rewire(sessions) => db.(sessions := sessions)
  }

  function After(db: Db, run: seq<Label>): Db {
    if run == [] then db else Step(After(db, run[..|run| - 1]), run[|run| - 1])
  }

  function Before(db: Db, run: seq<Label>, i: nat): Db
    requires i < |run|
  {
    After(db, run[..i])
  }

  // ----- fencing over whole runs --------------------------------------------------------------

  /** Step `l` ends a tenure: the holder releases the lease, or another takes it over once reclaimable. */
  predicate EndsTenure(db: Db, l: Label, key: string) {
    key in db.leases &&
    match l
    case Release(session, holder) =>
      session != "" && holder != "" && LineageRoot(db.sessions, session) == key && holder == db.leases[key].holder
    case Acquire(session, holder, _, now, probe) =>
      session != "" && holder != "" && LineageRoot(db.sessions, session) == key
      && holder != db.leases[key].holder && Reclaimable(db.leases[key], now, probe)
    case _ => false
  }

  /** The holder of a lease keeps it through every step but those. */
  lemma TenureHolds(db: Db, l: Label, key: string, holder: string)
    requires Holds(db.leases, key, holder)
    ensures Holds(Step(db, l).leases, key, holder) <==> !EndsTenure(db, l, key)
  {
  }

  /** Write `i` of a run was a guarded write of the conversation and was admitted. */
  predicate AdmittedWrite(db: Db, run: seq<Label>, i: nat, key: string, holder: string)
    requires i < |run|
  {
    && run[i].Write? && run[i].holder == holder != ""
    && LineageRoot(Before(db, run, i).sessions, run[i].session) == key
    && Admitted(Before(db, run, i), run[i].session, holder)
  }

  ghost predicate TenureEnded(db: Db, run: seq<Label>, i: nat, j: nat, key: string, holder: string)
    requires i <= j <= |run|
  {
    exists k | i <= k < j :: Holds(Before(db, run, k).leases, key, holder) && EndsTenure(Before(db, run, k), run[k], key)
  }

  lemma {:induction false} HolderStays(db: Db, run: seq<Label>, i: nat, j: nat, key: string, holder: string)
    requires i <= j <= |run| && Holds(After(db, run[..i]).leases, key, holder)
    requires !TenureEnded(db, run, i, j, key, holder)
    ensures Holds(After(db, run[..j]).leases, key, holder)
    decreases j - i
  {
    if i == j {
    } else {
      assert !TenureEnded(db, run, i, j - 1, key, holder);
      HolderStays(db, run, i, j - 1, key, holder);
      assert run[..j][..j - 1] == run[..j - 1];
      assert Holds(Before(db, run, j - 1).leases, key, holder);
      TenureHolds(After(db, run[..j - 1]), run[j - 1], key, holder);
    }
  }

  /**
   Fencing: between two admitted writes of one conversation by different holders, the first
   holder released the lease, or it was taken over once expired or once its holder was proven dead.
  */
  lemma WritesFallIntoTenures(db: Db, run: seq<Label>, i: nat, j: nat, key: string, first: string, second: string)
    requires i < j < |run| && first != second
    requires AdmittedWrite(db, run, i, key, first) && AdmittedWrite(db, run, j, key, second)
    ensures TenureEnded(db, run, i, j, key, first)
  {
    if !TenureEnded(db, run, i, j, key, first) {
      HolderStays(db, run, i, j, key, first);
    }
  }

  /** Hence while a tenure lasts nobody else's guarded write of the conversation is admitted. */
  lemma OneWriterPerTenure(db: Db, run: seq<Label>, i: nat, j: nat, key: string, holder: string, other: string)
    requires i < j < |run| && Holds(After(db, run[..i]).leases, key, holder)
    requires !TenureEnded(db, run, i, j, key, holder)
    ensures AdmittedWrite(db, run, j, key, other) ==> other == holder
  {
    HolderStays(db, run, i, j, key, holder);
  }

  // ----- what each transaction does ------------------------------------------------------------

  lemma AfterAppend(db: Db, run: seq<Label>, l: Label)
    ensures After(db, run + [l]) == Step(After(db, run), l)
  {
    assert (run + [l])[..|run|] == run;
  }

  /**
   The parent a session continues: it is named, exists, has ended by compression, and the session
   is no child of a tool and names it neither as the session it branched from nor was delegated by.
  */
  lemma ContinuesMeans(sessions: Sessions, id: string, parent: string)
    ensures Up(sessions, id) == Some(parent)
       <==> && id in sessions && sessions[id].parent == Some(parent) && parent != "" && parent in sessions
            && sessions[parent].endReason == Some("compression")
            && !sessions[id].fromTool
            && sessions[id].branchedFrom != Id(parent) && sessions[id].delegateFrom != Id(parent)
    ensures LineageRoot(sessions, "") == ""
    ensures Up(sessions, id).None? ==> LineageRoot(sessions, id) == id
  {
  }

  /** While a lease runs another holder can take it over exactly from a process that is known, foreign and dead. */
  lemma TakenOver(db: Db, session: string, caller: string, ttl: real, now: real, probe: string -> Probe)
    requires session != "" && caller != "" && LineageRoot(db.sessions, session) in db.leases
    requires var lease := db.leases[LineageRoot(db.sessions, session)]; lease.holder != caller && lease.expiresAt > now
    ensures var key := LineageRoot(db.sessions, session);
            var p := probe(db.leases[key].holder);
            Holds(Step(db, Acquire(session, caller, ttl, now, probe)).leases, key, caller)
            == (p.pid.Some? && p.pid.value > 0 && p.pid.value != p.selfPid && !p.alive)
  {
  }

  /** A refresh by the holder moves the expiry, a release by the holder frees the key, and neither does else. */
  lemma HolderScoped(db: Db, session: string, caller: string, ttl: real, now: real)
    requires session != "" && caller != ""
    ensures var key := LineageRoot(db.sessions, session);
            && Step(db, Refresh(session, caller, ttl, now))
               == db.(leases := if key in db.leases && db.leases[key].holder == caller
                                then db.leases[key := db.leases[key].(expiresAt := now + if ttl > 0.1 then ttl else 0.1)]
                                else db.leases)
            && Step(db, Release(session, caller))
               == db.(leases := if key in db.leases && db.leases[key].holder == caller then db.leases - {key} else db.leases)
  {
  }

  /** A write is admitted without a holder or by the holder; the holder's renews the lease exactly when it has expired. */
  lemma WriteMeans(db: Db, session: string, caller: string, ttl: real, now: real)
    ensures var key := LineageRoot(db.sessions, session);
            var holds := key in db.leases && db.leases[key].holder == caller;
            && (Admitted(db, session, caller) <==> caller == "" || holds)
            && Step(db, Write(session, caller, ttl, now))
               == db.(leases := if caller != "" && holds && db.leases[key].expiresAt <= now
                                then db.leases[key := db.leases[key].(expiresAt := now + if ttl > 0.1 then ttl else 0.1)]
                                else db.leases)
  {
  }

  // ----- how long a lease lasts -----------------------------------------------------------------

  /** Step `l` could cost the holder a lease that is to last until a given instant. */
  predicate Threatens(db: Db, l: Label, key: string, holder: string, until: real) {
    match l
    case Release(session, caller) => session != "" && caller == holder && LineageRoot(db.sessions, session) == key
    case Acquire(session, caller, _, now, probe) =>
      session != "" && caller != "" && LineageRoot(db.sessions, session) == key
      && (ProvenDead(probe(holder)) || (caller != holder && now >= until))
    case Refresh(session, caller, ttl, now) =>
      session != "" && caller == holder && LineageRoot(db.sessions, session) == key
      && now + ttl < until && now + 0.1 < until
    case _ => false
  }

  predicate HeldUntil(db: Db, key: string, holder: string, until: real) {
    Holds(db.leases, key, holder) && db.leases[key].expiresAt >= until
  }

  lemma LastsStep(db: Db, l: Label, key: string, holder: string, until: real)
    requires HeldUntil(db, key, holder, until) && !Threatens(db, l, key, holder, until)
    ensures HeldUntil(Step(db, l), key, holder, until)
  {
  }

  /**
   A lease is kept until its time, whoever else asks for it before, unless its holder releases it,
   shortens it by a refresh, or is proven dead.
  */
  lemma {:induction false} LeaseLasts(db: Db, run: seq<Label>, key: string, holder: string, until: real)
    requires HeldUntil(db, key, holder, until)
    requires forall i | 0 <= i < |run| :: !Threatens(Before(db, run, i), run[i], key, holder, until)
    ensures HeldUntil(After(db, run), key, holder, until)
  {
    if run == [] {
    } else {
      var n := |run| - 1;
      forall i | 0 <= i < n ensures !Threatens(Before(db, run[..n], i), run[..n][i], key, holder, until) {
        assert run[..n][..i] == run[..i];
        assert !Threatens(Before(db, run, i), run[i], key, holder, until);
      }
      LeaseLasts(db, run[..n], key, holder, until);
      assert !Threatens(Before(db, run, n), run[n], key, holder, until);
      LastsStep(After(db, run[..n]), run[n], key, holder, until);
    }
  }

  /**
   An acquire won on a free or reclaimable lease is good for its time to live, and for a tenth of
   a second at least; one won by the present holder leaves the lease as it was.
  */
  lemma AcquiredUntil(db: Db, session: string, holder: string, ttl: real, now: real, probe: string -> Probe)
    requires session != "" && holder != ""
    ensures var key := LineageRoot(db.sessions, session);
            var after := Step(db, Acquire(session, holder, ttl, now, probe));
            if key !in db.leases || db.leases[key].expiresAt <= now || ProvenDead(probe(db.leases[key].holder))
            then after.leases == db.leases[key := Lease(holder, now, now + if ttl > 0.1 then ttl else 0.1)]
                 && HeldUntil(after, key, holder, now + ttl)
            else after == db
  {
  }

  /** So a second acquire by the holder is won and extends nothing: the lease is lost at its old time. */
  lemma ReacquireDoesNotExtend(probe: string -> Probe)
    ensures var db := Db(map["s" := SessionRow(None, false, Absent, Absent, None)], map[]);
            var first := Step(db, Acquire("s", "h1", 10.0, 0.0, probe));
            var second := Step(first, Acquire("s", "h1", 300.0, 9.0, probe));
            && (!ProvenDead(probe("h1")) ==> second == first)
            && Holds(second.leases, "s", "h1")
            && Holds(Step(first, Acquire("s", "h2", 300.0, 10.0, probe)).leases, "s", "h2")
  {
    assert LineageRoot(map["s" := SessionRow(None, false, Absent, Absent, None)], "s") == "s";
  }

  /** A stale holder can neither extend nor free a lease it lost. */
  lemma StaleHolderIsPowerless(db: Db, l: Label, key: string, holder: string)
    requires (l.Refresh? || l.Release? || l.Write?) && l.holder != holder && Holds(db.leases, key, holder)
    ensures key in Step(db, l).leases && Step(db, l).leases[key] == db.leases[key]
  {
  }

  // ----- the store --------------------------------------------------------------------------------

  /** One database connection; every method is one write transaction on it. */
  class DbTurnLeaseStore {
    var sessions: Sessions
    var leases: map<string, Lease>

    constructor (sessions: Sessions)
      ensures this.sessions == sessions && leases == map[]
    {
      this.sessions, leases := sessions, map[];
    }

    function Contents(): Db
      reads this
    {
      Db(sessions, leases)
    }

    function Key(session: string): string
      reads this
    {
      LineageRoot(sessions, session)
    }

    method DeleteHeld(key: string, holder: string)
      modifies `leases
      ensures leases == Released(old(leases), key, holder)
    {
      if key in leases && leases[key].holder == holder {
        leases := leases - {key};
      }
    }

    method SetExpiry(key: string, holder: string, expiresAt: real) returns (changes: nat)
      modifies `leases
      ensures leases == Extended(old(leases), key, holder, expiresAt)
      ensures changes > 0 <==> Holds(old(leases), key, holder)
    {
      if key in leases && leases[key].holder == holder {
        leases := leases[key := leases[key].(expiresAt := expiresAt)];
        return 1;
      }
      return 0;
    }

    /** Compare and set; it succeeds exactly when the caller ends up the holder. */
    method TryAcquire(session: string, holder: string, ttl: real, now: real, probe: string -> Probe) returns (won: bool)
      modifies `leases
      ensures Contents() == Step(old(Contents()), Acquire(session, holder, ttl, now, probe))
      ensures won <==> session != "" && holder != "" && Holds(leases, Key(session), holder)
    {
      if session == "" || holder == "" { return false; }
      var expiresAt := now + Ttl(ttl);
      var conversationId := LineageRootOnDb(sessions, session);
      if conversationId in leases {
        var current := leases[conversationId];
        if current.expiresAt <= now || ProvenDead(probe(current.holder)) {
          DeleteHeld(conversationId, current.holder);
        }
      }
      if conversationId !in leases {
        leases := leases[conversationId := Lease(holder, now, expiresAt)];
      }
      won := leases[conversationId].holder == holder;
    }

    /** Extend while still the holder; false tells the caller the lease was lost. */
    method Refresh(session: string, holder: string, ttl: real, now: real) returns (kept: bool)
      modifies `leases
      ensures Contents() == Step(old(Contents()), Label.Refresh(session, holder, ttl, now))
      ensures kept <==> session != "" && holder != "" && Holds(old(leases), Key(session), holder)
    {
      if session == "" || holder == "" { return false; }
      var conversationId := LineageRootOnDb(sessions, session);
      var changes := SetExpiry(conversationId, holder, now + Ttl(ttl));
      kept := changes > 0;
    }

    method ReleaseHolder(session: string, holder: string)
      modifies `leases
      ensures Contents() == Step(old(Contents()), Release(session, holder))
      ensures session != "" && holder != "" ==> !Holds(leases, Key(session), holder)
    {
      if session == "" || holder == "" { return; }
      var conversationId := LineageRootOnDb(sessions, session);
      DeleteHeld(conversationId, holder);
    }

    /** Admission of a transcript write, inside its transaction; false is the lease-lost error. */
    method CheckWriteGuard(session: string, holder: string, ttl: real, now: real) returns (admitted: bool)
      modifies `leases
      ensures Contents() == Step(old(Contents()), Write(session, holder, ttl, now))
      ensures admitted <==> Admitted(old(Contents()), session, holder)
      ensures admitted && holder != "" ==> leases[Key(session)].expiresAt > now
    {
      if holder == "" { return true; }
      var conversationId := LineageRootOnDb(sessions, session);
      if conversationId !in leases || leases[conversationId].holder != holder {
        return false;
      }
      if leases[conversationId].expiresAt <= now {
        var _ := SetExpiry(conversationId, holder, now + Ttl(ttl));
      }
      return true;
    }
  }
}
