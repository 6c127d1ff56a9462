/**
 The journal-mode ladder answer by answer: what it asks and how it ends, by the numbers of the
 port's replies.
*/
module WalOutcomes {
  import opened Text
  import opened WalLadder

  // ----- words of the port ------------------------------------------------------------------

  predicate Occurs(part: string, s: string) {
    exists i | 0 <= i <= |s| :: part <= s[i..]
  }

  lemma {:induction false} ContainsMeans(s: string, part: string)
    ensures Contains(s, part) <==> Occurs(part, s)
    decreases |s|
  {
    assert s[0..] == s;
    if s == "" {
    } else {
      ContainsMeans(s[1..], part);
      if i :| 0 <= i <= |s| && part <= s[i..] {
        if i > 0 { assert s[1..][i - 1..] == s[i..]; }
      }
      if i :| 0 <= i <= |s| - 1 && part <= s[1..][i..] {
        assert s[i + 1..] == s[1..][i..];
      }
    }
  }

  lemma {:induction false} LowerMeans(s: string)
    ensures |Lower(s)| == |s|
    ensures forall i | 0 <= i < |s| ::
              Lower(s)[i] == if 65 <= s[i] as int <= 90 then (s[i] as int + 32) as char else s[i]
    decreases |s|
  {
    if s == "" {
    } else {
      LowerMeans(s[1..]);
    }
  }

  /** The number that decimal digits stand for. */
  function NumberIn(s: string): int {
    if s == "" then 0 else 10 * NumberIn(s[..|s| - 1]) + (s[|s| - 1] as int - 48)
  }

  /** A number is read in decimal digits, so never as a mode. */
  lemma {:induction false} DecimalMeans(n: nat)
    ensures Decimal(n) != "" && NumberIn(Decimal(n)) == n
    ensures forall c | c in Decimal(n) :: 48 <= c as int <= 57
  {
    var digit := (48 + n % 10) as char;
    if n < 10 {
      OneMoreDigit("", digit);
      assert Decimal(n) == "" + [digit];
    } else {
      DecimalMeans(n / 10);
      OneMoreDigit(Decimal(n / 10), digit);
      assert Decimal(n) == Decimal(n / 10) + [digit];
    }
  }

  lemma OneMoreDigit(s: string, c: char)
    ensures NumberIn(s + [c]) == 10 * NumberIn(s) + (c as int - 48)
  {
    assert (s + [c])[..|s|] == s;
  }

  /** The errors that a contended database reports, by code or wording. */
  lemma BusyMeans(e: PortError)
    ensures IsLockedOrBusy(e)
       <==> e.code in {"SQLITE_BUSY", "SQLITE_BUSY_SNAPSHOT", "SQLITE_LOCKED", "SQLITE_LOCKED_SHAREDCACHE"}
            || Occurs("locked", Lower(e.message)) || Occurs("busy", Lower(e.message))
  {
    ContainsMeans(Lower(e.message), "locked");
    ContainsMeans(Lower(e.message), "busy");
  }

  /** The errors after which WAL is retried, and those after which it is given up. */
  lemma ErrorsMean(e: PortError)
    ensures IsDiskIo(e) <==> Occurs("disk i/o error", Lower(e.message))
    ensures IsWalIncompatible(e)
       <==> e.code == "SQLITE_PROTOCOL"
            || Occurs("locking protocol", Lower(e.message)) || Occurs("not authorized", Lower(e.message))
            || Occurs("disk i/o error", Lower(e.message))
  {
    ContainsMeans(Lower(e.message), "disk i/o error");
    ContainsMeans(Lower(e.message), "locking protocol");
    ContainsMeans(Lower(e.message), "not authorized");
  }

  /** The operator asks for delete by that word, in any case and with any blanks around it. */
  lemma WantsDeleteMeans(opts: Options)
    ensures WantsDelete(opts) <==> opts.operatorMode.Some? && SpellsDelete(Trim(opts.operatorMode.value))
  {
    if opts.operatorMode.Some? {
      var t := Trim(opts.operatorMode.value);
      LowerMeans(t);
      if SpellsDelete(t) {
        assert forall i | 0 <= i < 6 :: Lower(t)[i] == "delete"[i];
        assert Lower(t) == "delete";
      }
      if Lower(t) == "delete" {
        assert forall i | 0 <= i < 6 :: Lower(t)[i] == "delete"[i];
      }
    }
  }

  predicate SpellsDelete(t: string) {
    |t| == 6 && forall i | 0 <= i < 6 :: t[i] == "delete"[i] || t[i] == "DELETE"[i]
  }

  /** What a reply reads as a mode: nothing when it fails or is empty. */
  function ModeRead(reply: Reply): Option<string> {
    if reply.Fail? || Normalized(reply) == "" then None else Some(Normalized(reply))
  }

  predicate DiskFails(reply: Reply) {
    reply.Fail? && Occurs("disk i/o error", Lower(reply.error.message))
  }

  // ----- the probe -------------------------------------------------------------------------

  /** The same question n times. */
  function Asked(replies: Replies, log: seq<Entry>, call: Call, n: nat): seq<Entry> {
    if n == 0 then log else Asked(replies, log, call, n - 1) + [Entry(call, replies(|log| + n - 1))]
  }

  lemma {:induction false} AskedLength(replies: Replies, log: seq<Entry>, call: Call, n: nat)
    ensures |Asked(replies, log, call, n)| == |log| + n
  {
    if n == 0 {
    } else {
      AskedLength(replies, log, call, n - 1);
    }
  }

  lemma {:induction false} AskedFirst(replies: Replies, log: seq<Entry>, call: Call, n: nat)
    requires n > 0
    ensures Asked(replies, log, call, n) == Asked(replies, Issue(replies, log, call), call, n - 1)
  {
    if n == 1 {
      assert Asked(replies, log, call, 0) == log;
    } else {
      AskedFirst(replies, log, call, n - 1);
    }
  }

  lemma {:induction false} ProbeMeans(replies: Replies, log: seq<Entry>, attempts: nat, k: nat)
    requires k < attempts && forall i | |log| <= i < |log| + k :: DiskFails(replies(i))
    requires k + 1 < attempts ==> !DiskFails(replies(|log| + k))
    ensures Probe(replies, log, attempts) == (Asked(replies, log, GetJournalMode, k + 1), ModeRead(replies(|log| + k)))
    decreases attempts
  {
    var next, reply := Issue(replies, log, GetJournalMode), replies(|log|);
    AskedFirst(replies, log, GetJournalMode, k + 1);
    assert |next| == |log| + 1;
    if reply.Fail? { ErrorsMean(reply.error); }
    if k == 0 {
      assert attempts == 1 ==> Probe(replies, next, 0) == (next, None);
    } else {
      assert DiskFails(replies(|log|));
      ProbeMeans(replies, next, attempts - 1, k - 1);
    }
  }

  /** The probe after a log answered with its k-th repetition: the first reply that is no disk i/o error, or the fourth. */
  predicate ProbedAt(replies: Replies, log: seq<Entry>, k: nat) {
    k < 4 && (forall i | |log| <= i < |log| + k :: DiskFails(replies(i))) && (k < 3 ==> !DiskFails(replies(|log| + k)))
  }

  /** At most four questions are asked of the journal mode on disk. */
  lemma OnDiskMeans(replies: Replies, log: seq<Entry>, k: nat)
    requires ProbedAt(replies, log, k)
    ensures OnDisk(replies, log) == (Asked(replies, log, GetJournalMode, k + 1), ModeRead(replies(|log| + k)))
  {
    ProbeMeans(replies, log, 4, k);
  }

  // ----- the setters -----------------------------------------------------------------------

  /** The tuning asked for once WAL is in effect. */
  lemma TunedMeans(replies: Replies, log: seq<Entry>, darwin: bool)
    ensures var n := |log|;
            Tuned(replies, log, darwin)
              == log + [Entry(SetSizeLimit, replies(n))]
                 + if darwin then [Entry(SetSynchronousFull, replies(n + 1)), Entry(SetCheckpointFsync, replies(n + 2))]
                   else []
  {
  }

  function TimeoutRead(reply: Reply): int {
    match reply case Number(n) => n case _ => 0
  }

  /** DELETE is asked for between a busy timeout of zero and the one that was read before. */
  lemma NoWaitMeans(replies: Replies, log: seq<Entry>)
    ensures var n := |log|;
            var asked := log + [Entry(GetBusyTimeout, replies(n))] + [Entry(SetBusyTimeout(0), replies(n + 1))];
            var switched := asked + [Entry(SetJournalMode(ToDelete), replies(n + 2))];
            NoWait(replies, log)
              == if replies(n + 1).Fail? then (asked, replies(n + 1))
                 else (switched + [Entry(SetBusyTimeout(TimeoutRead(replies(n))), replies(n + 3))], replies(n + 2))
  {
  }

  // ----- how it ends -----------------------------------------------------------------------

  /** What became of a request for DELETE that must be granted. */
  function Granted(reply: Reply): Outcome {
    if reply.Fail? then Raised(PortFailed(reply.error))
    else if Normalized(reply) != "delete" then Raised(NotSet(Normalized(reply)))
    else Mode("delete")
  }

  /** A database that is in WAL stays there, whatever the settings; it is only tuned. */
  lemma AlreadyWal(replies: Replies, opts: Options, k: nat)
    requires ProbedAt(replies, [], k) && ModeRead(replies(k)) == Some("wal")
    ensures Ladder(replies, [], opts) == (Tuned(replies, Asked(replies, [], GetJournalMode, k + 1), opts.darwin), Mode("wal"))
  {
    OnDiskMeans(replies, [], k);
  }

  /** A vulnerable library never gets WAL; one that cannot be read is left alone. */
  lemma UnderVulnerable(replies: Replies, opts: Options, k: nat)
    requires Vulnerable(opts) && ProbedAt(replies, [], k) && ModeRead(replies(k)) != Some("wal")
    ensures var log := Asked(replies, [], GetJournalMode, k + 1);
            Ladder(replies, [], opts)
              == if ModeRead(replies(k)).None? then (log, if WantsDelete(opts) then Raised(Unverified) else Mode("wal"))
                 else (NoWait(replies, log).0, if WantsDelete(opts) then Granted(NoWait(replies, log).1) else Mode("delete"))
  {
    OnDiskMeans(replies, [], k);
    var log := Asked(replies, [], GetJournalMode, k + 1);
    assert OnDisk(replies, []) == (log, ModeRead(replies(k)));
    if ModeRead(replies(k)).None? {
      assert VulnerableLadder(replies, [], opts).0 == log;
    } else {
      assert VulnerableLadder(replies, [], opts).0 == NoWait(replies, log).0;
    }
  }

  /** An operator's delete must be granted, and cannot be where nothing can be read. */
  lemma UnderOperator(replies: Replies, opts: Options, k: nat)
    requires !Vulnerable(opts) && WantsDelete(opts)
    requires ProbedAt(replies, [], k) && ModeRead(replies(k)) != Some("wal")
    ensures var log := Asked(replies, [], GetJournalMode, k + 1);
            Ladder(replies, [], opts)
              == if ModeRead(replies(k)).None? then (log, Raised(Unverified))
                 else (NoWait(replies, log).0, Granted(NoWait(replies, log).1))
  {
    OnDiskMeans(replies, [], k);
  }

  /** Otherwise WAL is asked for. */
  lemma WalIsAsked(replies: Replies, opts: Options, k: nat)
    requires !Vulnerable(opts) && !WantsDelete(opts)
    requires ProbedAt(replies, [], k) && ModeRead(replies(k)) != Some("wal")
    ensures Ladder(replies, [], opts) == WalAttempt(replies, Asked(replies, [], GetJournalMode, k + 1), opts)
  {
    OnDiskMeans(replies, [], k);
  }

  /**
   Answered with a mode, that mode is returned, unless WAL is required. An error that says nothing
   against WAL is raised, a disk i/o error is retried, and after any other WAL is given up.
  */
  lemma WalAnswered(replies: Replies, log: seq<Entry>, opts: Options)
    ensures var reply := replies(|log|);
            var asked := log + [Entry(SetJournalMode(ToWal), reply)];
            WalAttempt(replies, log, opts)
              == if !reply.Fail? then
                   (if Normalized(reply) == "wal" then (Tuned(replies, asked, opts.darwin), Mode("wal"))
                    else if opts.requireWal then (asked, Raised(WalUnsupported))
                    else (asked, Mode(if Normalized(reply) == "" then "delete" else Normalized(reply))))
                 else if !IsWalIncompatible(reply.error) then (asked, Raised(PortFailed(reply.error)))
                 else if DiskFails(reply) then IoRetry(replies, asked, opts, reply.error, 2)
                 else GuardedDelete(replies, asked, opts, reply.error)
  {
    if replies(|log|).Fail? { ErrorsMean(replies(|log|).error); }
  }

  /** What follows when WAL is given up after an error: a second probe, and DELETE if it may be had. */
  lemma GivenUp(replies: Replies, log: seq<Entry>, opts: Options, error: PortError, k: nat)
    requires ProbedAt(replies, log, k)
    ensures var probed, mode := Asked(replies, log, GetJournalMode, k + 1), ModeRead(replies(|log| + k));
            GuardedDelete(replies, log, opts, error)
              == if mode.None? || mode == Some("wal") then (probed, Raised(PortFailed(error)))
                 else if opts.requireWal then (probed, Raised(WalUnsupported))
                 else (NoWait(replies, probed).0,
                       if NoWait(replies, probed).1.Fail? then Raised(PortFailed(NoWait(replies, probed).1.error))
                       else Mode("delete"))
  {
    OnDiskMeans(replies, log, k);
  }

  lemma RetriedOnce(replies: Replies, log: seq<Entry>, opts: Options, error: PortError, retries: nat)
    requires retries > 0
    ensures var reply := replies(|log|);
            var asked := log + [Entry(SetJournalMode(ToWal), reply)];
            IoRetry(replies, log, opts, error, retries)
              == if DiskFails(reply) then IoRetry(replies, asked, opts, error, retries - 1)
                 else if reply.Fail? then (asked, Raised(PortFailed(reply.error)))
                 else if Normalized(reply) == "wal" then (Tuned(replies, asked, opts.darwin), Mode("wal"))
                 else GuardedDelete(replies, asked, opts, error)
  {
    if replies(|log|).Fail? { ErrorsMean(replies(|log|).error); }
  }

  /** Two more disk i/o errors in a row and WAL is given up; any other answer before decides. */
  lemma RetriedTwice(replies: Replies, log: seq<Entry>, opts: Options, error: PortError)
    requires DiskFails(replies(|log|)) && DiskFails(replies(|log| + 1))
    ensures IoRetry(replies, log, opts, error, 2)
         == GuardedDelete(replies, log + [Entry(SetJournalMode(ToWal), replies(|log|))]
                                       + [Entry(SetJournalMode(ToWal), replies(|log| + 1))], opts, error)
  {
    RetriedOnce(replies, log, opts, error, 2);
    RetriedOnce(replies, log + [Entry(SetJournalMode(ToWal), replies(|log|))], opts, error, 1);
  }
}
