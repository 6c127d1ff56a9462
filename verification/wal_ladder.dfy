/**
 The journal-mode ladder (src/pi_state/wal.ts) over a pragma port that may answer anything: as a
 function of the answers, as methods that drive the port, and what no run of it ever does.
*/
module WalLadder {
  import opened Text

  // ----- the port ---------------------------------------------------------------------

  datatype Target = ToWal | ToDelete

  datatype Call =
    | GetJournalMode
    | GetBusyTimeout
    | SetBusyTimeout(ms: int)
    | SetJournalMode(target: Target)
    | SetSizeLimit
    | SetSynchronousFull
    | SetCheckpointFsync

  datatype PortError = PortError(code: string, message: string)

  datatype Reply = Row(text: string) | Number(n: int) | NoRow | Fail(error: PortError)

  datatype Entry = Entry(call: Call, reply: Reply)

  function Lower(s: string): string {
    if s == "" then "" else
    [if 'A' <= s[0] <= 'Z' then (s[0] - 'A') + 'a' else s[0]] + Lower(s[1..])
  }

  predicate Contains(s: string, part: string) {
    part <= s || (s != "" && Contains(s[1..], part))
  }

  function Decimal(n: nat): string {
    var digit := [('0' as int + n % 10) as char];
    if n < 10 then digit else Decimal(n / 10) + digit
  }

  function Normalized(reply: Reply): string {
    match reply
    case Row(text) => Lower(Trim(text))
    case Number(n) => if n < 0 then "-" + Decimal(-n) else Decimal(n)
    case NoRow => ""
    case Fail(_) => ""
  }

  predicate IsDiskIo(e: PortError) {
    Contains(Lower(e.message), "disk i/o error")
  }

  predicate IsLockedOrBusy(e: PortError) {
    || e.code in {"SQLITE_BUSY", "SQLITE_BUSY_SNAPSHOT", "SQLITE_LOCKED", "SQLITE_LOCKED_SHAREDCACHE"}
    || Contains(Lower(e.message), "locked") || Contains(Lower(e.message), "busy")
  }

  predicate IsWalIncompatible(e: PortError) {
    || e.code == "SQLITE_PROTOCOL"
    || Contains(Lower(e.message), "locking protocol")
    || Contains(Lower(e.message), "not authorized")
    || IsDiskIo(e)
  }

  // ----- settings and versions -----------------------------------------------------------

  datatype Version = Version(major: nat, minor: nat, patch: nat)

  predicate WalResetVulnerable(v: Version) {
    if v.major != 3 then false
    else if v.minor < 7 then false
    else if v.minor > 51 then false
    else if v.minor == 51 then v.patch < 3
    else if v.minor == 50 then v.patch < 7
    else if v.minor == 44 then v.patch < 6
    else true
  }

  predicate Older(a: Version, b: Version) {
    || a.major < b.major
    || (a.major == b.major && (a.minor < b.minor || (a.minor == b.minor && a.patch < b.patch)))
  }

  predicate InRange(v: Version, from: Version, upTo: Version) {
    !Older(v, from) && Older(v, upTo)
  }

  /** The vulnerable releases: 3.7.0 up to the fix in 3.51.3, without the two backported lines. */
  lemma VulnerableReleases(v: Version)
    ensures WalResetVulnerable(v)
       <==> && InRange(v, Version(3, 7, 0), Version(3, 51, 3))
            && !InRange(v, Version(3, 50, 7), Version(3, 51, 0))
            && !InRange(v, Version(3, 44, 6), Version(3, 45, 0))
  {
  }

  datatype Options = Options(operatorMode: Option<string>, requireWal: bool, version: Option<Version>, darwin: bool)

  /** The operator asked for delete; anything else fails safe to wal. */
  predicate WantsDelete(opts: Options) {
    opts.operatorMode.Some? && Lower(Trim(opts.operatorMode.value)) == "delete"
  }

  predicate Vulnerable(opts: Options) {
    opts.version.Some? && WalResetVulnerable(opts.version.value)
  }

  datatype Failure = Unverified | NotSet(got: string) | WalUnsupported | PortFailed(error: PortError)

  datatype Outcome = Mode(mode: string) | Raised(failure: Failure)

  // ----- the ladder as a function of the answers --------------------------------------------

  type Replies = nat -> Reply

  function Issue(replies: Replies, log: seq<Entry>, call: Call): seq<Entry> {
    log + [Entry(call, replies(|log|))]
  }

  /** The read-only probe, repeated on disk i/o errors. */
  function Probe(replies: Replies, log: seq<Entry>, attempts: nat): (seq<Entry>, Option<string>)
    decreases attempts
  {
    if attempts == 0 then (log, None) else
    var next := Issue(replies, log, GetJournalMode);
    var reply := replies(|log|);
    if reply.Fail? then (if IsDiskIo(reply.error) then Probe(replies, next, attempts - 1) else (next, None))
    else (next, if Normalized(reply) == "" then None else Some(Normalized(reply)))
  }

  function OnDisk(replies: Replies, log: seq<Entry>): (seq<Entry>, Option<string>) {
    Probe(replies, log, 4)
  }

  function PreviousTimeout(reply: Reply): int {
    if reply.Number? then reply.n else 0
  }

  /** The DELETE pragma between a busy timeout of 0 and its restoration; the reply is the pragma's. */
  function NoWait(replies: Replies, log: seq<Entry>): (seq<Entry>, Reply) {
    var asked := Issue(replies, log, GetBusyTimeout);
    var zeroed := Issue(replies, asked, SetBusyTimeout(0));
    if replies(|asked|).Fail? then (zeroed, replies(|asked|)) else
    var switched := Issue(replies, zeroed, SetJournalMode(ToDelete));
    (Issue(replies, switched, SetBusyTimeout(PreviousTimeout(replies(|log|)))), replies(|zeroed|))
  }

  /** Best-effort tuning once WAL is in effect. */
  function Tuned(replies: Replies, log: seq<Entry>, darwin: bool): seq<Entry> {
    var limited := Issue(replies, log, SetSizeLimit);
    if darwin then Issue(replies, Issue(replies, limited, SetSynchronousFull), SetCheckpointFsync) else limited
  }

  /** Under a vulnerable library: keep WAL, never create it. */
  function VulnerableLadder(replies: Replies, log: seq<Entry>, opts: Options): (seq<Entry>, Outcome) {
    var (probed, current) := OnDisk(replies, log);
    if current == Some("wal") then (Tuned(replies, probed, opts.darwin), Mode("wal"))
    else if current.None? then (probed, if WantsDelete(opts) then Raised(Unverified) else Mode("wal"))
    else
      var (done, reply) := NoWait(replies, probed);
      if !WantsDelete(opts) then (done, Mode("delete"))
      else if reply.Fail? then (done, Raised(PortFailed(reply.error)))
      else if Normalized(reply) != "delete" then (done, Raised(NotSet(Normalized(reply))))
      else (done, Mode("delete"))
  }

  function ConfiguredDelete(replies: Replies, log: seq<Entry>): (seq<Entry>, Outcome) {
    var (done, reply) := NoWait(replies, log);
    if reply.Fail? then (done, Raised(PortFailed(reply.error)))
    else if Normalized(reply) != "delete" then (done, Raised(NotSet(Normalized(reply))))
    else (done, Mode("delete"))
  }

  /** DELETE after WAL failed, unless the database is WAL already or cannot be read. */
  function GuardedDelete(replies: Replies, log: seq<Entry>, opts: Options, error: PortError): (seq<Entry>, Outcome) {
    var (probed, existing) := OnDisk(replies, log);
    if existing == Some("wal") || existing.None? then (probed, Raised(PortFailed(error)))
    else if opts.requireWal then (probed, Raised(WalUnsupported))
    else
      var (done, reply) := NoWait(replies, probed);
      (done, if reply.Fail? then Raised(PortFailed(reply.error)) else Mode("delete"))
  }

  function IoRetry(replies: Replies, log: seq<Entry>, opts: Options, error: PortError, retries: nat): (seq<Entry>, Outcome)
    decreases retries
  {
    if retries == 0 then GuardedDelete(replies, log, opts, error) else
    var next := Issue(replies, log, SetJournalMode(ToWal));
    var reply := replies(|log|);
    if reply.Fail? then
      if IsDiskIo(reply.error) then IoRetry(replies, next, opts, error, retries - 1)
      else (next, Raised(PortFailed(reply.error)))
    else if Normalized(reply) == "wal" then (Tuned(replies, next, opts.darwin), Mode("wal"))
    else GuardedDelete(replies, next, opts, error)
  }

  function WalAttempt(replies: Replies, log: seq<Entry>, opts: Options): (seq<Entry>, Outcome) {
    var next := Issue(replies, log, SetJournalMode(ToWal));
    var reply := replies(|log|);
    if reply.Fail? then
      if !IsWalIncompatible(reply.error) then (next, Raised(PortFailed(reply.error)))
      else if IsDiskIo(reply.error) then IoRetry(replies, next, opts, reply.error, 2)
      else GuardedDelete(replies, next, opts, reply.error)
    else if Normalized(reply) == "wal" then (Tuned(replies, next, opts.darwin), Mode("wal"))
    else if opts.requireWal then (next, Raised(WalUnsupported))
    else (next, Mode(if Normalized(reply) == "" then "delete" else Normalized(reply)))
  }

  function SafeLadder(replies: Replies, log: seq<Entry>, opts: Options): (seq<Entry>, Outcome) {
    var (probed, current) := OnDisk(replies, log);
    if current == Some("wal") then (Tuned(replies, probed, opts.darwin), Mode("wal"))
    else if WantsDelete(opts) then
      if current.None? then (probed, Raised(Unverified)) else ConfiguredDelete(replies, probed)
    else WalAttempt(replies, probed, opts)
  }

  function Ladder(replies: Replies, log: seq<Entry>, opts: Options): (seq<Entry>, Outcome) {
    if Vulnerable(opts) then VulnerableLadder(replies, log, opts) else SafeLadder(replies, log, opts)
  }

  // ----- what no run does --------------------------------------------------------------------------

  /** A probe entry that says the database is WAL. */
  predicate SaysWal(e: Entry) {
    e.call.GetJournalMode? && Normalized(e.reply) == "wal"
  }

  /** The latest probe before some entry read a mode other than WAL. */
  predicate ReadableNotWal(log: seq<Entry>) {
    log != [] &&
    var last := log[|log| - 1];
    if last.call.GetJournalMode? then Normalized(last.reply) != "" && Normalized(last.reply) != "wal"
    else ReadableNotWal(log[..|log| - 1])
  }

  /** May the pragma be issued after this log? */
  predicate MaySwitch(log: seq<Entry>, target: Target) {
    && (forall e | e in log :: !SaysWal(e))
    && (target.ToDelete? ==>
          && log != [] && log[|log| - 1].call == SetBusyTimeout(0) && !log[|log| - 1].reply.Fail?
          && ReadableNotWal(log))
  }

  /** Every journal-mode pragma of a log was allowed where it was issued. */
  predicate Disciplined(log: seq<Entry>) {
    forall i | 0 <= i < |log| && log[i].call.SetJournalMode? :: MaySwitch(log[..i], log[i].call.target)
  }

  predicate NoWalSet(log: seq<Entry>) {
    forall e | e in log :: e.call != SetJournalMode(ToWal)
  }

  lemma DisciplinedAppend(log: seq<Entry>, e: Entry)
    requires Disciplined(log) && (e.call.SetJournalMode? ==> MaySwitch(log, e.call.target))
    ensures Disciplined(log + [e])
  {
    var all := log + [e];
    assert forall i | 0 <= i < |log| :: all[..i] == log[..i];
    assert all[..|log|] == log;
  }

  lemma {:induction false} ProbeKeeps(replies: Replies, log: seq<Entry>, attempts: nat)
    requires Disciplined(log)
    ensures var (next, mode) := Probe(replies, log, attempts);
            && Disciplined(next) && (NoWalSet(log) ==> NoWalSet(next))
            && (mode != Some("wal") && (forall e | e in log :: !SaysWal(e)) ==> forall e | e in next :: !SaysWal(e))
            && (mode.Some? && mode.value != "wal" ==> ReadableNotWal(next))
    decreases attempts
  {
    if attempts == 0 {
    } else {
      var next := Issue(replies, log, GetJournalMode);
      DisciplinedAppend(log, next[|log|]);
      assert next[..|log|] == log;
      if replies(|log|).Fail? && IsDiskIo(replies(|log|).error) {
        ProbeKeeps(replies, next, attempts - 1);
      }
    }
  }

  /** Nothing was probed as WAL and the latest probe read another mode. */
  predicate Clear(log: seq<Entry>) {
    Disciplined(log) && (forall e | e in log :: !SaysWal(e))
  }

  lemma NoWaitKeeps(replies: Replies, log: seq<Entry>)
    requires Clear(log) && ReadableNotWal(log)
    ensures Clear(NoWait(replies, log).0) && (NoWalSet(log) ==> NoWalSet(NoWait(replies, log).0))
  {
    var asked := Issue(replies, log, GetBusyTimeout);
    var zeroed := Issue(replies, asked, SetBusyTimeout(0));
    assert asked[..|log|] == log && zeroed[..|asked|] == asked;
    DisciplinedAppend(log, asked[|log|]);
    DisciplinedAppend(asked, zeroed[|asked|]);
    if !replies(|asked|).Fail? {
      var switched := Issue(replies, zeroed, SetJournalMode(ToDelete));
      DisciplinedAppend(zeroed, switched[|zeroed|]);
      DisciplinedAppend(switched, NoWait(replies, log).0[|switched|]);
    }
  }

  lemma TunedKeeps(replies: Replies, log: seq<Entry>, darwin: bool)
    requires Disciplined(log)
    ensures Disciplined(Tuned(replies, log, darwin)) && (NoWalSet(log) ==> NoWalSet(Tuned(replies, log, darwin)))
  {
    var a := Issue(replies, log, SetSizeLimit);
    var b := Issue(replies, a, SetSynchronousFull);
    DisciplinedAppend(log, a[|log|]);
    DisciplinedAppend(a, b[|a|]);
    DisciplinedAppend(b, Issue(replies, b, SetCheckpointFsync)[|b|]);
  }

  lemma GuardedKeeps(replies: Replies, log: seq<Entry>, opts: Options, error: PortError)
    requires Clear(log)
    ensures Disciplined(GuardedDelete(replies, log, opts, error).0)
  {
    ProbeKeeps(replies, log, 4);
    var (probed, existing) := OnDisk(replies, log);
    if existing.Some? && existing.value != "wal" { NoWaitKeeps(replies, probed); }
  }

  lemma {:induction false} IoRetryKeeps(replies: Replies, log: seq<Entry>, opts: Options, error: PortError, retries: nat)
    requires Clear(log)
    ensures Disciplined(IoRetry(replies, log, opts, error, retries).0)
    decreases retries
  {
    if retries == 0 {
      GuardedKeeps(replies, log, opts, error);
    } else {
      var next := Issue(replies, log, SetJournalMode(ToWal));
      DisciplinedAppend(log, next[|log|]);
      if replies(|log|).Fail? {
        IoRetryKeeps(replies, next, opts, error, retries - 1);
      } else {
        TunedKeeps(replies, next, opts.darwin);
        GuardedKeeps(replies, next, opts, error);
      }
    }
  }

  lemma WalAttemptKeeps(replies: Replies, log: seq<Entry>, opts: Options)
    requires Clear(log)
    ensures Disciplined(WalAttempt(replies, log, opts).0)
  {
    var next := Issue(replies, log, SetJournalMode(ToWal));
    DisciplinedAppend(log, next[|log|]);
    var reply := replies(|log|);
    if reply.Fail? {
      if !IsWalIncompatible(reply.error) {
        assert WalAttempt(replies, log, opts).0 == next;
      } else if IsDiskIo(reply.error) {
        IoRetryKeeps(replies, next, opts, reply.error, 2);
      } else {
        GuardedKeeps(replies, next, opts, reply.error);
      }
    } else if Normalized(reply) == "wal" {
      TunedKeeps(replies, next, opts.darwin);
    } else {
      assert WalAttempt(replies, log, opts).0 == next;
    }
  }

  /**
   For every sequence of answers: a DELETE pragma is issued only right after the busy timeout
   was set to 0, with the latest probe readable and not WAL; and once a probe has said WAL no
   journal-mode pragma is issued at all. Under a vulnerable library no WAL pragma ever is.
  */
  lemma LadderIsDisciplined(replies: Replies, opts: Options)
    ensures Disciplined(Ladder(replies, [], opts).0)
    ensures Vulnerable(opts) ==> NoWalSet(Ladder(replies, [], opts).0)
  {
    var (probed, current) := OnDisk(replies, []);
    ProbeKeeps(replies, [], 4);
    TunedKeeps(replies, probed, opts.darwin);
    if current.Some? && current.value != "wal" { NoWaitKeeps(replies, probed); }
    if current != Some("wal") { WalAttemptKeeps(replies, probed, opts); }
  }

  // ----- what the returned mode means --------------------------------------------------------------

  predicate Journals(e: Entry) {
    e.call.GetJournalMode? || e.call.SetJournalMode?
  }

  /** The last answer about the journal mode. */
  function LastJournal(log: seq<Entry>): Option<Entry> {
    if log == [] then None
    else if Journals(log[|log| - 1]) then Some(log[|log| - 1])
    else LastJournal(log[..|log| - 1])
  }

  predicate Answers(log: seq<Entry>, mode: string) {
    LastJournal(log).Some? && Normalized(LastJournal(log).value.reply) == mode
  }

  /** A probe read one of the two modes, DELETE was granted, or WAL was answered with some mode. */
  predicate Conclusive(log: seq<Entry>) {
    LastJournal(log).Some? &&
    var e := LastJournal(log).value;
    match e.call
    case SetJournalMode(ToDelete) => Normalized(e.reply) == "delete"
    case SetJournalMode(ToWal) => Normalized(e.reply) != ""
    case _ => Normalized(e.reply) == "wal" || Normalized(e.reply) == "delete"
  }

  /** A returned mode is the one last answered exactly when that answer was conclusive. */
  predicate Honest(result: (seq<Entry>, Outcome)) {
    result.1.Mode? ==> (Answers(result.0, result.1.mode) <==> Conclusive(result.0))
  }

  lemma LastAppend(log: seq<Entry>, e: Entry)
    ensures LastJournal(log + [e]) == if Journals(e) then Some(e) else LastJournal(log)
  {
    assert (log + [e])[..|log|] == log;
  }

  lemma {:induction false} ProbeLast(replies: Replies, log: seq<Entry>, attempts: nat)
    requires attempts > 0
    ensures var (next, mode) := Probe(replies, log, attempts);
            && LastJournal(next).Some? && LastJournal(next).value.call == GetJournalMode
            && Normalized(LastJournal(next).value.reply) == (if mode.Some? then mode.value else "")
    decreases attempts
  {
    var next := Issue(replies, log, GetJournalMode);
    LastAppend(log, next[|log|]);
    if replies(|log|).Fail? && IsDiskIo(replies(|log|).error) && attempts > 1 {
      ProbeLast(replies, next, attempts - 1);
    }
  }

  lemma TunedLast(replies: Replies, log: seq<Entry>, darwin: bool)
    ensures LastJournal(Tuned(replies, log, darwin)) == LastJournal(log)
  {
    var a := Issue(replies, log, SetSizeLimit);
    var b := Issue(replies, a, SetSynchronousFull);
    LastAppend(log, a[|log|]);
    LastAppend(a, b[|a|]);
    LastAppend(b, Issue(replies, b, SetCheckpointFsync)[|b|]);
  }

  /** After the no-wait setter the last answer is the pragma's, unless the pragma was never issued. */
  lemma NoWaitLast(replies: Replies, log: seq<Entry>)
    ensures var (done, reply) := NoWait(replies, log);
            || LastJournal(done) == Some(Entry(SetJournalMode(ToDelete), reply))
            || (reply.Fail? && LastJournal(done) == LastJournal(log))
  {
    var asked := Issue(replies, log, GetBusyTimeout);
    var zeroed := Issue(replies, asked, SetBusyTimeout(0));
    var switched := Issue(replies, zeroed, SetJournalMode(ToDelete));
    LastAppend(log, asked[|log|]);
    LastAppend(asked, zeroed[|asked|]);
    LastAppend(zeroed, switched[|zeroed|]);
    LastAppend(switched, Entry(SetBusyTimeout(PreviousTimeout(replies(|log|))), replies(|switched|)));
  }

  lemma GuardedHonest(replies: Replies, log: seq<Entry>, opts: Options, error: PortError)
    ensures Honest(GuardedDelete(replies, log, opts, error))
    ensures GuardedDelete(replies, log, opts, error).1.Mode? ==> !opts.requireWal
  {
    NoWaitLast(replies, OnDisk(replies, log).0);
  }

  lemma {:induction false} IoRetryHonest(replies: Replies, log: seq<Entry>, opts: Options, error: PortError, retries: nat)
    ensures var r := IoRetry(replies, log, opts, error, retries);
            Honest(r) && (opts.requireWal && r.1.Mode? ==> r.1 == Mode("wal") && Answers(r.0, "wal"))
    decreases retries
  {
    if retries == 0 {
      GuardedHonest(replies, log, opts, error);
    } else {
      var next := Issue(replies, log, SetJournalMode(ToWal));
      LastAppend(log, next[|log|]);
      if replies(|log|).Fail? {
        IoRetryHonest(replies, next, opts, error, retries - 1);
      } else {
        TunedLast(replies, next, opts.darwin);
        GuardedHonest(replies, next, opts, error);
      }
    }
  }

  lemma WalAttemptHonest(replies: Replies, log: seq<Entry>, opts: Options)
    ensures var r := WalAttempt(replies, log, opts);
            Honest(r) && (opts.requireWal && r.1.Mode? ==> r.1 == Mode("wal") && Answers(r.0, "wal"))
  {
    var next := Issue(replies, log, SetJournalMode(ToWal));
    LastAppend(log, next[|log|]);
    TunedLast(replies, next, opts.darwin);
    if replies(|log|).Fail? {
      IoRetryHonest(replies, next, opts, replies(|log|).error, 2);
      GuardedHonest(replies, next, opts, replies(|log|).error);
    }
  }

  lemma ConfiguredHonest(replies: Replies, log: seq<Entry>)
    ensures var r := ConfiguredDelete(replies, log); Honest(r) && (r.1.Mode? ==> Answers(r.0, r.1.mode))
  {
    NoWaitLast(replies, log);
  }

  lemma VulnerableHonest(replies: Replies, opts: Options)
    ensures var r := VulnerableLadder(replies, [], opts);
            Honest(r) && (WantsDelete(opts) && r.1.Mode? ==> Answers(r.0, r.1.mode))
  {
    var (probed, current) := OnDisk(replies, []);
    ProbeLast(replies, [], 4);
    if current == Some("wal") {
      TunedLast(replies, probed, opts.darwin);
    } else {
      NoWaitLast(replies, probed);
    }
  }

  lemma SafeHonest(replies: Replies, opts: Options)
    ensures var r := SafeLadder(replies, [], opts);
            && Honest(r) && (WantsDelete(opts) && r.1.Mode? ==> Answers(r.0, r.1.mode))
            && (opts.requireWal && !WantsDelete(opts) && r.1.Mode? ==> r.1 == Mode("wal") && Answers(r.0, "wal"))
  {
    var (probed, current) := OnDisk(replies, []);
    ProbeLast(replies, [], 4);
    TunedLast(replies, probed, opts.darwin);
    ConfiguredHonest(replies, probed);
    WalAttemptHonest(replies, probed, opts);
  }

  lemma LadderIsHonest(replies: Replies, opts: Options)
    ensures Honest(Ladder(replies, [], opts))
    ensures WantsDelete(opts) && Ladder(replies, [], opts).1.Mode? ==>
              Answers(Ladder(replies, [], opts).0, Ladder(replies, [], opts).1.mode)
    ensures opts.requireWal && !Vulnerable(opts) && !WantsDelete(opts) && Ladder(replies, [], opts).1.Mode? ==>
              Ladder(replies, [], opts).1 == Mode("wal") && Answers(Ladder(replies, [], opts).0, "wal")
  {
    VulnerableHonest(replies, opts);
    SafeHonest(replies, opts);
  }

  /** The returned mode is the one last answered by the port exactly when that answer was conclusive. */
  lemma ReturnedMode(replies: Replies, opts: Options, log: seq<Entry>, mode: string)
    requires Ladder(replies, [], opts) == (log, Mode(mode))
    ensures Answers(log, mode) <==> Conclusive(log)
  {
    LadderIsHonest(replies, opts);
  }

  /** With the operator asking for delete, whatever mode is returned was answered. */
  lemma OperatorDeleteIsConfirmed(replies: Replies, opts: Options, log: seq<Entry>, mode: string)
    requires Ladder(replies, [], opts) == (log, Mode(mode)) && WantsDelete(opts)
    ensures Answers(log, mode)
  {
    LadderIsHonest(replies, opts);
  }

  /** A required WAL, outside vulnerable libraries and an operator's delete, is the only mode returned. */
  lemma RequiredWalIsAnswered(replies: Replies, opts: Options, log: seq<Entry>, mode: string)
    requires Ladder(replies, [], opts) == (log, Mode(mode))
    requires opts.requireWal && !Vulnerable(opts) && !WantsDelete(opts)
    ensures mode == "wal" && Answers(log, "wal")
  {
    LadderIsHonest(replies, opts);
  }

  const OFF := Row("off")

  lemma NormalizedOff()
    ensures Normalized(OFF) == "off"
  {
    assert "off"[1..] == "ff" && "ff"[1..] == "f" && "f"[1..] == "";
    assert Lower("f") == "f";
    assert Lower("ff") == "ff";
    assert Lower("off") == "off";
    assert Trim("off") == "off";
  }

  // ----- which settings guarantee what -----------------------------------------------------------

  /** A port that answers with one row, whatever is asked, except that its second answer is empty. */
  function Always(row: Reply): Replies {
    n => if n == 1 then NoRow else row
  }

  /** Against such a port the probe reads the row, and so does the DELETE pragma. */
  lemma AlwaysAnswers(row: Reply)
    requires row.Row? && Normalized(row) != ""
    ensures OnDisk(Always(row), []) == ([Entry(GetJournalMode, row)], Some(Normalized(row)))
    ensures NoWait(Always(row), [Entry(GetJournalMode, row)]).1 == row
    ensures LastJournal(NoWait(Always(row), [Entry(GetJournalMode, row)]).0) == Some(Entry(SetJournalMode(ToDelete), row))
  {
    var log := [Entry(GetJournalMode, row)];
    assert [] + [Entry(GetJournalMode, row)] == log;
    NoWaitLast(Always(row), log);
  }

  lemma NormalizedDelete()
    ensures Normalized(Row("delete")) == "delete"
  {
    assert "delete"[1..] == "elete" && "elete"[1..] == "lete" && "lete"[1..] == "ete";
    assert "ete"[1..] == "te" && "te"[1..] == "e" && "e"[1..] == "";
    assert Lower("e") == "e";
    assert Lower("te") == "te";
    assert Lower("ete") == "ete";
    assert Lower("lete") == "lete";
    assert Lower("elete") == "elete";
    assert Lower("delete") == "delete";
    assert Trim("delete") == "delete";
  }

  /** A port that grants DELETE gets it from a vulnerable library and from an operator's delete. */
  lemma GrantsDelete(opts: Options, row: Reply)
    requires Vulnerable(opts) || WantsDelete(opts)
    requires row.Row? && Normalized(row) == "delete"
    ensures Ladder(Always(row), [], opts).1 == Mode("delete")
  {
    AlwaysAnswers(row);
  }

  /** Whether a required WAL is enforced: no port makes the ladder return another mode. */
  ghost predicate EnforcesWal(opts: Options) {
    forall replies :: Ladder(replies, [], opts).1.Mode? ==> Ladder(replies, [], opts).1 == Mode("wal")
  }

  /** A required WAL is enforced exactly outside vulnerable libraries and an operator's delete. */
  lemma RequiredWalExactly(opts: Options)
    requires opts.requireWal
    ensures EnforcesWal(opts) <==> !Vulnerable(opts) && !WantsDelete(opts)
  {
    if Vulnerable(opts) || WantsDelete(opts) {
      NormalizedDelete();
      GrantsDelete(opts, Row("delete"));
    } else {
      forall replies ensures Ladder(replies, [], opts).1.Mode? ==> Ladder(replies, [], opts).1 == Mode("wal") {
        LadderIsHonest(replies, opts);
      }
    }
  }

  /** Whether only modes that the port last answered are returned, whatever the port does. */
  ghost predicate Confirms(opts: Options) {
    forall replies :: Ladder(replies, [], opts).1.Mode? ==>
      Answers(Ladder(replies, [], opts).0, Ladder(replies, [], opts).1.mode)
  }

  /** A port that reads neither WAL nor DELETE and says nothing to the WAL pragma gets delete reported. */
  lemma Unconfirmed(opts: Options, row: Reply)
    requires !WantsDelete(opts) && (Vulnerable(opts) || !opts.requireWal)
    requires row.Row? && Normalized(row) == "off"
    ensures Ladder(Always(row), [], opts).1 == Mode("delete")
    ensures !Answers(Ladder(Always(row), [], opts).0, "delete")
  {
    AlwaysAnswers(row);
    if !Vulnerable(opts) {
      LastAppend([Entry(GetJournalMode, row)], Entry(SetJournalMode(ToWal), NoRow));
    }
  }

  /** Under a vulnerable library the ladder reports delete although the port still says off. */
  lemma ReportsDeleteUnconfirmed()
    ensures Ladder(Always(OFF), [], Options(None, true, Some(Version(3, 45, 0)), false)).1 == Mode("delete")
    ensures Answers(Ladder(Always(OFF), [], Options(None, true, Some(Version(3, 45, 0)), false)).0, "off")
  {
    NormalizedOff();
    AlwaysAnswers(OFF);
  }

  /**
   Every returned mode is one the port answered exactly where the operator asked for delete, or
   where WAL is required outside vulnerable libraries.
  */
  lemma ConfirmsExactly(opts: Options)
    ensures Confirms(opts) <==> WantsDelete(opts) || (opts.requireWal && !Vulnerable(opts))
  {
    if WantsDelete(opts) || (opts.requireWal && !Vulnerable(opts)) {
      forall replies
        ensures Ladder(replies, [], opts).1.Mode? ==>
                  Answers(Ladder(replies, [], opts).0, Ladder(replies, [], opts).1.mode)
      {
        LadderIsHonest(replies, opts);
      }
    } else {
      NormalizedOff();
      Unconfirmed(opts, OFF);
    }
  }

  // ----- the methods that drive the port ------------------------------------------------------------

  class PragmaPort {
    const replies: Replies
    var log: seq<Entry>

    constructor (replies: Replies)
      ensures this.replies == replies && log == []
    {
      this.replies := replies;
      log := [];
    }

    method Do(call: Call) returns (reply: Reply)
      modifies this
      ensures log == Issue(replies, old(log), call) && reply == replies(|old(log)|)
    {
      reply := replies(|log|);
      log := log + [Entry(call, reply)];
    }

    method OnDiskJournalMode() returns (mode: Option<string>)
      modifies this
      ensures (log, mode) == OnDisk(replies, old(log))
    {
      for attempt := 0 to 4
        invariant Probe(replies, log, 4 - attempt) == OnDisk(replies, old(log))
      {
        var reply := Do(GetJournalMode);
        if !reply.Fail? {
          return if Normalized(reply) == "" then None else Some(Normalized(reply));
        }
        if !IsDiskIo(reply.error) {
          return None;
        }
      }
      return None;
    }

    method SetJournalModeNoWait() returns (reply: Reply)
      modifies this
      ensures (log, reply) == NoWait(replies, old(log))
    {
      var prev := Do(GetBusyTimeout);
      var zeroed := Do(SetBusyTimeout(0));
      if zeroed.Fail? { return zeroed; }
      reply := Do(SetJournalMode(ToDelete));
      var _ := Do(SetBusyTimeout(if prev.Number? then prev.n else 0));
    }

    method Tune(darwin: bool)
      modifies this
      ensures log == Tuned(replies, old(log), darwin)
    {
      var _ := Do(SetSizeLimit);
      if darwin {
        var _ := Do(SetSynchronousFull);
        var _ := Do(SetCheckpointFsync);
      }
    }

    method ApplyUnderVulnerable(opts: Options) returns (outcome: Outcome)
      modifies this
      ensures (log, outcome) == VulnerableLadder(replies, old(log), opts)
    {
      var requireDelete := WantsDelete(opts);
      var current := OnDiskJournalMode();
      if current == Some("wal") {
        Tune(opts.darwin);
        return Mode("wal");
      }
      if current.None? {
        if requireDelete { return Raised(Unverified); }
        return Mode("wal");
      }
      var reply := SetJournalModeNoWait();
      var actual := "";
      if reply.Fail? {
        if requireDelete { return Raised(PortFailed(reply.error)); }
        if IsLockedOrBusy(reply.error) {
          return Mode(if current == Some("wal") then "wal" else "delete");
        }
      } else {
        actual := Normalized(reply);
      }
      if requireDelete && actual != "delete" { return Raised(NotSet(actual)); }
      return Mode("delete");
    }

    method FallBack(opts: Options, error: PortError) returns (outcome: Outcome)
      modifies this
      ensures (log, outcome) == GuardedDelete(replies, old(log), opts, error)
    {
      var existing := OnDiskJournalMode();
      if existing == Some("wal") || existing.None? { return Raised(PortFailed(error)); }
      if opts.requireWal { return Raised(WalUnsupported); }
      var reply := SetJournalModeNoWait();
      if reply.Fail? { return Raised(PortFailed(reply.error)); }
      return Mode("delete");
    }

    /** The WAL attempt, its retries on disk i/o errors, and the guarded fallback. */
    method AttemptWal(opts: Options) returns (outcome: Outcome)
      modifies this
      ensures (log, outcome) == WalAttempt(replies, old(log), opts)
    {
      var reply := Do(SetJournalMode(ToWal));
      if !reply.Fail? {
        var mode := Normalized(reply);
        if mode == "wal" {
          Tune(opts.darwin);
          return Mode("wal");
        }
        if opts.requireWal { return Raised(WalUnsupported); }
        return Mode(if mode == "" then "delete" else mode);
      }
      if !IsWalIncompatible(reply.error) { return Raised(PortFailed(reply.error)); }
      if IsDiskIo(reply.error) {
        var retry := 1;
        while retry <= 2
          invariant 1 <= retry <= 3
          invariant IoRetry(replies, log, opts, reply.error, 3 - retry) == WalAttempt(replies, old(log), opts)
        {
          var again := Do(SetJournalMode(ToWal));
          if !again.Fail? {
            if Normalized(again) == "wal" {
              Tune(opts.darwin);
              return Mode("wal");
            }
            break;
          }
          if !IsDiskIo(again.error) { return Raised(PortFailed(again.error)); }
          retry := retry + 1;
        }
      }
      outcome := FallBack(opts, reply.error);
    }

    method ApplyWalWithFallback(opts: Options) returns (outcome: Outcome)
      modifies this
      ensures (log, outcome) == Ladder(replies, old(log), opts)
    {
      if Vulnerable(opts) {
        outcome := ApplyUnderVulnerable(opts);
        return;
      }
      var currentMode := OnDiskJournalMode();
      if currentMode == Some("wal") {
        Tune(opts.darwin);
        return Mode("wal");
      }
      if WantsDelete(opts) {
        if currentMode.None? { return Raised(Unverified); }
        var reply := SetJournalModeNoWait();
        if reply.Fail? { return Raised(PortFailed(reply.error)); }
        if Normalized(reply) != "delete" { return Raised(NotSet(Normalized(reply))); }
        return Mode("delete");
      }
      outcome := AttemptWal(opts);
    }
  }
}
