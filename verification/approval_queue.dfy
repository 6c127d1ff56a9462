/**
 The per-session FIFO of pending approvals and the one primitive that resolves them
 (src/pi_embedded/approvals/queue.ts).
*/
module ApprovalQueue {
  import opened Sequences
  import opened Text

  datatype Choice = Once | Session | Always | Deny

  datatype Request = Request(command: string, patternKeys: seq<string>, requestId: string)

  datatype ResolveOptions = ResolveOptions(resolveAll: bool, reason: Option<string>, requestId: Option<string>)

  /** A text option that is absent or empty selects nothing. */
  predicate Given(text: Option<string>) {
    text.Some? && text.value != ""
  }

  function Matching<E>(queue: seq<E>, id: string, idOf: E -> string): (r: seq<E>)
    ensures forall e | e in r :: e in queue && idOf(e) == id
    ensures forall e | e in queue && idOf(e) == id :: e in r
    ensures |r| <= |queue|
  {
    if queue == [] then [] else
    var rest := Matching(queue[1..], id, idOf);
    if idOf(queue[0]) == id then [queue[0]] + rest else rest
  }

  function Others<E>(queue: seq<E>, id: string, idOf: E -> string): (r: seq<E>)
    ensures forall e | e in r :: e in queue && idOf(e) != id
    ensures forall e | e in queue && idOf(e) != id :: e in r
  {
    if queue == [] then [] else
    var rest := Others(queue[1..], id, idOf);
    if idOf(queue[0]) != id then [queue[0]] + rest else rest
  }

  /** The entries one resolve call settles: by request id, else all, else the oldest. */
  function Targets<E>(queue: seq<E>, options: ResolveOptions, idOf: E -> string): (r: seq<E>)
    ensures forall e | e in r :: e in queue
  {
    if Given(options.requestId) then Matching(queue, options.requestId.value, idOf)
    else if options.resolveAll then queue
    else if queue == [] then [] else [queue[0]]
  }

  function Remaining<E>(queue: seq<E>, options: ResolveOptions, idOf: E -> string): (r: seq<E>)
    ensures forall e | e in r :: e in queue
  {
    if Given(options.requestId) then Others(queue, options.requestId.value, idOf)
    else if options.resolveAll || queue == [] then [] else queue[1..]
  }

  lemma {:induction false} MatchingSplits<E>(queue: seq<E>, id: string, idOf: E -> string, e: E)
    ensures multiset(Matching(queue, id, idOf))[e] + multiset(Others(queue, id, idOf))[e] == multiset(queue)[e]
  {
    if queue == [] {
    } else {
      var head, rest := queue[0], queue[1..];
      MatchingSplits(rest, id, idOf, e);
      var matching, others := Matching(rest, id, idOf), Others(rest, id, idOf);
      ConsCounts(head, rest, e);
      assert queue == [head] + rest;
      if idOf(head) == id {
        ConsCounts(head, matching, e);
        assert Matching(queue, id, idOf) == [head] + matching && Others(queue, id, idOf) == others;
      } else {
        ConsCounts(head, others, e);
        assert Matching(queue, id, idOf) == matching && Others(queue, id, idOf) == [head] + others;
      }
    }
  }

  lemma ConsCounts<E>(head: E, rest: seq<E>, e: E)
    ensures multiset([head] + rest)[e] == (if head == e then 1 else 0) + multiset(rest)[e]
  {
    assert multiset([head] + rest) == multiset{head} + multiset(rest);
  }

  /** Every pending entry is either settled or left, as often as it was pending. */
  lemma ResolveSplitsQueue<E>(queue: seq<E>, options: ResolveOptions, idOf: E -> string, e: E)
    ensures multiset(Targets(queue, options, idOf))[e] + multiset(Remaining(queue, options, idOf))[e]
         == multiset(queue)[e]
  {
    if Given(options.requestId) {
      MatchingSplits(queue, options.requestId.value, idOf, e);
    } else if queue != [] {
      assert queue == [queue[0]] + queue[1..];
      ConsCounts(queue[0], queue[1..], e);
      ConsCounts(queue[0], [], e);
      assert [queue[0]] + [] == [queue[0]];
    }
  }

  // ----- the objects ----------------------------------------------------------------------

  class ApprovalEntry {
    const data: Request
    var result: Option<Choice>
    var reason: Option<string>
    var acknowledged: bool
    var done: bool

    constructor (data: Request)
      ensures this.data == data && result == None && reason == None && !acknowledged && !done
    {
      this.data := data;
      result, reason, acknowledged, done := None, None, false, false;
    }
  }

  const REQUEST_ID_OF := (e: ApprovalEntry) => e.data.requestId

  predicate Identical(data: Request, command: string, patternKeys: seq<string>) {
    data.command == command && data.patternKeys == patternKeys
  }

  /** A call that names a request settles the entries with its id; any other settles all, or the oldest. */
  lemma TargetsMean<E>(queue: seq<E>, options: ResolveOptions, idOf: E -> string, e: E)
    ensures options.requestId.Some? && options.requestId.value != "" ==>
              (e in Targets(queue, options, idOf) <==> e in queue && idOf(e) == options.requestId.value)
    ensures options.requestId.None? || options.requestId.value == "" ==>
              Targets(queue, options, idOf) == if options.resolveAll || |queue| <= 1 then queue else queue[..1]
  {
  }

  class ApprovalQueues {
    var queues: map<string, seq<ApprovalEntry>>

    /** No queue is empty, and an entry waits at most once. */
    ghost predicate Valid()
      reads this
    {
      forall key | key in queues :: queues[key] != [] && NoDuplicates(queues[key])
    }

    function Pending(key: string): seq<ApprovalEntry>
      reads this
    {
      if key in queues then queues[key] else []
    }

    constructor ()
      ensures Valid() && queues == map[]
    {
      queues := map[];
    }

    method Enqueue(sessionKey: string, entry: ApprovalEntry)
      requires Valid() && entry !in Pending(sessionKey)
      modifies this
      ensures Valid()
      ensures queues == old(queues)[sessionKey := old(Pending(sessionKey)) + [entry]]
    {
      if sessionKey in queues {
        queues := queues[sessionKey := queues[sessionKey] + [entry]];
      } else {
        assert [] + [entry] == [entry];
        queues := queues[sessionKey := [entry]];
      }
    }

    /** Put back what is left of a queue; an empty queue is removed. */
    method Store(sessionKey: string, queue: seq<ApprovalEntry>)
      requires NoDuplicates(queue)
      requires forall key | key in queues && key != sessionKey :: queues[key] != [] && NoDuplicates(queues[key])
      modifies this
      ensures Valid()
      ensures Pending(sessionKey) == queue && queues - {sessionKey} == old(queues) - {sessionKey}
    {
      if queue == [] {
        queues := queues - {sessionKey};
      } else {
        queues := queues[sessionKey := queue];
      }
    }

    method DropEntry(sessionKey: string, entry: ApprovalEntry)
      requires Valid()
      modifies this
      ensures Valid()
      ensures Pending(sessionKey) == Without(old(Pending(sessionKey)), entry)
      ensures queues - {sessionKey} == old(queues) - {sessionKey}
    {
      if sessionKey !in queues { return; }
      var queue := queues[sessionKey];
      var index := 0;
      while index < |queue| && queue[index] != entry
        invariant 0 <= index <= |queue| && entry !in queue[..index]
      {
        index := index + 1;
      }
      WithoutAt(queue, entry, index);
      WithoutDistinct(queue, entry);
      if index < |queue| {
        queue := queue[..index] + queue[index + 1..];
      }
      Store(sessionKey, queue);
    }

    /** Settle one entry; only the first settlement releases its waiters. */
    static method Settle(entry: ApprovalEntry)
      modifies entry`done
      ensures entry.done
    {
      if entry.done { return; }
      entry.done := true;
    }

    /**
     The resolution primitive. It returns how many entries it settled; they are exactly the
     targeted ones, in queue order, and every other entry is untouched.
    */
    method Resolve(sessionKey: string, choice: Choice, options: ResolveOptions) returns (count: nat)
      requires Valid()
      modifies this, Pending(sessionKey)
      ensures Valid()
      ensures count == |Targets(old(Pending(sessionKey)), options, REQUEST_ID_OF)|
      ensures Pending(sessionKey) == Remaining(old(Pending(sessionKey)), options, REQUEST_ID_OF)
      ensures queues - {sessionKey} == old(queues) - {sessionKey}
      ensures forall e | e in Targets(old(Pending(sessionKey)), options, REQUEST_ID_OF) ::
                e.done && e.result == Some(choice)
                && e.reason == (if Given(options.reason) then options.reason else old(e.reason))
      ensures forall e | e in Remaining(old(Pending(sessionKey)), options, REQUEST_ID_OF) :: unchanged(e)
    {
      var queue := Pending(sessionKey);
      if queue == [] {
        return 0;
      }
      ResolveKeepsDistinct(queue, options, REQUEST_ID_OF);
      var targets := Targets(queue, options, REQUEST_ID_OF);
      if Given(options.requestId) && targets == [] {
        NoneMatching(queue, options.requestId.value, REQUEST_ID_OF);
        return 0;
      }
      assert forall k | 0 <= k < |targets| :: targets[k] in queue;
      Store(sessionKey, Remaining(queue, options, REQUEST_ID_OF));
      Answer(targets, choice, options.reason);
      return |targets|;
    }

    static method Answer(targets: seq<ApprovalEntry>, choice: Choice, reason: Option<string>)
      requires NoDuplicates(targets)
      modifies targets
      ensures forall e | e in targets ::
                e.done && e.result == Some(choice)
                && e.reason == (if Given(reason) then reason else old(e.reason))
    {
      for i := 0 to |targets|
        invariant forall k | i <= k < |targets| :: targets[k].reason == old(targets[k].reason)
        invariant forall k | 0 <= k < i ::
                    targets[k].done && targets[k].result == Some(choice)
                    && targets[k].reason == (if Given(reason) then reason else old(targets[k].reason))
      {
        var entry := targets[i];
        entry.result := Some(choice);
        if Given(reason) {
          entry.reason := reason;
        }
        Settle(entry);
      }
    }

    /** Session-boundary cleanup: deny and release everything pending. */
    method ClearSession(sessionKey: string)
      requires Valid()
      modifies this, Pending(sessionKey)
      ensures Valid() && queues == old(queues) - {sessionKey}
      ensures forall e | e in old(Pending(sessionKey)) :: e.done && e.result == Some(Deny)
    {
      var entries := Pending(sessionKey);
      queues := queues - {sessionKey};
      for i := 0 to |entries|
        invariant queues == old(queues) - {sessionKey}
        invariant forall k | 0 <= k < i :: entries[k].done && entries[k].result == Some(Deny)
      {
        entries[i].result := Some(Deny);
        Settle(entries[i]);
      }
    }

    /** Release everything pending without an answer. */
    method UnregisterNotify(sessionKey: string)
      requires Valid()
      modifies this, Pending(sessionKey)
      ensures Valid() && queues == old(queues) - {sessionKey}
      ensures forall e | e in old(Pending(sessionKey)) ::
                e.done && e.result == old(e.result) && e.reason == old(e.reason)
    {
      var entries := Pending(sessionKey);
      queues := queues - {sessionKey};
      for i := 0 to |entries|
        invariant queues == old(queues) - {sessionKey}
        invariant forall k | 0 <= k < i :: entries[k].done
        invariant forall e | e in entries :: e.result == old(e.result) && e.reason == old(e.reason)
      {
        Settle(entries[i]);
      }
    }

    /** The oldest pending entry for the same command and pattern keys, if any. */
    method FindIdenticalPending(sessionKey: string, command: string, patternKeys: seq<string>)
      returns (leader: Option<ApprovalEntry>)
      ensures leader.None? <==> forall e | e in Pending(sessionKey) :: !Identical(e.data, command, patternKeys)
      ensures leader.Some? ==>
                exists i | 0 <= i < |Pending(sessionKey)| ::
                  && Pending(sessionKey)[i] == leader.value && Identical(leader.value.data, command, patternKeys)
                  && forall k | 0 <= k < i :: !Identical(Pending(sessionKey)[k].data, command, patternKeys)
    {
      var queue := Pending(sessionKey);
      for i := 0 to |queue|
        invariant forall k | 0 <= k < i :: !Identical(queue[k].data, command, patternKeys)
      {
        if Identical(queue[i].data, command, patternKeys) {
          return Some(queue[i]);
        }
      }
      return None;
    }

    ghost predicate FirstWithId(queue: seq<ApprovalEntry>, requestId: string, e: ApprovalEntry) {
      exists i | 0 <= i < |queue| ::
        && queue[i] == e && e.data.requestId == requestId
        && forall k | 0 <= k < i :: queue[k].data.requestId != requestId
    }

    /** Record receipt of the first pending request with an id. */
    method Ack(sessionKey: string, requestId: string) returns (found: bool)
      modifies Pending(sessionKey)
      ensures found <==> exists e | e in Pending(sessionKey) :: e.data.requestId == requestId
      ensures forall e | e in Pending(sessionKey) ::
                e.acknowledged <==> old(e.acknowledged) || FirstWithId(Pending(sessionKey), requestId, e)
      ensures forall e | e in Pending(sessionKey) :: e.result == old(e.result) && e.done == old(e.done)
    {
      var queue := Pending(sessionKey);
      for i := 0 to |queue|
        invariant forall k | 0 <= k < i :: queue[k].data.requestId != requestId
        invariant unchanged(queue)
      {
        if queue[i].data.requestId == requestId {
          queue[i].acknowledged := true;
          return true;
        }
      }
      return false;
    }
  }

  lemma {:induction false} NoneMatching<E>(queue: seq<E>, id: string, idOf: E -> string)
    requires Matching(queue, id, idOf) == []
    ensures Others(queue, id, idOf) == queue
  {
    if queue == [] {
    } else {
      NoneMatching(queue[1..], id, idOf);
    }
  }

  lemma {:induction false} SplitDistinct<E>(queue: seq<E>, id: string, idOf: E -> string)
    requires NoDuplicates(queue)
    ensures NoDuplicates(Matching(queue, id, idOf)) && NoDuplicates(Others(queue, id, idOf))
  {
    if queue == [] {
    } else {
      DistinctTail(queue);
      SplitDistinct(queue[1..], id, idOf);
      var m, o := Matching(queue[1..], id, idOf), Others(queue[1..], id, idOf);
      assert ([queue[0]] + m)[1..] == m && ([queue[0]] + o)[1..] == o;
      DistinctTail([queue[0]] + m);
      DistinctTail([queue[0]] + o);
      assert [] + m == m && [] + o == o;
    }
  }

  lemma ResolveKeepsDistinct<E>(queue: seq<E>, options: ResolveOptions, idOf: E -> string)
    requires NoDuplicates(queue)
    ensures NoDuplicates(Targets(queue, options, idOf)) && NoDuplicates(Remaining(queue, options, idOf))
    ensures forall e | e in Targets(queue, options, idOf) :: e !in Remaining(queue, options, idOf)
    ensures forall e | e in queue :: e in Targets(queue, options, idOf) || e in Remaining(queue, options, idOf)
  {
    if Given(options.requestId) {
      SplitDistinct(queue, options.requestId.value, idOf);
    } else if queue != [] {
      DistinctTail(queue);
      assert queue == [queue[0]] + queue[1..];
    }
  }
}
