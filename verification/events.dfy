/** Inbound events and the merge table of the single pending slot
    (src/pi_gateway/guards/events.ts). */
module GuardEvents {
  import opened Text

  datatype MessageType = TextMessage | Photo | Voice | Video | Document | Location | Other

  /** Absent identifiers are the empty string: every reader tests truthiness. */
  datatype Source = Source(platform: string, userIdAlt: string, userId: string, chatType: string, chatId: string)

  datatype Event = Event(
    kind: MessageType,
    text: string,
    mediaUrls: seq<string>,
    mediaTypes: seq<string>,
    source: Option<Source>,
    messageId: Option<string>,
    replyTo: Option<string>,
    isInternal: bool,
    allowControl: bool)

  predicate IsCommand(e: Event) {
    var t := TrimStart(e.text);
    e.allowControl && t != "" && t[0] == '/'
  }

  /** Sender attribution: (platform, sender) or, in a direct chat, (platform, "dm", chat). */
  function IdentityOf(e: Event): Option<seq<string>> {
    if e.source.None? then None else
    var src := e.source.value;
    var sender := if src.userIdAlt != "" then src.userIdAlt else src.userId;
    if sender != "" then Some([src.platform, sender])
    else if (src.chatType == "dm" || src.chatType == "private") && src.chatId != ""
    then Some([src.platform, "dm", src.chatId])
    else None
  }

  predicate CanMerge(x: Event, e: Event) {
    IdentityOf(x).Some? && IdentityOf(x) == IdentityOf(e)
  }

  /** The blocks of a text separated by blank lines, each trimmed. */
  function TrimmedBlocks(s: string, from: nat := 0): set<string>
    requires from <= |s|
    decreases |s| - from + |s|
  {
    if from + 1 >= |s| then {Trim(s)}
    else if s[from] == '\n' && s[from + 1] == '\n'
    then {Trim(s[..from])} + TrimmedBlocks(s[from + 2..], 0)
    else TrimmedBlocks(s, from + 1)
  }

  /** A blank line begins at this place. */
  predicate BlankLineAt(s: string, i: nat) {
    i + 1 < |s| && s[i] == '\n' && s[i + 1] == '\n'
  }

  lemma {:induction false} OneBlock(s: string, from: nat)
    requires from <= |s| && forall i: nat | from <= i :: !BlankLineAt(s, i)
    ensures TrimmedBlocks(s, from) == {Trim(s)}
    decreases |s| - from
  {
    if from + 1 >= |s| {
    } else {
      assert !BlankLineAt(s, from);
      OneBlock(s, from + 1);
    }
  }

  lemma {:induction false} FirstBlock(a: string, b: string, from: nat)
    requires from <= |a| && forall i: nat | i < |a| :: !BlankLineAt(a + "\n\n" + b, i)
    ensures TrimmedBlocks(a + "\n\n" + b, from) == {Trim(a)} + TrimmedBlocks(b)
    decreases |a| - from
  {
    var s := a + "\n\n" + b;
    if from == |a| {
      assert s[..from] == a && s[from + 2..] == b;
    } else {
      assert !BlankLineAt(s, from);
      FirstBlock(a, b, from + 1);
    }
  }

  /**
   The blocks of a caption: itself when it has no blank line, and else what stands before the first
   blank line, and the blocks of what stands after.
  */
  lemma BlocksMean(s: string, at: nat)
    ensures (forall i: nat :: !BlankLineAt(s, i)) ==> TrimmedBlocks(s) == {Trim(s)}
    ensures BlankLineAt(s, at) && (forall i: nat | i < at :: !BlankLineAt(s, i)) ==>
              TrimmedBlocks(s) == {Trim(s[..at])} + TrimmedBlocks(s[at + 2..])
  {
    if forall i: nat :: !BlankLineAt(s, i) {
      OneBlock(s, 0);
    }
    if BlankLineAt(s, at) && (forall i: nat | i < at :: !BlankLineAt(s, i)) {
      assert s == s[..at] + "\n\n" + s[at + 2..];
      FirstBlock(s[..at], s[at + 2..], 0);
    }
  }

  /** A caption is added once: one whose trimmed text is a block of the old caption is left out. */
  lemma CaptionMeans(existing: string, incoming: string)
    ensures MergeCaption("", incoming) == incoming
    ensures existing != "" ==>
              MergeCaption(existing, incoming)
                == if Trim(incoming) in TrimmedBlocks(existing) then existing else Trim(existing + "\n\n" + incoming)
    ensures existing != "" && (forall i: nat :: !BlankLineAt(existing, i)) ==> MergeCaption(existing, existing) == existing
  {
    if forall i: nat :: !BlankLineAt(existing, i) {
      OneBlock(existing, 0);
    }
  }

  function MergeCaption(existing: string, incoming: string): string {
    if existing == "" then incoming
    else if Trim(incoming) in TrimmedBlocks(existing) then existing
    else Trim(existing + "\n\n" + incoming)
  }

  /** The merge table for a slot that already holds an event. */
  function Merge(x: Event, e: Event, mergeText: bool): Event {
    if x.kind.Photo? && e.kind.Photo? then
      x.(mediaUrls := x.mediaUrls + e.mediaUrls,
         mediaTypes := x.mediaTypes + e.mediaTypes,
         text := if e.text != "" then MergeCaption(x.text, e.text) else x.text)
    else if x.mediaUrls != [] || e.mediaUrls != [] then
      x.(mediaUrls := if e.mediaUrls != [] then x.mediaUrls + e.mediaUrls else x.mediaUrls,
         mediaTypes := if e.mediaUrls != [] then x.mediaTypes + e.mediaTypes else x.mediaTypes,
         text := if e.text == "" then x.text else if x.text != "" then MergeCaption(x.text, e.text) else e.text,
         kind := if x.kind.Photo? || e.kind.Photo? then Photo
                 else if x.kind.TextMessage? && !e.kind.TextMessage? then e.kind
                 else x.kind)
    else if mergeText && x.kind.TextMessage? && e.kind.TextMessage? then
      x.(text := Join("\n", x.text, e.text))
    else e
  }

  function MergedSlot(slot: Option<Event>, e: Event, mergeText: bool): Event {
    if slot.None? then e else Merge(slot.value, e, mergeText)
  }

  /** The merge option used for busy arrivals: texts ask for text merging, nothing else does. */
  function MergeArrival(x: Event, e: Event): Event {
    Merge(x, e, e.kind.TextMessage?)
  }

  /** A non-empty group of consecutive arrivals folded into one event. */
  function MergeAll(g: seq<Event>): Event
    requires g != []
  {
    if |g| == 1 then g[0] else MergeArrival(MergeAll(g[..|g| - 1]), g[|g| - 1])
  }

  lemma MergeAllAppend(g: seq<Event>, e: Event)
    ensures g != [] ==> MergeAll(g + [e]) == MergeArrival(MergeAll(g), e)
    ensures g == [] ==> MergeAll(g + [e]) == e
  {
    if g != [] {
      assert (g + [e])[..|g|] == g;
    }
  }

  function MediaOf(events: seq<Event>): seq<string> {
    if events == [] then [] else MediaOf(events[..|events| - 1]) + events[|events| - 1].mediaUrls
  }

  function TextOf(events: seq<Event>): string {
    if events == [] then "" else Join("\n", TextOf(events[..|events| - 1]), events[|events| - 1].text)
  }

  predicate PlainText(e: Event) {
    e.kind.TextMessage? && e.mediaUrls == []
  }

  predicate AllPlainText(g: seq<Event>) {
    forall e <- g :: PlainText(e)
  }

  /** No row of the merge table loses, repeats or reorders media, the replacing row included. */
  lemma MergeKeepsMedia(x: Event, e: Event, mergeText: bool)
    ensures Merge(x, e, mergeText).mediaUrls == x.mediaUrls + e.mediaUrls
  {
  }

  /** The row of the merge table in which the newest event wins. */
  predicate Replaced(x: Event, e: Event, mergeText: bool) {
    && x.mediaUrls == [] && e.mediaUrls == []
    && !(x.kind.Photo? && e.kind.Photo?) && !(mergeText && x.kind.TextMessage? && e.kind.TextMessage?)
  }

  /** That row drops what the slot said; every other keeps its sender, message and reply. */
  lemma MergeReplaces(x: Event, e: Event, mergeText: bool)
    ensures var r := Merge(x, e, mergeText);
            if Replaced(x, e, mergeText) then r == e
            else r == x.(kind := r.kind, text := r.text, mediaUrls := r.mediaUrls, mediaTypes := r.mediaTypes)
  {
  }

  /** Every attachment keeps its type, and an older caption comes first. */
  lemma MergeKeepsTypes(x: Event, e: Event, mergeText: bool)
    requires |x.mediaTypes| == |x.mediaUrls| && |e.mediaTypes| == |e.mediaUrls|
    ensures Merge(x, e, mergeText).mediaTypes == x.mediaTypes + e.mediaTypes
    ensures x.mediaUrls != [] || e.mediaUrls != [] ==>
              Merge(x, e, mergeText).text
                == if e.text == "" then x.text else if x.text == "" then e.text else MergeCaption(x.text, e.text)
    ensures x.mediaUrls != [] || e.mediaUrls != [] ==>
              Merge(x, e, mergeText).kind
                == if x.kind.Photo? || e.kind.Photo? then Photo else if x.kind.TextMessage? then e.kind else x.kind
  {
  }

  lemma {:induction false} MergeAllMedia(g: seq<Event>)
    requires g != []
    ensures MergeAll(g).mediaUrls == MediaOf(g)
  {
    var n := |g| - 1;
    if n == 0 {
      assert MediaOf(g[..0]) == [];
    } else {
      MergeAllMedia(g[..n]);
      MergeKeepsMedia(MergeAll(g[..n]), g[n], g[n].kind.TextMessage?);
    }
  }

  lemma {:induction false} MergeAllText(g: seq<Event>)
    requires g != [] && AllPlainText(g)
    ensures PlainText(MergeAll(g)) && MergeAll(g).text == TextOf(g)
  {
    var n := |g| - 1;
    assert PlainText(g[n]);
    if n == 0 {
      assert TextOf(g[..0]) == "";
    } else {
      assert AllPlainText(g[..n]);
      MergeAllText(g[..n]);
    }
  }

  /** Both readings of a run of arrivals are homomorphisms, so a partition into turns keeps them. */
  lemma {:induction false} ReadingsSplit(a: seq<Event>, b: seq<Event>)
    ensures MediaOf(a + b) == MediaOf(a) + MediaOf(b)
    ensures TextOf(a + b) == Join("\n", TextOf(a), TextOf(b))
    decreases |b|
  {
    if b == [] {
      assert a + b == a;
    } else {
      var n := |b| - 1;
      var all, init := a + b, a + b[..n];
      ReadingsSplit(a, b[..n]);
      assert all[..|all| - 1] == init && all[|all| - 1] == b[n];
      assert MediaOf(all) == MediaOf(init) + b[n].mediaUrls;
      assert MediaOf(b) == MediaOf(b[..n]) + b[n].mediaUrls;
      assert MediaOf(all) == MediaOf(a) + MediaOf(b);
      JoinAssociative("\n", TextOf(a), TextOf(b[..n]), b[n].text);
    }
  }
}
