/**
 Role-alternation repair of the live history (src/pi_agent_core/alternation-repair.ts):
 three passes over the list, then a rewrite in place, and the flush cursor that follows it.
 A message carries the identity of the object it stands for.
*/
module AlternationRepair {
  import opened Sequences
  import opened Text

  datatype Block =
    | TextBlock(text: string)
    | Thinking(thought: string)
    | ToolCall(callId: string, name: string)
    | OtherBlock(data: string)

  datatype Content = Plain(text: string) | Blocks(blocks: seq<Block>)

  datatype Body =
    | User(content: Content)
    | Assistant(parts: seq<Block>)
    | ToolResult(toolCallId: string, content: Content)
    | OtherRole(tag: string)

  datatype Message = Message(id: nat, body: Body)

  // ----- text and blocks --------------------------------------------------------------

  /** Joined text when every block is text. */
  function BlocksText(bs: seq<Block>): Option<string> {
    if bs == [] then Some("") else
    var front := BlocksText(bs[..|bs| - 1]);
    var last := bs[|bs| - 1];
    if front.Some? && last.TextBlock? then Some(front.value + last.text) else None
  }

  /** Blocks are plain text exactly when all of them are text; their text is theirs in order. */
  lemma {:induction false} BlocksTextMeans(bs: seq<Block>)
    ensures BlocksText(bs).Some? <==> forall b | b in bs :: b.TextBlock?
    ensures forall t: string | BlocksText(bs).Some? :: BlocksText(bs + [TextBlock(t)]) == Some(BlocksText(bs).value + t)
  {
    assert forall t: string :: (bs + [TextBlock(t)])[..|bs|] == bs;
    if bs == [] {
    } else {
      BlocksTextMeans(bs[..|bs| - 1]);
      assert bs == bs[..|bs| - 1] + [bs[|bs| - 1]];
    }
  }

  function PlainText(c: Content): Option<string> {
    match c
    case Plain(s) => Some(s)
    case Blocks(bs) => BlocksText(bs)
  }

  function Filter(bs: seq<Block>, keep: Block -> bool): seq<Block> {
    if bs == [] then [] else
    Filter(bs[..|bs| - 1], keep) + (if keep(bs[|bs| - 1]) then [bs[|bs| - 1]] else [])
  }

  const IS_CALL := (b: Block) => b.ToolCall?
  const IS_PROSE := (b: Block) => !b.ToolCall?
  const IS_THINKING := (b: Block) => b.Thinking?
  const IS_SPOKEN := (b: Block) => b.TextBlock? || b.Thinking?

  lemma {:induction false} FilterSplits(a: seq<Block>, b: seq<Block>, keep: Block -> bool)
    ensures Filter(a + b, keep) == Filter(a, keep) + Filter(b, keep)
    decreases |b|
  {
    if b == [] {
      assert a + b == a;
    } else {
      assert (a + b)[..|a + b| - 1] == a + b[..|b| - 1];
      FilterSplits(a, b[..|b| - 1], keep);
    }
  }

  lemma {:induction false} FilterOfFilter(bs: seq<Block>, inner: Block -> bool, outer: Block -> bool)
    ensures (forall b :: outer(b) ==> inner(b)) ==> Filter(Filter(bs, inner), outer) == Filter(bs, outer)
    ensures (forall b :: inner(b) ==> !outer(b)) ==> Filter(Filter(bs, inner), outer) == []
  {
    if bs == [] {
    } else {
      FilterOfFilter(bs[..|bs| - 1], inner, outer);
      var last := bs[|bs| - 1];
      var kept := if inner(last) then [last] else [];
      FilterSplits(Filter(bs[..|bs| - 1], inner), kept, outer);
      assert Filter([], outer) == [];
      assert [last][..0] == [];
      assert Filter([last], outer) == Filter([last][..0], outer) + (if outer(last) then [last] else []);
    }
  }

  function Ids(ms: seq<Message>): (r: seq<nat>)
    ensures |r| == |ms| && forall i | 0 <= i < |ms| :: r[i] == ms[i].id
  {
    seq(|ms|, i requires 0 <= i < |ms| => ms[i].id)
  }

  // ----- the passes -----------------------------------------------------------------------

  /** The surviving assistant turn after the next one is merged into it. */
  function MergeParts(prev: seq<Block>, next: seq<Block>): seq<Block> {
    var united := prev + Filter(next, IS_CALL);
    var prevText := BlocksText(Filter(united, IS_PROSE));
    var nextText := BlocksText(Filter(next, IS_PROSE));
    if prevText.Some? && nextText.Some? then
      var joined := Join("\n", Trim(prevText.value), Trim(nextText.value));
      Filter(united, IS_THINKING) + (if joined != "" then [TextBlock(joined)] else []) + Filter(united, IS_CALL)
    else if forall b <- united :: b.ToolCall? then
      united + Filter(next, IS_SPOKEN)
    else united
  }

  /** Merging a message into the last one keeps that one's identity. */
  function Reworded(out: seq<Message>, body: Body): (r: seq<Message>)
    requires out != []
    ensures |r| == |out| && r[..|out| - 1] == out[..|out| - 1]
    ensures r[|out| - 1].body == body && Ids(r) == Ids(out)
  {
    var last := |out| - 1;
    var r := out[..last] + [out[last].(body := body)];
    assert forall i | 0 <= i < |out| :: r[i].id == out[i].id;
    r
  }

  predicate EndsInAssistant(ms: seq<Message>) {
    ms != [] && ms[|ms| - 1].body.Assistant?
  }

  function CollapseStep(out: seq<Message>, msg: Message): seq<Message> {
    if msg.body.Assistant? && EndsInAssistant(out)
    then Reworded(out, Assistant(MergeParts(out[|out| - 1].body.parts, msg.body.parts)))
    else out + [msg]
  }

  function Collapse(ms: seq<Message>): seq<Message> {
    if ms == [] then [] else CollapseStep(Collapse(ms[..|ms| - 1]), ms[|ms| - 1])
  }

  function CallIds(parts: seq<Block>): set<string> {
    set b | b in parts && b.ToolCall? && b.callId != "" :: b.callId
  }

  function OpenStep(before: set<string>, body: Body): set<string> {
    match body
    case Assistant(parts) => CallIds(parts)
    case User(_) => {}
    case ToolResult(id, _) => before - {id}
    case OtherRole(_) => before
  }

  /** The tool calls still open after a list: those of its last assistant turn, unanswered, no user since. */
  function Open(ms: seq<Message>): (ids: set<string>)
    ensures "" !in ids
  {
    if ms == [] then {} else OpenStep(Open(ms[..|ms| - 1]), ms[|ms| - 1].body)
  }

  predicate Stray(ms: seq<Message>, msg: Message) {
    msg.body.ToolResult? && (msg.body.toolCallId == "" || msg.body.toolCallId !in Open(ms))
  }

  function DropStrays(ms: seq<Message>): seq<Message> {
    if ms == [] then [] else
    var out := DropStrays(ms[..|ms| - 1]);
    var msg := ms[|ms| - 1];
    if Stray(ms[..|ms| - 1], msg) then out else out + [msg]
  }

  predicate PlainUser(msg: Message) {
    msg.body.User? && PlainText(msg.body.content).Some?
  }

  function PlainWords(msg: Message): string
    requires PlainUser(msg)
  {
    PlainText(msg.body.content).value
  }

  predicate EndsInPlainUser(ms: seq<Message>) {
    ms != [] && PlainUser(ms[|ms| - 1])
  }

  function MergeUsersStep(out: seq<Message>, msg: Message): seq<Message> {
    if PlainUser(msg) && EndsInPlainUser(out)
    then Reworded(out, User(Plain(Join("\n\n", PlainWords(out[|out| - 1]), PlainWords(msg)))))
    else out + [msg]
  }

  function MergeUsers(ms: seq<Message>): seq<Message> {
    if ms == [] then [] else MergeUsersStep(MergeUsers(ms[..|ms| - 1]), ms[|ms| - 1])
  }

  function Repaired(ms: seq<Message>): seq<Message> {
    MergeUsers(DropStrays(Collapse(ms)))
  }

  // ----- the count --------------------------------------------------------------------------

  lemma {:induction false} CollapseShrinks(ms: seq<Message>)
    ensures |Collapse(ms)| <= |ms| && (|Collapse(ms)| == |ms| ==> Collapse(ms) == ms)
  {
    if ms == [] {
    } else {
      CollapseShrinks(ms[..|ms| - 1]);
      StepShrinks(Collapse(ms[..|ms| - 1]), Collapse(ms), ms);
    }
  }

  lemma StepShrinks(out: seq<Message>, next: seq<Message>, ms: seq<Message>)
    requires ms != [] && |out| < |ms| && (|out| == |ms| - 1 ==> out == ms[..|ms| - 1])
    requires next == out + [ms[|ms| - 1]] || |next| == |out|
    ensures |next| <= |ms| && (|next| == |ms| ==> next == ms)
  {
    assert ms == ms[..|ms| - 1] + [ms[|ms| - 1]];
  }

  lemma {:induction false} DropStraysShrinks(ms: seq<Message>)
    ensures |DropStrays(ms)| <= |ms| && (|DropStrays(ms)| == |ms| ==> DropStrays(ms) == ms)
  {
    if ms == [] {
    } else {
      DropStraysShrinks(ms[..|ms| - 1]);
      StepShrinks(DropStrays(ms[..|ms| - 1]), DropStrays(ms), ms);
    }
  }

  lemma {:induction false} MergeUsersShrinks(ms: seq<Message>)
    ensures |MergeUsers(ms)| <= |ms| && (|MergeUsers(ms)| == |ms| ==> MergeUsers(ms) == ms)
  {
    if ms == [] {
    } else {
      MergeUsersShrinks(ms[..|ms| - 1]);
      StepShrinks(MergeUsers(ms[..|ms| - 1]), MergeUsers(ms), ms);
    }
  }

  predicate NoAdjacentAssistants(ms: seq<Message>) {
    forall i | 0 < i < |ms| :: !(ms[i - 1].body.Assistant? && ms[i].body.Assistant?)
  }

  predicate NoAdjacentPlainUsers(ms: seq<Message>) {
    forall i | 0 < i < |ms| :: !(PlainUser(ms[i - 1]) && PlainUser(ms[i]))
  }

  /** Turn `j` called `id`, and since then no assistant, no user and no result for it. */
  predicate CallsAndWaits(ms: seq<Message>, j: nat, id: string) {
    && j < |ms| && ms[j].body.Assistant? && id != "" && id in CallIds(ms[j].body.parts)
    && forall k | j < k < |ms| ::
         && !ms[k].body.Assistant? && !ms[k].body.User?
         && !(ms[k].body.ToolResult? && ms[k].body.toolCallId == id)
  }

  /** Every tool result answers a once-consumed call of the nearest preceding assistant, no user between. */
  ghost predicate ResultsAnswer(ms: seq<Message>) {
    forall i | 0 <= i < |ms| && ms[i].body.ToolResult? ::
      exists j | 0 <= j < i :: CallsAndWaits(ms[..i], j, ms[i].body.toolCallId)
  }

  lemma {:induction false} OpenMeans(ms: seq<Message>, id: string)
    ensures id in Open(ms) <==> exists j | 0 <= j < |ms| :: CallsAndWaits(ms, j, id)
  {
    if ms == [] {
    } else {
      var n := |ms| - 1;
      var init := ms[..n];
      OpenMeans(init, id);
      if id in Open(ms) {
        if ms[n].body.Assistant? {
          assert CallsAndWaits(ms, n, id);
        } else {
          var j :| 0 <= j < n && CallsAndWaits(init, j, id);
          assert CallsAndWaits(ms, j, id);
        }
      }
      if j :| 0 <= j < |ms| && CallsAndWaits(ms, j, id) {
        if j < n {
          assert CallsAndWaits(init, j, id);
        }
      }
    }
  }

  ghost predicate NoStrays(ms: seq<Message>) {
    forall i | 0 <= i < |ms| :: !Stray(ms[..i], ms[i])
  }

  lemma NoStraysMeans(ms: seq<Message>)
    ensures NoStrays(ms) <==> ResultsAnswer(ms)
  {
    forall i | 0 <= i < |ms| && ms[i].body.ToolResult? {
      OpenMeans(ms[..i], ms[i].body.toolCallId);
    }
  }

  lemma AdjacentAppend(ms: seq<Message>, msg: Message)
    ensures NoAdjacentAssistants(ms + [msg])
       <==> NoAdjacentAssistants(ms) && !(EndsInAssistant(ms) && msg.body.Assistant?)
    ensures NoAdjacentPlainUsers(ms + [msg])
       <==> NoAdjacentPlainUsers(ms) && !(EndsInPlainUser(ms) && PlainUser(msg))
  {
    var all := ms + [msg];
    assert forall i | 0 <= i < |ms| :: all[i] == ms[i];
    assert all[|ms|] == msg;
  }

  lemma {:induction false} CollapseIdle(ms: seq<Message>)
    ensures Collapse(ms) == ms <==> NoAdjacentAssistants(ms)
  {
    if ms == [] {
    } else {
      var init, msg := ms[..|ms| - 1], ms[|ms| - 1];
      assert ms == init + [msg];
      CollapseIdle(init);
      AdjacentAppend(init, msg);
      CollapseShrinks(init);
      CollapseStepIdle(Collapse(init), init, msg);
    }
  }

  lemma CollapseStepIdle(out: seq<Message>, init: seq<Message>, msg: Message)
    requires |out| <= |init|
    ensures CollapseStep(out, msg) == init + [msg]
       <==> out == init && !(EndsInAssistant(init) && msg.body.Assistant?)
  {
    if msg.body.Assistant? && EndsInAssistant(out) {
      assert |CollapseStep(out, msg)| == |out|;
    } else if out + [msg] == init + [msg] {
      assert out == (out + [msg])[..|out|];
    }
  }

  lemma {:induction false} DropStraysIdle(ms: seq<Message>)
    ensures DropStrays(ms) == ms <==> NoStrays(ms)
  {
    if ms == [] {
    } else {
      var n := |ms| - 1;
      DropStraysIdle(ms[..n]);
      DropStraysShrinks(ms[..n]);
      assert ms == ms[..n] + [ms[n]];
      assert forall i | 0 <= i < n :: ms[..n][..i] == ms[..i];
    }
  }

  lemma {:induction false} MergeUsersIdle(ms: seq<Message>)
    ensures MergeUsers(ms) == ms <==> NoAdjacentPlainUsers(ms)
  {
    if ms == [] {
    } else {
      var init, msg := ms[..|ms| - 1], ms[|ms| - 1];
      assert ms == init + [msg];
      MergeUsersIdle(init);
      AdjacentAppend(init, msg);
      MergeUsersShrinks(init);
      MergeUsersStepIdle(MergeUsers(init), init, msg);
    }
  }

  lemma MergeUsersStepIdle(out: seq<Message>, init: seq<Message>, msg: Message)
    requires |out| <= |init|
    ensures MergeUsersStep(out, msg) == init + [msg]
       <==> out == init && !(EndsInPlainUser(init) && PlainUser(msg))
  {
    if PlainUser(msg) && EndsInPlainUser(out) {
      assert |MergeUsersStep(out, msg)| == |out|;
    } else if out + [msg] == init + [msg] {
      assert out == (out + [msg])[..|out|];
    }
  }

  /** The number of repairs, which is what the list lost in length, is zero exactly on well-formed input. */
  lemma NothingToRepair(ms: seq<Message>)
    ensures |Repaired(ms)| <= |ms|
    ensures |Repaired(ms)| == |ms| <==>
              NoAdjacentAssistants(ms) && ResultsAnswer(ms) && NoAdjacentPlainUsers(ms)
    ensures |Repaired(ms)| == |ms| ==> Repaired(ms) == ms
  {
    var a := Collapse(ms);
    var b := DropStrays(a);
    CollapseShrinks(ms);
    DropStraysShrinks(a);
    MergeUsersShrinks(b);
    CollapseIdle(ms);
    DropStraysIdle(a);
    MergeUsersIdle(b);
    NoStraysMeans(ms);
  }

  // ----- what the output looks like ------------------------------------------------------------

  lemma NoStraysAppend(ms: seq<Message>, msg: Message)
    ensures NoStrays(ms + [msg]) <==> NoStrays(ms) && !Stray(ms, msg)
  {
    var all := ms + [msg];
    assert all[..|ms|] == ms && all[|ms|] == msg;
    assert forall i | 0 <= i < |ms| :: all[..i] == ms[..i] && all[i] == ms[i];
  }

  lemma OpenAppend(ms: seq<Message>, msg: Message)
    ensures Open(ms + [msg]) == OpenStep(Open(ms), msg.body)
  {
    assert (ms + [msg])[..|ms|] == ms;
  }

  lemma {:induction false} DropStraysLeavesNone(ms: seq<Message>)
    ensures NoStrays(DropStrays(ms)) && Open(DropStrays(ms)) == Open(ms)
  {
    if ms == [] {
    } else {
      var init, msg := ms[..|ms| - 1], ms[|ms| - 1];
      var out := DropStrays(init);
      DropStraysLeavesNone(init);
      if Stray(init, msg) {
        assert Open(init) - {msg.body.toolCallId} == Open(init);
      } else {
        NoStraysAppend(out, msg);
        OpenAppend(out, msg);
      }
    }
  }

  lemma {:induction false} MergeUsersKeepsAnswers(ms: seq<Message>)
    requires NoStrays(ms)
    ensures NoStrays(MergeUsers(ms)) && Open(MergeUsers(ms)) == Open(ms)
  {
    if ms == [] {
    } else {
      var init, msg := ms[..|ms| - 1], ms[|ms| - 1];
      assert ms == init + [msg];
      NoStraysAppend(init, msg);
      MergeUsersKeepsAnswers(init);
      var out := MergeUsers(init);
      if PlainUser(msg) && EndsInPlainUser(out) {
        var front, merged := out[..|out| - 1], MergeUsers(ms)[|out| - 1];
        assert out == front + [out[|out| - 1]];
        NoStraysAppend(front, out[|out| - 1]);
        NoStraysAppend(front, merged);
        OpenAppend(front, merged);
      } else {
        NoStraysAppend(out, msg);
        OpenAppend(out, msg);
      }
    }
  }

  lemma {:induction false} MergeUsersSeparates(ms: seq<Message>)
    ensures NoAdjacentPlainUsers(MergeUsers(ms))
  {
    if ms == [] {
    } else {
      MergeUsersSeparates(ms[..|ms| - 1]);
    }
  }

  // ----- what survives ---------------------------------------------------------------------------

  function CallsOf(ms: seq<Message>): seq<Block> {
    if ms == [] then [] else
    var last := ms[|ms| - 1].body;
    CallsOf(ms[..|ms| - 1]) + (if last.Assistant? then Filter(last.parts, IS_CALL) else [])
  }

  lemma MergePartsKeepsCalls(prev: seq<Block>, next: seq<Block>)
    ensures Filter(MergeParts(prev, next), IS_CALL) == Filter(prev, IS_CALL) + Filter(next, IS_CALL)
  {
    var calls := Filter(next, IS_CALL);
    var united := prev + calls;
    FilterSplits(prev, calls, IS_CALL);
    FilterOfFilter(next, IS_CALL, IS_CALL);
    var prevText := BlocksText(Filter(united, IS_PROSE));
    var nextText := BlocksText(Filter(next, IS_PROSE));
    if prevText.Some? && nextText.Some? {
      var joined := Join("\n", Trim(prevText.value), Trim(nextText.value));
      var text := if joined != "" then [TextBlock(joined)] else [];
      assert Filter(text, IS_CALL) == [] by { assert text != [] ==> text[..0] == []; }
      FilterOfFilter(united, IS_THINKING, IS_CALL);
      FilterOfFilter(united, IS_CALL, IS_CALL);
      FilterSplits(Filter(united, IS_THINKING), text, IS_CALL);
      FilterSplits(Filter(united, IS_THINKING) + text, Filter(united, IS_CALL), IS_CALL);
    } else {
      FilterOfFilter(next, IS_SPOKEN, IS_CALL);
      FilterSplits(united, Filter(next, IS_SPOKEN), IS_CALL);
    }
  }

  lemma CallsOfAppend(ms: seq<Message>, msg: Message)
    ensures CallsOf(ms + [msg])
         == CallsOf(ms) + (if msg.body.Assistant? then Filter(msg.body.parts, IS_CALL) else [])
  {
    assert (ms + [msg])[..|ms|] == ms;
  }

  lemma CollapseStepKeepsCalls(out: seq<Message>, msg: Message)
    ensures CallsOf(CollapseStep(out, msg))
         == CallsOf(out) + (if msg.body.Assistant? then Filter(msg.body.parts, IS_CALL) else [])
  {
    if msg.body.Assistant? && EndsInAssistant(out) {
      var prev := out[|out| - 1].body.parts;
      MergePartsKeepsCalls(prev, msg.body.parts);
      var next := CollapseStep(out, msg);
      assert next[..|next| - 1] == out[..|out| - 1];
      assert CallsOf(next) == CallsOf(out[..|out| - 1]) + (Filter(prev, IS_CALL) + Filter(msg.body.parts, IS_CALL));
    } else {
      CallsOfAppend(out, msg);
    }
  }

  lemma {:induction false} CollapseKeepsCalls(ms: seq<Message>)
    ensures CallsOf(Collapse(ms)) == CallsOf(ms)
  {
    if ms == [] {
    } else {
      CollapseKeepsCalls(ms[..|ms| - 1]);
      CollapseStepKeepsCalls(Collapse(ms[..|ms| - 1]), ms[|ms| - 1]);
    }
  }

  lemma {:induction false} DropStraysKeepsCalls(ms: seq<Message>)
    ensures CallsOf(DropStrays(ms)) == CallsOf(ms)
  {
    if ms == [] {
    } else {
      DropStraysKeepsCalls(ms[..|ms| - 1]);
    }
  }

  lemma {:induction false} MergeUsersKeepsCalls(ms: seq<Message>)
    ensures CallsOf(MergeUsers(ms)) == CallsOf(ms)
  {
    if ms == [] {
    } else {
      MergeUsersKeepsCalls(ms[..|ms| - 1]);
    }
  }

  /** What the user said: runs of plain text joined by blank lines, structured contents apart. */
  datatype Said = Text(text: string) | Rich(content: Content)

  function Say(said: seq<Said>, text: string): seq<Said> {
    if said != [] && said[|said| - 1].Text?
    then said[..|said| - 1] + [Text(Join("\n\n", said[|said| - 1].text, text))]
    else said + [Text(text)]
  }

  function UserSays(ms: seq<Message>): seq<Said> {
    if ms == [] then [] else
    var before := UserSays(ms[..|ms| - 1]);
    var body := ms[|ms| - 1].body;
    if !body.User? then before
    else if PlainText(body.content).Some? then Say(before, PlainText(body.content).value)
    else before + [Rich(body.content)]
  }

  lemma SayTwice(said: seq<Said>, a: string, b: string)
    ensures Say(Say(said, a), b) == Say(said, Join("\n\n", a, b))
  {
    if said != [] && said[|said| - 1].Text? {
      JoinAssociative("\n\n", said[|said| - 1].text, a, b);
    }
  }

  lemma {:induction false} CollapseKeepsWords(ms: seq<Message>)
    ensures UserSays(Collapse(ms)) == UserSays(ms)
  {
    if ms == [] {
    } else {
      CollapseKeepsWords(ms[..|ms| - 1]);
    }
  }

  lemma {:induction false} DropStraysKeepsWords(ms: seq<Message>)
    ensures UserSays(DropStrays(ms)) == UserSays(ms)
  {
    if ms == [] {
    } else {
      DropStraysKeepsWords(ms[..|ms| - 1]);
    }
  }

  lemma {:induction false} MergeUsersKeepsWords(ms: seq<Message>)
    ensures UserSays(MergeUsers(ms)) == UserSays(ms)
  {
    if ms == [] {
    } else {
      var init, msg := ms[..|ms| - 1], ms[|ms| - 1];
      MergeUsersKeepsWords(init);
      var out := MergeUsers(init);
      if PlainUser(msg) && EndsInPlainUser(out) {
        SayTwice(UserSays(out[..|out| - 1]), PlainWords(out[|out| - 1]), PlainWords(msg));
      }
    }
  }

  /**
   After repair every tool result answers a call, plain user turns are never adjacent, every
   tool call survives in order, and so does everything the user said.
  */
  lemma RepairCharacterized(ms: seq<Message>)
    ensures ResultsAnswer(Repaired(ms)) && NoAdjacentPlainUsers(Repaired(ms))
    ensures CallsOf(Repaired(ms)) == CallsOf(ms)
    ensures UserSays(Repaired(ms)) == UserSays(ms)
  {
    var a := Collapse(ms);
    var b := DropStrays(a);
    DropStraysLeavesNone(a);
    MergeUsersKeepsAnswers(b);
    NoStraysMeans(MergeUsers(b));
    MergeUsersSeparates(b);
    CollapseKeepsCalls(ms);
    DropStraysKeepsCalls(a);
    MergeUsersKeepsCalls(b);
    CollapseKeepsWords(ms);
    DropStraysKeepsWords(a);
    MergeUsersKeepsWords(b);
  }

  // ----- assistants that stay adjacent -----------------------------------------------------------

  lemma {:induction false} FilterMembers(bs: seq<Block>, keep: Block -> bool, b: Block)
    ensures b in Filter(bs, keep) <==> b in bs && keep(b)
  {
    if bs == [] {
    } else {
      assert bs == bs[..|bs| - 1] + [bs[|bs| - 1]];
      FilterMembers(bs[..|bs| - 1], keep, b);
    }
  }

  /** A merged turn has called what its two halves called. */
  lemma MergedCallIds(prev: seq<Block>, next: seq<Block>)
    ensures CallIds(MergeParts(prev, next)) == CallIds(prev) + CallIds(next)
  {
    var merged := MergeParts(prev, next);
    MergePartsKeepsCalls(prev, next);
    forall b: Block | b.ToolCall? ensures b in merged <==> b in prev || b in next {
      FilterMembers(merged, IS_CALL, b);
      FilterMembers(prev, IS_CALL, b);
      FilterMembers(next, IS_CALL, b);
    }
  }

  /** The calls still open after a list in which adjacent assistant turns count as one. */
  function OpenRun(ms: seq<Message>): set<string> {
    if ms == [] then {} else
    var init, body := ms[..|ms| - 1], ms[|ms| - 1].body;
    OpenStep(OpenRun(init), body) + (if body.Assistant? && EndsInAssistant(init) then OpenRun(init) else {})
  }

  /** A result that answers no call of the run of assistant turns before it. */
  predicate Unasked(ms: seq<Message>, msg: Message) {
    msg.body.ToolResult? && (msg.body.toolCallId == "" || msg.body.toolCallId !in OpenRun(ms))
  }

  ghost predicate UnaskedFrom(ms: seq<Message>, i: nat) {
    forall k | i <= k < |ms| :: Unasked(ms[..k], ms[k])
  }

  /** An assistant turn followed by nothing but unasked results up to the end. */
  ghost predicate AssistantThenUnasked(ms: seq<Message>) {
    exists i | 0 <= i < |ms| :: ms[i].body.Assistant? && UnaskedFrom(ms, i + 1)
  }

  /** Two assistant turns with unasked results between them, and nothing else. */
  ghost predicate UnaskedBetweenAssistants(ms: seq<Message>) {
    exists j | 0 <= j < |ms| ::
      ms[j].body.Assistant? && !EndsInAssistant(ms[..j]) && AssistantThenUnasked(ms[..j])
  }

  lemma ThenUnaskedAppend(ms: seq<Message>, msg: Message)
    ensures AssistantThenUnasked(ms + [msg])
       <==> msg.body.Assistant? || (Unasked(ms, msg) && AssistantThenUnasked(ms))
  {
    var all, n := ms + [msg], |ms|;
    assert all[..n] == ms && all[n] == msg;
    assert forall k | 0 <= k < n :: all[..k] == ms[..k] && all[k] == ms[k];
    if msg.body.Assistant? {
      assert UnaskedFrom(all, n + 1);
    }
    if i :| 0 <= i < n && ms[i].body.Assistant? && UnaskedFrom(ms, i + 1) {
      assert Unasked(ms, msg) ==> UnaskedFrom(all, i + 1);
    }
    if i :| 0 <= i < |all| && all[i].body.Assistant? && UnaskedFrom(all, i + 1) {
      if i < n {
        assert UnaskedFrom(ms, i + 1) && Unasked(all[..n], all[n]);
      }
    }
  }

  lemma UnaskedBetweenAppend(ms: seq<Message>, msg: Message)
    ensures UnaskedBetweenAssistants(ms + [msg])
       <==> UnaskedBetweenAssistants(ms)
            || (msg.body.Assistant? && !EndsInAssistant(ms) && AssistantThenUnasked(ms))
  {
    var all := ms + [msg];
    assert forall j | 0 <= j <= |ms| :: all[..j] == ms[..j];
    assert ms[..|ms|] == ms && all[|ms|] == msg;
    if j :| 0 <= j < |ms| && ms[j].body.Assistant? && !EndsInAssistant(ms[..j]) && AssistantThenUnasked(ms[..j]) {
      assert all[j] == ms[j];
    }
    if j :| 0 <= j < |all| && all[j].body.Assistant? && !EndsInAssistant(all[..j]) && AssistantThenUnasked(all[..j]) {
      if j < |ms| { assert all[j] == ms[j]; }
    }
  }

  lemma {:induction false} CollapsedOpen(ms: seq<Message>)
    ensures EndsInAssistant(Collapse(ms)) <==> EndsInAssistant(ms)
    ensures Open(Collapse(ms)) == OpenRun(ms)
  {
    if ms == [] {
    } else {
      var init, msg := ms[..|ms| - 1], ms[|ms| - 1];
      var out := Collapse(init);
      CollapsedOpen(init);
      if msg.body.Assistant? && EndsInAssistant(out) {
        MergedCallIds(out[|out| - 1].body.parts, msg.body.parts);
      } else {
        OpenAppend(out, msg);
      }
    }
  }

  /** The second pass keeps an assistant turn, whatever it says. */
  lemma AssistantKept(front: seq<Message>, msg: Message)
    requires msg.body.Assistant?
    ensures DropStrays(front + [msg]) == DropStrays(front) + [msg]
  {
    assert (front + [msg])[..|front|] == front;
  }

  /** Adjacency after a second pass over a list that ends in an assistant turn does not depend on its words. */
  lemma SamePlaceInGap(out: seq<Message>, merged: Message)
    requires EndsInAssistant(out) && merged.body.Assistant?
    ensures var next := out[..|out| - 1] + [merged];
            && EndsInAssistant(DropStrays(next)) && EndsInAssistant(DropStrays(out))
            && (NoAdjacentAssistants(DropStrays(next)) <==> NoAdjacentAssistants(DropStrays(out)))
  {
    var front, last := out[..|out| - 1], out[|out| - 1];
    assert out == front + [last];
    AssistantKept(front, last);
    AssistantKept(front, merged);
    AdjacentAppend(DropStrays(front), last);
    AdjacentAppend(DropStrays(front), merged);
  }

  lemma DropOne(out: seq<Message>, msg: Message)
    ensures DropStrays(out + [msg]) == if Stray(out, msg) then DropStrays(out) else DropStrays(out) + [msg]
  {
    assert (out + [msg])[..|out|] == out;
  }

  /** One more message after the first pass, as the second pass sees it. */
  lemma CollapseStepExposes(out: seq<Message>, msg: Message)
    ensures EndsInAssistant(DropStrays(CollapseStep(out, msg)))
       <==> msg.body.Assistant? || (Stray(out, msg) && EndsInAssistant(DropStrays(out)))
    ensures NoAdjacentAssistants(DropStrays(CollapseStep(out, msg)))
       <==> NoAdjacentAssistants(DropStrays(out))
            && !(msg.body.Assistant? && !EndsInAssistant(out) && EndsInAssistant(DropStrays(out)))
  {
    var next := CollapseStep(out, msg);
    if msg.body.Assistant? && EndsInAssistant(out) {
      SamePlaceInGap(out, next[|out| - 1]);
      assert next == out[..|out| - 1] + [next[|out| - 1]];
    } else {
      DropOne(out, msg);
      AdjacentAppend(DropStrays(out), msg);
    }
  }

  lemma {:induction false} DropStraysExposes(ms: seq<Message>)
    ensures EndsInAssistant(DropStrays(Collapse(ms))) <==> AssistantThenUnasked(ms)
    ensures NoAdjacentAssistants(DropStrays(Collapse(ms))) <==> !UnaskedBetweenAssistants(ms)
  {
    if ms == [] {
    } else {
      var init, msg := ms[..|ms| - 1], ms[|ms| - 1];
      assert ms == init + [msg];
      DropStraysExposes(init);
      CollapsedOpen(init);
      ThenUnaskedAppend(init, msg);
      UnaskedBetweenAppend(init, msg);
      CollapseStepExposes(Collapse(init), msg);
    }
  }

  lemma RewordedAssistants(out: seq<Message>, body: Body)
    requires EndsInPlainUser(out) && body.User?
    ensures NoAdjacentAssistants(Reworded(out, body)) <==> NoAdjacentAssistants(out)
  {
    var r := Reworded(out, body);
    assert forall i | 0 <= i < |out| - 1 :: r[i] == r[..|out| - 1][i] == out[i];
  }

  lemma MergeUsersStepAssistants(out: seq<Message>, msg: Message)
    ensures NoAdjacentAssistants(MergeUsersStep(out, msg))
       <==> NoAdjacentAssistants(out) && !(EndsInAssistant(out) && msg.body.Assistant?)
    ensures EndsInAssistant(MergeUsersStep(out, msg)) <==> msg.body.Assistant?
  {
    if PlainUser(msg) && EndsInPlainUser(out) {
      RewordedAssistants(out, User(Plain(Join("\n\n", PlainWords(out[|out| - 1]), PlainWords(msg)))));
    } else {
      AdjacentAppend(out, msg);
    }
  }

  lemma {:induction false} MergeUsersKeepsAssistants(ms: seq<Message>)
    ensures NoAdjacentAssistants(MergeUsers(ms)) <==> NoAdjacentAssistants(ms)
    ensures EndsInAssistant(MergeUsers(ms)) <==> EndsInAssistant(ms)
  {
    if ms == [] {
    } else {
      var init, msg := ms[..|ms| - 1], ms[|ms| - 1];
      assert ms == init + [msg];
      MergeUsersKeepsAssistants(init);
      AdjacentAppend(init, msg);
      MergeUsersStepAssistants(MergeUsers(init), msg);
    }
  }

  /**
   Assistants are adjacent after the repair exactly when the history had two assistant turns
   with nothing but unasked results between them; only then would a second repair still find
   something to do.
  */
  lemma AssistantsStayAdjacent(ms: seq<Message>)
    ensures NoAdjacentAssistants(Repaired(ms)) <==> !UnaskedBetweenAssistants(ms)
    ensures Repaired(Repaired(ms)) == Repaired(ms) <==> !UnaskedBetweenAssistants(ms)
  {
    DropStraysExposes(ms);
    MergeUsersKeepsAssistants(DropStrays(Collapse(ms)));
    RepairCharacterized(ms);
    NothingToRepair(Repaired(ms));
  }

  const ANSWER := Message(0, Assistant([TextBlock("one")]))
  const ORPHAN := Message(1, ToolResult("lost", Plain("result")))
  const SEQUEL := Message(2, Assistant([TextBlock("two")]))

  /** The repair of assistant, orphan result, assistant leaves two adjacent assistants. */
  lemma AdjacentAssistantsRemain()
    ensures Repaired([ANSWER, ORPHAN, SEQUEL]) == [ANSWER, SEQUEL]
    ensures !NoAdjacentAssistants(Repaired([ANSWER, ORPHAN, SEQUEL]))
  {
    var ms := [ANSWER, ORPHAN, SEQUEL];
    assert ms[..2] == [ANSWER, ORPHAN] && ms[..2][..1] == [ANSWER] && ms[..2][..1][..0] == [];
    assert [ANSWER][..0] == [];
    assert Collapse([ANSWER]) == [ANSWER];
    assert Collapse([ANSWER, ORPHAN]) == [ANSWER, ORPHAN];
    assert Collapse(ms) == ms;
    assert Open([ANSWER]) == {};
    assert DropStrays([ANSWER]) == [ANSWER];
    assert DropStrays([ANSWER, ORPHAN]) == [ANSWER];
    assert DropStrays(ms) == [ANSWER, SEQUEL];
    assert [ANSWER, SEQUEL][..1] == [ANSWER];
    assert MergeUsers([ANSWER]) == [ANSWER];
    assert MergeUsers([ANSWER, SEQUEL]) == [ANSWER, SEQUEL];
    assert Repaired(ms)[0] == ANSWER && Repaired(ms)[1] == SEQUEL;
  }

  function Prose(parts: seq<Block>): Option<string> {
    BlocksText(Filter(parts, IS_PROSE))
  }

  lemma UnitedProse(prev: seq<Block>, next: seq<Block>)
    ensures Filter(prev + Filter(next, IS_CALL), IS_PROSE) == Filter(prev, IS_PROSE)
    ensures Filter(prev + Filter(next, IS_CALL), IS_SPOKEN) == Filter(prev, IS_SPOKEN)
  {
    FilterSplits(prev, Filter(next, IS_CALL), IS_PROSE);
    FilterSplits(prev, Filter(next, IS_CALL), IS_SPOKEN);
    FilterOfFilter(next, IS_CALL, IS_PROSE);
    FilterOfFilter(next, IS_CALL, IS_SPOKEN);
  }

  function TextOrNothing(text: string): seq<Block> {
    if text != "" then [TextBlock(text)] else []
  }

  /** When both turns are plain text the survivor says both, trimmed and joined by a newline. */
  lemma MergePartsJoins(prev: seq<Block>, next: seq<Block>)
    requires Prose(prev).Some? && Prose(next).Some?
    ensures Filter(MergeParts(prev, next), IS_SPOKEN)
         == TextOrNothing(Join("\n", Trim(Prose(prev).value), Trim(Prose(next).value)))
  {
    var united := prev + Filter(next, IS_CALL);
    UnitedProse(prev, next);
    var text := TextOrNothing(Join("\n", Trim(Prose(prev).value), Trim(Prose(next).value)));
    TextHasNoThinking(Filter(united, IS_PROSE));
    FilterOfFilter(united, IS_PROSE, IS_THINKING);
    FilterOfFilter(united, IS_CALL, IS_SPOKEN);
    assert Filter(text, IS_SPOKEN) == text by { assert text != [] ==> text[..0] == []; }
    assert MergeParts(prev, next) == [] + text + Filter(united, IS_CALL);
    FilterSplits(text, Filter(united, IS_CALL), IS_SPOKEN);
  }

  /** Otherwise the later prose is adopted by a survivor with only calls, and dropped by any other. */
  lemma MergePartsAdopts(prev: seq<Block>, next: seq<Block>)
    requires Prose(prev).None? || Prose(next).None?
    ensures Filter(MergeParts(prev, next), IS_SPOKEN)
         == if Filter(prev, IS_PROSE) == [] then Filter(next, IS_SPOKEN) else Filter(prev, IS_SPOKEN)
  {
    var united := prev + Filter(next, IS_CALL);
    UnitedProse(prev, next);
    NoProseMeans(united);
    FilterOfFilter(prev, IS_PROSE, IS_SPOKEN);
    if Filter(prev, IS_PROSE) == [] {
      assert MergeParts(prev, next) == united + Filter(next, IS_SPOKEN);
      FilterOfFilter(next, IS_SPOKEN, IS_SPOKEN);
      FilterSplits(united, Filter(next, IS_SPOKEN), IS_SPOKEN);
      assert Filter(united, IS_SPOKEN) == [];
    } else {
      assert MergeParts(prev, next) == united;
    }
  }

  lemma FilterTwo(a: Block, b: Block, keep: Block -> bool)
    ensures Filter([a], keep) == if keep(a) then [a] else []
    ensures Filter([a, b], keep) == (if keep(a) then [a] else []) + (if keep(b) then [b] else [])
  {
    assert [a][..0] == [] && [a, b][..1] == [a];
  }

  lemma ThoughtIsNoText(a: Block, b: Block)
    requires a.Thinking? && b.TextBlock?
    ensures Prose([a, b]).None?
  {
    FilterTwo(a, b, IS_PROSE);
    assert [a, b][..1] == [a];
    assert BlocksText([a]) == None;
  }

  /** One thinking block keeps a later turn from being joined, and its words are lost with it. */
  lemma LaterWordsAreLost(first: string, thought: string, later: string)
    ensures var next := [Thinking(thought), TextBlock(later)];
            && Filter(next, IS_SPOKEN) == next
            && Filter(MergeParts([TextBlock(first)], next), IS_SPOKEN) == [TextBlock(first)]
  {
    var prev, a, b := TextBlock(first), Thinking(thought), TextBlock(later);
    FilterTwo(prev, b, IS_PROSE);
    FilterTwo(prev, b, IS_SPOKEN);
    FilterTwo(a, b, IS_SPOKEN);
    ThoughtIsNoText(a, b);
    MergePartsAdopts([prev], [a, b]);
  }

  lemma {:induction false} TextHasNoThinking(bs: seq<Block>)
    requires BlocksText(bs).Some?
    ensures Filter(bs, IS_THINKING) == []
  {
    if bs == [] {
    } else {
      TextHasNoThinking(bs[..|bs| - 1]);
    }
  }

  lemma {:induction false} NoProseMeans(bs: seq<Block>)
    ensures Filter(bs, IS_PROSE) == [] <==> forall b <- bs :: b.ToolCall?
  {
    if bs == [] {
    } else {
      NoProseMeans(bs[..|bs| - 1]);
      assert bs == bs[..|bs| - 1] + [bs[|bs| - 1]];
    }
  }

  // ----- identities and the flush cursor ---------------------------------------------------------

  lemma IdsAppend(ms: seq<Message>, msg: Message)
    ensures Ids(ms + [msg]) == Ids(ms) + [msg.id]
  {
  }

  lemma {:induction false} PassesAreSubsequences(ms: seq<Message>)
    ensures Subsequence(Ids(Collapse(ms)), Ids(ms))
    ensures Subsequence(Ids(DropStrays(ms)), Ids(ms))
    ensures Subsequence(Ids(MergeUsers(ms)), Ids(ms))
  {
    if ms == [] {
    } else {
      var init, msg := ms[..|ms| - 1], ms[|ms| - 1];
      PassesAreSubsequences(init);
      assert ms == init + [msg];
      IdsAppend(init, msg);
      StepIsSubsequence(Collapse(init), Collapse(ms), init, msg);
      StepIsSubsequence(DropStrays(init), DropStrays(ms), init, msg);
      StepIsSubsequence(MergeUsers(init), MergeUsers(ms), init, msg);
    }
  }

  lemma StepIsSubsequence(out: seq<Message>, next: seq<Message>, init: seq<Message>, msg: Message)
    requires Subsequence(Ids(out), Ids(init))
    requires next == out + [msg] || Ids(next) == Ids(out)
    ensures Subsequence(Ids(next), Ids(init + [msg]))
  {
    IdsAppend(init, msg);
    IdsAppend(out, msg);
    SubsequenceExtend(Ids(out), Ids(init), msg.id);
  }

  lemma RepairedIsSubsequence(ms: seq<Message>)
    ensures Subsequence(Ids(Repaired(ms)), Ids(ms))
  {
    var a := Collapse(ms);
    var b := DropStrays(a);
    PassesAreSubsequences(ms);
    PassesAreSubsequences(a);
    PassesAreSubsequences(b);
    SubsequenceTrans(Ids(b), Ids(a), Ids(ms));
    SubsequenceTrans(Ids(MergeUsers(b)), Ids(b), Ids(ms));
  }

  predicate Distinct(ms: seq<Message>) {
    forall i, j | 0 <= i < j < |ms| :: ms[i].id != ms[j].id
  }

  function Flushed(ms: seq<Message>, flushed: int): seq<Message> {
    if flushed <= 0 then [] else if flushed >= |ms| then ms else ms[..flushed]
  }

  /** How many messages of a list have an identity in a set. */
  function Survivors(ms: seq<Message>, ids: set<nat>): (n: nat)
    ensures n <= |ms|
  {
    if ms == [] then 0 else
    Survivors(ms[..|ms| - 1], ids) + (if ms[|ms| - 1].id in ids then 1 else 0)
  }

  /** The identities of the messages flushed before the repair. */
  function FlushedIds(ms: seq<Message>, flushed: int): (ids: set<nat>)
    ensures forall x :: x in ids <==> x in Ids(Flushed(ms, flushed))
  {
    var prefix := Ids(Flushed(ms, flushed));
    set x | x in prefix
  }

  /** The flush cursor after the repair. */
  function Cursor(ms: seq<Message>, flushed: int): int {
    var out := Repaired(ms);
    if |out| == |ms| then flushed
    else if flushed > 0 then Survivors(out, FlushedIds(ms, flushed))
    else if flushed < |out| then flushed else |out|
  }

  /** Without repairs, and for a cursor that is not beyond the start, the cursor stays; one beyond the list is clamped. */
  lemma CursorElsewhere(ms: seq<Message>, flushed: int)
    ensures flushed <= 0 || |Repaired(ms)| == |ms| ==> Cursor(ms, flushed) == flushed
    ensures flushed >= |ms| && |Repaired(ms)| < |ms| ==> Cursor(ms, flushed) == Cursor(ms, |ms|)
  {
    NothingToRepair(ms);
    assert ms != [] ==> |Repaired(ms)| >= 0;
  }

  lemma {:induction false} SurvivorsOfSplit(ms: seq<Message>, ids: set<nat>, c: nat)
    requires c <= |ms|
    requires forall i | 0 <= i < |ms| :: ms[i].id in ids <==> i < c
    ensures Survivors(ms, ids) == c
  {
    if ms == [] {
    } else {
      SurvivorsOfSplit(ms[..|ms| - 1], ids, if c == |ms| then c - 1 else c);
    }
  }

  lemma HalvesApart(ms: seq<Message>, k: nat)
    requires Distinct(ms) && k <= |ms|
    ensures Ids(ms)[..k] == Ids(ms[..k]) && Ids(ms)[k..] == Ids(ms[k..])
    ensures forall x | x in Ids(ms[k..]) :: x !in Ids(ms[..k])
  {
    forall a, b | 0 <= a < k && 0 <= b < |ms| - k
      ensures Ids(ms[..k])[a] != Ids(ms[k..])[b]
    {
      assert ms[..k][a] == ms[a] && ms[k..][b] == ms[k + b];
    }
  }

  /** Cut the repaired list where it leaves the flushed prefix; the survivors are counted up to there. */
  lemma CursorCut(ms: seq<Message>, flushed: nat) returns (c: nat)
    requires Distinct(ms) && flushed <= |ms|
    ensures c <= |Repaired(ms)|
    ensures forall i | 0 <= i < c :: Repaired(ms)[i].id in Ids(ms[..flushed])
    ensures forall i | c <= i < |Repaired(ms)| :: Repaired(ms)[i].id in Ids(ms[flushed..])
    ensures forall x | x in Ids(ms[flushed..]) :: x !in Ids(ms[..flushed])
  {
    RepairedIsSubsequence(ms);
    HalvesApart(ms, flushed);
    var ids := Ids(Repaired(ms));
    c := SubsequenceCut(ids, Ids(ms), flushed);
    assert forall i | 0 <= i < |ids| :: ids[i] == Repaired(ms)[i].id;
  }

  /**
   With distinct messages and a cursor inside the list: everything before the returned cursor
   came from the flushed prefix, everything from it on did not.
  */
  lemma CursorSeparates(ms: seq<Message>, flushed: int)
    requires Distinct(ms) && 0 < flushed <= |ms|
    ensures 0 <= Cursor(ms, flushed) <= |Repaired(ms)|
    ensures forall i | 0 <= i < Cursor(ms, flushed) :: Repaired(ms)[i].id in Ids(ms[..flushed])
    ensures forall i | Cursor(ms, flushed) <= i < |Repaired(ms)| ::
              Repaired(ms)[i].id !in Ids(ms[..flushed]) && Repaired(ms)[i].id in Ids(ms[flushed..])
  {
    var c := CursorCut(ms, flushed);
    assert Flushed(ms, flushed) == ms[..flushed];
    SurvivorsOfSplit(Repaired(ms), FlushedIds(ms, flushed), c);
    NothingToRepair(ms);
    if |Repaired(ms)| == |ms| {
      assert forall i | 0 <= i < |ms| :: i < flushed ==> Ids(ms[..flushed])[i] == ms[i].id;
      assert forall i | flushed <= i < |ms| :: Ids(ms[flushed..])[i - flushed] == ms[i].id;
    }
  }

  // ----- the history object ------------------------------------------------------------------------

  class LiveHistory {
    var messages: seq<Message>

    constructor (initial: seq<Message>)
      ensures messages == initial
    {
      messages := initial;
    }

    method RepairMessageSequence() returns (repairs: nat)
      modifies this
      ensures messages == Repaired(old(messages))
      ensures repairs == |old(messages)| - |messages|
    {
      if messages == [] { return 0; }
      var collapsed, merges := CollapsePass();
      var filtered, drops := StrayPass(collapsed);
      var merged, joins := UserPass(filtered);
      repairs := merges + drops + joins;
      if repairs > 0 {
        messages := merged;
      } else {
        CollapseShrinks(messages);
        DropStraysShrinks(collapsed);
        MergeUsersShrinks(filtered);
      }
    }

    method CollapsePass() returns (collapsed: seq<Message>, repairs: nat)
      ensures collapsed == Collapse(messages)
      ensures repairs == |messages| - |collapsed|
    {
      collapsed, repairs := [], 0;
      for i := 0 to |messages|
        invariant collapsed == Collapse(messages[..i]) && repairs == i - |collapsed|
      {
        var msg := messages[i];
        assert messages[..i + 1][..i] == messages[..i];
        ghost var next := CollapseStep(collapsed, msg);
        assert Collapse(messages[..i + 1]) == next;
        if msg.body.Assistant? && collapsed != [] && collapsed[|collapsed| - 1].body.Assistant? {
          var prev := collapsed[|collapsed| - 1];
          var parts := MergeParts(prev.body.parts, msg.body.parts);
          collapsed := collapsed[..|collapsed| - 1] + [prev.(body := Assistant(parts))];
          repairs := repairs + 1;
        } else {
          collapsed := collapsed + [msg];
        }
        assert collapsed == next;
      }
      assert messages[..|messages|] == messages;
    }

    static method StrayPass(collapsed: seq<Message>) returns (filtered: seq<Message>, repairs: nat)
      ensures filtered == DropStrays(collapsed)
      ensures repairs == |collapsed| - |filtered|
    {
      var knownToolIds: set<string> := {};
      filtered, repairs := [], 0;
      for i := 0 to |collapsed|
        invariant knownToolIds == Open(collapsed[..i])
        invariant filtered == DropStrays(collapsed[..i]) && repairs == i - |filtered|
      {
        var msg := collapsed[i];
        assert collapsed[..i + 1][..i] == collapsed[..i];
        match msg.body
        case Assistant(parts) =>
          knownToolIds := CallIds(parts);
          filtered := filtered + [msg];
        case ToolResult(id, _) =>
          if id != "" && id in knownToolIds {
            filtered := filtered + [msg];
            knownToolIds := knownToolIds - {id};
          } else {
            repairs := repairs + 1;
          }
        case User(_) =>
          knownToolIds := {};
          filtered := filtered + [msg];
        case OtherRole(_) =>
          filtered := filtered + [msg];
      }
      assert collapsed[..|collapsed|] == collapsed;
    }

    static method UserPass(filtered: seq<Message>) returns (merged: seq<Message>, repairs: nat)
      ensures merged == MergeUsers(filtered)
      ensures repairs == |filtered| - |merged|
    {
      merged, repairs := [], 0;
      for i := 0 to |filtered|
        invariant merged == MergeUsers(filtered[..i]) && repairs == i - |merged|
      {
        var msg := filtered[i];
        assert filtered[..i + 1][..i] == filtered[..i];
        if PlainUser(msg) && merged != [] && PlainUser(merged[|merged| - 1]) {
          var prev := merged[|merged| - 1];
          var text := Join("\n\n", PlainWords(prev), PlainWords(msg));
          merged := merged[..|merged| - 1] + [prev.(body := User(Plain(text)))];
          repairs := repairs + 1;
        } else {
          merged := merged + [msg];
        }
      }
      assert filtered[..|filtered|] == filtered;
    }

    method RepairMessageSequenceWithCursor(flushedCount: int) returns (repairs: nat, cursor: int)
      modifies this
      ensures messages == Repaired(old(messages))
      ensures repairs == |old(messages)| - |messages|
      ensures cursor == Cursor(old(messages), flushedCount)
    {
      var preRepairFlushedIds := FlushedIds(messages, flushedCount);
      repairs := RepairMessageSequence();
      cursor := flushedCount;
      if repairs > 0 {
        if flushedCount > 0 {
          cursor := CountFlushed(preRepairFlushedIds);
        } else if |messages| < flushedCount {
          cursor := |messages|;
        }
      }
    }

    method CountFlushed(ids: set<nat>) returns (n: nat)
      ensures n == Survivors(messages, ids)
    {
      n := 0;
      for i := 0 to |messages|
        invariant n == Survivors(messages[..i], ids)
      {
        assert messages[..i + 1][..i] == messages[..i];
        if messages[i].id in ids { n := n + 1; }
      }
      assert messages[..|messages|] == messages;
    }
  }
}
