/**
 Dedupe of replayed user rows (src/pi_state/messages.ts): the one-pass loop that pops exact
 clones and skips repeats inside an assistant-free window, and what it keeps in closed form.
*/
module ReplayDedupe {
  import opened Sequences
  import opened Text

  datatype Role = User | Assistant | OtherRole(name: string)

  /** What the stored tool-call text decodes to. */
  datatype Calls = Blank | Corrupt | NotAnArray | Array(length: nat)

  /** A stored row; the timestamp is its printed form. */
  datatype Row = Row(
    id: nat, role: Role, timestamp: Option<string>,
    content: Option<string>, apiContent: Option<string>, calls: Calls)

  datatype CloneKey = CloneKey(timestamp: string, content: string)

  /** The content a row replays: the sidecar when there is one. */
  function Canonical(row: Row): string {
    match row.apiContent
    case Some(sidecar) => sidecar
    case None => match row.content { case Some(text) => text case None => "" }
  }

  function KeyOf(row: Row): Option<CloneKey> {
    if row.role.User? && row.timestamp.Some? && Canonical(row) != ""
    then Some(CloneKey(row.timestamp.value, Canonical(row)))
    else None
  }

  /** An assistant row with a reply in it; nothing before it is compared with anything after it. */
  predicate CarriesPayload(row: Row) {
    && row.role.Assistant?
    && (|| (row.content.Some? && row.content.value != "")
        || row.calls.Corrupt?
        || (row.calls.Array? && row.calls.length > 0))
  }

  predicate Says(row: Row, content: string) {
    row.role.User? && Canonical(row) == content
  }

  // ----- the loop ----------------------------------------------------------------------

  /** Backward scan for a row saying the same, stopped by the first reply. */
  function FindDuplicate(kept: seq<Row>, content: string): Option<nat> {
    if kept == [] then None else
    var last := |kept| - 1;
    if Says(kept[last], content) then Some(last)
    else if CarriesPayload(kept[last]) then None
    else FindDuplicate(kept[..last], content)
  }

  function FindKey(kept: seq<Row>, key: CloneKey): (at: Option<nat>)
    ensures at.Some? ==> at.value < |kept| && KeyOf(kept[at.value]) == Some(key)
    ensures at.None? ==> forall i | 0 <= i < |kept| :: KeyOf(kept[i]) != Some(key)
  {
    if kept == [] then None else
    if KeyOf(kept[|kept| - 1]) == Some(key) then Some(|kept| - 1) else FindKey(kept[..|kept| - 1], key)
  }

  function RemoveAt<T>(s: seq<T>, i: nat): seq<T>
    requires i < |s|
  {
    s[..i] + s[i + 1..]
  }

  predicate IsClone(kept: seq<Row>, row: Row) {
    KeyOf(row).Some? && FindKey(kept, KeyOf(row).value).Some?
  }

  predicate IsRepeat(kept: seq<Row>, row: Row) {
    row.role.User? && Canonical(row) != "" && FindDuplicate(kept, Canonical(row)).Some?
  }

  function DedupeStep(kept: seq<Row>, row: Row): seq<Row> {
    if IsClone(kept, row) then RemoveAt(kept, FindKey(kept, KeyOf(row).value).value) + [row]
    else if IsRepeat(kept, row) then kept
    else kept + [row]
  }

  function Dedupe(rows: seq<Row>): seq<Row> {
    if rows == [] then [] else DedupeStep(Dedupe(rows[..|rows| - 1]), rows[|rows| - 1])
  }

  // ----- which rows survive, without the loop -------------------------------------------

  /** Row `i` repeats what was already said since the last reply before it. */
  ghost predicate WindowRepeat(rows: seq<Row>, i: nat)
    requires i < |rows|
  {
    exists j | 0 <= j < i :: SameAsk(rows, j, i)
  }

  predicate SameAsk(rows: seq<Row>, j: nat, i: nat)
    requires j < i < |rows|
  {
    && rows[i].role.User? && Canonical(rows[i]) != "" && Says(rows[j], Canonical(rows[i]))
    && NoReply(rows, j + 1, i)
  }

  predicate NoReply(rows: seq<Row>, lo: nat, hi: nat)
    requires hi <= |rows|
  {
    forall k | lo <= k < hi :: !CarriesPayload(rows[k])
  }

  predicate SameKey(rows: seq<Row>, j: nat, i: nat)
    requires j < |rows| && i < |rows|
  {
    KeyOf(rows[i]).Some? && KeyOf(rows[j]) == KeyOf(rows[i])
  }

  /**
   A row survives when no later row has its key and it was admitted: either it was no repeat,
   or a clone of it had been admitted before.
  */
  ghost predicate Survives(rows: seq<Row>, i: nat)
    requires i < |rows|
  {
    NoLaterClone(rows, i) && (!WindowRepeat(rows, i) || CloneAdmitted(rows, i))
  }

  predicate NoLaterClone(rows: seq<Row>, i: nat)
    requires i < |rows|
  {
    forall j | i < j < |rows| :: !SameKey(rows, j, i)
  }

  ghost predicate CloneAdmitted(rows: seq<Row>, i: nat)
    requires i < |rows|
  {
    exists j | 0 <= j < i :: SameKey(rows, j, i) && !WindowRepeat(rows, j)
  }

  /** The surviving positions below `n`, in order. */
  ghost function Picks(rows: seq<Row>, n: nat): (idx: seq<nat>)
    requires n <= |rows|
    ensures forall p | 0 <= p < |idx| :: idx[p] < n && Survives(rows, idx[p])
    ensures forall i | 0 <= i < n && Survives(rows, i) :: i in idx
    ensures Increasing(idx)
  {
    if n == 0 then [] else
    var before := Picks(rows, n - 1);
    if Survives(rows, n - 1) then before + [n - 1] else before
  }

  function At(rows: seq<Row>, idx: seq<nat>): (r: seq<Row>)
    requires forall p | 0 <= p < |idx| :: idx[p] < |rows|
    ensures |r| == |idx| && forall p | 0 <= p < |r| :: r[p] == rows[idx[p]]
  {
    seq(|idx|, p requires 0 <= p < |idx| => rows[idx[p]])
  }

  lemma {:induction false} FindDuplicateMeans(kept: seq<Row>, content: string)
    ensures FindDuplicate(kept, content).Some?
       <==> exists p | 0 <= p < |kept| :: Says(kept[p], content) && NoReply(kept, p + 1, |kept|)
  {
    if kept == [] {
    } else {
      var last := |kept| - 1;
      var init := kept[..last];
      FindDuplicateMeans(init, content);
      if Says(kept[last], content) {
        assert NoReply(kept, last + 1, |kept|);
      } else {
        if p :| 0 <= p < last && Says(init[p], content) && NoReply(init, p + 1, last) {
          if !CarriesPayload(kept[last]) {
            assert forall k | p + 1 <= k < last :: kept[k] == init[k];
            assert Says(kept[p], content) && NoReply(kept, p + 1, |kept|);
          }
        }
        if p :| 0 <= p < |kept| && Says(kept[p], content) && NoReply(kept, p + 1, |kept|) {
          assert forall k | p + 1 <= k < last :: kept[k] == init[k];
          assert Says(init[p], content) && NoReply(init, p + 1, last);
        }
      }
    }
  }

  /** Once a clone is admitted, the last row with its key survives. */
  lemma {:induction false} LastCloneSurvives(rows: seq<Row>, j: nat, from: nat) returns (i: nat)
    requires j <= from < |rows| && !WindowRepeat(rows, j)
    requires j == from || SameKey(rows, j, from)
    ensures from <= i < |rows| && Survives(rows, i) && (i == j || SameKey(rows, j, i))
    decreases |rows| - from
  {
    if later :| from < later < |rows| && SameKey(rows, later, from) {
      i := LastCloneSurvives(rows, j, later);
    } else {
      i := from;
    }
  }

  /** The earliest row of a window saying something is no repeat. */
  lemma {:induction false} EarliestAsk(rows: seq<Row>, j: nat, hi: nat, content: string) returns (e: nat)
    requires j < hi <= |rows| && Says(rows[j], content) && content != "" && NoReply(rows, j + 1, hi)
    ensures e <= j && Says(rows[e], content) && NoReply(rows, e + 1, hi) && !WindowRepeat(rows, e)
    decreases j
  {
    if earlier :| 0 <= earlier < j && SameAsk(rows, earlier, j) {
      e := EarliestAsk(rows, earlier, hi, content);
    } else {
      e := j;
    }
  }

  /** What was said in a window is still said there by a surviving row. */
  lemma AskSurvives(rows: seq<Row>, j: nat, hi: nat, content: string) returns (i: nat)
    requires j < hi <= |rows| && Says(rows[j], content) && content != "" && NoReply(rows, j + 1, hi)
    requires hi == |rows|
    ensures i < hi && Says(rows[i], content) && NoReply(rows, i + 1, hi) && Survives(rows, i)
  {
    var e := EarliestAsk(rows, j, hi, content);
    i := LastCloneSurvives(rows, e, e);
  }

  predicate Positions(rows: seq<Row>, idx: seq<nat>) {
    && Increasing(idx)
    && (forall p | 0 <= p < |idx| :: idx[p] < |rows|)
    && (forall k | 0 <= k < |rows| && CarriesPayload(rows[k]) :: k in idx)
  }

  /** Replies are never dropped, so a window of the survivors is a window of the whole. */
  lemma WindowThroughPositions(rows: seq<Row>, idx: seq<nat>, p: nat, q: nat)
    requires Positions(rows, idx) && p < q <= |idx|
    ensures NoReply(At(rows, idx), p + 1, q) <==> NoReply(rows, idx[p] + 1, if q == |idx| then |rows| else idx[q])
  {
    var kept, hi := At(rows, idx), if q == |idx| then |rows| else idx[q];
    if NoReply(kept, p + 1, q) {
      forall k | idx[p] < k < hi ensures !CarriesPayload(rows[k]) {
        if k in idx {
          var r :| 0 <= r < |idx| && idx[r] == k;
          assert rows[k] == kept[r];
        }
      }
    }
  }

  lemma KeptAskIsRepeat(rows: seq<Row>, idx: seq<nat>, row: Row, p: nat)
    requires Positions(rows, idx) && p < |idx| && row.role.User? && Canonical(row) != ""
    requires Says(At(rows, idx)[p], Canonical(row)) && NoReply(At(rows, idx), p + 1, |idx|)
    ensures WindowRepeat(rows + [row], |rows|)
  {
    WindowThroughPositions(rows, idx, p, |idx|);
    AskOfLast(rows, row, idx[p]);
  }

  lemma AskIsKept(rows: seq<Row>, idx: seq<nat>, content: string, i: nat)
    requires Positions(rows, idx) && i in idx
    requires Says(rows[i], content) && NoReply(rows, i + 1, |rows|)
    ensures FindDuplicate(At(rows, idx), content).Some?
  {
    var p := PositionOf(rows, idx, i);
    WindowThroughPositions(rows, idx, p, |idx|);
    FindDuplicateMeans(At(rows, idx), content);
  }

  lemma FoundIsRepeat(rows: seq<Row>, idx: seq<nat>, row: Row)
    requires Positions(rows, idx) && row.role.User? && Canonical(row) != ""
    requires FindDuplicate(At(rows, idx), Canonical(row)).Some?
    ensures WindowRepeat(rows + [row], |rows|)
  {
    var kept := At(rows, idx);
    FindDuplicateMeans(kept, Canonical(row));
    var p :| 0 <= p < |kept| && Says(kept[p], Canonical(row)) && NoReply(kept, p + 1, |kept|);
    KeptAskIsRepeat(rows, idx, row, p);
  }

  lemma RepeatIsFound(rows: seq<Row>, row: Row)
    requires row.role.User? && Canonical(row) != "" && WindowRepeat(rows + [row], |rows|)
    ensures FindDuplicate(At(rows, Picks(rows, |rows|)), Canonical(row)).Some?
  {
    var j :| 0 <= j < |rows| && SameAsk(rows + [row], j, |rows|);
    AskOfLast(rows, row, j);
    var i := AskSurvives(rows, j, |rows|, Canonical(row));
    AskIsKept(rows, Picks(rows, |rows|), Canonical(row), i);
  }

  lemma WindowRepeatIsUserAsk(rows: seq<Row>, i: nat)
    requires i < |rows| && WindowRepeat(rows, i)
    ensures rows[i].role.User? && Canonical(rows[i]) != ""
  {
    var j :| 0 <= j < i && SameAsk(rows, j, i);
  }

  /** The scan of the surviving rows finds a repeat exactly when the scan of all rows does. */
  lemma RepeatOfSurvivors(rows: seq<Row>, idx: seq<nat>, row: Row)
    requires Positions(rows, idx) && idx == Picks(rows, |rows|)
    ensures IsRepeat(At(rows, idx), row) <==> WindowRepeat(rows + [row], |rows|)
  {
    if IsRepeat(At(rows, idx), row) {
      FoundIsRepeat(rows, idx, row);
    }
    if WindowRepeat(rows + [row], |rows|) {
      WindowRepeatIsUserAsk(rows + [row], |rows|);
      RepeatIsFound(rows, row);
    }
  }

  lemma AskOfLast(rows: seq<Row>, row: Row, j: nat)
    requires j < |rows| && row.role.User? && Canonical(row) != ""
    ensures SameAsk(rows + [row], j, |rows|)
       <==> Says(rows[j], Canonical(row)) && NoReply(rows, j + 1, |rows|)
  {
    var all := rows + [row];
    assert forall k | 0 <= k < |rows| :: all[k] == rows[k];
  }

  lemma PositionOf(rows: seq<Row>, idx: seq<nat>, i: nat) returns (p: nat)
    requires (forall q | 0 <= q < |idx| :: idx[q] < |rows|) && i in idx
    ensures p < |idx| && idx[p] == i && At(rows, idx)[p] == rows[i]
  {
    p :| 0 <= p < |idx| && idx[p] == i;
  }

  // ----- adding one row ------------------------------------------------------------------------

  lemma WindowRepeatPrefix(rows: seq<Row>, row: Row, i: nat)
    requires i < |rows|
    ensures WindowRepeat(rows + [row], i) <==> WindowRepeat(rows, i)
  {
    var all := rows + [row];
    assert forall k | 0 <= k < |rows| :: all[k] == rows[k];
    assert forall j | 0 <= j < i :: SameAsk(all, j, i) <==> SameAsk(rows, j, i);
  }

  lemma SurvivesPrefix(rows: seq<Row>, row: Row, i: nat)
    requires i < |rows|
    ensures Survives(rows + [row], i)
       <==> Survives(rows, i) && !(KeyOf(row).Some? && KeyOf(rows[i]) == KeyOf(row))
  {
    var all := rows + [row];
    assert forall k | 0 <= k < |rows| :: all[k] == rows[k];
    assert forall j | 0 <= j < |rows| :: SameKey(all, j, i) <==> SameKey(rows, j, i);
    forall j | 0 <= j <= i ensures WindowRepeat(all, j) <==> WindowRepeat(rows, j) {
      WindowRepeatPrefix(rows, row, j);
    }
    assert SameKey(all, |rows|, i) <==> KeyOf(row).Some? && KeyOf(rows[i]) == KeyOf(row);
    if Survives(rows, i) && !SameKey(all, |rows|, i) {
      assert forall j | i < j < |all| :: !SameKey(all, j, i);
    }
  }

  /** An admitted clone is among the survivors, and every survivor was admitted. */
  lemma CloneAmongSurvivors(rows: seq<Row>, key: CloneKey)
    ensures (exists i | 0 <= i < |rows| :: KeyOf(rows[i]) == Some(key) && !WindowRepeat(rows, i))
       <==> (exists i | 0 <= i < |rows| :: KeyOf(rows[i]) == Some(key) && Survives(rows, i))
  {
    if j :| 0 <= j < |rows| && KeyOf(rows[j]) == Some(key) && !WindowRepeat(rows, j) {
      var i := LastCloneSurvives(rows, j, j);
      assert KeyOf(rows[i]) == Some(key);
    }
  }

  lemma LastIsLargest(a: seq<nat>, b: seq<nat>)
    requires a != [] && b != [] && Increasing(a) && Increasing(b)
    requires a[|a| - 1] in b && b[|b| - 1] in a
    ensures a[|a| - 1] == b[|b| - 1]
  {
  }

  lemma InitIncreasing(a: seq<nat>)
    requires a != [] && Increasing(a)
    ensures Increasing(a[..|a| - 1])
    ensures forall v :: v in a[..|a| - 1] <==> v in a && v != a[|a| - 1]
  {
    assert a == a[..|a| - 1] + [a[|a| - 1]];
  }

  lemma HasFirst(a: seq<nat>)
    requires a != []
    ensures a[0] in a
  {
  }

  lemma {:induction false} SameElementsSameOrder(a: seq<nat>, b: seq<nat>)
    requires Increasing(a) && Increasing(b)
    requires forall v :: v in a <==> v in b
    ensures a == b
  {
    if a == [] {
      if b != [] { HasFirst(b); }
    } else {
      assert a[0] in b;
      var init, front := a[..|a| - 1], b[..|b| - 1];
      SameInits(a, b, init, front);
      SameElementsSameOrder(init, front);
      assert a == init + [a[|a| - 1]] && b == front + [b[|b| - 1]];
    }
  }

  lemma SameInits(a: seq<nat>, b: seq<nat>, init: seq<nat>, front: seq<nat>)
    requires a != [] && b != [] && Increasing(a) && Increasing(b)
    requires init == a[..|a| - 1] && front == b[..|b| - 1]
    requires forall v :: v in a <==> v in b
    ensures a[|a| - 1] == b[|b| - 1] && Increasing(init) && Increasing(front)
    ensures forall v :: v in init <==> v in front
  {
    assert a[|a| - 1] in b && b[|b| - 1] in a;
    LastIsLargest(a, b);
    InitIncreasing(a);
    InitIncreasing(b);
    forall v: nat ensures v in init <==> v in front {
      assert v in a <==> v in b;
    }
  }

  lemma RemoveFromIncreasing(idx: seq<nat>, p: nat)
    requires Increasing(idx) && p < |idx|
    ensures Increasing(RemoveAt(idx, p))
    ensures forall v :: v in RemoveAt(idx, p) <==> v in idx && v != idx[p]
  {
    assert idx == idx[..p] + [idx[p]] + idx[p + 1..];
  }

  lemma PicksMembers(rows: seq<Row>, n: nat, i: nat)
    requires n <= |rows|
    ensures i in Picks(rows, n) <==> i < n && Survives(rows, i)
  {
  }

  /** The picks after the loop popped the clone of a row, if there is one. */
  ghost function PicksWithout(rows: seq<Row>, row: Row): seq<nat> {
    var idx := Picks(rows, |rows|);
    if IsClone(At(rows, idx), row) then RemoveAt(idx, FindKey(At(rows, idx), KeyOf(row).value).value) else idx
  }

  /** Below the new row the picks lose exactly the clone of it. */
  lemma PicksBelow(rows: seq<Row>, row: Row)
    ensures Picks(rows + [row], |rows|) == PicksWithout(rows, row)
  {
    var idx, below := Picks(rows, |rows|), Picks(rows + [row], |rows|);
    forall i: nat ensures i in below <==> i in idx && !(KeyOf(row).Some? && KeyOf(rows[i]) == KeyOf(row)) {
      PicksMembers(rows, |rows|, i);
      PicksMembers(rows + [row], |rows|, i);
      if i < |rows| { SurvivesPrefix(rows, row, i); }
    }
    if IsClone(At(rows, idx), row) {
      var p := FindKey(At(rows, idx), KeyOf(row).value).value;
      RemoveFromIncreasing(idx, p);
      forall i | i in idx ensures KeyOf(rows[i]) == KeyOf(row) <==> i == idx[p] {
        if KeyOf(rows[i]) == KeyOf(row) { SurvivorsHaveOwnKeys(rows, idx[p], i); }
      }
      SameElementsSameOrder(below, RemoveAt(idx, p));
    } else {
      forall i | i in idx ensures !(KeyOf(row).Some? && KeyOf(rows[i]) == KeyOf(row)) {
        if KeyOf(row).Some? && KeyOf(rows[i]) == KeyOf(row) { KeyOfSurvivor(rows, row, i); }
      }
      SameElementsSameOrder(below, idx);
    }
  }

  lemma KeyOfSurvivor(rows: seq<Row>, row: Row, i: nat)
    requires i < |rows| && Survives(rows, i) && KeyOf(row).Some? && KeyOf(rows[i]) == KeyOf(row)
    ensures IsClone(At(rows, Picks(rows, |rows|)), row)
  {
    CloneIsSurvivor(rows, KeyOf(row).value);
  }

  lemma SurvivorsHaveOwnKeys(rows: seq<Row>, i: nat, j: nat)
    requires i < |rows| && j < |rows| && Survives(rows, i) && Survives(rows, j) && SameKey(rows, i, j)
    ensures i == j
  {
    assert SameKey(rows, j, i);
  }

  /** A clone of the new row was admitted before exactly when one is still kept. */
  lemma AdmittedMeansKept(rows: seq<Row>, row: Row)
    requires KeyOf(row).Some?
    ensures CloneAdmitted(rows + [row], |rows|) <==> IsClone(At(rows, Picks(rows, |rows|)), row)
  {
    var n, all, key := |rows|, rows + [row], KeyOf(row).value;
    CloneAmongSurvivors(rows, key);
    CloneIsSurvivor(rows, key);
    forall j | 0 <= j < n
      ensures SameKey(all, j, n) && !WindowRepeat(all, j) <==> KeyOf(rows[j]) == Some(key) && !WindowRepeat(rows, j)
    {
      WindowRepeatPrefix(rows, row, j);
    }
  }

  /** The new row itself survives unless the loop skips it. */
  lemma LastSurvives(rows: seq<Row>, row: Row)
    ensures Survives(rows + [row], |rows|)
       <==> IsClone(At(rows, Picks(rows, |rows|)), row) || !IsRepeat(At(rows, Picks(rows, |rows|)), row)
  {
    PicksArePositions(rows);
    RepeatOfSurvivors(rows, Picks(rows, |rows|), row);
    NewestHasNoLaterClone(rows, row);
    NewestAdmitted(rows, row);
  }

  lemma PicksArePositions(rows: seq<Row>)
    ensures Positions(rows, Picks(rows, |rows|))
  {
    forall k | 0 <= k < |rows| && CarriesPayload(rows[k]) ensures Survives(rows, k) {
    }
  }

  lemma NewestAdmitted(rows: seq<Row>, row: Row)
    ensures CloneAdmitted(rows + [row], |rows|) <==> IsClone(At(rows, Picks(rows, |rows|)), row)
  {
    if KeyOf(row).Some? {
      AdmittedMeansKept(rows, row);
    } else {
      NoKeyNoClone(rows + [row], |rows|);
    }
  }

  lemma NewestHasNoLaterClone(rows: seq<Row>, row: Row)
    ensures NoLaterClone(rows + [row], |rows|)
  {
  }

  lemma NoKeyNoClone(rows: seq<Row>, i: nat)
    requires i < |rows| && KeyOf(rows[i]).None?
    ensures !CloneAdmitted(rows, i)
  {
  }

  lemma CloneIsSurvivor(rows: seq<Row>, key: CloneKey)
    ensures FindKey(At(rows, Picks(rows, |rows|)), key).Some?
       <==> exists i | 0 <= i < |rows| :: KeyOf(rows[i]) == Some(key) && Survives(rows, i)
  {
    var idx := Picks(rows, |rows|);
    var kept := At(rows, idx);
    if i :| 0 <= i < |rows| && KeyOf(rows[i]) == Some(key) && Survives(rows, i) {
      var p :| 0 <= p < |idx| && idx[p] == i;
      assert KeyOf(kept[p]) == Some(key);
    }
  }

  /** One step of the loop is one step of the rule. */
  lemma StepKeepsTheSurvivors(rows: seq<Row>, row: Row)
    ensures DedupeStep(At(rows, Picks(rows, |rows|)), row)
         == At(rows + [row], Picks(rows + [row], |rows| + 1))
  {
    var n, all, idx := |rows|, rows + [row], Picks(rows, |rows|);
    var kept := At(rows, idx);
    PicksBelow(rows, row);
    LastSurvives(rows, row);
    if IsClone(kept, row) {
      AtRemoved(rows, row, idx, FindKey(kept, KeyOf(row).value).value);
    } else {
      AtExtended(rows, row, idx);
    }
  }

  lemma AtExtended(rows: seq<Row>, row: Row, idx: seq<nat>)
    requires forall p | 0 <= p < |idx| :: idx[p] < |rows|
    ensures At(rows + [row], idx) == At(rows, idx)
    ensures At(rows + [row], idx + [|rows|]) == At(rows, idx) + [row]
  {
  }

  lemma AtRemoved(rows: seq<Row>, row: Row, idx: seq<nat>, p: nat)
    requires forall q | 0 <= q < |idx| :: idx[q] < |rows|
    requires p < |idx|
    ensures At(rows + [row], RemoveAt(idx, p) + [|rows|]) == RemoveAt(At(rows, idx), p) + [row]
  {
  }

  /**
   What the loop keeps, for every list of rows: the rows that survive by the rule above, in
   order. The pops and skips of the loop leave no other trace.
  */
  lemma {:induction false} KeepsTheSurvivors(rows: seq<Row>)
    ensures Dedupe(rows) == At(rows, Picks(rows, |rows|))
  {
    if rows == [] {
    } else {
      var init, row := rows[..|rows| - 1], rows[|rows| - 1];
      assert rows == init + [row];
      KeepsTheSurvivors(init);
      StepKeepsTheSurvivors(init, row);
    }
  }

  // ----- what follows from it --------------------------------------------------------------------

  predicate DistinctKeys(rows: seq<Row>) {
    forall i, j | 0 <= i < j < |rows| :: !SameKey(rows, i, j)
  }

  ghost predicate NoRepeats(rows: seq<Row>) {
    forall i | 0 <= i < |rows| :: !WindowRepeat(rows, i)
  }

  /** Only user rows are ever dropped, and no two kept rows are clones. */
  lemma KeptRowsAreDistinct(rows: seq<Row>)
    ensures DistinctKeys(Dedupe(rows))
    ensures forall i | 0 <= i < |rows| && !rows[i].role.User? :: i in Picks(rows, |rows|)
  {
    KeepsTheSurvivors(rows);
    var idx := Picks(rows, |rows|);
    forall p, q | 0 <= p < q < |idx| ensures !SameKey(Dedupe(rows), p, q) {
      if SameKey(Dedupe(rows), p, q) {
        SurvivorsHaveOwnKeys(rows, idx[p], idx[q]);
      }
    }
  }

  /** Nothing the user asked disappears: the contents said are the same before and after. */
  lemma AsksAreKept(rows: seq<Row>, content: string)
    ensures (exists p | 0 <= p < |Dedupe(rows)| :: Says(Dedupe(rows)[p], content))
       <==> (exists i | 0 <= i < |rows| :: Says(rows[i], content))
  {
    KeepsTheSurvivors(rows);
    var idx := Picks(rows, |rows|);
    if p :| 0 <= p < |idx| && Says(Dedupe(rows)[p], content) {
      assert Says(rows[idx[p]], content);
    }
    if i :| 0 <= i < |rows| && Says(rows[i], content) {
      var k := SomeSurvivorSays(rows, i);
      var p :| 0 <= p < |idx| && idx[p] == k;
      assert Says(Dedupe(rows)[p], content);
    }
  }

  lemma SomeSurvivorSays(rows: seq<Row>, i: nat) returns (k: nat)
    requires i < |rows| && rows[i].role.User?
    ensures k < |rows| && Survives(rows, k) && Says(rows[k], Canonical(rows[i]))
  {
    if Canonical(rows[i]) == "" {
      k := i;
    } else {
      var e := EarliestAsk(rows, i, i + 1, Canonical(rows[i]));
      k := LastCloneSurvives(rows, e, e);
    }
  }

  /** When no two input rows are clones, a row is dropped exactly when it repeats within its window. */
  lemma WithoutClones(rows: seq<Row>, i: nat)
    requires DistinctKeys(rows) && i < |rows|
    ensures Survives(rows, i) <==> !WindowRepeat(rows, i)
  {
    assert forall j | 0 <= j < i :: !SameKey(rows, j, i);
    if j :| i < j < |rows| && SameKey(rows, j, i) {
      assert SameKey(rows, i, j);
    }
  }

  /** An increasing list of numbers below n holds at most n of them, and n only as 0, 1, 2 and so on. */
  lemma {:induction false} IncreasingBelow(idx: seq<nat>, n: nat)
    requires Increasing(idx) && forall p | 0 <= p < |idx| :: idx[p] < n
    ensures |idx| <= n
    ensures |idx| == n ==> forall i | 0 <= i < n :: idx[i] == i
  {
    if idx == [] {
    } else {
      var last := |idx| - 1;
      IncreasingBelow(idx[..last], idx[last]);
      assert forall i | 0 <= i < last :: idx[..last][i] == idx[i];
    }
  }

  lemma PicksBound(rows: seq<Row>, n: nat)
    requires n <= |rows|
    ensures |Picks(rows, n)| <= n
    ensures |Picks(rows, n)| == n ==> forall i | 0 <= i < n :: Picks(rows, n)[i] == i
  {
    IncreasingBelow(Picks(rows, n), n);
  }

  lemma {:induction false} AllPicked(rows: seq<Row>, n: nat)
    requires n <= |rows| && forall i | 0 <= i < n :: Survives(rows, i)
    ensures |Picks(rows, n)| == n
  {
    if n == 0 {
    } else {
      AllPicked(rows, n - 1);
      assert Survives(rows, n - 1);
      assert Picks(rows, n) == Picks(rows, n - 1) + [n - 1];
    }
  }

  lemma KeysApart(rows: seq<Row>, i: nat, j: nat)
    requires DistinctKeys(rows) && i < |rows| && j < |rows| && SameKey(rows, i, j)
    ensures i == j
  {
    assert SameKey(rows, j, i);
  }

  lemma AllSurvive(rows: seq<Row>)
    ensures (forall i | 0 <= i < |rows| :: Survives(rows, i)) <==> DistinctKeys(rows) && NoRepeats(rows)
  {
    if forall i | 0 <= i < |rows| :: Survives(rows, i) {
      forall i, j | 0 <= i < j < |rows| ensures !SameKey(rows, i, j) {
        if SameKey(rows, i, j) { SurvivorsHaveOwnKeys(rows, i, j); }
      }
      forall i | 0 <= i < |rows| ensures !WindowRepeat(rows, i) {
        WithoutClones(rows, i);
      }
    }
    if DistinctKeys(rows) && NoRepeats(rows) {
      forall i | 0 <= i < |rows| ensures Survives(rows, i) {
        WithoutClones(rows, i);
      }
    }
  }

  lemma AllPickedMeans(rows: seq<Row>)
    ensures |Picks(rows, |rows|)| == |rows| ==> forall i | 0 <= i < |rows| :: Survives(rows, i)
    ensures |Picks(rows, |rows|)| == |rows| ==> At(rows, Picks(rows, |rows|)) == rows
  {
    PicksBound(rows, |rows|);
    var idx := Picks(rows, |rows|);
    if |idx| == |rows| {
      forall i | 0 <= i < |rows| ensures Survives(rows, i) {
        assert Survives(rows, idx[i]) && idx[i] == i;
      }
    }
  }

  /** The lists the dedupe leaves alone. */
  lemma FixedPoints(rows: seq<Row>)
    ensures Dedupe(rows) == rows <==> DistinctKeys(rows) && NoRepeats(rows)
  {
    KeepsTheSurvivors(rows);
    AllPickedMeans(rows);
    AllSurvive(rows);
    if DistinctKeys(rows) && NoRepeats(rows) {
      AllPicked(rows, |rows|);
    }
  }

  /** Two rows that both survive although the second repeats the first. */
  ghost predicate RepeatSurvives(rows: seq<Row>) {
    exists i, j | 0 <= i < j < |rows| :: SameAsk(rows, i, j) && Survives(rows, i) && Survives(rows, j)
  }

  lemma PicksAreSurvivors(rows: seq<Row>) returns (idx: seq<nat>)
    ensures idx == Picks(rows, |rows|) && Positions(rows, idx) && Dedupe(rows) == At(rows, idx)
  {
    idx := Picks(rows, |rows|);
    KeepsTheSurvivors(rows);
  }

  lemma AskThroughPositions(rows: seq<Row>, idx: seq<nat>, p: nat, q: nat)
    requires Positions(rows, idx) && p < q < |idx|
    ensures SameAsk(At(rows, idx), p, q) <==> SameAsk(rows, idx[p], idx[q])
  {
    WindowThroughPositions(rows, idx, p, q);
  }

  /** The dedupe is idempotent exactly when no surviving clone repeats another survivor. */
  lemma IdempotentExactly(rows: seq<Row>)
    ensures Dedupe(Dedupe(rows)) == Dedupe(rows) <==> !RepeatSurvives(rows)
  {
    KeptRowsAreDistinct(rows);
    FixedPoints(Dedupe(rows));
    if RepeatSurvives(rows) {
      RepeatIsKept(rows);
    }
    if !NoRepeats(Dedupe(rows)) {
      var q :| 0 <= q < |Dedupe(rows)| && WindowRepeat(Dedupe(rows), q);
      KeptRepeatSurvives(rows, q);
    }
  }

  lemma RepeatIsKept(rows: seq<Row>)
    requires RepeatSurvives(rows)
    ensures !NoRepeats(Dedupe(rows))
  {
    var idx := PicksAreSurvivors(rows);
    var i, j :| 0 <= i < j < |rows| && SameAsk(rows, i, j) && Survives(rows, i) && Survives(rows, j);
    RepeatAtPositions(rows, idx, i, j);
  }

  lemma RepeatAtPositions(rows: seq<Row>, idx: seq<nat>, i: nat, j: nat)
    requires Positions(rows, idx) && i in idx && j in idx && i < j < |rows| && SameAsk(rows, i, j)
    ensures !NoRepeats(At(rows, idx))
  {
    var p := PositionOf(rows, idx, i);
    var q := PositionOf(rows, idx, j);
    AskThroughPositions(rows, idx, p, q);
    assert WindowRepeat(At(rows, idx), q);
  }

  lemma KeptRepeatSurvives(rows: seq<Row>, q: nat)
    requires q < |Dedupe(rows)| && WindowRepeat(Dedupe(rows), q)
    ensures RepeatSurvives(rows)
  {
    var idx := PicksAreSurvivors(rows);
    var p :| 0 <= p < q && SameAsk(Dedupe(rows), p, q);
    AskThroughPositions(rows, idx, p, q);
    assert Survives(rows, idx[p]) && Survives(rows, idx[q]);
  }

  /** Without clones in the input the dedupe is idempotent. */
  lemma IdempotentWithoutClones(rows: seq<Row>)
    requires DistinctKeys(rows)
    ensures Dedupe(Dedupe(rows)) == Dedupe(rows)
  {
    IdempotentExactly(rows);
    forall i | 0 <= i < |rows| ensures Survives(rows, i) <==> !WindowRepeat(rows, i) {
      WithoutClones(rows, i);
    }
  }

  const FIRST := Row(1, User, Some("t1"), Some("ask"), None, Blank)
  const REPLY := Row(2, Assistant, None, Some("answer"), None, Blank)
  const AGAIN := Row(3, User, Some("t2"), Some("ask"), None, Blank)
  const FIRST_COPY := Row(4, User, Some("t1"), Some("ask"), None, Blank)

  /** A clone that moves past a reply can repeat a survivor there; a second run drops that one too. */
  lemma SecondRunDropsMore()
    ensures Dedupe([FIRST, REPLY, AGAIN, FIRST_COPY]) == [REPLY, AGAIN, FIRST_COPY]
    ensures Dedupe([REPLY, AGAIN, FIRST_COPY]) == [REPLY, AGAIN]
  {
    var one, three := [FIRST], [FIRST, REPLY, AGAIN];
    assert three[..2] == [FIRST, REPLY] && three[..2][..1] == one;
    ThreeKept();
    DedupeAppend(three, FIRST_COPY);
    assert three + [FIRST_COPY] == [FIRST, REPLY, AGAIN, FIRST_COPY];
    assert FindKey(one, CloneKey("t1", "ask")) == Some(0);
    assert FindKey(three, CloneKey("t1", "ask")) == Some(0);
    SecondRun();
  }

  lemma ThreeKept()
    ensures Dedupe([FIRST, REPLY, AGAIN]) == [FIRST, REPLY, AGAIN]
  {
    var one, two := [FIRST], [FIRST, REPLY];
    assert two[..1] == one;
    DedupeAppend([], FIRST);
    DedupeAppend(one, REPLY);
    assert Dedupe(two) == two by { assert one + [REPLY] == two; }
    DedupeAppend(two, AGAIN);
    assert two + [AGAIN] == [FIRST, REPLY, AGAIN];
    assert FindDuplicate(two, "ask") == None;
    assert FindKey(two, CloneKey("t2", "ask")) == None;
  }

  lemma BothKept()
    ensures Dedupe([REPLY, AGAIN]) == [REPLY, AGAIN]
  {
    var left := [REPLY];
    DedupeAppend([], REPLY);
    DedupeAppend(left, AGAIN);
    assert left + [AGAIN] == [REPLY, AGAIN];
    assert FindDuplicate(left, "ask") == None;
  }

  lemma SecondRun()
    ensures Dedupe([REPLY, AGAIN, FIRST_COPY]) == [REPLY, AGAIN]
  {
    var left, both := [REPLY], [REPLY, AGAIN];
    assert both[..1] == left;
    BothKept();
    DedupeAppend(both, FIRST_COPY);
    assert both + [FIRST_COPY] == [REPLY, AGAIN, FIRST_COPY];
    assert FindKey(left, CloneKey("t1", "ask")) == None;
    assert FindKey(both, CloneKey("t1", "ask")) == None;
    assert FindDuplicate(both, "ask") == Some(1);
  }

  lemma DedupeAppend(rows: seq<Row>, row: Row)
    ensures Dedupe(rows + [row]) == DedupeStep(Dedupe(rows), row)
    ensures rows == [] ==> Dedupe([row]) == [row]
  {
    assert (rows + [row])[..|rows|] == rows;
  }

  /** A reply stops a search unless it is an assistant's row without text and without calls. */
  lemma PayloadMeans(row: Row)
    ensures CarriesPayload(row)
       <==> row.role == Assistant
            && !(row.content in {None, Some("")} && row.calls in {Blank, NotAnArray, Array(0)})
  {
  }

  // ----- the reader ----------------------------------------------------------------------------------

  method FindDuplicateReplayedUserMessage(kept: seq<Row>, msg: Row) returns (at: Option<nat>)
    ensures at.Some? <==> IsRepeat(kept, msg)
    ensures at.Some? ==> at == FindDuplicate(kept, Canonical(msg))
  {
    if !msg.role.User? { return None; }
    var content := Canonical(msg);
    if content == "" { return None; }
    var i := |kept|;
    assert kept[..|kept|] == kept;
    while i > 0
      invariant 0 <= i <= |kept|
      invariant FindDuplicate(kept, content) == FindDuplicate(kept[..i], content)
    {
      i := i - 1;
      assert kept[..i + 1][..i] == kept[..i];
      if Says(kept[i], content) { return Some(i); }
      if CarriesPayload(kept[i]) { return None; }
    }
    return None;
  }

  method IndexOf(kept: seq<Row>, row: Row) returns (at: int)
    ensures -1 <= at < |kept|
    ensures at >= 0 ==> kept[at] == row
    ensures at < 0 ==> row !in kept
  {
    for i := 0 to |kept|
      invariant row !in kept[..i]
    {
      if kept[i] == row { return i; }
      assert kept[..i + 1] == kept[..i] + [kept[i]];
    }
    assert kept[..|kept|] == kept;
    return -1;
  }

  /** The clone index holds, for each key, the one kept row with that key. */
  predicate Indexes(exactClones: map<CloneKey, Row>, kept: seq<Row>) {
    && (forall i | 0 <= i < |kept| && KeyOf(kept[i]).Some? ::
          KeyOf(kept[i]).value in exactClones && exactClones[KeyOf(kept[i]).value] == kept[i])
    && (forall key | key in exactClones :: exactClones[key] in kept && KeyOf(exactClones[key]) == Some(key))
  }

  lemma UniqueKey(kept: seq<Row>, i: nat, key: CloneKey)
    requires DistinctKeys(kept) && i < |kept| && KeyOf(kept[i]) == Some(key)
    ensures FindKey(kept, key) == Some(i)
  {
    KeysApart(kept, i, FindKey(kept, key).value);
  }

  /** Which kept row the new one duplicates, and whether the new one takes its place. */
  method FindPrevious(kept: seq<Row>, exactClones: map<CloneKey, Row>, row: Row)
    returns (duplicateIndex: Option<nat>, preferCurrent: bool)
    requires DistinctKeys(kept) && Indexes(exactClones, kept) && row.role.User?
    ensures preferCurrent <==> IsClone(kept, row)
    ensures preferCurrent ==> duplicateIndex == FindKey(kept, KeyOf(row).value)
    ensures !preferCurrent ==> (duplicateIndex.Some? <==> IsRepeat(kept, row))
  {
    var cloneKey := KeyOf(row);
    duplicateIndex, preferCurrent := None, false;
    if cloneKey.Some? && cloneKey.value in exactClones {
      var idx := IndexOf(kept, exactClones[cloneKey.value]);
      if idx >= 0 {
        duplicateIndex, preferCurrent := Some(idx), true;
        UniqueKey(kept, idx, cloneKey.value);
      }
    }
    if duplicateIndex.None? {
      duplicateIndex := FindDuplicateReplayedUserMessage(kept, row);
    }
  }

  lemma IndexesExtended(exactClones: map<CloneKey, Row>, kept: seq<Row>, row: Row)
    requires Indexes(exactClones, kept)
    requires forall i | 0 <= i < |kept| :: KeyOf(kept[i]).Some? ==> KeyOf(kept[i]) != KeyOf(row)
    ensures KeyOf(row).Some? ==> Indexes(exactClones[KeyOf(row).value := row], kept + [row])
    ensures KeyOf(row).None? ==> Indexes(exactClones, kept + [row])
  {
    var after := kept + [row];
    assert after[|kept|] == row && row in after;
    assert forall i | 0 <= i < |kept| :: after[i] == kept[i];
    assert forall r | r in kept :: r in after;
  }

  lemma IndexesWithout(exactClones: map<CloneKey, Row>, kept: seq<Row>, p: nat)
    requires DistinctKeys(kept) && Indexes(exactClones, kept) && p < |kept| && KeyOf(kept[p]).Some?
    ensures var key := KeyOf(kept[p]).value;
            && Indexes(exactClones - {key}, RemoveAt(kept, p))
            && forall i | 0 <= i < |RemoveAt(kept, p)| :: KeyOf(RemoveAt(kept, p)[i]) != Some(key)
  {
    var key, rest := KeyOf(kept[p]).value, RemoveAt(kept, p);
    forall i | 0 <= i < |rest| ensures KeyOf(rest[i]) != Some(key) && rest[i] in kept {
      var q := if i < p then i else i + 1;
      assert rest[i] == kept[q];
      if KeyOf(kept[q]) == Some(key) { KeysApart(kept, p, q); }
    }
    assert kept == kept[..p] + [kept[p]] + kept[p + 1..];
    forall k | k in exactClones && k != key ensures exactClones[k] in rest {
      assert exactClones[k] != kept[p];
    }
  }

  lemma IndexesAfter(exactClones: map<CloneKey, Row>, kept: seq<Row>, row: Row)
    requires DistinctKeys(kept) && Indexes(exactClones, kept)
    ensures IsClone(kept, row) ==>
              Indexes(exactClones[KeyOf(row).value := row], DedupeStep(kept, row))
    ensures KeyOf(row).Some? && !IsClone(kept, row) ==>
              Indexes(exactClones[KeyOf(row).value := row], kept + [row])
    ensures KeyOf(row).None? ==> Indexes(exactClones, kept + [row])
  {
    if IsClone(kept, row) {
      var key := KeyOf(row).value;
      var p := FindKey(kept, key).value;
      IndexesWithout(exactClones, kept, p);
      IndexesExtended(exactClones - {key}, RemoveAt(kept, p), row);
      assert (exactClones - {key})[key := row] == exactClones[key := row];
    } else {
      IndexesExtended(exactClones, kept, row);
    }
  }

  method DedupeReplayedUserRows(mapped: seq<Row>) returns (kept: seq<Row>)
    ensures kept == Dedupe(mapped)
  {
    kept := [];
    var exactClones: map<CloneKey, Row> := map[];
    for n := 0 to |mapped|
      invariant kept == Dedupe(mapped[..n]) && DistinctKeys(kept) && Indexes(exactClones, kept)
    {
      assert mapped[..n + 1][..n] == mapped[..n];
      KeptRowsAreDistinct(mapped[..n + 1]);
      IndexesAfter(exactClones, kept, mapped[n]);
      kept, exactClones := Admit(kept, exactClones, mapped[n]);
    }
    assert mapped[..|mapped|] == mapped;
  }

  /** One pass of the loop. */
  method Admit(before: seq<Row>, clones: map<CloneKey, Row>, row: Row)
    returns (kept: seq<Row>, exactClones: map<CloneKey, Row>)
    requires DistinctKeys(before) && Indexes(clones, before)
    ensures kept == DedupeStep(before, row)
    ensures exactClones
         == if KeyOf(row).Some? && (IsClone(before, row) || !IsRepeat(before, row))
            then clones[KeyOf(row).value := row]
            else clones
  {
    kept, exactClones := before, clones;
    var cloneKey: Option<CloneKey> := None;
    if row.role.User? {
      cloneKey := KeyOf(row);
      var duplicateIndex, preferCurrent := FindPrevious(kept, exactClones, row);
      if duplicateIndex.Some? {
        if preferCurrent {
          kept := RemoveAt(kept, duplicateIndex.value);
        } else {
          return;
        }
      }
    }
    kept := kept + [row];
    if cloneKey.Some? { exactClones := exactClones[cloneKey.value := row]; }
  }
}
