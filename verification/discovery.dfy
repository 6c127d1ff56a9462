/**
 The session header reader (src/pi_gateway/discovery.ts): a bounded, chunked scan that returns
 what one pass over the lines of the file would, however the reads split it.
*/
module Discovery {
  import opened Text

  datatype Header = Header(id: string, cwd: Option<string>)

  /** What a line decides: nothing, that the file has no header, or its header. */
  datatype Verdict = Skip | Reject | Found(header: Header)

  type Parser = string -> Verdict

  const CHUNK := 4096
  const BOUND := 1024 * 1024

  // ----- one-shot scan ------------------------------------------------------------------

  function IndexOf(text: string, c: char): (at: Option<nat>)
    ensures at.Some? ==> at.value < |text| && text[at.value] == c && c !in text[..at.value]
    ensures at.None? ==> c !in text
  {
    if text == "" then None
    else if text[0] == c then Some(0)
    else
      var rest := IndexOf(text[1..], c);
      assert text == [text[0]] + text[1..];
      if rest.Some? then
        assert text[..rest.value + 1] == [text[0]] + text[1..][..rest.value];
        Some(rest.value + 1)
      else None
  }

  /** The lines ended by a newline, and the fragment after the last one. */
  function Lines(text: string): (seq<string>, string)
    decreases |text|
  {
    var at := IndexOf(text, '\n');
    if at.None? then ([], text) else
    var (more, fragment) := Lines(text[at.value + 1..]);
    ([text[..at.value]] + more, fragment)
  }

  /** The first line that decides. */
  function FirstVerdict(lines: seq<string>, parse: Parser): Verdict {
    if lines == [] then Skip
    else if parse(lines[0]) != Skip then parse(lines[0])
    else FirstVerdict(lines[1..], parse)
  }

  function Decided(verdict: Verdict): Option<Header> {
    if verdict.Found? then Some(verdict.header) else None
  }

  /**
   The header of a file: the first deciding line among the complete lines of its first mebibyte;
   the fragment after them counts only when the file ends before that bound.
  */
  function HeaderOf(file: string, parse: Parser): Option<Header> {
    var (lines, fragment) := Lines(if |file| < BOUND then file else file[..BOUND]);
    var verdict := FirstVerdict(lines, parse);
    if verdict != Skip then Decided(verdict)
    else if |file| < BOUND then Decided(parse(fragment))
    else None
  }

  /** The first line of a file that decides, among the complete lines of its first mebibyte, decides its header. */
  lemma {:induction false} FirstLineDecides(lines: seq<string>, parse: Parser, n: nat)
    requires n < |lines| && parse(lines[n]) != Skip && forall i | 0 <= i < n :: parse(lines[i]) == Skip
    ensures FirstVerdict(lines, parse) == parse(lines[n])
  {
    if n == 0 {
    } else {
      FirstLineDecides(lines[1..], parse, n - 1);
    }
  }

  lemma {:induction false} NoLineDecides(lines: seq<string>, parse: Parser)
    requires forall line | line in lines :: parse(line) == Skip
    ensures FirstVerdict(lines, parse) == Skip
  {
    if lines == [] {
    } else {
      assert lines[0] in lines && forall line | line in lines[1..] :: line in lines;
      NoLineDecides(lines[1..], parse);
    }
  }

  /** A deciding line gives its header, or none if it rejects the file; else the fragment at the end may. */
  lemma HeaderMeans(file: string, parse: Parser, n: nat)
    ensures var (lines, fragment) := Lines(if |file| < 1_048_576 then file else file[..1_048_576]);
            && (n < |lines| && parse(lines[n]) != Skip && (forall i | 0 <= i < n :: parse(lines[i]) == Skip) ==>
                  HeaderOf(file, parse) == if parse(lines[n]).Found? then Some(parse(lines[n]).header) else None)
            && ((forall line | line in lines :: parse(line) == Skip) ==>
                  HeaderOf(file, parse) == if |file| < 1_048_576 && parse(fragment).Found?
                                           then Some(parse(fragment).header) else None)
  {
    var (lines, fragment) := Lines(if |file| < 1_048_576 then file else file[..1_048_576]);
    if n < |lines| && parse(lines[n]) != Skip && (forall i | 0 <= i < n :: parse(lines[i]) == Skip) {
      FirstLineDecides(lines, parse, n);
    }
    if forall line | line in lines :: parse(line) == Skip {
      NoLineDecides(lines, parse);
    }
  }

  function Unlines(lines: seq<string>): string {
    if lines == [] then "" else lines[0] + "\n" + Unlines(lines[1..])
  }

  /** The split is the only one: its parts hold no newline and give the text back. */
  lemma LinesRoundTrip(text: string)
    ensures Unlines(Lines(text).0) + Lines(text).1 == text
    ensures '\n' !in Lines(text).1 && forall line | line in Lines(text).0 :: '\n' !in line
  {
    LinesGiveTheText(text);
    LinesHoldNoNewline(text);
  }

  lemma {:induction false} LinesGiveTheText(text: string)
    ensures Unlines(Lines(text).0) + Lines(text).1 == text
    decreases |text|
  {
    var at := IndexOf(text, '\n');
    if at.None? {
    } else {
      var head, rest := text[..at.value], text[at.value + 1..];
      var (more, fragment) := Lines(rest);
      LinesGiveTheText(rest);
      UnlinesCons(head, more);
      Glued(head, Unlines(more), fragment);
      Cut(text, at.value);
    }
  }

  lemma Glued(head: string, tail: string, fragment: string)
    ensures head + "\n" + tail + fragment == head + "\n" + (tail + fragment)
  {
  }

  lemma Cut(text: string, at: nat)
    requires at < |text| && text[at] == '\n'
    ensures text == text[..at] + "\n" + text[at + 1..]
  {
  }

  lemma UnlinesCons(head: string, lines: seq<string>)
    ensures Unlines([head] + lines) == head + "\n" + Unlines(lines)
  {
    assert ([head] + lines)[1..] == lines;
  }

  lemma {:induction false} LinesHoldNoNewline(text: string)
    ensures '\n' !in Lines(text).1 && forall line | line in Lines(text).0 :: '\n' !in line
    decreases |text|
  {
    var at := IndexOf(text, '\n');
    if at.None? {
    } else {
      LinesHoldNoNewline(text[at.value + 1..]);
    }
  }

  /** Lines of a text do not depend on where it is cut. */
  lemma {:induction false} LinesConcat(a: string, b: string)
    ensures Lines(a + b).0 == Lines(a).0 + Lines(Lines(a).1 + b).0
    ensures Lines(a + b).1 == Lines(Lines(a).1 + b).1
    decreases |a|
  {
    var at := IndexOf(a, '\n');
    if at.None? {
      assert Lines(a) == ([], a);
      assert [] + Lines(a + b).0 == Lines(a + b).0;
    } else {
      var head, rest := a[..at.value], a[at.value + 1..];
      IndexInPrefix(a, b);
      CutOfConcat(a, b, at.value);
      LinesCut(a, at.value);
      LinesCut(a + b, at.value);
      LinesConcat(rest, b);
      var (more, fragment) := Lines(rest);
      Associates([head], more, Lines(fragment + b).0);
      assert Lines(a).0 == [head] + more && Lines(a).1 == fragment;
    }
  }

  lemma CutOfConcat(a: string, b: string, at: nat)
    requires at < |a|
    ensures (a + b)[..at] == a[..at] && (a + b)[at + 1..] == a[at + 1..] + b
  {
  }

  lemma Associates(a: seq<string>, b: seq<string>, c: seq<string>)
    ensures a + (b + c) == a + b + c
  {
  }

  lemma LinesCut(text: string, at: nat)
    requires IndexOf(text, '\n') == Some(at)
    ensures Lines(text).0 == [text[..at]] + Lines(text[at + 1..]).0 && Lines(text).1 == Lines(text[at + 1..]).1
  {
  }

  lemma {:induction false} IndexInPrefix(a: string, b: string)
    requires '\n' in a
    ensures IndexOf(a + b, '\n') == IndexOf(a, '\n')
  {
    if a[0] != '\n' {
      assert (a + b)[1..] == a[1..] + b;
      assert a == [a[0]] + a[1..];
      IndexInPrefix(a[1..], b);
    }
  }

  lemma {:induction false} VerdictConcat(a: seq<string>, b: seq<string>, parse: Parser)
    ensures FirstVerdict(a + b, parse) == if FirstVerdict(a, parse) != Skip then FirstVerdict(a, parse) else FirstVerdict(b, parse)
  {
    if a == [] {
      assert a + b == b;
    } else {
      assert (a + b)[1..] == a[1..] + b;
      VerdictConcat(a[1..], b, parse);
    }
  }

  // ----- the reader -------------------------------------------------------------------------

  /** An open file: each read returns some of what is left, or fails. */
  class Reader {
    const contents: string
    var position: nat
    /** How many bytes a read returns when asked for `n` with `left` bytes left; none when it fails. */
    const serve: (nat, nat, nat) -> Option<nat>

    ghost predicate Valid()
      reads this
    {
      position <= |contents|
    }

    constructor (contents: string, serve: (nat, nat, nat) -> Option<nat>)
      ensures this.contents == contents && this.serve == serve && position == 0 && Valid()
    {
      this.contents, this.serve := contents, serve;
      position := 0;
    }

    /** A read returns at least one byte unless the file is at its end, and at most what was asked. */
    method Read(toRead: nat) returns (chunk: Option<string>)
      requires Valid() && toRead > 0
      modifies this
      ensures Valid() && old(position) <= position
      ensures chunk.None? ==> position == old(position)
      ensures chunk.Some? ==> position <= old(position) + toRead && chunk.value == contents[old(position)..position]
      ensures chunk.Some? ==> (|chunk.value| == 0 <==> old(position) == |contents|)
    {
      var left := |contents| - position;
      var n := serve(position, toRead, left);
      if n.None? { return None; }
      var size := if n.value < 1 then 1 else n.value;
      size := if size > toRead then toRead else size;
      size := if size > left then left else size;
      chunk := Some(contents[position..position + size]);
      position := position + size;
    }
  }

  /** Part of the way through a file: the lines seen decided nothing, `pending` is still to split. */
  predicate Scanned(text: string, seen: seq<string>, pending: string, parse: Parser) {
    && FirstVerdict(seen, parse) == Skip
    && Lines(text).0 == seen + Lines(pending).0
    && Lines(text).1 == Lines(pending).1
  }

  lemma SkipsLine(text: string, seen: seq<string>, pending: string, parse: Parser, at: nat)
    requires Scanned(text, seen, pending, parse) && IndexOf(pending, '\n') == Some(at)
    requires parse(pending[..at]) == Skip
    ensures Scanned(text, seen + [pending[..at]], pending[at + 1..], parse)
  {
    VerdictConcat(seen, [pending[..at]], parse);
    var rest := Lines(pending[at + 1..]).0;
    assert seen + [pending[..at]] + rest == seen + ([pending[..at]] + rest);
  }

  lemma ReadsOn(text: string, seen: seq<string>, pending: string, parse: Parser, chunk: string)
    requires Scanned(text, seen, pending, parse) && IndexOf(pending, '\n').None?
    ensures Scanned(text + chunk, seen, pending + chunk, parse)
  {
    LinesConcat(text, chunk);
    assert Lines(pending) == ([], pending);
    assert seen + [] == seen;
  }

  /** A deciding line found early decides the whole file. */
  lemma Decides(file: string, scanned: nat, seen: seq<string>, pending: string, parse: Parser, at: nat)
    requires scanned <= |file| && scanned <= BOUND && Scanned(file[..scanned], seen, pending, parse)
    requires IndexOf(pending, '\n') == Some(at) && parse(pending[..at]) != Skip
    ensures HeaderOf(file, parse) == Decided(parse(pending[..at]))
  {
    var text := if |file| < BOUND then file else file[..BOUND];
    var a, b := file[..scanned], text[scanned..];
    assert text == a + b;
    LinesConcat(a, b);
    VerdictConcat(Lines(a).0, Lines(Lines(a).1 + b).0, parse);
    VerdictConcat(seen, Lines(pending).0, parse);
  }

  lemma Exhausted(file: string, seen: seq<string>, pending: string, parse: Parser)
    requires BOUND <= |file| && IndexOf(pending, '\n').None? && Scanned(file[..BOUND], seen, pending, parse)
    ensures HeaderOf(file, parse) == None
  {
    assert seen + Lines(pending).0 == seen;
  }

  lemma Ended(file: string, seen: seq<string>, pending: string, parse: Parser)
    requires |file| < BOUND && IndexOf(pending, '\n').None? && Scanned(file, seen, pending, parse)
    ensures HeaderOf(file, parse) == Decided(parse(pending))
  {
    assert seen + Lines(pending).0 == seen;
  }

  /**
   The bounded header probe. A read that fails gives no header; otherwise the answer is that of
   the one-shot scan, for every way the reads split the file.
  */
  method ReadDiscoveryHeader(file: Reader, parse: Parser) returns (header: Option<Header>, ghost failed: bool)
    requires file.Valid() && file.position == 0
    modifies file
    ensures failed ==> header == None
    ensures !failed ==> header == HeaderOf(file.contents, parse)
  {
    var pending, scannedBytes := "", 0;
    ghost var seen: seq<string> := [];
    while true
      invariant file.Valid() && scannedBytes == file.position <= BOUND
      invariant Scanned(file.contents[..scannedBytes], seen, pending, parse)
      decreases BOUND - scannedBytes, |pending|
    {
      var newlineAt := IndexOf(pending, '\n');
      if newlineAt.Some? {
        var candidate := parse(pending[..newlineAt.value]);
        if candidate != Skip {
          Decides(file.contents, scannedBytes, seen, pending, parse, newlineAt.value);
          return Decided(candidate), false;
        }
        SkipsLine(file.contents[..scannedBytes], seen, pending, parse, newlineAt.value);
        seen := seen + [pending[..newlineAt.value]];
        pending := pending[newlineAt.value + 1..];
        continue;
      }
      if scannedBytes >= BOUND {
        Exhausted(file.contents, seen, pending, parse);
        return None, false;
      }
      var chunk := file.Read(if CHUNK < BOUND - scannedBytes then CHUNK else BOUND - scannedBytes);
      if chunk.None? {
        return None, true;
      }
      assert file.contents[..file.position] == file.contents[..scannedBytes] + chunk.value;
      if |chunk.value| == 0 {
        assert file.contents[..scannedBytes] == file.contents;
        Ended(file.contents, seen, pending, parse);
        return Decided(parse(pending)), false;
      }
      ReadsOn(file.contents[..scannedBytes], seen, pending, parse, chunk.value);
      scannedBytes := scannedBytes + |chunk.value|;
      pending := pending + chunk.value;
    }
  }
}
