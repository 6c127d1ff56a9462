/** Small text and option vocabulary shared by the components. */
module Text {

  datatype Option<+T> = None | Some(value: T)

  /** The characters removed by the string trim of ECMAScript. */
  predicate IsSpace(c: char) {
    || '\U{0009}' <= c <= '\U{000D}'
    || c == ' ' || c == '\U{00A0}' || c == '\U{1680}' || c == '\U{FEFF}'
    || '\U{2000}' <= c <= '\U{200A}'
    || c == '\U{2028}' || c == '\U{2029}' || c == '\U{202F}' || c == '\U{205F}' || c == '\U{3000}'
  }

  function TrimStart(s: string): string {
    if s != "" && IsSpace(s[0]) then TrimStart(s[1..]) else s
  }

  function TrimEnd(s: string): string {
    if s != "" && IsSpace(s[|s| - 1]) then TrimEnd(s[..|s| - 1]) else s
  }

  function Trim(s: string): string {
    TrimEnd(TrimStart(s))
  }

  /** Joins two texts with a separator; an absent (empty) side leaves the other alone. */
  function Join(sep: string, a: string, b: string): string {
    if b == "" then a else if a == "" then b else a + sep + b
  }

  lemma JoinAssociative(sep: string, a: string, b: string, c: string)
    ensures Join(sep, Join(sep, a, b), c) == Join(sep, a, Join(sep, b, c))
  {
    if a != "" && b != "" && c != "" {
      assert (a + sep + b) + sep + c == a + sep + (b + sep + c);
    }
  }

  function Flatten<T>(groups: seq<seq<T>>): seq<T> {
    if groups == [] then [] else Flatten(groups[..|groups| - 1]) + groups[|groups| - 1]
  }

  lemma FlattenAppend<T>(groups: seq<seq<T>>, g: seq<T>)
    ensures Flatten(groups + [g]) == Flatten(groups) + g
  {
    assert (groups + [g])[..|groups|] == groups;
  }

  lemma {:induction false} TrimEndMeans(s: string)
    ensures |TrimEnd(s)| <= |s| && TrimEnd(s) == s[..|TrimEnd(s)|]
    ensures forall i | |TrimEnd(s)| <= i < |s| :: IsSpace(s[i])
    ensures TrimEnd(s) != "" ==> !IsSpace(TrimEnd(s)[|TrimEnd(s)| - 1])
  {
    if s == "" {
    } else {
      TrimEndMeans(s[..|s| - 1]);
    }
  }

  lemma {:induction false} TrimStartMeans(s: string)
    ensures |TrimStart(s)| <= |s| && TrimStart(s) == s[|s| - |TrimStart(s)|..]
    ensures forall i | 0 <= i < |s| - |TrimStart(s)| :: IsSpace(s[i])
    ensures TrimStart(s) != "" ==> !IsSpace(TrimStart(s)[0])
  {
    if s == "" {
    } else {
      TrimStartMeans(s[1..]);
    }
  }

  /** Trimming takes blanks off both ends and nothing else, and leaves none there. */
  lemma TrimMeans(s: string) returns (from: nat, to: nat)
    ensures from <= to <= |s| && Trim(s) == s[from..to]
    ensures forall i | 0 <= i < |s| && !(from <= i < to) :: IsSpace(s[i])
    ensures Trim(s) != "" ==> !IsSpace(Trim(s)[0]) && !IsSpace(Trim(s)[|Trim(s)| - 1])
  {
    var mid := TrimStart(s);
    TrimStartMeans(s);
    TrimEndMeans(mid);
    from := |s| - |mid|;
    to := from + |Trim(s)|;
    forall i | 0 <= i < |s| && !(from <= i < to) ensures IsSpace(s[i]) {
      if i >= to { assert s[i] == mid[i - from]; }
    }
  }
}
