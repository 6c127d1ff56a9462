/** Ordered and duplicate-free lists, order-preserving sublists, and where they can be cut. */
module Sequences {

  predicate Increasing(s: seq<nat>) {
    forall i, j | 0 <= i < j < |s| :: s[i] < s[j]
  }

  predicate NoDuplicates<E(==)>(s: seq<E>) {
    forall i, j | 0 <= i < j < |s| :: s[i] != s[j]
  }

  function Without<E(==)>(queue: seq<E>, e: E): (r: seq<E>)
    ensures forall x | x in r :: x in queue
    ensures forall x | x in queue && x != e :: x in r
  {
    if queue == [] then [] else if queue[0] == e then queue[1..] else [queue[0]] + Without(queue[1..], e)
  }

  lemma DistinctTail<E>(queue: seq<E>)
    requires queue != []
    ensures NoDuplicates(queue) <==> queue[0] !in queue[1..] && NoDuplicates(queue[1..])
  {
    assert forall i | 0 <= i < |queue| - 1 :: queue[1..][i] == queue[i + 1];
  }

  lemma {:induction false} WithoutDistinct<E>(queue: seq<E>, e: E)
    requires NoDuplicates(queue)
    ensures NoDuplicates(Without(queue, e)) && e !in Without(queue, e)
  {
    if queue == [] {
    } else {
      DistinctTail(queue);
      WithoutDistinct(queue[1..], e);
      if queue[0] != e {
        var r := [queue[0]] + Without(queue[1..], e);
        assert r[1..] == Without(queue[1..], e);
        DistinctTail(r);
      }
    }
  }

  lemma {:induction false} WithoutAt<E>(queue: seq<E>, e: E, i: nat)
    requires i <= |queue| && e !in queue[..i] && (i < |queue| ==> queue[i] == e)
    ensures Without(queue, e) == if i < |queue| then queue[..i] + queue[i + 1..] else queue
  {
    if queue == [] || i == 0 {
    } else {
      assert queue[..i][0] == queue[0];
      assert queue[1..][..i - 1] == queue[..i][1..];
      WithoutAt(queue[1..], e, i - 1);
      if i < |queue| {
        assert queue[..i] == [queue[0]] + queue[1..][..i - 1];
        assert queue[1..][i..] == queue[i + 1..];
      }
    }
  }

  predicate Subsequence<T(==)>(a: seq<T>, b: seq<T>) {
    || a == []
    || (b != [] && (|| (a[|a| - 1] == b[|b| - 1] && Subsequence(a[..|a| - 1], b[..|b| - 1]))
                    || Subsequence(a, b[..|b| - 1])))
  }

  lemma {:induction false} SubsequenceRefl<T>(a: seq<T>)
    ensures Subsequence(a, a)
  {
    if a == [] {
    } else {
      SubsequenceRefl(a[..|a| - 1]);
    }
  }

  lemma {:induction false} SubsequenceTrans<T>(a: seq<T>, b: seq<T>, c: seq<T>)
    requires Subsequence(a, b) && Subsequence(b, c)
    ensures Subsequence(a, c)
    decreases |c|
  {
    if a == [] {
    } else {
      if b[|b| - 1] == c[|c| - 1] && Subsequence(b[..|b| - 1], c[..|c| - 1]) {
        if a[|a| - 1] == b[|b| - 1] && Subsequence(a[..|a| - 1], b[..|b| - 1]) {
          SubsequenceTrans(a[..|a| - 1], b[..|b| - 1], c[..|c| - 1]);
        } else {
          SubsequenceTrans(a, b[..|b| - 1], c[..|c| - 1]);
        }
      } else {
        SubsequenceTrans(a, b, c[..|c| - 1]);
      }
    }
  }

  /** A subsequence can be cut wherever the longer list is cut. */
  lemma {:induction false} SubsequenceCut<T>(a: seq<T>, b: seq<T>, k: nat) returns (c: nat)
    requires Subsequence(a, b) && k <= |b|
    ensures c <= |a|
    ensures forall i | 0 <= i < c :: a[i] in b[..k]
    ensures forall i | c <= i < |a| :: a[i] in b[k..]
    decreases |b|
  {
    if a == [] { return 0; }
    var n, m := |a| - 1, |b| - 1;
    if a[n] == b[m] && Subsequence(a[..n], b[..m]) {
      if k <= m {
        c := SubsequenceCut(a[..n], b[..m], k);
        assert b[..m][..k] == b[..k];
        assert b[k..] == b[..m][k..] + [b[m]];
      } else {
        c := SubsequenceCut(a[..n], b[..m], m);
        c := |a|;
        assert b[..k] == b && b[..m][..m] == b[..m] && b[..m][m..] == [];
        assert forall i | 0 <= i < n :: a[i] == a[..n][i];
      }
    } else if k <= m {
      c := SubsequenceCut(a, b[..m], k);
      assert b[..m][..k] == b[..k];
      assert b[k..] == b[..m][k..] + [b[m]];
    } else {
      c := SubsequenceCut(a, b[..m], m);
      assert b[..m][..m] == b[..m] && b[..m][m..] == [] && b[..k] == b;
    }
  }

  lemma SubsequenceExtend<T>(a: seq<T>, b: seq<T>, x: T)
    requires Subsequence(a, b)
    ensures Subsequence(a, b + [x]) && Subsequence(a + [x], b + [x])
  {
    assert (a + [x])[..|a|] == a && (b + [x])[..|b|] == b;
  }
}
