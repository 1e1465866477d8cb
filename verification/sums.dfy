/** Sums over sequences of point indices, and the fact that such a sum does not
    depend on the order of the indices. This is what makes the per-worker
    reductions of the parallel variants independent of how the points were
    split among workers. */
module Sums {
  import opened Vectors

  /** The indices 0, 1, ..., n-1. */
  function Range(n: nat): (r: seq<nat>)
    ensures |r| == n
    ensures forall i :: 0 <= i < n ==> r[i] == i
  {
    seq(n, i => i)
  }

  /** The indices of all workers, worker by worker. */
  function Flatten(chunks: seq<seq<nat>>): seq<nat>
  {
    if |chunks| == 0 then [] else Flatten(chunks[..|chunks| - 1]) + chunks[|chunks| - 1]
  }

  /** A split of [0,n) among workers: every index is handled by exactly one
      worker, exactly once. */
  predicate IsPartition(chunks: seq<seq<nat>>, n: nat) {
    multiset(Flatten(chunks)) == multiset(Range(n))
  }

  /** Every index a worker handled appears in the concatenation. */
  lemma {:induction false} InFlatten(chunks: seq<seq<nat>>, w: nat, j: nat)
    requires w < |chunks| && j < |chunks[w]|
    ensures chunks[w][j] in multiset(Flatten(chunks))
    decreases |chunks|
  {
    var n := |chunks| - 1;
    if w < n {
      assert chunks[..n][w] == chunks[w];
      InFlatten(chunks[..n], w, j);
    }
  }

  /** The workers of a split of [0,n) handle only indices below n. */
  lemma PartitionInRange(chunks: seq<seq<nat>>, n: nat)
    requires IsPartition(chunks, n)
    ensures forall w, j :: 0 <= w < |chunks| && 0 <= j < |chunks[w]| ==> chunks[w][j] < n
  {
    forall w, j | 0 <= w < |chunks| && 0 <= j < |chunks[w]|
      ensures chunks[w][j] < n
    {
      InFlatten(chunks, w, j);
    }
  }

  function SumInt(s: seq<nat>, f: nat -> int): int
  {
    if |s| == 0 then 0 else SumInt(s[..|s| - 1], f) + f(s[|s| - 1])
  }

  function SumVec(s: seq<nat>, f: nat -> Vec, d: nat): (r: Vec)
    requires forall i :: |f(i)| == d
    ensures |r| == d
  {
    if |s| == 0 then Zeros(d) else Add(SumVec(s[..|s| - 1], f, d), f(s[|s| - 1]))
  }

  lemma {:induction false} SumIntAppend(s: seq<nat>, t: seq<nat>, f: nat -> int)
    ensures SumInt(s + t, f) == SumInt(s, f) + SumInt(t, f)
    decreases |t|
  {
    if |t| == 0 {
      assert s + t == s;
    } else {
      assert (s + t)[..|s + t| - 1] == s + t[..|t| - 1];
      SumIntAppend(s, t[..|t| - 1], f);
    }
  }

  lemma {:induction false} SumVecAppend(s: seq<nat>, t: seq<nat>, f: nat -> Vec, d: nat)
    requires forall i :: |f(i)| == d
    ensures SumVec(s + t, f, d) == Add(SumVec(s, f, d), SumVec(t, f, d))
    decreases |t|
  {
    if |t| == 0 {
      assert s + t == s;
      AddZeros(SumVec(s, f, d));
    } else {
      var t' := t[..|t| - 1];
      assert (s + t)[..|s + t| - 1] == s + t';
      SumVecAppend(s, t', f, d);
      AddAssoc(SumVec(s, f, d), SumVec(t', f, d), f(t[|t| - 1]));
    }
  }

  /** A sequence is the part before index `j`, its element at `j` and the
      part after. */
  lemma SplitAt<T>(t: seq<T>, j: nat)
    requires j < |t|
    ensures t == t[..j] + [t[j]] + t[j + 1..]
  {
  }

  /** One element between two runs adds its value to their sum. */
  lemma SumIntMiddle(a: seq<nat>, x: nat, b: seq<nat>, f: nat -> int)
    ensures SumInt(a + [x] + b, f) == SumInt(a + b, f) + f(x)
  {
    SumIntAppend(a + [x], b, f);
    SumIntAppend(a, [x], f);
    SumIntAppend(a, b, f);
    assert [x][..0] == [];
  }

  /** Taking one index out of the middle of the sequence. */
  lemma SumIntRemoveAt(t: seq<nat>, j: nat, f: nat -> int)
    requires j < |t|
    ensures SumInt(t, f) == SumInt(t[..j] + t[j + 1..], f) + f(t[j])
  {
    SplitAt(t, j);
    SumIntMiddle(t[..j], t[j], t[j + 1..], f);
  }

  lemma SumVecRemoveAt(t: seq<nat>, j: nat, f: nat -> Vec, d: nat)
    requires forall i :: |f(i)| == d
    requires j < |t|
    ensures SumVec(t, f, d) == Add(SumVec(t[..j] + t[j + 1..], f, d), f(t[j]))
  {
    var a, b, x := t[..j], t[j + 1..], t[j];
    SplitAt(t, j);
    SumVecAppend(a + [x], b, f, d);
    SumVecAppend(a, [x], f, d);
    SumVecAppend(a, b, f, d);
    assert [x][..0] == [];
    assert SumVec([x], f, d) == f(x) by {
      AddZeros(f(x));
    }
    var sa, sb := SumVec(a, f, d), SumVec(b, f, d);
    AddAssoc(sa, f(x), sb);
    AddComm(f(x), sb);
    AddAssoc(sa, sb, f(x));
  }

  /** Removing the element at `j` removes one copy of it from the multiset. */
  lemma MultisetRemoveAt<T>(t: seq<T>, j: nat)
    requires j < |t|
    ensures multiset(t) == multiset(t[..j] + t[j + 1..]) + multiset{t[j]}
  {
    assert t == t[..j] + [t[j]] + t[j + 1..];
  }

  /** Reordering the indices does not change an integer sum. */
  lemma {:induction false} SumIntPerm(s: seq<nat>, t: seq<nat>, f: nat -> int)
    requires multiset(s) == multiset(t)
    ensures SumInt(s, f) == SumInt(t, f)
    decreases |s|
  {
    if |s| == 0 {
      assert |multiset(t)| == 0;
    } else {
      var s', x := s[..|s| - 1], s[|s| - 1];
      MultisetRemoveAt(s, |s| - 1);
      assert s[..|s| - 1] + s[|s|..] == s';
      assert x in multiset(t);
      var j :| 0 <= j < |t| && t[j] == x;
      MultisetRemoveAt(t, j);
      assert multiset(s') == multiset(s) - multiset{x};
      assert multiset(t[..j] + t[j + 1..]) == multiset(t) - multiset{x};
      SumIntRemoveAt(t, j, f);
      SumIntPerm(s', t[..j] + t[j + 1..], f);
    }
  }

  /** Reordering the indices does not change a vector sum. */
  lemma {:induction false} SumVecPerm(s: seq<nat>, t: seq<nat>, f: nat -> Vec, d: nat)
    requires forall i :: |f(i)| == d
    requires multiset(s) == multiset(t)
    ensures SumVec(s, f, d) == SumVec(t, f, d)
    decreases |s|
  {
    if |s| == 0 {
      assert |multiset(t)| == 0;
    } else {
      var s', x := s[..|s| - 1], s[|s| - 1];
      MultisetRemoveAt(s, |s| - 1);
      assert s[..|s| - 1] + s[|s|..] == s';
      assert x in multiset(t);
      var j :| 0 <= j < |t| && t[j] == x;
      MultisetRemoveAt(t, j);
      assert multiset(s') == multiset(s) - multiset{x};
      assert multiset(t[..j] + t[j + 1..]) == multiset(t) - multiset{x};
      SumVecRemoveAt(t, j, f, d);
      SumVecPerm(s', t[..j] + t[j + 1..], f, d);
    }
  }

  lemma {:induction false} SumIntSameOn(s: seq<nat>, f: nat -> int, g: nat -> int)
    requires forall j :: 0 <= j < |s| ==> f(s[j]) == g(s[j])
    ensures SumInt(s, f) == SumInt(s, g)
    decreases |s|
  {
    if |s| > 0 {
      SumIntSameOn(s[..|s| - 1], f, g);
    }
  }

  lemma {:induction false} SumVecSameOn(s: seq<nat>, f: nat -> Vec, g: nat -> Vec, d: nat)
    requires forall i :: |f(i)| == d
    requires forall i :: |g(i)| == d
    requires forall j :: 0 <= j < |s| ==> f(s[j]) == g(s[j])
    ensures SumVec(s, f, d) == SumVec(s, g, d)
    decreases |s|
  {
    if |s| > 0 {
      SumVecSameOn(s[..|s| - 1], f, g, d);
    }
  }
}
