/** Who belongs to a cluster, in the forms the programs keep it: the list of
    member indices (serial), the set of member ids (serial-fast), and the
    per-point contributions that the parallel programs add up in any order. */
module Membership {
  import opened Vectors
  import opened Sums
  import opened Lloyd

  /** The indices of the points assigned to cluster `c`, in increasing order. */
  function MembersOf(a: seq<int>, c: int): (r: seq<nat>)
    ensures |r| <= |a|
    ensures forall j :: 0 <= j < |r| ==> r[j] < |a| && a[r[j]] == c
  {
    if |a| == 0 then []
    else
      var n := |a| - 1;
      MembersOf(a[..n], c) + (if a[n] == c then [n] else [])
  }

  /** The ids of the points assigned to cluster `c`. */
  function MemberSet(a: seq<int>, c: int): (r: set<int>)
    ensures forall x :: x in r <==> 0 <= x < |a| && a[x] == c
  {
    set x: int | 0 <= x < |a| && a[x] == c
  }

  /** The member sets of clusters 0..k-1. */
  function MemberSets(a: seq<int>, k: nat): (r: seq<set<int>>)
    ensures |r| == k && forall c :: 0 <= c < k ==> r[c] == MemberSet(a, c)
  {
    if k == 0 then [] else MemberSets(a, k - 1) + [MemberSet(a, k - 1)]
  }

  /** Every point assigned to `c` is listed exactly once and nothing else is. */
  lemma {:induction false} MembersOfCount(a: seq<int>, c: int, x: nat)
    ensures multiset(MembersOf(a, c))[x] == if x < |a| && a[x] == c then 1 else 0
    decreases |a|
  {
    if |a| > 0 {
      MembersOfCount(a[..|a| - 1], c, x);
      MembersOfCountStep(a, c, x);
    }
  }

  /** The last point of `a` is listed once more exactly when it is a member. */
  lemma MembersOfCountStep(a: seq<int>, c: int, x: nat)
    requires |a| > 0
    requires var p := a[..|a| - 1];
      multiset(MembersOf(p, c))[x] == if x < |p| && p[x] == c then 1 else 0
    ensures multiset(MembersOf(a, c))[x] == if x < |a| && a[x] == c then 1 else 0
  {
    var n := |a| - 1;
    var m: seq<nat>, tail: seq<nat> := MembersOf(a[..n], c), if a[n] == c then [n] else [];
    assert MembersOf(a, c) == m + tail;
    assert multiset(m + tail)[x] == multiset(m)[x] + multiset(tail)[x];
  }

  /** The list of members is as long as the cluster is large. */
  lemma {:induction false} MembersOfSize(a: seq<int>, c: int)
    ensures |MembersOf(a, c)| == CountOf(a, c)
    decreases |a|
  {
    if |a| > 0 {
      MembersOfSize(a[..|a| - 1], c);
    }
  }

  /** Summing the values of the listed members gives the member total. */
  lemma {:induction false} MembersOfSum(vals: seq<Vec>, a: seq<int>, c: int, d: nat, f: nat -> Vec)
    requires |vals| == |a| && Dims(vals, d)
    requires forall i :: |f(i)| == d
    requires forall i :: 0 <= i < |a| ==> f(i) == vals[i]
    ensures SumVec(MembersOf(a, c), f, d) == MemberSum(vals, a, c, d)
    decreases |a|
  {
    if |a| > 0 {
      var n := |a| - 1;
      MembersOfSum(vals[..n], a[..n], c, d, f);
      MembersOfSumStep(vals, a, c, d, f);
    }
  }

  /** The last point of `a` adds its values to the listed members' total
      exactly when it is a member. */
  lemma MembersOfSumStep(vals: seq<Vec>, a: seq<int>, c: int, d: nat, f: nat -> Vec)
    requires |vals| == |a| > 0 && Dims(vals, d)
    requires forall i :: |f(i)| == d
    requires forall i :: 0 <= i < |a| ==> f(i) == vals[i]
    requires SumVec(MembersOf(a[..|a| - 1], c), f, d) == MemberSum(vals[..|a| - 1], a[..|a| - 1], c, d)
    ensures SumVec(MembersOf(a, c), f, d) == MemberSum(vals, a, c, d)
  {
    var n := |a| - 1;
    var m := MembersOf(a[..n], c);
    var total := SumVec(m, f, d);
    if a[n] == c {
      assert MembersOf(a, c) == m + [n];
      assert (m + [n])[..|m|] == m;
      assert SumVec(m + [n], f, d) == Add(total, f(n));
    } else {
      assert MembersOf(a, c) == m;
      AddZeros(total);
    }
  }

  /** Moving point `i` to cluster `v` takes it out of every other cluster's
      set and puts it into the set of `v`. */
  lemma MemberSetUpdate(a: seq<int>, i: nat, v: int, c: int)
    requires i < |a|
    ensures MemberSet(a[i := v], c) == if v == c then MemberSet(a, c) + {i} else MemberSet(a, c) - {i}
  {
  }

  /** Moving point `i` into cluster `v` adds one copy of `i` to the
      members of `v`. */
  lemma MembersOfJoin(a: seq<int>, i: nat, v: int)
    requires i < |a| && a[i] != v
    ensures multiset(MembersOf(a[i := v], v)) == multiset(MembersOf(a, v)) + multiset{i}
  {
    var lhs, rhs := multiset(MembersOf(a[i := v], v)), multiset(MembersOf(a, v)) + multiset{i};
    forall x: nat
      ensures lhs[x] == rhs[x]
    {
      MembersOfCount(a[i := v], v, x);
      MembersOfCount(a, v, x);
    }
    assert lhs == rhs;
  }

  /** Moving point `i` out of cluster `a[i]` takes its copy out of the
      members of `a[i]`. */
  lemma MembersOfLeave(a: seq<int>, i: nat, v: int)
    requires i < |a| && a[i] != v
    ensures multiset(MembersOf(a[i := v], a[i])) == multiset(MembersOf(a, a[i])) - multiset{i}
  {
    var lhs, rhs := multiset(MembersOf(a[i := v], a[i])), multiset(MembersOf(a, a[i])) - multiset{i};
    forall x: nat
      ensures lhs[x] == rhs[x]
    {
      MembersOfLeaveAt(a, i, v, x);
    }
    assert lhs == rhs;
  }

  /** MembersOfLeave, one index at a time. */
  lemma MembersOfLeaveAt(a: seq<int>, i: nat, v: int, x: nat)
    requires i < |a| && a[i] != v
    ensures multiset(MembersOf(a[i := v], a[i]))[x] == (multiset(MembersOf(a, a[i])) - multiset{i})[x]
  {
    MembersOfCount(a[i := v], a[i], x);
    MembersOfCount(a, a[i], x);
  }

  /** Moving point `i` leaves the members of every other cluster alone. */
  lemma MembersOfOther(a: seq<int>, i: nat, v: int, c: int)
    requires i < |a| && a[i] != c && v != c
    ensures multiset(MembersOf(a[i := v], c)) == multiset(MembersOf(a, c))
  {
    var lhs, rhs := multiset(MembersOf(a[i := v], c)), multiset(MembersOf(a, c));
    forall x: nat
      ensures lhs[x] == rhs[x]
    {
      MembersOfOtherAt(a, i, v, c, x);
    }
    assert lhs == rhs;
  }

  /** MembersOfOther, one index at a time. */
  lemma MembersOfOtherAt(a: seq<int>, i: nat, v: int, c: int, x: nat)
    requires i < |a| && a[i] != c && v != c
    ensures multiset(MembersOf(a[i := v], c))[x] == multiset(MembersOf(a, c))[x]
  {
    MembersOfCount(a[i := v], c, x);
    MembersOfCount(a, c, x);
  }

  /** The set of members is as large as the cluster. */
  lemma {:induction false} MemberSetSize(a: seq<int>, c: int)
    ensures |MemberSet(a, c)| == CountOf(a, c)
    decreases |a|
  {
    if |a| > 0 {
      var n := |a| - 1;
      MemberSetSize(a[..n], c);
      if a[n] == c {
        assert MemberSet(a, c) == MemberSet(a[..n], c) + {n};
      } else {
        assert MemberSet(a, c) == MemberSet(a[..n], c);
      }
    }
  }

  /** The values point `i` contributes to cluster `c`: its own values when it
      is assigned to `c`, zeros otherwise. */
  function Contribution(vals: seq<Vec>, a: seq<int>, c: int, d: nat, i: nat): (r: Vec)
    requires Dims(vals, d)
    ensures |r| == d
    ensures i < |vals| && i < |a| && a[i] == c ==> r == vals[i]
  {
    if i < |vals| && i < |a| && a[i] == c then vals[i] else Zeros(d)
  }

  /** The change point `i` makes to the size of cluster `c` when it moves from
      `prev[i]` to `near[i]`: nothing when it stays, -1 for the cluster it
      leaves (none when it was unassigned) and +1 for the one it joins. */
  function Delta(prev: seq<int>, near: seq<nat>, c: int, i: nat): (r: int)
    ensures -1 <= r <= 1
    ensures i < |prev| && i < |near| && prev[i] == near[i] ==> r == 0
  {
    if i < |prev| && i < |near| && prev[i] != near[i] then
      (if near[i] == c then 1 else 0) - (if prev[i] != -1 && prev[i] == c then 1 else 0)
    else 0
  }

  /** The contributions to cluster `c`, as one value. */
  function Contributions(vals: seq<Vec>, a: seq<int>, c: int, d: nat): (f: nat -> Vec)
    requires Dims(vals, d)
    ensures forall i: nat :: |f(i)| == d
  {
    (i: nat) => Contribution(vals, a, c, d, i)
  }

  /** The size changes of cluster `c`, as one value. */
  function Deltas(prev: seq<int>, near: seq<nat>, c: int): nat -> int
  {
    (i: nat) => Delta(prev, near, c, i)
  }

  /** Adding up the contributions of points 0..m-1 gives the total of those
      assigned to `c`. */
  lemma {:induction false} RangeContributions(vals: seq<Vec>, a: seq<int>, c: int, d: nat, m: nat)
    requires |vals| == |a| && Dims(vals, d) && m <= |a|
    ensures SumVec(Range(m), Contributions(vals, a, c, d), d) == MemberSum(vals[..m], a[..m], c, d)
    decreases m
  {
    if m == 0 {
      assert Range(0) == [];
    } else {
      RangeContributions(vals, a, c, d, m - 1);
      assert Range(m)[..m - 1] == Range(m - 1);
      assert vals[..m][..m - 1] == vals[..m - 1] && a[..m][..m - 1] == a[..m - 1];
      if a[m - 1] != c {
        AddZeros(MemberSum(vals[..m - 1], a[..m - 1], c, d));
      }
    }
  }

  /** Adding up the contributions of all points, in any order, gives the
      total of the members of `c`. */
  lemma AllContributions(vals: seq<Vec>, a: seq<int>, c: int, d: nat, order: seq<nat>)
    requires |vals| == |a| && Dims(vals, d)
    requires multiset(order) == multiset(Range(|a|))
    ensures SumVec(order, Contributions(vals, a, c, d), d) == MemberSum(vals, a, c, d)
  {
    SumVecPerm(order, Range(|a|), Contributions(vals, a, c, d), d);
    RangeContributions(vals, a, c, d, |a|);
    assert vals[..|a|] == vals && a[..|a|] == a;
  }

  /** Adding up the size changes of points 0..m-1 gives how much the size of
      `c` changes between the two assignments, restricted to those points. */
  lemma {:induction false} RangeDeltas(prev: seq<int>, near: seq<nat>, c: int, m: nat)
    requires |prev| == |near| && m <= |prev| && c >= 0
    ensures SumInt(Range(m), Deltas(prev, near, c)) == CountOf(near[..m], c) - CountOf(prev[..m], c)
    decreases m
  {
    if m == 0 {
      assert Range(0) == [];
    } else {
      RangeDeltas(prev, near, c, m - 1);
      assert Range(m)[..m - 1] == Range(m - 1);
      assert near[..m][..m - 1] == near[..m - 1] && prev[..m][..m - 1] == prev[..m - 1];
    }
  }

  /** Adding up the size changes of all points, in any order, gives the
      change in the size of `c`. */
  lemma AllDeltas(prev: seq<int>, near: seq<nat>, c: int, order: seq<nat>)
    requires |prev| == |near| && c >= 0
    requires multiset(order) == multiset(Range(|prev|))
    ensures SumInt(order, Deltas(prev, near, c)) == CountOf(near, c) - CountOf(prev, c)
  {
    SumIntPerm(order, Range(|prev|), Deltas(prev, near, c));
    RangeDeltas(prev, near, c, |prev|);
    assert near[..|prev|] == near && prev[..|prev|] == prev;
  }
}
