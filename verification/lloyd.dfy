/** One Lloyd iteration over cluster rows, as the counter-based programs run it:
    every point is classified against the (read-only) centroids; a point that
    changes cluster decrements its old cluster's count (unless it was
    unassigned), increments the new one's and takes the new id; every point's
    values are added to its new cluster's attribute sums; finally each cluster
    with a positive count moves its centroid to sums / count. */
module Lloyd {
  import opened Vectors
  import opened Points
  import opened Nearest
  import opened Loops

  /** The fixed inputs of a run: the point values (point i has id i), the
      number of clusters K and the number of attributes D. */
  datatype Problem = Problem(vals: seq<Vec>, k: nat, d: nat)
  {
    predicate Valid() {
      k >= 1 && Dims(vals, d)
    }
  }

  /** Mutable state between and during passes: the cluster id of every point,
      the centroid rows, the per-cluster counts and the attribute-sum rows. */
  datatype State = State(assign: seq<int>, cents: seq<Vec>, counts: seq<int>, sums: seq<Vec>)

  /** Every point is unassigned or assigned to one of the K clusters. */
  predicate ValidAssign(assign: seq<int>, k: nat) {
    forall i :: 0 <= i < |assign| ==> Unassigned <= assign[i] < k
  }

  predicate Shaped(pr: Problem, s: State) {
    && pr.Valid()
    && |s.assign| == |pr.vals| && ValidAssign(s.assign, pr.k)
    && |s.cents| == pr.k && Dims(s.cents, pr.d)
    && |s.counts| == pr.k
    && |s.sums| == pr.k && Dims(s.sums, pr.d)
  }

  /** The number of points whose cluster id is `c`. */
  function CountOf(assign: seq<int>, c: int): (r: nat)
    ensures r <= |assign|
  {
    if |assign| == 0 then 0
    else CountOf(assign[..|assign| - 1], c) + (if assign[|assign| - 1] == c then 1 else 0)
  }

  /** The elementwise total of the values of the points whose cluster id is `c`. */
  function MemberSum(vals: seq<Vec>, assign: seq<int>, c: int, d: nat): (r: Vec)
    requires |vals| == |assign| && Dims(vals, d)
    ensures |r| == d
  {
    if |vals| == 0 then Zeros(d)
    else
      var n := |vals| - 1;
      Add(MemberSum(vals[..n], assign[..n], c, d), if assign[n] == c then vals[n] else Zeros(d))
  }

  /** The arithmetic mean of the members of a non-empty cluster. */
  function Mean(vals: seq<Vec>, assign: seq<int>, c: int, d: nat): (r: Vec)
    requires |vals| == |assign| && Dims(vals, d) && CountOf(assign, c) > 0
    ensures |r| == d
  {
    Div(MemberSum(vals, assign, c, d), CountOf(assign, c))
  }

  /** Each count equals the number of points assigned to that cluster. */
  predicate CountsMatch(s: State) {
    forall c :: 0 <= c < |s.counts| ==> s.counts[c] == CountOf(s.assign, c)
  }

  predicate SumsCleared(s: State) {
    forall c :: 0 <= c < |s.sums| ==> IsZero(s.sums[c])
  }

  /** Each sum row is the total of its cluster's members. */
  predicate SumsMatch(pr: Problem, s: State)
    requires Shaped(pr, s)
  {
    forall c :: 0 <= c < pr.k ==> s.sums[c] == MemberSum(pr.vals, s.assign, c, pr.d)
  }

  /** Each non-empty cluster's centroid is the mean of its members. */
  predicate CentroidsAreMeans(pr: Problem, s: State)
    requires Shaped(pr, s)
  {
    forall c :: 0 <= c < pr.k && CountOf(s.assign, c) > 0 ==>
      s.cents[c] == Mean(pr.vals, s.assign, c, pr.d)
  }

  /** What holds between passes: the state is well shaped, every count is its
      cluster's size, the sums are cleared and every non-empty cluster sits at
      the mean of its members. */
  predicate Consistent(pr: Problem, s: State) {
    Shaped(pr, s) && CountsMatch(s) && SumsCleared(s) && CentroidsAreMeans(pr, s)
  }

  /** The classifier applied to every point against the given centroids. */
  function Near(pr: Problem, cents: seq<Vec>): (r: seq<nat>)
    requires pr.Valid() && |cents| == pr.k && Dims(cents, pr.d)
    ensures |r| == |pr.vals|
    ensures forall i :: 0 <= i < |r| ==> r[i] < pr.k && r[i] == NearestCentroid(pr.vals[i], cents)
  {
    seq(|pr.vals|, i requires 0 <= i < |pr.vals| => NearestCentroid(pr.vals[i], cents))
  }

  /** A nearest-index vector for the points of `pr`. */
  predicate NearOk(pr: Problem, near: seq<nat>) {
    |near| == |pr.vals| && forall i :: 0 <= i < |near| ==> near[i] < pr.k
  }

  /** Moving point `i` to cluster `k` when it is elsewhere: the old cluster's
      count drops (unless the point was unassigned), the new one's rises and
      the point takes the new id. A point already in `k` stays as it is. */
  function MovePoint(pr: Problem, s: State, i: nat, k: nat): (t: State)
    requires Shaped(pr, s) && i < |pr.vals| && k < pr.k
    ensures Shaped(pr, t)
  {
    var prev := s.assign[i];
    if prev != k then
      var counts := if prev != Unassigned then s.counts[prev := s.counts[prev] - 1] else s.counts;
      s.(assign := s.assign[i := k], counts := counts[k := counts[k] + 1])
    else s
  }

  /** Adding the values of point `i` to the sum row of cluster `k`. */
  function AddToSums(pr: Problem, s: State, i: nat, k: nat): (t: State)
    requires Shaped(pr, s) && i < |pr.vals| && k < pr.k
    ensures Shaped(pr, t)
  {
    s.(sums := s.sums[k := Add(s.sums[k], pr.vals[i])])
  }

  /** Processing point `i` whose nearest cluster is `near[i]`. */
  function AssignPoint(pr: Problem, near: seq<nat>, s: State, i: nat): (t: State)
    requires Shaped(pr, s) && NearOk(pr, near) && i < |pr.vals|
    ensures Shaped(pr, t)
  {
    AddToSums(pr, MovePoint(pr, s, i, near[i]), i, near[i])
  }

  /** The assignment loop over points 0..n-1, with the flag that some point
      changed cluster (the negation of `done`). */
  function PassUpTo(pr: Problem, near: seq<nat>, s: State, n: nat): (r: (State, bool))
    requires Shaped(pr, s) && NearOk(pr, near) && n <= |pr.vals|
    ensures Shaped(pr, r.0)
  {
    if n == 0 then (s, false)
    else
      var (t, moved) := PassUpTo(pr, near, s, n - 1);
      (AssignPoint(pr, near, t, n - 1), moved || t.assign[n - 1] != near[n - 1])
  }

  /** A full assignment pass against the current centroids. */
  function CounterPass(pr: Problem, s: State): (r: (State, bool))
    requires Shaped(pr, s)
    ensures Shaped(pr, r.0)
  {
    PassUpTo(pr, Near(pr, s.cents), s, |pr.vals|)
  }

  /** The centroid update: sums / count for a cluster with a positive count;
      any other cluster keeps its centroid. */
  function Update(pr: Problem, s: State): (t: State)
    requires Shaped(pr, s)
    ensures Shaped(pr, t)
  {
    s.(cents := seq(pr.k, c requires 0 <= c < pr.k =>
                      if s.counts[c] > 0 then Div(s.sums[c], s.counts[c]) else s.cents[c]))
  }

  /** Resetting every attribute-sum row to zeros. */
  function ClearSums(pr: Problem, s: State): (t: State)
    requires Shaped(pr, s)
    ensures Shaped(pr, t) && SumsCleared(t)
  {
    s.(sums := seq(pr.k, _ => Zeros(pr.d)))
  }

  /** Clearing sums that are already zero changes nothing. */
  lemma ClearSumsCleared(pr: Problem, s: State)
    requires Shaped(pr, s) && SumsCleared(s)
    ensures ClearSums(pr, s) == s
  {
    forall c | 0 <= c < pr.k
      ensures s.sums[c] == Zeros(pr.d)
    {
      ZeroIsZeros(s.sums[c]);
    }
  }

  // ---------------------------------------------------------------------------
  // Counting and summing facts

  lemma {:induction false} CountOfUpdate(a: seq<int>, i: nat, v: int, c: int)
    requires i < |a|
    ensures CountOf(a[i := v], c)
         == CountOf(a, c) - (if a[i] == c then 1 else 0) + (if v == c then 1 else 0)
    decreases |a|
  {
    var n := |a| - 1;
    if i < n {
      assert a[i := v][..n] == a[..n][i := v];
      CountOfUpdate(a[..n], i, v, c);
    } else {
      assert a[i := v][..n] == a[..n];
    }
  }

  lemma {:induction false} CountOfAppend(a: seq<int>, b: seq<int>, c: int)
    ensures CountOf(a + b, c) == CountOf(a, c) + CountOf(b, c)
    decreases |b|
  {
    if |b| == 0 {
      assert a + b == a;
    } else {
      assert (a + b)[..|a + b| - 1] == a + b[..|b| - 1];
      CountOfAppend(a, b[..|b| - 1], c);
    }
  }

  /** Nobody is in cluster `c`. */
  lemma {:induction false} CountOfNone(a: seq<int>, c: int)
    requires forall i :: 0 <= i < |a| ==> a[i] != c
    ensures CountOf(a, c) == 0
    decreases |a|
  {
    if |a| > 0 {
      CountOfNone(a[..|a| - 1], c);
    }
  }

  lemma {:induction false} MemberSumNone(vals: seq<Vec>, a: seq<int>, c: int, d: nat)
    requires |vals| == |a| && Dims(vals, d)
    requires forall i :: 0 <= i < |a| ==> a[i] != c
    ensures MemberSum(vals, a, c, d) == Zeros(d)
    decreases |a|
  {
    if |a| > 0 {
      var n := |a| - 1;
      MemberSumNone(vals[..n], a[..n], c, d);
      AddZeros(Zeros(d));
    }
  }

  /** Exactly point `j` is in cluster `c`. */
  lemma {:induction false} SingleMember(vals: seq<Vec>, a: seq<int>, c: int, d: nat, j: nat)
    requires |vals| == |a| && Dims(vals, d) && j < |a|
    requires forall i :: 0 <= i < |a| ==> (a[i] == c <==> i == j)
    ensures CountOf(a, c) == 1
    ensures MemberSum(vals, a, c, d) == vals[j]
    decreases |a|
  {
    var n := |a| - 1;
    if j < n {
      SingleMember(vals[..n], a[..n], c, d, j);
      AddZeros(vals[j]);
    } else {
      CountOfNone(a[..n], c);
      MemberSumNone(vals[..n], a[..n], c, d);
      AddZeros(vals[j]);
    }
  }

  lemma MemberSumStep(vals: seq<Vec>, a: seq<int>, c: int, d: nat, n: nat)
    requires |vals| == |a| && Dims(vals, d) && n < |a|
    ensures MemberSum(vals[..n + 1], a[..n + 1], c, d)
         == Add(MemberSum(vals[..n], a[..n], c, d), if a[n] == c then vals[n] else Zeros(d))
  {
    assert vals[..n + 1][..n] == vals[..n];
    assert a[..n + 1][..n] == a[..n];
  }

  // ---------------------------------------------------------------------------
  // The pass

  /** Moving a point keeps matching counts matching. */
  lemma MovePointMatches(pr: Problem, s: State, i: nat, k: nat)
    requires Shaped(pr, s) && CountsMatch(s) && i < |pr.vals| && k < pr.k
    ensures var t := MovePoint(pr, s, i, k);
      t.assign == s.assign[i := k] && t.cents == s.cents && t.sums == s.sums && CountsMatch(t)
  {
    var t := MovePoint(pr, s, i, k);
    if s.assign[i] == k {
      assert s.assign[i := k] == s.assign;
    } else {
      forall c | 0 <= c < pr.k
        ensures t.counts[c] == CountOf(t.assign, c)
      {
        CountOfUpdate(s.assign, i, k, c);
      }
    }
  }

  /** Counts that match the ids are determined by them: two such states
      with the same ids, centroids and sums are the same state. */
  lemma SameRows(s: State, t: State)
    requires CountsMatch(s) && CountsMatch(t) && |s.counts| == |t.counts|
    requires s.assign == t.assign && s.cents == t.cents && s.sums == t.sums
    ensures s == t
  {
    assert s.counts == t.counts;
  }

  /** Handling point `m` gives it its nearest cluster and leaves the centroids
      alone. */
  lemma AssignPointAssign(pr: Problem, near: seq<nat>, u: State, m: nat)
    requires Shaped(pr, u) && NearOk(pr, near) && m < |pr.vals|
    ensures AssignPoint(pr, near, u, m).cents == u.cents
    ensures AssignPoint(pr, near, u, m).assign == u.assign[m := near[m]]
  {
    if u.assign[m] == near[m] {
      assert u.assign[m := near[m]] == u.assign;
    }
  }

  /** Handling one point moves the count of cluster `c` exactly as the number
      of points assigned to `c` moves. */
  lemma AssignPointCount(pr: Problem, near: seq<nat>, u: State, m: nat, c: nat)
    requires Shaped(pr, u) && NearOk(pr, near) && m < |pr.vals| && c < pr.k
    ensures var t := AssignPoint(pr, near, u, m);
      t.counts[c] - CountOf(t.assign, c) == u.counts[c] - CountOf(u.assign, c)
  {
    AssignPointAssign(pr, near, u, m);
    CountOfUpdate(u.assign, m, near[m], c);
  }

  /** Handling one point adds its values to the sum row of its nearest
      cluster and to no other. */
  lemma AssignPointSum(pr: Problem, near: seq<nat>, u: State, m: nat, c: nat)
    requires Shaped(pr, u) && NearOk(pr, near) && m < |pr.vals| && c < pr.k
    ensures AssignPoint(pr, near, u, m).sums[c]
         == Add(u.sums[c], if near[m] == c then pr.vals[m] else Zeros(pr.d))
  {
    if near[m] != c {
      AddZeros(u.sums[c]);
    }
  }

  /** After the loop has handled points 0..n-1, those points carry their
      nearest cluster and the others are untouched; centroids never change. */
  lemma {:induction false} PassUpToAssign(pr: Problem, near: seq<nat>, s: State, n: nat)
    requires Shaped(pr, s) && NearOk(pr, near) && n <= |pr.vals|
    ensures PassUpTo(pr, near, s, n).0.cents == s.cents
    ensures PassUpTo(pr, near, s, n).0.assign == near[..n] + s.assign[n..]
    decreases n
  {
    if n == 0 {
      assert s.assign[0..] == s.assign;
    } else {
      var m := n - 1;
      PassUpToAssign(pr, near, s, m);
      var u := PassUpTo(pr, near, s, m).0;
      AssignPointAssign(pr, near, u, m);
      assert u.assign[m := near[m]] == near[..n] + s.assign[n..];
    }
  }

  /** Every count moves exactly as the number of points assigned to its
      cluster does. */
  lemma {:induction false} PassUpToCounts(pr: Problem, near: seq<nat>, s: State, n: nat, c: nat)
    requires Shaped(pr, s) && NearOk(pr, near) && n <= |pr.vals| && c < pr.k
    ensures PassUpTo(pr, near, s, n).0.counts[c] - CountOf(PassUpTo(pr, near, s, n).0.assign, c)
         == s.counts[c] - CountOf(s.assign, c)
    decreases n
  {
    if n > 0 {
      PassUpToCounts(pr, near, s, n - 1, c);
      AssignPointCount(pr, near, PassUpTo(pr, near, s, n - 1).0, n - 1, c);
    }
  }

  /** Each sum row is the total of the handled points that chose that cluster. */
  lemma {:induction false} PassUpToSums(pr: Problem, near: seq<nat>, s: State, n: nat, c: nat)
    requires Shaped(pr, s) && NearOk(pr, near) && SumsCleared(s) && n <= |pr.vals| && c < pr.k
    ensures PassUpTo(pr, near, s, n).0.sums[c] == MemberSum(pr.vals[..n], near[..n], c, pr.d)
    decreases n
  {
    if n == 0 {
      ZeroIsZeros(s.sums[c]);
    } else {
      PassUpToSums(pr, near, s, n - 1, c);
      PassUpToSumsStep(pr, near, s, n, c);
    }
  }

  /** Handling point n-1 adds it to the sums of its cluster. */
  lemma PassUpToSumsStep(pr: Problem, near: seq<nat>, s: State, n: nat, c: nat)
    requires Shaped(pr, s) && NearOk(pr, near) && 0 < n <= |pr.vals| && c < pr.k
    requires PassUpTo(pr, near, s, n - 1).0.sums[c] == MemberSum(pr.vals[..n - 1], near[..n - 1], c, pr.d)
    ensures PassUpTo(pr, near, s, n).0.sums[c] == MemberSum(pr.vals[..n], near[..n], c, pr.d)
  {
    AssignPointSum(pr, near, PassUpTo(pr, near, s, n - 1).0, n - 1, c);
    MemberSumStep(pr.vals, near, c, pr.d, n - 1);
  }

  /** The same after all the points. */
  lemma FullPassSums(pr: Problem, near: seq<nat>, s: State, c: nat)
    requires Shaped(pr, s) && NearOk(pr, near) && SumsCleared(s) && c < pr.k
    ensures PassUpTo(pr, near, s, |pr.vals|).0.sums[c] == MemberSum(pr.vals, near, c, pr.d)
  {
    var n := |pr.vals|;
    PassUpToSums(pr, near, s, n, c);
    assert near[..n] == near && pr.vals[..n] == pr.vals;
  }

  /** The change flag is set exactly when some handled point changed cluster. */
  lemma {:induction false} PassUpToMoved(pr: Problem, near: seq<nat>, s: State, n: nat)
    requires Shaped(pr, s) && NearOk(pr, near) && n <= |pr.vals|
    ensures PassUpTo(pr, near, s, n).1 <==> near[..n] != s.assign[..n]
    decreases n
  {
    if n > 0 {
      var m := n - 1;
      PassUpToMoved(pr, near, s, m);
      PassUpToAssign(pr, near, s, m);
      assert PassUpTo(pr, near, s, m).0.assign[m] == s.assign[m];
      assert near[..n] == near[..m] + [near[m]];
      assert s.assign[..n] == s.assign[..m] + [s.assign[m]];
      if near[..m] != s.assign[..m] {
        assert near[..n][..m] == near[..m] && s.assign[..n][..m] == s.assign[..m];
      }
    }
  }

  /** The visit of point i on its own, total so that it can drive a sweep:
      a state or index outside the problem is left alone. */
  function Visit(pr: Problem, near: seq<nat>, s: State, i: nat): (r: (State, bool))
  {
    if Shaped(pr, s) && NearOk(pr, near) && i < |pr.vals| then (AssignPoint(pr, near, s, i), s.assign[i] != near[i])
    else (s, false)
  }

  /** The visits as one value, to drive a sweep. */
  function Visits(pr: Problem, near: seq<nat>): (State, nat) -> (State, bool)
  {
    (t: State, i: nat) => Visit(pr, near, t, i)
  }

  /** The assignment loop is the sweep of the visits over the first n points. */
  lemma {:induction false} PassUpToIsSweep(pr: Problem, near: seq<nat>, s: State, n: nat)
    requires Shaped(pr, s) && NearOk(pr, near) && n <= |pr.vals|
    ensures PassUpTo(pr, near, s, n) == Sweep(s, Visits(pr, near), n)
    decreases n
  {
    if n > 0 {
      var m: nat := n - 1;
      PassUpToIsSweep(pr, near, s, m);
    }
  }

  /** The visit of point i by a program that keeps no attribute sums during
      the pass (serial): only the move. */
  function MoveVisit(pr: Problem, near: seq<nat>, s: State, i: nat): (r: (State, bool))
  {
    if Shaped(pr, s) && NearOk(pr, near) && i < |pr.vals| then (MovePoint(pr, s, i, near[i]), s.assign[i] != near[i])
    else (s, false)
  }

  /** The move-only visits as one value, to drive a sweep. */
  function MoveVisits(pr: Problem, near: seq<nat>): (State, nat) -> (State, bool)
  {
    (t: State, i: nat) => MoveVisit(pr, near, t, i)
  }
  /** On a well-shaped state the visit of point i is its move towards
      `near[i]`, flagged when the point was elsewhere. */
  lemma MoveVisitIs(pr: Problem, near: seq<nat>, s: State, i: nat)
    requires Shaped(pr, s) && NearOk(pr, near) && i < |pr.vals|
    ensures MoveVisit(pr, near, s, i) == (MovePoint(pr, s, i, near[i]), s.assign[i] != near[i])
  {
  }


  /** Sweeping the move-only visits is the assignment loop with the sums left
      as they were: moves never read the sums and adding to the sums never
      moves a point. */
  lemma {:induction false} MoveSweepIsPass(pr: Problem, near: seq<nat>, s: State, n: nat)
    requires Shaped(pr, s) && NearOk(pr, near) && n <= |pr.vals|
    ensures Sweep(s, MoveVisits(pr, near), n).0 == PassUpTo(pr, near, s, n).0.(sums := s.sums)
    ensures Sweep(s, MoveVisits(pr, near), n).1 == PassUpTo(pr, near, s, n).1
    decreases n
  {
    if n > 0 {
      var m: nat := n - 1;
      MoveSweepIsPass(pr, near, s, m);
      var (t, _) := Sweep(s, MoveVisits(pr, near), m);
      var (u, _) := PassUpTo(pr, near, s, m);
      assert t == u.(sums := s.sums);
      assert MovePoint(pr, t, m, near[m]) == AssignPoint(pr, near, u, m).(sums := s.sums);
    }
  }

  /** A full pass puts every point in its nearest cluster, leaves the
      centroids alone and raises the change flag exactly when some assignment
      differs. */
  lemma CounterPassAssign(pr: Problem, s: State)
    requires Shaped(pr, s)
    ensures var (t, moved) := CounterPass(pr, s);
      && t.assign == Near(pr, s.cents)
      && t.cents == s.cents
      && (moved <==> t.assign != s.assign)
  {
    var near := Near(pr, s.cents);
    var n := |pr.vals|;
    var (t, moved) := CounterPass(pr, s);
    PassUpToAssign(pr, near, s, n);
    PassUpToMoved(pr, near, s, n);
    assert near[..n] == near && s.assign[..n] == s.assign;
    assert s.assign[n..] == [];
  }

  /** After a full pass from matching counts, the count of cluster `c` is
      again its size. */
  lemma CounterPassCount(pr: Problem, s: State, c: nat)
    requires Shaped(pr, s) && CountsMatch(s) && c < pr.k
    ensures CounterPass(pr, s).0.counts[c] == CountOf(CounterPass(pr, s).0.assign, c)
  {
    PassUpToCounts(pr, near := Near(pr, s.cents), s := s, n := |pr.vals|, c := c);
  }

  /** A full pass moves the count of cluster `c` by the points that joined it
      minus the points that left it. */
  lemma CounterPassCountChange(pr: Problem, s: State, c: nat)
    requires Shaped(pr, s) && c < pr.k
    ensures CounterPass(pr, s).0.counts[c]
         == s.counts[c] + CountOf(Near(pr, s.cents), c) - CountOf(s.assign, c)
  {
    CounterPassAssign(pr, s);
    PassUpToCounts(pr, near := Near(pr, s.cents), s := s, n := |pr.vals|, c := c);
  }

  /** After a full pass from cleared sums, the sum row of cluster `c` is the
      total of its members. */
  lemma CounterPassSum(pr: Problem, s: State, c: nat)
    requires Shaped(pr, s) && SumsCleared(s) && c < pr.k
    ensures CounterPass(pr, s).0.sums[c] == MemberSum(pr.vals, CounterPass(pr, s).0.assign, c, pr.d)
  {
    CounterPassAssign(pr, s);
    FullPassSums(pr, Near(pr, s.cents), s, c);
  }

  /** A full pass from a state whose counts match and whose sums are clear:
      every point ends in its nearest cluster, the counts match again, every
      sum row is its cluster's member total, the centroids are untouched, and
      the change flag is raised exactly when some assignment differs. */
  lemma CounterPassSpec(pr: Problem, s: State)
    requires Shaped(pr, s) && CountsMatch(s) && SumsCleared(s)
    ensures var (t, moved) := CounterPass(pr, s);
      && t.assign == Near(pr, s.cents)
      && t.cents == s.cents
      && CountsMatch(t)
      && SumsMatch(pr, t)
      && (moved <==> t.assign != s.assign)
  {
    CounterPassAssign(pr, s);
    forall c | 0 <= c < pr.k
      ensures CounterPass(pr, s).0.counts[c] == CountOf(CounterPass(pr, s).0.assign, c)
      ensures CounterPass(pr, s).0.sums[c] == MemberSum(pr.vals, CounterPass(pr, s).0.assign, c, pr.d)
    {
      CounterPassCount(pr, s, c);
      CounterPassSum(pr, s, c);
    }
  }

  /** The update turns matching counts and sums into centroids that are the
      means of their clusters; clusters without members keep their centroid,
      and nothing but the centroids changes. */
  lemma UpdateSpec(pr: Problem, t: State)
    requires Shaped(pr, t) && CountsMatch(t) && SumsMatch(pr, t)
    ensures var u := Update(pr, t);
      && u.assign == t.assign && u.counts == t.counts && u.sums == t.sums
      && CentroidsAreMeans(pr, u)
      && (forall c :: 0 <= c < pr.k && CountOf(t.assign, c) == 0 ==> u.cents[c] == t.cents[c])
  {
  }

  /** A pass that moves no point, from a state whose centroids are already the
      means of their clusters, leaves the centroids where they were. */
  lemma NoMoveKeepsCentroids(pr: Problem, s: State)
    requires Shaped(pr, s) && CountsMatch(s) && SumsCleared(s) && CentroidsAreMeans(pr, s)
    requires !CounterPass(pr, s).1
    ensures var u := Update(pr, CounterPass(pr, s).0);
      u.assign == s.assign && u.counts == s.counts && u.cents == s.cents
  {
    CounterPassSpec(pr, s);
    var t := CounterPass(pr, s).0;
    UpdateSpec(pr, t);
    var u := Update(pr, t);
    assert u.assign == s.assign;
    assert u.counts == s.counts;
    forall c | 0 <= c < pr.k
      ensures u.cents[c] == s.cents[c]
    {
    }
  }

  // ---------------------------------------------------------------------------
  // Cluster sizes add up to the number of assigned points

  /** Count of the clusters 0..k-1 together. */
  function CountsUpTo(a: seq<int>, k: nat): nat
  {
    if k == 0 then 0 else CountsUpTo(a, k - 1) + CountOf(a, k - 1)
  }

  /** Sum of the first `k` entries of a count vector. */
  function TotalUpTo(counts: seq<int>, k: nat): int
    requires k <= |counts|
  {
    if k == 0 then 0 else TotalUpTo(counts, k - 1) + counts[k - 1]
  }

  lemma {:induction false} CountsUpToAppend(a: seq<int>, e: int, k: nat)
    ensures CountsUpTo(a + [e], k) == CountsUpTo(a, k) + (if 0 <= e < k then 1 else 0)
    decreases k
  {
    if k > 0 {
      CountsUpToAppend(a, e, k - 1);
      assert (a + [e])[..|a|] == a;
    }
  }

  /** Every point is either unassigned or counted in exactly one cluster. */
  lemma {:induction false} CountsCoverPoints(a: seq<int>, k: nat)
    requires ValidAssign(a, k)
    ensures CountsUpTo(a, k) + CountOf(a, Unassigned) == |a|
    decreases |a|
  {
    if |a| > 0 {
      var n := |a| - 1;
      var b, e := a[..n], a[n];
      CountsCoverPoints(b, k);
      assert b + [e] == a;
      CountsUpToAppend(b, e, k);
      assert CountsUpTo(a, k) == CountsUpTo(b, k) + (if 0 <= e < k then 1 else 0);
      assert CountOf(a, Unassigned) == CountOf(b, Unassigned) + (if e == Unassigned then 1 else 0);
      assert Unassigned <= e < k;
    } else {
      CountsUpToEmpty(a, k);
    }
  }

  lemma {:induction false} CountsUpToEmpty(a: seq<int>, k: nat)
    requires |a| == 0
    ensures CountsUpTo(a, k) == 0
    decreases k
  {
    if k > 0 {
      CountsUpToEmpty(a, k - 1);
    }
  }

  lemma {:induction false} TotalIsCountsUpTo(s: State, k: nat)
    requires CountsMatch(s) && k <= |s.counts|
    ensures TotalUpTo(s.counts, k) == CountsUpTo(s.assign, k)
    decreases k
  {
    if k > 0 {
      TotalIsCountsUpTo(s, k - 1);
    }
  }

  /** With matching counts, the cluster counts add up to the number of
      assigned points; once every point is assigned they add up to N. */
  lemma ClusterSizesSumToAssigned(pr: Problem, s: State)
    requires Shaped(pr, s) && CountsMatch(s)
    ensures TotalUpTo(s.counts, pr.k) == |pr.vals| - CountOf(s.assign, Unassigned)
    ensures (forall i :: 0 <= i < |s.assign| ==> s.assign[i] != Unassigned) ==>
              TotalUpTo(s.counts, pr.k) == |pr.vals|
  {
    TotalIsCountsUpTo(s, pr.k);
    CountsCoverPoints(s.assign, pr.k);
    if forall i :: 0 <= i < |s.assign| ==> s.assign[i] != Unassigned {
      CountOfNone(s.assign, Unassigned);
    }
  }
}
