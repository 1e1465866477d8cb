/** The two ways the programs choose the initial centroids: K distinct random
    points (serial-fast, serial-fast-unroll, serial-fast-no-cluster,
    parallel-fast) or the first K rows of a predefined table (serial,
    parallel-simple). */
module Seeding {
  import opened Vectors
  import opened Points
  import opened Lloyd

  /** `seeds` are pairwise distinct indices of points in [0,n). */
  predicate DistinctIndexes(seeds: seq<nat>, n: nat) {
    && (forall m :: 0 <= m < |seeds| ==> seeds[m] < n)
    && (forall m1, m2 :: 0 <= m1 < m2 < |seeds| ==> seeds[m1] != seeds[m2])
  }

  /** The rejection loop of `initializeClusterCentroids`: each draw of `rand()`
      becomes the index `draw % n` and is kept only when it is not among the
      `prohibited_indexes` chosen so far; the loop stops once `k` indices are
      chosen. `draws` is the finite stream of `rand()` results consumed. */
  function PickFrom(draws: seq<nat>, n: nat, k: nat, chosen: seq<nat>): (r: seq<nat>)
    requires n > 0 && DistinctIndexes(chosen, n) && |chosen| <= k
    ensures DistinctIndexes(r, n) && |chosen| <= |r| <= k
    decreases |draws|
  {
    if |chosen| == k || |draws| == 0 then chosen
    else
      var idx := draws[0] % n;
      PickFrom(draws[1..], n, k, if idx in chosen then chosen else chosen + [idx])
  }

  /** What the rejection loop chooses: it extends the indices already chosen,
      every new index is some draw modulo n, and it stops short of k only when
      every draw gave an index already chosen. */
  lemma PickFromSpec(draws: seq<nat>, n: nat, k: nat, chosen: seq<nat>)
    requires n > 0 && DistinctIndexes(chosen, n) && |chosen| <= k
    ensures var r := PickFrom(draws, n, k, chosen);
      && r[..|chosen|] == chosen
      && (forall m :: |chosen| <= m < |r| ==> exists j :: 0 <= j < |draws| && draws[j] % n == r[m])
      && (|r| < k ==> forall j :: 0 <= j < |draws| ==> draws[j] % n in r)
  {
    PickFromPrefix(draws, n, k, chosen);
    PickFromDrawn(draws, n, k, chosen);
    PickFromExhausted(draws, n, k, chosen);
  }

  /** The rejection loop keeps the indices already chosen in front. */
  lemma {:induction false} PickFromPrefix(draws: seq<nat>, n: nat, k: nat, chosen: seq<nat>)
    requires n > 0 && DistinctIndexes(chosen, n) && |chosen| <= k
    ensures PickFrom(draws, n, k, chosen)[..|chosen|] == chosen
    decreases |draws|
  {
    if |chosen| < k && |draws| > 0 {
      var idx := draws[0] % n;
      var next := if idx in chosen then chosen else chosen + [idx];
      PickFromPrefix(draws[1..], n, k, next);
      var r := PickFrom(draws[1..], n, k, next);
      assert r[..|chosen|] == r[..|next|][..|chosen|];
    }
  }

  /** Every index the rejection loop adds is some draw modulo n. */
  lemma {:induction false} PickFromDrawn(draws: seq<nat>, n: nat, k: nat, chosen: seq<nat>)
    requires n > 0 && DistinctIndexes(chosen, n) && |chosen| <= k
    ensures var r := PickFrom(draws, n, k, chosen);
      forall m :: |chosen| <= m < |r| ==> exists j :: 0 <= j < |draws| && draws[j] % n == r[m]
    decreases |draws|
  {
    if |chosen| < k && |draws| > 0 {
      var idx := draws[0] % n;
      var next := if idx in chosen then chosen else chosen + [idx];
      PickFromDrawn(draws[1..], n, k, next);
      PickFromPrefix(draws[1..], n, k, next);
      var r := PickFrom(draws[1..], n, k, next);
      forall m | |chosen| <= m < |r|
        ensures exists j :: 0 <= j < |draws| && draws[j] % n == r[m]
      {
        if m < |next| {
          assert r[m] == r[..|next|][m] == idx == draws[0] % n;
        } else {
          var j :| 0 <= j < |draws[1..]| && draws[1..][j] % n == r[m];
          assert draws[j + 1] % n == r[m];
        }
      }
    }
  }

  /** The rejection loop stops short of k only when every draw gave an
      index already chosen. */
  lemma {:induction false} PickFromExhausted(draws: seq<nat>, n: nat, k: nat, chosen: seq<nat>)
    requires n > 0 && DistinctIndexes(chosen, n) && |chosen| <= k
    ensures var r := PickFrom(draws, n, k, chosen);
      |r| < k ==> forall j :: 0 <= j < |draws| ==> draws[j] % n in r
    decreases |draws|
  {
    if |chosen| < k && |draws| > 0 {
      var idx := draws[0] % n;
      var next := if idx in chosen then chosen else chosen + [idx];
      PickFromExhausted(draws[1..], n, k, next);
      PickFromPrefix(draws[1..], n, k, next);
      var r := PickFrom(draws[1..], n, k, next);
      assert idx in r by {
        assert idx in next;
        assert forall x :: x in next ==> x in r[..|next|];
      }
      forall j | 0 <= j < |draws| && |r| < k
        ensures draws[j] % n in r
      {
        if j > 0 {
          assert draws[j] == draws[1..][j - 1];
        }
      }
    }
  }

  /** One round of the rejection loop, seen from draw `j` on. */
  lemma PickFromStep(draws: seq<nat>, j: nat, n: nat, k: nat, chosen: seq<nat>)
    requires n > 0 && DistinctIndexes(chosen, n) && |chosen| < k && j < |draws|
    ensures var idx := draws[j] % n;
      PickFrom(draws[j..], n, k, chosen)
      == PickFrom(draws[j + 1..], n, k, if idx in chosen then chosen else chosen + [idx])
  {
    assert draws[j..][0] == draws[j] && draws[j..][1..] == draws[j + 1..];
  }

  /** The indices chosen from a whole draw stream. */
  function PickSeeds(draws: seq<nat>, n: nat, k: nat): (r: seq<nat>)
    requires n > 0
    ensures DistinctIndexes(r, n) && |r| <= k
  {
    PickFrom(draws, n, k, [])
  }

  /** Every chosen index is some draw modulo n, and fewer than k are chosen
      only when every draw gave an index already chosen. */
  lemma PickSeedsSpec(draws: seq<nat>, n: nat, k: nat)
    requires n > 0
    ensures forall m :: 0 <= m < |PickSeeds(draws, n, k)| ==>
              exists j :: 0 <= j < |draws| && draws[j] % n == PickSeeds(draws, n, k)[m]
    ensures |PickSeeds(draws, n, k)| < k ==>
              forall j :: 0 <= j < |draws| ==> draws[j] % n in PickSeeds(draws, n, k)
  {
    PickFromSpec(draws, n, k, []);
  }

  /** `points[seeds[m]].setCluster(m)` for m = 0..|seeds|-1 on n unassigned
      points. */
  function SeedAssign(n: nat, seeds: seq<nat>): (a: seq<int>)
    requires forall m :: 0 <= m < |seeds| ==> seeds[m] < n
    ensures |a| == n
  {
    if |seeds| == 0 then seq(n, _ => Unassigned)
    else SeedAssign(n, seeds[..|seeds| - 1])[seeds[|seeds| - 1] := |seeds| - 1]
  }

  /** Choosing one more seed assigns that point to the next cluster. */
  lemma SeedAssignAppend(n: nat, seeds: seq<nat>, x: nat)
    requires x < n && forall m :: 0 <= m < |seeds| ==> seeds[m] < n
    ensures SeedAssign(n, seeds + [x]) == SeedAssign(n, seeds)[x := |seeds|]
  {
    assert (seeds + [x])[..|seeds|] == seeds;
  }

  /** A new index below n keeps the seeds distinct. */
  lemma DistinctAppend(seeds: seq<nat>, n: nat, x: nat)
    requires DistinctIndexes(seeds, n) && x < n && x !in seeds
    ensures DistinctIndexes(seeds + [x], n)
  {
  }

  /** With distinct seeds, point i belongs to cluster c exactly when it is
      the c-th seed, and a point that is no seed stays unassigned. */
  lemma {:induction false} SeedAssignSpec(n: nat, seeds: seq<nat>)
    requires DistinctIndexes(seeds, n)
    ensures ValidAssign(SeedAssign(n, seeds), |seeds|)
    ensures forall i, c :: 0 <= i < n && 0 <= c < |seeds| ==> (SeedAssign(n, seeds)[i] == c <==> seeds[c] == i)
    ensures forall i :: 0 <= i < n && (forall c :: 0 <= c < |seeds| ==> seeds[c] != i) ==>
              SeedAssign(n, seeds)[i] == Unassigned
    decreases |seeds|
  {
    if |seeds| > 0 {
      var m := |seeds| - 1;
      var prefix := seeds[..m];
      assert forall c :: 0 <= c < m ==> prefix[c] == seeds[c];
      SeedAssignSpec(n, prefix);
    }
  }

  /** The clusters built by the seeding constructor: centroid c is a copy of
      the values of the c-th seed, which is the cluster's only member, and the
      attribute sums start at zero. */
  function Seeded(pr: Problem, seeds: seq<nat>): (s: State)
    requires pr.Valid() && |seeds| == pr.k && DistinctIndexes(seeds, |pr.vals|)
    ensures Shaped(pr, s)
  {
    SeedAssignSpec(|pr.vals|, seeds);
    State(SeedAssign(|pr.vals|, seeds),
          seq(pr.k, c requires 0 <= c < pr.k => pr.vals[seeds[c]]),
          seq(pr.k, _ => 1),
          seq(pr.k, _ => Zeros(pr.d)))
  }

  /** The seeded state is consistent: each cluster has exactly its seed as
      member, so a count of 1 is its size and the seed's values are its mean. */
  lemma SeededSpec(pr: Problem, seeds: seq<nat>)
    requires pr.Valid() && |seeds| == pr.k && DistinctIndexes(seeds, |pr.vals|)
    ensures Consistent(pr, Seeded(pr, seeds))
    ensures forall c :: 0 <= c < pr.k ==> Seeded(pr, seeds).assign[seeds[c]] == c
    ensures forall c :: 0 <= c < pr.k ==> Seeded(pr, seeds).cents[c] == pr.vals[seeds[c]]
  {
    var s := Seeded(pr, seeds);
    SeedAssignSpec(|pr.vals|, seeds);
    forall c | 0 <= c < pr.k
      ensures CountOf(s.assign, c) == 1
      ensures MemberSum(pr.vals, s.assign, c, pr.d) == pr.vals[seeds[c]]
    {
      SingleMember(pr.vals, s.assign, c, pr.d, seeds[c]);
    }
  }

  /** The clusters built by the predefined-values constructor: centroid c is
      row c of the table (of which only the first D values are ever read or
      written), no point is assigned and every count and sum is zero. */
  function Predefined(pr: Problem, table: seq<Vec>): (s: State)
    requires pr.Valid() && pr.k <= |table| && forall c :: 0 <= c < |table| ==> pr.d <= |table[c]|
    ensures Shaped(pr, s)
  {
    State(seq(|pr.vals|, _ => Unassigned),
          seq(pr.k, c requires 0 <= c < pr.k => table[c][..pr.d]),
          seq(pr.k, _ => 0),
          seq(pr.k, _ => Zeros(pr.d)))
  }

  /** The predefined state is consistent: no cluster has members, so zero
      counts match and no centroid has to be a mean yet. */
  lemma PredefinedSpec(pr: Problem, table: seq<Vec>)
    requires pr.Valid() && pr.k <= |table| && forall c :: 0 <= c < |table| ==> pr.d <= |table[c]|
    ensures Consistent(pr, Predefined(pr, table))
    ensures forall c :: 0 <= c < pr.k ==> CountOf(Predefined(pr, table).assign, c) == 0
  {
    var s := Predefined(pr, table);
    forall c | 0 <= c < pr.k
      ensures CountOf(s.assign, c) == 0
    {
      CountOfNone(s.assign, c);
    }
  }
}
