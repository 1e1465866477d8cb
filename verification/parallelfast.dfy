/** `src/kmeans-parallel-fast.cpp`: no cluster objects; the `KMeans` object
    keeps the centroids and the attribute sums in two flat buffers of K*D
    values and the sizes in a vector of K counts. The assignment loop is a
    TBB `parallel_for` over the points in which every worker keeps both a
    thread-local vector of count changes and a thread-local K x D matrix of
    sums; after the loop the thread-local values are added to the shared
    buffers worker by worker, and a second `parallel_for` moves every
    non-empty centroid to sums / count and clears the sums. The split of the
    points among workers is a parameter; the results do not depend on it. */
module ParallelFast {
  import opened Vectors
  import opened Points
  import opened Nearest
  import opened Lloyd
  import opened Objects
  import opened Membership
  import opened Sums
  import opened Seeding
  import opened Loops
  import opened Runs
  import opened Workers
  import opened Buffers
  import Flat
  import Iteration

  // ---------------------------------------------------------------------------
  // The assignment loop and the merges after it

  /** Every worker handled only points of the problem. */
  predicate Within(chunks: seq<seq<nat>>, n: nat) {
    forall w, j :: 0 <= w < |chunks| && 0 <= j < |chunks[w]| ==> chunks[w][j] < n
  }

  /** The thread-local K x D sums of a worker that handled `chunk`, starting
      from zeros: each point's values are added to the row of its nearest
      cluster. */
  function WorkerSums(pr: Problem, near: seq<nat>, chunk: seq<nat>): (local: seq<Vec>)
    requires pr.Valid() && NearOk(pr, near)
    requires forall j :: 0 <= j < |chunk| ==> chunk[j] < |pr.vals|
    ensures |local| == pr.k && Dims(local, pr.d)
    decreases |chunk|
  {
    if |chunk| == 0 then seq(pr.k, _ => Zeros(pr.d))
    else
      var n := |chunk| - 1;
      var local := WorkerSums(pr, near, chunk[..n]);
      var i := chunk[n];
      local[near[i] := Add(local[near[i]], pr.vals[i])]
  }

  /** Row c of a worker's sums is the total of the points of its chunk that
      chose cluster c. */
  lemma {:induction false} WorkerSumsTotal(pr: Problem, near: seq<nat>, chunk: seq<nat>, c: nat)
    requires pr.Valid() && NearOk(pr, near) && c < pr.k
    requires forall j :: 0 <= j < |chunk| ==> chunk[j] < |pr.vals|
    ensures WorkerSums(pr, near, chunk)[c] == SumVec(chunk, Contributions(pr.vals, near, c, pr.d), pr.d)
    decreases |chunk|
  {
    if |chunk| > 0 {
      var n := |chunk| - 1;
      WorkerSumsTotal(pr, near, chunk[..n], c);
      if near[chunk[n]] != c {
        AddZeros(WorkerSums(pr, near, chunk[..n])[c]);
      }
    }
  }

  /** The rows [0,n) of one worker's sums added to the shared sums buffer,
      value by value: rows below n grow by the worker's row, the others stay. */
  function AddLocalSums(pr: Problem, flat: seq<real>, local: seq<Vec>, n: nat): (r: seq<real>)
    requires |flat| == Flat.Offset(pr.k, pr.d) && |local| == pr.k && Dims(local, pr.d) && n <= pr.k
    ensures |r| == |flat|
    ensures forall c :: 0 <= c < pr.k ==>
              Flat.Rows(r, pr.k, pr.d)[c]
              == if c < n then Add(Flat.Rows(flat, pr.k, pr.d)[c], local[c]) else Flat.Rows(flat, pr.k, pr.d)[c]
    decreases n
  {
    if n == 0 then flat
    else
      var m: nat := n - 1;
      var f := AddLocalSums(pr, flat, local, m);
      Flat.OffsetMono(m, pr.k, pr.d);
      var v := Add(Flat.Row(f, m, pr.d), local[m]);
      Flat.RowsSetRow(f, pr.k, pr.d, m, v);
      Flat.SetRow(f, m, pr.d, v)
  }

  /** The loop over the workers' sums after the `parallel_for`: each worker's
      K x D matrix in turn. */
  function MergeSums(pr: Problem, flat: seq<real>, near: seq<nat>, chunks: seq<seq<nat>>): (r: seq<real>)
    requires pr.Valid() && |flat| == Flat.Offset(pr.k, pr.d) && NearOk(pr, near) && Within(chunks, |pr.vals|)
    ensures |r| == |flat|
    decreases |chunks|
  {
    if |chunks| == 0 then flat
    else
      var n := |chunks| - 1;
      AddLocalSums(pr, MergeSums(pr, flat, near, chunks[..n]), WorkerSums(pr, near, chunks[n]), pr.k)
  }

  /** Every shared sum row grows by the total of the points that chose its
      cluster, over all the workers. */
  lemma {:induction false} MergeSumsTotal(pr: Problem, flat: seq<real>, near: seq<nat>, chunks: seq<seq<nat>>, c: nat)
    requires pr.Valid() && |flat| == Flat.Offset(pr.k, pr.d) && NearOk(pr, near) && Within(chunks, |pr.vals|)
    requires c < pr.k
    ensures Flat.Rows(MergeSums(pr, flat, near, chunks), pr.k, pr.d)[c]
         == Add(Flat.Rows(flat, pr.k, pr.d)[c], SumVec(Flatten(chunks), Contributions(pr.vals, near, c, pr.d), pr.d))
    decreases |chunks|
  {
    var f := Contributions(pr.vals, near, c, pr.d);
    var row := Flat.Rows(flat, pr.k, pr.d)[c];
    if |chunks| == 0 {
      AddZeros(row);
    } else {
      var n := |chunks| - 1;
      MergeSumsTotal(pr, flat, near, chunks[..n], c);
      WorkerSumsTotal(pr, near, chunks[n], c);
      SumVecAppend(Flatten(chunks[..n]), chunks[n], f, pr.d);
      AddAssoc(row, SumVec(Flatten(chunks[..n]), f, pr.d), SumVec(chunks[n], f, pr.d));
    }
  }

  /** The inner loop over one worker's count changes for clusters [0,n):
      each count grows by its entry, and `done` is cleared by the first
      non-zero entry. */
  function AddDiffs(counts: seq<int>, done: bool, diffs: seq<int>, n: nat): (r: (seq<int>, bool))
    requires |diffs| == |counts| && n <= |counts|
    ensures |r.0| == |counts|
    ensures forall c :: 0 <= c < |counts| ==> r.0[c] == if c < n then counts[c] + diffs[c] else counts[c]
    ensures r.1 <==> done && forall c :: 0 <= c < n ==> diffs[c] == 0
    decreases n
  {
    if n == 0 then (counts, done)
    else
      var (cs, dn) := AddDiffs(counts, done, diffs, n - 1);
      var c := n - 1;
      (cs[c := cs[c] + diffs[c]], dn && diffs[c] == 0)
  }

  /** The loop over the workers' count changes after the `parallel_for`. A
      worker that moved no point never created its vector, which has the
      same effect as a vector of zeros. */
  function MergeCounts(counts: seq<int>, done: bool, prev: seq<int>, near: seq<nat>, chunks: seq<seq<nat>>): (r: (seq<int>, bool))
    requires |prev| == |near| && ValidAssign(prev, |counts|)
    requires forall j :: 0 <= j < |near| ==> near[j] < |counts|
    ensures |r.0| == |counts|
    decreases |chunks|
  {
    if |chunks| == 0 then (counts, done)
    else
      var n := |chunks| - 1;
      var (cs, dn) := MergeCounts(counts, done, prev, near, chunks[..n]);
      AddDiffs(cs, dn, WorkerDiffs(prev, near, chunks[n], |counts|), |counts|)
  }

  /** Every count moves by the total change of its cluster over all the
      workers' points. */
  lemma {:induction false} MergeCountsTotal(counts: seq<int>, done: bool, prev: seq<int>, near: seq<nat>, chunks: seq<seq<nat>>, c: nat)
    requires |prev| == |near| && ValidAssign(prev, |counts|)
    requires forall j :: 0 <= j < |near| ==> near[j] < |counts|
    requires c < |counts|
    ensures MergeCounts(counts, done, prev, near, chunks).0[c]
         == counts[c] + SumInt(Flatten(chunks), Deltas(prev, near, c))
    decreases |chunks|
  {
    if |chunks| > 0 {
      var n := |chunks| - 1;
      MergeCountsTotal(counts, done, prev, near, chunks[..n], c);
      SumIntAppend(Flatten(chunks[..n]), chunks[n], Deltas(prev, near, c));
    }
  }

  /** No worker's vector of count changes has a non-zero entry. */
  predicate NetZero(prev: seq<int>, near: seq<nat>, chunks: seq<seq<nat>>, k: nat)
    requires |prev| == |near| && ValidAssign(prev, k)
    requires forall j :: 0 <= j < |near| ==> near[j] < k
  {
    forall w, c :: 0 <= w < |chunks| && 0 <= c < k ==> WorkerDiffs(prev, near, chunks[w], k)[c] == 0
  }

  /** `done` survives the merge exactly when it was set and every worker's
      count changes cancel out, cluster by cluster. */
  lemma {:induction false} MergeCountsDone(counts: seq<int>, done: bool, prev: seq<int>, near: seq<nat>, chunks: seq<seq<nat>>)
    requires |prev| == |near| && ValidAssign(prev, |counts|)
    requires forall j :: 0 <= j < |near| ==> near[j] < |counts|
    ensures MergeCounts(counts, done, prev, near, chunks).1 <==> done && NetZero(prev, near, chunks, |counts|)
    decreases |chunks|
  {
    if |chunks| > 0 {
      var n := |chunks| - 1;
      MergeCountsDone(counts, done, prev, near, chunks[..n]);
      NetZeroStep(prev, near, chunks, |counts|, WorkerDiffs(prev, near, chunks[n], |counts|));
    }
  }

  /** The workers' changes cancel out exactly when those of all but the last
      worker do and the last worker's do. */
  lemma NetZeroStep(prev: seq<int>, near: seq<nat>, chunks: seq<seq<nat>>, k: nat, last: seq<int>)
    requires |prev| == |near| && ValidAssign(prev, k) && |chunks| > 0
    requires forall j :: 0 <= j < |near| ==> near[j] < k
    requires last == WorkerDiffs(prev, near, chunks[|chunks| - 1], k)
    ensures NetZero(prev, near, chunks, k)
        <==> NetZero(prev, near, chunks[..|chunks| - 1], k) && forall c :: 0 <= c < k ==> last[c] == 0
  {
    var n := |chunks| - 1;
    assert forall w :: 0 <= w < n ==> chunks[..n][w] == chunks[w];
    if NetZero(prev, near, chunks[..n], k) && forall c :: 0 <= c < k ==> last[c] == 0 {
      forall w, c | 0 <= w < |chunks| && 0 <= c < k
        ensures WorkerDiffs(prev, near, chunks[w], k)[c] == 0
      {
        if w < n {
          assert WorkerDiffs(prev, near, chunks[..n][w], k)[c] == 0;
        }
      }
    }
  }

  /** The shared buffers after the assignment `parallel_for` and the two
      merges: every point takes its nearest cluster of the pass-start
      centroids, the counts move by the workers' changes and the sums grow
      by the workers' sums. The centroids are untouched. */
  function Assigned(pr: Problem, chunks: seq<seq<nat>>, x: Instance): (y: Instance)
    requires Fit(pr, x) && IsPartition(chunks, |pr.vals|)
    ensures Fit(pr, y) && y.centralValues == x.centralValues
  {
    var near := Near(pr, Flat.Rows(x.centralValues, pr.k, pr.d));
    RelabelFits(pr, x.points, near);
    PartitionInRange(chunks, |pr.vals|);
    Instance(Relabel(x.points, near), x.centralValues,
             MergeSums(pr, x.attributeSums, near, chunks),
             MergeCounts(x.clusterCounts, true, Ids(x.points), near, chunks).0)
  }

  /** The `done` flag as the program computes it: it starts true and only
      the merge of the count changes can clear it. */
  function DoneAsWritten(pr: Problem, chunks: seq<seq<nat>>, x: Instance): bool
    requires Fit(pr, x)
  {
    var near := Near(pr, Flat.Rows(x.centralValues, pr.k, pr.d));
    MergeCounts(x.clusterCounts, true, Ids(x.points), near, chunks).1
  }

  /** The program's `done` flag stays true exactly when every worker's count
      changes cancel out; in particular it is cleared only when some point
      moved. */
  lemma DoneAsWrittenSpec(pr: Problem, chunks: seq<seq<nat>>, x: Instance)
    requires Fit(pr, x)
    ensures var near := Near(pr, Flat.Rows(x.centralValues, pr.k, pr.d));
      && (DoneAsWritten(pr, chunks, x) <==> NetZero(Ids(x.points), near, chunks, pr.k))
      && (!DoneAsWritten(pr, chunks, x) ==> Ids(x.points) != near)
  {
    var near := Near(pr, Flat.Rows(x.centralValues, pr.k, pr.d));
    var prev := Ids(x.points);
    MergeCountsDone(x.clusterCounts, true, prev, near, chunks);
    if prev == near {
      forall w, c | 0 <= w < |chunks| && 0 <= c < pr.k
        ensures WorkerDiffs(prev, near, chunks[w], pr.k)[c] == 0
      {
        SumIntSameOn(chunks[w], Deltas(prev, near, c), (_: nat) => 0);
        SumIntZero(chunks[w]);
      }
    }
  }

  /** A sum of zeros is zero. */
  lemma {:induction false} SumIntZero(s: seq<nat>)
    ensures SumInt(s, (_: nat) => 0) == 0
    decreases |s|
  {
    if |s| > 0 {
      SumIntZero(s[..|s| - 1]);
    }
  }

  // ---------------------------------------------------------------------------
  // The update loop

  /** The body of the second `parallel_for` for cluster c: with a positive
      count its centroid row becomes its sums divided by the count; its sums
      row becomes zero. No other row changes. */
  function RecentreOne(pr: Problem, y: Instance, c: nat): (r: Instance)
    requires Fit(pr, y) && c < pr.k
    ensures Fit(pr, r) && r.points == y.points && r.clusterCounts == y.clusterCounts
    ensures SumRows(pr, r) == SumRows(pr, y)[c := Zeros(pr.d)]
    ensures CentRows(pr, r)
         == if y.clusterCounts[c] > 0 then CentRows(pr, y)[c := Div(SumRows(pr, y)[c], y.clusterCounts[c])] else CentRows(pr, y)
  {
    Flat.OffsetMono(c, pr.k, pr.d);
    Flat.RowsSetRow(y.attributeSums, pr.k, pr.d, c, Zeros(pr.d));
    if y.clusterCounts[c] > 0 then
      var mean := Div(Flat.Row(y.attributeSums, c, pr.d), y.clusterCounts[c]);
      Flat.RowsSetRow(y.centralValues, pr.k, pr.d, c, mean);
      y.(centralValues := Flat.SetRow(y.centralValues, c, pr.d, mean),
         attributeSums := Flat.SetRow(y.attributeSums, c, pr.d, Zeros(pr.d)))
    else
      y.(attributeSums := Flat.SetRow(y.attributeSums, c, pr.d, Zeros(pr.d)))
  }

  /** The second `parallel_for` for clusters [0,n); the clusters are
      independent of each other. */
  function RecentreUpTo(pr: Problem, x: Instance, n: nat): (r: Instance)
    requires Fit(pr, x) && n <= pr.k
    ensures Fit(pr, r) && r.points == x.points && r.clusterCounts == x.clusterCounts
    decreases n
  {
    if n == 0 then x else RecentreOne(pr, RecentreUpTo(pr, x, n - 1), n - 1)
  }

  /** Handling cluster n-1 after clusters [0,n-1). */
  lemma RecentreStep(pr: Problem, x: Instance, n: nat)
    requires Fit(pr, x) && 0 < n <= pr.k
    ensures RecentreUpTo(pr, x, n) == RecentreOne(pr, RecentreUpTo(pr, x, n - 1), n - 1)
  {
  }

  /** Handling cluster n-1 moves its centroid when its count is positive and
      keeps every other centroid. */
  lemma RecentreStepCent(pr: Problem, x: Instance, n: nat, c: nat)
    requires Fit(pr, x) && 0 < n <= pr.k && c < pr.k
    ensures var y, z := RecentreUpTo(pr, x, n - 1), RecentreUpTo(pr, x, n);
      CentRows(pr, z)[c]
      == if c == n - 1 && x.clusterCounts[c] > 0 then Div(SumRows(pr, y)[c], x.clusterCounts[c]) else CentRows(pr, y)[c]
  {
    RecentreStep(pr, x, n);
  }

  /** Handling cluster n-1 zeroes its sums row and keeps the others. */
  lemma RecentreSumStep(pr: Problem, x: Instance, n: nat, c: nat)
    requires Fit(pr, x) && 0 < n <= pr.k && c < pr.k
    requires SumRows(pr, RecentreUpTo(pr, x, n - 1))[c] == if c < n - 1 then Zeros(pr.d) else SumRows(pr, x)[c]
    ensures SumRows(pr, RecentreUpTo(pr, x, n))[c] == if c < n then Zeros(pr.d) else SumRows(pr, x)[c]
  {
    RecentreStep(pr, x, n);
  }

  /** Before any cluster is handled every row is as it was. */
  lemma RecentreNone(pr: Problem, x: Instance, n: nat)
    requires Fit(pr, x) && n == 0
    ensures RecentreUpTo(pr, x, n) == x
  {
  }

  /** After clusters [0,n) are handled, each of them has zero sums; the
      others keep theirs. */
  lemma RecentreSumRow(pr: Problem, x: Instance, n: nat, c: nat)
    requires Fit(pr, x) && n <= pr.k && c < pr.k
    ensures SumRows(pr, RecentreUpTo(pr, x, n))[c] == if c < n then Zeros(pr.d) else SumRows(pr, x)[c]
  {
    if n == 0 {
      RecentreNone(pr, x, n);
    } else {
      RecentreSumRowFrom(pr, x, n, c);
    }
  }

  /** RecentreSumRow for at least one handled cluster, by induction on n. */
  lemma {:induction false} RecentreSumRowFrom(pr: Problem, x: Instance, n: nat, c: nat)
    requires Fit(pr, x) && 0 < n <= pr.k && c < pr.k
    ensures SumRows(pr, RecentreUpTo(pr, x, n))[c] == if c < n then Zeros(pr.d) else SumRows(pr, x)[c]
    decreases n
  {
    if n > 1 {
      RecentreSumRowFrom(pr, x, n - 1, c);
    } else {
      RecentreNone(pr, x, n - 1);
    }
    RecentreSumStep(pr, x, n, c);
  }

  /** After clusters [0,n) are handled, each of them with a positive count
      sits at its sums divided by the count; the others keep their centroid. */
  lemma RecentreCentRow(pr: Problem, x: Instance, n: nat, c: nat)
    requires Fit(pr, x) && n <= pr.k && c < pr.k
    ensures CentRows(pr, RecentreUpTo(pr, x, n))[c]
         == if c < n && x.clusterCounts[c] > 0 then Div(SumRows(pr, x)[c], x.clusterCounts[c]) else CentRows(pr, x)[c]
  {
    if n == 0 {
      RecentreNone(pr, x, n);
    } else {
      RecentreCentRowFrom(pr, x, n, c);
    }
  }

  /** RecentreCentRow for at least one handled cluster, by induction on n. */
  lemma {:induction false} RecentreCentRowFrom(pr: Problem, x: Instance, n: nat, c: nat)
    requires Fit(pr, x) && 0 < n <= pr.k && c < pr.k
    ensures CentRows(pr, RecentreUpTo(pr, x, n))[c]
         == if c < n && x.clusterCounts[c] > 0 then Div(SumRows(pr, x)[c], x.clusterCounts[c]) else CentRows(pr, x)[c]
    decreases n
  {
    if n > 1 {
      RecentreCentRowFrom(pr, x, n - 1, c);
    } else {
      RecentreNone(pr, x, n - 1);
    }
    RecentreCentStep(pr, x, n, c);
  }

  /** Handling cluster n-1 extends RecentreCentRow from n-1 clusters to n. */
  lemma {:induction false} RecentreCentStep(pr: Problem, x: Instance, n: nat, c: nat)
    requires Fit(pr, x) && 0 < n <= pr.k && c < pr.k
    requires CentRows(pr, RecentreUpTo(pr, x, n - 1))[c]
          == if c < n - 1 && x.clusterCounts[c] > 0 then Div(SumRows(pr, x)[c], x.clusterCounts[c]) else CentRows(pr, x)[c]
    ensures CentRows(pr, RecentreUpTo(pr, x, n))[c]
         == if c < n && x.clusterCounts[c] > 0 then Div(SumRows(pr, x)[c], x.clusterCounts[c]) else CentRows(pr, x)[c]
  {
    var m := n - 1;
    RecentreStepCent(pr, x, n, c);
    RecentreSumRow(pr, x, m, m);
  }

  /** The whole update loop. */
  function Recentre(pr: Problem, x: Instance): (r: Instance)
    requires Fit(pr, x)
    ensures Fit(pr, r)
  {
    RecentreUpTo(pr, x, pr.k)
  }

  /** The update loop is the reference update followed by clearing the sums,
      and leaves the sums buffer zero. */
  lemma RecentreRows(pr: Problem, x: Instance)
    requires Fit(pr, x)
    ensures Shaped(pr, Rows(pr, x))
    ensures Rows(pr, Recentre(pr, x)) == ClearSums(pr, Update(pr, Rows(pr, x)))
  {
    FitRows(pr, x);
    var r, u := Rows(pr, Recentre(pr, x)), ClearSums(pr, Update(pr, Rows(pr, x)));
    forall c: nat | c < pr.k
      ensures r.cents[c] == u.cents[c]
    {
      RecentreCentRow(pr, x, pr.k, c);
    }
    forall c: nat | c < pr.k
      ensures r.sums[c] == u.sums[c]
    {
      RecentreSumRow(pr, x, pr.k, c);
    }
  }

  /** Zero sum rows are a zero sums buffer. */
  lemma RecentreClears(pr: Problem, x: Instance)
    requires Fit(pr, x)
    ensures SumsClear(Recentre(pr, x))
  {
    var r := Recentre(pr, x);
    forall c | 0 <= c < pr.k
      ensures SumRows(pr, r)[c] == Zeros(pr.d)
    {
      RecentreSumRow(pr, x, pr.k, c);
    }
    forall j | 0 <= j < |r.attributeSums|
      ensures r.attributeSums[j] == 0.0
    {
      Flat.ZeroRows(r.attributeSums, pr.k, pr.d, j);
    }
  }

  // ---------------------------------------------------------------------------
  // One iteration

  /** What every iteration keeps: the objects fit and the sums buffer is zero. */
  function Sound(pr: Problem): Instance -> bool
  {
    (y: Instance) => Fit(pr, y) && SumsClear(y)
  }

  /** Sound objects and a split of the points among workers, as one value. */
  function Ready(pr: Problem, chunks: seq<seq<nat>>): Instance -> bool
  {
    (y: Instance) => Fit(pr, y) && SumsClear(y) && IsPartition(chunks, |pr.vals|)
  }

  /** The pass moves the count of cluster c by the points that joined it
      minus those that left it, whatever the split among workers. */
  lemma PassCountChange(pr: Problem, chunks: seq<seq<nat>>, x: Instance, c: nat)
    requires Ready(pr, chunks)(x) && c < pr.k
    ensures Assigned(pr, chunks, x).clusterCounts[c]
         == x.clusterCounts[c] + CountOf(Near(pr, CentRows(pr, x)), c) - CountOf(Ids(x.points), c)
  {
    var near := Near(pr, CentRows(pr, x));
    var prev := Ids(x.points);
    MergeCountsTotal(x.clusterCounts, true, prev, near, chunks, c);
    AllDeltas(prev, near, c, Flatten(chunks));
  }

  /** After the pass cluster c has the reference count. */
  lemma PassCountAt(pr: Problem, chunks: seq<seq<nat>>, x: Instance, c: nat)
    requires Ready(pr, chunks)(x) && c < pr.k
    ensures Shaped(pr, Rows(pr, x))
    ensures Assigned(pr, chunks, x).clusterCounts[c] == CounterPass(pr, Rows(pr, x)).0.counts[c]
  {
    FitRows(pr, x);
    PassCountChange(pr, chunks, x, c);
    CounterPassCountChange(pr, Rows(pr, x), c);
  }

  /** After the pass the sums row of cluster c is the total of the points
      nearest to it, whatever the split among workers. */
  lemma PassSumIs(pr: Problem, chunks: seq<seq<nat>>, x: Instance, c: nat)
    requires Ready(pr, chunks)(x) && c < pr.k
    ensures SumRows(pr, Assigned(pr, chunks, x))[c] == MemberSum(pr.vals, Near(pr, CentRows(pr, x)), c, pr.d)
  {
    var near := Near(pr, CentRows(pr, x));
    PartitionInRange(chunks, |pr.vals|);
    MergeSumsTotal(pr, x.attributeSums, near, chunks, c);
    AllContributions(pr.vals, near, c, pr.d, Flatten(chunks));
    Flat.RowsOfZeros(x.attributeSums, pr.k, pr.d);
    AddZeros(MemberSum(pr.vals, near, c, pr.d));
  }

  /** After the pass the sums row of cluster c is the reference sums row. */
  lemma PassSumAt(pr: Problem, chunks: seq<seq<nat>>, x: Instance, c: nat)
    requires Ready(pr, chunks)(x) && c < pr.k
    ensures Shaped(pr, Rows(pr, x))
    ensures SumRows(pr, Assigned(pr, chunks, x))[c] == CounterPass(pr, Rows(pr, x)).0.sums[c]
  {
    FitRows(pr, x);
    PassSumIs(pr, chunks, x, c);
    CounterPassSum(pr, Rows(pr, x), c);
    CounterPassAssign(pr, Rows(pr, x));
  }

  /** After the pass every cluster has the reference count. */
  lemma PassCounts(pr: Problem, chunks: seq<seq<nat>>, x: Instance)
    requires Ready(pr, chunks)(x)
    ensures Shaped(pr, Rows(pr, x))
    ensures Assigned(pr, chunks, x).clusterCounts == CounterPass(pr, Rows(pr, x)).0.counts
  {
    FitRows(pr, x);
    var y := Assigned(pr, chunks, x);
    var t := CounterPass(pr, Rows(pr, x)).0;
    forall c: nat | c < pr.k
      ensures y.clusterCounts[c] == t.counts[c]
    {
      PassCountAt(pr, chunks, x, c);
    }
  }

  /** After the pass every cluster has the reference sums. */
  lemma PassSums(pr: Problem, chunks: seq<seq<nat>>, x: Instance)
    requires Ready(pr, chunks)(x)
    ensures Shaped(pr, Rows(pr, x))
    ensures SumRows(pr, Assigned(pr, chunks, x)) == CounterPass(pr, Rows(pr, x)).0.sums
  {
    FitRows(pr, x);
    var y := Assigned(pr, chunks, x);
    var t := CounterPass(pr, Rows(pr, x)).0;
    forall c: nat | c < pr.k
      ensures SumRows(pr, y)[c] == t.sums[c]
    {
      PassSumAt(pr, chunks, x, c);
    }
  }

  /** The assignment loop and the two merges are the reference counter pass
      on the rows, whatever the split among workers; the reference flag is
      raised exactly when some point changed cluster. */
  lemma PassRows(pr: Problem, chunks: seq<seq<nat>>, x: Instance)
    requires Ready(pr, chunks)(x)
    ensures Shaped(pr, Rows(pr, x))
    ensures Rows(pr, Assigned(pr, chunks, x)) == CounterPass(pr, Rows(pr, x)).0
    ensures CounterPass(pr, Rows(pr, x)).1 <==> Ids(x.points) != Near(pr, CentRows(pr, x))
  {
    FitRows(pr, x);
    CounterPassAssign(pr, Rows(pr, x));
    RelabelFits(pr, x.points, Near(pr, CentRows(pr, x)));
    PassCounts(pr, chunks, x);
    PassSums(pr, chunks, x);
  }

  /** One iteration of the for-loop body with `done` computed as intended:
      the flag is raised exactly when some point changed cluster. Objects
      that do not fit, or a split that does not cover the points, leave
      everything alone. */
  function Iterate(pr: Problem, chunks: seq<seq<nat>>, x: Instance): (r: (Instance, bool))
    ensures Fit(pr, x) && IsPartition(chunks, |pr.vals|) ==> Fit(pr, r.0)
  {
    if Fit(pr, x) && IsPartition(chunks, |pr.vals|) then
      (Recentre(pr, Assigned(pr, chunks, x)), Ids(x.points) != Near(pr, CentRows(pr, x)))
    else (x, false)
  }

  /** One iteration of the for-loop body as the program computes `done`:
      the flag is the negation of `DoneAsWritten`. */
  function IterateAsWritten(pr: Problem, chunks: seq<seq<nat>>, x: Instance): (r: (Instance, bool))
    ensures Fit(pr, x) && IsPartition(chunks, |pr.vals|) ==> Fit(pr, r.0)
  {
    if Fit(pr, x) && IsPartition(chunks, |pr.vals|) then
      (Recentre(pr, Assigned(pr, chunks, x)), !DoneAsWritten(pr, chunks, x))
    else (x, false)
  }

  /** The two flags differ only in one direction: when the program's flag
      asks for another iteration some point did move, but a pass that moved
      points can end with the program's `done` still true. The objects are
      the same either way. */
  lemma IterateAsWrittenMissesMoves(pr: Problem, chunks: seq<seq<nat>>, x: Instance)
    requires Fit(pr, x) && IsPartition(chunks, |pr.vals|)
    ensures IterateAsWritten(pr, chunks, x).0 == Iterate(pr, chunks, x).0
    ensures IterateAsWritten(pr, chunks, x).1 ==> Iterate(pr, chunks, x).1
    ensures IterateAsWritten(pr, chunks, x).1
        <==> !NetZero(Ids(x.points), Near(pr, CentRows(pr, x)), chunks, pr.k)
  {
    DoneAsWrittenSpec(pr, chunks, x);
  }

  /** On sound objects an iteration is the reference iteration on the rows,
      with the same flag, whatever the split among workers, and keeps them
      sound. */
  lemma IterateRows(pr: Problem, chunks: seq<seq<nat>>, x: Instance)
    requires Ready(pr, chunks)(x)
    ensures Sound(pr)(Iterate(pr, chunks, x).0)
    ensures Shaped(pr, Rows(pr, x))
    ensures Rows(pr, Iterate(pr, chunks, x).0) == Iteration.Step(pr, Rows(pr, x)).0
    ensures Iterate(pr, chunks, x).1 == Iteration.Step(pr, Rows(pr, x)).1
  {
    PassRows(pr, chunks, x);
    var y := Assigned(pr, chunks, x);
    RecentreRows(pr, y);
    RecentreClears(pr, y);
  }


  // ---------------------------------------------------------------------------
  // Seeding and the run

  /** The objects between iterations, with the number of iterations done so
      far, which picks the split of the next one. */
  datatype Progress = Progress(objects: Instance, pass: nat)

  /** One iteration under the split of its pass, with `done` as the program
      computes it. */
  function Advance(pr: Problem, sched: nat -> seq<seq<nat>>, m: Progress): (r: (Progress, bool))
    ensures r.0.pass == m.pass + 1
  {
    var (y, moved) := IterateAsWritten(pr, sched(m.pass), m.objects);
    (Progress(y, m.pass + 1), moved)
  }

  /** The program's iteration, as one value, to drive the for-loop. */
  function Advances(pr: Problem, sched: nat -> seq<seq<nat>>): Progress -> (Progress, bool)
  {
    (m: Progress) => Advance(pr, sched, m)
  }

  /** One iteration under the split of its pass, with `done` cleared as
      intended: whenever some point moved. */
  function AdvanceIntended(pr: Problem, sched: nat -> seq<seq<nat>>, m: Progress): (r: (Progress, bool))
    ensures r.0.pass == m.pass + 1
  {
    var (y, moved) := Iterate(pr, sched(m.pass), m.objects);
    (Progress(y, m.pass + 1), moved)
  }

  /** The intended iteration, as one value. */
  function AdvancesIntended(pr: Problem, sched: nat -> seq<seq<nat>>): Progress -> (Progress, bool)
  {
    (m: Progress) => AdvanceIntended(pr, sched, m)
  }

  /** The rows of the objects, as one value. */
  function Observed(pr: Problem): Progress -> State
  {
    (m: Progress) => Rows(pr, m.objects)
  }

  /** The number of passes done, as one value. */
  function Passes(): Progress -> nat
  {
    (m: Progress) => m.pass
  }

  /** Sound objects, as one value. */
  function SoundProgress(pr: Problem): Progress -> bool
  {
    (m: Progress) => Sound(pr)(m.objects)
  }

  /** Every pass of the run has a split that covers the points. */
  ghost predicate Schedules(pr: Problem, sched: nat -> seq<seq<nat>>) {
    forall p: nat :: IsPartition(sched(p), |pr.vals|)
  }

  /** On sound objects the program's iteration trails the reference
      iteration: the same objects, but a flag that may stay down although
      some point moved. */
  lemma AdvanceTrailsAt(pr: Problem, sched: nat -> seq<seq<nat>>, m: Progress)
    requires Schedules(pr, sched) && SoundProgress(pr)(m)
    ensures StepTrails(Advances(pr, sched), Iteration.Steps(pr), Observed(pr), SoundProgress(pr), m)
  {
    assert Sound(pr)(m.objects) && IsPartition(sched(m.pass), |pr.vals|);
    assert Ready(pr, sched(m.pass))(m.objects);
    IterateAsWrittenMissesMoves(pr, sched(m.pass), m.objects);
    IterateRows(pr, sched(m.pass), m.objects);
  }

  lemma AdvancesTrail(pr: Problem, sched: nat -> seq<seq<nat>>)
    requires Schedules(pr, sched)
    ensures StepsTrail(Advances(pr, sched), Iteration.Steps(pr), Observed(pr), SoundProgress(pr))
  {
    forall m | SoundProgress(pr)(m)
      ensures StepTrails(Advances(pr, sched), Iteration.Steps(pr), Observed(pr), SoundProgress(pr), m)
    {
      AdvanceTrailsAt(pr, sched, m);
    }
  }

  /** On sound objects the intended iteration agrees with the reference
      iteration, flag included. */
  lemma AdvanceIntendedAgreesAt(pr: Problem, sched: nat -> seq<seq<nat>>, m: Progress)
    requires Schedules(pr, sched) && SoundProgress(pr)(m)
    ensures StepAgrees(AdvancesIntended(pr, sched), Iteration.Steps(pr), Observed(pr), SoundProgress(pr), m)
  {
    assert Sound(pr)(m.objects) && IsPartition(sched(m.pass), |pr.vals|);
    assert Ready(pr, sched(m.pass))(m.objects);
    IterateRows(pr, sched(m.pass), m.objects);
  }

  lemma AdvancesIntendedAgree(pr: Problem, sched: nat -> seq<seq<nat>>)
    requires Schedules(pr, sched)
    ensures StepsAgree(AdvancesIntended(pr, sched), Iteration.Steps(pr), Observed(pr), SoundProgress(pr))
  {
    forall m | SoundProgress(pr)(m)
      ensures StepAgrees(AdvancesIntended(pr, sched), Iteration.Steps(pr), Observed(pr), SoundProgress(pr), m)
    {
      AdvanceIntendedAgreesAt(pr, sched, m);
    }
  }

  /** `KMeans::run` on the points `main` built (all unassigned), with the
      finite stream of `rand()` draws and the split of every pass: nothing
      happens when K exceeds the number of points; otherwise the seeding and
      then the for-loop run, ended by the program's `done`. */
  function RunKMeans(pr: Problem, points: seq<Point>, draws: seq<nat>, sched: nat -> seq<seq<nat>>, maxIterations: int): (r: Report<Progress>)
    requires pr.Valid() && PointsHold(pr, points) && AllUnassigned(points)
    ensures r.TooFewPoints? <==> pr.k > |points|
    ensures r.Finished? ==> r.outcome.passes <= Budget(maxIterations) && r.outcome.state.pass == r.outcome.passes
  {
    if pr.k > |points| then TooFewPoints
    else
      StartSeeded(pr, points);
      var (x, seeds) := SeedFrom(pr, draws, Constructed(pr, points), []);
      if |seeds| < pr.k then OutOfDraws
      else
        var start := Progress(x, 0);
        ForLoopCounts(start, Advances(pr, sched), Budget(maxIterations), Passes());
        Finished(ForLoop(start, Advances(pr, sched), Budget(maxIterations)))
  }

  /** The same run with `done` cleared whenever some point moved. */
  function RunKMeansIntended(pr: Problem, points: seq<Point>, draws: seq<nat>, sched: nat -> seq<seq<nat>>, maxIterations: int): (r: Report<Progress>)
    requires pr.Valid() && PointsHold(pr, points) && AllUnassigned(points)
    ensures r.TooFewPoints? <==> pr.k > |points|
    ensures r.Finished? ==> r.outcome.passes <= Budget(maxIterations) && r.outcome.state.pass == r.outcome.passes
  {
    if pr.k > |points| then TooFewPoints
    else
      StartSeeded(pr, points);
      var (x, seeds) := SeedFrom(pr, draws, Constructed(pr, points), []);
      if |seeds| < pr.k then OutOfDraws
      else
        var start := Progress(x, 0);
        ForLoopCounts(start, AdvancesIntended(pr, sched), Budget(maxIterations), Passes());
        Finished(ForLoop(start, AdvancesIntended(pr, sched), Budget(maxIterations)))
  }

  /** From sound objects the program's for-loop trails the reference loop on
      the rows: it keeps the objects sound, takes no more passes, ends in the
      reference state after as many passes, and has the reference outcome
      exactly when it ran out of budget or the reference's pass of the same
      number moved no point either. Otherwise the reference loop goes on
      from the rows the program stopped at. */
  lemma LoopRows(pr: Problem, x: Instance, sched: nat -> seq<seq<nat>>, maxIterations: int)
    requires Sound(pr)(x) && Schedules(pr, sched)
    ensures SoundProgress(pr)(ForLoop(Progress(x, 0), Advances(pr, sched), Budget(maxIterations)).state)
    ensures Iteration.TrailsRun(pr, Rows(pr, x), maxIterations,
                                ForLoop(Progress(x, 0), Advances(pr, sched), Budget(maxIterations)), Observed(pr))
  {
    AdvancesTrail(pr, sched);
    Iteration.RunTrailed(pr, Progress(x, 0), Advances(pr, sched), Observed(pr), SoundProgress(pr), Rows(pr, x), maxIterations);
  }

  /** From sound objects the intended for-loop runs the reference loop on
      the rows: the same passes, the same reason to stop, the final objects
      sound and standing for the reference final state. */
  lemma LoopRowsIntended(pr: Problem, x: Instance, sched: nat -> seq<seq<nat>>, maxIterations: int)
    requires Sound(pr)(x) && Schedules(pr, sched)
    ensures SoundProgress(pr)(ForLoop(Progress(x, 0), AdvancesIntended(pr, sched), Budget(maxIterations)).state)
    ensures Corresponds(ForLoop(Progress(x, 0), AdvancesIntended(pr, sched), Budget(maxIterations)),
                        Iteration.Run(pr, Rows(pr, x), maxIterations), Observed(pr))
  {
    AdvancesIntendedAgree(pr, sched);
    ForLoopSimulation(Progress(x, 0), AdvancesIntended(pr, sched), Rows(pr, x), Iteration.Steps(pr),
                      Observed(pr), SoundProgress(pr), Budget(maxIterations));
  }

  /** Whatever the splits among workers, the program's run trails the
      reference seeded run: it gives up in the same cases; when it finishes
      its objects are sound, it took no more passes, its rows are the
      reference state after as many passes, and it has the reference outcome
      exactly when it ran out of budget or the reference's pass of the same
      number moved no point either. Otherwise the reference run goes on from
      the rows the program stopped at. */
  lemma RunKMeansSpec(pr: Problem, points: seq<Point>, draws: seq<nat>, sched: nat -> seq<seq<nat>>, maxIterations: int)
    requires pr.Valid() && PointsHold(pr, points) && AllUnassigned(points)
    requires Schedules(pr, sched)
    ensures TrailsSeededRun(pr, draws, maxIterations, RunKMeans(pr, points, draws, sched, maxIterations), Observed(pr))
    ensures var r := RunKMeans(pr, points, draws, sched, maxIterations);
      r.Finished? ==> Sound(pr)(r.outcome.state.objects)
  {
    var r := RunKMeans(pr, points, draws, sched, maxIterations);
    if pr.k <= |points| {
      StartSeeded(pr, points);
      var (x, seeds) := SeedFrom(pr, draws, Constructed(pr, points), []);
      if |seeds| == pr.k {
        SeededRows(pr, x, seeds);
        LoopRows(pr, x, sched, maxIterations);
        assert r == Finished(ForLoop(Progress(x, 0), Advances(pr, sched), Budget(maxIterations)));
      } else {
        assert r == OutOfDraws;
      }
    } else {
      assert r == TooFewPoints;
    }
    SeededTrailing(pr, draws, maxIterations, r, Observed(pr));
  }

  /** Whatever the splits among workers, the intended run is the reference
      seeded run seen through the rows: it gives up in the same cases, and
      when it finishes it took the same passes, stopped for the same reason,
      ends in the reference final state and keeps the objects sound. */
  lemma RunKMeansIntendedSpec(pr: Problem, points: seq<Point>, draws: seq<nat>, sched: nat -> seq<seq<nat>>, maxIterations: int)
    requires pr.Valid() && PointsHold(pr, points) && AllUnassigned(points)
    requires Schedules(pr, sched)
    ensures MapReport(RunKMeansIntended(pr, points, draws, sched, maxIterations), Observed(pr))
            == SeededRun(pr, draws, maxIterations)
    ensures var r := RunKMeansIntended(pr, points, draws, sched, maxIterations);
      r.Finished? ==> Sound(pr)(r.outcome.state.objects)
  {
    if pr.k <= |points| {
      StartSeeded(pr, points);
      var (x, seeds) := SeedFrom(pr, draws, Constructed(pr, points), []);
      if |seeds| == pr.k {
        SeededRows(pr, x, seeds);
        LoopRowsIntended(pr, x, sched, maxIterations);
      }
    }
  }

  // ---------------------------------------------------------------------------
  // A run that the program ends too early

  /** Four points in two attributes, (0, 0), (0, 1), (4, 0) and (6, 1), to
      be put in K = 2 clusters. */
  function EarlyProblem(): (pr: Problem)
    ensures pr.Valid() && |pr.vals| == 4 && pr.k == 2 && pr.d == 2
  {
    Problem([[0.0, 0.0], [0.0, 1.0], [4.0, 0.0], [6.0, 1.0]], 2, 2)
  }

  /** Every pass run by a single worker that handles the points in order. */
  function OneWorker(): nat -> seq<seq<nat>>
  {
    (_: nat) => [[0, 1, 2, 3]]
  }

  lemma OneWorkerSchedules()
    ensures Schedules(EarlyProblem(), OneWorker())
  {
    assert [[0, 1, 2, 3]][..0] == [];
    assert Flatten([[0, 1, 2, 3]]) == Range(4);
  }

  /** The squared distance between two two-attribute vectors. */
  lemma SqDistTwo(c: Vec, p: Vec)
    requires |c| == 2 && |p| == 2
    ensures SqDist(c, p) == (c[0] - p[0]) * (c[0] - p[0]) + (c[1] - p[1]) * (c[1] - p[1])
  {
    assert SqDistUpTo(c, p, 1) == SqDiff(c[0], p[0]);
    assert SqDistUpTo(c, p, 2) == SqDistUpTo(c, p, 1) + SqDiff(c[1], p[1]);
  }

  /** Of two centroids the second is the nearest exactly when it is strictly
      nearer. */
  lemma NearestOfTwo(p: Vec, a: Vec, b: Vec)
    requires |a| == |p| && |b| == |p|
    ensures NearestCentroid(p, [a, b]) == if SqDist(b, p) < SqDist(a, p) then 1 else 0
  {
  }

  /** The point of `pr` with index i goes to the nearer of two centroids. */
  lemma NearOfTwo(pr: Problem, a: Vec, b: Vec, i: nat)
    requires pr == EarlyProblem() && |a| == 2 && |b| == 2 && i < 4
    ensures Near(pr, [a, b])[i] == if SqDist(b, pr.vals[i]) < SqDist(a, pr.vals[i]) then 1 else 0
  {
    NearestOfTwo(pr.vals[i], a, b);
  }

  /** Point i goes to the second of the centroids `a` and `b` exactly when
      its squared distances to them, `da` and `db`, say that it is strictly
      nearer. */
  lemma NearOfTwoAt(pr: Problem, a: Vec, b: Vec, i: nat, da: real, db: real)
    requires pr == EarlyProblem() && |a| == 2 && |b| == 2 && i < 4
    requires da == (a[0] - pr.vals[i][0]) * (a[0] - pr.vals[i][0]) + (a[1] - pr.vals[i][1]) * (a[1] - pr.vals[i][1])
    requires db == (b[0] - pr.vals[i][0]) * (b[0] - pr.vals[i][0]) + (b[1] - pr.vals[i][1]) * (b[1] - pr.vals[i][1])
    ensures Near(pr, [a, b])[i] == if db < da then 1 else 0
  {
    NearOfTwo(pr, a, b, i);
    SqDistTwo(a, pr.vals[i]);
    SqDistTwo(b, pr.vals[i]);
  }

  /** Against the seeds (0, 0) and (0, 1) the points go to clusters 0, 1, 0
      and 1. */
  lemma EarlyNearSeeds()
    ensures Near(EarlyProblem(), [[0.0, 0.0], [0.0, 1.0]]) == [0, 1, 0, 1]
  {
    var pr := EarlyProblem();
    var a, b := [0.0, 0.0], [0.0, 1.0];
    NearOfTwoAt(pr, a, b, 0, 0.0, 1.0);
    NearOfTwoAt(pr, a, b, 1, 1.0, 0.0);
    NearOfTwoAt(pr, a, b, 2, 16.0, 17.0);
    NearOfTwoAt(pr, a, b, 3, 37.0, 36.0);
  }

  /** Against the centroids (2, 0) and (3, 1) the points go to clusters 0,
      0, 1 and 1. */
  lemma EarlyNearMeans()
    ensures Near(EarlyProblem(), [[2.0, 0.0], [3.0, 1.0]]) == [0, 0, 1, 1]
  {
    var pr := EarlyProblem();
    var a, b := [2.0, 0.0], [3.0, 1.0];
    NearOfTwoAt(pr, a, b, 0, 4.0, 10.0);
    NearOfTwoAt(pr, a, b, 1, 5.0, 9.0);
    NearOfTwoAt(pr, a, b, 2, 4.0, 2.0);
    NearOfTwoAt(pr, a, b, 3, 17.0, 9.0);
  }


  /** The clusters 0, 1, 0, 1 have two members each, with means (2, 0) and
      (3, 1). */
  lemma EarlyMeans()
    ensures CountOf([0, 1, 0, 1], 0) == 2 && CountOf([0, 1, 0, 1], 1) == 2
    ensures Mean(EarlyProblem().vals, [0, 1, 0, 1], 0, 2) == [2.0, 0.0]
    ensures Mean(EarlyProblem().vals, [0, 1, 0, 1], 1, 2) == [3.0, 1.0]
  {
    var v := EarlyProblem().vals;
    var a: seq<int> := [0, 1, 0, 1];
    var h: seq<int> := [0, 1];
    assert h[..1] == [0] && [0][..0] == [];
    assert a == h + h;
    CountOfAppend(h, h, 0);
    CountOfAppend(h, h, 1);
    EarlySums(v, a, 0, [4.0, 0.0]);
    EarlySums(v, a, 1, [6.0, 2.0]);
  }

  /** The total of cluster c over four points, added up point by point. */
  lemma MemberSumFour(v: seq<Vec>, a: seq<int>, c: int, d: nat)
    requires |v| == 4 && |a| == 4 && Dims(v, d)
    ensures MemberSum(v, a, c, d)
         == Add(Add(Add(Add(Zeros(d), if a[0] == c then v[0] else Zeros(d)),
                            if a[1] == c then v[1] else Zeros(d)),
                        if a[2] == c then v[2] else Zeros(d)),
                if a[3] == c then v[3] else Zeros(d))
  {
    assert v[..0] == [] && a[..0] == [];
    MemberSumStep(v, a, c, d, 0);
    MemberSumStep(v, a, c, d, 1);
    MemberSumStep(v, a, c, d, 2);
    MemberSumStep(v, a, c, d, 3);
    assert v[..4] == v && a[..4] == a;
  }

  /** The total of cluster c of the assignment 0, 1, 0, 1 is the sum of its
      two members. */
  lemma EarlySums(v: seq<Vec>, a: seq<int>, c: nat, total: Vec)
    requires v == EarlyProblem().vals && a == [0, 1, 0, 1] && c < 2
    requires total == [v[c][0] + v[c + 2][0], v[c][1] + v[c + 2][1]]
    ensures MemberSum(v, a, c, 2) == total
  {
    MemberSumFour(v, a, c, 2);
    var r := MemberSum(v, a, c, 2);
    assert r[0] == total[0] && r[1] == total[1];
  }

  /** The draws 0 and 1 pick the points 0 and 1 as seeds. */
  lemma EarlyPicks()
    ensures PickSeeds([0, 1], 4, 2) == [0, 1]
  {
    assert [0, 1][1..] == [1] && [1][1..] == [];
    assert PickFrom([1], 4, 2, [0]) == [0, 1];
  }

  /** Seeding from the points 0 and 1 puts them in clusters 0 and 1 and
      leaves points 2 and 3 unassigned. */
  lemma EarlyAssign()
    ensures SeedAssign(4, [0, 1]) == [0, 1, -1, -1]
  {
    var a := SeedAssign(4, [0, 1]);
    SeedAssignSpec(4, [0, 1]);
    assert a[0] == 0 && a[1] == 1 && a[2] == Unassigned && a[3] == Unassigned;
  }

  /** The draws 0 and 1 pick the points 0 and 1 as seeds: cluster 0 starts
      at (0, 0), cluster 1 at (0, 1), and points 2 and 3 are unassigned. */
  lemma EarlySeeds()
    ensures PickSeeds([0, 1], 4, 2) == [0, 1]
    ensures Seeded(EarlyProblem(), [0, 1]).assign == [0, 1, -1, -1]
    ensures Seeded(EarlyProblem(), [0, 1]).cents == [[0.0, 0.0], [0.0, 1.0]]
  {
    EarlyPicks();
    EarlyAssign();
  }

  /** The reference pass 1 from the seeds moves points 2 and 3 in,
      giving clusters 0, 1, 0, 1 with centroids (2, 0) and (3, 1). */
  lemma EarlyFirstPass(pr: Problem, s0: State)
    requires pr == EarlyProblem() && Consistent(pr, s0)
    requires s0.assign == [0, 1, -1, -1] && s0.cents == [[0.0, 0.0], [0.0, 1.0]]
    ensures Iteration.Step(pr, s0).1
    ensures Consistent(pr, Iteration.Step(pr, s0).0)
    ensures Iteration.Step(pr, s0).0.assign == [0, 1, 0, 1]
    ensures Iteration.Step(pr, s0).0.cents == [[2.0, 0.0], [3.0, 1.0]]
  {
    EarlyNearSeeds();
    EarlyMeans();
    Iteration.StepSpec(pr, s0);
    var s1 := Iteration.Step(pr, s0).0;
    assert s1.assign[2] != s0.assign[2];
    assert s1.cents[0] == Mean(pr.vals, s1.assign, 0, 2);
    assert s1.cents[1] == Mean(pr.vals, s1.assign, 1, 2);
  }

  /** The reference pass 2 moves points 1 and 2. */
  lemma EarlySecondPass(pr: Problem, s1: State)
    requires pr == EarlyProblem() && Consistent(pr, s1)
    requires s1.assign == [0, 1, 0, 1] && s1.cents == [[2.0, 0.0], [3.0, 1.0]]
    ensures Iteration.Step(pr, s1).1
  {
    EarlyNearMeans();
    Iteration.StepSpec(pr, s1);
  }

  /** With one worker, pass 1's count changes do not cancel: two points join
      clusters from unassigned. */
  lemma EarlyFirstNet()
    ensures !NetZero([0, 1, -1, -1], [0, 1, 0, 1], [[0, 1, 2, 3]], 2)
  {
    var chunk: seq<nat> := [0, 1, 2, 3];
    assert chunk[..3] == [0, 1, 2] && [0, 1, 2][..2] == [0, 1] && [0, 1][..1] == [0] && [0][..0] == [];
    var f := Deltas([0, 1, -1, -1], [0, 1, 0, 1], 0);
    assert SumInt(chunk, f) == f(0) + f(1) + f(2) + f(3) == 1;
    assert [[0, 1, 2, 3]][0] == chunk;
    assert WorkerDiffs([0, 1, -1, -1], [0, 1, 0, 1], chunk, 2)[0] == 1;
  }

  /** With one worker, pass 2's count changes cancel: point 1 leaves
      cluster 1 for cluster 0 and point 2 leaves cluster 0 for cluster 1. */
  lemma EarlySecondNet()
    ensures NetZero([0, 1, 0, 1], [0, 0, 1, 1], [[0, 1, 2, 3]], 2)
  {
    var chunk: seq<nat> := [0, 1, 2, 3];
    assert chunk[..3] == [0, 1, 2] && [0, 1, 2][..2] == [0, 1] && [0, 1][..1] == [0] && [0][..0] == [];
    assert [[0, 1, 2, 3]][0] == chunk;
    forall c | 0 <= c < 2
      ensures WorkerDiffs([0, 1, 0, 1], [0, 0, 1, 1], [[0, 1, 2, 3]][0], 2)[c] == 0
    {
      var g := Deltas([0, 1, 0, 1], [0, 0, 1, 1], c);
      assert SumInt(chunk, g) == g(0) + g(1) + g(2) + g(3) == 0;
    }
  }

  /** Program pass 1 from objects standing for the seeded state: it raises
      the program's flag and leaves sound objects standing for the reference
      state after pass 1. */
  lemma EarlyProgramFirst(pr: Problem, m: Progress)
    requires pr == EarlyProblem() && Sound(pr)(m.objects) && m.pass == 0
    requires Rows(pr, m.objects) == Seeded(pr, [0, 1])
    ensures Advance(pr, OneWorker(), m).1
    ensures Sound(pr)(Advance(pr, OneWorker(), m).0.objects)
    ensures Rows(pr, Advance(pr, OneWorker(), m).0.objects) == Iteration.Step(pr, Seeded(pr, [0, 1])).0
  {
    var chunks := OneWorker()(m.pass);
    OneWorkerSchedules();
    assert IsPartition(chunks, |pr.vals|);
    EarlySeeds();
    EarlyNearSeeds();
    EarlyFirstNet();
    IterateAsWrittenMissesMoves(pr, chunks, m.objects);
    IterateRows(pr, chunks, m.objects);
  }

  /** Program pass 2 from objects standing for the reference state after
      pass 1: the workers' count changes cancel, so the program's flag stays
      down. */
  lemma EarlyProgramSecond(pr: Problem, m: Progress, s1: State)
    requires pr == EarlyProblem() && Sound(pr)(m.objects) && Rows(pr, m.objects) == s1
    requires s1.assign == [0, 1, 0, 1] && s1.cents == [[2.0, 0.0], [3.0, 1.0]]
    ensures !Advance(pr, OneWorker(), m).1
  {
    var chunks := OneWorker()(m.pass);
    OneWorkerSchedules();
    assert IsPartition(chunks, |pr.vals|);
    EarlyNearMeans();
    EarlySecondNet();
    IterateAsWrittenMissesMoves(pr, chunks, m.objects);
  }

  /** From objects standing for the seeded state the program's loop stops
      after two passes, the second of which moved points. */
  lemma EarlyProgramLoop(pr: Problem, x: Instance, budget: nat)
    requires pr == EarlyProblem() && Sound(pr)(x) && Rows(pr, x) == Seeded(pr, [0, 1]) && budget >= 2
    ensures ForLoop(Progress(x, 0), Advances(pr, OneWorker()), budget).passes == 2
    ensures ForLoop(Progress(x, 0), Advances(pr, OneWorker()), budget).converged
  {
    var m0 := Progress(x, 0);
    EarlySeeds();
    SeededSpec(pr, [0, 1]);
    var s0 := Seeded(pr, [0, 1]);
    EarlyFirstPass(pr, s0);
    EarlyProgramFirst(pr, m0);
    var m1 := Advance(pr, OneWorker(), m0).0;
    EarlyProgramSecond(pr, m1, Iteration.Step(pr, s0).0);
    ForLoopTwoPasses(m0, Advances(pr, OneWorker()), budget);
  }

  /** From the seeded state the reference run moves points in passes 1 and
      2, so with a budget of at least 3 it runs a third pass. */
  lemma EarlyReferenceRun(pr: Problem, maxIterations: int)
    requires pr == EarlyProblem() && maxIterations >= 3
    ensures SeededRun(pr, [0, 1], maxIterations).Finished?
    ensures SeededRun(pr, [0, 1], maxIterations).outcome.passes >= 3
  {
    EarlySeeds();
    SeededSpec(pr, [0, 1]);
    var s0 := Seeded(pr, [0, 1]);
    EarlyFirstPass(pr, s0);
    var s1 := Iteration.Step(pr, s0).0;
    EarlySecondPass(pr, s1);
    ForLoopThirdPass(s0, Iteration.Steps(pr), Budget(maxIterations));
  }

  /** A run of the program as written that ends too early: on the points
      (0, 0), (0, 1), (4, 0) and (6, 1) with K = 2, the draws 0 and 1 and a
      single worker, the program stops after pass 2, in which point 1 moved
      from cluster 1 to cluster 0 and point 2 from cluster 0 to cluster 1,
      because their count changes cancel. The reference run, and the
      program with `done` cleared on every move, go on to a third pass. */
  lemma StopsEarly(points: seq<Point>, maxIterations: int)
    requires PointsHold(EarlyProblem(), points) && AllUnassigned(points) && maxIterations >= 3
    ensures var r := RunKMeans(EarlyProblem(), points, [0, 1], OneWorker(), maxIterations);
      r.Finished? && r.outcome.passes == 2 && r.outcome.converged
    ensures SeededRun(EarlyProblem(), [0, 1], maxIterations).Finished?
    ensures SeededRun(EarlyProblem(), [0, 1], maxIterations).outcome.passes >= 3
    ensures MapReport(RunKMeans(EarlyProblem(), points, [0, 1], OneWorker(), maxIterations), Observed(EarlyProblem()))
            != SeededRun(EarlyProblem(), [0, 1], maxIterations)
    ensures MapReport(RunKMeansIntended(EarlyProblem(), points, [0, 1], OneWorker(), maxIterations), Observed(EarlyProblem()))
            == SeededRun(EarlyProblem(), [0, 1], maxIterations)
  {
    var pr := EarlyProblem();
    StartSeeded(pr, points);
    var (x, seeds) := SeedFrom(pr, [0, 1], Constructed(pr, points), []);
    EarlySeeds();
    assert seeds == [0, 1];
    SeededRows(pr, x, seeds);
    EarlyProgramLoop(pr, x, Budget(maxIterations));
    EarlyReferenceRun(pr, maxIterations);
    OneWorkerSchedules();
    RunKMeansIntendedSpec(pr, points, [0, 1], OneWorker(), maxIterations);
  }
}
