# k-means, six ways

The repository implements Lloyd's k-means iteration six times in C++. Each
program reads N points of D attributes, picks K initial centroids and then
repeats two phases:

- the **assignment pass** gives every point the index of its nearest
  centroid;
- the **update** moves every non-empty cluster's centroid to the mean of its
  members.

The loop ends after `max_iterations` passes or after a pass in which no point
changed cluster. The six programs differ in their bookkeeping:

| program | membership | sums | centroids | seeding | loop |
|---|---|---|---|---|---|
| `kmeans-serial` | a `vector<Point>` per cluster, removal by linear search | recomputed from the lists | per cluster | predefined 7x16 table | `while (true)` |
| `kmeans-serial-fast` | an `unordered_map` from point id to point | per cluster, cleared before a pass | per cluster | K distinct random points | `for` |
| `kmeans-serial-fast-unroll` | a counter per cluster | per cluster, 8-way unrolled | per cluster | K distinct random points | `for` |
| `kmeans-serial-fast-no-cluster` | a flat counter vector | one flat K*D buffer | one flat K*D buffer | K distinct random points | `for` |
| `kmeans-parallel-simple` | counters merged from per-thread delta vectors | per cluster, behind a mutex | per cluster | predefined 7x16 table | `for` with `parallel_for` |
| `kmeans-parallel-fast` | counters merged from per-thread delta vectors | per-thread K x D matrices merged into a flat buffer | flat K*D buffer | K distinct random points | `for` with `parallel_for` |

## How the model is built

**The reference algorithm.** The model has one reference algorithm and one
model per program. The reference works on `Lloyd.State` rows:

- an assignment vector;
- K centroids;
- K counts;
- K sum rows.

Its parts are:

- `Nearest.NearestCentroid`: the first centroid at least squared distance.
- `Lloyd.CounterPass`: the assignment pass.
- `Lloyd.Update`: the centroid update.
- `Iteration.Step` and `Iteration.Run`: one iteration, and the loop around it.
- `Runs.SeededRun` and `Runs.PredefinedRun`: the whole run, including the
  K > N guard and the choice of the initial centroids.

**The program models.** Each program's model keeps that program's own objects:

- the point list of every cluster;
- the member map;
- the counters;
- the flat buffers;
- the per-worker vectors.

An abstraction function (`Rows`) maps those objects to reference rows. Each
program's `RunKMeansSpec` then proves that its whole run, seen through
`Rows`, is the reference run. parallel-fast is the exception: its merge can
miss a pass in which points moved (see "## Findings"). Its
`RunKMeansSpec` proves what the program as written does: it trails the
reference run pass for pass, stops no later, and gives the reference result
exactly when it ran out of budget or the reference stopped at the same pass.
`RunKMeansIntendedSpec` proves that the corrected merge gives the reference
run.

**The reference's own guarantees.** The reference run is proved:

- consistent (counts are cluster sizes, centroids are means);
- within its pass budget;
- at a fixed point whenever it stops early.

**Parallelism.** The parallel programs' work split is a parameter: a sequence
of index chunks, one per worker, that together cover the points exactly once.
parallel-simple's mutex-protected additions are modelled as an arbitrary
serialisation order. The merged result is proved to be the reference result
for every split and order.

**Numbers and randomness.**

- `double` is modelled as `real`.
- `rand()` is a finite stream of draws.
- Each program's `Point` objects are `Points.Point` values.

## Model

| member | source | states |
|---|---|---|
| Points.NewPoint | src/kmeans-parallel-simple.cpp:32-42 | a new point is unassigned (-1), its values are an exact copy of the input and its attribute count is their number |
| Points.Point.SetCluster | src/kmeans-parallel-simple.cpp:49-52 | only the cluster field changes |
| Flat.OffsetIsProduct | src/kmeans-parallel-fast.cpp:97-99 | the start of row c is c*D, and `getClusterIndex(c, a)` is that start plus a |
| Flat.ClusterIndexBounds | src/kmeans-parallel-fast.cpp:97-99 | for c in [0,K) and a in [0,D), `getClusterIndex(c,a)` lies in [0,K*D), the size the constructor gives the buffers |
| Flat.ClusterIndexInjective | src/kmeans-serial-fast-no-cluster.cpp:92-94 | different (cluster, attribute) pairs get different flat indices |
| Flat.OffsetMono | src/kmeans-parallel-fast.cpp:97-99 | a later row starts after the whole of an earlier row |
| Flat.RowsSetRow | src/kmeans-parallel-fast.cpp:168-170 | writing row c of a flat buffer changes row c of its row view and no other row |
| Flat.RowsOfZeros | src/kmeans-serial-fast-no-cluster.cpp:193 | a flat buffer of zeros has all-zero rows |
| Flat.ZeroRows | src/kmeans-parallel-fast.cpp:260 | a K*D buffer whose K rows are all zero holds only zeros |
| Nearest.NearestCentroid | src/kmeans-parallel-simple.cpp:240-272 | the result is in [0,K); no centroid is strictly nearer; every lower-indexed centroid is strictly farther |
| Nearest.NearestCentroidIff | src/kmeans-parallel-simple.cpp:240-272 | an index is the scan's result exactly when it is the first nearest centroid (both directions) |
| Nearest.FirstNearestUnique | src/kmeans-parallel-simple.cpp:254-270 | the first nearest centroid is unique, so any scan that finds it agrees with the reference |
| Nearest.NearestAmongStep | src/kmeans-parallel-simple.cpp:265-269 | a scan step takes centroid i exactly when it is strictly nearer than the best so far |
| Nearest.SquaredDistance | src/kmeans-parallel-simple.cpp:256-262 | the distance loop returns the sum of squared differences in ascending attribute order |
| Nearest.FindNearestCluster | src/kmeans-parallel-simple.cpp:240-272 | `findNearestCluster` returns the first nearest centroid |
| Membership.MembersOfCount | src/kmeans-serial.cpp:234-248 | the member list of cluster c holds every point assigned to c exactly once and nothing else |
| Membership.MembersOfSize | src/kmeans-serial.cpp:135-138 | the member list is as long as the cluster is large |
| Membership.MembersOfSum | src/kmeans-serial.cpp:258-262 | the members' values add up to the cluster's member total |
| Membership.MemberSetUpdate | src/kmeans-serial-fast.cpp:307-315 | moving point i to v removes it from every other cluster's id set and adds it to that of v |
| Membership.MembersOfJoin | src/kmeans-serial.cpp:244-245 | moving point i into v adds one copy of i to the members of v |
| Membership.MembersOfLeave | src/kmeans-serial.cpp:241-242 | moving point i out of its cluster removes its one copy from that cluster's members |
| Membership.MembersOfOther | src/kmeans-serial.cpp:239-247 | moving point i leaves every other cluster's members alone |
| Membership.MemberSetSize | src/kmeans-serial-fast.cpp:160-163 | the id set of a cluster has as many elements as the cluster has members |
| Membership.RangeContributions | src/kmeans-parallel-fast.cpp:219-225 | adding the contributions of points 0..m-1 gives the total of those assigned to c |
| Membership.AllContributions | src/kmeans-parallel-simple.cpp:390 | adding every point's contribution, in any order, gives the member total of c |
| Membership.RangeDeltas | src/kmeans-parallel-simple.cpp:374-382 | the points' +1/-1 size changes for c add up to the change in the size of c |
| Membership.AllDeltas | src/kmeans-parallel-simple.cpp:394-398 | the size changes of all points, in any order, add up to the change in the size of c |
| Workers.Bump | src/kmeans-parallel-simple.cpp:374-382 | a moved point's delta vector loses one at the old cluster (none when it was -1) and gains one at the new cluster; an unmoved point changes nothing |
| Workers.WorkerDiffs | src/kmeans-parallel-fast.cpp:194-215 | entry c of a worker's thread-local vector, started at K zeros, is the sum over its chunk of the points' size changes for c |
| Workers.Relabel | src/kmeans-parallel-simple.cpp:383 | each point takes its nearest cluster id and nothing else about it changes |
| Workers.RelabelFits | src/kmeans-parallel-fast.cpp:216 | after relabelling, every point carries its nearest cluster id and still fits the problem |
| Sums.SumIntPerm | src/kmeans-parallel-simple.cpp:394-398 | reordering the indices does not change an integer sum, so the merge order of the deltas does not matter |
| Sums.SumVecPerm | src/kmeans-parallel-simple.cpp:218-222 | reordering the indices does not change a vector sum, so the lock order of the additions does not matter |
| Sums.PartitionInRange | src/kmeans-parallel-fast.cpp:202 | the workers of a split of [0,N) handle only indices below N |
| Seeding.PickFrom | src/kmeans-serial-fast.cpp:266-283 | the rejection loop's chosen indices stay pairwise distinct and below N, and no more than K are chosen |
| Seeding.PickFromSpec | src/kmeans-serial-fast.cpp:269-281 | the chosen indices extend those chosen before, each added index is some draw mod N, and the loop stops short of K only when every later draw hit an index already chosen |
| Seeding.PickSeedsSpec | src/kmeans-parallel-fast.cpp:150-176 | every chosen index is some draw mod N, and fewer than K are chosen only when every draw hit an index already chosen |
| Seeding.SeedAssignSpec | src/kmeans-serial-fast-no-cluster.cpp:160-161 | with distinct seeds, point i is in cluster c exactly when it is the c-th seed, and a point that is no seed stays unassigned |
| Seeding.SeededSpec | src/kmeans-serial-fast-unroll.cpp:275-297 | the seeded state is consistent: each cluster has exactly its seed as member, so count 1 is its size and the seed's values are its mean |
| Seeding.PredefinedSpec | src/kmeans-serial.cpp:219-223 | the predefined state is consistent: no cluster has members |
| Objects.IdsSetCluster | src/kmeans-serial-fast.cpp:312 | `setCluster` on point i changes the cluster id of i and no other id |
| Objects.SetClusterHolds | src/kmeans-serial-fast.cpp:312 | moving a point keeps the points those of the problem |
| Objects.SetClusterFits | src/kmeans-serial-fast.cpp:312 | giving a point a valid cluster id keeps every id in range |
| Lloyd.PassUpToAssign | src/kmeans-serial-fast.cpp:302-319 | after points 0..n-1, those carry their nearest cluster, the rest are untouched, and centroids never change |
| Lloyd.PassUpToCounts | src/kmeans-serial-fast-unroll.cpp:317-330 | every count moves exactly as the number of points assigned to its cluster moves |
| Lloyd.PassUpToSums | src/kmeans-serial-fast.cpp:318 | each sum row is the total of the handled points that chose that cluster |
| Lloyd.PassUpToMoved | src/kmeans-serial-fast.cpp:307-315 | the change flag is raised exactly when some handled point changed cluster |
| Lloyd.MoveSweepIsPass | src/kmeans-serial.cpp:234-248 | the move-only sweep (no sums kept) is the counter pass with its sums left alone |
| Lloyd.CounterPassSpec | src/kmeans-serial-fast.cpp:301-319 | after a full pass from cleared sums, the ids are the nearest clusters, counts are sizes, sums are member totals, and the flag is raised exactly when some id differs |
| Lloyd.CounterPassCountChange | src/kmeans-parallel-simple.cpp:374-398 | a full pass moves the count of c by the points that joined c minus those that left |
| Lloyd.UpdateSpec | src/kmeans-serial-fast.cpp:171-179 | after the update, with matching counts and sums, every non-empty centroid is its members' mean and nothing but the centroids changes |
| Lloyd.NoMoveKeepsCentroids | src/kmeans-serial-fast.cpp:322-326 | a pass that moves nothing, from centroids that are already the means, leaves every centroid where it was |
| Lloyd.ClearSums | src/kmeans-serial-fast.cpp:296-299 | the cleared state keeps its shape and every sum row is zeros |
| Lloyd.ClusterSizesSumToAssigned | src/kmeans-serial-fast.cpp:160-163 | with matching counts the cluster sizes add up to the number of assigned points, and to N once all are assigned |
| Iteration.StepSpec | src/kmeans-serial-fast.cpp:292-327 | one iteration gives every point its nearest centroid, keeps counts as sizes, moves each non-empty centroid to its mean, and raises the flag exactly when an assignment changed |
| Iteration.StepFacts | src/kmeans-serial-fast.cpp:292-327 | consistency is kept by every iteration, and an iteration that moves nothing changes nothing |
| Iteration.StepNoMoveIsFixed | src/kmeans-serial-fast.cpp:292-327 | an iteration that moves no point on a consistent state is a fixed point |
| Iteration.Run | src/kmeans-serial-fast.cpp:290-292 | the loop runs at most `max_iterations` passes (none when it is negative) and stops early only on a pass that moved nothing |
| Iteration.RunSpec | src/kmeans-serial-fast.cpp:290-327 | from a consistent start the loop ends consistent; when it converged, its state is a fixed point and every point sits in its nearest centroid's cluster |
| Iteration.WhileRun | src/kmeans-serial.cpp:227-274 | the `while (true)` loop that tests `iter >= max_iterations` after the pass is the for-loop with a budget of max(max_iterations, 1) |
| Iteration.ClearFirstStepSpec | src/kmeans-serial-fast-no-cluster.cpp:190-231 | clearing the sums first and not after leaves the member totals in the sums, and is the reference iteration from the cleared state, flag included |
| Iteration.ClearFirstRunSpec | src/kmeans-serial-fast.cpp:290-327 | the for-loop around the clear-first iteration is the reference run once its last sums are cleared |
| Iteration.RunTrailed | src/kmeans-parallel-fast.cpp:189-262 | a for-loop whose passes trail the reference iteration keeps its invariant, takes no more passes than the reference run, ends in the reference run's state after as many passes, has the reference outcome exactly when it ran out of budget or the reference run also stopped there, and otherwise the reference run goes on from its final state with the budget left |
| Loops.ForLoop | src/kmeans-parallel-fast.cpp:189-193 | `for (; !done && iter <= max_iterations; iter++)` runs at most the budget, stops early only on convergence, and runs at least one pass before it converges |
| Loops.ForLoopIter | src/kmeans-serial-fast-unroll.cpp:312 | the `iter` after the loop is one past the number of passes run, so at least 1 |
| Loops.WhileLoop | src/kmeans-serial.cpp:227-274 | the `while (true)` loop runs at least one pass, at most max(max_iterations, iter) passes, and stops early only on convergence |
| Loops.WhileLoopIsForLoop | src/kmeans-serial.cpp:267-273 | the while loop is a for-loop with a budget of at least one pass, and its reported pass count is the `iter` at the break |
| Loops.ForLoopConvergedIsFixed | src/kmeans-parallel-simple.cpp:342-344 | a for-loop that converged ended in a state its step leaves unchanged |
| Loops.ForLoopSimulation | src/kmeans-parallel-fast.cpp:191-262 | two for-loops whose steps agree through an abstraction end in corresponding states after the same passes |
| Loops.WhileLoopSimulation | src/kmeans-serial.cpp:229-274 | the same for two while loops |
| Loops.ForLoopTrails | src/kmeans-parallel-fast.cpp:189-262 | a for-loop whose flag can miss a change that the other loop's flag reports stops no later, in the other loop's state after as many passes, and has its outcome exactly when it ran out of budget or the other loop stopped there too |
| Loops.ForLoopResume | src/kmeans-parallel-fast.cpp:191 | a for-loop that has not converged after m passes goes on from the state it reached with the budget left |
| Loops.ResumeWithin | src/kmeans-parallel-fast.cpp:191 | the same, with the budget counted from `max_iterations` |
| Loops.TrailingLoop | src/kmeans-parallel-fast.cpp:189-262 | a trailing for-loop run on `max_iterations` keeps the invariant, stops no later, and when the other loop did not stop there the other loop goes on from its final state with the budget left |
| Loops.ForLoopTwoPasses | src/kmeans-parallel-fast.cpp:191 | a loop whose first pass reports a change and whose second does not stops after exactly two passes, converged |
| Loops.ForLoopThirdPass | src/kmeans-parallel-fast.cpp:191 | a loop whose first two passes report a change runs a third when the budget allows |
| Loops.SweepSimulation | src/kmeans-serial-fast.cpp:302-319 | two sweeps over the points whose visits agree through an abstraction end in corresponding states with the same flag |
| Runs.SeededRun | src/kmeans-serial-fast.cpp:258-283 | the run returns at once exactly when K > N, never finishes seeding exactly when the draws give fewer than K distinct indices, and otherwise iterates from the seeded state |
| Runs.SeededRunSpec | src/kmeans-serial-fast.cpp:258-327 | a finished seeded run is consistent, within the budget, and at a fixed point when it converged |
| Runs.SeedingSucceeds | src/kmeans-parallel-fast.cpp:150-176 | seeding finishes whenever the draws, taken mod N, hit at least K different indices |
| Runs.PredefinedRun | src/kmeans-parallel-simple.cpp:316-334 | the run returns at once exactly when K > N; otherwise it iterates from the table's first K rows |
| Runs.PredefinedRunSpec | src/kmeans-parallel-simple.cpp:312-414 | a finished table run is consistent, within the budget, and at a fixed point when it converged |
| Runs.SeededTrailing | src/kmeans-parallel-fast.cpp:178-262 | a run that gives up exactly when the reference seeded run does and whose loop trails the reference run from the seeded state trails the reference seeded run in the same way |
| Buffers.Rows | src/kmeans-parallel-fast.cpp:92-94 | the rows keep the points' ids and the counts, and the centroid and sum rows are the K rows of D values of the flat buffers |
| Buffers.FitRows | src/kmeans-parallel-fast.cpp:145-147 | fitting buffers stand for well-shaped rows, and a zero sums buffer for cleared rows |
| Buffers.RowDistance | src/kmeans-parallel-fast.cpp:116-125 | the distance read through `getClusterIndex(c, 0)` is the squared distance to centroid row c |
| Buffers.FindNearestCluster | src/kmeans-parallel-fast.cpp:102-134 | the flat-buffer scan returns the first nearest centroid row |
| Buffers.Constructed | src/kmeans-serial-fast-no-cluster.cpp:134-145 | the constructor keeps the points, sizes the buffers K*D, K*D and K, and leaves every sum zero |
| Buffers.Accept | src/kmeans-parallel-fast.cpp:160-171 | accepting an index not yet chosen appends it to the chosen list, and the buffers stay seeded by that list: each seed's point in its cluster, count 1, centroid row the seed's values, zero sums |
| Buffers.AcceptPoints | src/kmeans-parallel-fast.cpp:163-164 | the accepted point joins the next cluster and the others keep theirs |
| Buffers.AcceptRows | src/kmeans-parallel-fast.cpp:167-170 | centroid row i holds the accepted point and the rows before it keep their seeds |
| Buffers.SeedFrom | src/kmeans-parallel-fast.cpp:150-176 | the seeding loop chooses exactly the indices of the reference rejection loop, and the buffers are seeded by them |
| Buffers.SeededRows | src/kmeans-serial-fast-no-cluster.cpp:147-173 | buffers seeded with K distinct seeds fit, have zero sums and stand for the reference seeded state |
| NoCluster.ClearAll | src/kmeans-serial-fast-no-cluster.cpp:193 | every value of the sums buffer becomes 0.0; points, centroids and counts stay |
| NoCluster.ClearAllRows | src/kmeans-serial-fast-no-cluster.cpp:193 | clearing the sums buffer is the reference clear |
| NoCluster.Relocate | src/kmeans-serial-fast-no-cluster.cpp:201-209 | moving a point keeps the buffers fitting and leaves the centroid and sums buffers alone |
| NoCluster.RelocateRows | src/kmeans-serial-fast-no-cluster.cpp:201-209 | relocating is the reference move of point i, flagged exactly when the point was elsewhere |
| NoCluster.Accumulate | src/kmeans-serial-fast-no-cluster.cpp:211-217 | adding to the sums keeps the buffers fitting and leaves points, centroids and counts alone |
| NoCluster.AccumulateRows | src/kmeans-serial-fast-no-cluster.cpp:211-217 | the accumulation is the reference addition of point i to sum row k |
| NoCluster.AssignOneRows | src/kmeans-serial-fast-no-cluster.cpp:196-218 | handling point i is the reference step for a point whose nearest cluster is computed from the centroid buffer |
| NoCluster.HandleRows | src/kmeans-serial-fast-no-cluster.cpp:196-218 | the loop body is the reference visit of point i and leaves the centroid buffer untouched |
| NoCluster.PassRows | src/kmeans-serial-fast-no-cluster.cpp:196-218 | the assignment loop is the reference counter pass on the rows, with the same flag, and leaves the centroids alone |
| NoCluster.RecalcOne | src/kmeans-serial-fast-no-cluster.cpp:223-230 | cluster i with a positive count gets sums / count as its centroid row; otherwise nothing changes |
| NoCluster.RecalcCentRow | src/kmeans-serial-fast-no-cluster.cpp:221-231 | after clusters [0,n) are handled, each one with a positive count sits at sums / count and the others keep their centroid |
| NoCluster.RecalculateRows | src/kmeans-serial-fast-no-cluster.cpp:221-231 | the recalculation loop is the reference update |
| NoCluster.IterateRows | src/kmeans-serial-fast-no-cluster.cpp:188-232 | an iteration is the clear-first reference iteration on the rows, with the same flag |
| NoCluster.LoopRows | src/kmeans-serial-fast-no-cluster.cpp:186-232 | the for-loop over fitting buffers corresponds to the clear-first reference run |
| NoCluster.RunKMeans | src/kmeans-serial-fast-no-cluster.cpp:175-232 | the run returns at once exactly when K > N; a finished run stays within the budget and its buffers fit the problem |
| NoCluster.SeededLoop | src/kmeans-serial-fast-no-cluster.cpp:180-232 | from seeded buffers the loop's final buffers, sums aside, are the reference run's final state, with the same passes and flag |
| NoCluster.RunKMeansSpec | src/kmeans-serial-fast-no-cluster.cpp:175-232 | a whole run, seen through its buffers, is the reference seeded run: same outcome, passes, centroids, memberships and counts |
| Serial.AddPoint | src/kmeans-serial.cpp:100-103 | the point is appended and the list grows by exactly one |
| Serial.RemovePoint | src/kmeans-serial.cpp:105-118 | when the id is listed, its first copy is deleted, the rest keep their order and the answer is true; otherwise nothing changes and the answer is false |
| Serial.RemovePointIds | src/kmeans-serial.cpp:105-118 | removing takes one copy of the id out of the list's ids, and none when there is no copy |
| Serial.AddPointIds | src/kmeans-serial.cpp:100-103 | adding puts one copy of the point's id into the list's ids |
| Serial.TotalPoints | src/kmeans-serial.cpp:135-138 | `getTotalPoints` is the list length |
| Serial.Recentre | src/kmeans-serial.cpp:253-263 | a cluster with members gets the list total divided by the list length as centroid; an empty one keeps its centroid |
| Serial.NewCluster | src/kmeans-serial.cpp:94-98 | a table cluster starts with the first D values of its row as centroid and an empty list |
| Serial.ListedSize | src/kmeans-serial.cpp:255 | `getTotalPoints` of a listed cluster is the number of points assigned to it |
| Serial.ListedSum | src/kmeans-serial.cpp:260-261 | the values of a listed cluster's copies add up to the member total, in any list order |
| Serial.RelocateRows | src/kmeans-serial.cpp:236-247 | relocating is the reference move, flagged exactly when the point moved, and keeps every list holding exactly its cluster's members |
| Serial.RelocateListed | src/kmeans-serial.cpp:239-247 | after a move, every list holds each point assigned to its cluster exactly once, as copies of the problem's points |
| Serial.HandleMoves | src/kmeans-serial.cpp:234-248 | handling point i is the reference move towards its nearest centroid and keeps the objects fitting and listed |
| Serial.PassRows | src/kmeans-serial.cpp:234-248 | the assignment loop is the reference move-only pass on the rows, the lists stay right and the centroids are untouched |
| Serial.RecentreAt | src/kmeans-serial.cpp:251-265 | cluster c's new centroid is its members' mean when it has members, and its old centroid otherwise |
| Serial.RecalculateRows | src/kmeans-serial.cpp:251-265 | the recalculation loop is the reference update from the member totals, and the lists are not touched |
| Serial.IterateRows | src/kmeans-serial.cpp:229-274 | on sound objects an iteration is the reference iteration on the rows, with the same flag, and keeps the objects sound |
| Serial.GetIDNearestCenter | src/kmeans-serial.cpp:154-190 | comparing roots of the sums of `pow(.., 2)` terms selects the first nearest centroid by squared distance, for any strictly increasing root |
| Serial.Table | src/kmeans-serial.cpp:209-217 | the table has 7 rows of 16 values |
| Serial.TableClusters | src/kmeans-serial.cpp:220-223 | cluster c has id c, the first D values of table row c and an empty list |
| Serial.StartRows | src/kmeans-serial.cpp:209-223 | the objects built from the table are sound and stand for the reference predefined state |
| Serial.RunKMeans | src/kmeans-serial.cpp:201-274 | the run returns at once exactly when K > N; a finished run did at least 1 and at most max(max_iterations, 1) passes and stopped early only on convergence |
| Serial.LoopRows | src/kmeans-serial.cpp:227-274 | the while loop over sound objects is the reference for-loop with a budget of max(max_iterations, 1) |
| Serial.RunKMeansSpec | src/kmeans-serial.cpp:201-274 | a whole run, seen through the rows, is the reference table run with budget max(max_iterations, 1), and ends with sound objects |
| SerialFast.AddPoint | src/kmeans-serial-fast.cpp:121-124 | the id becomes a key mapped to the point unless it already was one, in which case the map is unchanged |
| SerialFast.RemovePoint | src/kmeans-serial-fast.cpp:127-131 | the id is no longer a key, every other entry stays, and the answer is always true |
| SerialFast.TotalPoints | src/kmeans-serial-fast.cpp:160-163 | `getTotalPoints` is the number of keys |
| SerialFast.UpdateCentralValues | src/kmeans-serial-fast.cpp:171-179 | with members, each centroid value becomes its sum divided by the number of members; without, nothing changes |
| SerialFast.AddAttributeSums | src/kmeans-serial-fast.cpp:182-188 | the point's first D values are added to the sums and nothing else changes |
| SerialFast.ClearAttributeSums | src/kmeans-serial-fast.cpp:191-198 | every sum becomes 0.0 and nothing else changes |
| SerialFast.NewCluster | src/kmeans-serial-fast.cpp:93-105 | the seeding constructor copies the point's values as centroid, keys the point by its id and starts with zero sums |
| SerialFast.KeyedIff | src/kmeans-serial-fast.cpp:302-319 | keyed objects are exactly those where each cluster's keys are the ids assigned to it |
| SerialFast.FitRows | src/kmeans-serial-fast.cpp:160-163 | fitting objects stand for well-shaped rows, and keyed ones for rows whose counts are cluster sizes |
| SerialFast.RelocateKeyed | src/kmeans-serial-fast.cpp:307-315 | relocating keeps each cluster's keys equal to the ids assigned to it |
| SerialFast.RelocateRows | src/kmeans-serial-fast.cpp:307-315 | relocating is the reference move and reports exactly whether the point moved |
| SerialFast.AccumulateRows | src/kmeans-serial-fast.cpp:318 | accumulating adds the point's values to sum row k, as the reference does, and keeps the keys matching |
| SerialFast.AssignOneRows | src/kmeans-serial-fast.cpp:304-318 | handling point i is the reference step towards the nearest centroid |
| SerialFast.HandleRows | src/kmeans-serial-fast.cpp:302-319 | the loop body is the reference visit of point i, keeps the keys matching and leaves the centroids untouched |
| SerialFast.PassRows | src/kmeans-serial-fast.cpp:302-319 | the assignment loop is the reference counter pass on the rows, with the same flag; keys still match and centroids are untouched |
| SerialFast.ClearAllRows | src/kmeans-serial-fast.cpp:296-299 | clearing every cluster's sums is the reference clear and keeps the keys |
| SerialFast.RecalculateRows | src/kmeans-serial-fast.cpp:322-326 | the recalculation loop is the reference update, and the keys still match |
| SerialFast.UpdatedRows | src/kmeans-serial-fast.cpp:171-179 | updating the centres changes only the centroids: each cluster with members moves to sums / size, any other stays |
| SerialFast.IterateRows | src/kmeans-serial-fast.cpp:292-327 | an iteration is the clear-first reference iteration on the rows, with the same flag, and keeps the keys matching |
| SerialFast.Accept | src/kmeans-serial-fast.cpp:273-281 | accepting an index not yet chosen appends it to the chosen list, and the objects stay seeded by that list: each seed's point in its cluster, each cluster built from its seed |
| SerialFast.SeedFrom | src/kmeans-serial-fast.cpp:266-283 | the seeding loop chooses exactly the indices of the reference rejection loop, and the objects are seeded by them |
| SerialFast.SeededKeyed | src/kmeans-serial-fast.cpp:277-278 | with K seeds, cluster c's only key is its seed, the only point assigned to it |
| SerialFast.SeededRows | src/kmeans-serial-fast.cpp:266-283 | seeded objects with K seeds fit, their keys match and they stand for the reference seeded state |
| SerialFast.LoopRows | src/kmeans-serial-fast.cpp:290-327 | the for-loop over sound objects corresponds to the clear-first reference run |
| SerialFast.SeededLoop | src/kmeans-serial-fast.cpp:290-327 | from seeded objects the loop's final objects, sums aside, are the reference run's final state |
| SerialFast.RunKMeansSpec | src/kmeans-serial-fast.cpp:258-327 | a whole run, seen through the rows, is the reference seeded run: same outcome, passes, centroids, memberships and counts |
| SerialFastUnroll.Increment | src/kmeans-serial-fast-unroll.cpp:129-131 | the count rises by one and nothing else changes |
| SerialFastUnroll.Decrement | src/kmeans-serial-fast-unroll.cpp:133-135 | the count drops by one and nothing else changes |
| SerialFastUnroll.ClearAttributeSums | src/kmeans-serial-fast-unroll.cpp:195-199 | every sum becomes 0.0 and nothing else changes |
| SerialFastUnroll.NewCluster | src/kmeans-serial-fast-unroll.cpp:92-101 | the seeding constructor gives a count of 1, D zero sums and a copy of the point's first D values |
| SerialFastUnroll.ScaleByReciprocal | src/kmeans-serial-fast-unroll.cpp:150 | over reals, a sum times the reciprocal of a positive count is the sum divided by the count |
| SerialFastUnroll.UpdateCentralValues | src/kmeans-serial-fast-unroll.cpp:148-169 | with a count of 0 or less nothing changes; otherwise every centroid value, the tail past the last block of 8 included, becomes its sum divided by the count |
| SerialFastUnroll.AddAttributeSums | src/kmeans-serial-fast-unroll.cpp:172-192 | the blocks of 8 and the cleanup loop add each of the D values exactly once, giving `sums[i] + v[i]` for every i |
| SerialFastUnroll.EightTerms | src/kmeans-serial-fast-unroll.cpp:229-247 | one unrolled round adds the squared differences of attributes j..j+7 in ascending order |
| SerialFastUnroll.SquaredDistanceUnrolled | src/kmeans-serial-fast-unroll.cpp:226-254 | the unrolled distance equals the plain ascending sum used for centroid 0 |
| SerialFastUnroll.GetIDNearestCenter | src/kmeans-serial-fast-unroll.cpp:210-264 | the plain loop for centroid 0 and the unrolled loop for the others return the first nearest centroid |
| SerialFastUnroll.RowsSetPoint | src/kmeans-serial-fast-unroll.cpp:327 | changing one point's cluster changes one assignment |
| SerialFastUnroll.RowsSetCluster | src/kmeans-serial-fast-unroll.cpp:325-328 | replacing one cluster object changes that cluster's row only |
| SerialFastUnroll.LeaveCluster | src/kmeans-serial-fast-unroll.cpp:324-325 | the old cluster's count drops by one |
| SerialFastUnroll.JoinCluster | src/kmeans-serial-fast-unroll.cpp:327-328 | the point takes the new id and the new cluster's count rises by one |
| SerialFastUnroll.Relocate | src/kmeans-serial-fast-unroll.cpp:322-330 | relocating is the reference move: the old count drops unless the point was unassigned, the point moves and the new count rises |
| SerialFastUnroll.AssignOne | src/kmeans-serial-fast-unroll.cpp:319-333 | handling point i is the reference step: move to the nearest centroid, then add the point's values to its sums |
| SerialFastUnroll.AssignmentLoop | src/kmeans-serial-fast-unroll.cpp:317-334 | the loop over all points computes the reference pass against the pass-start centroids, with `done` true exactly when no point moved |
| SerialFastUnroll.AssignmentPass | src/kmeans-serial-fast-unroll.cpp:317-334 | the assignment pass is the reference counter pass |
| SerialFastUnroll.RecalculateCenters | src/kmeans-serial-fast-unroll.cpp:337-342 | each cluster updates its centroid and then clears its sums: the reference update followed by a clear |
| SerialFastUnroll.Iterate | src/kmeans-serial-fast-unroll.cpp:314-342 | one iteration of the loop body is the reference iteration, flag included |
| SerialFastUnroll.AcceptSeed | src/kmeans-serial-fast-unroll.cpp:285-293 | accepting an index not yet chosen keeps the seeding invariant: the chosen list is the rejection loop's after this draw, each seed's point is in its cluster and each cluster was built from its seed |
| SerialFastUnroll.SeedStep | src/kmeans-serial-fast-unroll.cpp:281-294 | one draw, skipped or accepted, keeps the seeding invariant for the next draw |
| SerialFastUnroll.InitializeClusterCentroids | src/kmeans-serial-fast-unroll.cpp:275-297 | seeding succeeds exactly when the draws give K distinct indices; then the objects stand for the reference seeded state from those indices |
| SerialFastUnroll.SeededRows | src/kmeans-serial-fast-unroll.cpp:92-101 | objects built from distinct seeds stand for the reference seeded state |
| SerialFastUnroll.LoopStep | src/kmeans-serial-fast-unroll.cpp:312-343 | one pass with its `iter++` keeps the objects on the reference run |
| SerialFastUnroll.IterationLoop | src/kmeans-serial-fast-unroll.cpp:310-343 | the for-loop ends in the reference run's final state, with `iter` one past the passes run |
| SerialFastUnroll.RunKMeans | src/kmeans-serial-fast-unroll.cpp:299-344 | the run's report is the reference seeded run, and a finished run ends with objects standing for its final state and the printed `iter` |
| ParallelSimple.AddNumPoints | src/kmeans-parallel-simple.cpp:146-149 | the count moves by the change, nothing else changes, and the returned answer is true |
| ParallelSimple.UpdateCentralValues | src/kmeans-parallel-simple.cpp:195-208 | with a positive count the first D centroid values become sums / count and the rest of the row stays; otherwise nothing changes |
| ParallelSimple.AddAttributeSums | src/kmeans-parallel-simple.cpp:211-223 | every sum grows by the point's value and nothing else changes |
| ParallelSimple.ClearAttributeSums | src/kmeans-parallel-simple.cpp:226-229 | every sum becomes zero and nothing else changes |
| ParallelSimple.NewCluster | src/kmeans-parallel-simple.cpp:112-123 | the table constructor keeps the whole row as centroid, D zero sums and a count of 0 |
| ParallelSimple.FitRows | src/kmeans-parallel-simple.cpp:183-187 | fitting objects stand for well-shaped rows, and clear sums for cleared rows |
| ParallelSimple.CountChanges | src/kmeans-parallel-simple.cpp:394-398 | merging the thread-local vectors changes only the clusters' counts |
| ParallelSimple.CountChangesTotal | src/kmeans-parallel-simple.cpp:369-398 | every count moves by the total size change of its cluster over all the workers' points |
| ParallelSimple.LockedSums | src/kmeans-parallel-simple.cpp:390 | the locked additions keep the clusters fitting and change only their sums |
| ParallelSimple.LockedSumsTotal | src/kmeans-parallel-simple.cpp:211-223 | every sum row grows by the total of the points that chose its cluster, whatever the lock order |
| ParallelSimple.PassCountChange | src/kmeans-parallel-simple.cpp:369-398 | the pass moves the count of c by the points that joined c minus those that left, for any split among workers |
| ParallelSimple.PassSumIs | src/kmeans-parallel-simple.cpp:390 | after the pass the sums of c are the total of the points nearest to c, for any lock order |
| ParallelSimple.PassRows | src/kmeans-parallel-simple.cpp:369-398 | the pass is the reference counter pass on the rows, with the same flag, whatever the schedule |
| ParallelSimple.RecentredAt | src/kmeans-parallel-simple.cpp:401-404 | updating and clearing cluster c gives the reference centroid |
| ParallelSimple.RecentredRows | src/kmeans-parallel-simple.cpp:401-404 | updating and clearing all clusters is the reference update followed by clearing the sums |
| ParallelSimple.IterateRows | src/kmeans-parallel-simple.cpp:342-414 | on sound objects an iteration is the reference iteration on the rows, with the same flag, whatever the schedule, and keeps them sound |
| ParallelSimple.Table | src/kmeans-parallel-simple.cpp:320-328 | the table has 7 rows of 16 values |
| ParallelSimple.TableClusters | src/kmeans-parallel-simple.cpp:331-334 | cluster c has id c, table row c, zero sums and a count of 0 |
| ParallelSimple.StartRows | src/kmeans-parallel-simple.cpp:320-334 | the objects built from the table are sound and stand for the reference predefined state |
| ParallelSimple.RunKMeans | src/kmeans-parallel-simple.cpp:312-414 | the run returns at once exactly when K > N; a finished run is within the budget and its pass counter equals the passes run |
| ParallelSimple.LoopRows | src/kmeans-parallel-simple.cpp:340-414 | the for-loop over sound objects corresponds to the reference run |
| ParallelSimple.RunKMeansSpec | src/kmeans-parallel-simple.cpp:312-414 | whatever the schedules, a whole run, seen through the rows, is the reference table run, and it ends with sound objects |
| ParallelFast.WorkerSumsTotal | src/kmeans-parallel-fast.cpp:219-225 | row c of a worker's sums is the total of the points of its chunk that chose c |
| ParallelFast.MergeSumsTotal | src/kmeans-parallel-fast.cpp:239-247 | every shared sum row grows by the total of the points that chose its cluster, over all workers |
| ParallelFast.MergeCountsTotal | src/kmeans-parallel-fast.cpp:202-236 | every count moves by the total size change of its cluster over all the workers' points |
| ParallelFast.MergeCountsDone | src/kmeans-parallel-fast.cpp:229-236 | `done` survives the merge exactly when it was set and every worker's deltas are zero, cluster by cluster |
| ParallelFast.DoneAsWrittenSpec | src/kmeans-parallel-fast.cpp:229-236 | the program's `done` stays true exactly when every worker's deltas are zero, and it is false only when some point moved |
| ParallelFast.AddDiffs | src/kmeans-parallel-fast.cpp:230-235 | the inner merge loop adds the worker's entries to the first n counts, and `done` survives exactly when it was set and those entries are zero |
| ParallelFast.RecentreOne | src/kmeans-parallel-fast.cpp:251-260 | cluster i with a positive count gets sums / count as its centroid row, its sums row becomes zero, and no other row changes |
| ParallelFast.RecentreCentRow | src/kmeans-parallel-fast.cpp:250-261 | after clusters [0,n) are handled, each one with a positive count sits at sums / count and the others keep their centroid |
| ParallelFast.RecentreSumRow | src/kmeans-parallel-fast.cpp:260 | after clusters [0,n) are handled their sums rows are zero and the others keep theirs |
| ParallelFast.RecentreRows | src/kmeans-parallel-fast.cpp:250-261 | the update loop is the reference update followed by clearing the sums, and leaves the sums buffer zero |
| ParallelFast.PassCountChange | src/kmeans-parallel-fast.cpp:202-236 | the pass moves the count of c by the points that joined c minus those that left, for any split among workers |
| ParallelFast.PassSumIs | src/kmeans-parallel-fast.cpp:219-247 | after the pass the sums row of c is the total of the points nearest to c, for any split |
| ParallelFast.PassRows | src/kmeans-parallel-fast.cpp:194-247 | the pass is the reference counter pass on the rows, for any split, with the flag raised exactly when some point changed cluster |
| ParallelFast.IterateAsWrittenMissesMoves | src/kmeans-parallel-fast.cpp:229-236 | the program's iteration computes the same objects as the corrected one, and its flag implies the corrected flag |
| ParallelFast.IterateRows | src/kmeans-parallel-fast.cpp:191-261 | on sound buffers the corrected iteration is the reference iteration on the rows, with the same flag, and keeps them sound |
| ParallelFast.Advance | src/kmeans-parallel-fast.cpp:191-261 | one pass of the program's loop, under the split of its pass, advances the pass counter by one |
| ParallelFast.AdvanceTrailsAt | src/kmeans-parallel-fast.cpp:191-261 | on sound buffers the program's pass keeps them sound and gives the reference iteration's rows, and its flag is raised only when the reference flag is |
| ParallelFast.AdvancesTrail | src/kmeans-parallel-fast.cpp:191-261 | the same for every sound state, whatever the splits |
| ParallelFast.AdvanceIntendedAgreesAt | src/kmeans-parallel-fast.cpp:191-261 | on sound buffers the pass with the corrected merge is the reference iteration, flag included |
| ParallelFast.AdvancesIntendedAgree | src/kmeans-parallel-fast.cpp:191-261 | the same for every sound state, whatever the splits |
| ParallelFast.RunKMeans | src/kmeans-parallel-fast.cpp:178-262 | the program's run returns at once exactly when K > N; a finished run is within the budget and its pass counter equals the passes run |
| ParallelFast.RunKMeansIntended | src/kmeans-parallel-fast.cpp:178-262 | the same for the run with the corrected merge |
| ParallelFast.LoopRows | src/kmeans-parallel-fast.cpp:189-262 | the program's for-loop over sound buffers keeps them sound, takes no more passes than the reference run, ends in the reference state after as many passes, and has the reference outcome exactly when it ran out of budget or the reference stopped there too; otherwise the reference run goes on from the rows it stopped at |
| ParallelFast.LoopRowsIntended | src/kmeans-parallel-fast.cpp:189-262 | with the corrected merge the for-loop corresponds to the reference run, for any splits |
| ParallelFast.RunKMeansSpec | src/kmeans-parallel-fast.cpp:178-262 | whatever the splits, the program's run gives up exactly when the reference seeded run does, and a finished run trails it as `LoopRows` states, with sound buffers |
| ParallelFast.RunKMeansIntendedSpec | src/kmeans-parallel-fast.cpp:178-262 | whatever the splits, the run with the corrected merge, seen through the buffers, is the reference seeded run, and it ends with sound buffers |
| ParallelFast.EarlyFirstNet | src/kmeans-parallel-fast.cpp:210-214 | in the example's first pass the single worker's deltas are not all zero |
| ParallelFast.EarlySecondNet | src/kmeans-parallel-fast.cpp:210-214 | in the example's second pass two points trade clusters and the single worker's deltas are all zero |
| ParallelFast.EarlyProgramLoop | src/kmeans-parallel-fast.cpp:189-262 | from the example's seeded buffers the program's loop stops after exactly two passes, reporting convergence |
| ParallelFast.EarlyReferenceRun | src/kmeans-serial-fast.cpp:290-327 | on the example the reference seeded run moves points in both of its first two passes, so it finishes with at least three |
| ParallelFast.StopsEarly | src/kmeans-parallel-fast.cpp:178-262 | on the example the program's run ends converged after 2 passes while the reference seeded run takes at least 3, so the two differ; the run with the corrected merge is the reference run |

## Left out

- `main` in every program is not part of this model. That covers reading
  the input, the BOM and zero-value checks, printing and `chrono` timing.
  The points a run receives are a parameter. They are unassigned, and point
  i has id i and the values of row i.
- `rand()` is a finite sequence of draws. A seeding whose draws run out is
  reported as `OutOfDraws`, since the program's rejection loop would never
  end on such a stream.
- Floating point is modelled as `real`, so rounding is not modelled. As a
  result, `sums[i] * (1.0 / n)` (unroll) and `sums[i] / n` are equal here.
- `sqrt` and `pow` (serial): `pow(x, 2.0)` is `x * x`. `sqrt` is any
  strictly increasing function passed as a parameter. The argmin is proved
  equal to the squared-distance argmin.
- TBB scheduling (`parallel_for`, `enumerable_thread_specific`, the mutex in
  `addAttributeSums`) is a parameter. A pass is given as a split of the
  points into worker chunks (parallel-fast), or as chunks plus a lock order
  (parallel-simple). Every result is proved for every split.
- The unsynchronised write `done = false` inside parallel-simple's
  `parallel_for` is modelled as its intended effect: `done` is false when
  some point moved. Data races are not modelled.
- `#pragma omp simd` and other vectorisation hints carry no meaning and are
  dropped.
- The unused `Cluster(int, Point)` constructor of parallel-simple and
  serial's seeding constructor `Cluster(int, Point)` are not modelled. The
  programs that use a table never call them.
- Getters that only read a field (`getID`, `getCentralValue`, `getValue`,
  `getAllPoints`, `getNumPoints`) are not modelled as members of their own.
  They are read as field accesses wherever the programs call them.
- The setter `setNumPoints` of parallel-simple is not modelled: no program
  calls it.
- Serial.NewCluster: keeps only the first D values of the table row as
  centroid, while the constructor stores all 16. The programs read and write
  only the first `total_values` entries, so nothing they compute differs;
  Serial.TableClusters and Serial.StartRows inherit this.
- Serial.RunKMeans, ParallelSimple.RunKMeans: both require K <= 7 and
  D <= 16 when K <= N. The C++ indexes the 7x16 table out of bounds
  otherwise, which is undefined behaviour rather than a defined error path.
- C++ `int` overflow of counts and indices is not modelled. Counts stay
  below N and indices below K*D, both of which fit the program's `int`s for
  any input the program can hold in memory.
- The printed results after the loop (centroids, timing) are not modelled.
  The final objects and `iter` are returned instead.

## Findings

| source | as written | input that shows it | evidently intended | confidence | as-written member | corrected member |
|---|---|---|---|---|---|---|
| src/kmeans-parallel-fast.cpp:229-236 | `done` is cleared only when some worker's net count change for some cluster is non-zero | D = 2, K = 2, points (0,0), (0,1), (4,0), (6,1), draws 0 then 1, one worker: pass 1 assigns clusters 0, 1, 0, 1 and moves the centroids to (2,0) and (3,1); in pass 2 point 1 moves from cluster 1 to 0 and point 2 from 0 to 1, the worker's deltas cancel, and the program stops after 2 passes where the reference run needs a third | `done` becomes false whenever a point changed cluster, as in the serial programs | not executed | ParallelFast.StopsEarly | ParallelFast.RunKMeansIntendedSpec |
