# Connected components over sketches: a verified model

This project models the connected-components engine of GraphZeppelin in Dafny: a linear
sketch per vertex, a parallel Boruvka loop over a lock-free union-find, an answer that is
kept up to date while the stream runs, the checker that tests compare answers with, and the
hand-off from stream threads to worker threads. `dafny verify dfyconfig.toml` checks it.

## What fits together

* **Sketches.** `Words`, `Pairing`, `SketchSpec` and `Sketch` model buckets, updates, merges
  and samples. A sketch is a function of the set of indices updated an odd number of times,
  and merging is symmetric difference. Hashes are uninterpreted. The *checksum hypothesis*
  (`SketchSpec.Sound`) is the only assumption about them, and it is stated for the cuts a
  query really sampled, not for all sets.
* **Union-find.** `DsuSpec` is the parent forest and its partition, `DsuSequential` the
  single-threaded class, `DsuConcurrent` the atomic steps of the lock-free `find_root` and
  `merge`, `DsuRuns` whole runs with any number of threads, `DsuAlone` runs of one, `DsuFindRace`
  when `find_root` is exact, `DsuFar` how far it gets in any case.
* **One Boruvka round.** `Gather`, `GatherRuns` and `MergeInstructions` are the parallel counting
  sort, `Partition` the split of the vertices over threads, `Round` the walk of every thread with
  the counted hand-off between them, `Supernode` what a thread does with a sample, and
  `RoundRuns` and `RoundZero` the two kinds of round under every interleaving.
* **A query.** `Cuts` shows that merged sketches are cut sketches. `BoruvkaSpec` proves what
  a sequence of rounds says about the graph, `Boruvka` is the loop, `CcSketchAlg` the object
  with its flags, cached answer, exceptions and queries, `Snapshot` the answer handed out.
* **Around it.** `EagerDsu` is `pre_insert` called by many threads, `Flush` and `FlushHistory` the
  hand-off to the workers, `Delivery` and `Ingest` the way of an update from stream to sketch,
  `GraphVerifier` the reference checker, `SampleCount` the number of samples.
* **What goes wrong, and exactly when.** `LabelRace`, `SnapshotRace` and `SplitLabels` follow a race
  in `find_root` from one call to a whole labelling. `Rings` and `Decoys` are a graph and hashes whose
  samples are all known, `CalmMerge`, `LoneIterations`, `RingStart`, `RingSeats`, `RingLabels` and
  `RingQuery` run the threads through two rounds on it, step by step (`Runs`), and `MissedComponent`,
  `LostHalving` and `QueryComplete` draw the conclusions.

The theorems meet in `Ingest.StreamedQueryRight`, from the stream threads to the answer. Its middle
is `BoruvkaSpec.TrailComplete`: whenever a query ends normally on sketches that lag behind nothing
(`Cuts.Flushed`, which `Ingest.ReliableFlushDelivers` supplies), with honest checksums and with no
edge of the graph between two sets that the last round both filed wrongly, the union-find has
exactly the connected components of the graph and the spanning forest is an acyclic subset of it
that spans them.

## Promises that do not hold in general

* **`find_root` of the lock-free union-find can return a vertex that is not a root**, even when
  nothing is being merged. Its loop condition loads `parent[u]` twice; a halving store by
  another thread between the loads makes both operands equal.
  * *Calls.* `DsuFindRace.RaceMissesRoot` builds the schedule for two calls from one vertex,
    `RaceApartMissesRoot` for calls from different vertices. Calls that run freely are exact under
    every schedule if and only if there is at most one or every grandparent is a root
    (`FindExactIff`); from different vertices, if and only if there is at most one or no vertex is
    more than four links below its root (`FindExactApartIff`). A wrong answer is never the start
    or its parent (`DsuFar.NeverShort`).
  * *Labels.* In `create_merge_instructions` every thread searches its own partition in order. Over
    all orders of the instructions and all schedules, the labels made from one union-find are
    always roots if and only if there is one thread or no vertex is more than four links below its
    root (`LabelRace.FiledIff`); over all union-finds of n vertices, if and only if there is one
    thread or n <= 5 (`LabelRace.FiledForAllIff`). Inside a set of that height labels are right
    whatever happens in others (`MergeInstructions.OutcomeFiled`). The same holds of the
    snapshot handed to the user (`SnapshotRace.FaithfulIff`, `FaithfulForAllIff`).
  * *Queries.* A set filed wrongly can hide its open edges, but an edge is only lost when the sets at
    both its ends are. For every number of threads, every sample factor and both builds: a query that
    ends normally has always found the components if and only if there is one thread or n <= 11
    (`QueryComplete.AlwaysRightIff`). For every n >= 12 and every 2 <= threads <= n,
    `MissedComponent.QueryMisses` gives the whole query that misses an edge: the graph, the
    hashes of a configured sketch, every step of round 0, of the labelling, and of the last round. What
    holds always: a pair reported as connected is connected, and the forest is an acyclic part of the
    graph.
  * *Rounds.* That the sets with open edges halve in a round without a failed sample also rests on
    exact labels (`BoruvkaSpec.Halves`), or on exact labels of the sets that survive it
    (`BoruvkaSpec.HalvesWhere`). It always holds if and only if there is one thread or n <= 7
    (`QueryComplete.AlwaysHalvesIff`); `LostHalving.HalvingLost` gives the round that turns three such
    sets into two. Without it a query in which no sample fails still has at most n rounds
    (`BoruvkaSpec.RoundsBounded`).
* **A flush can return before everything has been applied.** A worker that wakes between its own
  `unpause` and `set_non_block(false)` finds the queue empty and in non-blocking mode; if it is
  not scheduled again until the next flush, it goes to sleep without looking at the queue. From the
  driver's side the exact condition is a matter of what was called before: a flush can be relied
  on under every schedule of the workers if and only if the workers have not been resumed since an
  earlier flush, or nothing has been streamed since they were (`FlushHistory.ReliableIff`). The first
  flush always can (`Flush.FirstFlushSafe`); after any later resumption, any number of workers can
  miss any stream (`FlushHistory.NextFlushMisses`). In terms of the workers, a flush can be relied on
  if and only if it starts with an empty queue or with a worker that will look at the queue before
  it sleeps (`Flush.FlushSafeIff`).

Where the comment on `order_edge` (include/dsu.h, lines 28-31) speaks of sizes and of the
parity of a sum, the model follows the code: the higher priority wins, then the smaller id.

## Model

| member | source | states |
|---|---|---|
| Pairing.PairingRoundTrip | src/util.cpp:45-57 | decoding an edge index gives back the edge, whichever way round it was encoded, and the index fits 64 bits |
| Pairing.PairingInjective | src/util.cpp:45-51 | two pairs share an index exactly when they are the same unordered pair |
| Pairing.PairingOrders | src/util.cpp:45-51 | indices order the pairs by their smaller endpoint, then by their larger one |
| Pairing.UnpairingRoundTrip | src/util.cpp:53-57 | a 64-bit index is the index of the edge it decodes to exactly when its halves are in order |
| Depths.IndexDepth | include/bucket.h:54-59 | the depth is the lowest set bit of the hash with the bound's bit set, and never exceeds the bound |
| Depths.XorBits | src/sketch.cpp:149-154 | the exclusive or of two words has exactly the bits in which they differ |
| SketchSpec.BucketFold | src/sketch.cpp:51-83 | each bucket is the XOR of exactly the members of the updated set that an update puts there, in both builds |
| SketchSpec.RowsReached | src/sketch.cpp:51-83 | an update reaches row j of column c exactly if, of its hash under seed + 5 c, bit j is the lowest set bit, or in the other build the lowest set bit is j or a later one below the number of rows |
| SketchSpec.SketchHolds | src/sketch.cpp:51-83 | the whole sketch of a set from the hashes alone: the last bucket XORs all its indices with their checksums, row j of a column those that their hash puts there |
| SketchSpec.UpdateToggles | src/sketch.cpp:51-83 | an update toggles its index in the sketched set; two equal updates cancel |
| SketchSpec.UpdatesSketchParity | src/sketch.cpp:51-83 | any sequence of updates leaves the sketch of its parity set, whatever the order |
| SketchSpec.MergeIsSymDiff | src/sketch.cpp:149-154 | merging sketches the symmetric difference |
| SketchSpec.WordsSuffice | src/sketch.cpp:51-83 | if indices and checksums fit given word widths, so does every bucket of every sketch |
| SketchSpec.SampleAnswers | src/sketch.cpp:94-116 | a sample with samples left answers zero exactly for a zero last bucket, else its index if its checksum is its hash, else the first such bucket of its own columns, else fails |
| SketchSpec.SampleAgrees | src/sketch.cpp:94-116 | a sample depends only on its own columns and the deterministic bucket |
| SketchSpec.RangeMergesRange | src/sketch.cpp:156-179 | a range merge merges exactly the samples of the range, leaves all other columns alone and moves the sample index to the range at the latest |
| SketchSpec.RangeMergeSamplesMerge | src/sketch.cpp:156-179 | a zeroed sketch range-merged with any members for one round answers as their full merge does at that sample |
| SketchSpec.RangesAvoidLast | src/sketch.cpp:156-179 | the columns of a sample lie inside the array and never overlap the deterministic bucket |
| SketchSpec.SampleSound | src/sketch.cpp:94-116 | under the checksum hypothesis a good sample is a member and a zero sample means the set is empty |
| SketchSpec.SampleOfOneOrNone | src/sketch.cpp:94-107 | without any hypothesis one non-zero index is recovered and the empty set is recognised |
| Sketches.Sketch.constructor | src/sketch.cpp:8-21 | a new sketch is the sketch of nothing |
| Sketches.Sketch.Update | src/sketch.cpp:51-83 | in place, changes exactly the buckets that the index reaches (RowsReached), by its index and its checksum |
| Sketches.Sketch.ZeroContents | src/sketch.cpp:86-92 | the sketch of nothing, at its first sample |
| Sketches.Sketch.Sample | src/sketch.cpp:94-116 | answers as specified and advances the sample index unless exhausted |
| Sketches.Sketch.ExhaustiveSample | src/sketch.cpp:118-147 | zero and fail exactly as sample; a good deterministic bucket is the only answer; otherwise the set of indices of the good buckets |
| Sketches.Sketch.Merge | src/sketch.cpp:149-154 | bucket-wise XOR with another sketch |
| Sketches.Sketch.MergeRawBucketBuffer | src/sketch.cpp:181-186 | bucket-wise XOR with raw buckets |
| Sketches.Sketch.RangeMerge | src/sketch.cpp:156-179 | merges the columns of a range and the deterministic bucket, or poisons the sample index |
| DsuSpec.HalveKeepsSets | include/dsu.h:145-152 | a path-halving store moves no element to another set |
| DsuSpec.LinkJoins | include/dsu.h:155-167 | hanging a root under anything above it joins two sets that were distinct, even if that is no longer a root |
| DsuSpec.RootsCountComponents | include/dsu.h:155-167 | a partition spanned by a graph has as many roots as the graph has components |
| DsuSpec.RootIsTop | include/dsu.h:111-117 | the root of a set is its member of highest priority, then of smallest id |
| DsuSpec.RootsFromPartition | include/dsu.h:111-117 | so the partition alone decides the roots, whatever was merged and halved in which order |
| DsuSpec.MergeSequence | include/dsu.h:80-90 | after any sequence of merges two elements share a set exactly when the merged pairs connect them |
| DsuSpec.HalvingHalves | include/dsu.h:71-78 | path halving leaves the start of a search half as deep, rounded up |
| DsuSequential.DisjointSetUnion.FindRoot | include/dsu.h:71-78 | terminates, returns the true root, changes no element's root and leaves exactly what path halving makes of the forest |
| DsuSequential.DisjointSetUnion.Merge | include/dsu.h:80-90 | merges exactly when the sets were distinct; the returned child is the one root lost |
| DsuSequential.DisjointSetUnion.OrderEdge | include/dsu.h:32-36 | the element that stays a root comes first: the higher priority, then the smaller id |
| DsuSequential.DisjointSetUnion.Reset | include/dsu.h:92-96 | every element on its own again |
| DsuConcurrent.FindStepKeeps | include/dsu.h:145-152 | every load and store of find_root, whatever the others do, keeps all sets and strictly reduces the work left |
| DsuConcurrent.CasKeeps | include/dsu.h:162-164 | a successful swap joins two sets distinct at that very step; a failed one continues from the current parent |
| DsuConcurrent.SwapHangs | include/dsu.h:155-167 | the child returned with a successful swap was a root and now hangs under the root returned, one from each of the two sets |
| DsuConcurrent.MergeStepKeeps | include/dsu.h:155-167 | every step of merge keeps the invariant; true means a real union, otherwise no set changes |
| DsuConcurrent.MergeStepsBounded | include/dsu.h:155-167 | every step but a spurious failure reduces the work left |
| DsuRuns.EveryRunAccounted | include/dsu.h:145-167 | in every run of any number of threads: true merges are n minus the number of sets and generate the partition, false ones leave their arguments together, and exactly the children returned are no roots, each returned once |
| DsuRuns.MergeIsWaitFree | include/dsu.h:155-167 | whatever the others do, a call of merge takes fewer than 80 n own steps, plus 26 for each spurious failure |
| DsuFindRace.RaceMissesRoot | include/dsu.h:145-152 | two concurrent calls from a vertex whose grandparent is not a root can return that grandparent |
| DsuFindRace.RaceApartMissesRoot | include/dsu.h:145-152 | so can two calls from different vertices, one climbing into the start of the other |
| DsuFindRace.SteadyStep | include/dsu.h:145-152 | inside a set at most four high every load and store keeps a search exact whatever happens in other sets, and stores above level two only happen where a search starts |
| DsuFindRace.FindExactIff | include/dsu.h:145-152 | all answers are roots under every schedule if and only if there is at most one caller or every grandparent is a root |
| DsuFindRace.FindExactApartIff | include/dsu.h:145-152 | for calls from different vertices: if and only if there is at most one caller or the forest is at most four high |
| DsuFar.FarStep | include/dsu.h:145-152 | every load and store of a search keeps what that rests on |
| DsuFar.NeverShort | include/dsu.h:145-152 | under every schedule a search returns a root or an element at least two links above its start in the forest it began in |
| DsuAlone.FindRoot | include/dsu.h:145-152 | alone, the lock-free find_root terminates with the root and leaves exactly what path halving makes of the forest |
| DsuAlone.Merge | include/dsu.h:155-167 | alone, the lock-free merge terminates, merges exactly when the sets were distinct, and returns the two roots, of which the child is one no more |
| Partition.PartitionsTile | src/cc_sketch_alg.cpp:171-175 | the partitions are consecutive, non-empty and cover all indices |
| Partition.PartitionExact | src/cc_sketch_alg.cpp:171-184 | bounds are the multiples of n / threads rounded up, the partition of an index its quotient rounded down |
| Partition.PartitionOfInverse | src/cc_sketch_alg.cpp:181-184 | get_partition_idx inverts get_ith_partition |
| Partition.FindLastPartitionOfRoot | src/cc_sketch_alg.cpp:186-209 | the binary search returns the partition of the last index of the root, for any hint not after it |
| Partition.NoneEmptyIff | src/cc_sketch_alg.cpp:171-175 | no partition is empty exactly when there are at most as many threads as vertices |
| Partition.LastStartIff | src/cc_sketch_alg.cpp:266-271 | the last thread starts past the end of the instructions exactly when there are more threads than vertices |
| RunningSums.SumsRightIff | src/cc_sketch_alg.cpp:429-436 | the running sums are right for all counts exactly up to one thread more than there are vertices |
| Gather.GatherFind | src/cc_sketch_alg.cpp:399-407 | a load or store of any thread while it labels its vertices keeps what is known of all labels |
| Gather.GatherCapture | src/cc_sketch_alg.cpp:410-419 | an atomic capture reserves room for one thread's vertices of one label, disjoint from all other room |
| GatherRuns.GatherLabels | src/cc_sketch_alg.cpp:399-420 | under any schedule the labelling ends, every label is counted and every thread holds its own offset |
| GatherRuns.ResultFar | src/cc_sketch_alg.cpp:399-407 | however the labelling runs, every label is a root or at least two links above its vertex |
| MergeInstructions.LocalPrefixSums | src/cc_sketch_alg.cpp:423-425 | every partition ends up with its own running sums |
| MergeInstructions.RangeSums | src/cc_sketch_alg.cpp:429-436 | the sum of everything before each partition |
| MergeInstructions.FinishPrefixSums | src/cc_sketch_alg.cpp:439-444 | prefix sums over all vertices |
| MergeInstructions.WriteBack | src/cc_sketch_alg.cpp:446-460 | every vertex is written to its own cell, no two writers share one |
| MergeInstructions.CreateMergeInstructions | src/cc_sketch_alg.cpp:382-462 | the instructions are those of a run of the labelling: a permutation of the vertices sorted by label; labels lie in the vertex's set, are roots or at least two links above the vertex, and are the roots with one thread and inside every set at most four high |
| LabelRace.FiledIff | src/cc_sketch_alg.cpp:382-462 | over all orders and schedules, the labels made from a union-find are always roots if and only if there is one thread or it is at most four high |
| LabelRace.FiledForAllIff | src/cc_sketch_alg.cpp:382-462 | for all union-finds of n vertices, if and only if there is one thread or n <= 5 |
| SplitLabels.WrongInOneSet | src/cc_sketch_alg.cpp:399-420 | a whole run of the labelling with exactly one label wrong |
| SplitLabels.WrongInTwoSets | src/cc_sketch_alg.cpp:399-420 | a whole run of the labelling with exactly two labels wrong, in two different sets, at two pairs of threads or twice at one |
| RoundSpec.HoldsMerge | src/cc_sketch_alg.cpp:212-221 | range-merging the sketches of other vertices adds exactly those vertices to what an accumulator holds |
| RoundSpec.HoldsSamples | src/cc_sketch_alg.cpp:337-371 | an accumulator that holds a whole component answers as the XOR of exactly its members |
| Round.ScanKeeps | src/cc_sketch_alg.cpp:290-335 | a turn of the scanning loop accumulates exactly the component's vertices of the thread's partition |
| Round.SearchFindsTail | src/cc_sketch_alg.cpp:337-340 | the binary search leads every thread of a component to the slot of the component's last thread |
| Round.NeedKeeps | src/cc_sketch_alg.cpp:337-345 | the first thread announces exactly how many threads share the component |
| Round.MergeReader | src/cc_sketch_alg.cpp:212-221 | query_ready is seen exactly by the last of the needed threads to merge |
| Round.MergeKeeps | src/cc_sketch_alg.cpp:212-221 | merge_global adds exactly the thread's own part to the component's slot and touches no other |
| Round.TakeLocalKeeps | src/cc_sketch_alg.cpp:309-318 | a component inside one partition is sampled once, on exactly its members |
| Round.TakeSlotKeeps | src/cc_sketch_alg.cpp:347-358 | a component across partitions is sampled once, by the one thread that saw query_ready, on exactly its members |
| Round.TailUnique | src/cc_sketch_alg.cpp:339-345 | no slot serves two components |
| Round.WalkEnd | src/cc_sketch_alg.cpp:246-380 | when every thread is done every component has been sampled |
| Supernode.BeginKeeps | src/cc_sketch_alg.cpp:137-149 | taking a sample keeps the invariant of the shared variables |
| Supernode.AdvanceKeeps | src/cc_sketch_alg.cpp:150-166 | every atomic step of every thread keeps it: the linked edges form a forest that generates the partition |
| Supernode.Quiescent | src/cc_sketch_alg.cpp:137-169 | when all threads are idle the forest is complete and made of sampled edges, and the flag says exactly whether something was linked or failed |
| SampleLog.RecordBegin | src/cc_sketch_alg.cpp:137-169 | every outcome has its own effect on the shared variables and no other |
| RoundRuns.StepKeeps | src/cc_sketch_alg.cpp:246-380 | every step of every thread of a round keeps the invariant, and sets only grow |
| RoundRuns.RoundEnd | src/cc_sketch_alg.cpp:246-380 | after the parallel region every component was sampled exactly once on exactly its members, and the exception flag is exact |
| RoundRuns.ResultRight | src/cc_sketch_alg.cpp:246-380 | whatever run of the parallel region ends, it ends in such a state |
| RoundRuns.PerformRound | src/cc_sketch_alg.cpp:246-380 | a whole round ends under every schedule, by a run of the region, in such a state |
| RoundZero.SampleKeeps | src/cc_sketch_alg.cpp:223-244 | an iteration of round 0 samples its own vertex once |
| RoundZero.ResultRight | src/cc_sketch_alg.cpp:223-244 | whatever run of round 0 ends, every vertex has been sampled once, its sample index is 1 and every outcome has had its effect |
| RoundZero.RunRoundZero | src/cc_sketch_alg.cpp:223-244 | round 0 ends so under every schedule and every division of the iterations |
| CalmMerge.CalmStep | include/dsu.h:145-167 | a merge of two elements whose parents are roots stores nothing but its swap |
| LoneIterations.Iterate | src/cc_sketch_alg.cpp:223-244 | one whole iteration of round 0 with no other thread at work, and exactly what it does to the union-find |
| Cuts.IdsSymDiff | src/cc_sketch_alg.cpp:127-133 | differences of graphs are differences of index sets |
| Cuts.CutGrows | src/cc_sketch_alg.cpp:127-133 | moving a vertex into a set flips exactly its own edges in the cut |
| Cuts.CutSketch | src/cc_sketch_alg.cpp:127-133 | the XOR of the sketches of any vertex set is the sketch of the edges leaving it |
| Cuts.CutSample | src/cc_sketch_alg.cpp:137-149 | under the hypothesis for its cut, a merged component answers with an edge that leaves it, or rightly with none, or fails |
| BoruvkaSpec.GroupIsClass | src/cc_sketch_alg.cpp:382-462 | with exact labels the groups sampled are the sets of the union-find |
| BoruvkaSpec.RoundInsideGraph | src/cc_sketch_alg.cpp:137-166 | whatever the labels, every edge sampled or linked on honest checksums is an edge of the graph |
| BoruvkaSpec.ThrowsIff | src/sketch.cpp:94-97 | a round throws exactly when its number has reached the number of samples |
| BoruvkaSpec.UnmodifiedIsComplete | src/cc_sketch_alg.cpp:490-499 | a round that changes nothing proves that the sets are the graph's components, unless an edge joins two sets it both filed wrongly |
| BoruvkaSpec.HalvesWhere | src/cc_sketch_alg.cpp:490-507 | if no sample fails, sets with open edges at least halve when those that survive were filed exactly |
| BoruvkaSpec.Halves | src/cc_sketch_alg.cpp:490-507 | with exact labels and no failed sample, sets with open edges at least halve, and a round that changed something had two |
| BoruvkaSpec.InnerRound | src/cc_sketch_alg.cpp:490-499 | a round in which every sample finds an edge inside a set, or none, changes nothing |
| BoruvkaSpec.RoundsBounded | src/cc_sketch_alg.cpp:490-507 | whatever the labels and the checksums: if no sample fails there are at most n rounds, and none throws with n samples |
| BoruvkaSpec.TrailInsideGraph | src/cc_sketch_alg.cpp:464-513 | however a query ends, its forest is part of the graph |
| BoruvkaSpec.TogetherMeansConnected | src/cc_sketch_alg.cpp:464-513 | whatever the labels, vertices a query puts together are connected |
| BoruvkaSpec.TrailComplete | src/cc_sketch_alg.cpp:464-513 | such a query that ends normally has found exactly the components, and an acyclic forest inside the graph that spans them |
| BoruvkaSpec.NeverExhausted | src/cc_sketch_alg.cpp:490-507 | with exact labels in every round, if no sample fails, at most floor(log2 n) + 1 rounds run, and none throws when 2 to the number of samples exceeds n |
| Boruvka.PerformRound | src/cc_sketch_alg.cpp:246-380 | one round of either kind, with what it started from and what it left |
| Boruvka.Regroup | src/cc_sketch_alg.cpp:502-505 | instructions for the next round from the union-find of this one |
| Boruvka.ExactWhen | src/cc_sketch_alg.cpp:464-513 | labels are exact in the first round, and after it with one thread or from a union-find at most four high |
| Boruvka.AlwaysExact | src/cc_sketch_alg.cpp:464-513 | with one thread or at most five vertices the labels of every round are exact |
| Boruvka.Emulate | src/cc_sketch_alg.cpp:464-513 | the loop always ends, normally exactly when it needed fewer rounds than there are samples; every round was run by the threads, every later one on labels made from the union-find before it, and only round 0 samples the vertex sketches |
| Decoys.PreferredSample | src/sketch.cpp:94-116 | hashes under which a sample of two indices answers with the one that ranks lower, in both builds |
| Decoys.FewSound | src/sketch.cpp:94-116 | these hashes satisfy the checksum hypothesis for every set of at most two indices |
| Rings.ArcAnswer | src/cc_sketch_alg.cpp:127-133 | on a ring under these hashes the sample of any arc is honest and known |
| RingStart.GrownRun | src/cc_sketch_alg.cpp:223-244 | a run of round 0 by any such division that leaves chains five links high |
| RingLabels.RacedInstructions | src/cc_sketch_alg.cpp:382-462 | a run of the labelling that files the lower ends of these chains four links up and all others under their roots |
| RingSeats.Seat12 | src/cc_sketch_alg.cpp:171-175 | for every n >= 12 and 2 <= threads <= n the ring can be laid out so that the threads race there |
| RingQuery.RingRuns | src/cc_sketch_alg.cpp:464-513 | round 0, the labelling and round 1 as one query of the threads |
| MissedComponent.QueryMisses | src/cc_sketch_alg.cpp:464-513 | for every n >= 12, 2 <= threads <= n, any sample factor and both builds: a query the threads can run, on configured sketches with honest checksums and all updates in place, that ends normally without having found the components |
| LostHalving.HalvingLost | src/cc_sketch_alg.cpp:490-507 | for every n >= 8 and 2 <= threads <= n: such a query with a round in which no sample fails and the sets with open edges do not halve |
| QueryComplete.RegroupedCovers | src/cc_sketch_alg.cpp:464-513 | with one thread or at most eleven vertices no edge joins two sets filed wrongly |
| QueryComplete.EndsRight | src/cc_sketch_alg.cpp:464-513 | whatever the parameters of the sketches: with one thread or at most eleven vertices a normal end has found the components |
| QueryComplete.AlwaysRightIff | src/cc_sketch_alg.cpp:464-513 | for every number of threads, over all queries the threads can run: normal ends are always right if and only if there is one thread or n <= 11 |
| QueryComplete.RoundHalves | src/cc_sketch_alg.cpp:490-507 | with one thread or at most seven vertices every round without a failed sample halves the sets with open edges |
| QueryComplete.AlwaysHalvesIff | src/cc_sketch_alg.cpp:490-507 | for every number of threads: such rounds always do if and only if there is one thread or n <= 7 |
| SampleCount.CcSamples | include/sketch.h:74-76 | the least number from 18 on that covers the factor times the logarithm of n |
| SampleCount.SamplesReach | include/sketch.h:74-76 | in the words of the code: the least number from 18 on at which (5/3)^samples reaches n^factor, in the other build (3/2)^samples |
| SampleCount.VectorCountsEdges | include/sketch.h:61-63 | the length of the sketched vector is the number of edges a graph on n vertices can have |
| SampleCount.ConfiguredMeans | include/sketch.h:61-63 | a column has one row more than the least power of two that reaches the number of possible edges, a sample one column or, in the other build, seven |
| SampleCount.EnoughRows | include/sketch.h:181 | from eight vertices on a column has at least six buckets |
| SampleCount.SamplesCoverLog | include/sketch.h:74-76 | at a factor of at least one, 2 to that number exceeds n |
| EagerDsu.ActKeeps | src/cc_sketch_alg.cpp:79-104 | every step of any number of stream threads in pre_insert keeps forest, partition and toggle counts in step |
| EagerDsu.EveryRun | src/cc_sketch_alg.cpp:79-104 | so does every run from a state a query can leave |
| EagerDsu.RowsExclusive | src/cc_sketch_alg.cpp:93-101 | in every run no two threads are at the same adjacency set of the forest at once |
| EagerDsu.CachedAnswer | src/cc_sketch_alg.cpp:79-104 | while dsu_valid holds the forest is an acyclic subset of the toggled graph and the partition is the graph's components |
| EagerDsu.FlagMeansUntouched | src/cc_sketch_alg.cpp:79-104 | the flag is cleared exactly when an edge of the forest was toggled again |
| Snapshot.ConnectedComponents | src/return_types.cpp:5-19 | the parallel snapshot is one that some run of the loop leaves; it labels every vertex inside its set, by a root or an element at least two links up, and every root with itself; it is exact with one thread or in a forest at most four high |
| Snapshot.ResultFar | src/return_types.cpp:9-17 | whatever run of the loop ends, every label is a root or at least two links above its vertex |
| Snapshot.SomeFaithful | src/return_types.cpp:5-19 | whatever the forest and the number of threads, some schedule leaves an exact snapshot |
| SnapshotRace.FaithfulIff | src/return_types.cpp:5-19 | over all schedules and divisions of the loop, the snapshot of a union-find is always exact if and only if there is one thread or it is at most four high |
| SnapshotRace.FaithfulForAllIff | src/return_types.cpp:5-19 | for all union-finds of n vertices, if and only if there is one thread or n <= 5 |
| Snapshot.CountsEverySet | src/return_types.cpp:9-18 | the count is never below the number of sets, and equal exactly when only roots label themselves |
| Snapshot.GetComponentSets | src/return_types.cpp:23-30 | one set per label, in order of the label; vertices share a set exactly when their labels agree |
| Snapshot.SetsAreComponents | src/return_types.cpp:23-30 | of an exact snapshot, the sets of the union-find, each listed once |
| Snapshot.ListEdges | src/return_types.cpp:32-41 | every forest edge listed once, by smaller endpoint |
| ConnectedComponentsAlg.CCSketchAlg.constructor | src/cc_sketch_alg.cpp:11-31 | empty sketches, an empty graph and a valid cached answer |
| ConnectedComponentsAlg.CCSketchAlg.PreInsert | src/cc_sketch_alg.cpp:79-104 | toggles the net graph; while the answer is valid, joins the ends of an edge between two sets and adds it to the forest, or ends the validity exactly when the edge was in the forest; otherwise leaves it alone; a self loop changes nothing |
| ConnectedComponentsAlg.CCSketchAlg.ApplyUpdateBatch | src/cc_sketch_alg.cpp:106-118 | throws while locked and changes nothing, otherwise toggles the batch's parity set at one vertex |
| ConnectedComponentsAlg.FillDelta | src/cc_sketch_alg.cpp:109-114 | the delta sketch becomes the sketch of the batch's parity set, whatever it held |
| ConnectedComponentsAlg.CCSketchAlg.ApplyRawBucketsUpdate | src/cc_sketch_alg.cpp:120-123 | merges any raw buckets into one vertex sketch; if they are the sketch of some indices, toggles those |
| ConnectedComponentsAlg.CCSketchAlg.Update | src/cc_sketch_alg.cpp:127-133 | does all of that, toggles the index in both sketches, changes no other flag, and keeps every sketch in step with the graph if they were |
| ConnectedComponentsAlg.CCSketchAlg.BoruvkaEmulation | src/cc_sketch_alg.cpp:464-513 | a whole query run by the threads, whose last union-find and forest the object is left with; a normal end validates the answer and releases the lock; an exception leaves the flags and keeps the lock |
| ConnectedComponentsAlg.CCSketchAlg.Refresh | src/cc_sketch_alg.cpp:530-550 | however a query ends every sketch is back at its first sample, and the answer is that of its last round; what it may be trusted for |
| ConnectedComponentsAlg.CCSketchAlg.ConnectedComponents | src/cc_sketch_alg.cpp:515-557 | cached answer, left as it was, or a whole query; the labels and the count are those of a run of the parallel loop over that union-find, every label a root or at least two links up; under the hypotheses of the main theorem they show the components |
| ConnectedComponentsAlg.CCSketchAlg.CalcSpanningForest | src/cc_sketch_alg.cpp:559-568 | the cached forest or that of the query, each edge once by smaller endpoint: n minus the number of sets edges, acyclic, spanning the graph's components under those hypotheses |
| ConnectedComponentsAlg.CCSketchAlg.PointQuery | src/cc_sketch_alg.cpp:570-612 | whether two vertices share a set of the cached union-find or of the one the query left, which under those hypotheses is whether they are connected; the answer itself stays |
| ConnectedComponentsAlg.AnswerIsComponents | src/return_types.cpp:5-19 | labels equal exactly for connected vertices, and as many as components |
| ConnectedComponentsAlg.CacheEqualsFreshQuery | src/cc_sketch_alg.cpp:515-557 | the cached answer and a fresh query agree on every pair of vertices |
| ConnectedComponentsAlg.SamplesSuffice | include/sketch.h:74-76 | with the configured number of samples, at a factor of at least one, a query with exact labels in every round and no failed sample never throws |
| ConnectedComponentsAlg.EighteenSuffice | include/sketch.h:74-76 | whatever the labels and the factor, up to 18 vertices a query in which no sample fails never throws |
| Verifier.GraphVerifier.EdgeUpdate | test/util/graph_verifier.cpp:49-64 | toggles the edge, flips its own cell of the matrix and no other, and asks for a recomputation, or throws and changes nothing |
| Graphs.ConnectedIffPath | test/util/graph_verifier.cpp:66-79 | connectivity, which all results are stated with, is reachability by paths |
| Verifier.GraphVerifier.Kruskal | test/util/graph_verifier.cpp:66-79 | the union-find and the count become those of the graph in the matrix |
| Verifier.GraphVerifier.VerifyEdge | test/util/graph_verifier.cpp:81-88 | accepts exactly the edges of the graph, and a self loop by its cell on the diagonal |
| Verifier.AgreementIff | test/util/graph_verifier.cpp:95-104 | for any labels, one-way refinement and an equal count hold exactly when the partition and the count are the graph's |
| Verifier.IdempotentCount | test/util/graph_verifier.cpp:95-98 | when labels label themselves the count is no extra condition |
| Verifier.GraphVerifier.VerifyConnectedComponents | test/util/graph_verifier.cpp:90-105 | accepts exactly the labellings whose count and partition are the graph's |
| Verifier.ForestishSnoc | test/util/graph_verifier.cpp:114-122 | an edge list stays a forest without repetitions exactly when the new edge joins two of its components |
| Verifier.GraphVerifier.VerifySpanningForests | test/util/graph_verifier.cpp:107-149 | accepts exactly when each forest spans what the ones before it left of the graph; the first that does not is a bad edge exactly when the first edge that breaks it is not in what is left, an incorrect forest otherwise; restores the matrix on every exit, and says which graph the cached components are of and when a recomputation is due |
| Verifier.GraphVerifier.Combine | test/util/graph_verifier.cpp:151-157 | the symmetric difference of two graphs, cell by cell |
| Flush.ActConserves | include/worker_thread_group.h:63-90 | no step loses, duplicates or invents an update: each is in the gutters, the queue, a worker's hands, or applied |
| Flush.EveryRun | include/worker_thread_group.h:63-168 | so does every run, and only sleeping workers are marked as paused |
| Flush.ReturnComplete | include/worker_thread_group.h:136-161 | a watched flush returns only when everything inserted has been applied exactly once and nobody holds a batch |
| Flush.FlushSafeIff | include/worker_thread_group.h:136-168 | a flush can be relied on if and only if it starts with an empty queue or a worker that will look at it |
| Flush.FirstFlushSafe | include/worker_thread_group.h:136-161 | the first flush can always be relied on |
| FlushHistory.ReliableIff | include/worker_thread_group.h:136-168 | by the driver's own calls: a flush can be relied on if and only if the workers were not resumed after an earlier flush or nothing was streamed since |
| FlushHistory.NextFlushMisses | include/worker_thread_group.h:162-168 | after any flush that returned, for any number of workers and any stream, the next flush can return with the stream still queued |
| FlushHistory.SomeFlushReturns | include/worker_thread_group.h:136-161 | some flush does return, for any number of workers |
| FlushHistory.StreamingClear | include/worker_thread_group.h:162-168 | in every run, while the workers stream none is told to pause or marked as paused, and all wait for the queue |
| FlushHistory.LooksBeforeSleeping | include/worker_thread_group.h:63-90 | a worker that is awake is only marked as paused after it has found the queue empty and then been told to pause, in that order |
| Delivery.BatchTracks | src/cc_sketch_alg.cpp:106-118 | applying a batch moves the sketch of its vertex as the odd halves move, and no other |
| EagerDsu.ActSane | src/cc_sketch_alg.cpp:79-104 | from any answer whatever, right or wrong, every step of pre_insert can be taken |
| Ingest.ActKeeps | include/graph_sketch_driver.h:150-206 | every step of stream threads, driver and workers, and every query in between, right, wrong or failed, keeps what was handed over and what is owed in step with the toggles, and the sketches with what was applied |
| Ingest.LockedSketches | src/cc_sketch_alg.cpp:106-108 | while update_locked is set no step but the end of a query changes a sketch or applies an update |
| Delivery.DeliveredMeansFlushed | include/graph_sketch_driver.h:193-203 | when every half has been applied the sketches are those of the net graph |
| Ingest.ReliableFlushDelivers | include/graph_sketch_driver.h:193-203 | after a whole run, when a flush that can be relied on has returned, the sketches are exactly those of the graph pre_insert has seen |
| Ingest.StreamedQueryRight | include/graph_sketch_driver.h:150-206 | from stream to answer: a query after such a flush that ends normally has found the components of the streamed graph, unless an edge joins two sets its last round both filed wrongly |
| Ingest.StreamedQuerySure | include/graph_sketch_driver.h:150-206 | which cannot be with one thread or up to eleven vertices |

## Left out

- Hashing: `col_hash` and `vec_hash` are one uninterpreted function; nothing is said about probabilities or sampling success rates.
- Floating point: partitions are exact rational ceilings, and the number of samples is the exact integer ceiling of a logarithm; IEEE rounding of `double` is not modelled.
- Word width: vertices are below 2^32 - 1 and edge indices below 2^64, which the pairing needs; `1ull << max_depth` is taken to stay inside the word, so more than about 3 * 10^9 vertices are not covered.
- calc_bkt_per_col and calc_vector_length: the number of buckets per column is a parameter wherever a result holds for any positive number; `SampleCount.Configured` fixes it for the results about queries that go wrong, from two vertices on.
- More threads than vertices: 1 <= threads <= n is required, because beyond that the last thread reads `merge_instr[start]` past the end (`Partition.LastStartIff`); `range_sums` itself only goes wrong from n + 2 threads on (`RunningSums.SumsRightIff`).
- Memory model: every load, store, atomic and critical section is one sequentially consistent step; data races on plain `bool` fields are not modelled.
- Spurious failures: `compare_exchange_weak` may fail spuriously any finite number of times in a round; the bound is a parameter.
- ConnectedComponentsAlg.CCSketchAlg: holds its sketches, union-find and forest as values and runs a query's rounds on values, so aliasing between sketches is not captured; in-place updates of one sketch are in `Sketches.Sketch`, of the sequential union-find in `DsuSequential`.
- Samples that decode to vertices outside the graph: out of bounds in the code, recorded as `wild` and without effect here; `BoruvkaSpec.RoundInsideGraph` shows that honest checksums exclude them.
- The NO_EAGER_DSU build, VERIFY_SAMPLES_F, serialization, configuration, printing, timing and command-line tools.
- nondirectional_non_self_edge_pairing_fn: not called by the algorithm.
- GutterTree, StandAloneGutters, CacheGuttering and GraphStream are not part of this model; they appear as gutters that spill batches into a queue whose get_data fails only when told not to block and empty.
- Liveness of the pause hand-off: not claimed. A worker still waiting when the next flush begins can keep that flush from returning.
- Shutdown of the worker threads.
- Verifier.GraphVerifier.VerifySpanningForests: the cached components are not always those of the restored matrix, because need_query_compute is not set when it is put back; the contract says which graph they are of, and promises the matrix's own only for at most one forest.
- Self loops: pre_insert and update take them (`PreInsert`, `Update`); the models of many stream threads (EagerDsu, Ingest) leave them out.
- prep_query returns at once when the answer is cached; a query of the model always flushes.
- Verifier.GraphVerifier.Combine: keeps the checker's cached components only when a recomputation was already due, as in the code.
- update_locked after a failed query stays set, as in the code; nothing more is claimed about it.
- ConnectedComponentsAlg.EighteenSuffice: for more than 18 vertices and several threads it is not settled whether racing labels alone can use up the configured samples.
- Ingest.ActKeeps: a worker that applies a batch while update_locked is set throws out of its thread, which ends the program; runs end there.
- Parallel loops without a schedule clause, whose schedule OpenMP leaves to the implementation: in `RoundZero` every division of the iterations is covered, each thread taking its share in ascending order (`RoundZero.SampleKeeps` needs no order); in `Snapshot` every division and every order.
