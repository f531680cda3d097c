# Probabilistic roadmap: visibility oracle and incremental closure table

This project models the core of `prob_roadmap.py`, a probabilistic roadmap
planner, and proves properties of that model in Dafny.

The planner has two parts.

- **The visibility oracle.** Points (`Vector`) have integer coordinates and
  obstacles (`Rect`) are axis-aligned rectangles. `Clear` says a point lies
  on no obstacle; the boundary counts as the obstacle. `Intersects` says a
  path crosses one of an obstacle's four edges. It uses two orientation tests
  per edge, each taken with `copysign(1, ·)`, so a zero cross product counts
  as positive. `Link` says both end points are clear and no obstacle is
  crossed. This is module `Geometry` (`geometry.dfy`).
- **The roadmap table** `graphTC`, a dictionary from each inserted point to
  a dictionary from the points it reaches to a distance. `buildPRM` seeds it
  with the source and the destination. It then inserts sampled points until
  the destination appears in the source's row. Each insertion has two
  phases:
  - Phase 1 links the new point to every point that sees it and relays
    through each such neighbour.
  - Phase 2 relaxes every pair of the new point's entries through the new
    point.

The table is modelled in three layers:
- `closure.dfy` (module `Closure`): the table as a value
  (`map<Vector, map<Vector, real>>`), the seeding, and an order-free closed
  form of phase 2 (`ThroughNew`).
- `insertion.dfy` (module `Insertion`): the invariants each loop keeps,
  stated on table values, and the lemmas that carry them from pass to pass.
- `roadmap.dfy` (module `PRM`): class `Roadmap`. Its field `graph` is the
  table and its field `order` is the table's key insertion order. Its methods
  are the loops of `buildPRM`, written as loops that update the table in
  place.

Modelling choices:
- The Euclidean `distance` becomes an abstract weight `w`, assumed
  non-negative and zero from a point to itself (`WeightOk`). It is a constant
  field of the roadmap.
- The random samples become a given sequence `samples`.
- A Python dictionary's key order is insertion order. For the outer table
  this is the field `order`. `InOrder` lists a row's keys in the outer
  table's key order, not in the row's own insertion order.

Reading the code settles two behaviours:
- Phase 1 also tries the new point against itself, last. On the way it may
  give the new point's own entry a relayed value, for example `2*dist`. The
  direct write at lines 100-101 then resets that entry to 0, so the finished
  table still has distance 0 from a point to itself.
- The dictionaries iterated at lines 103 and 115-116 gain no keys during
  their loops. `RelayWriteElsewhere` proves the relay loop never writes into
  the row it iterates. `RowNKeeps` proves phase 2 leaves the new point's row
  unchanged. So iterating over a snapshot of the keys is faithful.

## Model

| member | source | states |
|---|---|---|
| Geometry.Clear | prob_roadmap.py:31-36 | a point is clear exactly when no obstacle covers it, boundary included |
| Geometry.Sign | prob_roadmap.py:51-52 | the sign taken with copysign(1, c) is -1 exactly for negative c and +1 otherwise, so zero is positive |
| Geometry.Separates | prob_roadmap.py:49-60 | a ray separates two points exactly when one of the two cross products is negative and the other is not |
| Geometry.EdgeCrossed | prob_roadmap.py:49-60 | an edge is crossed exactly when the path-ray separates the edge's ends and the edge-ray separates the path's ends, a zero cross product counting as positive |
| Geometry.Edges | prob_roadmap.py:43-46 | an obstacle has exactly four edges to test |
| Geometry.AnyEdgeCrossed | prob_roadmap.py:47-62 | the edge scan reports a crossing exactly when some edge has both orientation tests separating |
| Geometry.Intersects | prob_roadmap.py:41-62 | a path intersects an obstacle exactly when for one of its four edges the path-ray separates the edge's ends and the edge-ray separates the path's ends |
| Geometry.AnyIntersected | prob_roadmap.py:67-69 | the obstacle scan reports a crossing exactly when some obstacle is intersected |
| Geometry.Link | prob_roadmap.py:64-70 | two points are linked exactly when both are clear and no obstacle is intersected |
| Geometry.CrossProdAntisymmetric | prob_roadmap.py:38-39 | the cross product is antisymmetric and zero for a vector with itself |
| Geometry.NoObstacles | prob_roadmap.py:31-36 | with no obstacles every point is clear and every pair is linked |
| Geometry.LinkSelf | prob_roadmap.py:64-70 | a point is linked to itself exactly when it is clear, since a zero-length path crosses nothing |
| Geometry.ReversedPathCross | prob_roadmap.py:42-52 | reversing the path negates the path-ray cross product of every point |
| Geometry.LinkSymmetricOffCorners | prob_roadmap.py:64-70 | when no obstacle corner is collinear with the path, visibility is the same in both directions |
| Geometry.LinkAsymmetricAtCorner | prob_roadmap.py:51-53 | at a grazed corner visibility depends on direction: (-5,5)->(5,-5) past Rect(0,10,0,10) is linked, the reverse is not |
| Geometry.GrazingPathMissesSquare | prob_roadmap.py:47-62 | the path (-5,5)->(5,-5) intersects no edge of Rect(0,10,0,10) |
| Geometry.ReversedGrazingPathCrossesSquare | prob_roadmap.py:47-62 | the reversed path (5,-5)->(-5,5) intersects Rect(0,10,0,10) |
| Geometry.ReversedPathSeparatesLeftEdge | prob_roadmap.py:49-53 | going backwards, the path-ray separates the ends of the left edge |
| Geometry.LeftEdgeSeparatesPath | prob_roadmap.py:55-60 | the left edge's ray separates the two ends of the path |
| Geometry.StraightThroughSquare | prob_roadmap.py:41-70 | the path (-5,5)->(15,5) intersects Rect(0,10,0,10) and is not linked |
| Geometry.BoundaryNotClear | prob_roadmap.py:31-36 | a point on an obstacle's boundary is not clear and a point just outside is |
| Closure.PutBoth | prob_roadmap.py:100-101 | writing one distance in both directions keeps the table closed, symmetric and non-negative and changes nothing else |
| Closure.PutBothEntries | prob_roadmap.py:100-101 | the two writes add the two entries, keep the keys, and remove no entry |
| Closure.InOrder | prob_roadmap.py:103-116 | a row's keys, as iterated at lines 103 and 115-116, listed in the outer table's key order: the row's keys that occur in that order, without repetition when the order has none; these are all of the row's keys when the order lists every key of a closed table, as Valid requires of every caller |
| Closure.Seed | prob_roadmap.py:81-87 | the seeded table keeps the table invariant, holds source and destination, and joins them in both directions at the weight exactly when they are linked |
| Closure.SeedUnlinked | prob_roadmap.py:81-83 | the two self-rows alone form a valid table with one entry per row |
| Closure.SeedLinked | prob_roadmap.py:84-87 | adding the link in both directions gives a valid table whose rows hold both points |
| Closure.Row | prob_roadmap.py:116-123 | a relaxed row keeps the entries n does not reach, and each entry n reaches is at most the route through n, at most the old entry, and equal to one of the two |
| Closure.ThroughNewKeepsN | prob_roadmap.py:115-123 | relaxing through n keeps the keys, row n, and every entry pointing to n |
| Closure.ThroughNewOk | prob_roadmap.py:115-123 | relaxing through n keeps the table closed, symmetric, non-negative and zero on itself |
| Closure.ThroughNewNoRaise | prob_roadmap.py:118-123 | relaxing removes no entry, raises no entry, and leaves alone the rows n does not reach |
| Closure.ThroughNewRelayBound | prob_roadmap.py:115-123 | afterwards every pair of n's entries is no further apart than the route through n |
| Closure.ThroughNewSound | prob_roadmap.py:117-123 | every entry afterwards is an old entry or the length of a route through n |
| Closure.ThroughNewRows | prob_roadmap.py:115-123 | relaxing keeps the keys; a row n reaches gets exactly its old keys plus row n's keys; any other row is unchanged |
| Closure.ThroughNewRowN | prob_roadmap.py:115-123 | relaxing leaves row n's keys and values as they were |
| Insertion.ReachAdd | prob_roadmap.py:103 | trying one more linked point adds exactly that point's row to what n reaches |
| Insertion.RelayStart | prob_roadmap.py:103 | before the relay loop nothing has been relayed |
| Insertion.RelayValue | prob_roadmap.py:104-111 | the value a relay pass leaves is at most the route through pt, at most n's old entry, and equal to one of the two |
| Insertion.RelayKeepKeeps | prob_roadmap.py:105-106 | a pass that finds a route no shorter than the stored entry keeps the relay invariant |
| Insertion.RelayWriteElsewhere | prob_roadmap.py:103-111 | the relay loop writes neither when pt is the new point nor into pt's own entry, so the iterated row never changes |
| Insertion.RelayWriteKeeps | prob_roadmap.py:106-111 | a pass that writes the route in both directions keeps the relay invariant |
| Insertion.RelayWriteRow | prob_roadmap.py:107-111 | after a write, row n holds the entry, no entry of row n rose, and every relayed entry is within the route through pt |
| Insertion.OnlyRowNPut | prob_roadmap.py:100-101 | the two writes between n and another point change only entries of n |
| Insertion.ConnectStart | prob_roadmap.py:93 | the new point joins with an empty row and nothing else changes |
| Insertion.ConnectSkipKeeps | prob_roadmap.py:96-98 | trying a point that does not see n changes nothing and keeps the phase-1 invariant |
| Insertion.ConnectSkipReach | prob_roadmap.py:96-98 | what n reaches is unchanged by a point that does not see it |
| Insertion.ConnectSkipBounds | prob_roadmap.py:96-98 | the distance bounds on row n still hold after trying a point that does not see n |
| Insertion.RowSoundMore | prob_roadmap.py:95-98 | trying more points keeps every entry of row n a route through a tried linked point |
| Insertion.SkipDirect | prob_roadmap.py:96-98 | an unlinked point adds no direct bound to prove |
| Insertion.SkipRelay | prob_roadmap.py:96-98 | an unlinked point adds no relay bound to prove |
| Insertion.ConnectPutFacts | prob_roadmap.py:99-101 | after the direct writes the entry between pt and n is the weight in both directions and the table is closed, symmetric and non-negative |
| Insertion.ConnectSelfKeeps | prob_roadmap.py:95-111 | trying n against itself, last, writes its self-distance 0 and keeps the phase-1 invariant |
| Insertion.ConnectSelfFrame | prob_roadmap.py:100-101 | writing n's self-entry changes only row n |
| Insertion.ConnectSelfRow | prob_roadmap.py:100-101 | after n is tried, row n holds n at distance 0 plus what the linked points reach |
| Insertion.ConnectSelfBounds | prob_roadmap.py:100-101 | the distance bounds on row n survive the self-entry write |
| Insertion.ConnectSelfSound | prob_roadmap.py:100-101 | n's self-entry 0 keeps every other entry of row n a route through a linked point |
| Insertion.ConnectOtherKeeps | prob_roadmap.py:98-111 | trying a point that sees n, with its direct writes and relay loop, keeps the phase-1 invariant |
| Insertion.ConnectOtherFrame | prob_roadmap.py:98-111 | only entries of n differ from the table before n arrived |
| Insertion.ConnectOtherRow | prob_roadmap.py:98-111 | row n gains exactly pt's row plus pt itself |
| Insertion.ConnectOtherDirect | prob_roadmap.py:99-101 | every linked point tried so far is in row n no further than its weight |
| Insertion.ConnectOtherRelay | prob_roadmap.py:103-111 | a point reached only through a linked point is no further than the route through it |
| Insertion.ConnectOtherSound | prob_roadmap.py:98-111 | after the direct write and the relay through pt, every entry of row n is the weight to some tried linked point plus that point's old entry |
| Insertion.RowBegin | prob_roadmap.py:115-116 | before row pt is relaxed, all other rows are as the outer loop left them |
| Insertion.RelayReads | prob_roadmap.py:117 | the two entries phase 2 reads, g[pt][n] and g[n][pt2], keep their old values throughout |
| Insertion.RowKeepsN | prob_roadmap.py:117 | entry n of the row being relaxed never changes |
| Insertion.RowNKeeps | prob_roadmap.py:116-123 | row n itself never changes while it is relaxed through n |
| Insertion.RowStepWrite | prob_roadmap.py:120-123 | writing the route when it is shorter or the entry is missing advances the row invariant |
| Insertion.OtherRowsPut | prob_roadmap.py:121-123 | a write into row pt leaves every other row alone |
| Insertion.RowStepKeep | prob_roadmap.py:119-120 | keeping an entry no longer than the route advances the row invariant |
| Insertion.RowEnd | prob_roadmap.py:116-123 | a row offered every entry of n is the relaxed row |
| Insertion.RowComplete | prob_roadmap.py:116-123 | the finished row equals the closed-form relaxed row |
| Insertion.RowsStart | prob_roadmap.py:115 | before phase 2 no row is relaxed |
| Insertion.RowsEnd | prob_roadmap.py:115-123 | once every row n reaches is relaxed, the table is the closed form ThroughNew |
| Insertion.RowsAgree | prob_roadmap.py:115-123 | every row then agrees with the closed form |
| Insertion.NoRaiseTrans | prob_roadmap.py:88-123 | "no entry removed or raised" composes across insertions |
| Insertion.ConnectedOk | prob_roadmap.py:93-111 | after phase 1 the table is closed, symmetric, non-negative and zero on itself |
| Insertion.InsertionDone | prob_roadmap.py:93-123 | both phases together establish Inserted: table invariant and one new key; no old entry removed or raised; every entry away from n an old one or the route through n; row n exactly n and what linked points reach, each entry a route through a linked point, within the direct and relayed bounds; every pair of n's entries bounded by the route through n; transitivity kept |
| Insertion.InsertionNoRaise | prob_roadmap.py:93-123 | an insertion removes and raises no entry of the old table |
| Insertion.InsertionRowN | prob_roadmap.py:93-123 | after an insertion, row n holds exactly n and every point a linked point had an entry for, each entry a route through a linked point within its bounds |
| Insertion.RowNReach | prob_roadmap.py:95-111 | trying n itself adds nothing to the points n reaches |
| Insertion.RowSoundOld | prob_roadmap.py:95-111 | every route witness of row n is an old point |
| Insertion.RowSoundSame | prob_roadmap.py:115-123 | a row with the same entries as a sound row is sound |
| Insertion.RowNBounds | prob_roadmap.py:99-111 | the direct and relayed bounds carry over to a row with the same entries as row n |
| Insertion.InsertionKept | prob_roadmap.py:93-123 | after an insertion every entry between two old points is the old entry at its old value or the route through n |
| Insertion.ReachClosed | prob_roadmap.py:95-111 | with a transitive old table, an old entry of a point n reaches leads to a point n reaches |
| Insertion.TransitiveKept | prob_roadmap.py:93-123 | inserting into a transitive table leaves it transitive: whatever a point reaches, it reaches what that point reaches |
| Insertion.TransitiveRows | prob_roadmap.py:115-123 | relaxing through n, with rows n reaches closed under old entries, gives a transitive table |
| Insertion.UnreachedRows | prob_roadmap.py:115-123 | a row n does not reach keeps exactly the old row's keys |
| PRM.Roadmap.constructor | prob_roadmap.py:81-87 | the roadmap starts from the seeded table, which is closed, symmetric, non-negative, zero on itself and transitive, with source, then destination, in key order |
| PRM.Roadmap.RelayThrough | prob_roadmap.py:103-111 | relaying through pt changes only entries of n and leaves row pt alone; row n gains exactly pt's keys, each entry pt has becomes the smaller of n's old entry and d plus pt's entry, and every other entry of n is unchanged |
| PRM.Roadmap.RelayOne | prob_roadmap.py:104-111 | one relay pass sets n's entry for pt2 to min(old entry, d + pt's entry for pt2), adding it when missing, in both directions, and changes nothing else |
| PRM.Roadmap.Insert | prob_roadmap.py:89-123 | a sample is added exactly when it is clear and new; a skipped sample changes nothing; an added one satisfies Inserted (frame, exact row n keys, every new entry a real route, bounds, transitivity kept) and keeps the roadmap valid |
| PRM.Roadmap.InsertNew | prob_roadmap.py:93-123 | the two phases add the point last in key order and establish Inserted |
| PRM.Roadmap.Finish | prob_roadmap.py:115-123 | phase 2 after phase 1 leaves a valid, still transitive roadmap satisfying Inserted |
| PRM.Roadmap.Connect | prob_roadmap.py:93-111 | phase 1 appends n to the key order; only row n and entries pointing to n change; row n holds exactly what linked points reach; every entry of row n is the route through some linked point; each linked point is within its weight and each relayed point within the route through its linked point |
| PRM.Roadmap.ConnectAll | prob_roadmap.py:95-111 | the loop over a snapshot of the keys keeps the phase-1 invariant, with its soundness and bounds, over the points tried |
| PRM.Roadmap.ConnectOne | prob_roadmap.py:96-111 | one pass of the phase-1 loop keeps the invariant, soundness of row n included, with one more point tried |
| PRM.Roadmap.Relax | prob_roadmap.py:115-123 | phase 2 turns the table into exactly the closed form ThroughNew |
| PRM.Roadmap.RelaxRows | prob_roadmap.py:115 | the outer phase-2 loop relaxes every row n reaches |
| PRM.Roadmap.RelaxRow | prob_roadmap.py:116-123 | the inner loop turns row pt into the relaxed row and leaves the others alone |
| PRM.Roadmap.RelaxEntry | prob_roadmap.py:117-123 | one inner pass offers the route through n to one entry of row pt |
| PRM.Roadmap.Build | prob_roadmap.py:88-91 | the sampling loop records one table per sample used; each sample was drawn while the destination was missing from the source's row and was inserted exactly when clear and new, else changed nothing; it stops early only once the destination is in the source's row; the keys grow by exactly the clear samples used; no entry rises |
| PRM.Roadmap.BuildStep | prob_roadmap.py:89-91 | one sample extends the table history by one Sampled step and the key set by the sample when it is clear |
| PRM.SampledKeys | prob_roadmap.py:89-91 | a sample adds itself to the keys exactly when it is clear |
| PRM.DrawnSnoc | prob_roadmap.py:88-91 | the history grows by one sampled step |
| PRM.DrawnFirst | prob_roadmap.py:88 | a sample is drawn only if the seeded table lacks the destination in the source's row |
| PRM.DrawnStops | prob_roadmap.py:84-88 | linked source and destination use no sample |
| PRM.BuildPRM | prob_roadmap.py:77-126 | the built table is valid, transitive and holds source and destination; the history starts at the seeded table and each step is one sample's insertion or no change; the keys are exactly source, destination and the clear samples used; linked endpoints return the seed with no sample used; no entry of the seed rises |

## Left out

- The sampling itself (`randint`, lines 89) is replaced by a given sequence of samples. The source's loop may never end when source and destination cannot be joined. `Build` stops when the samples run out.
- `distance` (lines 72-75) uses floating-point `sqrt`. It is an abstract weight over reals that is non-negative and zero on equal points. Rounding is not modelled.
- `copysign` (lines 51-52, 58-59) is applied to integers only. It is modelled as an integer sign with zero positive.
- `Vector.__hash__`, `__repr__` and `__ne__` are not modelled. `__ne__` would raise NameError, but nothing calls it. Point equality is by coordinates, as in `__eq__`.
- The `print` calls, the `sleep` import and the `runTest` driver (lines 92, 97, 124-125, 128-141) are left out.
- The key order of the inner dictionaries is not modelled. A row's keys are iterated in the outer table's insertion order. Within one relay loop or one phase-2 row, each entry is handled independently of the others, so the contracts hold for any order.
- PRM.Roadmap.Connect: states bounds and soundness of row n, not its exact values. Each entry of row n is a route through some linked point, each linked point is within its weight, and each point reached only through a linked point is within the route through it. Exact values are not stated, because for an abstract weight the outcome depends on the order points are tried. Lines 100-101 overwrite a smaller relayed value with the direct weight, and a later relay may lower it again.
- PRM.Roadmap.ConnectAll: states the same bounds and soundness as Connect, not exact values, for the same order dependence.
- PRM.Roadmap.ConnectOne: states the same bounds and soundness as Connect, not exact values, for the same order dependence. The relay it runs is stated exactly by RelayThrough.
- PRM.Roadmap.Insert, PRM.Roadmap.InsertNew and PRM.Roadmap.Finish: all three end in Inserted, which does not state the triangle inequality over all triples of the final table, or that each entry is a shortest route. That needs the metric properties of the Euclidean distance: the triangle inequality of the weight and table entries no shorter than the straight-line distance. It states transitivity of what is reached, that every entry is an old entry or a route through n, and the route bound for every pair of n's entries.
- Insertion.InsertionDone: does not state that a linked point's entry equals the direct distance. That needs the triangle inequality of the Euclidean distance, which the abstract weight does not assume.
- Closure.Put: has no contract of its own. The paired writes in both directions of lines 100-101, 107-108 and 110-111 are stated by PutBoth and PutBothEntries. The single writes of lines 121 and 123, which change one direction only, are stated by Insertion.OtherRowsPut and Insertion.RowStepWrite.
