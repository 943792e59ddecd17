# Verified model of konnect's geometry kernel, exporter and routing job

A Dafny model of four parts of konnect, a tool server for KiCad boards, and proofs about them. `dafny verify dfyconfig.toml` checks all of it.

**The exact geometry kernel** (`crates/konnect-geom`). The kernel decides clearance, contact and containment with integer comparisons on doubled 32-bit coordinates. Every test is compared with an independent definition over the real plane: segments are sets of real points, a region is what the even-odd rule gives at every real point, and distances are compared through squares of real distances.

- `Basics`, `Plane`, `EvenOdd`, `Touching`, `Rings`, `Regions`, `Nearest` hold the real plane: the discrete Jordan lemma (parity transport), when segments meet, where a distance is reached, when two regions are disjoint.
- `WideMul`, `Kernel`, `Distance`, `Shapes`, `RealShapes`, `Translation`, `Convexity`, `Constructors` hold the integer kernel, the shapes, their real points in nanometres and what their constructors accept.
- `PolyIndex`, `IndexedGap`, `IndexedPair` hold the polygon with an edge index. The R-tree is any duplicate-free sequence of the edges whose boxes meet the window, in any order.
- `Perturbation`, `Within`, `RegionView`, `SweptWithin`, `Corners`, `LeakWalk`, `RegionWithin`, `PinchedRing`, `SpurRing` hold containment of infinitesimally displaced points, of segments, of swept shapes and of regions.

**The Specctra exporter** (`crates/konnect-core/src/specctra.rs`, `specctra_ses.rs`). `Hull` is the monotone-chain hull, `Trapezoids` the scanline decomposition with merging, `Outline` the walk that closes loose edges into one loop. `LayerStack`, `PinNames`, `Exporter`, `BoardExport` build the routing manifest `ExportTold` says what a manifest's components tell of the board's footprints and `Manifest` holds the importer's checks of it.

**The checkpointed routing pipeline** (`crates/konnect-core/src/native_route_job.rs`). `RouteJob` is the stage machine with stop, resume and gating, its stages being arbitrary deterministic functions, and `JobDelivery` says when a run delivers. `JobStatus` is the status file that a pipeline thread and a heartbeat thread publish together, over every interleaving of their steps.

**The call observer** (`crates/konnect-core/src/observability.rs`). `Observer` is the interleaving of any number of recording calls and snapshots.

## What turned out not to hold

- The edge index is documented to give the kernel's answers for every input (`crates/konnect-geom/src/polyindex.rs:15`). `clamp_coord` caps the search window at `i32::MAX`, so this holds for every clearance up to that value (`IndexedGap.IndexedGapCmp`, `IndexedPair.GapCmpPolygon`, `IndexedGap.PointDistanceCmp`) and fails, for some input, at every clearance beyond it (`IndexedPair.BeyondMaxDiffers`, `PairBeyondMaxDiffers`, `PointBeyondMaxDiffers`).
- After one interruption of a fresh run, resuming delivers what an uninterrupted run does (`RouteJob.ResumeEquivalence`). A resumed run first rewrites its checkpoint with only `route` completed, whatever copper it holds, so a second interruption can run the optimizer on its own result. `RouteJob.ChainExact` shows that a job survives every chain of interruptions exactly when further optimizer passes change nothing that is delivered, and `RouteJob.RestlessDiffers` gives a job for which they do.
- A run delivers exactly when its check does not break, the plans it has to write can be lowered and none of their files exists (`JobDelivery.DeliversExactly`). Of the states a delivering run takes the files through, it delivers again only from the first (`JobDelivery.AgainOnlyFromStart`): a job cut off after its fanout plan is stuck, whatever checkpoint it resumes from (`JobDelivery.FanoutInTheWay`), and `JobDelivery.FanoutJobGetsStuck` is such a job.
- A checkpoint keeps neither the connections the class policy excluded nor what the optimizer stage put back or found of its reference planes, and a resumed run counts the copper it starts from. After one interruption the reports agree exactly when nothing was excluded and, if the optimizer stage was taken over, it kept the numbers of tracks and vias, put no net back and had no reference planes to check (`RouteJob.ResumeTellsAll`). `RouteJob.ThinningTellsLess` is a job with nothing excluded whose reports differ.
- `ConvexPoly::new` is documented to refuse non-convex input. Its corner test is local: a ring it accepts is convex exactly when its edges change between lexicographically forward and backward twice on the way round (`Constructors.AcceptedIsConvex`). A five-pointed star is accepted and changes four times (`Constructors.StarPasses`). The kernel does not rely on convexity, and no theorem here assumes it.
- Containment in a polygon is documented as exact for every shape whenever no two of the polygon's edges overlap (`crates/konnect-geom/src/predicates.rs:154-155`). That is so for every shape with a radius and for points (`SweptWithin.ShapeWithin`). A sharp segment is accepted exactly when it is in the region and properly crosses no edge (`RegionView.SegmentWithin`). The two differ only where it crosses an edge in a point of another edge, as through the touching outline of `PinchedRing.PinchedDiffers`. The same holds of a sharp pad or piece none of whose own edges overlap, crossing edges included. For one with overlapping edges the answer is about its inside points and its vertices (`RegionWithin.RegionWithinArea`), and the outline of `SpurRing.SpurPasses` is accepted with a boundary point outside.

## Model

| member | source | states |
|---|---|---|
| `EvenOdd.ParityDifference` | crates/konnect-geom/src/predicates.rs:648-669 | between two points on no edge, with no edge end on the segment between them, the even-odd answers differ exactly when the segment properly crosses an odd number of edges |
| `EvenOdd.Transport` | crates/konnect-geom/src/predicates.rs:648-669 | parity transport: a segment that meets no edge of closed rings has the same answer, Inside or Outside, at both ends |
| `Rings.RingsClosed` | crates/konnect-geom/src/predicates.rs:548-554 | the edges of any rings are closed: every property of vertices changes an even number of times along them |
| `Rings.FirstHit` | crates/konnect-geom/src/predicates.rs:315-324 | along a segment that meets some edge there is a first point on an edge |
| `Regions.RingOneSide` | crates/konnect-geom/src/predicates.rs:531-539 | a ring that meets no edge of a region lies wholly inside or wholly outside it |
| `Regions.ProperIsWellHoled` | crates/konnect-geom/src/shape.rs:157-160 | holes within the outline's region, no point of one inside another, give the even-odd rule its documented meaning: the outline without its holes |
| `Regions.SeparatedDisjoint` | crates/konnect-geom/src/predicates.rs:528-539 | two polygons with holes whose edges never meet, the first outline vertex of each outside the other, share no real point |
| `Touching.TouchIffMeet` | crates/konnect-geom/src/predicates.rs:596-608 | the four orientation signs and four box tests hold exactly when two real segments share a point, degenerate ones included |
| `Nearest.FootNearest` | crates/konnect-geom/src/predicates.rs:615-629 | the clamped projection lies on the segment and no point of the segment is nearer |
| `Nearest.EndReached` | crates/konnect-geom/src/predicates.rs:632-645 | for segments that share no point, any distance between them is at least one reached at an end |
| `WideMul.MulWide` | crates/konnect-geom/src/predicates.rs:677-689 | high and low halves make the full 256-bit product, and no partial sum leaves 128 bits |
| `WideMul.CmpProducts` | crates/konnect-geom/src/predicates.rs:672-674 | comparing the halves lexicographically orders the full products |
| `Kernel.UndblDbl` | crates/konnect-geom/src/predicates.rs:290-292 | halving a doubled vertex gives the vertex back |
| `Kernel.SegIntersectExact` | crates/konnect-geom/src/predicates.rs:596-608 | the integer test is true exactly when the two closed segments share a real point |
| `Kernel.PointInRings` | crates/konnect-geom/src/predicates.rs:648-669 | the scan gives Boundary on a real edge point and otherwise the parity of edges the real ray crosses |
| `Kernel.KernelFits` | crates/konnect-geom/src/predicates.rs:479-481 | every difference, product and squared threshold fits its integer type, and the threshold cap exceeds every distance |
| `Kernel.PointSegExact` | crates/konnect-geom/src/predicates.rs:611-630 | the comparison is that of the real squared distance to the nearest segment point with the squared threshold |
| `Distance.MinCmp` | crates/konnect-geom/src/predicates.rs:557-566 | the early-stopping loop gives the least of all comparisons |
| `Distance.EndsSuffice` | crates/konnect-geom/src/predicates.rs:632-645 | disjoint segments are nearer than a threshold exactly when one of four ends is |
| `Distance.SegSegExact` | crates/konnect-geom/src/predicates.rs:632-645 | the segment comparison is that of the true least distance |
| `Distance.LeastOverEdges` | crates/konnect-geom/src/predicates.rs:513-527 | for a set outside a region, the distance to the region is the least over its edges |
| `Distance.RegionsDisjoint` | crates/konnect-geom/src/predicates.rs:528-539 | with no edge crossing and both first vertices outside, no real point is in both regions |
| `Distance.PointRegionCmp` | crates/konnect-geom/src/predicates.rs:513-518 | point against region: the true distance, zero inside |
| `Distance.SegRegionCmp` | crates/konnect-geom/src/predicates.rs:519-527 | segment against region: the true distance |
| `Distance.RegionRegionCmp` | crates/konnect-geom/src/predicates.rs:528-545 | region against region: the true distance |
| `Distance.CoreCmp` | crates/konnect-geom/src/predicates.rs:506-546 | any two cores: one true distance between closed sets of real points compared with the threshold |
| `Distance.DistanceSymmetric` | crates/konnect-geom/src/predicates.rs:506-546 | the comparison does not depend on the order of the cores |
| `Distance.DistanceMonotone` | crates/konnect-geom/src/predicates.rs:506-546 | a threshold met is met at every smaller threshold |
| `Shapes.InflateMisses` | crates/konnect-geom/src/bbox.rs:46-54 | a saturating inflation misses a 32-bit box exactly when some axis gap exceeds the amount |
| `Shapes.BoxOfPoints` | crates/konnect-geom/src/bbox.rs:31-42 | the box holds every point |
| `Shapes.BoxReached` | crates/konnect-geom/src/bbox.rs:31-42 | each of the four sides of the box is reached by a point |
| `RealShapes.GapIsCores` | crates/konnect-geom/src/predicates.rs:90-96 | for any clearance, negative ones included: not Greater exactly when the two half widths, radii and the clearance together are not negative and some points of the two cores are at most that far apart, in nanometres; Less exactly when some are nearer |
| `RealShapes.GapCmp` | crates/konnect-geom/src/predicates.rs:90-96 | for any two valid shapes: not Greater exactly when some point of the one, by the rule of its kind, is at most the clearance from some point of the other, and for a positive clearance Less exactly when some are nearer |
| `Shapes.GapSymmetric` | crates/konnect-geom/src/predicates.rs:90-96 | the gap does not depend on the order of the shapes |
| `Shapes.GapMonotone` | crates/konnect-geom/src/predicates.rs:90-101 | a clearance met is met at every smaller clearance |
| `Translation.ContainMoves` | crates/konnect-geom/src/predicates.rs:648-669 | moving a point and the edges together keeps the even-odd answer |
| `Translation.GapMoves` | crates/konnect-geom/src/predicates.rs:90-96 | moving both shapes by one vector, within 32 bits, keeps every gap comparison |
| `Constructors.DedupRing` | crates/konnect-geom/src/shape.rs:306-312 | no vertex equals the next around the ring, and the region at every real point and the signed area are unchanged |
| `Constructors.DedupedLeaves` | crates/konnect-geom/src/shape.rs:306-312 | a ring without repeats stays as it is, and no point is lost or added |
| `Constructors.ReversedSame` | crates/konnect-geom/src/shape.rs:116-118 | reversing a ring keeps its even-odd region at every real point |
| `Constructors.ReversedArea` | crates/konnect-geom/src/shape.rs:315-323 | reversing a ring negates its signed area |
| `Constructors.Normalize` | crates/konnect-geom/src/shape.rs:191-218 | refused exactly when the ring encloses no area; otherwise three or more unrepeated vertices wound as asked, with the same region |
| `Constructors.NewPolygon` | crates/konnect-geom/src/shape.rs:191-218 | refused exactly when the outline encloses no area; otherwise the normal form of the outline and, in their order, those of the holes with area, all regions unchanged |
| `Constructors.NormalizedFacts` | crates/konnect-geom/src/shape.rs:108-118 | the normal form of a ring with area has three or more unrepeated vertices, the asked winding and the same region |
| `Constructors.NewConvex` | crates/konnect-geom/src/shape.rs:104-127 | accepted exactly when the radius is not negative, the ring has area and its normal form turns right at no corner; what is kept is that form, bounding the given region |
| `Convexity.AllStepsLeft` | crates/konnect-geom/src/shape.rs:119-125 | on a closed path of two monotone chains without right turns every vertex is on or left of every step |
| `Convexity.RepeatIsFlat` | crates/konnect-geom/src/shape.rs:119-125 | such a path meets a vertex twice only if all its vertices are on one line |
| `Convexity.ConvexExactly` | crates/konnect-geom/src/shape.rs:119-125 | a ring that turns right nowhere and is not flat is convex exactly when its edges change direction twice on the way round |
| `Constructors.AcceptedIsConvex` | crates/konnect-geom/src/shape.rs:104-127 | whatever is accepted has distinct vertices, all on or left of every edge, exactly when its edges change direction twice |
| `Constructors.ConvexIsAccepted` | crates/konnect-geom/src/shape.rs:104-127 | every convex ring with area is accepted, vertices on straight stretches included |
| `Constructors.StarPasses` | crates/konnect-geom/src/shape.rs:119-125 | a five-pointed star is accepted as it is; its edges change direction four times and it is not convex |
| `Constructors.NormalHasLength` | crates/konnect-geom/src/shape.rs:306-312 | rings in normal form have no edge without length |
| `PolyIndex.QueryEntries` | crates/konnect-geom/src/polyindex.rs:80-84 | the window query: exactly the edges whose boxes meet the window, each once |
| `PolyIndex.PickedParity` | crates/konnect-geom/src/polyindex.rs:80-93 | leaving out edges that cannot count, and any order of the rest, keeps the parity |
| `PolyIndex.OutsideBox` | crates/konnect-geom/src/polyindex.rs:75-77 | a real point outside the box of closed edges is Outside |
| `PolyIndex.ProperInBox` | crates/konnect-geom/src/polyindex.rs:40-57 | documented holes have every vertex in the outline's box |
| `PolyIndex.FrameIsProper` | crates/konnect-geom/src/shape.rs:157-160 | every square with a smaller square hole has its holes as documented |
| `PolyIndex.NewIndexed` | crates/konnect-geom/src/polyindex.rs:40-57 | the index holds every edge of every ring, all within the outline's box |
| `PolyIndex.RayDecides` | crates/konnect-geom/src/polyindex.rs:78-93 | edges the ray window misses change neither parity nor Boundary |
| `PolyIndex.ContainmentOf` | crates/konnect-geom/src/polyindex.rs:74-100 | the indexed answer is the even-odd answer over all edges, for every point |
| `IndexedGap.WindowMisses` | crates/konnect-geom/src/polyindex.rs:110-113 | an edge box the inflated window misses is farther than the clearance from the shape |
| `IndexedGap.EdgesDecide` | crates/konnect-geom/src/polyindex.rs:120-135 | with the probe outside, the least comparison over the polygon's edges is the gap |
| `IndexedGap.IndexedGapCmp` | crates/konnect-geom/src/polyindex.rs:105-137 | the kernel's gap answer for every shape and every clearance up to i32::MAX, and Greater whenever the window misses the box |
| `IndexedGap.IndexedTouches` | crates/konnect-geom/src/polyindex.rs:186-205 | the contact answer of the kernel for every shape: true exactly when some real point is in both |
| `IndexedGap.PointDistanceCmp` | crates/konnect-geom/src/polyindex.rs:250-272 | for every distance up to i32::MAX: not Greater exactly when some real point of the region is at most that far from the point, Less when some is nearer; and Greater whenever the point is outside and its window misses every edge |
| `IndexedPair.PairsDecide` | crates/konnect-geom/src/polyindex.rs:217-246 | with both probes outside, the least comparison over all edge pairs is the gap |
| `IndexedPair.ScanPairs` | crates/konnect-geom/src/polyindex.rs:228-246 | skipping edges and pairs out of the window keeps the least comparison |
| `IndexedPair.GapCmpPolygon` | crates/konnect-geom/src/polyindex.rs:208-246 | the kernel's gap answer for every pair of polygons and every clearance up to i32::MAX, and Greater whenever the inflated box misses the other |
| `IndexedPair.BeyondMaxDiffers` | crates/konnect-geom/src/polyindex.rs:316-318 | for every clearance beyond i32::MAX a polygon and a shape whose gap is not Greater but whose window misses the box |
| `IndexedPair.PairBeyondMaxDiffers` | crates/konnect-geom/src/polyindex.rs:208-217 | for every clearance beyond i32::MAX two polygons whose gap is not Greater but whose inflated box misses the other |
| `IndexedPair.PointBeyondMaxDiffers` | crates/konnect-geom/src/polyindex.rs:250-262 | for every distance beyond i32::MAX a polygon and a point outside it within the distance whose window misses every edge |
| `Perturbation.PerturbedInEdges` | crates/konnect-geom/src/predicates.rs:206-238 | the loop computes parity and Boundary from lexicographic signs |
| `Perturbation.PerturbedIsLimit` | crates/konnect-geom/src/predicates.rs:187-238 | for all small enough displacements the answer is the even-odd answer at the displaced real point, Boundary included |
| `Perturbation.PerturbedFits` | crates/konnect-geom/src/predicates.rs:204-205 | for displacements as short as vertex differences every cross and dot product for an edge stays below 2^70 |
| `Within.SegmentInside` | crates/konnect-geom/src/predicates.rs:330-368 | for any rings: ends in the region, no proper crossing and passing probes put every real point of the segment in the region |
| `Within.CrossingLeaves` | crates/konnect-geom/src/predicates.rs:339-341 | a segment that properly crosses an edge in a point of no other edge has points outside and inside the region |
| `Within.LoneWay` | crates/konnect-geom/src/predicates.rs:154-155 | setting out along an edge that overlaps no other, one is on no other edge at first |
| `Within.ProbeLeaves` | crates/konnect-geom/src/predicates.rs:361-367 | a probe just beside a segment point that is outside gives a segment point outside |
| `RegionView.ViewContain` | crates/konnect-geom/src/predicates.rs:272-274 | both views of a region give the even-odd answer |
| `RegionView.EdgesNear` | crates/konnect-geom/src/predicates.rs:280-282 | both views visit only region edges, and every edge whose box meets the window |
| `RegionView.IndexedPerturbed` | crates/konnect-geom/src/polyindex.rs:284-300 | the index answers for a displaced point as the scan of all edges does |
| `RegionView.ViewPerturbed` | crates/konnect-geom/src/predicates.rs:276-278 | both views give the same answer for a displaced point |
| `RegionView.GoodProbeFits` | crates/konnect-geom/src/predicates.rs:343-367 | the bound holds for every probe along a segment |
| `RegionView.SegmentWithin` | crates/konnect-geom/src/predicates.rs:330-368 | for any rings, true exactly when every real point of the segment is in the region and no edge is properly crossed; so exactly containment unless it crosses an edge in a point of another |
| `SweptWithin.BallInside` | crates/konnect-geom/src/predicates.rs:307-321 | around a region point no edge is nearer than a radius, the closed ball of that radius is in the region |
| `SweptWithin.CoreOneSide` | crates/konnect-geom/src/predicates.rs:308-315 | a core that meets no edge has one answer everywhere |
| `SweptWithin.NearEdgeLeaves` | crates/konnect-geom/src/predicates.rs:316-319 | where no edges overlap, an edge point nearer than a radius has points outside and inside the region within it |
| `SweptWithin.AnyCloser` | crates/konnect-geom/src/predicates.rs:316-319 | the edges near the shape's box decide whether any edge is nearer than the radius |
| `SweptWithin.ShapeWithin` | crates/konnect-geom/src/predicates.rs:300-327 | for tracks, discs and rounded polygons: true exactly when every real point of the shape is in the region and the boundary is kept clear; where no edges overlap exactly containment, sharp tracks excepted as for the segment |
| `SweptWithin.AllWithinMeans` | crates/konnect-geom/src/predicates.rs:300-327 | a shape is in a region, as these theorems say it, exactly when every point of it in nanometres is one of the region's |
| `PinchedRing.PinchedDiffers` | crates/konnect-geom/src/predicates.rs:154-161 | an outline whose edges neither overlap nor cross, and a segment wholly in its region that properly crosses an edge |
| `Corners.WedgeFree` | crates/konnect-geom/src/predicates.rs:372-377 | at a corner, edges on the line of a boundary ray or meeting it only in the corner leave a thin wedge beside it free |
| `Corners.ProbeInWedge` | crates/konnect-geom/src/predicates.rs:431-440 | for all small displacements the probe along a boundary ray and a little to one side lies in that wedge |
| `LeakWalk.WhereItEnds` | crates/konnect-geom/src/predicates.rs:372-377 | going right from a point of one region outside the other, a place on an edge where that ends, at the height of no vertex |
| `LeakWalk.AcrossParity` | crates/konnect-geom/src/predicates.rs:648-669 | across an edge point that is no vertex the answer changes exactly when an odd number of edges pass through it |
| `LeakWalk.SideOfSlide` | crates/konnect-geom/src/predicates.rs:372-377 | along an edge to its next vertex, own edges crossing or overlapping it: near the vertex one side has the answers of both regions from before |
| `LeakWalk.WalkToCorner` | crates/konnect-geom/src/predicates.rs:372-377 | if no edges of the two regions properly cross, every point inside one and outside the other leads to such a corner |
| `RegionWithin.FindCorner` | crates/konnect-geom/src/predicates.rs:372-377 | for any rings without proper crossings between them, every real point inside the inner region and outside the area leads to a vertex with a probe beside one of its rays that is inside the one and outside the other |
| `RegionWithin.SideProbeFits` | crates/konnect-geom/src/predicates.rs:429-435 | every product for a probe to either side of a boundary ray stays below 2^70 |
| `RegionWithin.ChecksProve` | crates/konnect-geom/src/predicates.rs:378-447 | for any rings: if all checks pass, no real point is inside the inner region and outside the area |
| `RegionWithin.InteriorIsAll` | crates/konnect-geom/src/predicates.rs:378-447 | where no two inner edges overlap, the inside being in the area puts the boundary in it too |
| `RegionWithin.InnerVertices` | crates/konnect-geom/src/predicates.rs:384-393 | refused exactly when an inner vertex is outside the area; otherwise all inner vertices on its boundary are events |
| `RegionWithin.AnyCrossing` | crates/konnect-geom/src/predicates.rs:394-398 | looking only at nearby edges finds a proper crossing exactly when there is one |
| `RegionWithin.AreaVertices` | crates/konnect-geom/src/predicates.rs:399-408 | looking only near the inner box finds every area vertex inside the inner region or on its boundary |
| `RegionWithin.CollectRays` | crates/konnect-geom/src/predicates.rs:413-428 | exactly the boundary rays leaving the event along the given edges |
| `RegionWithin.EventLeaks` | crates/konnect-geom/src/predicates.rs:411-443 | true exactly when a probe to either side of some boundary ray at the event is in the inner region and outside the area |
| `RegionWithin.VerticesSuffice` | crates/konnect-geom/src/predicates.rs:154-155 | edges that meet only at vertices do not overlap, and nothing crosses one in a point of another |
| `RegionWithin.RegionWithinArea` | crates/konnect-geom/src/predicates.rs:378-447 | on either view of each region, holes in the outline's box, own edges free to cross: true only if no real point is inside the inner region and outside the area; in an area without overlapping edges, exactly when besides no inner vertex is outside and no edges of the two properly cross; where inner edges do not overlap either, exactly containment and no proper crossing, and containment itself unless an edge crosses an area edge in a point of another |
| `SpurRing.SpurPasses` | crates/konnect-geom/src/predicates.rs:154-170 | an inner outline with overlapping edges that meets those conditions in a valid area though a boundary point of it is outside |
| `RegionWithin.ShapeWithinArea` | crates/konnect-geom/src/predicates.rs:300-327 | for every shape and a region without overlapping edges: true exactly when every real point of the shape is in the region, for sharp shapes whose own edges do not overlap and unless they cross an edge in a point of another; for other sharp shapes exactly the three conditions of the region test |
| `RegionWithin.AllShapesClean` | crates/konnect-geom/src/predicates.rs:300-327 | against a region whose edges meet only at vertices that exception never arises |
| `Hull.SortDedup` | crates/konnect-core/src/specctra.rs:1908-1909 | the points in strict lexicographic order, none added, none lost |
| `Hull.PopTurns` | crates/konnect-core/src/specctra.rs:1925-1929 | what is left after popping still turns left and keeps every earlier point on its left |
| `Hull.AddChain` | crates/konnect-core/src/specctra.rs:1917-1933 | one chain: it runs from the first to the last point, turns strictly left and has every point on or left of each edge |
| `Hull.ConvexHull` | crates/konnect-core/src/specctra.rs:1907-1935 | only input points, none twice, from the least point on and with the greatest; every input point on or left of every edge; at most two if all are collinear, otherwise three or more vertices turning strictly left |
| `Outline.BuildAdjacency` | crates/konnect-core/src/specctra.rs:1445-1449 | the map has every line end and, for each, exactly the ends joined to it |
| `Outline.OnlyTheStartRecurs` | crates/konnect-core/src/specctra.rs:1466-1484 | with all degrees two, the walk can only come back to its start |
| `Outline.Walk` | crates/konnect-core/src/specctra.rs:1463-1484 | the walk ends, closes, and never takes the second-loop refusal |
| `Outline.WalkIsWhole` | crates/konnect-core/src/specctra.rs:1485-1487 | when the lines form one cycle the walk visits all of it |
| `Outline.SimpleClosedOutline` | crates/konnect-core/src/specctra.rs:1420-1489 | accepted exactly when the lines, each drawn once, form one simple cycle of three or more sides, returned from its least vertex towards the lesser neighbour; each refusal told exactly, a degree at the least vertex whose degree is not two |
| `Trapezoids.EvenCrossings` | crates/konnect-core/src/specctra.rs:1383-1397 | a vertical line through no vertex crosses an even number of edges, for any rings |
| `Trapezoids.SlabEven` | crates/konnect-core/src/specctra.rs:1383-1397 | every slab is crossed an even number of times |
| `Trapezoids.DownwardRay` | crates/konnect-core/src/specctra.rs:1331-1335 | for rectilinear rings, the number of edges below a point decides the even-odd rule |
| `Trapezoids.SlabDecides` | crates/konnect-core/src/specctra.rs:1393-1397 | exactly one pair of a slab spans a point with an odd number of edges below it, and none otherwise |
| `Trapezoids.CloseLevel` | crates/konnect-core/src/specctra.rs:1363-1387 | between horizontal edges the piece is their rectangle, and nothing when they coincide |
| `Trapezoids.PieceTells` | crates/konnect-core/src/specctra.rs:1363-1382 | between any two edges: the four corners at the whole heights nearest to the edges' lines, from the lower edge's start round to the upper's, a repeated corner dropped, and nothing when there is no area |
| `Trapezoids.CrossingBars` | crates/konnect-core/src/specctra.rs:1386-1393 | exactly the edges spanning the slab, sorted by height in its middle |
| `Trapezoids.Sweep` | crates/konnect-core/src/specctra.rs:1383-1418 | one piece for each pair over a maximal run of slabs; for horizontal edges every point is covered as often as wanted |
| `Trapezoids.Trapezoids` | crates/konnect-core/src/specctra.rs:1336-1418 | for any rings, pairs merged over maximal runs of slabs; for rectilinear rings, rectangles of which exactly one holds a point off the lines if the even-odd rule puts it in the region, and none otherwise |
| `PinNames.PinIdReadsBack` | crates/konnect-core/src/specctra_ses.rs:364-370 | every pin id the exporter makes reads back as its pad number under the `@n` rule |
| `PinNames.PinIdInjective` | crates/konnect-core/src/specctra.rs:1652-1661 | pad numbers without `@` and their occurrence are recovered from the pin id |
| `PinNames.PaddedInjective` | crates/konnect-core/src/specctra.rs:351-363 | zero-padded numbers in names are never the same for different numbers |
| `Exporter.AssignPins` | crates/konnect-core/src/specctra.rs:1652-1661 | pin ids by number and occurrence; refused exactly when two collide |
| `Exporter.PlainNumbersAccepted` | crates/konnect-core/src/specctra.rs:1652-1661 | without `@` in pad numbers no pin ids collide |
| `Exporter.ReadFootprints` | crates/konnect-core/src/specctra.rs:1491-1702 | among footprints whose own fields are readable, refused exactly for an empty or repeated reference or colliding pin ids; otherwise the footprints with pads or holes. The refusals of a single footprint or pad (layer, local clearance, missing uuid, pad type) are left out |
| `Exporter.CollectNets` | crates/konnect-core/src/specctra.rs:315-341 | each net has exactly the pins of its pads, and at least one |
| `Exporter.NamesDiffer` | crates/konnect-core/src/specctra.rs:345-363 | names numbered in key order differ for different keys |
| `Exporter.NamesCount` | crates/konnect-core/src/specctra.rs:345-363 | the names are exactly the prefix with the numbers from one to the number of different keys |
| `LayerStack.PlacesOfNames` | crates/konnect-core/src/specctra.rs:1123-1130 | the layer names with a place, and which: the front layer, the back layer, and `In` and a number that fits a usize and `.Cu` |
| `LayerStack.ReadLayers` | crates/konnect-core/src/specctra.rs:1110-1168 | refused exactly when a copper row has no place or an unknown type, the front or back layer is missing or shadowed, or every layer is a power plane; otherwise the first copper row of each place, in strict stack order from front to back |
| `BoardExport.ClassesFollowRules` | crates/konnect-core/src/specctra.rs:1955-1990 | nets share a class name exactly when their rules are the same |
| `BoardExport.NormalizeRules` | crates/konnect-core/src/specctra.rs:1955-1990 | refused exactly when a net has no rule or one that is out of range; otherwise every net has the class of its rule |
| `BoardExport.ListPadstacks` | crates/konnect-core/src/specctra.rs:2372-2404 | no name twice or empty, and the names are exactly the pad, via and fixed-via ones numbered from one to the numbers of different geometries, rules and sizes |
| `BoardExport.FixedSizes` | crates/konnect-core/src/specctra.rs:435-457 | refused exactly for a via on an unknown net; otherwise the sizes of the vias whose diameter or drill is not that of their net's rule |
| `BoardExport.DocumentAccepted` | crates/konnect-core/src/specctra.rs:2322-2456 | a built manifest passes the profile check, and the relation checks exactly when every component has a uuid |
| `BoardExport.Export` | crates/konnect-core/src/specctra.rs:291-432 | exported exactly when the layers are readable, the Edge.Cuts lines form one loop, the footprints are readable, some footprint is kept, some pad and every plane net and locked via is on a used net, and every used net has a valid rule; whatever is exported passes the importer's profile check, and its relation checks exactly when every exported footprint has a uuid; its components are, in order, those of the footprints with copper pads or holes, with their reference, uuid, image and side, their pins in pad order with number, occurrence and net, two pins sharing a padstack exactly when their pads' geometry agrees; each used net is there once with exactly its pins, and classes are numbered in the order of the rules; the padstack names, the layers and the profile are those of the board. The refusals of a single zone or locked track are left out |
| `Manifest.CheckPins` | crates/konnect-core/src/specctra_ses.rs:361-385 | true exactly when every pin decodes, resolves and is unique in its component |
| `Manifest.PinIdMeans` | crates/konnect-core/src/specctra_ses.rs:361-372 | a pin id passes exactly when it is the component's name, a dash and the pad number, alone or followed by `@` and a number; one without that prefix only for an empty pad number |
| `Manifest.CheckComponents` | crates/konnect-core/src/specctra_ses.rs:349-386 | true exactly when all components are named, finitely rotated, placed on an allowed side, uniquely referenced and have valid pins |
| `Manifest.CheckRelations` | crates/konnect-core/src/specctra_ses.rs:316-393 | the loops over growing sets decide exactly the stated relations |
| `RouteJob.Directory.RunPipeline` | crates/konnect-core/src/native_route_job.rs:637-1080 | the step-by-step run leaves the result, checkpoints and files of the composed stages; a run from nothing that nobody stops delivers what the stages give, told for each source as by `RouteJob.FreshRunTold` |
| `RouteJob.FreshRunTold` | crates/konnect-core/src/native_route_job.rs:637-1080 | an uninterrupted run for each source, with and without the optimizer, reference planes, clear stage and fanout plan: which stop each refusal gives, the board and copper that are checked, what is planned and where, and the report |
| `RouteJob.StopsTold` | crates/konnect-core/src/native_route_job.rs:870-960 | a run asked to stop after routing, or else after the optimizer, ends with just that stop and writes no plan |
| `RouteJob.Directory.WritePlans` | crates/konnect-core/src/native_route_job.rs:1033-1069 | the fanout plan when asked, then the main plan, never replacing a file |
| `RouteJob.PlansAreGated` | crates/konnect-core/src/native_route_job.rs:981-1069 | in every run plan files are only added, only with no stop, and only after a check that did not break |
| `RouteJob.SavedHolds` | crates/konnect-core/src/native_route_job.rs:780-979 | every checkpoint of a run holds the optimizer passes it started from or the passes it aimed at |
| `RouteJob.ResumeEquivalence` | crates/konnect-core/src/native_route_job.rs:780-1069 | a fresh run interrupted once, by a stop or after any checkpoint, and resumed leaves the plan files of an uninterrupted one and the same report, apart from the stage list, the excluded connections, the copper counted at the start, and the nets put back and reference check of the optimizer stage |
| `RouteJob.RunAccounts` | crates/konnect-core/src/native_route_job.rs:858-930 | those parts of the report, from any checkpoint: a resumed run tells no excluded connections, counts the copper it starts from, and tells of the optimizer stage only what it ran itself |
| `RouteJob.StagesTold` | crates/konnect-core/src/native_route_job.rs:646-900 | in a run that gets to its check, from any checkpoint: it is told as resumed exactly when the checkpoint is of this spec, and routing and the optimizer are told as taken over exactly when that checkpoint has them |
| `RouteJob.ResumeTellsAll` | crates/konnect-core/src/native_route_job.rs:780-1069 | after one interruption the whole report, but for the stage list, agrees with that of an uninterrupted run exactly when routing excluded nothing and, if the optimizer stage was taken over, it kept the numbers of tracks and vias, put no net back and made no reference check |
| `RouteJob.ThinningTellsLess` | crates/konnect-core/src/native_route_job.rs:858-930 | a job with nothing excluded, cut off after the optimizer, delivers the same plan with another report |
| `RouteJob.OtherSpecIgnored` | crates/konnect-core/src/native_route_job.rs:646-647 | a checkpoint of another spec changes nothing |
| `RouteJob.ChainExact` | crates/konnect-core/src/native_route_job.rs:780-868 | every chain of interruptions delivers alike exactly when further optimizer passes change nothing delivered |
| `RouteJob.IdempotentSettles` | crates/konnect-core/src/native_route_job.rs:893-944 | an optimizer whose second pass leaves its result alone is enough |
| `RouteJob.RestlessDiffers` | crates/konnect-core/src/native_route_job.rs:780-868 | a job whose optimizer always moves copper delivers another plan after two interruptions |
| `JobDelivery.DeliversExactly` | crates/konnect-core/src/native_route_job.rs:981-1069 | a run delivers exactly when its check does not break, every plan to be written can be lowered and no plan file is in the way; it leaves exactly those plans beside the files there were |
| `JobDelivery.PreparedDelivers` | crates/konnect-core/src/native_route_job.rs:1341-1355 | a job `prepare` lets start delivers exactly when its check does not break and its plans can be lowered |
| `JobDelivery.AgainOnlyFromStart` | crates/konnect-core/src/native_route_job.rs:1033-1069 | of the file states a delivering run passes through, the same run delivers again only from the first |
| `JobDelivery.FanoutInTheWay` | crates/konnect-core/src/native_route_job.rs:1126-1131 | a delivering run with a fanout plan of its own passes through the state with only that plan, and from there no run, fresh or resumed, delivers or writes a file |
| `JobDelivery.FanoutJobGetsStuck` | crates/konnect-core/src/native_route_job.rs:1033-1069 | a concrete job that delivers both plans, passes through that state and is stuck in it |
| `JobStatus.StepPublishes` | crates/konnect-core/src/native_route_job.rs:1157-1172 | a step that publishes publishes the status as it is under the mutex; no other step touches the file |
| `JobStatus.RunHolds` | crates/konnect-core/src/native_route_job.rs:1231-1292 | in every interleaving the mutex, phase, file and landing invariants hold |
| `JobStatus.FileNeverMisleads` | crates/konnect-core/src/native_route_job.rs:1157-1292 | the file always holds one whole snapshot; a finished one is never undone and tells how the run ended: stopped on request, at the time limit or at a stage that is not available exactly for that stop, completed exactly for none, failed in all other cases |
| `JobStatus.StageIsNewest` | crates/konnect-core/src/native_route_job.rs:1199-1208 | in every interleaving the status has the stage announced last, and before the end it is running exactly when one was announced |
| `JobStatus.FiftyTries` | crates/konnect-core/src/native_route_job.rs:1176-1183 | the runner gives up after exactly fifty failed final writes, and not before |
| `JobStatus.FinalStatusLands` | crates/konnect-core/src/native_route_job.rs:1176-1183 | at the end the file shows the final status, with the state that tells how the run ended, exactly when one of the final writes succeeded |
| `Observer.AdvanceConserves` | crates/konnect-core/src/observability.rs:156-186 | each step keeps: the counters are the per-tool table plus what is in flight |
| `Observer.SnapshotConsistent` | crates/konnect-core/src/observability.rs:232-249 | in every interleaving a snapshot's per-tool sums are at most its counters, and equal when nothing was in flight |
| `Observer.QuietAgrees` | crates/konnect-core/src/observability.rs:156-186 | whenever no call is in flight the table sums to the counters |
| `Observer.RecentIsNewest` | crates/konnect-core/src/observability.rs:188-195 | in every interleaving the ring holds the newest min(n, 100) pushes in order, listed newest first |
| `Observer.TallyTells` | crates/konnect-core/src/observability.rs:167-186 | over any records: a tool has an entry exactly when it has a record; its totals, errors, partials and uncertains are the numbers of such records, an error being Error or Uncertain; its duration is their sum, its last status that of the newest, its last error the kind of the newest error |
| `Observer.TableTells` | crates/konnect-core/src/observability.rs:156-186 | the same of the table in every interleaving, over the records applied so far |
| `Observer.HistoryTells` | crates/konnect-core/src/observability.rs:156-195 | in every interleaving the counters, the applied and the pushed records are exactly those of the calls past each step |
| `Observer.CallObserver.Add` | crates/konnect-core/src/observability.rs:156-203 | one recording moves every counter, the tool's entry and the ring as `Observer.TallyTells` and `Observer.RecentIsNewest` tell |
| `Observer.CallObserver.RecentCalls` | crates/konnect-core/src/observability.rs:220-229 | up to the limit, newest first, all for a limit of zero |
| `Observer.AloneIsAdd` | crates/konnect-core/src/observability.rs:156-195 | the six interleaved steps of one call alone do what the method does |

## Left out

- RegionWithin.RegionWithinArea: a false answer is explained only for areas without overlapping edges, as the source documents; the sorting and deduplication of the events, which only saves repeated work, is not modelled.
- Holes are as `crates/konnect-geom/src/shape.rs:159-160` documents them, inside the outline and not overlapping; the index and the region distance rest on it (`Regions.ProperIsWellHoled` and `PolyIndex.ProperInBox` derive what they need).
- SweptWithin.ShapeWithin: for a region with overlapping edges, a shape with a radius that is in the region but nearer an edge than the radius is refused, and the contract says so.
- Exporter.ReadFootprints: the refusals of a single footprint or pad (layer, local clearance, missing uuid, pad type and the like) are not modelled.
- Floating-point geometry: arcs, measurements, closest points, rounded rectangles, circle points.
- Trapezoids.Trapezoids: heights of sloped edges are real numbers here, not doubles; the source rounds the corners of their pieces to integers, so the covering theorem is for rectilinear rings; the final sort of the pieces is not modelled.
- Hull.ConvexHull: coordinates are unbounded, so overflow of 64-bit differences is not modelled.
- The R-tree itself: a box query over a finite collection.
- The routing stages (route, optimize, clear, check, plan lowering) are arbitrary deterministic functions; reports leave out timings, telemetry, messages and what is set before routing (connections needed, net classes, allowances), which does not depend on a resume.
- Failing checkpoint writes: a checkpoint that is not written leaves the file with an earlier one, which the resume theorems cover.
- JobStatus.RunHolds: the mutex is never poisoned, and a rename is atomic; report writing and the job directory's reader are not modelled.
- Observer.SnapshotConsistent: steps interleave sequentially; reorderings of relaxed atomics are not modelled, and neither is the log file.
- BoardExport.Export: the refusals of a single zone, locked track or curved outline item, pad geometry and positions are not in the manifest model; footprints, pads, nets and padstacks are not sorted; locked-routing counts, paths and hashes are compared nowhere.
- DSN and SES text, S-expressions, JSON, SHA-256, clocks, sockets, processes and the file system beyond create and rename.
