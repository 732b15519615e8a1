# FreeCAD Macro Suite, modelled in Dafny

This project models the logic of seven FreeCAD macros. Each macro reads the user's selection and either builds geometry or writes G-code.

- **SimplifyFace** puts the vertices of a face's outer wire in order, then removes inward protrusions. It finds the winding direction, picks a best successor for every vertex and follows those picks. The class `ListWrappingGenerator` supplies the wrapping walks over the outline.
- **MergeFaces** counts every edge of the selected faces under a sorted key. It keeps the edges counted once, walks the outline they form and rebuilds it as a cycle of edges.
- **LinesToGCode** merges a settings profile over the defaults. It then walks the selected edges, joining each to the previous one. It writes the setup block before the first joined pair and the `feed` lines for every edge.
- **SketchLinesToGCode** dispatches sketch element names (`VertexN`, `EdgeN`). It joins the edges, writes G01/G02 lines and a final move.
- **flatten3D** builds a chain of bends from a reference face, through (bend edge, face) pairs, to the last face. It applies the bends to the last face in reverse order, with a corrective rotation whenever the normal does not come out as expected.
- **MakeFace** builds a triangle from exactly three distinct selected vertices.
- **ImportWing** reads an airfoil profile. It skips the header and blank lines, folds the extents, scales and translates the points, and chains them into edges.

## Modelling choices

- **Geometry is real-valued.** Points are `Vec3`/`Vec2` records of reals.
- **Kernel and floating point are parameters.** The FreeCAD kernel and floating-point primitives are uninterpreted function parameters: `normalAt`, `getAngle`, the edge vertices, `round(x, 3)`, `round(x, 6)` and `getAngle3Point`. Every property holds for every choice of them.
- **Python exceptions are error values.** Each macro yields a `Result`/`Option`, or G-code ending in a `Traceback` command. Modelled exceptions:
  - IndexError on an edge with fewer than two vertices, in LinesToGCode and flatten3D
  - KeyError in a walk
  - ZeroDivisionError in `feed` and in ImportWing's factor
  - NameError on an unbound `currentVert`
  - an empty selection, in flatten3D (`NothingSelected`) and SketchLinesToGCode (`NoNames`)
- **Arbitrary orders become arbitrary choices.** Python 2 dict and set iteration order appears where the source uses it: `keys()[0]`, `items()`, iterating a set. It is a nondeterministic choice (`:|`), and the contracts hold for every order.
- **Scripts become methods over spec functions.** Each imperative script is a method whose loops mirror the source's loops. The method is proved equal to a specification function (`Program`, `Run`, `Bends`, `Apply`, `Import`, `AllVerts`, ...). The lemmas state the promised properties of those functions.
- **The code is followed where the documentation differs:**
  - flatten3D with only the reference face selected fails at `faces[-1]`. It is not a no-op.
  - SketchLinesToGCode writes, for each edge, the end it shares with the previous edge. The final line moves to the far end of the last edge.
  - ImportWing subtracts the unscaled minima after scaling.
- **Sentinel extents in ImportWing.** ImportWing starts its extents from the `intmax_t` sentinels. Without points, the factor is Python 2's floor division `260 / (INTMAX_MIN - INTMAX_MAX)`, which is −1.

## Model

| member | source | states |
|---|---|---|
| ListWrapping.NormalStart | src/nonparametric/SimplifyFace.py:56-58 | the normalised start of `listAt` lies in [0, le), equals idx mod le, and leaves an index already in range unchanged |
| ListWrapping.PosIsRemainder | src/nonparametric/SimplifyFace.py:59-71 | the walk position after n steps from s is (s + n) mod le |
| ListWrapping.Pos | src/nonparametric/SimplifyFace.py:59-71 | the position of the wrapping walk always stays inside the list |
| ListWrapping.Rotated | src/nonparametric/SimplifyFace.py:59-71 | a walk of n steps yields exactly n items |
| ListWrapping.RotatedAll | src/nonparametric/SimplifyFace.py:59-71 | every item of the walk is the list element at the walk's position |
| ListWrapping.RotatedSnoc | src/nonparametric/SimplifyFace.py:63-71 | one more step appends the element at the current position and advances it, wrapping to 0 at le |
| ListWrapping.RotatedAt | src/nonparametric/SimplifyFace.py:59-71 | item j of the walk from s is l[(s + j) mod le] |
| ListWrapping.RotatedFromHead | src/nonparametric/SimplifyFace.py:184 | item j of a walk from the head is l[j mod le], the shape of `listAt(0, 2)` |
| ListWrapping.RotatedPrefix | src/nonparametric/SimplifyFace.py:59-62 | the first n <= le items of a walk from s are those of l[s..] + l[..s] |
| ListWrapping.FullWalkIsRotation | src/nonparametric/SimplifyFace.py:56-62 | a full lap from s is the rotation l[s..] + l[..s] and holds every element exactly once (same multiset as l) |
| ListWrapping.FullWalkFromHead | src/nonparametric/SimplifyFace.py:59-62 | a full lap from 0 is l itself |
| ListWrapping.ListWrappingGenerator.constructor | src/nonparametric/SimplifyFace.py:46-48 | the generator keeps the list and its length |
| ListWrapping.ListWrappingGenerator.ListAt | src/nonparametric/SimplifyFace.py:50-71 | `listAt(idx, repeat)` yields exactly le + max(repeat, 0) items, the wrapping walk from the normalised idx |
| ListWrapping.ListWrappingGenerator.RepeatTail | src/nonparametric/SimplifyFace.py:63-71 | the repeat loop extends a walk by exactly max(repeat, 0) further wrapping items |
| ListWrapping.ListWrappingGenerator.LenListAt | src/nonparametric/SimplifyFace.py:73-97 | `lenListAt(idx, length)` yields exactly `length` items (le for -1, none for a non-positive length), the walk from idx, or from 0 when idx = le or le + 1 |
| ListWrapping.ListWrappingGenerator.LenTail | src/nonparametric/SimplifyFace.py:90-97 | the counting loop extends a walk up to exactly `length` items |
| Multimap.AppendDict | src/nonparametric/MergeFaces.py:47-52 | appending adds k to the keys, puts v at the end of k's list (a new list when absent) and leaves every other key alone |
| Multimap.AddEdge | src/nonparametric/SimplifyFace.py:124-131 | after recording an edge both ways, a key is old or an endpoint, and w is listed under u iff it was, or (u, w) is the edge either way round |
| Multimap.ConnectionsMeaning | src/nonparametric/SimplifyFace.py:117-131 | the adjacency has as keys exactly the endpoints of the edges, and lists w under u exactly when an edge joins them |
| Multimap.Adjacent | src/nonparametric/SimplifyFace.py:117-131 | the same two facts for one pair of vertices |
| Multimap.JoinedSym | src/nonparametric/SimplifyFace.py:124-131 | being joined by an edge is symmetric, so the adjacency is symmetric |
| Multimap.NoLoopStep | src/nonparametric/SimplifyFace.py:138-144 | without self-loop edges, a step to a neighbour moves to a different vertex |
| SimplifyFace.BuildConnections | src/nonparametric/SimplifyFace.py:117-131 | the edge loop builds exactly the symmetric adjacency of the wire |
| Multimap.FirstNotIn | src/nonparametric/SimplifyFace.py:140-146 | the neighbour scan stops at the first neighbour not visited, all before it having been visited; MergeFaces.py:82-89 scans its next vertices against the path the same way |
| SimplifyFace.Traverse | src/nonparametric/SimplifyFace.py:134-150 | the walk starts at the start key, follows listed neighbours, ends at a vertex all of whose neighbours it has reached, and repeats no vertex when no vertex is its own neighbour |
| SimplifyFace.SortVertexes | src/nonparametric/SimplifyFace.py:111-150 | fails only on a wire without edges; otherwise starts at an endpoint, joins consecutive vertices by edges, stops where all neighbours were reached, and repeats no vertex without self-loops |
| SimplifyFace.TurnSumIsCyclic | src/nonparametric/SimplifyFace.py:184-191 | on any walk visiting l[j mod le] at step j, the first n turning angles are the cyclic ones |
| SimplifyFace.AngleSumIsCyclic | src/nonparametric/SimplifyFace.py:180-192 | the winding sum over `listAt(0, 2)` adds the turning angle at every vertex between its two cyclic neighbours |
| SimplifyFace.AngleSumCountsTurns | src/nonparametric/SimplifyFace.py:184-191 | the winding sum has exactly le terms, one per vertex |
| SimplifyFace.TurnSumCounts | src/nonparametric/SimplifyFace.py:184-191 | with every angle equal to 1, the sum over n turns is n |
| SimplifyFace.Direction | src/nonparametric/SimplifyFace.py:180-192 | the direction loop computes the cyclic winding sum, and dir holds iff it is not negative |
| SimplifyFace.ScanIsLastExtreme | src/nonparametric/SimplifyFace.py:199-206 | the candidate scan picks nothing iff no angle reaches 0; otherwise its pick reaches 0, is extreme (max for dir, min otherwise) and no later candidate ties it |
| SimplifyFace.CandidateAngles | src/nonparametric/SimplifyFace.py:202-203 | one rounded turning angle per candidate, in order |
| SimplifyFace.Scan | src/nonparametric/SimplifyFace.py:199-206 | the picked candidate is an index into the candidates |
| SimplifyFace.BestSuccessor | src/nonparametric/SimplifyFace.py:199-206 | the inner loop leaves in bestVert the candidate the scan picks |
| SimplifyFace.CandidatesAreRotations | src/nonparametric/SimplifyFace.py:202 | the candidates of `lenListAt(idx + 2)` are the whole outline starting after the vertex; for the closing vertex l[0] they start at l[0] itself; always a permutation of the outline |
| SimplifyFace.BestMapMeaning | src/nonparametric/SimplifyFace.py:194-209 | bestVerts has a key for exactly the items picked for, each mapped to the successor picked for its last occurrence |
| SimplifyFace.BestMapKeys | src/nonparametric/SimplifyFace.py:198-207 | every outline vertex, and nothing else, is a key of bestVerts |
| SimplifyFace.BestMapEntries | src/nonparametric/SimplifyFace.py:198-209 | l[0]'s entry is the closing pick, and with distinct vertices every other vertex's entry is its own pick |
| SimplifyFace.SuccessorOf | src/nonparametric/SimplifyFace.py:199-207 | one pass of the best-vertex loop picks the successor of the vertex after l[idx] |
| SimplifyFace.BestVertexes | src/nonparametric/SimplifyFace.py:194-209 | the best-vertex loop builds exactly the map of picks and leaves the closing pick in bestVert |
| SimplifyFace.FollowBest | src/nonparametric/SimplifyFace.py:211-220 | fails without a start; succeeds when every vertex has a successor with an entry; the path starts at the start, repeats nothing, follows recorded successors and stops at a vertex already on it |
| SimplifyFace.Project2D | src/nonparametric/SimplifyFace.py:177 | the 2D list keeps every vertex's x and y, in order |
| SimplifyFace.RemoveCavities | src/nonparametric/SimplifyFace.py:167-226 | an empty outline fails; a non-empty one succeeds whenever every vertex has a pick that itself has an entry, since only a `None` pick or a missing key raises KeyError; a result path starts at the closing pick, repeats no vertex, uses only outline vertices, follows the picks, and the diagnostic is printed iff the walk does not close at its start |
| SimplifyFace.CloseLoop | src/nonparametric/SimplifyFace.py:159-165 | the polygon is the vertices followed by the first one again; empty input raises |
| SimplifyFace.Simplify | src/nonparametric/SimplifyFace.py:228-239 | an empty wire fails; a result is a closed polygon lying in the plane z = 0 |
| MergeFaces.EdgeTuples | src/nonparametric/MergeFaces.py:39-45 | the key is the edge's endpoints in ascending order |
| MergeFaces.KeysOf | src/nonparametric/MergeFaces.py:39-45 | one key per edge, in order, each its sorted endpoints |
| MergeFaces.SameKey | src/nonparametric/MergeFaces.py:39-45 | two edges share a key iff they are equal or reversed |
| MergeFaces.CountMapMeaning | src/nonparametric/MergeFaces.py:54-63 | the count has a key for exactly the keys that occur, each mapped to its number of occurrences |
| MergeFaces.KeysInCount | src/nonparametric/MergeFaces.py:54-63 | every counted key is the key of some selected edge, and every selected edge's key is counted |
| MergeFaces.CountFace | src/nonparametric/MergeFaces.py:58-63 | the inner loop adds one face's edges to the count |
| MergeFaces.CountEdges | src/nonparametric/MergeFaces.py:54-63 | the counting loops compute the occurrence count over all faces' edges |
| MergeFaces.TwoTrianglesCount | src/nonparametric/MergeFaces.py:54-63 | two triangles sharing a diagonal count it twice and the four sides once |
| MergeFaces.CountKeyCanonical | src/nonparametric/MergeFaces.py:59-63 | every counted key is already in sorted order |
| MergeFaces.BoundaryMembers | src/nonparametric/MergeFaces.py:67-74 | the boundary holds exactly the keys counted once |
| MergeFaces.BoundaryArcs | src/nonparametric/MergeFaces.py:67-74 | the loop builds the adjacency of the edges counted once, and start is the first end of the last such edge |
| MergeFaces.BoundaryArcsMeaning | src/nonparametric/MergeFaces.py:67-74 | v is listed under u iff the edge u-v (either way) was counted exactly once |
| MergeFaces.BoundaryArcsSymmetric | src/nonparametric/MergeFaces.py:70-73 | the directed arcs are symmetric |
| MergeFaces.StartMeaning | src/nonparametric/MergeFaces.py:67-74 | there is no start iff no edge was counted once; a start has a non-empty list of arcs |
| MergeFaces.StartOf | src/nonparametric/MergeFaces.py:70-74 | there is a start iff some boundary edge exists |
| MergeFaces.NoBoundaryIff | src/nonparametric/MergeFaces.py:67-74 | there is no start iff no selected edge occurs exactly once |
| MergeFaces.ArcsClosed | src/nonparametric/MergeFaces.py:67-74 | every vertex listed in the arcs is itself a key |
| MergeFaces.ArcIsOnce | src/nonparametric/MergeFaces.py:67-74 | every arc comes from an edge occurring exactly once in the selection |
| MergeFaces.EnumerateKeys | src/nonparametric/MergeFaces.py:70 | `items()` visits every key exactly once, in some order |
| MergeFaces.WalkPath | src/nonparametric/MergeFaces.py:78-91 | no start fails; on closed arcs it succeeds; the path repeats no vertex, follows arcs from the start and ends where every arc leads back into it |
| MergeFaces.RebuildEdges | src/nonparametric/MergeFaces.py:95-100 | an empty path fails (`path[-1]`); otherwise one edge per path vertex, arriving at it |
| MergeFaces.Merge | src/nonparametric/MergeFaces.py:54-107 | fails iff no edge occurs once; otherwise the edges form a closed cycle, and every edge after the first (which joins the path's last vertex back to its first) occurs exactly once in the selection |
| LinesToGCode.Update | src/cam/LinesToGCode.py:63-64 | `dict.update`: keys are the union, the profile's values win, the others stay |
| LinesToGCode.Effective | src/cam/LinesToGCode.py:62-69 | an unknown profile name fails with KeyError; otherwise the five settings are read |
| LinesToGCode.EffectiveFields | src/cam/LinesToGCode.py:62-69 | each setting is the profile's value if present, else the default (True, 4, 200, 100, True) |
| LinesToGCode.PocketSettings | src/cam/LinesToGCode.py:36-69 | the selected "pocket" profile gives slowAtCorners, slowLen 4, feed 200, slow 100, useZDepth |
| LinesToGCode.ContourSettings | src/cam/LinesToGCode.py:36-69 | the "contour" profile turns slowAtCorners off and keeps slowLen 4 and slowRate 100 from the defaults |
| LinesToGCode.Feed | src/cam/LinesToGCode.py:82-100 | `feed` raises iff it divides by a zero length; otherwise it writes 2 lines for a long line with slowing, 1 for other lines and arcs, 0 otherwise; all motions, ending at the rounded target minus G54, the last line of a straight edge at the slow or feed rate |
| LinesToGCode.FeedSlowSplit | src/cam/LinesToGCode.py:86-90 | in the slow split of a long line the first line is fed at feedRate and the second at slowRate; the first lies slowLen back along the edge toward the current vertex, offset from the second by (cur - next) / length · slowLen in x and in y |
| LinesToGCode.Orient | src/cam/LinesToGCode.py:114-123 | no join iff neither end is among lastVerts; otherwise the current vertex is in lastVerts, the pair is the edge either way round, and the first vertex wins |
| LinesToGCode.StartVert | src/cam/LinesToGCode.py:125-130 | the start is an end of the first edge, and not the shared one when the edge's ends differ |
| LinesToGCode.JoinStep | src/cam/LinesToGCode.py:114-151 | a step that does not stop writes no exception and moves to the state after this edge (done first) |
| LinesToGCode.EmittedMissing | src/cam/LinesToGCode.py:115-118 | an edge with fewer than two vertices ends the lines with the IndexError |
| LinesToGCode.EmittedFirst | src/cam/LinesToGCode.py:153-154 | the first edge writes nothing and becomes lastEdge, with its two vertices as lastVerts |
| LinesToGCode.EmittedJoin | src/cam/LinesToGCode.py:114-154 | a later edge writes its join step's lines and, unless that stops, the loop continues from the state after it |
| LinesToGCode.EmittedSplit | src/cam/LinesToGCode.py:113-154 | an edge with fewer than two vertices raises IndexError; otherwise, with no lastEdge yet, it writes nothing and only becomes lastEdge |
| LinesToGCode.VisitEdge | src/cam/LinesToGCode.py:113-154 | one pass of the edge loop writes exactly the first lines of the program's body for the remaining edges |
| LinesToGCode.JoinEdge | src/cam/LinesToGCode.py:114-151 | the join branch of the loop body computes the join step |
| LinesToGCode.Convert | src/cam/LinesToGCode.py:102-156 | the macro writes exactly the program: header, the loop's lines, footer unless an exception ended it |
| LinesToGCode.SetupFacts | src/cam/LinesToGCode.py:132-144 | the setup block has one "(Program)" remark, no motion lines, no exception |
| LinesToGCode.SetupMoves | src/cam/LinesToGCode.py:132-144 | the setup lifts to Zrapid, then moves rapidly over the rounded start vertex minus G54, then plunges at F100 to the start's rounded depth minus G54 when useZDepth is set and to Zcut otherwise, and ends with the "(Program)" remark |
| LinesToGCode.JoinStepSetup | src/cam/LinesToGCode.py:125-148 | at the first joined edge the step's lines open with the setup block for the first edge's end not shared with the second |
| LinesToGCode.JoinStepFacts | src/cam/LinesToGCode.py:114-151 | a joining step writes the setup remark iff the first feed is still due; a non-joining one stops with no motion; a clean step writes the first edge's feeds when due plus this edge's feeds |
| LinesToGCode.JoinStepStop | src/cam/LinesToGCode.py:114-151 | the loop goes on iff the edges join and no feed raises; a joined stop ends in the exception |
| LinesToGCode.JoinRemarks | src/cam/LinesToGCode.py:125-151 | the setup remark is written at the first joined edge, and the rest of the chain is then counted from the state after it |
| LinesToGCode.RemarksFrom | src/cam/LinesToGCode.py:110-154 | from any state after the first edge, the setup remark appears once if the next edge joins and the setup is due, otherwise never |
| LinesToGCode.JoinMotions | src/cam/LinesToGCode.py:125-151 | a clean joined edge adds the due first-edge feeds plus its own feeds to the motion count |
| LinesToGCode.JoinEnds | src/cam/LinesToGCode.py:147-151 | after a clean joined edge, the lines end in an exception iff the rest of the chain's lines do |
| LinesToGCode.JoinBroken | src/cam/LinesToGCode.py:121-123 | a non-joining edge writes only the "don't join" notice and ends the loop |
| LinesToGCode.JoinCrash | src/cam/LinesToGCode.py:86-89 | a joined edge whose feed divides by zero ends the lines with the exception |
| LinesToGCode.ChainMotions | src/cam/LinesToGCode.py:110-154 | along edges that do not raise, the motion count is the first edge's feeds (if the chain goes on) plus each joined edge's feeds up to the first break, with no exception |
| LinesToGCode.ProgramMotions | src/cam/LinesToGCode.py:102-156 | for edges that do not raise, the program's motion lines are the first edge's plus the joined chain's feeds (none without a joined second edge), and it ends with the footer |
| LinesToGCode.ShortSelection | src/cam/LinesToGCode.py:102-156 | zero or one edge gives just the header and footer |
| LinesToGCode.InitRemarks | src/cam/LinesToGCode.py:110-154 | the loop writes the setup remark once iff the second edge joins the first, else never |
| LinesToGCode.SetupOnce | src/cam/LinesToGCode.py:125-148 | the whole program has the "(Program)" setup remark once iff the second edge joins the first, else never |
| SketchLinesToGCode.ParseIndex | src/cam/SketchLinesToGCode.py:62 | `int()` of the suffix succeeds iff it is a non-empty string of digits |
| SketchLinesToGCode.ParseDecimal | src/cam/SketchLinesToGCode.py:61-62 | a number written in decimal parses back to itself |
| SketchLinesToGCode.EdgeNameIndex | src/cam/SketchLinesToGCode.py:61-62 | "EdgeN" is taken as an edge name whose index parses back to N, never as a vertex name |
| SketchLinesToGCode.Direction | src/cam/SketchLinesToGCode.py:63-72 | no join iff neither end of the edge is an end of the last edge; otherwise the target is a shared end, the pair is the edge either way round, and the start point wins |
| SketchLinesToGCode.Emit | src/cam/SketchLinesToGCode.py:74-82 | a line writes one G01 and an arc one G02, other curves nothing; the line goes to the rounded target at depth Zval, and an arc's I/J are the rounded offsets of the current vertex from the centre |
| SketchLinesToGCode.JoinedEdgeLine | src/cam/SketchLinesToGCode.py:61-85 | an edge after an earlier edge breaks the loop iff it does not join; otherwise its line goes to the rounded end it shares with the last edge, at depth Zval, and currentVert becomes its other end |
| SketchLinesToGCode.ArcOffsetsOpposite | src/cam/SketchLinesToGCode.py:78-82 | wherever round3 is symmetric about zero for the two offsets, the arc's I/J offsets are the negation of LinesToGCode's for the same arc and points |
| SketchLinesToGCode.Step | src/cam/SketchLinesToGCode.py:60-87 | a non-edge name is skipped with a notice and changes nothing; a stop changes nothing; a clean step writes no exception; the first edge writes nothing; currentVert stays an end of the last edge |
| SketchLinesToGCode.Run | src/cam/SketchLinesToGCode.py:58-87 | over the whole loop, currentVert, once bound, is an end of the last edge |
| SketchLinesToGCode.RunFrom | src/cam/SketchLinesToGCode.py:58-87 | the loop keeps currentVert, once bound, an end of lastEdge |
| SketchLinesToGCode.SkipsIrrelevant | src/cam/SketchLinesToGCode.py:86-87 | dropping the non-edge names gives the same lines without the skip notices and the same final state |
| SketchLinesToGCode.EdgeNamesOnly | src/cam/SketchLinesToGCode.py:61 | keeping only the edge names never lengthens the list |
| SketchLinesToGCode.NoSkips | src/cam/SketchLinesToGCode.py:86-87 | dropping the skip notices never lengthens the lines |
| SketchLinesToGCode.ChainRun | src/cam/SketchLinesToGCode.py:60-87 | along a joined chain of edges, one motion line per line or arc, no exception, and the final state is the last edge with currentVert its far end from the previous edge |
| SketchLinesToGCode.Names | src/cam/SketchLinesToGCode.py:48 | one element name per edge index |
| SketchLinesToGCode.FirstEdgeSilent | src/cam/SketchLinesToGCode.py:58-85 | a program starting with an edge writes nothing for it and continues from it |
| SketchLinesToGCode.EdgeChainProgram | src/cam/SketchLinesToGCode.py:41-90 | a single edge ends in the NameError on currentVert; a joined chain writes one motion per line or arc after the first edge plus the final move, which goes to the far end of the last edge |
| SketchLinesToGCode.VisitName | src/cam/SketchLinesToGCode.py:61-87 | one pass of the loop writes exactly the first lines of the fold over the remaining names |
| SketchLinesToGCode.Loop | src/cam/SketchLinesToGCode.py:57-87 | the loop computes the fold over the names, with its final lastEdge and currentVert |
| SketchLinesToGCode.Convert | src/cam/SketchLinesToGCode.py:41-90 | the macro writes exactly the program: "starting", the optional vertex move, the loop's lines and the final move |
| Flatten3D.NearValueSymmetric | src/D2p5/flatten3D.py:43-45 | nearness is symmetric and reflexive |
| Flatten3D.NotNearIff | src/D2p5/flatten3D.py:71-73 | two vectors are not near iff some component differs by at least 1e-14; symmetric; no vector is not near itself |
| Flatten3D.GrouperChunks | src/D2p5/flatten3D.py:47-51 | grouper gives chunks of length n, ceil(len/n) of them, whose concatenation is the input padded with the fill value |
| Flatten3D.ConcatGrouperExample | src/D2p5/flatten3D.py:49 | grouper(3, "ABCDEFG", 'x') is ABC DEF Gxx |
| Flatten3D.FlattenSelection | src/D2p5/flatten3D.py:65-69 | the loop concatenates the sub-objects of the selections, in order |
| Flatten3D.PrimaryIsLastSelection | src/D2p5/flatten3D.py:76-81 | after the reversal, the reference face is the first sub-object of the last selection |
| Flatten3D.Reverse | src/D2p5/flatten3D.py:77 | the reversal puts element len - 1 - i at position i |
| Flatten3D.Present | src/D2p5/flatten3D.py:87 | every face is present in the padded sequence, in order |
| Flatten3D.Pairs | src/D2p5/flatten3D.py:87 | `grouper(2, faces)` gives pairs |
| Flatten3D.CalculateBend | src/D2p5/flatten3D.py:53-63 | fails iff the bend edge has fewer than two vertices; the reference point is its first vertex, the axis runs from the second vertex to the first, the angle is the kernel's angle between the two normals, the expected normal is the reference face's |
| Flatten3D.Bends | src/D2p5/flatten3D.py:85-89 | a successful chain has one bend per pair |
| Flatten3D.BendsChain | src/D2p5/flatten3D.py:85-89 | every bend is computed against the previous pair's face (the reference face for the first) |
| Flatten3D.BendsErrors | src/D2p5/flatten3D.py:53-89 | the bend chain fails only for a missing vertex or a missing face |
| Flatten3D.Apply | src/D2p5/flatten3D.py:93-98 | applying the bends logs one expected normal per bend |
| Flatten3D.Corrections | src/D2p5/flatten3D.py:97-98 | at most one corrective rotation per bend |
| Flatten3D.CollectBends | src/D2p5/flatten3D.py:84-89 | the loop with lastsecoface computes the bend chain |
| Flatten3D.Expected | src/D2p5/flatten3D.py:93-98 | the rotations the bends call for number one per bend plus one per report that is not near |
| Flatten3D.ApplyRotations | src/D2p5/flatten3D.py:92-98 | applying the bends keeps the face and appends exactly, in bend order, each bend's rotation by θ about its point and axis, followed by the rotation by −2θ about the same point and axis exactly when that bend's report is not near |
| Flatten3D.ApplyReports | src/D2p5/flatten3D.py:93-97 | report i holds bend i's expected normal and the normal of the face just after bend i's first rotation, that is, after the rotations the earlier bends called for (`TurnedAt`); this printed normal decides the correction |
| Flatten3D.ApplyBends | src/D2p5/flatten3D.py:92-98 | the loop applies the bends in reverse order |
| Flatten3D.OddTailMissing | src/D2p5/flatten3D.py:87-88 | an odd number of faces after the reference leaves the last pair without a face, so the chain fails |
| Flatten3D.BendsFailAtLast | src/D2p5/flatten3D.py:87-88 | a last pair padded with None makes the chain fail |
| Flatten3D.LastPairPadded | src/D2p5/flatten3D.py:47-51 | when the padded faces end in the fill value, the last pair lacks its face |
| Flatten3D.Flatten | src/D2p5/flatten3D.py:76-99 | the macro computes the unfold of the reversed, flattened selection |
| Flatten3D.UnfoldFailures | src/D2p5/flatten3D.py:76-99 | nothing selected fails; the reference face alone has no face to show; an even number of faces fails |
| Flatten3D.UnfoldResult | src/D2p5/flatten3D.py:84-99 | a success has an odd number of faces, one log entry per bend ((n-1)/2), shows the last face, and gives it exactly the rotations the reversed bends call for |
| Flatten3D.UnfoldSucceeds | src/D2p5/flatten3D.py:76-99 | conversely, an odd selection of at least three whose bend edges all have two vertices succeeds |
| Flatten3D.PairsCount | src/D2p5/flatten3D.py:47-51 | an even number of elements gives half as many pairs, with no padding |
| Flatten3D.PairAt | src/D2p5/flatten3D.py:87 | with an even number of elements, pair m is (element 2m, element 2m + 1) |
| Flatten3D.BendsSucceed | src/D2p5/flatten3D.py:53-89 | complete pairs whose bend edges have two vertices give a bend each |
| MakeFace.AllVerts | src/nonparametric/MakeFace.py:45-49 | every vertex of every selected sub-object is in the set |
| MakeFace.AllVertsFrom | src/nonparametric/MakeFace.py:45-49 | every vertex in the set comes from some selected sub-object |
| MakeFace.ObjectVerts | src/nonparametric/MakeFace.py:46-49 | every vertex of every sub-object of one selection is in the set |
| MakeFace.ObjectVertsFrom | src/nonparametric/MakeFace.py:46-49 | every vertex in the set comes from some sub-object |
| MakeFace.AddVertexes | src/nonparametric/MakeFace.py:48-49 | the innermost loop adds exactly the sub-object's vertices |
| MakeFace.CollectVerts | src/nonparametric/MakeFace.py:44-49 | the nested loops build exactly the set of distinct vertices |
| MakeFace.Enumerate | src/nonparametric/MakeFace.py:54-56 | iterating the set lists every element exactly once |
| MakeFace.TriangleOf | src/nonparametric/MakeFace.py:57 | v0→v1, v1→v2, v2→v0 is a closed cycle of non-degenerate edges over exactly the three vertices |
| MakeFace.MakeFace | src/nonparametric/MakeFace.py:44-57 | the error message iff the number of distinct vertices is not 3; otherwise three edges forming a closed triangle over exactly those vertices |
| MakeFace.TwoEdgesAccepted | src/nonparametric/MakeFace.py:45-51 | two edges sharing one vertex, or a vertex and an edge, give exactly three distinct vertices and are accepted |
| ImportWing.PointsFromLines | src/utility/ImportWing.py:45-50 | reading fails iff some line has exactly one token (IndexError); otherwise the points are the first two tokens of the non-blank lines, in file order |
| ImportWing.NonBlank | src/utility/ImportWing.py:45-50 | at most one point per line |
| ImportWing.SingleTokenFails | src/utility/ImportWing.py:45-49 | a single-token line anywhere after the header makes the import fail |
| ImportWing.MaxLen | src/utility/ImportWing.py:42-52 | maxlen is at least INTMAX_MIN and every x, and is INTMAX_MIN or some point's x |
| ImportWing.MinLen | src/utility/ImportWing.py:43-54 | minlen is at most INTMAX_MAX and every x, and is INTMAX_MAX or some point's x |
| ImportWing.MinHeight | src/utility/ImportWing.py:44-56 | minheight is at most INTMAX_MAX and every y, and is INTMAX_MAX or some point's y |
| ImportWing.ExtentsAttained | src/utility/ImportWing.py:41-56 | with points inside the sentinels, each extent is attained by some point |
| ImportWing.ReadPoints | src/utility/ImportWing.py:39-56 | the reading loop computes the points and the three extents |
| ImportWing.FloorDiv | src/utility/ImportWing.py:62 | Python 2 integer division rounds toward minus infinity |
| ImportWing.SentinelDivision | src/utility/ImportWing.py:41-62 | without points, 260 divided by the sentinel width is -1 |
| ImportWing.Factor | src/utility/ImportWing.py:62 | without points the factor is -1; with points it fails (ZeroDivisionError) iff all x are equal |
| ImportWing.ScaleFactor | src/utility/ImportWing.py:62 | the factor line computes that factor from the folded extents |
| ImportWing.HFactor | src/utility/ImportWing.py:63 | hfactor · (27.34 + 11.99) = factor · 35 |
| ImportWing.ScalePoint | src/utility/ImportWing.py:65 | a scaled point lies in the plane x = 0, its y plus minlen is x·factor, its z plus minheight is y·hfactor |
| ImportWing.ScalePoints | src/utility/ImportWing.py:61-65 | one scaled point per point, in order |
| ImportWing.ChordScaled | src/utility/ImportWing.py:32-65 | the extreme x values end up exactly 260 apart |
| ImportWing.PointsSpan | src/utility/ImportWing.py:62-65 | two points scaled by 260 over the difference of their x values end up 260 apart in y |
| ImportWing.ExtremesSpan | src/utility/ImportWing.py:62-65 | the points at maxlen and minlen end up 260 apart |
| ImportWing.ChainEdges | src/utility/ImportWing.py:69-76 | n points give n-1 edges (none for no points), edge i joining points i and i+1: an open chain |
| ImportWing.ImportProfile | src/utility/ImportWing.py:38-76 | the script computes the import |
| ImportWing.ImportShape | src/utility/ImportWing.py:38-76 | a successful import has one point per non-blank line after the header, as many scaled points, and one edge fewer joining consecutive scaled points |

## Left out

- **GUI, display and the console.** `Gui.Selection`, `Part.show`, `ViewObject.hide` and console printing are left out. Selections are parameters. The written G-code and messages are `Command` values, not formatted strings.
- **Float text formatting.** The `%s` rendering of floats in G-code is left out. So is the text of the `vertexString`/`vectorString` keys: a key is equality of the coordinate triple.
- **The FreeCAD kernel.** These are uninterpreted parameters:
  - `Part.makePolygon`, `Part.Face`, `Part.Wire`, `Part.Edge`, `Part.Vertex`
  - `normalAt`, `getAngle`, the kernel rotation
  - the edges' curve type, length and vertices
- **Trigonometry and rounding.** `atan2` in `getAngle3Point`, the radian-to-degree conversion, and `round(…, 3)` / `round(…, 6)` are parameters. IEEE behaviour is not modelled; reals replace floats.
- **Truthiness of FreeCAD objects.** `if lastEdge:`, `if lastv:` and `if currentVert:` are taken to be true for every kernel object.
- **SimplifyFace.SortVertexes:** edges are modelled as pairs of end points. An edge with a single vertex, such as a full circle, cannot be expressed, so the IndexError that `sortVertexes` raises on `Vertexes[1]` of such an edge is not modelled.
- **MergeFaces.Merge:** for the same reason, the IndexError that `edgeTuples` raises on a single-vertex edge is not modelled.
- **Python 2 iteration order.** The order of dict keys, `items()` and set iteration is an arbitrary choice; no specific order is pinned.
- **MakeSolid.py and PromoteSelected.py** are not part of this model: they only forward the selection to the kernel.
- **`from itertools import izip_longest` and `pivy` imports** have no logic of their own.
- **ImportWing input.** Opening the fixed file path, the `float()` parsing of tokens and the `IN` sentinel import are left out. The model starts from lines already split into numeric tokens. The sentinels are the `intmax_t` bounds.
- **SketchLinesToGCode.ParseIndex:** `int()` is modelled on plain decimal digits only. It does not accept signs or surrounding whitespace.
- **Flatten3D.ApplyRotations:** the in-place `rotate` is modelled on values. A face records the rotations applied to it, and the kernel's normal is a function of the face so recorded. Aliasing between `faces[-1]` and other references is not captured.
- **ListWrapping.ListWrappingGenerator.LenListAt:** requires `0 <= idx`. It also requires that the walk is not asked to run past the end of the list before the count is reached, where the source would raise IndexError. Every call in the macro (`lenListAt(idx + 2)` with idx + 2 <= le + 1) meets this.
- **SimplifyFace.Simplify:** states only that the result is closed and lies in z = 0. The path itself is stated by `SimplifyFace.RemoveCavities`.
- **LinesToGCode.Convert:** the model starts from the edges of the first selected object. The IndexError that `getSelectionEx()[0]` raises on an empty selection, after the header has been printed, is not modelled. An object with no edges gives just the header and footer (`LinesToGCode.ShortSelection`).
- **LinesToGCode.ProgramMotions:** counts motion lines only for edges whose feed does not raise. Raising edges are covered separately by `LinesToGCode.JoinCrash` and `LinesToGCode.EmittedMissing`.
- **ImportWing.ExtentsAttained:** holds for coordinates within the `intmax_t` sentinels. Outside them a sentinel can survive the fold, as `ImportWing.MaxLen` states.
