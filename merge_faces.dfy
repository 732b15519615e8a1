/**
 * The face merger: count how often each undirected edge occurs over the
 * selected faces, keep the edges that occur exactly once (the outline of
 * the union), walk those edges into a path of vertices, and close the path
 * into a loop of edges for the new face.
 *
 * Python 2 hands out dictionary items in no fixed order; the order in which
 * edgeCount.items() is visited is the `order` parameter of BoundaryArcs,
 * and Merge draws it with an arbitrary choice.
 */
module MergeFaces {
  import opened Wrappers
  import opened Geometry
  import opened Multimap

  /** An undirected edge, as its two end triples in tuple order. */
  type EdgeKey = (Vec3, Vec3)

  // ---------------------------------------------------------------------------
  // edgeTuples
  // ---------------------------------------------------------------------------

  /** edgeTuples: the two end triples of an edge, the smaller one first. */
  function EdgeTuples(e: Segment): (k: EdgeKey)
    ensures LessEq(k.0, k.1)
    ensures k == e || k == (e.1, e.0)
  {
    if Less(e.0, e.1) then e else (e.1, e.0)
  }

  /** Two edges get the same key iff they join the same two vertices, in either orientation. */
  lemma SameKey(e: Segment, f: Segment)
    ensures EdgeTuples(e) == EdgeTuples(f) <==> e == f || e == (f.1, f.0)
  {
    LessTrichotomy(e.0, e.1);
    LessTrichotomy(f.0, f.1);
  }

  // ---------------------------------------------------------------------------
  // Counting the edges
  // ---------------------------------------------------------------------------

  /** The edges of all selected faces, face after face. */
  function Flatten(faces: seq<seq<Segment>>): (r: seq<Segment>)
    ensures faces == [] ==> r == []
  {
    if faces == [] then [] else Flatten(faces[..|faces| - 1]) + faces[|faces| - 1]
  }

  /** `edgeCount[et] += 1`, where a new key starts at 1. */
  function Increment(m: map<EdgeKey, nat>, k: EdgeKey): map<EdgeKey, nat>
  {
    if k in m then m[k := m[k] + 1] else m[k := 1]
  }

  /** The edgeCount dictionary after the given edges have been counted. */
  function CountMap(edges: seq<Segment>): map<EdgeKey, nat>
  {
    if edges == [] then map[]
    else Increment(CountMap(edges[..|edges| - 1]), EdgeTuples(edges[|edges| - 1]))
  }

  /** The key of every edge, in order. */
  function KeysOf(edges: seq<Segment>): (r: seq<EdgeKey>)
    ensures |r| == |edges|
    ensures forall i :: 0 <= i < |edges| ==> r[i] == EdgeTuples(edges[i])
  {
    seq(|edges|, i requires 0 <= i < |edges| => EdgeTuples(edges[i]))
  }

  /**
   * The dictionary counts right: its keys are the keys of the edges, and
   * each key is mapped to the number of edges that have it.
   */
  lemma {:induction false} CountMapMeaning(edges: seq<Segment>)
    ensures forall k :: k in CountMap(edges) <==> multiset(KeysOf(edges))[k] > 0
    ensures forall k :: k in CountMap(edges) ==> CountMap(edges)[k] == multiset(KeysOf(edges))[k]
  {
    if edges != [] {
      var front := edges[..|edges| - 1];
      CountMapMeaning(front);
      assert KeysOf(edges) == KeysOf(front) + [EdgeTuples(edges[|edges| - 1])];
    }
  }

  lemma FlattenStep(faces: seq<seq<Segment>>, i: nat)
    requires i < |faces|
    ensures Flatten(faces[..i + 1]) == Flatten(faces[..i]) + faces[i]
  {
    assert faces[..i + 1][..i] == faces[..i];
  }

  lemma CountStep(done: seq<Segment>, face: seq<Segment>, j: nat)
    requires j < |face|
    ensures CountMap(done + face[..j + 1]) == Increment(CountMap(done + face[..j]), EdgeTuples(face[j]))
  {
    assert (done + face[..j + 1])[..|done| + j] == done + face[..j];
  }

  /** The inner counting loop: the edges of one face are added to the dictionary. */
  method CountFace(counted: map<EdgeKey, nat>, face: seq<Segment>, ghost done: seq<Segment>)
    returns (edgeCount: map<EdgeKey, nat>)
    requires counted == CountMap(done)
    ensures edgeCount == CountMap(done + face)
  {
    edgeCount := counted;
    var j := 0;
    assert done + face[..0] == done;
    while j < |face|
      invariant 0 <= j <= |face|
      invariant edgeCount == CountMap(done + face[..j])
    {
      var et := EdgeTuples(face[j]);
      CountStep(done, face, j);
      if et in edgeCount {
        edgeCount := edgeCount[et := edgeCount[et] + 1];
      } else {
        edgeCount := edgeCount[et := 1];
      }
      j := j + 1;
    }
    assert face[..|face|] == face;
  }

  /** The counting loops of the macro, over the faces and over each face's edges. */
  method CountEdges(faces: seq<seq<Segment>>) returns (edgeCount: map<EdgeKey, nat>)
    ensures edgeCount == CountMap(Flatten(faces))
  {
    edgeCount := map[];
    var i := 0;
    while i < |faces|
      invariant 0 <= i <= |faces|
      invariant edgeCount == CountMap(Flatten(faces[..i]))
    {
      edgeCount := CountFace(edgeCount, faces[i], Flatten(faces[..i]));
      FlattenStep(faces, i);
      i := i + 1;
    }
    assert faces[..|faces|] == faces;
  }

  // ---------------------------------------------------------------------------
  // The boundary arcs
  // ---------------------------------------------------------------------------

  /** order lists every key of the dictionary exactly once, as items() does. */
  ghost predicate Enumerates(order: seq<EdgeKey>, keys: set<EdgeKey>) {
    Distinct(order) && forall k :: k in order <==> k in keys
  }

  /** The keys counted exactly once, in the order they are visited, as edges. */
  function Boundary(edgeCount: map<EdgeKey, nat>, order: seq<EdgeKey>): seq<Segment>
  {
    if order == [] then []
    else
      var k := order[|order| - 1];
      Boundary(edgeCount, order[..|order| - 1]) + (if k in edgeCount && edgeCount[k] == 1 then [k] else [])
  }

  /** An edge is on the boundary iff it is a visited key counted exactly once. */
  lemma {:induction false} BoundaryMembers(edgeCount: map<EdgeKey, nat>, order: seq<EdgeKey>)
    ensures forall e :: e in Boundary(edgeCount, order) <==> e in order && e in edgeCount && edgeCount[e] == 1
  {
    if order != [] {
      var front := order[..|order| - 1];
      BoundaryMembers(edgeCount, front);
      assert order == front + [order[|order| - 1]];
    }
  }

  /** start: the first end of the last key counted once, or None. */
  function StartOf(b: seq<Segment>): (s: Option<Vec3>)
    ensures s.None? <==> b == []
  {
    if b == [] then None else Some(b[|b| - 1].0)
  }

  lemma BoundaryStep(edgeCount: map<EdgeKey, nat>, order: seq<EdgeKey>, i: nat)
    requires i < |order|
    ensures Boundary(edgeCount, order[..i + 1])
         == Boundary(edgeCount, order[..i]) + (if order[i] in edgeCount && edgeCount[order[i]] == 1 then [order[i]] else [])
  {
    assert order[..i + 1][..i] == order[..i];
  }

  lemma ConnectionsSnoc(b: seq<Segment>, e: Segment)
    ensures Connections(b + [e]) == AppendDict(AppendDict(Connections(b), e.0, e.1), e.1, e.0)
  {
    assert (b + [e])[..|b|] == b;
  }

  /**
   * The loop over edgeCount.items(): every key counted once is added to
   * dirarcs in both directions, and start is the first end of the last one.
   */
  method BoundaryArcs(edgeCount: map<EdgeKey, nat>, order: seq<EdgeKey>)
    returns (dirarcs: map<Vec3, seq<Vec3>>, start: Option<Vec3>)
    requires forall i :: 0 <= i < |order| ==> order[i] in edgeCount
    ensures dirarcs == Connections(Boundary(edgeCount, order))
    ensures start == StartOf(Boundary(edgeCount, order))
  {
    dirarcs := map[];
    start := None;
    ghost var b: seq<Segment> := [];
    var i := 0;
    while i < |order|
      invariant 0 <= i <= |order|
      invariant b == Boundary(edgeCount, order[..i])
      invariant dirarcs == Connections(b)
      invariant start == StartOf(b)
    {
      var edge := order[i];
      var c := edgeCount[edge];
      BoundaryStep(edgeCount, order, i);
      if c == 1 {
        ConnectionsSnoc(b, edge);
        dirarcs := AppendDict(dirarcs, edge.0, edge.1);
        dirarcs := AppendDict(dirarcs, edge.1, edge.0);
        start := Some(edge.0);
        b := b + [edge];
      } else {
        assert b + [] == b;
      }
      i := i + 1;
    }
    assert order[..|order|] == order;
  }

  /**
   * dirarcs is the adjacency of the edges counted once: v is listed under u
   * iff the key (u, v) or (v, u) was counted exactly once. In particular
   * the relation is symmetric.
   */
  lemma BoundaryArcsMeaning(edgeCount: map<EdgeKey, nat>, order: seq<EdgeKey>, u: Vec3, v: Vec3)
    requires Enumerates(order, edgeCount.Keys)
    ensures var d := Connections(Boundary(edgeCount, order));
      (u in d && v in d[u]) <==> ((u, v) in edgeCount && edgeCount[(u, v)] == 1) || ((v, u) in edgeCount && edgeCount[(v, u)] == 1)
  {
    var b := Boundary(edgeCount, order);
    BoundaryMembers(edgeCount, order);
    Adjacent(b, u, v);
    if Joined(b, u, v) {
      var i :| 0 <= i < |b| && (b[i] == (u, v) || b[i] == (v, u));
      assert b[i] in b;
    }
    if (u, v) in edgeCount && edgeCount[(u, v)] == 1 {
      assert (u, v) in b;
    } else if (v, u) in edgeCount && edgeCount[(v, u)] == 1 {
      assert (v, u) in b;
    }
  }

  /** Every vertex listed in dirarcs has its own entry, and lists its lister. */
  lemma BoundaryArcsSymmetric(edgeCount: map<EdgeKey, nat>, order: seq<EdgeKey>, u: Vec3, v: Vec3)
    requires Enumerates(order, edgeCount.Keys)
    ensures var d := Connections(Boundary(edgeCount, order));
      u in d && v in d[u] ==> v in d && u in d[v]
  {
    BoundaryArcsMeaning(edgeCount, order, u, v);
    BoundaryArcsMeaning(edgeCount, order, v, u);
  }

  /**
   * start is None iff no key was counted exactly once; otherwise it has an
   * entry in dirarcs, whose list is not empty.
   */
  lemma StartMeaning(edgeCount: map<EdgeKey, nat>, order: seq<EdgeKey>)
    requires Enumerates(order, edgeCount.Keys)
    ensures var s := StartOf(Boundary(edgeCount, order));
      s.None? <==> forall k :: k in edgeCount ==> edgeCount[k] != 1
    ensures var s := StartOf(Boundary(edgeCount, order));
      var d := Connections(Boundary(edgeCount, order));
      s.Some? ==> s.value in d && d[s.value] != []
  {
    var b := Boundary(edgeCount, order);
    BoundaryMembers(edgeCount, order);
    if b != [] {
      var e := b[|b| - 1];
      assert e in b;
      BoundaryArcsMeaning(edgeCount, order, e.0, e.1);
    } else {
      forall k | k in edgeCount
        ensures edgeCount[k] != 1
      {
        assert k in order;
      }
    }
  }

  // ---------------------------------------------------------------------------
  // Following the edges
  // ---------------------------------------------------------------------------

  datatype MergeError =
    | NoBoundary   // start is None: dirarcs[None] raises KeyError
    | MissingKey   // a vertex reached without an entry in dirarcs: KeyError
    | EmptyPath    // path[-1] of an empty path: IndexError

  /** Every listed vertex has an entry of its own. */
  predicate Closed(d: map<Vec3, seq<Vec3>>) {
    forall u :: u in d ==> forall v :: v in d[u] ==> v in d
  }

  /** Every vertex the dictionary lists, under any key. */
  function Listed(d: map<Vec3, seq<Vec3>>): set<Vec3> {
    set u, v | u in d && v in d[u] :: v
  }

  lemma ListedHas(d: map<Vec3, seq<Vec3>>, u: Vec3, v: Vec3)
    requires u in d && v in d[u]
    ensures v in Listed(d)
  {
  }

  /** The vertex the walk stood on before path[i] was appended. */
  function Before(start: Vec3, path: seq<Vec3>, i: nat): Vec3
    requires i <= |path|
  {
    if i == 0 then start else path[i - 1]
  }

  /**
   * The path starts at a vertex listed under start, and each later vertex is
   * listed under the one before it.
   */
  predicate Follows(d: map<Vec3, seq<Vec3>>, start: Vec3, path: seq<Vec3>) {
    (path != [] ==> start in d && path[0] in d[start])
    && forall i :: 0 <= i < |path| - 1 ==> path[i] in d && path[i + 1] in d[path[i]]
  }

  lemma FollowsSnoc(d: map<Vec3, seq<Vec3>>, start: Vec3, path: seq<Vec3>, v: Vec3)
    requires Follows(d, start, path)
    requires Before(start, path, |path|) in d && v in d[Before(start, path, |path|)]
    ensures Follows(d, start, path + [v])
  {
  }

  /** Adding one more listed vertex to the path leaves fewer listed vertices off it. */
  lemma FewerLeft(listed: set<Vec3>, path: seq<Vec3>, v: Vec3)
    requires v in listed && v !in path
    ensures |listed - Elems(path + [v])| < |listed - Elems(path)|
  {
    ElemsLast(path + [v]);
    assert (path + [v])[..|path|] == path;
    assert listed - Elems(path + [v]) == (listed - Elems(path)) - {v};
  }

  /** One step of the walk keeps the path free of repeats and on listed vertices, and makes progress. */
  lemma WalkStep(d: map<Vec3, seq<Vec3>>, start: Vec3, path: seq<Vec3>, v: Vec3)
    requires Before(start, path, |path|) in d && v in d[Before(start, path, |path|)] && v !in path
    requires Distinct(path) && Follows(d, start, path) && Elems(path) <= Listed(d)
    ensures Distinct(path + [v]) && Follows(d, start, path + [v]) && Elems(path + [v]) <= Listed(d)
    ensures |Listed(d) - Elems(path + [v])| < |Listed(d) - Elems(path)|
  {
    ListedHas(d, Before(start, path, |path|), v);
    FewerLeft(Listed(d), path, v);
    FollowsSnoc(d, start, path, v);
    DistinctSnoc(path, v);
    ElemsLast(path + [v]);
    assert (path + [v])[..|path|] == path;
  }

  /**
   * The path loop: from start (which is not put on the path), keep moving
   * to the first listed vertex not yet on the path. The path repeats no
   * vertex, each step follows dirarcs, and the walk ends where every
   * listed neighbour is already on the path.
   */
  method WalkPath(dirarcs: map<Vec3, seq<Vec3>>, start: Option<Vec3>) returns (res: Result<seq<Vec3>, MergeError>)
    ensures start.None? ==> res == Err(NoBoundary)
    ensures start.Some? && start.value in dirarcs && Closed(dirarcs) ==> res.Ok?
    ensures res.Ok? ==> start.Some? && Distinct(res.value) && Follows(dirarcs, start.value, res.value)
    ensures res.Ok? ==>
      var last := Before(start.value, res.value, |res.value|);
      last in dirarcs && forall v :: v in dirarcs[last] ==> v in res.value
  {
    if start.None? {
      return Err(NoBoundary);
    }
    var vert := start.value;
    var path: seq<Vec3> := [];
    while true
      invariant vert == if path == [] then start.value else path[|path| - 1]
      invariant Distinct(path) && Follows(dirarcs, start.value, path)
      invariant Elems(path) <= Listed(dirarcs)
      invariant start.value in dirarcs && Closed(dirarcs) ==> vert in dirarcs
      decreases |Listed(dirarcs) - Elems(path)|
    {
      if vert !in dirarcs {
        return Err(MissingKey);
      }
      var nextVerts := dirarcs[vert];
      var k := FirstNotIn(nextVerts, Elems(path));
      if k == |nextVerts| {
        assert forall v :: v in nextVerts ==> v in path;
        break;
      }
      var v := nextVerts[k];
      WalkStep(dirarcs, start.value, path, v);
      vert := v;
      path := path + [v];
    }
    res := Ok(path);
  }

  // ---------------------------------------------------------------------------
  // Back to edges
  // ---------------------------------------------------------------------------

  /** Consecutive edges meet, and the last one ends where the first one starts. */
  predicate IsCycle(edges: seq<Segment>) {
    |edges| > 0
    && (forall i :: 0 <= i < |edges| - 1 ==> edges[i].1 == edges[i + 1].0)
    && edges[|edges| - 1].1 == edges[0].0
  }

  /**
   * The rebuild loop: one edge per path vertex, arriving at it from the
   * vertex before it, where the vertex before the first is the last.
   * Python raises on an empty path.
   */
  method RebuildEdges(path: seq<Vec3>) returns (res: Result<seq<Segment>, MergeError>)
    ensures res.Err? <==> path == []
    ensures res.Ok? ==> |res.value| == |path|
    ensures res.Ok? ==> forall i :: 0 <= i < |path| ==> res.value[i].1 == path[i]
    ensures res.Ok? ==> res.value[0].0 == path[|path| - 1]
    ensures res.Ok? ==> forall i :: 0 < i < |path| ==> res.value[i].0 == path[i - 1]
    ensures res.Ok? ==> IsCycle(res.value)
  {
    if path == [] {
      return Err(EmptyPath);
    }
    var edges: seq<Segment> := [];
    var lastv := path[|path| - 1];
    var i := 0;
    while i < |path|
      invariant 0 <= i <= |path| && |edges| == i
      invariant lastv == if i == 0 then path[|path| - 1] else path[i - 1]
      invariant forall j :: 0 <= j < i ==> edges[j].1 == path[j]
      invariant i > 0 ==> edges[0].0 == path[|path| - 1]
      invariant forall j :: 0 < j < i ==> edges[j].0 == path[j - 1]
    {
      var v := path[i];
      edges := edges + [(lastv, v)];
      lastv := v;
      i := i + 1;
    }
    res := Ok(edges);
  }

  // ---------------------------------------------------------------------------
  // The whole macro
  // ---------------------------------------------------------------------------

  /** An enumeration of a finite set of keys, in no particular order (dict.items()). */
  method EnumerateKeys(keys: set<EdgeKey>) returns (order: seq<EdgeKey>)
    ensures Enumerates(order, keys)
  {
    order := [];
    var rest := keys;
    while rest != {}
      invariant rest <= keys
      invariant Distinct(order)
      invariant forall k :: k in order <==> k in keys && k !in rest
      decreases |rest|
    {
      var k :| k in rest;
      DistinctSnoc(order, k);
      order := order + [k];
      rest := rest - {k};
    }
  }

  /** The key k belongs to exactly one edge of all. */
  predicate Once(all: seq<Segment>, k: EdgeKey) {
    multiset(KeysOf(all))[k] == 1
  }

  /** A key of the count is its own key: it is already in tuple order. */
  lemma CountKeyCanonical(all: seq<Segment>, k: EdgeKey)
    requires k in CountMap(all)
    ensures EdgeTuples(k) == k
  {
    KeysInCount(all);
    var e :| e in all && EdgeTuples(e) == k;
    LessTrichotomy(k.0, k.1);
  }

  /** start stays None iff no edge of the selection has a key of its own. */
  lemma NoBoundaryIff(all: seq<Segment>, order: seq<EdgeKey>)
    requires Enumerates(order, CountMap(all).Keys)
    ensures StartOf(Boundary(CountMap(all), order)).None? <==> forall e :: e in all ==> !Once(all, EdgeTuples(e))
  {
    StartMeaning(CountMap(all), order);
    CountMapMeaning(all);
    KeysInCount(all);
  }

  /** Every vertex dirarcs lists has an entry of its own. */
  lemma ArcsClosed(edgeCount: map<EdgeKey, nat>, order: seq<EdgeKey>)
    requires Enumerates(order, edgeCount.Keys)
    ensures Closed(Connections(Boundary(edgeCount, order)))
  {
    var d := Connections(Boundary(edgeCount, order));
    forall u, v | u in d && v in d[u]
      ensures v in d
    {
      BoundaryArcsSymmetric(edgeCount, order, u, v);
    }
  }

  /** Two vertices dirarcs joins are joined by an edge whose key occurs exactly once. */
  lemma ArcIsOnce(all: seq<Segment>, order: seq<EdgeKey>, u: Vec3, v: Vec3)
    requires Enumerates(order, CountMap(all).Keys)
    requires var d := Connections(Boundary(CountMap(all), order)); u in d && v in d[u]
    ensures Once(all, EdgeTuples((u, v)))
  {
    BoundaryArcsMeaning(CountMap(all), order, u, v);
    CountMapMeaning(all);
    SameKey((u, v), (v, u));
    if (u, v) in CountMap(all) && CountMap(all)[(u, v)] == 1 {
      CountKeyCanonical(all, (u, v));
    } else {
      CountKeyCanonical(all, (v, u));
    }
  }

  /**
   * MergeFaces: the merged outline is a closed loop of edges; it fails
   * exactly when no edge occurs once over the selected faces. Every edge
   * but the closing one joins two vertices that an edge occurring exactly
   * once joins.
   */
  method Merge(faces: seq<seq<Segment>>) returns (res: Result<seq<Segment>, MergeError>)
    ensures res.Err? <==> forall e :: e in Flatten(faces) ==> !Once(Flatten(faces), EdgeTuples(e))
    ensures res.Ok? ==> IsCycle(res.value)
    ensures res.Ok? ==> forall i :: 0 < i < |res.value| ==> Once(Flatten(faces), EdgeTuples(res.value[i]))
  {
    var edgeCount := CountEdges(faces);
    var order := EnumerateKeys(edgeCount.Keys);
    var dirarcs, start := BoundaryArcs(edgeCount, order);
    ghost var all := Flatten(faces);
    NoBoundaryIff(all, order);
    StartMeaning(edgeCount, order);
    ArcsClosed(edgeCount, order);
    var walk := WalkPath(dirarcs, start);
    if walk.Err? {
      return Err(walk.error);
    }
    var path := walk.value;
    // The walk stops only once every neighbour of its last vertex is on the path.
    assert dirarcs[start.value][0] in dirarcs[start.value];
    var rebuilt := RebuildEdges(path);
    forall i | 0 < i < |rebuilt.value|
      ensures Once(all, EdgeTuples(rebuilt.value[i]))
    {
      assert path[i - 1] in dirarcs && path[i] in dirarcs[path[i - 1]];
      ArcIsOnce(all, order, path[i - 1], path[i]);
    }
    return rebuilt;
  }

  /**
   * Two triangles that make up a unit square: the shared diagonal is counted
   * twice and so drops out of the outline, the four sides are counted once.
   */
  lemma TwoTrianglesCount()
    ensures var a, b, c, d := Vec3(0.0, 0.0, 0.0), Vec3(1.0, 0.0, 0.0), Vec3(1.0, 1.0, 0.0), Vec3(0.0, 1.0, 0.0);
            CountMap(Flatten([[(a, b), (b, c), (c, a)], [(a, c), (c, d), (d, a)]]))
              == map[(a, b) := 1, (b, c) := 1, (a, c) := 2, (d, c) := 1, (a, d) := 1]
  {
    var a, b, c, d := Vec3(0.0, 0.0, 0.0), Vec3(1.0, 0.0, 0.0), Vec3(1.0, 1.0, 0.0), Vec3(0.0, 1.0, 0.0);
    var faces := [[(a, b), (b, c), (c, a)], [(a, c), (c, d), (d, a)]];
    assert faces[..1] == [faces[0]];
    var all := [(a, b), (b, c), (c, a), (a, c), (c, d), (d, a)];
    assert Flatten(faces) == all;
    assert all[..1][..0] == [];
    assert CountMap(all[..1]) == map[(a, b) := 1];
    assert all[..2][..1] == all[..1];
    assert CountMap(all[..2]) == map[(a, b) := 1, (b, c) := 1];
    assert all[..3][..2] == all[..2];
    assert CountMap(all[..3]) == map[(a, b) := 1, (b, c) := 1, (a, c) := 1];
    assert all[..4][..3] == all[..3];
    assert CountMap(all[..4]) == map[(a, b) := 1, (b, c) := 1, (a, c) := 2];
    assert all[..5][..4] == all[..4];
    assert CountMap(all[..5]) == map[(a, b) := 1, (b, c) := 1, (a, c) := 2, (d, c) := 1];
    assert all[..5] == all[..|all| - 1];
  }

  /** The keys of the count are exactly the keys of the edges. */
  lemma KeysInCount(all: seq<Segment>)
    ensures forall k :: k in CountMap(all) ==> exists e :: e in all && EdgeTuples(e) == k
    ensures forall e :: e in all ==> EdgeTuples(e) in CountMap(all)
  {
    CountMapMeaning(all);
    forall k | k in CountMap(all)
      ensures exists e :: e in all && EdgeTuples(e) == k
    {
      assert k in multiset(KeysOf(all));
      var i :| 0 <= i < |all| && KeysOf(all)[i] == k;
      assert all[i] in all;
    }
    forall e | e in all
      ensures EdgeTuples(e) in CountMap(all)
    {
      var i :| 0 <= i < |all| && all[i] == e;
      assert KeysOf(all)[i] in multiset(KeysOf(all));
    }
  }
}
