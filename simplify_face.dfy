/**
 * The outline simplifier: order the vertices of a face's outer wire, find
 * its winding direction, pick for every vertex the best vertex to follow it,
 * and walk those picks to get an outline without cavities.
 *
 * The turning angle of three points (getAngle3Point, an atan2 in degrees)
 * and round(..., 6) are parameters: any function into the reals will do.
 */
module SimplifyFace {
  import opened Wrappers
  import opened Geometry
  import opened Multimap
  import opened ListWrapping

  /** getAngle3Point(a, b, c): the turning angle at b. */
  type AngleFn = (Vec2, Vec2, Vec2) -> real

  /** round(x, 6) */
  type RoundFn = real -> real

  // ---------------------------------------------------------------------------
  // sortVertexes
  // ---------------------------------------------------------------------------

  /** The first loop of sortVertexes: each edge adds each end to the other's list. */
  method BuildConnections(edges: seq<Segment>) returns (conn: map<Vec3, seq<Vec3>>)
    ensures conn == Connections(edges)
  {
    conn := map[];
    var i := 0;
    while i < |edges|
      invariant 0 <= i <= |edges|
      invariant conn == Connections(edges[..i])
    {
      var t1 := edges[i].0;
      var t2 := edges[i].1;
      conn := AppendDict(conn, t1, t2);
      conn := AppendDict(conn, t2, t1);
      ConnectionsStep(edges, i);
      i := i + 1;
    }
    assert edges[..|edges|] == edges;
  }

  /** No vertex is listed among its own neighbours. */
  predicate LoopFree(conn: map<Vec3, seq<Vec3>>) {
    forall u :: u in conn ==> u !in conn[u]
  }

  /** Each vertex of p but the last is listed with the next one among its neighbours. */
  predicate Trail(conn: map<Vec3, seq<Vec3>>, p: seq<Vec3>) {
    forall k :: 0 <= k < |p| - 1 ==> p[k] in conn && p[k + 1] in conn[p[k]]
  }

  lemma TrailSnoc(conn: map<Vec3, seq<Vec3>>, p: seq<Vec3>, v: Vec3)
    requires Trail(conn, p)
    requires p != [] ==> p[|p| - 1] in conn && v in conn[p[|p| - 1]]
    ensures Trail(conn, p + [v])
  {
  }

  /**
   * The traversal loop of sortVertexes, over the connections alone: from
   * start, keep moving to the first neighbour not yet left behind. Every
   * step follows a listed neighbour, the walk ends at a vertex all of whose
   * neighbours it has reached, and it repeats no vertex when no vertex is
   * its own neighbour.
   */
  method Traverse(conn: map<Vec3, seq<Vec3>>, start: Vec3) returns (result: seq<Vec3>)
    requires start in conn
    requires forall u :: u in conn ==> forall w :: w in conn[u] ==> w in conn
    ensures |result| >= 1 && result[0] == start && Trail(conn, result)
    ensures result[|result| - 1] in conn
    ensures forall w :: w in conn[result[|result| - 1]] ==> w in result
    ensures LoopFree(conn) ==> Distinct(result)
  {
    var cv := start;
    result := [cv];
    var visited: set<Vec3> := {};
    while true
      invariant cv in conn && visited <= conn.Keys
      invariant |result| >= 1 && result[|result| - 1] == cv && result[0] == start
      invariant visited == Elems(result[..|result| - 1])
      invariant Trail(conn, result)
      invariant LoopFree(conn) ==> Distinct(result)
      decreases 2 * |conn.Keys - (visited + {cv})| + (if cv in visited then 0 else 1)
    {
      var neighbours := conn[cv];
      var k := FirstNotIn(neighbours, visited);
      if k == |neighbours| {
        assert forall w :: w in neighbours ==> w in result;
        break;
      }
      var n := neighbours[k];
      ghost var oldVisited := visited;
      ghost var oldResult := result;
      TrailSnoc(conn, result, n);
      ElemsLast(result);
      if LoopFree(conn) {
        assert n != cv;
        DistinctSnoc(result, n);
      }
      visited := visited + {cv};
      cv := n;
      result := result + [cv];
      assert result[..|result| - 1] == oldResult;
      CardStep(conn.Keys, oldVisited, oldResult[|oldResult| - 1], n);
    }
  }

  /**
   * sortVertexes: start at an arbitrary key (Python 2 dict order) and walk.
   * Python raises on a wire without edges. The walk follows edges, stops
   * only where every neighbour has been reached, and visits no vertex twice
   * when no edge is a loop.
   */
  method SortVertexes(edges: seq<Segment>) returns (r: Option<seq<Vec3>>)
    ensures r.None? <==> edges == []
    ensures r.Some? ==> |r.value| >= 1 && IsEndpoint(edges, r.value[0])
    ensures r.Some? ==> forall k :: 0 <= k < |r.value| - 1 ==> Joined(edges, r.value[k], r.value[k + 1])
    ensures r.Some? ==> forall w :: Joined(edges, r.value[|r.value| - 1], w) ==> w in r.value
    ensures r.Some? && NoSelfLoops(edges) ==> Distinct(r.value)
  {
    if edges == [] {
      return None;
    }
    var conn := BuildConnections(edges);
    Adjacent(edges, edges[0].0, edges[0].1);
    assert edges[0].0 in conn;
    var cv :| cv in conn;
    forall u, w | u in conn && w in conn[u]
      ensures w in conn
    {
      Adjacent(edges, u, w);
      JoinedSym(edges, u, w);
      Adjacent(edges, w, u);
    }
    if NoSelfLoops(edges) {
      forall u | u in conn
        ensures u !in conn[u]
      {
        Adjacent(edges, u, u);
        if u in conn[u] {
          NoLoopStep(edges, u, u);
        }
      }
    }
    var result := Traverse(conn, cv);
    assert Trail(conn, result);
    forall k | 0 <= k < |result| - 1
      ensures Joined(edges, result[k], result[k + 1])
    {
      Adjacent(edges, result[k], result[k + 1]);
    }
    forall w | Joined(edges, result[|result| - 1], w)
      ensures w in result
    {
      Adjacent(edges, result[|result| - 1], w);
    }
    Adjacent(edges, result[0], result[0]);
    return Some(result);
  }

  /**
   * The walk's termination measure goes down: moving from c to a vertex n
   * that was not left behind either leaves one vertex fewer unreached, or
   * (after a self-loop) stops counting c as still current.
   */
  lemma CardStep(keys: set<Vec3>, visited: set<Vec3>, c: Vec3, n: Vec3)
    requires c in keys && n in keys && n !in visited
    ensures 2 * |keys - (visited + {c} + {n})| + (if n in visited + {c} then 0 else 1)
          < 2 * |keys - (visited + {c})| + (if c in visited then 0 else 1)
  {
    if n != c {
      assert keys - (visited + {c} + {n}) == (keys - (visited + {c})) - {n};
    } else {
      assert visited + {c} + {n} == visited + {c};
    }
  }

  // ---------------------------------------------------------------------------
  // removeCavities, phase 1: the winding direction
  // ---------------------------------------------------------------------------

  /** The sum of the turning angles at the first n triples of consecutive items of w. */
  function TurnSum(w: seq<Vec2>, angle: AngleFn, n: nat): real
    requires n + 2 <= |w|
  {
    if n == 0 then 0.0 else TurnSum(w, angle, n - 1) + angle(w[n - 1], w[n], w[n + 1])
  }

  /** The winding sum of removeCavities: the turning angles along listAt(0, 2). */
  function AngleSum(l: seq<Vec2>, angle: AngleFn): real
    requires |l| > 0
  {
    TurnSum(Rotated(l, 0, |l| + 2), angle, |l|)
  }

  /** The same sum written over the outline itself: one angle per cyclic triple. */
  function CyclicSum(l: seq<Vec2>, angle: AngleFn, n: nat): real
    requires 0 < |l| && n <= |l|
  {
    if n == 0 then 0.0
    else CyclicSum(l, angle, n - 1) + angle(l[n - 1], l[n % |l|], l[(n + 1) % |l|])
  }

  /** The first n terms agree on any walk that visits l[j mod |l|] at step j. */
  lemma {:induction false} TurnSumIsCyclic(l: seq<Vec2>, w: seq<Vec2>, angle: AngleFn, n: nat)
    requires 0 < |l| && n <= |l| && |w| == |l| + 2
    requires forall j :: 0 <= j < |w| ==> w[j] == l[j % |l|]
    ensures TurnSum(w, angle, n) == CyclicSum(l, angle, n)
  {
    if n > 0 {
      TurnSumIsCyclic(l, w, angle, n - 1);
      ModUnique(n - 1, 0, n - 1, |l|);
      assert w[n - 1] == l[(n - 1) % |l|];
    }
  }

  /** The winding sum adds up the turning angle at every vertex, with its two neighbours. */
  lemma AngleSumIsCyclic(l: seq<Vec2>, angle: AngleFn)
    requires |l| > 0
    ensures AngleSum(l, angle) == CyclicSum(l, angle, |l|)
  {
    var w := Rotated(l, 0, |l| + 2);
    forall j | 0 <= j < |w|
      ensures w[j] == l[j % |l|]
    {
      RotatedFromHead(l, |l| + 2, j);
    }
    TurnSumIsCyclic(l, w, angle, |l|);
  }

  /** With every turning angle 1, the sum counts its terms: there are exactly n. */
  lemma {:induction false} TurnSumCounts(w: seq<Vec2>, angle: AngleFn, n: nat)
    requires n + 2 <= |w|
    requires forall a, b, c :: angle(a, b, c) == 1.0
    ensures TurnSum(w, angle, n) == n as real
  {
    if n > 0 {
      TurnSumCounts(w, angle, n - 1);
    }
  }

  /** The winding sum has one term per vertex of the outline. */
  lemma AngleSumCountsTurns(l: seq<Vec2>, angle: AngleFn)
    requires |l| > 0
    requires forall a, b, c :: angle(a, b, c) == 1.0
    ensures AngleSum(l, angle) == |l| as real
  {
    TurnSumCounts(Rotated(l, 0, |l| + 2), angle, |l|);
  }

  /**
   * The direction loop of removeCavities over listAt(0, 2): one turning angle
   * per cyclic triple, |l| of them, and dir is "the sum is not negative".
   */
  method Direction(gen: ListWrappingGenerator<Vec2>, l: seq<Vec2>, angle: AngleFn) returns (dir: bool, angleSum: real)
    requires gen.Valid() && gen.l == l && |l| > 0
    ensures angleSum == AngleSum(l, angle)
    ensures dir <==> angleSum >= 0.0
  {
    var items := gen.ListAt(0, 2);
    var lv: Option<Vec2> := None;
    var llv: Option<Vec2> := None;
    angleSum := 0.0;
    var t := 0;
    while t < |items|
      invariant 0 <= t <= |items| == |l| + 2
      invariant lv == if t >= 1 then Some(items[t - 1]) else None
      invariant llv == if t >= 2 then Some(items[t - 2]) else None
      invariant angleSum == if t >= 2 then TurnSum(items, angle, t - 2) else 0.0
    {
      var v := items[t];
      var a := 0.0;
      if llv.Some? {
        a := angle(llv.value, lv.value, v);
      }
      angleSum := angleSum + a;
      llv := lv;
      lv := Some(v);
      t := t + 1;
    }
    dir := angleSum >= 0.0;
  }

  // ---------------------------------------------------------------------------
  // removeCavities, phase 2: the best successor of each vertex
  // ---------------------------------------------------------------------------

  /** `angle >= best` when the outline turns positively, `angle <= best` otherwise. */
  predicate Reaches(dir: bool, a: real, b: real) {
    (dir && a >= b) || (!dir && a <= b)
  }

  /**
   * The candidate scan: the index of the candidate left in bestVert, with
   * the running best angle starting at 0.
   */
  function Scan(angles: seq<real>, dir: bool): (r: Option<nat>)
    ensures r.Some? ==> r.value < |angles|
  {
    if angles == [] then None
    else
      var prev := Scan(angles[..|angles| - 1], dir);
      var best := if prev.Some? then angles[prev.value] else 0.0;
      if Reaches(dir, angles[|angles| - 1], best) then Some(|angles| - 1) else prev
  }

  /**
   * The scan is an arg-max (arg-min when not dir) with threshold 0: there is
   * no pick iff no angle reaches 0; otherwise the pick reaches 0, is extreme
   * among all angles, and no later angle ties with it (ties go to the later
   * candidate).
   */
  lemma {:induction false} ScanIsLastExtreme(angles: seq<real>, dir: bool)
    ensures Scan(angles, dir).None? <==> forall j :: 0 <= j < |angles| ==> !Reaches(dir, angles[j], 0.0)
    ensures Scan(angles, dir).Some? ==>
      var k := Scan(angles, dir).value;
      && Reaches(dir, angles[k], 0.0)
      && (forall j :: 0 <= j < |angles| ==> Reaches(dir, angles[k], angles[j]))
      && (forall j :: k < j < |angles| ==> !Reaches(dir, angles[j], angles[k]))
  {
    if angles != [] {
      var front := angles[..|angles| - 1];
      ScanIsLastExtreme(front, dir);
      assert forall j :: 0 <= j < |front| ==> angles[j] == front[j];
    }
  }

  /** The rounded turning angles lastVert -> vert -> candidate. */
  function CandidateAngles(lastVert: Vec2, vert: Vec2, cands: seq<Vec2>, angle: AngleFn, round6: RoundFn): (r: seq<real>)
    ensures |r| == |cands|
    ensures forall j :: 0 <= j < |cands| ==> r[j] == round6(angle(lastVert, vert, cands[j]))
  {
    seq(|cands|, j requires 0 <= j < |cands| => round6(angle(lastVert, vert, cands[j])))
  }

  /** The candidate the scan picks, or None (Python's bestVert). */
  function Pick(lastVert: Vec2, vert: Vec2, cands: seq<Vec2>, dir: bool, angle: AngleFn, round6: RoundFn): Option<Vec2>
  {
    var k := Scan(CandidateAngles(lastVert, vert, cands, angle, round6), dir);
    if k.Some? then Some(cands[k.value]) else None
  }

  /** The inner loop of removeCavities over one vertex's candidates. */
  method BestSuccessor(lastVert: Vec2, vert: Vec2, cands: seq<Vec2>, dir: bool, angle: AngleFn, round6: RoundFn)
    returns (bestVert: Option<Vec2>)
    ensures bestVert == Pick(lastVert, vert, cands, dir, angle, round6)
  {
    ghost var angles := CandidateAngles(lastVert, vert, cands, angle, round6);
    var bestAngle := 0.0;
    bestVert := None;
    ghost var bestIdx: Option<nat> := None;
    var j := 0;
    while j < |cands|
      invariant 0 <= j <= |cands|
      invariant bestIdx == Scan(angles[..j], dir)
      invariant bestIdx.Some? ==> bestIdx.value < j && bestVert == Some(cands[bestIdx.value]) && bestAngle == angles[bestIdx.value]
      invariant bestIdx.None? ==> bestVert == None && bestAngle == 0.0
    {
      var a := round6(angle(lastVert, vert, cands[j]));
      assert angles[..j + 1][..j] == angles[..j];
      if (dir && a >= bestAngle) || (!dir && a <= bestAngle) {
        bestAngle := a;
        bestVert := Some(cands[j]);
        bestIdx := Some(j);
      }
      j := j + 1;
    }
    assert angles[..|cands|] == angles;
  }

  /** Item t (0 <= t <= |l|) of listAt(0, 1): the list, then its head again. */
  function WrapItem(l: seq<Vec2>, t: nat): Vec2
    requires 0 < |l| && t <= |l|
  {
    if t == |l| then l[0] else l[t]
  }

  /** The candidates scanned for item t (1 <= t <= |l|): lenListAt(t + 1). */
  function Candidates(l: seq<Vec2>, t: nat): seq<Vec2>
    requires |l| > 0
  {
    Rotated(l, LenStart(t + 1, |l|), |l|)
  }

  /** The successor picked for item t of listAt(0, 1), whose predecessor is l[t - 1]. */
  function Successor(l: seq<Vec2>, t: nat, dir: bool, angle: AngleFn, round6: RoundFn): Option<Vec2>
    requires 0 < t <= |l|
  {
    Pick(l[t - 1], WrapItem(l, t), Candidates(l, t), dir, angle, round6)
  }

  /**
   * The candidates for item t are the whole outline, rotated to start at the
   * following vertex for items 1 .. |l| - 1; for the closing item l[0] the
   * scan starts at l[0] itself, since lenListAt(|l| + 1) restarts from the
   * head.
   */
  lemma CandidatesAreRotations(l: seq<Vec2>, t: nat)
    requires 0 < t <= |l|
    ensures t < |l| ==> Candidates(l, t) == l[(t + 1) % |l|..] + l[..(t + 1) % |l|]
    ensures t == |l| ==> Candidates(l, t) == l
    ensures multiset(Candidates(l, t)) == multiset(l)
  {
    FullWalkIsRotation(l, LenStart(t + 1, |l|));
    if t + 1 == |l| {
      ModUnique(t + 1, 1, 0, |l|);
    } else if t + 1 < |l| {
      ModUnique(t + 1, 0, t + 1, |l|);
    }
    if t == |l| {
      FullWalkFromHead(l);
    }
  }

  /**
   * bestVerts after the first n picks: item k of listAt(0, 1) (1 <= k <= n)
   * is mapped to its successor, a later item overwriting an earlier equal one.
   */
  function BestMap(l: seq<Vec2>, n: nat, dir: bool, angle: AngleFn, round6: RoundFn): map<Vec2, Option<Vec2>>
    requires 0 < |l| && n <= |l|
  {
    if n == 0 then map[]
    else BestMap(l, n - 1, dir, angle, round6)[WrapItem(l, n) := Successor(l, n, dir, angle, round6)]
  }

  /** The last item k in 1 .. n of listAt(0, 1) equal to v, or 0 when there is none. */
  function LastItem(l: seq<Vec2>, n: nat, v: Vec2): (k: nat)
    requires 0 < |l| && n <= |l|
    ensures k <= n
    ensures k > 0 ==> WrapItem(l, k) == v
    ensures forall k' :: k < k' <= n ==> WrapItem(l, k') != v
  {
    if n == 0 then 0 else if WrapItem(l, n) == v then n else LastItem(l, n - 1, v)
  }

  /**
   * The keys of BestMap are the items picked for, and each key's entry is
   * the successor picked for the LAST item equal to it.
   */
  lemma {:induction false} BestMapMeaning(l: seq<Vec2>, n: nat, dir: bool, angle: AngleFn, round6: RoundFn)
    requires 0 < |l| && n <= |l|
    ensures forall v :: v in BestMap(l, n, dir, angle, round6) <==> LastItem(l, n, v) > 0
    ensures forall v :: v in BestMap(l, n, dir, angle, round6) ==>
      BestMap(l, n, dir, angle, round6)[v] == Successor(l, LastItem(l, n, v), dir, angle, round6)
  {
    if n > 0 {
      BestMapMeaning(l, n - 1, dir, angle, round6);
    }
  }

  /** Every vertex of the outline gets an entry, and nothing else does. */
  lemma BestMapKeys(l: seq<Vec2>, dir: bool, angle: AngleFn, round6: RoundFn)
    requires 0 < |l|
    ensures forall v :: v in BestMap(l, |l|, dir, angle, round6) <==> v in l
  {
    BestMapMeaning(l, |l|, dir, angle, round6);
    forall v
      ensures LastItem(l, |l|, v) > 0 <==> v in l
    {
      if v in l {
        var i :| 0 <= i < |l| && l[i] == v;
        assert WrapItem(l, if i == 0 then |l| else i) == v;
      }
    }
  }

  /**
   * The first vertex is picked for twice (as item 0 it has no predecessor
   * and is skipped; as the closing item |l| it is not): its entry is the
   * closing pick. With distinct vertices, every other vertex's entry is its
   * own pick.
   */
  lemma BestMapEntries(l: seq<Vec2>, dir: bool, angle: AngleFn, round6: RoundFn)
    requires 0 < |l|
    ensures l[0] in BestMap(l, |l|, dir, angle, round6)
    ensures BestMap(l, |l|, dir, angle, round6)[l[0]] == Successor(l, |l|, dir, angle, round6)
    ensures Distinct(l) ==> forall k :: 0 < k < |l| ==>
      l[k] in BestMap(l, |l|, dir, angle, round6) &&
      BestMap(l, |l|, dir, angle, round6)[l[k]] == Successor(l, k, dir, angle, round6)
  {
    BestMapMeaning(l, |l|, dir, angle, round6);
    assert WrapItem(l, |l|) == l[0];
    if Distinct(l) {
      forall k | 0 < k < |l|
        ensures LastItem(l, |l|, l[k]) == k
      {
        assert WrapItem(l, k) == l[k];
      }
    }
  }

  /** Item t of listAt(0, 1), as an index. */
  lemma ItemPos(l: seq<Vec2>, t: nat)
    requires 0 < |l| && t <= |l|
    ensures l[Pos(|l|, 0, t)] == WrapItem(l, t)
  {
    if t < |l| {
      PosInLap(|l|, 0, t);
    } else {
      PosLap(|l|, 0);
    }
  }

  /** The items of listAt(0, 1): the outline, then its first vertex again. */
  lemma ListAtItems(l: seq<Vec2>, items: seq<Vec2>)
    requires 0 < |l| && items == Rotated(l, 0, |l| + 1)
    ensures forall t :: 0 <= t < |items| ==> items[t] == WrapItem(l, t)
  {
    RotatedAll(l, 0, |l| + 1);
    forall t | 0 <= t < |items| ensures items[t] == WrapItem(l, t) {
      ItemPos(l, t);
    }
  }

  /**
   * The inner scan for the vertex after l[idx]: the candidates
   * lenListAt(idx + 2), then the last extreme pick among them.
   */
  method SuccessorOf(gen: ListWrappingGenerator<Vec2>, idx: nat, lastVert: Vec2, vert: Vec2,
                     dir: bool, angle: AngleFn, round6: RoundFn) returns (b: Option<Vec2>)
    requires gen.Valid() && idx < |gen.l|
    requires lastVert == gen.l[idx] && vert == WrapItem(gen.l, idx + 1)
    ensures b == Successor(gen.l, idx + 1, dir, angle, round6)
  {
    var cands := gen.LenListAt(idx + 2, -1);
    assert cands == Candidates(gen.l, idx + 1);
    b := BestSuccessor(lastVert, vert, cands, dir, angle, round6);
  }

  /**
   * The best-vertex loop of removeCavities over listAt(0, 1): the dictionary
   * it builds, and the last pick (for the closing l[0]) left in bestVert.
   */
  method BestVertexes(gen: ListWrappingGenerator<Vec2>, l: seq<Vec2>, dir: bool, angle: AngleFn, round6: RoundFn)
    returns (bestVerts: map<Vec2, Option<Vec2>>, bestVert: Option<Vec2>)
    requires gen.Valid() && gen.l == l && |l| > 0
    ensures bestVerts == BestMap(l, |l|, dir, angle, round6)
    ensures bestVert == Successor(l, |l|, dir, angle, round6)
  {
    var items := gen.ListAt(0, 1);
    ListAtItems(l, items);
    var lastVert: Option<Vec2> := None;
    var idx := 0;
    bestVerts := map[];
    bestVert := None;
    var t := 0;
    while t < |items|
      invariant 0 <= t <= |items| == |l| + 1
      invariant forall j :: 0 <= j < |items| ==> items[j] == WrapItem(l, j)
      invariant lastVert == if t >= 1 then Some(WrapItem(l, t - 1)) else None
      invariant idx == if t == 0 then 0 else t - 1
      invariant bestVerts == BestMap(l, idx, dir, angle, round6)
      invariant t >= 2 ==> WrapItem(l, idx) in bestVerts && bestVerts[WrapItem(l, idx)] == bestVert
    {
      var vert := items[t];
      if lastVert.Some? {
        var b := SuccessorOf(gen, idx, lastVert.value, vert, dir, angle, round6);
        bestVert := b;
        bestVerts := bestVerts[vert := b];
        idx := idx + 1;
      }
      lastVert := Some(vert);
      t := t + 1;
    }
    BestMapEntries(l, dir, angle, round6);
  }

  // ---------------------------------------------------------------------------
  // removeCavities, phase 3: follow the picks
  // ---------------------------------------------------------------------------

  /** The walked path and the vertex that stopped it (already consumed). */
  datatype Walk = Walk(path: seq<Vec2>, stop: Vec2)

  datatype SimplifyError =
    | EmptyOutline        // modulo by zero in listAt, or keys()[0] of an empty dict
    | MissingSuccessor    // bestVerts[None] or another missing key raises KeyError

  /** Every vertex has a successor, and every successor has an entry. */
  predicate Total(bestVerts: map<Vec2, Option<Vec2>>) {
    forall v :: v in bestVerts ==> bestVerts[v].Some? && bestVerts[v].value in bestVerts
  }

  /** Each vertex of p but the last is followed by its recorded successor. */
  predicate Chain(bestVerts: map<Vec2, Option<Vec2>>, p: seq<Vec2>) {
    forall i :: 0 <= i < |p| - 1 ==> p[i] in bestVerts && bestVerts[p[i]] == Some(p[i + 1])
  }

  lemma ChainSnoc(bestVerts: map<Vec2, Option<Vec2>>, p: seq<Vec2>, v: Vec2)
    requires Chain(bestVerts, p)
    requires p != [] ==> p[|p| - 1] in bestVerts && bestVerts[p[|p| - 1]] == Some(v)
    ensures Chain(bestVerts, p + [v])
  {
  }

  /** Consuming one more key leaves fewer keys unconsumed. */
  lemma SmallerRest(keys: set<Vec2>, consumed: set<Vec2>, v: Vec2)
    requires v in keys && v !in consumed
    ensures |keys - (consumed + {v})| < |keys - consumed|
  {
    assert keys - (consumed + {v}) == (keys - consumed) - {v};
  }

  /**
   * The path loop of removeCavities: start from the last pick and follow
   * bestVerts until a vertex comes round again. Python raises KeyError when
   * the walk meets None or a vertex without an entry.
   */
  method FollowBest(bestVerts: map<Vec2, Option<Vec2>>, start: Option<Vec2>) returns (res: Result<Walk, SimplifyError>)
    ensures start.None? ==> res.Err?
    ensures start.Some? && start.value in bestVerts && Total(bestVerts) ==> res.Ok?
    ensures res.Ok? ==>
      var p := res.value.path;
      && |p| >= 1 && start == Some(p[0]) && Distinct(p) && Chain(bestVerts, p)
      && p[|p| - 1] in bestVerts && bestVerts[p[|p| - 1]] == Some(res.value.stop)
      && res.value.stop in p
  {
    var consumed: set<Vec2> := {};
    var result: seq<Vec2> := [];
    var currentVert := start;
    while currentVert.None? || currentVert.value !in consumed
      invariant consumed == Elems(result) && consumed <= bestVerts.Keys
      invariant Distinct(result) && Chain(bestVerts, result)
      invariant result == [] ==> currentVert == start
      invariant result != [] ==> start == Some(result[0])
      invariant result != [] ==> result[|result| - 1] in bestVerts && bestVerts[result[|result| - 1]] == currentVert
      invariant start.Some? && start.value in bestVerts && Total(bestVerts) ==> currentVert.Some? && currentVert.value in bestVerts
      decreases |bestVerts.Keys - consumed|
    {
      if currentVert.None? || currentVert.value !in bestVerts {
        return Err(MissingSuccessor);
      }
      var v := currentVert.value;
      SmallerRest(bestVerts.Keys, consumed, v);
      ChainSnoc(bestVerts, result, v);
      DistinctSnoc(result, v);
      result := result + [v];
      ElemsLast(result);
      consumed := consumed + {v};
      currentVert := bestVerts[v];
    }
    res := Ok(Walk(result, currentVert.value));
  }

  /**
   * The outline removeCavities returns, the vertex that closed the walk, and
   * whether the diagnostic was printed.
   */
  datatype Trimmed = Trimmed(path: seq<Vec2>, stop: Vec2, errorPrinted: bool)

  function Project(v: Vec3): Vec2
  {
    Vec2(v.x, v.y)
  }

  /** vertlist2d: every vertex with its z dropped. */
  function Project2D(vs: seq<Vec3>): (r: seq<Vec2>)
    ensures |r| == |vs|
    ensures forall k :: 0 <= k < |vs| ==> r[k].x == vs[k].x && r[k].y == vs[k].y
  {
    seq(|vs|, k requires 0 <= k < |vs| => Project(vs[k]))
  }

  /** dir: the cyclic turning angles do not sum to a negative number. */
  predicate Dir(l: seq<Vec2>, angle: AngleFn)
    requires |l| > 0
  {
    AngleSum(l, angle) >= 0.0
  }

  /**
   * removeCavities: project to 2D, find the direction, pick the successors
   * and follow them from the pick for the closing item. The path starts at
   * that pick, repeats no vertex, keeps to the outline's vertices, follows
   * the recorded picks, and the diagnostic is printed iff the walk does not
   * close on its start. When every pick exists and has an entry of its own,
   * the walk never meets None and the result is Ok.
   */
  method RemoveCavities(vertlist: seq<Vec3>, angle: AngleFn, round6: RoundFn) returns (res: Result<Trimmed, SimplifyError>)
    ensures vertlist == [] ==> res == Err(EmptyOutline)
    ensures vertlist != [] && Total(BestMap(Project2D(vertlist), |vertlist|, Dir(Project2D(vertlist), angle), angle, round6)) ==> res.Ok?
    ensures res.Ok? ==>
      var l := Project2D(vertlist);
      var m := BestMap(l, |l|, Dir(l, angle), angle, round6);
      var p := res.value.path;
      && |p| >= 1 && Distinct(p)
      && Some(p[0]) == Successor(l, |l|, Dir(l, angle), angle, round6)
      && (forall v :: v in p ==> v in l)
      && Chain(m, p) && p[|p| - 1] in m && m[p[|p| - 1]] == Some(res.value.stop)
      && res.value.stop in p
      && (res.value.errorPrinted <==> res.value.stop != p[0])
  {
    if vertlist == [] {
      return Err(EmptyOutline);
    }
    var l := Project2D(vertlist);
    var gen := new ListWrappingGenerator(l);
    var dir, _ := Direction(gen, l, angle);
    var bestVerts, bestVert := BestVertexes(gen, l, dir, angle, round6);
    BestMapEntries(l, dir, angle, round6);
    var walk := FollowBest(bestVerts, bestVert);
    if walk.Err? {
      return Err(walk.error);
    }
    var p := walk.value.path;
    BestMapKeys(l, dir, angle, round6);
    assert forall v :: v in p ==> v in l by {
      forall v | v in p
        ensures v in l
      {
        var i :| 0 <= i < |p| && p[i] == v;
        if i < |p| - 1 {
          assert p[i] in bestVerts;
        }
      }
    }
    res := Ok(Trimmed(p, walk.value.stop, walk.value.stop != p[0]));
  }

  /**
   * makeFaceFromVectors: the polygon through the points, closed by repeating
   * the first one. Python raises on an empty list.
   */
  function CloseLoop(vs: seq<Vec3>): (r: Option<seq<Vec3>>)
    ensures r.None? <==> vs == []
    ensures r.Some? ==> |r.value| == |vs| + 1 && r.value[..|vs|] == vs && r.value[|vs|] == r.value[0]
  {
    if vs == [] then None else Some(vs + [vs[0]])
  }

  /** The polygon the macro hands to Part.Face: the trimmed outline at z = 0, closed. */
  method Simplify(edges: seq<Segment>, angle: AngleFn, round6: RoundFn) returns (res: Result<seq<Vec3>, SimplifyError>)
    ensures edges == [] ==> res == Err(EmptyOutline)
    ensures res.Ok? ==> |res.value| >= 2 && res.value[|res.value| - 1] == res.value[0]
    ensures res.Ok? ==> forall k :: 0 <= k < |res.value| ==> res.value[k].z == 0.0
  {
    var sorted := SortVertexes(edges);
    if sorted.None? {
      return Err(EmptyOutline);
    }
    var trimmed := RemoveCavities(sorted.value, angle, round6);
    if trimmed.Err? {
      return Err(trimmed.error);
    }
    var p := trimmed.value.path;
    var vs := seq(|p|, k requires 0 <= k < |p| => Vec3(p[k].x, p[k].y, 0.0));
    var closed := CloseLoop(vs);
    res := Ok(closed.value);
  }
}
