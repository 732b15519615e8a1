/**
 * The triangle macro: the distinct vertices of everything selected are
 * collected; exactly three of them give a closed triangle of three edges,
 * any other number gives only an error message.
 */
module MakeFace {
  import opened Wrappers
  import opened Geometry

  /** The selection: per selection, per sub-object, its vertices. */
  type Selection = seq<seq<seq<Vec3>>>

  /** The distinct vertices of the selection. */
  function AllVerts(selection: Selection): (vs: set<Vec3>)
    ensures forall i, j, k :: 0 <= i < |selection| && 0 <= j < |selection[i]| && 0 <= k < |selection[i][j]| ==> selection[i][j][k] in vs
  {
    if selection == [] then {} else ObjectVerts(selection[0]) + AllVerts(selection[1..])
  }

  /** The distinct vertices of the sub-objects of one selection. */
  function ObjectVerts(objs: seq<seq<Vec3>>): (vs: set<Vec3>)
    ensures forall j, k :: 0 <= j < |objs| && 0 <= k < |objs[j]| ==> objs[j][k] in vs
  {
    if objs == [] then {} else (set v | v in objs[0]) + ObjectVerts(objs[1..])
  }

  /** Every collected vertex comes from some sub-object. */
  lemma {:induction false} AllVertsFrom(selection: Selection, v: Vec3)
    requires v in AllVerts(selection)
    ensures exists i, j :: 0 <= i < |selection| && 0 <= j < |selection[i]| && v in selection[i][j]
  {
    if v in ObjectVerts(selection[0]) {
      var j := ObjectVertsFrom(selection[0], v);
      assert v in selection[0][j];
    } else {
      AllVertsFrom(selection[1..], v);
      var i, j :| 0 <= i < |selection[1..]| && 0 <= j < |selection[1..][i]| && v in selection[1..][i][j];
      assert v in selection[i + 1][j];
    }
  }

  lemma {:induction false} ObjectVertsFrom(objs: seq<seq<Vec3>>, v: Vec3) returns (j: nat)
    requires v in ObjectVerts(objs)
    ensures j < |objs| && v in objs[j]
  {
    if v !in objs[0] {
      j := ObjectVertsFrom(objs[1..], v);
      assert objs[1..][j] == objs[j + 1];
      j := j + 1;
    } else {
      j := 0;
    }
  }

  /** The three edges v0→v1, v1→v2, v2→v0 over exactly the vertices vs. */
  predicate Triangle(edges: seq<Segment>, vs: set<Vec3>) {
    && |edges| == 3
    && (forall i :: 0 <= i < 3 ==> edges[i].1 == edges[(i + 1) % 3].0)
    && (forall i :: 0 <= i < 3 ==> edges[i].0 != edges[i].1)
    && {edges[0].0, edges[1].0, edges[2].0} == vs
  }

  /** Add the vertices of one sub-object to the set, one by one. */
  method AddVertexes(verts: set<Vec3>, obj: seq<Vec3>) returns (added: set<Vec3>)
    ensures added == verts + set v | v in obj
  {
    added := verts;
    for k := 0 to |obj|
      invariant added == verts + set v | v in obj[..k]
    {
      assert obj[..k + 1] == obj[..k] + [obj[k]];
      added := added + {obj[k]};
    }
    assert obj[..|obj|] == obj;
  }

  /** Fill the set of distinct vertices, selection by selection, sub-object by sub-object. */
  method CollectVerts(selection: Selection) returns (verts: set<Vec3>)
    ensures verts == AllVerts(selection)
  {
    verts := {};
    var i := 0;
    while i < |selection|
      invariant 0 <= i <= |selection|
      invariant verts + AllVerts(selection[i..]) == AllVerts(selection)
    {
      assert selection[i..][1..] == selection[i + 1..];
      var objs := selection[i];
      var j := 0;
      ghost var before := verts;
      while j < |objs|
        invariant 0 <= j <= |objs|
        invariant verts + ObjectVerts(objs[j..]) == before + ObjectVerts(objs)
      {
        assert objs[j..][1..] == objs[j + 1..];
        verts := AddVertexes(verts, objs[j]);
        j := j + 1;
      }
      assert objs[j..] == [];
      i := i + 1;
    }
    assert selection[i..] == [];
  }

  /** Three distinct points form a set of three. */
  lemma ThreeDistinct(a: Vec3, b: Vec3, c: Vec3)
    requires a != b && b != c && a != c
    ensures |{a, b, c}| == 3
  {
    assert {a, b, c} == {a} + {b} + {c};
    assert |{a} + {b}| == 2;
  }

  /** Three distinct points, joined in order and back to the first, form a triangle. */
  lemma TriangleOf(x: Vec3, y: Vec3, z: Vec3)
    requires x != y && y != z && x != z
    ensures Triangle([(x, y), (y, z), (z, x)], {x, y, z})
  {
    var edges := [(x, y), (y, z), (z, x)];
    forall i | 0 <= i < 3 ensures edges[i].1 == edges[(i + 1) % 3].0 {
      if i == 2 { assert (i + 1) % 3 == 0; }
    }
  }

  /** Iterate over a set in some order: every element once. */
  method Enumerate(verts: set<Vec3>) returns (vertexes: seq<Vec3>)
    ensures |vertexes| == |verts|
    ensures forall v :: v in vertexes <==> v in verts
    ensures forall a, b :: 0 <= a < b < |vertexes| ==> vertexes[a] != vertexes[b]
  {
    vertexes := [];
    var remaining := verts;
    while remaining != {}
      invariant remaining <= verts
      invariant |vertexes| + |remaining| == |verts|
      invariant forall v :: v in vertexes <==> v in verts && v !in remaining
      invariant forall a, b :: 0 <= a < b < |vertexes| ==> vertexes[a] != vertexes[b]
      decreases |remaining|
    {
      var v :| v in remaining;
      vertexes := vertexes + [v];
      remaining := remaining - {v};
    }
  }

  /**
   * The macro: an error unless the selection has exactly three distinct
   * vertices; otherwise the closed triangle over them, in the set's
   * (arbitrary) iteration order.
   */
  method MakeFace(selection: Selection) returns (r: Result<seq<Segment>, string>)
    ensures r.Err? <==> |AllVerts(selection)| != 3
    ensures r.Err? ==> r.error == "You must only select 3 vertexes"
    ensures r.Ok? ==> Triangle(r.value, AllVerts(selection))
  {
    var verts := CollectVerts(selection);
    if |verts| != 3 {
      return Err("You must only select 3 vertexes");
    }
    var vertexes := Enumerate(verts);
    assert {vertexes[0], vertexes[1], vertexes[2]} == verts by {
      assert forall v :: v in vertexes <==> v in {vertexes[0], vertexes[1], vertexes[2]};
    }
    TriangleOf(vertexes[0], vertexes[1], vertexes[2]);
    var edges := [(vertexes[0], vertexes[1]), (vertexes[1], vertexes[2]), (vertexes[2], vertexes[0])];
    return Ok(edges);
  }

  /**
   * Two edges that share one vertex, or a vertex and an edge, have three
   * distinct vertices between them and are accepted.
   */
  lemma TwoEdgesAccepted(a: Vec3, b: Vec3, c: Vec3)
    requires a != b && b != c && a != c
    ensures AllVerts([[[a, b], [b, c]]]) == {a, b, c} && |AllVerts([[[a, b], [b, c]]])| == 3
    ensures AllVerts([[[a]], [[b, c]]]) == {a, b, c}
  {
    ThreeDistinct(a, b, c);
    var ab: seq<Vec3> := [a, b];
    var bc: seq<Vec3> := [b, c];
    var s1: Selection := [[ab, bc]];
    assert (set v | v in ab) == {a, b};
    assert (set v | v in bc) == {b, c};
    assert s1[0][1..][1..] == [];
    assert ObjectVerts(s1[0][1..]) == {b, c};
    assert ObjectVerts(s1[0]) == {a, b, c};
    assert s1[1..] == [];
    var s2: Selection := [[[a]], [bc]];
    assert (set v | v in [a]) == {a};
    assert s2[0][1..] == [] && s2[1][1..] == [];
    assert ObjectVerts(s2[0]) == {a};
    assert ObjectVerts(s2[1]) == {b, c};
    assert s2[1..] == [[bc]] && s2[1..][1..] == [];
    assert AllVerts(s2[1..]) == {b, c};
  }
}
