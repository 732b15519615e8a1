/**
 * A dictionary of lists, as the outline simplifier and the face merger keep
 * their vertex adjacency, and the adjacency such a dictionary records when
 * every edge is added in both directions.
 */
module Multimap {
  import opened Geometry

  /**
   * appendDict(d, k, v): v is appended to the list under k, a new list [v] is
   * created when k is absent, and every other key keeps its list.
   */
  function AppendDict<K, V>(d: map<K, seq<V>>, k: K, v: V): (r: map<K, seq<V>>)
    ensures r.Keys == d.Keys + {k}
    ensures r[k] == (if k in d then d[k] else []) + [v]
    ensures forall k' :: k' in d && k' != k ==> r[k'] == d[k']
  {
    if k in d then d[k := d[k] + [v]] else d[k := [v]]
  }

  /** The dictionary after each edge has been added in both directions (vertexConnections, dirarcs). */
  function Connections(edges: seq<Segment>): map<Vec3, seq<Vec3>>
  {
    if edges == [] then map[]
    else
      var e := edges[|edges| - 1];
      AppendDict(AppendDict(Connections(edges[..|edges| - 1]), e.0, e.1), e.1, e.0)
  }

  /** Some edge of the wire joins u and w, in either orientation. */
  predicate Joined(edges: seq<Segment>, u: Vec3, w: Vec3) {
    exists i :: 0 <= i < |edges| && (edges[i] == (u, w) || edges[i] == (w, u))
  }

  /** u is an end vertex of some edge of the wire. */
  predicate IsEndpoint(edges: seq<Segment>, u: Vec3) {
    exists i :: 0 <= i < |edges| && (edges[i].0 == u || edges[i].1 == u)
  }

  predicate NoSelfLoops(edges: seq<Segment>) {
    forall i :: 0 <= i < |edges| ==> edges[i].0 != edges[i].1
  }

  predicate Distinct<T(==)>(s: seq<T>) {
    forall i, j :: 0 <= i < j < |s| ==> s[i] != s[j]
  }

  /** Adding one edge (a, b) to the connections adds b under a and a under b. */
  lemma AddEdge(c: map<Vec3, seq<Vec3>>, a: Vec3, b: Vec3)
    ensures forall u :: u in AppendDict(AppendDict(c, a, b), b, a) <==> u in c || u == a || u == b
    ensures forall u, w :: u in AppendDict(AppendDict(c, a, b), b, a) && w in AppendDict(AppendDict(c, a, b), b, a)[u]
                           <==> (u in c && w in c[u]) || (u == a && w == b) || (u == b && w == a)
  {
    var c1 := AppendDict(c, a, b);
    var c2 := AppendDict(c1, b, a);
    forall u, w
      ensures u in c2 && w in c2[u] <==> (u in c && w in c[u]) || (u == a && w == b) || (u == b && w == a)
    {
      if u == b {
        assert c2[u] == (if b in c1 then c1[b] else []) + [a];
        if u == a {
          assert c1[u] == (if a in c then c[a] else []) + [b];
        }
      } else if u == a {
        assert c2[u] == c1[u] == (if a in c then c[a] else []) + [b];
      } else if u in c {
        assert c2[u] == c1[u] == c[u];
      }
    }
  }

  /** The end vertices of edges + [e] are those of edges and the two ends of e. */
  lemma EndpointSnoc(edges: seq<Segment>)
    requires edges != []
    ensures forall u :: IsEndpoint(edges, u) <==>
      IsEndpoint(edges[..|edges| - 1], u) || u == edges[|edges| - 1].0 || u == edges[|edges| - 1].1
  {
    var front := edges[..|edges| - 1];
    forall u | IsEndpoint(front, u)
      ensures IsEndpoint(edges, u)
    {
      var i :| 0 <= i < |front| && (front[i].0 == u || front[i].1 == u);
      assert edges[i] == front[i];
    }
    forall u | IsEndpoint(edges, u) && u != edges[|edges| - 1].0 && u != edges[|edges| - 1].1
      ensures IsEndpoint(front, u)
    {
      var i :| 0 <= i < |edges| && (edges[i].0 == u || edges[i].1 == u);
      assert i < |front| && front[i] == edges[i];
    }
    assert edges[|edges| - 1] == edges[|edges| - 1];
  }

  /** The pairs joined by edges + [e] are those joined by edges, and e both ways. */
  lemma JoinedSnoc(edges: seq<Segment>)
    requires edges != []
    ensures forall u, w :: Joined(edges, u, w) <==>
      Joined(edges[..|edges| - 1], u, w) || edges[|edges| - 1] == (u, w) || edges[|edges| - 1] == (w, u)
  {
    var front := edges[..|edges| - 1];
    forall u, w | Joined(front, u, w)
      ensures Joined(edges, u, w)
    {
      var i :| 0 <= i < |front| && (front[i] == (u, w) || front[i] == (w, u));
      assert edges[i] == front[i];
    }
    forall u, w | Joined(edges, u, w) && edges[|edges| - 1] != (u, w) && edges[|edges| - 1] != (w, u)
      ensures Joined(front, u, w)
    {
      var i :| 0 <= i < |edges| && (edges[i] == (u, w) || edges[i] == (w, u));
      assert i < |front| && front[i] == edges[i];
    }
  }

  /**
   * The connections are exactly the wire's adjacency: the keys are the end
   * vertices and w is listed under u iff an edge joins them, so the
   * relation is symmetric.
   */
  lemma {:induction false} ConnectionsMeaning(edges: seq<Segment>)
    ensures forall u :: u in Connections(edges) <==> IsEndpoint(edges, u)
    ensures forall u, w :: u in Connections(edges) && w in Connections(edges)[u] <==> Joined(edges, u, w)
  {
    if edges != [] {
      var front := edges[..|edges| - 1];
      var e := edges[|edges| - 1];
      ConnectionsMeaning(front);
      AddEdge(Connections(front), e.0, e.1);
      EndpointSnoc(edges);
      JoinedSnoc(edges);
    }
  }

  lemma ConnectionsStep(edges: seq<Segment>, i: nat)
    requires i < |edges|
    ensures Connections(edges[..i + 1])
         == AppendDict(AppendDict(Connections(edges[..i]), edges[i].0, edges[i].1), edges[i].1, edges[i].0)
  {
    assert edges[..i + 1][..i] == edges[..i];
  }

  /** One instance of ConnectionsMeaning: w is listed under u iff an edge joins them. */
  lemma Adjacent(edges: seq<Segment>, u: Vec3, w: Vec3)
    ensures u in Connections(edges) && w in Connections(edges)[u] <==> Joined(edges, u, w)
    ensures u in Connections(edges) <==> IsEndpoint(edges, u)
  {
    ConnectionsMeaning(edges);
  }

  /** The elements of a sequence, as a set. */
  function Elems<T(!new)>(s: seq<T>): set<T> {
    set x | x in s
  }

  /**
   * The scan over a vertex's listed neighbours: the index of the first one not
   * in visited, or the length of the list when there is none.
   */
  method FirstNotIn(neighbours: seq<Vec3>, visited: set<Vec3>) returns (k: nat)
    ensures k <= |neighbours|
    ensures forall m :: 0 <= m < k ==> neighbours[m] in visited
    ensures k < |neighbours| ==> neighbours[k] !in visited
  {
    k := 0;
    while k < |neighbours|
      invariant k <= |neighbours|
      invariant forall m :: 0 <= m < k ==> neighbours[m] in visited
    {
      if neighbours[k] !in visited {
        return;
      }
      k := k + 1;
    }
  }

  /** The elements of a non-empty sequence: those before its last, and its last. */
  lemma ElemsLast<T(!new)>(p: seq<T>)
    requires p != []
    ensures Elems(p) == Elems(p[..|p| - 1]) + {p[|p| - 1]}
  {
    assert p == p[..|p| - 1] + [p[|p| - 1]];
  }

  /** Joined does not depend on the orientation. */
  lemma JoinedSym(edges: seq<Segment>, u: Vec3, w: Vec3)
    ensures Joined(edges, u, w) <==> Joined(edges, w, u)
  {
  }

  /** Without loop edges, no vertex is joined to itself. */
  lemma NoLoopStep(edges: seq<Segment>, u: Vec3, w: Vec3)
    requires NoSelfLoops(edges) && Joined(edges, u, w)
    ensures u != w
  {
  }

  /** Appending a new element keeps a sequence free of repeats. */
  lemma DistinctSnoc<T>(p: seq<T>, v: T)
    requires Distinct(p) && v !in p
    ensures Distinct(p + [v])
  {
  }
}
