/**
 * The unfolding macro: a selection of (reference face, bend edge, face,
 * bend edge, face, ...) is turned into a list of bends, each a rotation about
 * a bend edge that should bring a face into the plane of the face before it;
 * the bends are then applied, last first, to the last face. The CAD kernel
 * (normals, vertices, angles between normals) is a parameter, and rotating a
 * shape is recorded on the shape.
 */
module Flatten3D {
  import opened Wrappers
  import opened Geometry

  /** Why the macro stops with a Python exception. */
  datatype Failure =
    | NothingSelected   // faces[0] of an empty selection
    | MissingVertex     // bendedge.Vertexes[0] or [1] of an element with fewer than two vertices
    | MissingFace       // an odd tail: grouper pads with None, and None has no normalAt
    | NoFaceToShow      // faces[-1] when the selection held only the reference face

  /** A rotation about the axis through `point` along `axis`, by `angle` degrees. */
  datatype Rotation = Rotation(point: Vec3, axis: Vec3, angle: real)

  /** A selected shape: which kernel object it is, and the rotations applied to it so far. */
  datatype Shape = Shape(id: nat, rotations: seq<Rotation>)

  /**
   * What the macro asks of the kernel: the normal at (0, 0), the vertices,
   * and the angle between two normals converted to degrees.
   */
  datatype Kernel = Kernel(normalAt: Shape -> Vec3, vertexesOf: Shape -> seq<Vec3>, angleDeg: (Vec3, Vec3) -> real)

  /** The kernel's rotate: the shape is turned in place, here recorded as one more rotation. */
  function Rotate(s: Shape, point: Vec3, axis: Vec3, angle: real): Shape
  {
    Shape(s.id, s.rotations + [Rotation(point, axis, angle)])
  }

  // ---------------------------------------------------------------------------
  // nearValue and notNear
  // ---------------------------------------------------------------------------

  const Tolerance: real := 0.00000000000001

  /** dest lies strictly within the tolerance around src. */
  predicate NearValue(src: real, dest: real) {
    src - Tolerance < dest < src + Tolerance
  }

  /** Nearness is symmetric, and every value is near itself. */
  lemma NearValueSymmetric(a: real, b: real)
    ensures NearValue(a, b) <==> NearValue(b, a)
    ensures NearValue(a, a)
  {
  }

  /** Some component of the two vectors is not near. */
  predicate NotNear(v1: Vec3, v2: Vec3) {
    !(NearValue(v1.x, v2.x) && NearValue(v1.y, v2.y) && NearValue(v1.z, v2.z))
  }

  /** Two vectors are not near iff some component differs by at least the tolerance. */
  lemma NotNearIff(v1: Vec3, v2: Vec3)
    ensures NotNear(v1, v2) <==>
      (Abs(v1.x - v2.x) >= Tolerance || Abs(v1.y - v2.y) >= Tolerance || Abs(v1.z - v2.z) >= Tolerance)
    ensures NotNear(v1, v2) <==> NotNear(v2, v1)
    ensures !NotNear(v1, v1)
  {
  }

  function Abs(x: real): (r: real)
    ensures r >= 0.0 && (r == x || r == -x)
  {
    if x < 0.0 then -x else x
  }

  // ---------------------------------------------------------------------------
  // grouper and flattenSelection
  // ---------------------------------------------------------------------------

  /** Fixed-length chunks of xs, the last one padded with fill. */
  function Grouper<T>(n: nat, xs: seq<T>, fill: T): (r: seq<seq<T>>)
    decreases |xs|
  {
    if n == 0 || xs == [] then []
    else if |xs| >= n then [xs[..n]] + Grouper(n, xs[n..], fill)
    else [xs + seq(n - |xs|, _ => fill)]
  }

  function Concat<T>(xss: seq<seq<T>>): (r: seq<T>) {
    if xss == [] then [] else xss[0] + Concat(xss[1..])
  }

  /**
   * grouper gives ceil(|xs| / n) chunks of length n whose concatenation is
   * xs padded with fill: grouper(3, "ABCDEFG", 'x') is ABC DEF Gxx.
   */
  lemma {:induction false} GrouperChunks<T>(n: nat, xs: seq<T>, fill: T)
    requires n > 0
    ensures var r := Grouper(n, xs, fill);
      && (forall k :: 0 <= k < |r| ==> |r[k]| == n)
      && |xs| <= |r| * n < |xs| + n
      && Concat(r) == xs + seq(|r| * n - |xs|, _ => fill)
    decreases |xs|
  {
    var r := Grouper(n, xs, fill);
    if xs == [] {
    } else if |xs| >= n {
      GrouperChunks(n, xs[n..], fill);
      var t := Grouper(n, xs[n..], fill);
      assert r == [xs[..n]] + t;
      assert r[1..] == t && |r| == |t| + 1;
      MulSucc(|t|, n);
      var pad := seq(|t| * n - |xs[n..]|, _ => fill);
      assert Concat(r) == xs[..n] + (xs[n..] + pad);
      assert xs[..n] + (xs[n..] + pad) == xs + pad;
    } else {
      assert r[1..] == [];
      assert Concat(r) == r[0] + Concat(r[1..]);
    }
  }

  lemma MulSucc(a: int, n: int)
    ensures (a + 1) * n == a * n + n
  {
  }

  lemma ConcatGrouperExample()
    ensures Grouper(3, "ABCDEFG", 'x') == ["ABC", "DEF", "Gxx"]
  {
    assert "ABCDEFG"[..3] == "ABC" && "ABCDEFG"[3..] == "DEFG";
    assert "DEFG"[..3] == "DEF" && "DEFG"[3..] == "G";
    assert "G" + seq(2, _ => 'x') == "Gxx";
  }

  function Reverse<T>(s: seq<T>): (r: seq<T>)
    ensures |r| == |s| && forall i :: 0 <= i < |s| ==> r[i] == s[|s| - 1 - i]
  {
    if s == [] then [] else Reverse(s[1..]) + [s[0]]
  }

  /** flattenSelection: the sub-objects of each selection, one selection after the other. */
  method FlattenSelection(selection: seq<seq<Shape>>) returns (result: seq<Shape>)
    ensures result == Concat(selection)
  {
    result := [];
    var i := 0;
    while i < |selection|
      invariant 0 <= i <= |selection|
      invariant result + Concat(selection[i..]) == Concat(selection)
    {
      assert selection[i..][1..] == selection[i + 1..];
      result := result + selection[i];
      i := i + 1;
    }
    assert selection[i..] == [];
  }

  lemma {:induction false} ConcatAppend<T>(a: seq<seq<T>>, b: seq<seq<T>>)
    ensures Concat(a + b) == Concat(a) + Concat(b)
  {
    if a != [] {
      assert (a + b)[1..] == a[1..] + b;
      ConcatAppend(a[1..], b);
    } else {
      assert a + b == b;
    }
  }

  /**
   * After the selections are reversed, the reference face is the first
   * sub-object of the last selection (when that one is not empty).
   */
  lemma PrimaryIsLastSelection(selection: seq<seq<Shape>>)
    requires selection != [] && selection[|selection| - 1] != []
    ensures Concat(Reverse(selection))[0] == selection[|selection| - 1][0]
  {
    var rev := Reverse(selection);
    assert rev == [rev[0]] + rev[1..];
    ConcatAppend([rev[0]], rev[1..]);
    assert Concat([rev[0]]) == rev[0] + Concat([rev[0]][1..]);
    assert [rev[0]][1..] == [];
  }

  // ---------------------------------------------------------------------------
  // bends
  // ---------------------------------------------------------------------------

  /** A bend: reference point, axis, angle in degrees, and the normal the face should end up with. */
  datatype Bend = Bend(point: Vec3, axis: Vec3, angle: real, expected: Vec3)

  /**
   * calculateBend: the rotation about the bend edge that takes the second
   * face's normal to the reference face's.
   */
  function CalculateBend(k: Kernel, primface: Shape, bendedge: Shape, secoface: Shape): (r: Result<Bend, Failure>)
    ensures r.Err? <==> |k.vertexesOf(bendedge)| < 2
    ensures r.Ok? ==> var vs := k.vertexesOf(bendedge);
      && r.value.point == vs[0]
      && Minus(r.value.point, r.value.axis) == vs[1]
      && r.value.angle == k.angleDeg(k.normalAt(primface), k.normalAt(secoface))
      && r.value.expected == k.normalAt(primface)
  {
    var vs := k.vertexesOf(bendedge);
    if |vs| < 2 then Err(MissingVertex)
    else Ok(Bend(vs[0], Minus(vs[0], vs[1]), k.angleDeg(k.normalAt(primface), k.normalAt(secoface)), k.normalAt(primface)))
  }

  /** The bends for the (bend edge, face) pairs that follow the reference face `ref`. */
  function Bends(k: Kernel, ref: Shape, pairs: seq<seq<Option<Shape>>>): (r: Result<seq<Bend>, Failure>)
    requires forall i :: 0 <= i < |pairs| ==> |pairs[i]| == 2
    ensures r.Ok? ==> |r.value| == |pairs|
    decreases |pairs|
  {
    if pairs == [] then Ok([])
    else
      var pair := pairs[0];
      if pair[0].None? || pair[1].None? then Err(MissingFace)
      else match CalculateBend(k, ref, pair[0].value, pair[1].value)
        case Err(f) => Err(f)
        case Ok(b) =>
          match Bends(k, pair[1].value, pairs[1..])
          case Err(f) => Err(f)
          case Ok(rest) => Ok([b] + rest)
  }

  /** The reference face of bend i: the reference face for i = 0, else the face of pair i - 1. */
  function RefFace(ref: Shape, pairs: seq<seq<Option<Shape>>>, i: nat): Option<Shape>
    requires i <= |pairs| && forall j :: 0 <= j < |pairs| ==> |pairs[j]| == 2
  {
    if i == 0 then Some(ref) else pairs[i - 1][1]
  }

  /** Bend i is measured against the face of bend i - 1 (the reference face for the first). */
  lemma {:induction false} BendsChain(k: Kernel, ref: Shape, pairs: seq<seq<Option<Shape>>>)
    requires forall i :: 0 <= i < |pairs| ==> |pairs[i]| == 2
    ensures var r := Bends(k, ref, pairs);
      r.Ok? ==> forall i :: 0 <= i < |pairs| ==>
        pairs[i][0].Some? && pairs[i][1].Some? && RefFace(ref, pairs, i).Some? &&
        Ok(r.value[i]) == CalculateBend(k, RefFace(ref, pairs, i).value, pairs[i][0].value, pairs[i][1].value)
    decreases |pairs|
  {
    var r := Bends(k, ref, pairs);
    if pairs != [] && r.Ok? {
      var next := pairs[0][1].value;
      BendsChain(k, next, pairs[1..]);
      forall i | 0 <= i < |pairs|
        ensures pairs[i][0].Some? && pairs[i][1].Some? && RefFace(ref, pairs, i).Some? &&
          Ok(r.value[i]) == CalculateBend(k, RefFace(ref, pairs, i).value, pairs[i][0].value, pairs[i][1].value)
      {
        if i > 0 {
          assert pairs[i] == pairs[1..][i - 1];
          assert RefFace(ref, pairs, i) == RefFace(next, pairs[1..], i - 1);
        }
      }
    }
  }

  /** The loop that builds the bend list, carrying the last secondary face. */
  method CollectBends(k: Kernel, primface: Shape, pairs: seq<seq<Option<Shape>>>) returns (r: Result<seq<Bend>, Failure>)
    requires forall i :: 0 <= i < |pairs| ==> |pairs[i]| == 2
    ensures r == Bends(k, primface, pairs)
  {
    var bends: seq<Bend> := [];
    var lastsecoface := primface;
    var i := 0;
    assert pairs[0..] == pairs;
    assert Bends(k, primface, pairs).Ok? ==> bends + Bends(k, primface, pairs).value == Bends(k, primface, pairs).value;
    while i < |pairs|
      invariant 0 <= i <= |pairs|
      invariant var rest := Bends(k, lastsecoface, pairs[i..]);
        Bends(k, primface, pairs) == if rest.Err? then rest else Ok(bends + rest.value)
    {
      assert pairs[i..][1..] == pairs[i + 1..];
      var bendedge := pairs[i][0];
      var secoface := pairs[i][1];
      if bendedge.None? || secoface.None? {
        return Err(MissingFace);
      }
      var b := CalculateBend(k, lastsecoface, bendedge.value, secoface.value);
      if b.Err? {
        return Err(b.error);
      }
      ghost var rest := Bends(k, secoface.value, pairs[i + 1..]);
      assert rest.Ok? ==> bends + ([b.value] + rest.value) == (bends + [b.value]) + rest.value;
      bends := bends + [b.value];
      lastsecoface := secoface.value;
      i := i + 1;
    }
    assert pairs[i..] == [];
    r := Ok(bends);
    assert bends + [] == bends;
  }

  // ---------------------------------------------------------------------------
  // applying the bends
  // ---------------------------------------------------------------------------

  /** What the loop prints for a bend: the expected normal and the face's normal after the first rotation. */
  type Report = (Vec3, Vec3)

  /**
   * The bends applied in the given order to `face`: a rotation by the bend's
   * angle, and, when the normal is then not near the expected one, a second
   * rotation by minus twice the angle.
   */
  function Apply(k: Kernel, face: Shape, todo: seq<Bend>): (r: (Shape, seq<Report>))
    ensures |r.1| == |todo|
    decreases |todo|
  {
    if todo == [] then (face, [])
    else
      var b := todo[0];
      var turned := Rotate(face, b.point, b.axis, b.angle);
      var n := k.normalAt(turned);
      var fixed := if NotNear(b.expected, n) then Rotate(turned, b.point, b.axis, -2.0 * b.angle) else turned;
      var rest := Apply(k, fixed, todo[1..]);
      (rest.0, [(b.expected, n)] + rest.1)
  }

  /** The number of reports whose printed normal is not near the expected one. */
  function Corrections(log: seq<Report>): (n: nat)
    ensures n <= |log|
  {
    if log == [] then 0 else (if NotNear(log[0].0, log[0].1) then 1 else 0) + Corrections(log[1..])
  }

  /**
   * The rotations the bends call for, given the reports: for each bend in
   * turn, the rotation by its angle, followed by the rotation by minus twice
   * its angle about the same point and axis when its report is not near.
   */
  function Expected(todo: seq<Bend>, log: seq<Report>): (rs: seq<Rotation>)
    requires |log| == |todo|
    ensures |rs| == |todo| + Corrections(log)
    decreases |todo|
  {
    if todo == [] then []
    else
      var b := todo[0];
      [Rotation(b.point, b.axis, b.angle)]
        + (if NotNear(log[0].0, log[0].1) then [Rotation(b.point, b.axis, -2.0 * b.angle)] else [])
        + Expected(todo[1..], log[1..])
  }

  /**
   * The face as the loop holds it just after bend i's first rotation: the
   * rotations the earlier bends called for, then bend i's own.
   */
  function TurnedAt(face: Shape, todo: seq<Bend>, log: seq<Report>, i: nat): (s: Shape)
    requires i < |todo| && |log| == |todo|
    ensures s.id == face.id
    ensures |s.rotations| == |face.rotations| + i + Corrections(log[..i]) + 1
  {
    Rotate(Shape(face.id, face.rotations + Expected(todo[..i], log[..i])), todo[i].point, todo[i].axis, todo[i].angle)
  }

  /** Past the first bend, the turned face is the one after the first bend's rotations. */
  lemma TurnedAtTail(face: Shape, todo: seq<Bend>, log: seq<Report>, fixed: Shape, i: nat)
    requires 0 < i < |todo| && |log| == |todo|
    requires fixed == Shape(face.id, face.rotations + Expected(todo[..1], log[..1]))
    ensures TurnedAt(face, todo, log, i) == TurnedAt(fixed, todo[1..], log[1..], i - 1)
  {
    assert todo[..i][1..] == todo[1..][..i - 1] && todo[..i][..1] == todo[..1];
    assert log[..i][1..] == log[1..][..i - 1] && log[..i][..1] == log[..1];
    assert todo[1..][i - 1] == todo[i];
    assert todo[..1][1..] == [] && log[..1][1..] == [];
  }

  /**
   * Applying the bends reports, for each bend in turn, its expected normal
   * and the normal of the face just after that bend's first rotation.
   */
  lemma {:induction false} ApplyReports(k: Kernel, face: Shape, todo: seq<Bend>)
    ensures var r := Apply(k, face, todo);
      forall i :: 0 <= i < |todo| ==>
        && r.1[i].0 == todo[i].expected
        && r.1[i].1 == k.normalAt(TurnedAt(face, todo, r.1, i))
    decreases |todo|
  {
    if todo != [] {
      var b := todo[0];
      var turned := Rotate(face, b.point, b.axis, b.angle);
      var n := k.normalAt(turned);
      var fixed := if NotNear(b.expected, n) then Rotate(turned, b.point, b.axis, -2.0 * b.angle) else turned;
      ApplyReports(k, fixed, todo[1..]);
      var rest := Apply(k, fixed, todo[1..]);
      var log := [(b.expected, n)] + rest.1;
      assert Apply(k, face, todo).1 == log;
      var first := [Rotation(b.point, b.axis, b.angle)]
        + (if NotNear(b.expected, n) then [Rotation(b.point, b.axis, -2.0 * b.angle)] else []);
      assert fixed == Shape(face.id, face.rotations + first);
      assert TurnedAt(face, todo, log, 0) == turned by {
        assert todo[..0] == [] && log[..0] == [];
      }
      assert log[0] == (b.expected, n) && log[1..] == rest.1;
      assert fixed == Shape(face.id, face.rotations + Expected(todo[..1], log[..1])) by {
        assert todo[..1][1..] == [] && log[..1] == [log[0]];
      }
      forall i | 0 < i < |todo|
        ensures log[i].1 == k.normalAt(TurnedAt(face, todo, log, i))
      {
        TurnedAtTail(face, todo, log, fixed, i);
        assert log[i] == rest.1[i - 1];
      }
    }
  }

  /**
   * Applying the bends keeps the face, and the face gains exactly the
   * rotations the bends call for, in order, after those it already had.
   */
  lemma {:induction false} ApplyRotations(k: Kernel, face: Shape, todo: seq<Bend>)
    ensures var r := Apply(k, face, todo);
      && r.0.id == face.id
      && r.0.rotations == face.rotations + Expected(todo, r.1)
      && |r.0.rotations| == |face.rotations| + |todo| + Corrections(r.1)
    decreases |todo|
  {
    if todo != [] {
      var b := todo[0];
      var turned := Rotate(face, b.point, b.axis, b.angle);
      var n := k.normalAt(turned);
      var fixed := if NotNear(b.expected, n) then Rotate(turned, b.point, b.axis, -2.0 * b.angle) else turned;
      ApplyRotations(k, fixed, todo[1..]);
      var rest := Apply(k, fixed, todo[1..]);
      var log := [(b.expected, n)] + rest.1;
      assert Apply(k, face, todo) == (rest.0, log);
      var first := [Rotation(b.point, b.axis, b.angle)]
        + (if NotNear(b.expected, n) then [Rotation(b.point, b.axis, -2.0 * b.angle)] else []);
      assert fixed.rotations == face.rotations + first;
      assert log[1..] == rest.1 && log[0] == (b.expected, n);
      assert Expected(todo, log) == first + Expected(todo[1..], rest.1);
    }
  }

  /** The loop over the reversed bends, rotating the last face in place. */
  method ApplyBends(k: Kernel, bends: seq<Bend>, face: Shape) returns (shown: Shape, log: seq<Report>)
    ensures (shown, log) == Apply(k, face, Reverse(bends))
  {
    var todo := Reverse(bends);
    shown := face;
    log := [];
    var i := 0;
    while i < |todo|
      invariant 0 <= i <= |todo|
      invariant var rest := Apply(k, shown, todo[i..]);
        rest.0 == Apply(k, face, todo).0 && log + rest.1 == Apply(k, face, todo).1
    {
      assert todo[i..][1..] == todo[i + 1..];
      var bend := todo[i];
      shown := Rotate(shown, bend.point, bend.axis, bend.angle);
      var normal := k.normalAt(shown);
      log := log + [(bend.expected, normal)];
      if NotNear(bend.expected, normal) {
        shown := Rotate(shown, bend.point, bend.axis, bend.angle * -2.0);
        assert bend.angle * -2.0 == -2.0 * bend.angle;
      }
      i := i + 1;
    }
    assert todo[i..] == [];
    assert log + [] == log;
  }

  // ---------------------------------------------------------------------------
  // the macro
  // ---------------------------------------------------------------------------

  /** The shape shown at the end and the normals printed for each bend. */
  datatype Unfolded = Unfolded(shown: Shape, log: seq<Report>)

  /** Each sub-object as an element that grouper may pad with None. */
  function Present(xs: seq<Shape>): (r: seq<Option<Shape>>)
    ensures |r| == |xs| && forall i :: 0 <= i < |xs| ==> r[i] == Some(xs[i])
  {
    if xs == [] then [] else [Some(xs[0])] + Present(xs[1..])
  }

  /** The pairs (bend edge, face) after the reference face. */
  function Pairs(faces: seq<Shape>): (r: seq<seq<Option<Shape>>>)
    ensures forall i :: 0 <= i < |r| ==> |r[i]| == 2
  {
    GrouperChunks(2, Present(faces), None);
    Grouper(2, Present(faces), None)
  }

  /** The whole macro over the selections, in the order the application lists them. */
  function Unfold(k: Kernel, selection: seq<seq<Shape>>): Result<Unfolded, Failure> {
    UnfoldFaces(k, Concat(Reverse(selection)))
  }

  /** The macro after the selections are flattened: reference face first, then (bend edge, face) pairs. */
  function UnfoldFaces(k: Kernel, all: seq<Shape>): Result<Unfolded, Failure> {
    if all == [] then Err(NothingSelected)
    else
      var faces := all[1..];
      match Bends(k, all[0], Pairs(faces))
      case Err(f) => Err(f)
      case Ok(bends) =>
        if faces == [] then Err(NoFaceToShow)
        else
          var r := Apply(k, faces[|faces| - 1], Reverse(bends));
          Ok(Unfolded(r.0, r.1))
  }

  /** The macro. */
  method Flatten(k: Kernel, selection: seq<seq<Shape>>) returns (r: Result<Unfolded, Failure>)
    ensures r == Unfold(k, selection)
  {
    var sel := Reverse(selection);
    var faces := FlattenSelection(sel);
    if |faces| == 0 {
      return Err(NothingSelected);
    }
    var primface := faces[0];
    faces := faces[1..];
    var bends := CollectBends(k, primface, Pairs(faces));
    if bends.Err? {
      return Err(bends.error);
    }
    if |faces| == 0 {
      return Err(NoFaceToShow);
    }
    var shown, log := ApplyBends(k, bends.value, faces[|faces| - 1]);
    return Ok(Unfolded(shown, log));
  }

  /**
   * The macro raises on an empty selection, on the reference face alone
   * (nothing to show), and on an even number of elements (the last bend edge
   * has no face).
   */
  lemma UnfoldFailures(k: Kernel, all: seq<Shape>)
    ensures var r := UnfoldFaces(k, all);
      && (all == [] <==> r == Err(NothingSelected))
      && (|all| == 1 ==> r == Err(NoFaceToShow))
      && (|all| >= 2 && |all| % 2 == 0 ==> r.Err?)
  {
    if all != [] {
      var faces := all[1..];
      if |faces| % 2 == 1 {
        OddTailMissing(k, all[0], faces);
      }
      if faces == [] {
        assert Pairs(faces) == [];
      }
      BendsErrors(k, all[0], Pairs(faces));
    }
  }

  /** Bends fail only for a missing vertex or a missing face. */
  lemma {:induction false} BendsErrors(k: Kernel, ref: Shape, pairs: seq<seq<Option<Shape>>>)
    requires forall i :: 0 <= i < |pairs| ==> |pairs[i]| == 2
    ensures Bends(k, ref, pairs).Err? ==> Bends(k, ref, pairs).error in {MissingVertex, MissingFace}
    decreases |pairs|
  {
    if pairs != [] && pairs[0][0].Some? && pairs[0][1].Some? {
      BendsErrors(k, pairs[0][1].value, pairs[1..]);
    }
  }

  /**
   * When the macro finishes, the selection held the reference face and n
   * (bend edge, face) pairs; the last face is shown, after one report and
   * one or two rotations per bend.
   */
  lemma UnfoldResult(k: Kernel, all: seq<Shape>)
    ensures var r := UnfoldFaces(k, all);
      r.Ok? ==>
        && |all| % 2 == 1 && |r.value.log| == (|all| - 1) / 2
        && r.value.shown.id == all[|all| - 1].id
        && |r.value.shown.rotations| == |all[|all| - 1].rotations| + |r.value.log| + Corrections(r.value.log)
        && r.value.shown.rotations
             == all[|all| - 1].rotations + Expected(Reverse(Bends(k, all[0], Pairs(all[1..])).value), r.value.log)
  {
    var r := UnfoldFaces(k, all);
    if r.Ok? {
      var faces := all[1..];
      if |faces| % 2 == 1 {
        OddTailMissing(k, all[0], faces);
      }
      GrouperChunks(2, Present(faces), None);
      var b := Bends(k, all[0], Pairs(faces));
      ApplyRotations(k, faces[|faces| - 1], Reverse(b.value));
    }
  }

  /**
   * The converse: a reference face followed by complete (bend edge, face)
   * pairs, whose bend edges all have two vertices, unfolds successfully.
   */
  lemma UnfoldSucceeds(k: Kernel, all: seq<Shape>)
    requires |all| >= 3 && |all| % 2 == 1
    requires forall m :: 0 <= m < (|all| - 1) / 2 ==> |k.vertexesOf(all[2 * m + 1])| >= 2
    ensures UnfoldFaces(k, all).Ok?
  {
    var faces := all[1..];
    var pairs := Pairs(faces);
    PairsCount(faces);
    forall m | 0 <= m < |pairs|
      ensures pairs[m][0] == Some(all[2 * m + 1]) && pairs[m][1].Some?
    {
      PairAt(faces, m);
    }
    BendsSucceed(k, all[0], pairs);
  }

  /** An even number of elements makes exactly half as many pairs, with no padding. */
  lemma PairsCount(faces: seq<Shape>)
    requires |faces| % 2 == 0
    ensures |Pairs(faces)| * 2 == |faces| && Concat(Pairs(faces)) == Present(faces)
  {
    var pairs := Pairs(faces);
    GrouperChunks(2, Present(faces), None);
    var pad: seq<Option<Shape>> := seq(|pairs| * 2 - |faces|, _ => None);
    assert pad == [];
    assert Present(faces) + pad == Present(faces);
  }

  /** With an even number of elements, pair m holds elements 2m and 2m + 1. */
  lemma PairAt(faces: seq<Shape>, m: nat)
    requires |faces| % 2 == 0 && m < |faces| / 2
    ensures m < |Pairs(faces)| && Pairs(faces)[m] == [Some(faces[2 * m]), Some(faces[2 * m + 1])]
  {
    PairsCount(faces);
    PairOfConcat(Pairs(faces), Present(faces), m);
  }

  /** Pair m of pairs that concatenate to xs is [xs[2m], xs[2m + 1]]. */
  lemma PairOfConcat<T>(pairs: seq<seq<T>>, xs: seq<T>, m: nat)
    requires forall i :: 0 <= i < |pairs| ==> |pairs[i]| == 2
    requires Concat(pairs) == xs && m < |pairs|
    ensures 2 * m + 1 < |xs| && pairs[m] == [xs[2 * m], xs[2 * m + 1]]
  {
    ConcatPairAt(pairs, m, 0);
    ConcatPairAt(pairs, m, 1);
  }

  /** Element j of pair m sits at 2m + j once the pairs are concatenated. */
  lemma {:induction false} ConcatPairAt<T>(pairs: seq<seq<T>>, m: nat, j: nat)
    requires forall i :: 0 <= i < |pairs| ==> |pairs[i]| == 2
    requires m < |pairs| && j < 2
    ensures 2 * m + j < |Concat(pairs)| && Concat(pairs)[2 * m + j] == pairs[m][j]
    decreases m
  {
    ConcatLength(pairs);
    if m > 0 {
      ConcatPairAt(pairs[1..], m - 1, j);
      assert pairs[1..][m - 1] == pairs[m];
    }
  }

  /** Complete pairs whose bend edges have two vertices give a bend each. */
  lemma {:induction false} BendsSucceed(k: Kernel, ref: Shape, pairs: seq<seq<Option<Shape>>>)
    requires forall i :: 0 <= i < |pairs| ==> |pairs[i]| == 2
    requires forall i :: 0 <= i < |pairs| ==> pairs[i][0].Some? && pairs[i][1].Some? && |k.vertexesOf(pairs[i][0].value)| >= 2
    ensures Bends(k, ref, pairs).Ok?
    decreases |pairs|
  {
    if pairs != [] {
      BendsSucceed(k, pairs[0][1].value, pairs[1..]);
    }
  }

  /** With an odd number of elements after the reference face, the last pair is padded and the bends fail. */
  lemma OddTailMissing(k: Kernel, ref: Shape, faces: seq<Shape>)
    requires |faces| % 2 == 1
    ensures Bends(k, ref, Pairs(faces)).Err?
  {
    var pairs := Pairs(faces);
    GrouperChunks(2, Present(faces), None);
    var padded := Present(faces) + seq(|pairs| * 2 - |faces|, _ => None);
    assert |pairs| * 2 - |faces| == 1;
    assert padded[|padded| - 1] == None;
    LastPairPadded(pairs, padded);
    BendsFailAtLast(k, ref, pairs);
  }

  lemma LastPairPadded(pairs: seq<seq<Option<Shape>>>, padded: seq<Option<Shape>>)
    requires forall i :: 0 <= i < |pairs| ==> |pairs[i]| == 2
    requires Concat(pairs) == padded && padded != [] && padded[|padded| - 1] == None
    ensures pairs != [] && pairs[|pairs| - 1][1] == None
  {
    ConcatLength(pairs);
    assert pairs != [];
    ConcatAppend(pairs[..|pairs| - 1], [pairs[|pairs| - 1]]);
    assert pairs == pairs[..|pairs| - 1] + [pairs[|pairs| - 1]];
    assert Concat([pairs[|pairs| - 1]]) == pairs[|pairs| - 1] + Concat([pairs[|pairs| - 1]][1..]);
    assert [pairs[|pairs| - 1]][1..] == [];
  }

  lemma {:induction false} ConcatLength<T>(pairs: seq<seq<T>>)
    requires forall i :: 0 <= i < |pairs| ==> |pairs[i]| == 2
    ensures |Concat(pairs)| == 2 * |pairs|
  {
    if pairs != [] {
      ConcatLength(pairs[1..]);
    }
  }

  lemma {:induction false} BendsFailAtLast(k: Kernel, ref: Shape, pairs: seq<seq<Option<Shape>>>)
    requires forall i :: 0 <= i < |pairs| ==> |pairs[i]| == 2
    requires pairs != [] && pairs[|pairs| - 1][1] == None
    ensures Bends(k, ref, pairs).Err?
    decreases |pairs|
  {
    if |pairs| > 1 && pairs[0][0].Some? && pairs[0][1].Some? && CalculateBend(k, ref, pairs[0][0].value, pairs[0][1].value).Ok? {
      assert pairs[1..][|pairs[1..]| - 1] == pairs[|pairs| - 1];
      BendsFailAtLast(k, pairs[0][1].value, pairs[1..]);
    }
  }
}
