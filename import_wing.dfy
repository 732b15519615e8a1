/**
 * The airfoil import: after a header line, every non-blank line gives one
 * (x, y) point; the extents are folded with integer sentinels, the points
 * are scaled to a target chord length and translated, and consecutive
 * scaled points are chained into an open sequence of edges.
 */
module ImportWing {
  import opened Wrappers
  import opened Geometry

  /** Target chord length and the x coordinate of the profile plane. */
  const TargetLen: int := 260
  const Xcoord: real := 0.0
  /** The sentinels the extents start from (the C intmax_t bounds). */
  const IntMaxMin: int := -9223372036854775808
  const IntMaxMax: int := 9223372036854775807
  /** The denominator of the height factor, 27.34 + 11.99. */
  const HeightSpan: real := 27.34 + 11.99

  /** A line of the profile file, split into tokens already read as numbers. */
  type Line = seq<real>

  datatype Failure =
    | MissingY         // a line with a single token: the second index does not exist
    | ZeroWidth        // all x values are equal: the width divides by zero

  /** The lines after the header; an empty file has no header to discard. */
  function Body(lines: seq<Line>): seq<Line>
  {
    if lines == [] then [] else lines[1..]
  }

  /** The points of the body lines, in order; a blank line is skipped. */
  function Points(body: seq<Line>): (r: Result<seq<Vec2>, Failure>)
  {
    if body == [] then Ok([])
    else
      match Points(body[..|body| - 1])
      case Err(f) => Err(f)
      case Ok(ps) =>
        var line := body[|body| - 1];
        if |line| == 0 then Ok(ps)
        else if |line| == 1 then Err(MissingY)
        else Ok(ps + [Vec2(line[0], line[1])])
  }

  /** The points are the first two tokens of exactly the non-blank lines, in order. */
  lemma {:induction false} PointsFromLines(body: seq<Line>)
    ensures Points(body).Err? <==> exists i :: 0 <= i < |body| && |body[i]| == 1
    ensures Points(body).Ok? ==> Points(body).value == NonBlank(body)
    ensures Points(body).Err? ==> Points(body).error == MissingY
  {
    if body != [] {
      var pre := body[..|body| - 1];
      PointsFromLines(pre);
      assert forall i :: 0 <= i < |pre| ==> pre[i] == body[i];
      var line := body[|body| - 1];
      if Points(pre).Err? {
        var i :| 0 <= i < |pre| && |pre[i]| == 1;
        assert |body[i]| == 1;
      } else if |line| == 1 {
        assert |body[|body| - 1]| == 1;
      } else {
        assert forall i :: 0 <= i < |body| ==> |body[i]| != 1 by {
          forall i | 0 <= i < |body| ensures |body[i]| != 1 {
            if i < |pre| {
              assert body[i] == pre[i];
            }
          }
        }
      }
    }
  }

  /** The reference reading: one point per line with at least two tokens. */
  function NonBlank(body: seq<Line>): (ps: seq<Vec2>)
    ensures |ps| <= |body|
  {
    if body == [] then []
    else
      var line := body[|body| - 1];
      NonBlank(body[..|body| - 1]) + (if |line| >= 2 then [Vec2(line[0], line[1])] else [])
  }

  /** Points listed in order: x values and y values. */
  function MaxLen(ps: seq<Vec2>): (m: real)
    ensures m >= IntMaxMin as real
    ensures forall i :: 0 <= i < |ps| ==> ps[i].x <= m
    ensures m == IntMaxMin as real || exists i :: 0 <= i < |ps| && ps[i].x == m
  {
    if ps == [] then IntMaxMin as real
    else
      var m := MaxLen(ps[..|ps| - 1]);
      assert forall i :: 0 <= i < |ps| - 1 ==> ps[..|ps| - 1][i] == ps[i];
      if ps[|ps| - 1].x > m then ps[|ps| - 1].x else m
  }

  function MinLen(ps: seq<Vec2>): (m: real)
    ensures m <= IntMaxMax as real
    ensures forall i :: 0 <= i < |ps| ==> m <= ps[i].x
    ensures m == IntMaxMax as real || exists i :: 0 <= i < |ps| && ps[i].x == m
  {
    if ps == [] then IntMaxMax as real
    else
      var m := MinLen(ps[..|ps| - 1]);
      assert forall i :: 0 <= i < |ps| - 1 ==> ps[..|ps| - 1][i] == ps[i];
      if ps[|ps| - 1].x < m then ps[|ps| - 1].x else m
  }

  function MinHeight(ps: seq<Vec2>): (m: real)
    ensures m <= IntMaxMax as real
    ensures forall i :: 0 <= i < |ps| ==> m <= ps[i].y
    ensures m == IntMaxMax as real || exists i :: 0 <= i < |ps| && ps[i].y == m
  {
    if ps == [] then IntMaxMax as real
    else
      var m := MinHeight(ps[..|ps| - 1]);
      assert forall i :: 0 <= i < |ps| - 1 ==> ps[..|ps| - 1][i] == ps[i];
      if ps[|ps| - 1].y < m then ps[|ps| - 1].y else m
  }

  /** Coordinates that the sentinels bound. */
  predicate InRange(ps: seq<Vec2>) {
    forall i :: 0 <= i < |ps| ==>
      IntMaxMin as real <= ps[i].x <= IntMaxMax as real && ps[i].y <= IntMaxMax as real
  }

  /** With at least one point inside the sentinels, every extent is attained by a point. */
  lemma ExtentsAttained(ps: seq<Vec2>)
    requires ps != [] && InRange(ps)
    ensures exists i :: 0 <= i < |ps| && ps[i].x == MaxLen(ps)
    ensures exists i :: 0 <= i < |ps| && ps[i].x == MinLen(ps)
    ensures exists i :: 0 <= i < |ps| && ps[i].y == MinHeight(ps)
  {
    assert IntMaxMin as real <= ps[0].x <= MaxLen(ps);
    assert MinLen(ps) <= ps[0].x <= IntMaxMax as real;
    assert MinHeight(ps) <= ps[0].y <= IntMaxMax as real;
    if MaxLen(ps) == IntMaxMin as real {
      assert ps[0].x == MaxLen(ps);
    }
    if MinLen(ps) == IntMaxMax as real {
      assert ps[0].x == MinLen(ps);
    }
    if MinHeight(ps) == IntMaxMax as real {
      assert ps[0].y == MinHeight(ps);
    }
  }

  /** Python 2 division of two integers, rounding toward minus infinity. */
  function FloorDiv(a: int, b: int): (q: int)
    requires b != 0
    ensures b > 0 ==> q * b <= a < q * b + b
    ensures b < 0 ==> q * b >= a > q * b + b
  {
    if b > 0 then a / b else (-a) / (-b)
  }

  /** The width of the untouched sentinels divides the target length to -1, not 0. */
  lemma SentinelDivision()
    ensures FloorDiv(TargetLen, IntMaxMin - IntMaxMax) == -1
  {
    var b := IntMaxMax - IntMaxMin;
    assert -TargetLen == -1 * b + (b - TargetLen);
    assert 0 <= b - TargetLen < b;
  }


  /** Python 2 division of an integer by a float. */
  function TrueDiv(a: int, b: real): (q: real)
    requires b != 0.0
  {
    a as real / b
  }

  /**
   * The horizontal factor. Without points both extents are still the
   * integer sentinels, so the division is an integer one; with points it is a
   * real one, undefined when the width is zero.
   */
  function Factor(ps: seq<Vec2>): (r: Result<real, Failure>)
    ensures ps == [] ==> r == Ok(-1.0)
    ensures ps != [] ==> (r.Err? <==> MaxLen(ps) == MinLen(ps))
  {
    if ps == [] then
      SentinelDivision();
      Ok(FloorDiv(TargetLen, IntMaxMin - IntMaxMax) as real)
    else
      var width := MaxLen(ps) - MinLen(ps);
      if width == 0.0 then Err(ZeroWidth)
      else
        Ok(TrueDiv(TargetLen, width))
  }

  /** The vertical factor: the horizontal one times 35 / (27.34 + 11.99). */
  function HFactor(factor: real): (h: real)
    ensures h * HeightSpan == factor * 35.0
  {
    factor * 35.0 / HeightSpan
  }

  /** The scaled point: x and y scaled, then the UNSCALED minima subtracted. */
  function ScalePoint(p: Vec2, factor: real, minlen: real, minheight: real): (q: Vec3)
    ensures q.x == Xcoord
    ensures q.y + minlen == p.x * factor
    ensures q.z + minheight == p.y * HFactor(factor)
  {
    Vec3(Xcoord, p.x * factor - minlen, p.y * HFactor(factor) - minheight)
  }

  /** Scale every point, in order. */
  method ScalePoints(ps: seq<Vec2>, factor: real, minlen: real, minheight: real) returns (scaled: seq<Vec3>)
    ensures |scaled| == |ps|
    ensures forall i :: 0 <= i < |ps| ==> scaled[i] == ScalePoint(ps[i], factor, minlen, minheight)
  {
    scaled := [];
    for i := 0 to |ps|
      invariant |scaled| == i
      invariant forall k :: 0 <= k < i ==> scaled[k] == ScalePoint(ps[k], factor, minlen, minheight)
    {
      scaled := scaled + [ScalePoint(ps[i], factor, minlen, minheight)];
    }
  }

  /** Join every point to the previous one: an open chain, not closed. */
  method ChainEdges(vs: seq<Vec3>) returns (edges: seq<Segment>)
    ensures |edges| == if vs == [] then 0 else |vs| - 1
    ensures forall i :: 0 <= i < |edges| ==> edges[i] == (vs[i], vs[i + 1])
  {
    edges := [];
    var lastv: Option<Vec3> := None;
    for i := 0 to |vs|
      invariant lastv == if i == 0 then None else Some(vs[i - 1])
      invariant |edges| == if i == 0 then 0 else i - 1
      invariant forall k :: 0 <= k < |edges| ==> edges[k] == (vs[k], vs[k + 1])
    {
      var vert := vs[i];
      if lastv.Some? {
        edges := edges + [(lastv.value, vert)];
      }
      lastv := Some(vert);
    }
  }

  /** The result of the import: the points, the two factors, the scaled points and the edges. */
  datatype Wing = Wing(points: seq<Vec2>, factor: real, hfactor: real, scaled: seq<Vec3>, edges: seq<Segment>)

  /** Read the points and fold the extents, line by line. */
  method ReadPoints(lines: seq<Line>) returns (r: Result<seq<Vec2>, Failure>, maxlen: real, minlen: real, minheight: real)
    ensures r == Points(Body(lines))
    ensures r.Ok? ==> maxlen == MaxLen(r.value) && minlen == MinLen(r.value) && minheight == MinHeight(r.value)
  {
    var body := Body(lines);
    var points: seq<Vec2> := [];
    maxlen, minlen, minheight := IntMaxMin as real, IntMaxMax as real, IntMaxMax as real;
    for i := 0 to |body|
      invariant Points(body[..i]) == Ok(points)
      invariant maxlen == MaxLen(points) && minlen == MinLen(points) && minheight == MinHeight(points)
    {
      assert body[..i + 1][..i] == body[..i];
      var nums := body[i];
      if |nums| > 0 {
        if |nums| < 2 {
          assert Points(body[..i + 1]) == Err(MissingY);
          PointsStaysErr(body, i + 1);
          return Err(MissingY), maxlen, minlen, minheight;
        }
        var pa := nums[0];
        var pb := nums[1];
        points := points + [Vec2(pa, pb)];
        if pa > maxlen {
          maxlen := pa;
        }
        if pa < minlen {
          minlen := pa;
        }
        if pb < minheight {
          minheight := pb;
        }
      }
    }
    assert body[..|body|] == body;
    return Ok(points), maxlen, minlen, minheight;
  }

  /** Once a prefix fails, the whole body fails the same way. */
  lemma {:induction false} PointsStaysErr(body: seq<Line>, n: nat)
    requires n <= |body| && Points(body[..n]).Err?
    ensures Points(body) == Points(body[..n])
    decreases |body| - n
  {
    if n < |body| {
      assert body[..n + 1][..n] == body[..n];
      PointsStaysErr(body, n + 1);
    } else {
      assert body[..n] == body;
    }
  }

  /** The whole import over the lines of the file. */
  function Import(lines: seq<Line>): (r: Result<Wing, Failure>)
  {
    match Points(Body(lines))
    case Err(f) => Err(f)
    case Ok(ps) =>
      match Factor(ps)
      case Err(f) => Err(f)
      case Ok(factor) =>
        var scaled := Scaled(ps, factor, MinLen(ps), MinHeight(ps));
        Ok(Wing(ps, factor, HFactor(factor), scaled, Chain(scaled)))
  }

  function Scaled(ps: seq<Vec2>, factor: real, minlen: real, minheight: real): seq<Vec3> {
    seq(|ps|, i requires 0 <= i < |ps| => ScalePoint(ps[i], factor, minlen, minheight))
  }

  function Chain(vs: seq<Vec3>): seq<Segment> {
    seq(if vs == [] then 0 else |vs| - 1, i requires 0 <= i < |vs| - 1 => (vs[i], vs[i + 1]))
  }

  /** The horizontal factor from the folded extents. */
  method ScaleFactor(points: seq<Vec2>, maxlen: real, minlen: real) returns (r: Result<real, Failure>)
    requires maxlen == MaxLen(points) && minlen == MinLen(points)
    ensures r == Factor(points)
  {
    if points == [] {
      return Ok(FloorDiv(TargetLen, IntMaxMin - IntMaxMax) as real);
    } else if maxlen - minlen == 0.0 {
      return Err(ZeroWidth);
    } else {
      return Ok(TrueDiv(TargetLen, maxlen - minlen));
    }
  }

  /** The script: read, scale and translate, chain. */
  method ImportProfile(lines: seq<Line>) returns (r: Result<Wing, Failure>)
    ensures r == Import(lines)
  {
    var read, maxlen, minlen, minheight := ReadPoints(lines);
    if read.Err? {
      return Err(read.error);
    }
    var points := read.value;
    var f := ScaleFactor(points, maxlen, minlen);
    if f.Err? {
      return Err(f.error);
    }
    var factor := f.value;
    var hfactor := HFactor(factor);
    var scaled := ScalePoints(points, factor, minlen, minheight);
    assert scaled == Scaled(points, factor, minlen, minheight);
    var edges := ChainEdges(scaled);
    assert edges == Chain(scaled);
    return Ok(Wing(points, factor, hfactor, scaled, edges));
  }

  /**
   * The scaling puts the extreme x values exactly the target length apart
   * (the macro's aim: a chord of 260).
   */
  lemma ChordScaled(ps: seq<Vec2>)
    requires ps != [] && InRange(ps) && Factor(ps).Ok?
    ensures exists i, j :: 0 <= i < |ps| && 0 <= j < |ps| &&
              ScalePoint(ps[i], Factor(ps).value, MinLen(ps), MinHeight(ps)).y
              - ScalePoint(ps[j], Factor(ps).value, MinLen(ps), MinHeight(ps)).y == TargetLen as real
  {
    ExtentsAttained(ps);
    var i :| 0 <= i < |ps| && ps[i].x == MaxLen(ps);
    var j :| 0 <= j < |ps| && ps[j].x == MinLen(ps);
    ExtremesSpan(ps, i, j);
  }

  lemma ExtremesSpan(ps: seq<Vec2>, i: nat, j: nat)
    requires ps != [] && Factor(ps).Ok?
    requires i < |ps| && j < |ps| && ps[i].x == MaxLen(ps) && ps[j].x == MinLen(ps)
    ensures ScalePoint(ps[i], Factor(ps).value, MinLen(ps), MinHeight(ps)).y
            - ScalePoint(ps[j], Factor(ps).value, MinLen(ps), MinHeight(ps)).y == TargetLen as real
  {
    var f := Factor(ps).value;
    assert f == TrueDiv(TargetLen, ps[i].x - ps[j].x);
    PointsSpan(ps[i], ps[j], f, MinLen(ps), MinHeight(ps));
  }

  /** Two points whose x values set the factor end up the target length apart. */
  lemma PointsSpan(p: Vec2, q: Vec2, f: real, minlen: real, minheight: real)
    requires p.x != q.x && f == TrueDiv(TargetLen, p.x - q.x)
    ensures ScalePoint(p, f, minlen, minheight).y - ScalePoint(q, f, minlen, minheight).y == TargetLen as real
  {
    assert ScalePoint(p, f, minlen, minheight).y - ScalePoint(q, f, minlen, minheight).y == (p.x - q.x) * f;
  }

  /**
   * What the import promises: the header is dropped, one point per non-blank
   * line, every point scaled, one edge fewer than points, each joining
   * consecutive scaled points.
   */
  lemma ImportShape(lines: seq<Line>)
    requires Import(lines).Ok?
    ensures Import(lines).value.points == NonBlank(Body(lines))
    ensures |Import(lines).value.scaled| == |Import(lines).value.points|
    ensures |Import(lines).value.edges| == if Import(lines).value.points == [] then 0 else |Import(lines).value.points| - 1
    ensures forall i :: 0 <= i < |Import(lines).value.edges| ==>
              Import(lines).value.edges[i] == (Import(lines).value.scaled[i], Import(lines).value.scaled[i + 1])
  {
    PointsFromLines(Body(lines));
  }

  /** A single-token line anywhere after the header makes the import fail. */
  lemma SingleTokenFails(lines: seq<Line>, i: nat)
    requires 1 <= i < |lines| && |lines[i]| == 1
    ensures Import(lines) == Err(MissingY)
  {
    PointsFromLines(Body(lines));
    assert |Body(lines)[i - 1]| == 1;
  }
}
