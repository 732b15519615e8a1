/**
 * The older G-code macro for sketches: the selection is a list of element
 * names ("Vertex<n>", "Edge<n>", anything else), an optional leading vertex
 * gives a first move, and each edge that joins the one before it writes one
 * G01 (line) or G02 (circle) at a constant depth. After the loop a last G01
 * goes to the far end of the last joined edge.
 */
module SketchLinesToGCode {
  import opened Wrappers
  import opened Geometry
  import opened GCode
  import LinesToGCode

  /** The constant cutting depth of every move. */
  const Zval: real := -3.0

  /** A piece of sketch geometry: its start and end points and its curve. */
  datatype SketchEdge = SketchEdge(start: Vec3, end: Vec3, curve: Curve)

  // ---------------------------------------------------------------------------
  // element names
  // ---------------------------------------------------------------------------

  predicate IsDigit(ch: char) {
    '0' <= ch <= '9'
  }

  predicate AllDigits(s: string) {
    forall i :: 0 <= i < |s| ==> IsDigit(s[i])
  }

  /** The number a string of decimal digits denotes. */
  function DigitsValue(s: string): nat
    requires AllDigits(s)
  {
    if s == [] then 0 else 10 * DigitsValue(s[..|s| - 1]) + (s[|s| - 1] as int - '0' as int)
  }

  /** Python's int() on the suffix of an element name: a number, or None where int() raises. */
  function ParseIndex(s: string): (r: Option<nat>)
    ensures r.Some? <==> s != [] && AllDigits(s)
  {
    if s != [] && AllDigits(s) then Some(DigitsValue(s)) else None
  }

  /** The decimal digits of n, as the application writes them in element names. */
  function Decimal(n: nat): (s: string)
    ensures s != [] && AllDigits(s)
  {
    if n < 10 then [('0' as int + n) as char]
    else Decimal(n / 10) + [('0' as int + n % 10) as char]
  }

  /** Reading back the digits of n gives n. */
  lemma {:induction false} ParseDecimal(n: nat)
    ensures ParseIndex(Decimal(n)) == Some(n)
  {
    if n < 10 {
      assert Decimal(n)[..0] == [];
    } else {
      ParseDecimal(n / 10);
      var s := Decimal(n);
      assert s[..|s| - 1] == Decimal(n / 10);
      assert s[|s| - 1] as int - '0' as int == n % 10;
      assert DigitsValue(s) == 10 * (n / 10) + n % 10;
    }
  }

  predicate HasPrefix(name: string, prefix: string) {
    |prefix| <= |name| && name[..|prefix|] == prefix
  }

  function EdgeName(n: nat): string {
    "Edge" + Decimal(n)
  }

  /** The name of the n-th edge is an edge name whose suffix parses back to n, and not a vertex name. */
  lemma EdgeNameIndex(n: nat)
    ensures HasPrefix(EdgeName(n), "Edge") && ParseIndex(EdgeName(n)[4..]) == Some(n)
    ensures !HasPrefix(EdgeName(n), "Vertex")
  {
    assert EdgeName(n)[4..] == Decimal(n);
    ParseDecimal(n);
    assert EdgeName(n)[0] == 'E';
  }

  // ---------------------------------------------------------------------------
  // one edge
  // ---------------------------------------------------------------------------

  /**
   * The target and the current vertex of an edge that follows `last`: the
   * start point is the target if it is an end point of `last`, else the end
   * point is; None if neither is.
   */
  function Direction(e: SketchEdge, last: SketchEdge): (r: Option<(Vec3, Vec3)>)
    ensures r.None? <==> e.start !in [last.start, last.end] && e.end !in [last.start, last.end]
    ensures r.Some? ==> r.value.0 in [last.start, last.end]
    ensures r.Some? ==> r.value == (e.start, e.end) || r.value == (e.end, e.start)
    ensures e.start in [last.start, last.end] ==> r == Some((e.start, e.end))
  {
    var lastVerts := [last.start, last.end];
    if e.start in lastVerts then Some((e.start, e.end))
    else if e.end in lastVerts then Some((e.end, e.start))
    else None
  }

  /**
   * The line written for an edge from `cur` to the target `next`: a G01 for a
   * line, a G02 for a circle with the offsets from the circle's centre to
   * `cur`, both to the rounded target at depth Zval; nothing for other curves.
   */
  function Emit(round3: real -> real, e: SketchEdge, cur: Vec3, next: Vec3): (r: seq<Command>)
    ensures Motions(r) == |r| == if e.curve.OtherCurve? then 0 else 1
    ensures r != [] ==>
      && (r[0].MoveXYZ? || r[0].ArcXYZ?)
      && r[0].x == round3(next.x) && r[0].y == round3(next.y) && r[0].z == Zval
    ensures e.curve.Line? ==> r[0].MoveXYZ?
    ensures e.curve.Circle? ==>
      && r[0].ArcXYZ?
      && r[0].i == round3(cur.x - e.curve.center.x) && r[0].j == round3(cur.y - e.curve.center.y)
  {
    match e.curve
    case Line => [MoveXYZ(round3(next.x), round3(next.y), Zval)]
    case Circle(cen) => [ArcXYZ(round3(next.x), round3(next.y), Zval, round3(cur.x - cen.x), round3(cur.y - cen.y))]
    case OtherCurve => []
  }

  /**
   * The arc offsets have the opposite sign to the newer macro's for the same
   * arc, wherever rounding is symmetric about zero.
   */
  lemma ArcOffsetsOpposite(c: LinesToGCode.Config, round3: real -> real, e: SketchEdge,
                           f: LinesToGCode.Edge, cur: Vec3, next: Vec3)
    requires e.curve.Circle? && f.curve == e.curve
    requires var cen := e.curve.center;
      round3(cen.x - cur.x) == -round3(cur.x - cen.x) && round3(cen.y - cur.y) == -round3(cur.y - cen.y)
    ensures var mine := Emit(round3, e, cur, next); var theirs := LinesToGCode.Feed(c, round3, f, cur, next);
      && theirs.Ok? && |mine| == |theirs.value| == 1 && mine[0].ArcXYZ? && theirs.value[0].ArcXY?
      && mine[0].i == -theirs.value[0].i && mine[0].j == -theirs.value[0].j
  {
  }

  // ---------------------------------------------------------------------------
  // the loop over the names
  // ---------------------------------------------------------------------------

  /** The loop variables: the last edge (with its end points as lastVerts) and currentVert, once bound. */
  datatype State = State(lastEdge: Option<SketchEdge>, current: Option<Vec3>)

  const Init := State(None, None)

  /** currentVert, once bound, is an end point of the last edge. */
  predicate Inv(st: State) {
    st.current.Some? ==> st.lastEdge.Some? && st.current.value in [st.lastEdge.value.start, st.lastEdge.value.end]
  }

  /** The lines written for one name, the next state, and whether the loop ends here. */
  datatype Outcome = Outcome(cmds: seq<Command>, next: State, stop: bool)

  /** One pass of the loop body. */
  function Step(round3: real -> real, geometry: seq<SketchEdge>, st: State, name: string): (o: Outcome)
    ensures Inv(st) ==> Inv(o.next)
    ensures !HasPrefix(name, "Edge") ==> o == Outcome([Skipping(name)], st, false)
    ensures o.stop ==> o.next == st
    ensures !o.stop ==> !EndsInTraceback(o.cmds)
    ensures st.lastEdge.None? && HasPrefix(name, "Edge") && !o.stop ==> o.cmds == [] && o.next.current == st.current
  {
    if !HasPrefix(name, "Edge") then Outcome([Skipping(name)], st, false)
    else match ParseIndex(name[4..])
      case None => Outcome([Traceback(BadIndex)], st, true)
      case Some(n) =>
        if n >= |geometry| then Outcome([Traceback(IndexOutOfRange)], st, true)
        else
          var e := geometry[n];
          match st.lastEdge
          case None => Outcome([], State(Some(e), st.current), false)
          case Some(last) =>
            match Direction(e, last)
            case None => Outcome([NotJoined([e.start, e.end], [last.start, last.end])], st, true)
            case Some((next, cur)) => Outcome(Emit(round3, e, cur, next), State(Some(e), Some(cur)), false)
  }

  /**
   * An edge name after an earlier edge: the loop breaks iff the edge does not
   * join; otherwise its line goes to the rounded end it shares with the last
   * edge, at depth Zval, and currentVert becomes its other end.
   */
  lemma JoinedEdgeLine(round3: real -> real, geometry: seq<SketchEdge>, st: State, n: nat)
    requires st.lastEdge.Some? && n < |geometry|
    ensures var o := Step(round3, geometry, st, EdgeName(n));
      var e := geometry[n];
      var last := st.lastEdge.value;
      && (o.stop <==> Direction(e, last).None?)
      && (!o.stop ==>
            var shared := Direction(e, last).value.0;
            && shared in [e.start, e.end] && shared in [last.start, last.end]
            && o.next == State(Some(e), Some(Direction(e, last).value.1))
            && {shared, o.next.current.value} == {e.start, e.end}
            && |o.cmds| == (if e.curve.OtherCurve? then 0 else 1)
            && (o.cmds != [] ==> o.cmds[0].x == round3(shared.x) && o.cmds[0].y == round3(shared.y) && o.cmds[0].z == Zval))
  {
    EdgeNameIndex(n);
  }

  /** The lines the loop writes over the names, and the loop variables after it. */
  function Run(round3: real -> real, geometry: seq<SketchEdge>, st: State, names: seq<string>): (r: (seq<Command>, State))
    ensures Inv(st) ==> Inv(r.1)
    decreases |names|, 1
  {
    if names == [] then ([], st) else RunFrom(round3, geometry, st, names)
  }

  /** The loop from the first of the remaining names on. */
  function RunFrom(round3: real -> real, geometry: seq<SketchEdge>, st: State, names: seq<string>): (r: (seq<Command>, State))
    requires names != []
    ensures Inv(st) ==> Inv(r.1)
    decreases |names|, 0
  {
    var o := Step(round3, geometry, st, names[0]);
    if o.stop then (o.cmds, o.next)
    else
      var r := Run(round3, geometry, o.next, names[1..]);
      (o.cmds + r.0, r.1)
  }

  /** The first move to a selected start vertex, None when the first name is not a vertex. */
  function StartMove(round3: real -> real, name: string, vertexes: seq<Vec3>): Result<Option<Command>, Failure> {
    if !HasPrefix(name, "Vertex") then Ok(None)
    else match ParseIndex(name[6..])
      case None => Err(BadIndex)
      case Some(n) =>
        if n >= |vertexes| then Err(IndexOutOfRange)
        else Ok(Some(MoveXYZ(round3(vertexes[n].x), round3(vertexes[n].y), Zval)))
  }

  /** The line after the loop: a move to currentVert, or the exception when it was never bound. */
  function Final(round3: real -> real, body: seq<Command>, st: State): seq<Command> {
    if EndsInTraceback(body) then []
    else match st.current
      case None => [Traceback(UnboundVertex)]
      case Some(v) => [MoveXYZ(round3(v.x), round3(v.y), Zval)]
  }

  /** The whole console output of the macro. */
  function Program(round3: real -> real, names: seq<string>, vertexes: seq<Vec3>, geometry: seq<SketchEdge>): seq<Command> {
    [Starting] +
    if names == [] then [Traceback(NoNames)]
    else match StartMove(round3, names[0], vertexes)
      case Err(f) => [Traceback(f)]
      case Ok(move) =>
        var rest := if move.Some? then names[1..] else names;
        var r := Run(round3, geometry, Init, rest);
        (if move.Some? then [move.value] else []) + r.0 + Final(round3, r.0, r.1)
  }

  // ---------------------------------------------------------------------------
  // the macro
  // ---------------------------------------------------------------------------

  lemma RunStep(round3: real -> real, geometry: seq<SketchEdge>, st: State, names: seq<string>, i: nat)
    requires i < |names|
    ensures var o := Step(round3, geometry, st, names[i]);
      Run(round3, geometry, st, names[i..])
        == if o.stop then (o.cmds, o.next)
           else (o.cmds + Run(round3, geometry, o.next, names[i + 1..]).0, Run(round3, geometry, o.next, names[i + 1..]).1)
  {
    assert names[i..][1..] == names[i + 1..];
    assert Run(round3, geometry, st, names[i..]) == RunFrom(round3, geometry, st, names[i..]);
  }

  // ---------------------------------------------------------------------------
  // what the loop writes
  // ---------------------------------------------------------------------------

  /** The names that start with "Edge", in order. */
  function EdgeNamesOnly(names: seq<string>): (r: seq<string>)
    ensures |r| <= |names|
  {
    if names == [] then []
    else (if HasPrefix(names[0], "Edge") then [names[0]] else []) + EdgeNamesOnly(names[1..])
  }

  /** The lines other than the "skipping" notices, in order. */
  function NoSkips(cs: seq<Command>): (r: seq<Command>)
    ensures |r| <= |cs|
  {
    if cs == [] then []
    else (if cs[0].Skipping? then [] else [cs[0]]) + NoSkips(cs[1..])
  }

  lemma {:induction false} NoSkipsAppend(a: seq<Command>, b: seq<Command>)
    ensures NoSkips(a + b) == NoSkips(a) + NoSkips(b)
  {
    if a != [] {
      assert (a + b)[1..] == a[1..] + b;
      NoSkipsAppend(a[1..], b);
    } else {
      assert a + b == b;
    }
  }

  lemma {:induction false} NoSkipsNone(cs: seq<Command>)
    requires forall k :: 0 <= k < |cs| ==> !cs[k].Skipping?
    ensures NoSkips(cs) == cs
  {
    if cs != [] {
      NoSkipsNone(cs[1..]);
    }
  }

  /**
   * Names that are not edge names only add their notice: the loop over the
   * edge names alone writes the same lines less the notices and ends in the
   * same state.
   */
  lemma {:induction false} SkipsIrrelevant(round3: real -> real, geometry: seq<SketchEdge>, st: State, names: seq<string>)
    ensures var r := Run(round3, geometry, st, names);
      Run(round3, geometry, st, EdgeNamesOnly(names)) == (NoSkips(r.0), r.1)
    decreases |names|
  {
    if names != [] {
      var o := Step(round3, geometry, st, names[0]);
      RunStep(round3, geometry, st, names, 0);
      assert names[0..] == names;
      var rest := Run(round3, geometry, o.next, names[1..]);
      if !HasPrefix(names[0], "Edge") {
        SkipsIrrelevant(round3, geometry, st, names[1..]);
        NoSkipsAppend([Skipping(names[0])], rest.0);
        assert [Skipping(names[0])][1..] == [];
        assert NoSkips([Skipping(names[0])]) == [];
        assert EdgeNamesOnly(names) == [] + EdgeNamesOnly(names[1..]) == EdgeNamesOnly(names[1..]);
        assert o == Outcome([Skipping(names[0])], st, false);
        assert Run(round3, geometry, st, names) == ([Skipping(names[0])] + rest.0, rest.1);
        assert NoSkips([Skipping(names[0])] + rest.0) == NoSkips(rest.0);
      } else {
        var filtered := EdgeNamesOnly(names);
        assert filtered == [names[0]] + EdgeNamesOnly(names[1..]);
        RunStep(round3, geometry, st, filtered, 0);
        assert filtered[0..] == filtered && filtered[1..] == EdgeNamesOnly(names[1..]);
        NoSkipsNone(o.cmds);
        if o.stop {
          assert o.cmds + [] == o.cmds;
        } else {
          SkipsIrrelevant(round3, geometry, o.next, names[1..]);
          NoSkipsAppend(o.cmds, rest.0);
        }
      }
    }
  }

  /** The names of the given geometry indices. */
  function Names(idx: seq<nat>): (r: seq<string>)
    ensures |r| == |idx|
  {
    if idx == [] then [] else [EdgeName(idx[0])] + Names(idx[1..])
  }

  /** Each index is in range and each edge joins the one before it (the first joins p). */
  predicate ChainedFrom(geometry: seq<SketchEdge>, p: SketchEdge, idx: seq<nat>) {
    && (forall k :: 0 <= k < |idx| ==> idx[k] < |geometry|)
    && (idx != [] ==> Direction(geometry[idx[0]], p).Some?)
    && (forall k :: 1 <= k < |idx| ==> Direction(geometry[idx[k]], geometry[idx[k - 1]]).Some?)
  }

  /** The number of the edges that are lines or circles. */
  function Curves(geometry: seq<SketchEdge>, idx: seq<nat>): (n: nat)
    requires forall k :: 0 <= k < |idx| ==> idx[k] < |geometry|
    ensures n <= |idx|
  {
    if idx == [] then 0 else (if geometry[idx[0]].curve.OtherCurve? then 0 else 1) + Curves(geometry, idx[1..])
  }

  /**
   * Over a chain of joined edges the loop writes one motion line per line or
   * circle, never raises, and ends with the last edge and, as currentVert,
   * its end point away from the edge before it.
   */
  lemma {:induction false} ChainRun(round3: real -> real, geometry: seq<SketchEdge>, p: SketchEdge, cur: Option<Vec3>, idx: seq<nat>)
    requires ChainedFrom(geometry, p, idx)
    ensures var r := Run(round3, geometry, State(Some(p), cur), Names(idx));
      && Motions(r.0) == Curves(geometry, idx)
      && !EndsInTraceback(r.0)
      && r.1 == if idx == [] then State(Some(p), cur)
                else
                  var last := geometry[idx[|idx| - 1]];
                  var prev := if |idx| == 1 then p else geometry[idx[|idx| - 2]];
                  State(Some(last), Some(Direction(last, prev).value.1))
    decreases |idx|
  {
    if idx != [] {
      var st := State(Some(p), cur);
      var names := Names(idx);
      var e := geometry[idx[0]];
      EdgeNameIndex(idx[0]);
      RunStep(round3, geometry, st, names, 0);
      assert names[0..] == names && names[1..] == Names(idx[1..]);
      var o := Step(round3, geometry, st, names[0]);
      assert o == Outcome(Emit(round3, e, Direction(e, p).value.1, Direction(e, p).value.0), State(Some(e), Some(Direction(e, p).value.1)), false);
      assert forall k :: 0 <= k < |idx[1..]| ==> idx[1..][k] == idx[k + 1];
      ChainRun(round3, geometry, e, o.next.current, idx[1..]);
      var rest := Run(round3, geometry, o.next, names[1..]);
      MotionsAppend(o.cmds, rest.0);
      NoTracebackAppend(o.cmds, rest.0);
    }
  }

  /**
   * A selection of edge names whose edges form a chain: the first edge only
   * sets the start, every later line or circle writes one motion line, and
   * the last line moves to the far end of the last edge. A single edge never
   * binds currentVert, so the macro raises after the loop.
   */
  lemma EdgeChainProgram(round3: real -> real, vertexes: seq<Vec3>, geometry: seq<SketchEdge>, idx: seq<nat>)
    requires idx != [] && idx[0] < |geometry| && ChainedFrom(geometry, geometry[idx[0]], idx[1..])
    ensures var out := Program(round3, Names(idx), vertexes, geometry);
      if |idx| == 1 then out == [Starting, Traceback(UnboundVertex)]
      else
        var last := geometry[idx[|idx| - 1]];
        var v := Direction(last, geometry[idx[|idx| - 2]]).value.1;
        && Motions(out) == Curves(geometry, idx[1..]) + 1
        && out[|out| - 1] == MoveXYZ(round3(v.x), round3(v.y), Zval)
  {
    var e0 := geometry[idx[0]];
    var s1 := State(Some(e0), None);
    FirstEdgeSilent(round3, vertexes, geometry, idx);
    ChainRun(round3, geometry, e0, None, idx[1..]);
    var r := Run(round3, geometry, s1, Names(idx[1..]));
    if |idx| > 1 {
      assert idx[1..][|idx[1..]| - 1] == idx[|idx| - 1];
      assert |idx[1..]| == 1 || idx[1..][|idx[1..]| - 2] == idx[|idx| - 2];
      MotionsAppend([Starting] + r.0, Final(round3, r.0, r.1));
      MotionsAppend([Starting], r.0);
      assert [Starting][..0] == [];
    }
  }

  /** A selection that starts with an edge name: no start move, and the first edge writes nothing. */
  lemma FirstEdgeSilent(round3: real -> real, vertexes: seq<Vec3>, geometry: seq<SketchEdge>, idx: seq<nat>)
    requires idx != [] && idx[0] < |geometry|
    ensures var r := Run(round3, geometry, State(Some(geometry[idx[0]]), None), Names(idx[1..]));
      Program(round3, Names(idx), vertexes, geometry) == [Starting] + r.0 + Final(round3, r.0, r.1)
  {
    var names := Names(idx);
    var e0 := geometry[idx[0]];
    EdgeNameIndex(idx[0]);
    assert names[0] == EdgeName(idx[0]);
    RunStep(round3, geometry, Init, names, 0);
    assert names[0..] == names && names[1..] == Names(idx[1..]);
    var s1 := State(Some(e0), None);
    assert Step(round3, geometry, Init, names[0]) == Outcome([], s1, false);
    var r := Run(round3, geometry, s1, Names(idx[1..]));
    assert Run(round3, geometry, Init, names) == ([] + r.0, r.1);
    assert [] + r.0 == r.0;
  }

  /**
   * The loop body for one name, given the loop variables lastEdge, lastVerts
   * and currentVert: the lines it writes, the new variables and whether the
   * loop ends (by break or by an exception).
   */
  method VisitName(round3: real -> real, geometry: seq<SketchEdge>, lastEdge: Option<SketchEdge>, lastVerts: seq<Vec3>,
                   currentVert: Option<Vec3>, edgeNames: seq<string>, i: nat) returns (o: Outcome)
    requires i < |edgeNames|
    requires lastVerts == if lastEdge.Some? then [lastEdge.value.start, lastEdge.value.end] else []
    ensures o.stop ==> o.next == State(lastEdge, currentVert)
    ensures !o.stop ==> !EndsInTraceback(o.cmds)
    ensures var st := State(lastEdge, currentVert);
      Run(round3, geometry, st, edgeNames[i..])
        == if o.stop then (o.cmds, o.next)
           else (o.cmds + Run(round3, geometry, o.next, edgeNames[i + 1..]).0, Run(round3, geometry, o.next, edgeNames[i + 1..]).1)
  {
    var st := State(lastEdge, currentVert);
    RunStep(round3, geometry, st, edgeNames, i);
    var edgeName := edgeNames[i];
    if !HasPrefix(edgeName, "Edge") {
      return Outcome([Skipping(edgeName)], st, false);
    }
    var idx := ParseIndex(edgeName[4..]);
    if idx.None? {
      return Outcome([Traceback(BadIndex)], st, true);
    }
    if idx.value >= |geometry| {
      return Outcome([Traceback(IndexOutOfRange)], st, true);
    }
    var edge := geometry[idx.value];
    var lines: seq<Command> := [];
    var cur := currentVert;
    if lastEdge.Some? {
      var nextVert, c;
      if edge.start in lastVerts {
        nextVert := edge.start;
        c := edge.end;
      } else if edge.end in lastVerts {
        nextVert := edge.end;
        c := edge.start;
      } else {
        return Outcome([NotJoined([edge.start, edge.end], lastVerts)], st, true);
      }
      cur := Some(c);
      var x := round3(nextVert.x);
      var y := round3(nextVert.y);
      if edge.curve.Line? {
        lines := [MoveXYZ(x, y, Zval)];
      } else if edge.curve.Circle? {
        var cen := edge.curve.center;
        lines := [ArcXYZ(x, y, Zval, round3(c.x - cen.x), round3(c.y - cen.y))];
      }
    }
    return Outcome(lines, State(Some(edge), cur), false);
  }

  /** The whole output once the loop has run: the start move, the loop's lines, the last line. */
  lemma ProgramParts(round3: real -> real, names: seq<string>, vertexes: seq<Vec3>, geometry: seq<SketchEdge>,
                     pre: seq<Command>, rest: seq<string>)
    requires names != [] && StartMove(round3, names[0], vertexes).Ok?
    requires var move := StartMove(round3, names[0], vertexes).value;
      pre == [Starting] + (if move.Some? then [move.value] else []) && rest == if move.Some? then names[1..] else names
    ensures var r := Run(round3, geometry, Init, rest);
      Program(round3, names, vertexes, geometry) == pre + r.0 + Final(round3, r.0, r.1)
  {
  }

  /**
   * The loop over the edge names: the lines it writes and the loop
   * variables lastEdge and currentVert after it.
   */
  method Loop(round3: real -> real, geometry: seq<SketchEdge>, edgeNames: seq<string>)
    returns (out: seq<Command>, lastEdge: Option<SketchEdge>, currentVert: Option<Vec3>)
    ensures Run(round3, geometry, Init, edgeNames) == (out, State(lastEdge, currentVert))
  {
    ghost var all := Run(round3, geometry, Init, edgeNames);
    out := [];
    lastEdge := None;
    var lastVerts: seq<Vec3> := [];
    currentVert := None;
    var i := 0;
    while i < |edgeNames|
      invariant 0 <= i <= |edgeNames|
      invariant lastVerts == if lastEdge.Some? then [lastEdge.value.start, lastEdge.value.end] else []
      invariant var r := Run(round3, geometry, State(lastEdge, currentVert), edgeNames[i..]);
        out + r.0 == all.0 && r.1 == all.1
    {
      var o := VisitName(round3, geometry, lastEdge, lastVerts, currentVert, edgeNames, i);
      if o.stop {
        out := out + o.cmds;
        return;
      }
      ghost var rest := Run(round3, geometry, o.next, edgeNames[i + 1..]);
      assert out + (o.cmds + rest.0) == (out + o.cmds) + rest.0;
      out := out + o.cmds;
      lastEdge := o.next.lastEdge;
      currentVert := o.next.current;
      lastVerts := if lastEdge.Some? then [lastEdge.value.start, lastEdge.value.end] else [];
      assert State(lastEdge, currentVert) == o.next;
      i := i + 1;
    }
    assert edgeNames[i..] == [];
    assert out + [] == out;
  }

  /** The macro: the console output for the selected names of a sketch with the given vertices and geometry. */
  method Convert(round3: real -> real, names: seq<string>, vertexes: seq<Vec3>, geometry: seq<SketchEdge>)
    returns (out: seq<Command>)
    ensures out == Program(round3, names, vertexes, geometry)
  {
    out := [Starting];
    if |names| == 0 {
      out := out + [Traceback(NoNames)];
      return;
    }
    var edgeNames := names;
    var startName := names[0];
    if HasPrefix(startName, "Vertex") {
      var idx := ParseIndex(startName[6..]);
      if idx.None? {
        out := out + [Traceback(BadIndex)];
        return;
      }
      if idx.value >= |vertexes| {
        out := out + [Traceback(IndexOutOfRange)];
        return;
      }
      var nextVert := vertexes[idx.value];
      out := out + [MoveXYZ(round3(nextVert.x), round3(nextVert.y), Zval)];
      edgeNames := edgeNames[1..];
    }
    ProgramParts(round3, names, vertexes, geometry, out, edgeNames);
    var body, lastEdge, currentVert := Loop(round3, geometry, edgeNames);
    out := out + body;
    if EndsInTraceback(body) {
      return;
    }
    if currentVert.None? {
      out := out + [Traceback(UnboundVertex)];
    } else {
      var v := currentVert.value;
      out := out + [MoveXYZ(round3(v.x), round3(v.y), Zval)];
    }
  }
}
