/**
 * LinesToGCode: the selected edges, in selection order, become a G-code
 * program. Each edge is run from the vertex it shares with the previous edge;
 * the setup block is written once, when the second edge joins the first; a
 * line is fed at the feed rate, slowing down near its end, and an arc becomes
 * a clockwise G02.
 *
 * Rounding to three decimals is the parameter round3; an edge's Length is
 * part of the edge as the CAD kernel reports it.
 */
module LinesToGCode {
  import opened Wrappers
  import opened Geometry
  import opened GCode

  // ---------------------------------------------------------------------------
  // Settings
  // ---------------------------------------------------------------------------

  /** A value of a settings dictionary: a Python bool or number. */
  datatype Value = Flag(b: bool) | Number(n: real)

  type Settings = map<string, Value>

  /** Python truthiness, as `if slowAtCorners:` reads the value. */
  function Truthy(v: Value): bool {
    match v
    case Flag(b) => b
    case Number(n) => n != 0.0
  }

  /** The value as a number, as arithmetic reads it (True is 1). */
  function Numeric(v: Value): real {
    match v
    case Flag(b) => if b then 1.0 else 0.0
    case Number(n) => n
  }

  function Defaults(): Settings {
    map["slowAtCorners" := Flag(true), "slowLen" := Number(4.0), "feedRate" := Number(200.0),
        "slowRate" := Number(100.0), "useZDepth" := Flag(true)]
  }

  /** The configuration groups "pocket" and "contour". */
  function Profiles(): map<string, Settings> {
    map["pocket" := map["slowAtCorners" := Flag(true), "slowLen" := Number(4.0), "feedRate" := Number(200.0),
                        "slowRate" := Number(100.0), "useZDepth" := Flag(true)],
        "contour" := map["slowAtCorners" := Flag(false), "feedRate" := Number(200.0), "useZDepth" := Flag(true)]]
  }

  const UseConfig := "pocket"
  const ZRapid := 1.0
  const ZCut := -3.0
  /** The G54 origin offset, subtracted from every coordinate written. */
  const G54 := Vec3(0.0, -3.0, 20.0)
  const PlungeRate := 100.0

  /** dict.update: the profile's keys override, the other keys keep their value. */
  function Update(d: Settings, u: Settings): (r: Settings)
    ensures r.Keys == d.Keys + u.Keys
    ensures forall k :: k in r ==> r[k] == (if k in u then u[k] else d[k])
  {
    map k | k in d.Keys + u.Keys :: if k in u then u[k] else d[k]
  }

  /** The five settings the macro reads. */
  datatype Config = Config(slowAtCorners: bool, slowLen: real, feedRate: real, slowRate: real, useZDepth: bool)

  /** The settings read out of the merged dictionary. */
  function Extract(s: Settings): Config
    requires Defaults().Keys <= s.Keys
  {
    Config(Truthy(s["slowAtCorners"]), Numeric(s["slowLen"]), Numeric(s["feedRate"]),
           Numeric(s["slowRate"]), Truthy(s["useZDepth"]))
  }

  /** The settings in effect for the chosen configuration group. */
  function Effective(profiles: map<string, Settings>, useConfig: string): (r: Result<Config, Failure>)
    ensures r.Err? <==> useConfig !in profiles
    ensures r.Err? ==> r.error == UnknownProfile
  {
    if useConfig !in profiles then Err(UnknownProfile)
    else Ok(Extract(Update(Defaults(), profiles[useConfig])))
  }

  /**
   * Each setting comes from the profile when the profile has it and from the
   * defaults otherwise.
   */
  lemma EffectiveFields(p: Settings)
    ensures var c := Extract(Update(Defaults(), p));
      && c.slowAtCorners == Truthy(if "slowAtCorners" in p then p["slowAtCorners"] else Flag(true))
      && c.slowLen == Numeric(if "slowLen" in p then p["slowLen"] else Number(4.0))
      && c.feedRate == Numeric(if "feedRate" in p then p["feedRate"] else Number(200.0))
      && c.slowRate == Numeric(if "slowRate" in p then p["slowRate"] else Number(100.0))
      && c.useZDepth == Truthy(if "useZDepth" in p then p["useZDepth"] else Flag(true))
  {
  }

  /** "contour" turns the slow-down off and keeps the default slowLen and slowRate. */
  lemma ContourSettings()
    ensures Effective(Profiles(), "contour") == Ok(Config(false, 4.0, 200.0, 100.0, true))
  {
    EffectiveFields(Profiles()["contour"]);
  }

  lemma PocketSettings()
    ensures Effective(Profiles(), UseConfig) == Ok(Config(true, 4.0, 200.0, 100.0, true))
  {
    EffectiveFields(Profiles()[UseConfig]);
  }

  // ---------------------------------------------------------------------------
  // feed
  // ---------------------------------------------------------------------------

  /** A selected edge: its vertices, its curve and its length. */
  datatype Edge = Edge(vertexes: seq<Vec3>, curve: Curve, length: real)

  /** The number of motion lines feed writes for an edge. */
  function FeedCount(c: Config, e: Edge): nat {
    match e.curve
    case Line => if c.slowAtCorners && e.length >= 2.5 * c.slowLen then 2 else 1
    case Circle(_) => 1
    case OtherCurve => 0
  }

  /** feed(edge, currentVert, nextVert): the lines that run the edge from currentVert to nextVert. */
  function Feed(c: Config, round3: real -> real, e: Edge, cur: Vec3, next: Vec3): (r: Result<seq<Command>, Failure>)
    ensures r.Err? <==> e.curve.Line? && c.slowAtCorners && e.length >= 2.5 * c.slowLen && e.length == 0.0
    ensures r.Ok? ==> |r.value| == FeedCount(c, e) && Motions(r.value) == |r.value|
    ensures r.Ok? && r.value != [] ==> var last := r.value[|r.value| - 1];
      last.x == round3(next.x) - G54.x && last.y == round3(next.y) - G54.y
    ensures r.Ok? && e.curve.Line? ==> forall k :: 0 <= k < |r.value| ==> r.value[k].FeedXY?
    ensures r.Ok? && e.curve.Line? ==> r.value[|r.value| - 1].f == (if c.slowAtCorners then c.slowRate else c.feedRate)
    ensures r.Ok? && e.curve.Circle? ==>
      r.value == [ArcXY(round3(next.x) - G54.x, round3(next.y) - G54.y,
                        round3(e.curve.center.x - cur.x), round3(e.curve.center.y - cur.y))]
  {
    var x, y := round3(next.x), round3(next.y);
    match e.curve
    case Line =>
      if c.slowAtCorners then
        if e.length >= 2.5 * c.slowLen then
          if e.length == 0.0 then Err(DivisionByZero)
          else
            var xd := (cur.x - next.x) / e.length * c.slowLen;
            var yd := (cur.y - next.y) / e.length * c.slowLen;
            Ok([FeedXY(x + xd - G54.x, y + yd - G54.y, c.feedRate), FeedXY(x - G54.x, y - G54.y, c.slowRate)])
        else Ok([FeedXY(x - G54.x, y - G54.y, c.slowRate)])
      else Ok([FeedXY(x - G54.x, y - G54.y, c.feedRate)])
    case Circle(cen) =>
      Ok([ArcXY(x - G54.x, y - G54.y, round3(cen.x - cur.x), round3(cen.y - cur.y))])
    case OtherCurve => Ok([])
  }

  /**
   * The slow split of a long line: the first of its two lines is fed at the
   * feed rate to the point slowLen back along the edge toward the current
   * vertex, the second at the slow rate to the target.
   */
  lemma FeedSlowSplit(c: Config, round3: real -> real, e: Edge, cur: Vec3, next: Vec3)
    ensures var r := Feed(c, round3, e, cur, next);
      r.Ok? && |r.value| == 2 ==>
        && r.value[0].FeedXY? && r.value[0].f == c.feedRate
        && r.value[1].FeedXY? && r.value[1].f == c.slowRate
        && r.value[0].x - r.value[1].x == (cur.x - next.x) / e.length * c.slowLen
        && r.value[0].y - r.value[1].y == (cur.y - next.y) / e.length * c.slowLen
  {
  }

  // ---------------------------------------------------------------------------
  // The join / direction state machine
  // ---------------------------------------------------------------------------

  /**
   * The direction an edge is run in: from the endpoint it shares with the
   * previous edge to its other endpoint; Vertexes[0] is tried first. None when
   * neither endpoint is shared.
   */
  function Orient(e: Edge, lastVerts: seq<Vec3>): (r: Option<(Vec3, Vec3)>)
    requires |e.vertexes| >= 2
    ensures r.None? <==> e.vertexes[0] !in lastVerts && e.vertexes[1] !in lastVerts
    ensures r.Some? ==> r.value.0 in lastVerts
    ensures r.Some? ==> r.value == (e.vertexes[0], e.vertexes[1]) || r.value == (e.vertexes[1], e.vertexes[0])
    ensures e.vertexes[0] in lastVerts ==> r == Some((e.vertexes[0], e.vertexes[1]))
  {
    if e.vertexes[0] in lastVerts then Some((e.vertexes[0], e.vertexes[1]))
    else if e.vertexes[1] in lastVerts then Some((e.vertexes[1], e.vertexes[0]))
    else None
  }

  /** The loop variables lastEdge, lastVerts and doneFirst. */
  datatype State = State(lastEdge: Option<Edge>, lastVerts: seq<Vec3>, doneFirst: bool)

  const Init := State(None, [], false)

  /** Every edge the loop got past had two vertices. */
  predicate Sane(st: State) {
    st.lastEdge.Some? ==> |st.lastEdge.value.vertexes| >= 2
  }

  /** The first edge's endpoint that is not the one it shares with the second edge. */
  function StartVert(first: Edge, cur: Vec3): (s: Vec3)
    requires |first.vertexes| >= 2
    ensures s in first.vertexes[..2]
    ensures first.vertexes[0] != first.vertexes[1] && cur in first.vertexes[..2] ==> s != cur
  {
    if first.vertexes[0] == cur then first.vertexes[1] else first.vertexes[0]
  }

  /** The setup block, written before the first edge's own lines. */
  function Setup(c: Config, round3: real -> real, start: Vec3): (r: seq<Command>)
  {
    [Remark("(Move to start)"), RapidZ(ZRapid), RapidXY(round3(start.x) - G54.x, round3(start.y) - G54.y),
     Plunge(if c.useZDepth then round3(start.z) - G54.z else ZCut, PlungeRate), Remark("(Program)")]
  }

  /** The lines written for one edge, the next state, and whether the loop ends here. */
  datatype Outcome = Outcome(cmds: seq<Command>, next: State, stop: bool)

  /**
   * One pass of the loop body for an edge that follows a previous edge: the
   * join test, then the setup block (once) and the edge's own lines.
   */
  function JoinStep(c: Config, round3: real -> real, st: State, e: Edge): (o: Outcome)
    requires Sane(st) && st.lastEdge.Some? && |e.vertexes| >= 2
    ensures Sane(o.next)
    ensures !o.stop ==> !EndsInTraceback(o.cmds) && o.next == State(Some(e), e.vertexes[..2], true)
  {
    var last := st.lastEdge.value;
    match Orient(e, st.lastVerts)
    case None => Outcome([NotJoined(e.vertexes, last.vertexes)], st, true)
    case Some((cur, nxt)) =>
      var setup :=
        if st.doneFirst then Ok([])
        else
          var start := StartVert(last, cur);
          match Feed(c, round3, last, start, cur)
          case Ok(first) => Ok(Setup(c, round3, start) + first)
          case Err(f) => Err(Setup(c, round3, start) + [Traceback(f)]);
      match setup
      case Err(partial) => Outcome(partial, st, true)
      case Ok(pre) =>
        match Feed(c, round3, e, cur, nxt)
        case Ok(lines) => Outcome(pre + lines, State(Some(e), [e.vertexes[0], e.vertexes[1]], true), false)
        case Err(f) => Outcome(pre + [Traceback(f)], st, true)
  }

  /** The lines the loop writes from the given state over the remaining edges. */
  function Emitted(c: Config, round3: real -> real, st: State, edges: seq<Edge>): seq<Command>
    requires Sane(st)
    decreases |edges|, 2
  {
    if edges == [] then [] else Visit(c, round3, st, edges)
  }

  /**
   * The loop body for the first remaining edge: an edge without two vertices
   * raises, the first edge is only remembered, any later edge is joined.
   */
  function Visit(c: Config, round3: real -> real, st: State, edges: seq<Edge>): seq<Command>
    requires Sane(st) && edges != []
    decreases |edges|, 1
  {
    var e := edges[0];
    if |e.vertexes| < 2 then [Traceback(MissingVertex)]
    else if st.lastEdge.None? then Emitted(c, round3, State(Some(e), [e.vertexes[0], e.vertexes[1]], st.doneFirst), edges[1..])
    else JoinVisit(c, round3, st, edges)
  }

  function JoinVisit(c: Config, round3: real -> real, st: State, edges: seq<Edge>): seq<Command>
    requires Sane(st) && edges != [] && st.lastEdge.Some? && |edges[0].vertexes| >= 2
    decreases |edges|, 0
  {
    var o := JoinStep(c, round3, st, edges[0]);
    o.cmds + if o.stop then [] else Emitted(c, round3, o.next, edges[1..])
  }

  /** The whole console output: preamble, the edges' lines and, unless an exception ended the run, the postamble. */
  function Program(c: Config, round3: real -> real, edges: seq<Edge>): seq<Command> {
    var body := Emitted(c, round3, Init, edges);
    [Header] + body + if EndsInTraceback(body) then [] else [Footer]
  }

  lemma EmittedFirst(c: Config, round3: real -> real, st: State, edges: seq<Edge>, i: nat)
    requires Sane(st) && i < |edges| && |edges[i].vertexes| >= 2 && st.lastEdge.None?
    ensures var e := edges[i];
      Emitted(c, round3, st, edges[i..])
        == Emitted(c, round3, State(Some(e), [e.vertexes[0], e.vertexes[1]], st.doneFirst), edges[i + 1..])
  {
    assert edges[i..][1..] == edges[i + 1..];
    assert Emitted(c, round3, st, edges[i..]) == Visit(c, round3, st, edges[i..]);
  }

  lemma EmittedJoin(c: Config, round3: real -> real, st: State, edges: seq<Edge>, i: nat)
    requires Sane(st) && i < |edges| && |edges[i].vertexes| >= 2 && st.lastEdge.Some?
    ensures var o := JoinStep(c, round3, st, edges[i]);
      Emitted(c, round3, st, edges[i..]) == o.cmds + if o.stop then [] else Emitted(c, round3, o.next, edges[i + 1..])
  {
    assert edges[i..][1..] == edges[i + 1..];
    assert Emitted(c, round3, st, edges[i..]) == Visit(c, round3, st, edges[i..]);
    assert Visit(c, round3, st, edges[i..]) == JoinVisit(c, round3, st, edges[i..]);
  }

  lemma EmittedMissing(c: Config, round3: real -> real, st: State, edges: seq<Edge>, i: nat)
    requires Sane(st) && i < |edges| && |edges[i].vertexes| < 2
    ensures Emitted(c, round3, st, edges[i..]) == [Traceback(MissingVertex)]
  {
    assert Emitted(c, round3, st, edges[i..]) == Visit(c, round3, st, edges[i..]);
  }

  /** The body of the loop over sel.SubObjects, for edge i. */
  method VisitEdge(c: Config, round3: real -> real, st: State, edges: seq<Edge>, i: nat) returns (o: Outcome)
    requires Sane(st) && i < |edges|
    ensures Sane(o.next)
    ensures !o.stop ==> !EndsInTraceback(o.cmds)
    ensures Emitted(c, round3, st, edges[i..]) == o.cmds + if o.stop then [] else Emitted(c, round3, o.next, edges[i + 1..])
  {
    var edge := edges[i];
    if |edge.vertexes| < 2 {
      EmittedMissing(c, round3, st, edges, i);
      return Outcome([Traceback(MissingVertex)], st, true);
    }
    if st.lastEdge.None? {
      EmittedFirst(c, round3, st, edges, i);
      return Outcome([], State(Some(edge), [edge.vertexes[0], edge.vertexes[1]], st.doneFirst), false);
    }
    EmittedJoin(c, round3, st, edges, i);
    o := JoinEdge(c, round3, st, edge);
  }

  /** The loop body once a previous edge exists: the join test, the setup block, and the edge's lines. */
  method JoinEdge(c: Config, round3: real -> real, st: State, edge: Edge) returns (o: Outcome)
    requires Sane(st) && st.lastEdge.Some? && |edge.vertexes| >= 2
    ensures o == JoinStep(c, round3, st, edge)
  {
    var cmds := [];
    var currentVert, nextVert;
    if edge.vertexes[0] in st.lastVerts {
      currentVert, nextVert := edge.vertexes[0], edge.vertexes[1];
    } else if edge.vertexes[1] in st.lastVerts {
      currentVert, nextVert := edge.vertexes[1], edge.vertexes[0];
    } else {
      return Outcome([NotJoined(edge.vertexes, st.lastEdge.value.vertexes)], st, true);
    }
    if !st.doneFirst {
      // find the other end of the first line, then the setup block and the first line
      var first := st.lastEdge.value;
      var startVert := if first.vertexes[0] == currentVert then first.vertexes[1] else first.vertexes[0];
      cmds := Setup(c, round3, startVert);
      var firstLines := Feed(c, round3, first, startVert, currentVert);
      if firstLines.Err? {
        return Outcome(cmds + [Traceback(firstLines.error)], st, true);
      }
      cmds := cmds + firstLines.value;
    }
    var lines := Feed(c, round3, edge, currentVert, nextVert);
    if lines.Err? {
      return Outcome(cmds + [Traceback(lines.error)], st, true);
    }
    cmds := cmds + lines.value;
    o := Outcome(cmds, State(Some(edge), [edge.vertexes[0], edge.vertexes[1]], true), false);
  }

  /** The lines printed so far end in a traceback exactly when the whole run does. */
  lemma StopLines(out: seq<Command>, cmds: seq<Command>, body: seq<Command>)
    requires out + cmds == [Header] + body
    requires out != [] && !EndsInTraceback(out)
    ensures EndsInTraceback(cmds) <==> EndsInTraceback(body)
  {
    if cmds != [] {
      assert body[|body| - 1] == (out + cmds)[|out + cmds| - 1];
    } else {
      assert out + cmds == out;
      assert body == [] || body[|body| - 1] == out[|out| - 1];
    }
  }

  /** The macro: the preamble, the loop over sel.SubObjects, and the postamble unless an exception ended the loop. */
  method Convert(c: Config, round3: real -> real, edges: seq<Edge>) returns (out: seq<Command>)
    ensures out == Program(c, round3, edges)
  {
    out := [Header];
    var st := Init;
    var i := 0;
    ghost var body := Emitted(c, round3, Init, edges);
    while i < |edges|
      invariant 0 <= i <= |edges|
      invariant Sane(st)
      invariant out + Emitted(c, round3, st, edges[i..]) == [Header] + body
      invariant out != [] && !EndsInTraceback(out)
    {
      var o := VisitEdge(c, round3, st, edges, i);
      if o.stop {
        StopLines(out, o.cmds, body);
        out := out + o.cmds;
        if EndsInTraceback(o.cmds) {
          return;
        }
        break;
      }
      ghost var rest := Emitted(c, round3, o.next, edges[i + 1..]);
      assert out + (o.cmds + rest) == (out + o.cmds) + rest;
      NoTracebackAppend(out, o.cmds);
      out := out + o.cmds;
      st := o.next;
      i := i + 1;
    }
    if i == |edges| {
      assert edges[i..] == [];
      StopLines(out, [], body);
    }
    out := out + [Footer];
  }

  // ---------------------------------------------------------------------------
  // What the program writes
  // ---------------------------------------------------------------------------

  /** The edge can be processed without an exception: two vertices, and no division by a zero length. */
  predicate NoCrash(c: Config, e: Edge) {
    |e.vertexes| >= 2 && !(e.curve.Line? && c.slowAtCorners && e.length >= 2.5 * c.slowLen && e.length == 0.0)
  }

  /** e shares an endpoint with p. */
  predicate Joins(p: Edge, e: Edge)
    requires |p.vertexes| >= 2 && |e.vertexes| >= 2
  {
    e.vertexes[0] in p.vertexes[..2] || e.vertexes[1] in p.vertexes[..2]
  }

  /** The motion lines of the edges that follow p, as far as each joins the one before it. */
  function ChainFeeds(c: Config, p: Edge, rest: seq<Edge>): nat
    requires |p.vertexes| >= 2
    requires forall k :: 0 <= k < |rest| ==> |rest[k].vertexes| >= 2
    decreases |rest|
  {
    if rest == [] || !Joins(p, rest[0]) then 0
    else FeedCount(c, rest[0]) + ChainFeeds(c, rest[0], rest[1..])
  }

  lemma AllMotionsNoRemarks(cs: seq<Command>, text: string)
    requires Motions(cs) == |cs|
    ensures Remarks(cs, text) == 0
  {
    if cs != [] {
      AllMotionsNoRemarks(cs[..|cs| - 1], text);
    }
  }

  /**
   * The setup block lifts the tool to the rapid height, moves it over the
   * start vertex, plunges to the start's depth (or the fixed cutting depth
   * when useZDepth is off), in that order, and ends with the "(Program)"
   * remark.
   */
  lemma SetupMoves(c: Config, round3: real -> real, start: Vec3)
    ensures var s := Setup(c, round3, start);
      && s[|s| - 1] == Remark("(Program)")
      && exists i, j, m :: 0 <= i < j < m < |s|
           && s[i] == RapidZ(ZRapid)
           && s[j] == RapidXY(round3(start.x) - G54.x, round3(start.y) - G54.y)
           && s[m] == Plunge(if c.useZDepth then round3(start.z) - G54.z else ZCut, PlungeRate)
  {
    var s := Setup(c, round3, start);
    var z := if c.useZDepth then round3(start.z) - G54.z else ZCut;
    assert |s| == 5 && s[4] == Remark("(Program)");
    assert s[1] == RapidZ(ZRapid) && s[2] == RapidXY(round3(start.x) - G54.x, round3(start.y) - G54.y) && s[3] == Plunge(z, PlungeRate);
  }

  /**
   * At the first joined edge the step's lines open with the setup block for
   * the first edge's far end, the vertex it does not share with the second.
   */
  lemma JoinStepSetup(c: Config, round3: real -> real, st: State, e: Edge)
    requires Sane(st) && st.lastEdge.Some? && |e.vertexes| >= 2
    requires !st.doneFirst && Orient(e, st.lastVerts).Some?
    ensures var start := StartVert(st.lastEdge.value, Orient(e, st.lastVerts).value.0);
      Setup(c, round3, start) <= JoinStep(c, round3, st, e).cmds
  {
  }

  /** The setup block holds the "(Program)" remark once and no motion line. */
  lemma SetupFacts(c: Config, round3: real -> real, start: Vec3)
    ensures Remarks(Setup(c, round3, start), "(Program)") == 1
    ensures Motions(Setup(c, round3, start)) == 0
    ensures !EndsInTraceback(Setup(c, round3, start))
  {
    var s := Setup(c, round3, start);
    var t := "(Program)";
    assert "(Move to start)"[1] != t[1];
    assert s[..1][..0] == [] && s[..2][..1] == s[..1] && s[..3][..2] == s[..2] && s[..4][..3] == s[..3];
    assert s[..|s| - 1] == s[..4];
    assert Remarks(s[..1], t) == 0 && Motions(s[..1]) == 0;
    assert Remarks(s[..2], t) == 0 && Motions(s[..2]) == 0;
    assert Remarks(s[..3], t) == 0 && Motions(s[..3]) == 0;
    assert Remarks(s[..4], t) == 0 && Motions(s[..4]) == 0;
  }

  /** The state after edge e has been written. */
  function After(e: Edge): (st: State)
    requires |e.vertexes| >= 2
    ensures Sane(st) && st.doneFirst && st.lastEdge == Some(e)
  {
    State(Some(e), e.vertexes[..2], true)
  }

  /** A joining step goes on to the next edge: e joins, and neither edge it feeds divides by zero. */
  predicate Continues(c: Config, st: State, e: Edge)
    requires Sane(st) && st.lastEdge.Some? && |e.vertexes| >= 2
  {
    Orient(e, st.lastVerts).Some? && (st.doneFirst || NoCrash(c, st.lastEdge.value)) && NoCrash(c, e)
  }

  /** What one joining step writes: the remark and the motion lines. */
  lemma JoinStepFacts(c: Config, round3: real -> real, st: State, e: Edge)
    requires Sane(st) && st.lastEdge.Some? && |e.vertexes| >= 2
    ensures var o := JoinStep(c, round3, st, e);
      && Remarks(o.cmds, "(Program)") == (if Orient(e, st.lastVerts).Some? && !st.doneFirst then 1 else 0)
      && (Orient(e, st.lastVerts).None? ==> o.stop && Motions(o.cmds) == 0 && !EndsInTraceback(o.cmds))
      && (Continues(c, st, e) ==>
            !o.stop && Motions(o.cmds) == (if st.doneFirst then 0 else FeedCount(c, st.lastEdge.value)) + FeedCount(c, e))
  {
    var o := JoinStep(c, round3, st, e);
    var last := st.lastEdge.value;
    match Orient(e, st.lastVerts)
    case None =>
      assert o.cmds == [NotJoined(e.vertexes, last.vertexes)];
      assert o.cmds[..0] == [];
    case Some((cur, nxt)) =>
      var lines := Feed(c, round3, e, cur, nxt);
      var pre: seq<Command> := [];
      if !st.doneFirst {
        var start := StartVert(last, cur);
        SetupFacts(c, round3, start);
        var first := Feed(c, round3, last, start, cur);
        if first.Err? {
          pre := Setup(c, round3, start) + [Traceback(first.error)];
          assert o.cmds == pre;
          RemarksAppend(Setup(c, round3, start), [Traceback(first.error)], "(Program)");
          assert [Traceback(first.error)][..0] == [];
          return;
        }
        pre := Setup(c, round3, start) + first.value;
        AllMotionsNoRemarks(first.value, "(Program)");
        RemarksAppend(Setup(c, round3, start), first.value, "(Program)");
        MotionsAppend(Setup(c, round3, start), first.value);
      }
      if lines.Err? {
        assert o.cmds == pre + [Traceback(lines.error)];
        RemarksAppend(pre, [Traceback(lines.error)], "(Program)");
        assert [Traceback(lines.error)][..0] == [];
      } else {
        assert o.cmds == pre + lines.value;
        AllMotionsNoRemarks(lines.value, "(Program)");
        RemarksAppend(pre, lines.value, "(Program)");
        MotionsAppend(pre, lines.value);
      }
  }

  /** A joining step stops exactly when it does not continue, and then, unless the edges did not join, with an exception. */
  lemma JoinStepStop(c: Config, round3: real -> real, st: State, e: Edge)
    requires Sane(st) && st.lastEdge.Some? && |e.vertexes| >= 2
    ensures var o := JoinStep(c, round3, st, e);
      && (!o.stop <==> Continues(c, st, e))
      && (o.stop && Orient(e, st.lastVerts).Some? ==> EndsInTraceback(o.cmds))
  {
  }

  /** The remark count of the lines from a joining step, without naming the step. */
  lemma JoinRemarks(c: Config, round3: real -> real, st: State, rest: seq<Edge>)
    requires Sane(st) && st.lastEdge.Some? && rest != [] && |rest[0].vertexes| >= 2
    ensures Remarks(Emitted(c, round3, st, rest), "(Program)")
         == (if Orient(rest[0], st.lastVerts).Some? && !st.doneFirst then 1 else 0)
          + (if Continues(c, st, rest[0]) then Remarks(Emitted(c, round3, After(rest[0]), rest[1..]), "(Program)") else 0)
  {
    EmittedJoin(c, round3, st, rest, 0);
    JoinStepFacts(c, round3, st, rest[0]);
    JoinStepStop(c, round3, st, rest[0]);
    var o := JoinStep(c, round3, st, rest[0]);
    assert rest[0..] == rest && rest[1..] == rest[0 + 1..];
    if !o.stop {
      RemarksAppend(o.cmds, Emitted(c, round3, o.next, rest[1..]), "(Program)");
    } else {
      assert o.cmds + [] == o.cmds;
    }
  }

  /**
   * From a state after the first edge, the setup block is written once if the
   * next edge joins and it is not yet written, and never again after that.
   */
  lemma {:induction false} RemarksFrom(c: Config, round3: real -> real, st: State, rest: seq<Edge>)
    requires Sane(st) && (st.lastEdge.Some? || st.doneFirst)
    ensures Remarks(Emitted(c, round3, st, rest), "(Program)")
         == if !st.doneFirst && rest != [] && |rest[0].vertexes| >= 2 && Orient(rest[0], st.lastVerts).Some? then 1 else 0
    decreases |rest|
  {
    if rest != [] {
      EmittedSplit(c, round3, st, rest);
      var e := rest[0];
      if |e.vertexes| >= 2 {
        if st.lastEdge.None? {
          RemarksFrom(c, round3, State(Some(e), [e.vertexes[0], e.vertexes[1]], true), rest[1..]);
        } else {
          JoinRemarks(c, round3, st, rest);
          if Continues(c, st, e) {
            RemarksFrom(c, round3, After(e), rest[1..]);
          }
        }
      } else {
        assert [Traceback(MissingVertex)][..0] == [];
      }
    }
  }

  /** When a joining step continues: its motion lines, and no exception of its own. */
  lemma JoinMotions(c: Config, round3: real -> real, st: State, rest: seq<Edge>)
    requires Sane(st) && st.lastEdge.Some? && rest != [] && |rest[0].vertexes| >= 2
    requires Continues(c, st, rest[0])
    ensures Motions(Emitted(c, round3, st, rest))
            == (if st.doneFirst then 0 else FeedCount(c, st.lastEdge.value)) + FeedCount(c, rest[0])
               + Motions(Emitted(c, round3, After(rest[0]), rest[1..]))
  {
    EmittedJoin(c, round3, st, rest, 0);
    JoinStepFacts(c, round3, st, rest[0]);
    JoinStepStop(c, round3, st, rest[0]);
    var o := JoinStep(c, round3, st, rest[0]);
    assert rest[0..] == rest && rest[1..] == rest[0 + 1..];
    MotionsAppend(o.cmds, Emitted(c, round3, o.next, rest[1..]));
  }

  /** A joined edge that feeds without an exception leaves the ending to the rest of the chain. */
  lemma JoinEnds(c: Config, round3: real -> real, st: State, rest: seq<Edge>)
    requires Sane(st) && st.lastEdge.Some? && rest != [] && |rest[0].vertexes| >= 2
    requires Continues(c, st, rest[0])
    ensures EndsInTraceback(Emitted(c, round3, st, rest)) <==> EndsInTraceback(Emitted(c, round3, After(rest[0]), rest[1..]))
  {
    EmittedJoin(c, round3, st, rest, 0);
    JoinStepFacts(c, round3, st, rest[0]);
    JoinStepStop(c, round3, st, rest[0]);
    var o := JoinStep(c, round3, st, rest[0]);
    assert rest[0..] == rest && rest[1..] == rest[0 + 1..];
    TracebackAppend(o.cmds, Emitted(c, round3, o.next, rest[1..]));
  }

  /** When the next edge does not join, the loop writes the notice alone and ends without an exception. */
  lemma JoinBroken(c: Config, round3: real -> real, st: State, rest: seq<Edge>)
    requires Sane(st) && st.lastEdge.Some? && rest != [] && |rest[0].vertexes| >= 2
    requires Orient(rest[0], st.lastVerts).None?
    ensures Emitted(c, round3, st, rest) == [NotJoined(rest[0].vertexes, st.lastEdge.value.vertexes)]
  {
    EmittedJoin(c, round3, st, rest, 0);
    assert rest[0..] == rest;
  }

  /** When the edges join but a feed divides by zero, the lines end in the exception. */
  lemma JoinCrash(c: Config, round3: real -> real, st: State, rest: seq<Edge>)
    requires Sane(st) && st.lastEdge.Some? && rest != [] && |rest[0].vertexes| >= 2
    requires Orient(rest[0], st.lastVerts).Some? && !Continues(c, st, rest[0])
    ensures EndsInTraceback(Emitted(c, round3, st, rest))
  {
    EmittedJoin(c, round3, st, rest, 0);
    JoinStepStop(c, round3, st, rest[0]);
    var o := JoinStep(c, round3, st, rest[0]);
    assert rest[0..] == rest;
    assert o.cmds + [] == o.cmds;
  }

  /**
   * Without exceptions, the motion lines from a state after edge p are the
   * first edge's feed (if the setup is still due and the chain goes on)
   * plus the feeds of the joined chain; and the lines do not end in an exception.
   */
  lemma {:induction false} ChainMotions(c: Config, round3: real -> real, p: Edge, st: State, rest: seq<Edge>)
    requires Sane(st) && st.lastEdge == Some(p) && st.lastVerts == p.vertexes[..2] && NoCrash(c, p)
    requires forall k :: 0 <= k < |rest| ==> |rest[k].vertexes| >= 2 && NoCrash(c, rest[k])
    ensures Motions(Emitted(c, round3, st, rest))
         == (if !st.doneFirst && rest != [] && Joins(p, rest[0]) then FeedCount(c, p) else 0) + ChainFeeds(c, p, rest)
    ensures !EndsInTraceback(Emitted(c, round3, st, rest))
    decreases |rest|
  {
    if rest != [] {
      var e := rest[0];
      if Orient(e, st.lastVerts).None? {
        JoinBroken(c, round3, st, rest);
        assert [NotJoined(e.vertexes, p.vertexes)][..0] == [];
      } else {
        assert Continues(c, st, e);
        JoinMotions(c, round3, st, rest);
        JoinEnds(c, round3, st, rest);
        assert forall k :: 0 <= k < |rest[1..]| ==> rest[1..][k] == rest[k + 1];
        ChainMotions(c, round3, e, After(e), rest[1..]);
      }
    }
  }

  /**
   * Without exceptions, the program moves along the first edge (when the
   * second joins it) and along every edge of the chain that joins its
   * predecessor, and stops at the first that does not.
   */
  lemma ProgramMotions(c: Config, round3: real -> real, edges: seq<Edge>)
    requires forall k :: 0 <= k < |edges| ==> |edges[k].vertexes| >= 2 && NoCrash(c, edges[k])
    ensures Motions(Program(c, round3, edges))
         == if |edges| >= 2 && Joins(edges[0], edges[1]) then FeedCount(c, edges[0]) + ChainFeeds(c, edges[0], edges[1..]) else 0
    ensures Program(c, round3, edges)[|Program(c, round3, edges)| - 1] == Footer
  {
    var body := Emitted(c, round3, Init, edges);
    Frame(body, "(Program)");
    if edges != [] {
      EmittedSplit(c, round3, Init, edges);
      var e0 := edges[0];
      var s1 := State(Some(e0), [e0.vertexes[0], e0.vertexes[1]], false);
      assert forall k :: 0 <= k < |edges[1..]| ==> edges[1..][k] == edges[k + 1];
      ChainMotions(c, round3, e0, s1, edges[1..]);
    }
  }

  /** A selection of at most one edge writes only the preamble and the postamble. */
  lemma ShortSelection(c: Config, round3: real -> real, edges: seq<Edge>)
    requires |edges| <= 1 && forall k :: 0 <= k < |edges| ==> |edges[k].vertexes| >= 2
    ensures Program(c, round3, edges) == [Header, Footer]
  {
    if edges != [] {
      EmittedSplit(c, round3, Init, edges);
      var e0 := edges[0];
      assert Emitted(c, round3, State(Some(e0), [e0.vertexes[0], e0.vertexes[1]], false), edges[1..]) == [];
    }
  }

  /** Emitted over a non-empty list whose first edge is missing a vertex or is the first one seen. */
  lemma EmittedSplit(c: Config, round3: real -> real, st: State, rest: seq<Edge>)
    requires Sane(st) && rest != []
    ensures |rest[0].vertexes| < 2 ==> Emitted(c, round3, st, rest) == [Traceback(MissingVertex)]
    ensures |rest[0].vertexes| >= 2 && st.lastEdge.None? ==>
      Emitted(c, round3, st, rest)
        == Emitted(c, round3, State(Some(rest[0]), [rest[0].vertexes[0], rest[0].vertexes[1]], st.doneFirst), rest[1..])
  {
    assert Emitted(c, round3, st, rest) == Visit(c, round3, st, rest);
  }

  lemma InitRemarks(c: Config, round3: real -> real, edges: seq<Edge>)
    ensures Remarks(Emitted(c, round3, Init, edges), "(Program)")
         == if |edges| >= 2 && |edges[0].vertexes| >= 2 && |edges[1].vertexes| >= 2
               && Orient(edges[1], edges[0].vertexes[..2]).Some? then 1 else 0
  {
    if edges != [] {
      EmittedSplit(c, round3, Init, edges);
      var e0 := edges[0];
      if |e0.vertexes| >= 2 {
        var s1 := State(Some(e0), [e0.vertexes[0], e0.vertexes[1]], false);
        assert s1.lastVerts == e0.vertexes[..2];
        RemarksFrom(c, round3, s1, edges[1..]);
      } else {
        assert [Traceback(MissingVertex)][..0] == [];
      }
    }
  }

  /** The preamble and postamble hold neither remarks nor motion lines. */
  lemma Frame(body: seq<Command>, text: string)
    ensures var p := [Header] + body + if EndsInTraceback(body) then [] else [Footer];
      Remarks(p, text) == Remarks(body, text) && Motions(p) == Motions(body)
  {
    var tail: seq<Command> := if EndsInTraceback(body) then [] else [Footer];
    RemarksAppend([Header] + body, tail, text);
    RemarksAppend([Header], body, text);
    MotionsAppend([Header] + body, tail);
    MotionsAppend([Header], body);
    assert [Header][..0] == [];
    assert tail == [] || tail[..0] == [];
  }

  /**
   * The setup block is written exactly once, when the second edge joins the
   * first, and never otherwise.
   */
  lemma SetupOnce(c: Config, round3: real -> real, edges: seq<Edge>)
    ensures Remarks(Program(c, round3, edges), "(Program)")
         == if |edges| >= 2 && |edges[0].vertexes| >= 2 && |edges[1].vertexes| >= 2
               && Orient(edges[1], edges[0].vertexes[..2]).Some? then 1 else 0
  {
    InitRemarks(c, round3, edges);
    Frame(Emitted(c, round3, Init, edges), "(Program)");
  }
}
