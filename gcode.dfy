/**
 * The lines the two G-code macros print to the console, as records rather
 * than formatted text. A run of a macro is the list of records it prints, in
 * order; a Python exception that ends the macro early is the final record
 * Traceback.
 */
module GCode {
  import opened Geometry

  /** Why a macro stops with a Python exception. */
  datatype Failure =
    | UnknownProfile     // config[useConfig]: KeyError
    | MissingVertex      // edge.Vertexes[0] or [1] of an edge with fewer than two vertices
    | DivisionByZero     // the slow-down offset divides by edge.Length
    | NoNames            // edgeNames[0] of an empty selection
    | BadIndex           // int() of a name suffix that is not a decimal number
    | IndexOutOfRange    // a vertex or geometry index past the end of the sketch's list
    | UnboundVertex      // currentVert read before any edge joined

  /** The kind of curve under an edge; the macros handle lines and circles and ignore the rest. */
  datatype Curve = Line | Circle(center: Vec3) | OtherCurve

  datatype Command =
    | Header                                        // "%" and "G54 G21 G90 G40"
    | Starting                                      // "starting" (console only)
    | Remark(text: string)                          // "(Move to start)", "(Program)"
    | RapidZ(z: real)                               // G00 Z
    | RapidXY(x: real, y: real)                     // G00 X Y
    | Plunge(z: real, f: real)                      // G01 Z F (Plunge)
    | FeedXY(x: real, y: real, f: real)             // G01 X Y F
    | MoveXYZ(x: real, y: real, z: real)            // G01 X Y Z
    | ArcXY(x: real, y: real, i: real, j: real)     // G02 X Y I J
    | ArcXYZ(x: real, y: real, z: real, i: real, j: real)  // G02 X Y Z I J
    | Footer                                        // "G00 Z1.0 (Retract)", "M30 (Program End)", "%"
    | NotJoined(edge: seq<Vec3>, last: seq<Vec3>)   // "Lines don't join" with both edges
    | Skipping(name: string)                        // "skipping <name>"
    | Traceback(failure: Failure)

  /** The lines end with an exception. */
  predicate EndsInTraceback(cs: seq<Command>) {
    cs != [] && cs[|cs| - 1].Traceback?
  }

  /** After lines that do not end in an exception, the whole ends in one iff the appended part does. */
  lemma TracebackAppend(a: seq<Command>, b: seq<Command>)
    requires !EndsInTraceback(a)
    ensures EndsInTraceback(a + b) <==> EndsInTraceback(b)
  {
    if b != [] {
      assert (a + b)[|a + b| - 1] == b[|b| - 1];
    } else {
      assert a + b == a;
    }
  }

  lemma NoTracebackAppend(a: seq<Command>, b: seq<Command>)
    requires !EndsInTraceback(a) && !EndsInTraceback(b)
    ensures !EndsInTraceback(a + b)
  {
    if b != [] {
      assert (a + b)[|a + b| - 1] == b[|b| - 1];
    } else {
      assert a + b == a;
    }
  }

  /** A line that moves the tool along the path (G01 or G02 with X and Y). */
  predicate IsMotion(c: Command) {
    c.FeedXY? || c.MoveXYZ? || c.ArcXY? || c.ArcXYZ?
  }

  /** The number of motion lines among the commands. */
  function Motions(cs: seq<Command>): (n: nat)
    ensures n <= |cs|
  {
    if cs == [] then 0
    else Motions(cs[..|cs| - 1]) + (if IsMotion(cs[|cs| - 1]) then 1 else 0)
  }

  lemma {:induction false} MotionsAppend(a: seq<Command>, b: seq<Command>)
    ensures Motions(a + b) == Motions(a) + Motions(b)
  {
    if b != [] {
      assert (a + b)[..|a + b| - 1] == a + b[..|b| - 1];
      MotionsAppend(a, b[..|b| - 1]);
    } else {
      assert a + b == a;
    }
  }

  /** The number of times the remark appears among the commands. */
  function Remarks(cs: seq<Command>, text: string): (n: nat)
    ensures n <= |cs|
  {
    if cs == [] then 0
    else Remarks(cs[..|cs| - 1], text) + (if cs[|cs| - 1] == Remark(text) then 1 else 0)
  }

  lemma {:induction false} RemarksAppend(a: seq<Command>, b: seq<Command>, text: string)
    ensures Remarks(a + b, text) == Remarks(a, text) + Remarks(b, text)
  {
    if b != [] {
      assert (a + b)[..|a + b| - 1] == a + b[..|b| - 1];
      RemarksAppend(a, b[..|b| - 1], text);
    } else {
      assert a + b == a;
    }
  }
}
