/**
 * The rasteriser mixed into the canvas: lines by stepping along the longer
 * axis of the transformed segment, triangles as three edges plus fill lines,
 * polygons as an outline or a fan of triangles around the centroid, and
 * rectangles as four-corner polygons.  Its only effect is a sequence of `set`
 * calls; the model records them in `calls`, and the position transform is a
 * function the drawing surface supplies.  Drawing-space coordinates are exact
 * reals.
 */
module Geometry {
  import opened Wrappers

  /** A position in drawing space. */
  datatype Pos = Pos(x: real, y: real)

  /** A keyword argument value passed through to `set` untouched. */
  datatype Arg = Text(s: string) | Flag(b: bool) | Number(v: real)

  type Kwargs = map<string, Arg>

  /** One call `set(pos, transformation, **kwargs)`. */
  datatype SetCall = SetCall(pos: Pos, transformation: Option<string>, kwargs: Kwargs)

  /** `transform_position(pos, transformation)`: a position to integer cell coordinates. */
  type Transform = (Option<string>, Pos) -> (int, int)

  /** One call `line(from, to, transformation, **kwargs)`. */
  datatype Segment = Segment(from: Pos, to: Pos, transformation: Option<string>)

  /** One call `triangle(a, b, c, transformation, fill=True, **kwargs)`. */
  datatype Corner3 = Corner3(a: Pos, b: Pos, c: Pos)

  function Abs(n: int): nat {
    if n < 0 then -n else n
  }

  /** A cell position as a drawing-space position. */
  function AsPos(cell: (int, int)): Pos {
    Pos(cell.0 as real, cell.1 as real)
  }

  /** The number of steps between two cells: the larger of the two axis distances. */
  function Steps(c0: (int, int), c1: (int, int)): (n: nat)
    ensures n >= Abs(c1.0 - c0.0) && n >= Abs(c1.1 - c0.1)
    ensures n == Abs(c1.0 - c0.0) || n == Abs(c1.1 - c0.1)
  {
    if Abs(c1.0 - c0.0) >= Abs(c1.1 - c0.1) then Abs(c1.0 - c0.0) else Abs(c1.1 - c0.1)
  }

  /** The steps of a segment, measured on its transformed end points. */
  function SegmentSteps(t: Transform, s: Segment): nat {
    Steps(t(s.transformation, s.from), t(s.transformation, s.to))
  }

  /**
   * The position after `k` of `n` equal steps from `p0` towards `p1`: the
   * step width added `k` times, as the drawing loops accumulate it.
   */
  function Lerp(p0: Pos, p1: Pos, k: nat, n: nat): Pos
    requires n > 0
  {
    if k == 0 then p0
    else
      var q := Lerp(p0, p1, k - 1, n);
      Pos(q.x + (p1.x - p0.x) / n as real, q.y + (p1.y - p0.y) / n as real)
  }

  /** `k` accumulated steps are `k` times the step width. */
  lemma {:induction false} LerpClosed(p0: Pos, p1: Pos, k: nat, n: nat)
    requires n > 0
    ensures Lerp(p0, p1, k, n) == Pos(p0.x + k as real * ((p1.x - p0.x) / n as real), p0.y + k as real * ((p1.y - p0.y) / n as real))
  {
    if k > 0 {
      LerpClosed(p0, p1, k - 1, n);
      var dx, dy := (p1.x - p0.x) / n as real, (p1.y - p0.y) / n as real;
      assert k as real * dx == (k - 1) as real * dx + dx;
      assert k as real * dy == (k - 1) as real * dy + dy;
    }
  }

  /** Zero steps stay at the start and `n` of `n` steps reach the end. */
  lemma LerpEnds(p0: Pos, p1: Pos, n: nat)
    requires n > 0
    ensures Lerp(p0, p1, 0, n) == p0 && Lerp(p0, p1, n, n) == p1
  {
    LerpClosed(p0, p1, n, n);
    var dx, dy := (p1.x - p0.x) / n as real, (p1.y - p0.y) / n as real;
    assert n as real * dx == p1.x - p0.x;
    assert n as real * dy == p1.y - p0.y;
  }

  /** The calls at the first `k + 1` of the `n + 1` equally spaced points of a line. */
  function LinePoints(s: Segment, kw: Kwargs, n: nat, k: nat): seq<SetCall>
    requires n > 0
  {
    var call := SetCall(Lerp(s.from, s.to, k, n), s.transformation, kw);
    if k == 0 then [call] else LinePoints(s, kw, n, k - 1) + [call]
  }

  lemma {:induction false} LinePointsAt(s: Segment, kw: Kwargs, n: nat, k: nat)
    requires n > 0
    ensures |LinePoints(s, kw, n, k)| == k + 1
    ensures forall j :: 0 <= j <= k ==> LinePoints(s, kw, n, k)[j] == SetCall(Lerp(s.from, s.to, j, n), s.transformation, kw)
  {
    if k > 0 {
      LinePointsAt(s, kw, n, k - 1);
    }
  }

  /**
   * The `set` calls of one line: one call at the start when both ends fall
   * in the same cell, otherwise calls at the `steps + 1` equally spaced
   * points from start to end.
   */
  function LineTrace(t: Transform, s: Segment, kw: Kwargs): seq<SetCall> {
    var n := SegmentSteps(t, s);
    if n == 0 then [SetCall(s.from, s.transformation, kw)] else LinePoints(s, kw, n, n)
  }

  /**
   * A line makes `steps + 1` calls, the first at its start and, when it
   * takes any step, the last at its end; every call carries the line's
   * transformation and the caller's keyword arguments.
   */
  lemma LineTraceShape(t: Transform, s: Segment, kw: Kwargs)
    ensures var r := LineTrace(t, s, kw);
      && |r| == SegmentSteps(t, s) + 1
      && r[0] == SetCall(s.from, s.transformation, kw)
      && (SegmentSteps(t, s) > 0 ==> r[|r| - 1].pos == s.to)
      && forall k :: 0 <= k < |r| ==> r[k].transformation == s.transformation && r[k].kwargs == kw
  {
    var n := SegmentSteps(t, s);
    if n > 0 {
      LerpEnds(s.from, s.to, n);
      LinePointsAt(s, kw, n, n);
    }
  }

  /** Call `k` of a line that takes `n > 0` steps is at `from + k * (to - from) / n`. */
  lemma LineTraceAt(t: Transform, s: Segment, kw: Kwargs, k: nat)
    requires 0 < SegmentSteps(t, s) && k <= SegmentSteps(t, s)
    ensures var n := SegmentSteps(t, s) as real;
      k < |LineTrace(t, s, kw)| && LineTrace(t, s, kw)[k].pos
        == Pos(s.from.x + k as real * ((s.to.x - s.from.x) / n), s.from.y + k as real * ((s.to.y - s.from.y) / n))
  {
    var n := SegmentSteps(t, s);
    LinePointsAt(s, kw, n, n);
    LerpClosed(s.from, s.to, k, n);
  }

  lemma ConcatAssoc<T>(a: seq<T>, b: seq<T>, c: seq<T>)
    ensures (a + b) + c == a + (b + c)
  {
  }

  lemma SplitLast<T>(a: seq<T>, b: seq<T>)
    requires |b| > 0
    ensures a + b == (a + b[..|b| - 1]) + [b[|b| - 1]]
    ensures b[..|b| - 1] + [b[|b| - 1]] == b
  {
    assert b == b[..|b| - 1] + [b[|b| - 1]];
  }

  /** The `set` calls of several lines, one line after the other. */
  function Draw(t: Transform, lines: seq<Segment>, kw: Kwargs): seq<SetCall> {
    if lines == [] then []
    else Draw(t, lines[..|lines| - 1], kw) + LineTrace(t, lines[|lines| - 1], kw)
  }

  lemma {:induction false} DrawAppend(t: Transform, a: seq<Segment>, b: seq<Segment>, kw: Kwargs)
    ensures Draw(t, a + b, kw) == Draw(t, a, kw) + Draw(t, b, kw)
  {
    if b == [] {
      assert a + b == a;
    } else {
      var init, l := b[..|b| - 1], b[|b| - 1];
      SplitLast(a, b);
      DrawAppend(t, a, init, kw);
      DrawSnoc(t, a + init, l, kw);
      DrawSnoc(t, init, l, kw);
      ConcatAssoc(Draw(t, a, kw), Draw(t, init, kw), LineTrace(t, l, kw));
    }
  }

  /** Drawing one more line appends its calls. */
  lemma DrawSnoc(t: Transform, a: seq<Segment>, l: Segment, kw: Kwargs)
    ensures Draw(t, a + [l], kw) == Draw(t, a, kw) + LineTrace(t, l, kw)
  {
    assert (a + [l])[..|a|] == a;
  }

  /** The `i`-th fill line of a triangle (1-based): from the `i`-th step along edge 0-1 to vertex 2. */
  function FillLine(p0: Pos, p1: Pos, p2: Pos, tr: Option<string>, i: nat, n: nat): Segment
    requires n > 0
  {
    Segment(Lerp(p0, p1, i, n), p2, tr)
  }

  /** The first `count` fill lines of a triangle whose edge 0-1 takes `n` steps. */
  function FillLines(p0: Pos, p1: Pos, p2: Pos, tr: Option<string>, n: nat, count: nat): (r: seq<Segment>)
    requires n > 0
    ensures |r| == count
  {
    if count == 0 then [] else FillLines(p0, p1, p2, tr, n, count - 1) + [FillLine(p0, p1, p2, tr, count, n)]
  }

  lemma {:induction false} FillLinesAt(p0: Pos, p1: Pos, p2: Pos, tr: Option<string>, n: nat, count: nat, i: nat)
    requires n > 0 && i < count
    ensures FillLines(p0, p1, p2, tr, n, count)[i] == FillLine(p0, p1, p2, tr, i + 1, n)
  {
    if i < count - 1 {
      FillLinesAt(p0, p1, p2, tr, n, count - 1, i);
    }
  }

  /** Drawing fill line `i + 1` after the first `i` draws the first `i + 1` fill lines. */
  lemma FillStep(t: Transform, p0: Pos, p1: Pos, p2: Pos, tr: Option<string>, n: nat, i: nat, kw: Kwargs,
                 start: seq<SetCall>, before: seq<SetCall>, after: seq<SetCall>)
    requires n > 0
    requires before == start + Draw(t, FillLines(p0, p1, p2, tr, n, i), kw)
    requires after == before + LineTrace(t, Segment(Lerp(p0, p1, i + 1, n), p2, tr), kw)
    ensures after == start + Draw(t, FillLines(p0, p1, p2, tr, n, i + 1), kw)
  {
    DrawSnoc(t, FillLines(p0, p1, p2, tr, n, i), FillLine(p0, p1, p2, tr, i + 1, n), kw);
    ConcatAssoc(start, Draw(t, FillLines(p0, p1, p2, tr, n, i), kw), LineTrace(t, FillLine(p0, p1, p2, tr, i + 1, n), kw));
  }

  /** The three edges between transformed vertices, in drawing order 0-1, 1-2, 0-2, without a transformation. */
  function TriangleEdges(c0: (int, int), c1: (int, int), c2: (int, int)): seq<Segment> {
    [Segment(AsPos(c0), AsPos(c1), None), Segment(AsPos(c1), AsPos(c2), None), Segment(AsPos(c0), AsPos(c2), None)]
  }

  /**
   * The fill lines of a triangle: when filling and edge 0-1 takes at least
   * two steps, a line from every inner step of edge 0-1 to vertex 2, with the
   * caller's transformation; none otherwise.
   */
  function TriangleFill(t: Transform, p0: Pos, p1: Pos, p2: Pos, tr: Option<string>, fill: bool): seq<Segment> {
    var n := Steps(t(tr, p0), t(tr, p1));
    if fill && n >= 2 then FillLines(p0, p1, p2, tr, n, n - 1) else []
  }

  /** The lines of a triangle: its edges, then its fill lines. */
  function TriangleLines(t: Transform, p0: Pos, p1: Pos, p2: Pos, tr: Option<string>, fill: bool): seq<Segment> {
    TriangleEdges(t(tr, p0), t(tr, p1), t(tr, p2)) + TriangleFill(t, p0, p1, p2, tr, fill)
  }

  /** Edges first, then exactly `steps - 1` fill lines when filling (none for a short edge 0-1). */
  lemma TriangleLinesShape(t: Transform, p0: Pos, p1: Pos, p2: Pos, tr: Option<string>, fill: bool)
    ensures var ls := TriangleLines(t, p0, p1, p2, tr, fill);
      var c0, c1, c2 := t(tr, p0), t(tr, p1), t(tr, p2);
      var n := Steps(c0, c1);
      && |ls| == 3 + (if fill && n >= 2 then n - 1 else 0)
      && ls[0] == Segment(AsPos(c0), AsPos(c1), None)
      && ls[1] == Segment(AsPos(c1), AsPos(c2), None)
      && ls[2] == Segment(AsPos(c0), AsPos(c2), None)
      && (forall i :: 3 <= i < |ls| ==> n > 0 && ls[i] == FillLine(p0, p1, p2, tr, i - 2, n))
  {
    var ls := TriangleLines(t, p0, p1, p2, tr, fill);
    var n := Steps(t(tr, p0), t(tr, p1));
    forall i | 3 <= i < |ls|
      ensures n > 0 && ls[i] == FillLine(p0, p1, p2, tr, i - 2, n)
    {
      FillLinesAt(p0, p1, p2, tr, n, n - 1, i - 3);
    }
  }

  /** The `set` calls of a triangle. */
  function TriangleTrace(t: Transform, p0: Pos, p1: Pos, p2: Pos, tr: Option<string>, fill: bool, kw: Kwargs): seq<SetCall> {
    Draw(t, TriangleLines(t, p0, p1, p2, tr, fill), kw)
  }

  /** Three lines are drawn one after the other. */
  lemma DrawThree(t: Transform, a: Segment, b: Segment, c: Segment, kw: Kwargs, start: seq<SetCall>)
    ensures start + Draw(t, [a, b, c], kw) == start + LineTrace(t, a, kw) + LineTrace(t, b, kw) + LineTrace(t, c, kw)
  {
    DrawSnoc(t, [], a, kw);
    assert [] + [a] == [a];
    DrawSnoc(t, [a], b, kw);
    assert [a] + [b] == [a, b];
    DrawSnoc(t, [a, b], c, kw);
    assert [a, b] + [c] == [a, b, c];
    ConcatAssoc(start, LineTrace(t, a, kw) + LineTrace(t, b, kw), LineTrace(t, c, kw));
    ConcatAssoc(start, LineTrace(t, a, kw), LineTrace(t, b, kw));
  }

  /**
   * The three edges followed by the fill lines make up the calls of a
   * triangle; the fill lines are none when not filling or when edge 0-1
   * takes fewer than two steps.
   */
  lemma TriangleDone(t: Transform, p0: Pos, p1: Pos, p2: Pos, tr: Option<string>, fill: bool, kw: Kwargs,
                     start: seq<SetCall>, drawn: seq<SetCall>, final: seq<SetCall>)
    requires drawn == start + Draw(t, TriangleEdges(t(tr, p0), t(tr, p1), t(tr, p2)), kw)
    requires var n := Steps(t(tr, p0), t(tr, p1));
      fill && n >= 2 ==> final == drawn + Draw(t, FillLines(p0, p1, p2, tr, n, n - 1), kw)
    requires var n := Steps(t(tr, p0), t(tr, p1));
      !(fill && n >= 2) ==> final == drawn
    ensures final == start + TriangleTrace(t, p0, p1, p2, tr, fill, kw)
  {
    var edges := TriangleEdges(t(tr, p0), t(tr, p1), t(tr, p2));
    var fillLines := TriangleFill(t, p0, p1, p2, tr, fill);
    DrawAppend(t, edges, fillLines, kw);
    ConcatAssoc(start, Draw(t, edges, kw), Draw(t, fillLines, kw));
    if !(fill && Steps(t(tr, p0), t(tr, p1)) >= 2) {
      assert fillLines == [];
      assert drawn + [] == drawn;
    }
  }

  /** The vertex before the `i`-th, wrapping round from the first to the last. */
  function Previous(vs: seq<Pos>, i: nat): Pos
    requires i < |vs|
  {
    vs[if i == 0 then |vs| - 1 else i - 1]
  }

  /** The first `count` outline edges: edge `i` runs from the vertex before `i` to vertex `i`. */
  function Outline(vs: seq<Pos>, tr: Option<string>, count: nat): (r: seq<Segment>)
    requires count <= |vs|
    ensures |r| == count
  {
    if count == 0 then [] else Outline(vs, tr, count - 1) + [Segment(Previous(vs, count - 1), vs[count - 1], tr)]
  }

  lemma {:induction false} OutlineAt(vs: seq<Pos>, tr: Option<string>, count: nat, i: nat)
    requires i < count <= |vs|
    ensures Outline(vs, tr, count)[i] == Segment(Previous(vs, i), vs[i], tr)
  {
    if i < count - 1 {
      OutlineAt(vs, tr, count - 1, i);
    }
  }

  /** The outline of a polygon: the closing edge from the last vertex to the first, then every other edge. */
  function OutlineLines(vs: seq<Pos>, tr: Option<string>): seq<Segment>
    requires |vs| >= 1
  {
    Outline(vs, tr, |vs|)
  }

  /**
   * The outline has one edge per vertex and closes: it starts at the last
   * vertex, edge `i` ends at vertex `i`, every edge starts where the one
   * before it ends, and the last ends where the first starts.
   */
  lemma OutlineCloses(vs: seq<Pos>, tr: Option<string>)
    requires |vs| >= 1
    ensures var ls := OutlineLines(vs, tr);
      && |ls| == |vs|
      && ls[0].from == vs[|vs| - 1]
      && (forall i :: 0 <= i < |vs| ==> ls[i].to == vs[i] && ls[i].transformation == tr)
      && (forall i :: 0 <= i < |vs| - 1 ==> ls[i].to == ls[i + 1].from)
      && ls[|vs| - 1].to == ls[0].from
  {
    forall i | 0 <= i < |vs| ensures OutlineLines(vs, tr)[i] == Segment(Previous(vs, i), vs[i], tr) {
      OutlineAt(vs, tr, |vs|, i);
    }
  }

  /** The two axes of drawing space. */
  datatype Axis = X | Y

  /** The coordinate of a position along an axis. */
  function Coord(p: Pos, axis: Axis): real {
    if axis == X then p.x else p.y
  }

  /** The sum of the vertices' coordinates along one axis, as the centroid loop accumulates it. */
  function Sum(vs: seq<Pos>, axis: Axis): real {
    if vs == [] then 0.0 else Sum(vs[..|vs| - 1], axis) + Coord(vs[|vs| - 1], axis)
  }

  /** The arithmetic mean of the vertices. */
  function Centroid(vs: seq<Pos>): Pos
    requires |vs| >= 1
  {
    Pos(Sum(vs, X) / |vs| as real, Sum(vs, Y) / |vs| as real)
  }

  /** `n` coordinates between two bounds sum to between `n` times each bound. */
  lemma {:induction false} SumBounds(vs: seq<Pos>, axis: Axis, lo: real, hi: real)
    requires forall i :: 0 <= i < |vs| ==> lo <= Coord(vs[i], axis) <= hi
    ensures |vs| as real * lo <= Sum(vs, axis) <= |vs| as real * hi
  {
    if vs != [] {
      var init := vs[..|vs| - 1];
      SumBounds(init, axis, lo, hi);
      assert |vs| as real * lo == |init| as real * lo + lo;
      assert |vs| as real * hi == |init| as real * hi + hi;
    }
  }

  /** A sum between `n` times two bounds has its mean between them. */
  lemma MeanBounds(sum: real, n: nat, lo: real, hi: real)
    requires n > 0 && n as real * lo <= sum <= n as real * hi
    ensures lo <= sum / n as real <= hi
  {
    var m := n as real;
    var q := sum / m;
    assert (q - lo) * m == sum - lo * m;
    assert (hi - q) * m == hi * m - sum;
  }

  /** The centroid lies in every axis-aligned box that holds all the vertices. */
  lemma CentroidInBox(vs: seq<Pos>, lo: Pos, hi: Pos)
    requires |vs| >= 1
    requires forall i :: 0 <= i < |vs| ==> lo.x <= vs[i].x <= hi.x && lo.y <= vs[i].y <= hi.y
    ensures var c := Centroid(vs); lo.x <= c.x <= hi.x && lo.y <= c.y <= hi.y
  {
    SumBounds(vs, X, lo.x, hi.x);
    SumBounds(vs, Y, lo.y, hi.y);
    MeanBounds(Sum(vs, X), |vs|, lo.x, hi.x);
    MeanBounds(Sum(vs, Y), |vs|, lo.y, hi.y);
  }

  /** The centroid as the polygon computes it: sum the coordinates, then divide by the vertex count. */
  method CentroidOf(vs: seq<Pos>) returns (c: Pos)
    requires |vs| >= 1
    ensures c == Centroid(vs)
  {
    var xc := 0.0;
    var yc := 0.0;
    for i := 0 to |vs|
      invariant xc == Sum(vs[..i], X) && yc == Sum(vs[..i], Y)
    {
      assert vs[..i + 1][..i] == vs[..i];
      xc := xc + vs[i].x;
      yc := yc + vs[i].y;
    }
    assert vs[..|vs|] == vs;
    c := Pos(xc / |vs| as real, yc / |vs| as real);
  }

  /** The first `count` triangles of a fan: triangle `i` joins the centre, the vertex before `i` and vertex `i`. */
  function Fan(center: Pos, vs: seq<Pos>, count: nat): (r: seq<Corner3>)
    requires count <= |vs|
    ensures |r| == count
  {
    if count == 0 then [] else Fan(center, vs, count - 1) + [Corner3(center, Previous(vs, count - 1), vs[count - 1])]
  }

  lemma {:induction false} FanAt(center: Pos, vs: seq<Pos>, count: nat, i: nat)
    requires i < count <= |vs|
    ensures Fan(center, vs, count)[i] == Corner3(center, Previous(vs, i), vs[i])
  {
    if i < count - 1 {
      FanAt(center, vs, count - 1, i);
    }
  }

  /** The fan of a filled polygon: a triangle from the centroid over every outline edge. */
  function FanTriangles(vs: seq<Pos>): seq<Corner3>
    requires |vs| >= 1
  {
    Fan(Centroid(vs), vs, |vs|)
  }

  /** One triangle per vertex, each from the centroid over the matching outline edge. */
  lemma FanOverOutline(vs: seq<Pos>, tr: Option<string>)
    requires |vs| >= 1
    ensures |FanTriangles(vs)| == |OutlineLines(vs, tr)| == |vs|
    ensures forall i :: 0 <= i < |vs| ==>
      FanTriangles(vs)[i].a == Centroid(vs) &&
      FanTriangles(vs)[i].b == OutlineLines(vs, tr)[i].from && FanTriangles(vs)[i].c == OutlineLines(vs, tr)[i].to
  {
    forall i | 0 <= i < |vs|
      ensures FanTriangles(vs)[i] == Corner3(Centroid(vs), Previous(vs, i), vs[i])
      ensures OutlineLines(vs, tr)[i] == Segment(Previous(vs, i), vs[i], tr)
    {
      FanAt(Centroid(vs), vs, |vs|, i);
      OutlineAt(vs, tr, |vs|, i);
    }
  }

  /** The `set` calls of several filled triangles, one after the other. */
  function DrawTriangles(t: Transform, ts: seq<Corner3>, tr: Option<string>, kw: Kwargs): seq<SetCall> {
    if ts == [] then []
    else
      var last := ts[|ts| - 1];
      DrawTriangles(t, ts[..|ts| - 1], tr, kw) + TriangleTrace(t, last.a, last.b, last.c, tr, true, kw)
  }

  lemma DrawTrianglesSnoc(t: Transform, ts: seq<Corner3>, c: Corner3, tr: Option<string>, kw: Kwargs)
    ensures DrawTriangles(t, ts + [c], tr, kw) == DrawTriangles(t, ts, tr, kw) + TriangleTrace(t, c.a, c.b, c.c, tr, true, kw)
  {
    assert (ts + [c])[..|ts|] == ts;
  }

  /** The `set` calls of a polygon: a filled fan or the outline. */
  function PolygonTrace(t: Transform, vs: seq<Pos>, tr: Option<string>, fill: bool, kw: Kwargs): seq<SetCall>
    requires |vs| >= 1
  {
    if fill then DrawTriangles(t, FanTriangles(vs), tr, kw) else Draw(t, OutlineLines(vs, tr), kw)
  }

  /** Drawing outline edge `i` after the first `i` edges draws the first `i + 1`. */
  lemma OutlineStep(t: Transform, vs: seq<Pos>, tr: Option<string>, kw: Kwargs, i: nat,
                    start: seq<SetCall>, before: seq<SetCall>, after: seq<SetCall>)
    requires i < |vs|
    requires before == start + Draw(t, Outline(vs, tr, i), kw)
    requires after == before + LineTrace(t, Segment(Previous(vs, i), vs[i], tr), kw)
    ensures after == start + Draw(t, Outline(vs, tr, i + 1), kw)
  {
    DrawSnoc(t, Outline(vs, tr, i), Segment(Previous(vs, i), vs[i], tr), kw);
    ConcatAssoc(start, Draw(t, Outline(vs, tr, i), kw), LineTrace(t, Segment(Previous(vs, i), vs[i], tr), kw));
  }

  /** Drawing fan triangle `i` after the first `i` triangles draws the first `i + 1`. */
  lemma FanStep(t: Transform, center: Pos, vs: seq<Pos>, tr: Option<string>, kw: Kwargs, i: nat,
                start: seq<SetCall>, before: seq<SetCall>, after: seq<SetCall>)
    requires i < |vs|
    requires before == start + DrawTriangles(t, Fan(center, vs, i), tr, kw)
    requires after == before + TriangleTrace(t, center, Previous(vs, i), vs[i], tr, true, kw)
    ensures after == start + DrawTriangles(t, Fan(center, vs, i + 1), tr, kw)
  {
    var c := Corner3(center, Previous(vs, i), vs[i]);
    DrawTrianglesSnoc(t, Fan(center, vs, i), c, tr, kw);
    ConcatAssoc(start, DrawTriangles(t, Fan(center, vs, i), tr, kw), TriangleTrace(t, c.a, c.b, c.c, tr, true, kw));
  }

  /** The corners of the rectangle spanned by two opposite corners, in drawing order. */
  function RectangleCorners(p0: Pos, p1: Pos): (vs: seq<Pos>)
    ensures |vs| == 4 && vs[0] == p0 && vs[2] == p1
  {
    [Pos(p0.x, p0.y), Pos(p0.x, p1.y), Pos(p1.x, p1.y), Pos(p1.x, p0.y)]
  }

  /** Every outline edge of a rectangle is vertical or horizontal. */
  lemma RectangleAxisAligned(p0: Pos, p1: Pos, tr: Option<string>)
    ensures forall i :: 0 <= i < |OutlineLines(RectangleCorners(p0, p1), tr)| ==>
      var l := OutlineLines(RectangleCorners(p0, p1), tr)[i]; l.from.x == l.to.x || l.from.y == l.to.y
  {
    forall i | 0 <= i < 4 ensures OutlineLines(RectangleCorners(p0, p1), tr)[i] == Segment(Previous(RectangleCorners(p0, p1), i), RectangleCorners(p0, p1)[i], tr) {
      OutlineAt(RectangleCorners(p0, p1), tr, 4, i);
    }
  }

  /** The rasteriser, recording every `set` call it makes. */
  class Geometry2D {
    /** The calls made to `set`, oldest first. */
    var calls: seq<SetCall>
    /** `transform_position` of the drawing surface. */
    const transform: Transform

    constructor (transform: Transform)
      ensures this.transform == transform && calls == []
    {
      this.transform := transform;
      calls := [];
    }

    /** `set(pos, transformation, **kwargs)`: recorded, nothing else. */
    method Set(pos: Pos, tr: Option<string>, kw: Kwargs)
      modifies this
      ensures calls == old(calls) + [SetCall(pos, tr, kw)]
    {
      calls := calls + [SetCall(pos, tr, kw)];
    }

    function TransformPosition(pos: Pos, tr: Option<string>): (int, int) {
      transform(tr, pos)
    }

    /** Steps along the longer axis of the transformed segment, one `set` per step. */
    method Line(p0: Pos, p1: Pos, tr: Option<string>, kw: Kwargs)
      modifies this
      ensures calls == old(calls) + LineTrace(transform, Segment(p0, p1, tr), kw)
    {
      var (x0, y0) := TransformPosition(p0, tr);
      var (x1, y1) := TransformPosition(p1, tr);
      var dx := Abs(x1 - x0);
      var dy := Abs(y1 - y0);
      var steps := if dx >= dy then dx else dy;
      if steps == 0 {
        Set(p0, tr, kw);
      } else {
        var dpx := (p1.x - p0.x) / steps as real;
        var dpy := (p1.y - p0.y) / steps as real;
        var x := p0.x;
        var y := p0.y;
        Set(Pos(x, y), tr, kw);
        for i := 0 to steps
          invariant Pos(x, y) == Lerp(p0, p1, i, steps)
          invariant calls == old(calls) + LinePoints(Segment(p0, p1, tr), kw, steps, i)
        {
          x := x + dpx;
          y := y + dpy;
          Set(Pos(x, y), tr, kw);
        }
      }
    }

    /** The three edges between the transformed vertices, then the fill lines towards vertex 2. */
    method Triangle(p0: Pos, p1: Pos, p2: Pos, tr: Option<string>, fill: bool, kw: Kwargs)
      modifies this
      ensures calls == old(calls) + TriangleTrace(transform, p0, p1, p2, tr, fill, kw)
    {
      var c0 := TransformPosition(p0, tr);
      var c1 := TransformPosition(p1, tr);
      var c2 := TransformPosition(p2, tr);
      DrawEdges(c0, c1, c2, kw);
      ghost var drawn := calls;
      ghost var n := Steps(c0, c1);
      if fill {
        var dx := Abs(c1.0 - c0.0);
        var dy := Abs(c1.1 - c0.1);
        var steps := if dx >= dy then dx else dy;
        assert steps == n;
        if steps >= 2 {
          FillTriangle(p0, p1, p2, tr, steps, kw);
        }
      }
      TriangleDone(transform, p0, p1, p2, tr, fill, kw, old(calls), drawn, calls);
    }

    /** The edges 0-1, 1-2 and 0-2 between cells, drawn without a transformation. */
    method DrawEdges(c0: (int, int), c1: (int, int), c2: (int, int), kw: Kwargs)
      modifies this
      ensures calls == old(calls) + Draw(transform, TriangleEdges(c0, c1, c2), kw)
    {
      var e := TriangleEdges(c0, c1, c2);
      Line(AsPos(c0), AsPos(c1), None, kw);
      Line(AsPos(c1), AsPos(c2), None, kw);
      Line(AsPos(c0), AsPos(c2), None, kw);
      DrawThree(transform, e[0], e[1], e[2], kw, old(calls));
      assert e == [e[0], e[1], e[2]];
    }

    /**
     * The fill loop of a triangle: steps along edge 0-1 from vertex 0 and
     * draws a line from every inner step to vertex 2.
     */
    method FillTriangle(p0: Pos, p1: Pos, p2: Pos, tr: Option<string>, steps: nat, kw: Kwargs)
      requires steps >= 2 && steps == Steps(transform(tr, p0), transform(tr, p1))
      modifies this
      ensures calls == old(calls) + Draw(transform, FillLines(p0, p1, p2, tr, steps, steps - 1), kw)
    {
      var dpx := (p1.x - p0.x) / steps as real;
      var dpy := (p1.y - p0.y) / steps as real;
      var x := p0.x;
      var y := p0.y;
      for i := 0 to steps - 1
        invariant Pos(x, y) == Lerp(p0, p1, i, steps)
        invariant calls == old(calls) + Draw(transform, FillLines(p0, p1, p2, tr, steps, i), kw)
      {
        x := x + dpx;
        y := y + dpy;
        assert Pos(x, y) == Lerp(p0, p1, i + 1, steps);
        ghost var before := calls;
        Line(Pos(x, y), p2, tr, kw);
        FillStep(transform, p0, p1, p2, tr, steps, i, kw, old(calls), before, calls);
      }
    }

    /** A filled fan of triangles around the centroid, or the outline, closing from the last vertex. */
    method Polygon(vs: seq<Pos>, tr: Option<string>, fill: bool, kw: Kwargs)
      requires |vs| >= 1
      modifies this
      ensures calls == old(calls) + PolygonTrace(transform, vs, tr, fill, kw)
    {
      if fill {
        var center := CentroidOf(vs);
        FillFan(center, vs, tr, kw);
      } else {
        DrawOutline(vs, tr, kw);
      }
    }

    /** The fan loop of a filled polygon: one filled triangle per vertex, closing from the last vertex. */
    method FillFan(center: Pos, vs: seq<Pos>, tr: Option<string>, kw: Kwargs)
      requires |vs| >= 1
      modifies this
      ensures calls == old(calls) + DrawTriangles(transform, Fan(center, vs, |vs|), tr, kw)
    {
      var pos0 := vs[|vs| - 1];
      for i := 0 to |vs|
        invariant i < |vs| ==> pos0 == Previous(vs, i)
        invariant calls == old(calls) + DrawTriangles(transform, Fan(center, vs, i), tr, kw)
      {
        ghost var before := calls;
        Triangle(center, pos0, vs[i], tr, true, kw);
        FanStep(transform, center, vs, tr, kw, i, old(calls), before, calls);
        pos0 := vs[i];
      }
    }

    /** The outline loop of a polygon: one line per vertex, from the vertex before it. */
    method DrawOutline(vs: seq<Pos>, tr: Option<string>, kw: Kwargs)
      requires |vs| >= 1
      modifies this
      ensures calls == old(calls) + Draw(transform, OutlineLines(vs, tr), kw)
    {
      var pos0 := vs[|vs| - 1];
      for i := 0 to |vs|
        invariant i < |vs| ==> pos0 == Previous(vs, i)
        invariant calls == old(calls) + Draw(transform, Outline(vs, tr, i), kw)
      {
        ghost var before := calls;
        Line(pos0, vs[i], tr, kw);
        OutlineStep(transform, vs, tr, kw, i, old(calls), before, calls);
        pos0 := vs[i];
      }
    }

    /** The polygon of the four corners spanned by two opposite corners. */
    method Rectangle(p0: Pos, p1: Pos, tr: Option<string>, fill: bool, kw: Kwargs)
      modifies this
      ensures calls == old(calls) + PolygonTrace(transform, RectangleCorners(p0, p1), tr, fill, kw)
    {
      Polygon([Pos(p0.x, p0.y), Pos(p0.x, p1.y), Pos(p1.x, p1.y), Pos(p1.x, p0.y)], tr, fill, kw);
    }
  }
}
