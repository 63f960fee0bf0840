# tcanvas in Dafny

A model of the two cooperating pieces of the `tcanvas` terminal-drawing
library, with proofs about them.

**Cell serialiser (`tcanvas.dfy`, module `Tcanvas`)**

- A `Texel` is one character cell. It has a character, a foreground and a
  background colour, and eight style flags.
- `Render` turns a cell into a Select Graphic Rendition control sequence
  (section 8.3.117 of ECMA-48). It writes `ESC [`, the colour codes and the
  code of every set flag, each followed by `;`. It then drops the last `;`,
  writes `m`, the glyph and the reset `ESC [ 0 m`.
- A colour is one of three things:
  - one of the 17 symbolic keys (codes 30-37, 39 and the bright 90-97);
  - an integer RGB triple (`38;2;r;g;b` / `48;2;r;g;b`);
  - a real triple scaled by `int(x * 255)`.
- `TCanvas` holds the canvas size and a buffer of cells. The constructor
  leaves the buffer empty, `GetSize` only reads the size, and `Clear`
  rebuilds the buffer from default cells.

The model keeps the source's unpacking in `clear`, `nrow, ncol = get_size()`.
Since `get_size` returns `(columns, rows)`, the buffer holds `columns` lists
of `rows` cells each.

**Decimal text and parameter lists (`decimal.dfy`, `sgr_params.dfy`)**

These two files give the renderer's `%d` formatting and `;`-joining a
reading-back partner:

- `ParseInt` reads back an integer;
- `Decode` reads back a parameter list;
- `DecodeRendered` reads back a whole rendered cell.

Round trips are proved for all three.

**Rasteriser (`geometry.dfy`, module `Geometry`)**

`Geometry2D` draws only through `set(pos, transformation, **kwargs)`. The
model records every such call, in order, in the field `calls`. The drawing
surface's `transform_position` is the constant function field `transform`.

- `Line` steps along the longer axis of the transformed segment.
- `Triangle` draws the three edges between the transformed vertices without
  a transformation. When filling, it then draws a line from every inner step
  of edge 0-1 to vertex 2.
- `Polygon` draws either the closed outline or a fan of filled triangles
  around the centroid.
- `Rectangle` is the four-corner polygon.

`Line`, `Triangle`, `Polygon` and `Rectangle` are proved to append exactly
the calls of a specification function: `LineTrace`, `TriangleTrace` or
`PolygonTrace`. `Set` appends its one call. The helper methods are proved
against the functions their parts are built from:

- `DrawEdges`, `FillTriangle` and `DrawOutline` against `Draw`, the calls of
  a list of lines;
- `FillFan` against `DrawTriangles`, the calls of a list of filled triangles.

Lemmas state what those calls are:

- their number;
- their positions, transformations and keyword arguments;
- how a triangle, polygon or rectangle is composed of lines.

## Model

| member | source | states |
|---|---|---|
| Decimal.IntToStringRoundTrip | src/tcanvas/tcanvas.py:103-105 | the `%d` text of every integer parses back to that integer |
| Decimal.NatToStringDigits | src/tcanvas/tcanvas.py:103-105 | `%d` of a natural number is all digits, with no leading zero |
| Decimal.IntToStringAlphabet | src/tcanvas/tcanvas.py:103-105 | `%d` of an integer ends in a digit and is all digits except a `-` in front of a negative number |
| Decimal.ParseNatToString | src/tcanvas/tcanvas.py:103-105 | the digits of a natural number evaluate back to it |
| SgrParams.TerminatedIsJoined | src/tcanvas/tcanvas.py:138 | dropping the last character of `;`-terminated texts leaves them `;`-separated |
| SgrParams.CodesAppend | src/tcanvas/tcanvas.py:119-137 | accumulating two parameter lists one after the other accumulates their concatenation |
| SgrParams.CodesSnoc | src/tcanvas/tcanvas.py:119-137 | appending one `code;` accumulates one more parameter |
| SgrParams.TerminatedAppend | src/tcanvas/tcanvas.py:119-137 | terminating two lists of texts is terminating their concatenation |
| SgrParams.TerminatedFive | src/tcanvas/tcanvas.py:111-114 | proof step: five texts accumulate to `a;b;c;d;e;` |
| SgrParams.SplitJoined | src/tcanvas/tcanvas.py:138 | splitting at `;` undoes joining texts that hold no `;` |
| SgrParams.SplitAtLastSeparator | src/tcanvas/tcanvas.py:138 | a last `;` adds one piece to the split |
| SgrParams.ParseTexts | src/tcanvas/tcanvas.py:103-105 | parsing the `%d` texts gives back the parameters |
| SgrParams.DecodeEncode | src/tcanvas/tcanvas.py:138 | a non-empty parameter list, joined by `;`, decodes back to itself |
| SgrParams.EncodeShape | src/tcanvas/tcanvas.py:138-139 | the joined list has no `m` and ends in a digit, so the final `m` is the first `m` |
| SgrParams.JoinedAvoids | src/tcanvas/tcanvas.py:138 | a character in no text, other than `;`, is absent from the joined list |
| Tcanvas.Channel | src/tcanvas/tcanvas.py:108-110 | for a channel in [0, 1], `int(x * 255)` is `floor(x * 255)` and lies in [0, 255]; a negative channel gives at most 0 |
| Tcanvas.Texel.AnsiColorCode | src/tcanvas/tcanvas.py:77-114 | a colour's code is its SGR parameters, each followed by `;`: one parameter for a symbolic key, five for a triple |
| Tcanvas.SymbolicCodes | src/tcanvas/tcanvas.py:101-105 | key `k` gives `str(table[k]);` as foreground and `str(table[k] + 10);` as background |
| Tcanvas.SymbolicExamples | src/tcanvas/tcanvas.py:82-105 | `"0"` gives `39;` / `49;` and `"K"` gives `90;` / `100;` |
| Tcanvas.TrueColorCodes | src/tcanvas/tcanvas.py:111-114 | an integer triple gives exactly `38;2;r;g;b;` (foreground) or `48;2;r;g;b;` (background) |
| Tcanvas.RealColorAsInt | src/tcanvas/tcanvas.py:108-114 | a real triple gives the code of the integer triple of its scaled, truncated channels |
| Tcanvas.RealColorExample | src/tcanvas/tcanvas.py:108-110 | (1.0, 0.0, 0.5) gives the same code as (255, 0, 127) |
| Tcanvas.BackgroundIsForegroundPlusTen | src/tcanvas/tcanvas.py:101-114 | a background's parameters are the foreground's with the first one plus 10 |
| Tcanvas.TrueColorCodeParams | src/tcanvas/tcanvas.py:111-114 | the true-colour text is the five parameters `38/48, 2, r, g, b`, each followed by `;` |
| Tcanvas.Texel.AppendFlagCodes | src/tcanvas/tcanvas.py:122-137 | the eight flag tests append `code;` for exactly the set flags, in the order 1, 2, 3, 4, 5, 7, 9, 53 |
| Tcanvas.FlagCodesUnrolled | src/tcanvas/tcanvas.py:122-137 | testing the eight flags one by one appends the same text as the selected codes of the flag table |
| Tcanvas.AppendSetCodesAccumulates | src/tcanvas/tcanvas.py:119-137 | appending the selected flag codes to the accumulated colour codes accumulates colours followed by flags |
| Tcanvas.SetCodesMembers | src/tcanvas/tcanvas.py:122-137 | a code is emitted exactly when some flag carrying it is set |
| Tcanvas.SetCodesAscending | src/tcanvas/tcanvas.py:122-137 | the emitted codes keep the order of the flag table |
| Tcanvas.SetCodesNoneSet | src/tcanvas/tcanvas.py:122-137 | no flag set, no flag code |
| Tcanvas.FlagParamsExact | src/tcanvas/tcanvas.py:122-137 | the flag codes are ascending, come from the table, and each appears exactly when its flag is set |
| Tcanvas.DropTerminator | src/tcanvas/tcanvas.py:138 | `ansi[:-1]` removes exactly the last `;`, leaving the `;`-separated parameters |
| Tcanvas.CodesFramed | src/tcanvas/tcanvas.py:138-145 | dropping the last `;`, then adding `m`, the glyph and the reset, frames the joined parameters, and the result decodes back |
| Tcanvas.DecodeFramed | src/tcanvas/tcanvas.py:138-145 | `ESC [` + parameters + `m` + glyph + `ESC [ 0 m` decodes to the parameters and the glyph |
| Tcanvas.Texel.Render | src/tcanvas/tcanvas.py:116-147 | the output equals `Rendered()`: it starts with `ESC [` and ends with `ESC [ 0 m`. Between them are the fg, bg and set-flag parameters joined by `;`, then `m`, then the character or a space. It decodes back to those parameters and that glyph |
| Tcanvas.RenderedRoundTrip | src/tcanvas/tcanvas.py:116-147 | every rendered cell decodes to exactly its parameters and its glyph |
| Tcanvas.DefaultRendered | src/tcanvas/tcanvas.py:51-147 | a cell with the constructor's defaults renders as `ESC [ 39;49 m`, a space, `ESC [ 0 m` |
| Tcanvas.TCanvas.constructor | src/tcanvas/tcanvas.py:160-171 | each absent dimension takes the terminal's; the buffer starts empty |
| Tcanvas.TCanvas.GetSize | src/tcanvas/tcanvas.py:173-175 | returns `(columns, rows)` in that order |
| Tcanvas.TCanvas.Clear | src/tcanvas/tcanvas.py:177-184 | the buffer has `len(range(get_size()[0]))` lists of `len(range(get_size()[1]))` default cells; the size is unchanged |
| Geometry.Steps | src/tcanvas/geometry.py:12-14 | the step count is the larger of the two axis distances |
| Geometry.LerpClosed | src/tcanvas/geometry.py:19-28 | after `k` accumulated steps the position is `pos0 + k * (pos1 - pos0) / steps` |
| Geometry.LerpEnds | src/tcanvas/geometry.py:19-28 | zero steps stay at `pos0`; all `steps` steps reach `pos1` |
| Geometry.LineTraceShape | src/tcanvas/geometry.py:12-28 | a line makes `steps + 1` calls (one when `steps` is 0), the first at `pos0` and, when `steps > 0`, the last at `pos1`; every call has the line's transformation and kwargs |
| Geometry.LineTraceAt | src/tcanvas/geometry.py:19-28 | call `k` of a line is at `pos0 + k * (pos1 - pos0) / steps` |
| Geometry.LinePointsAt | src/tcanvas/geometry.py:23-28 | the first `k + 1` calls are at the first `k + 1` accumulated positions |
| Geometry.Geometry2D.Set | src/tcanvas/geometry.py:17 | one `set` call is appended to the trace, nothing else |
| Geometry.Geometry2D.Line | src/tcanvas/geometry.py:4-28 | the trace grows by exactly the calls of the line |
| Geometry.DrawAppend | src/tcanvas/geometry.py:37-39 | drawing two lists of lines one after the other draws their concatenation |
| Geometry.DrawThree | src/tcanvas/geometry.py:37-39 | proof step: three lines drawn in order give the calls of the three |
| Geometry.TriangleLinesShape | src/tcanvas/geometry.py:33-58 | edges T0-T1, T1-T2, T0-T2 come first, without a transformation. With `fill`, exactly `max(0, steps - 1)` fill lines follow; fill line `i` runs from the `i`-th step of edge 0-1 to `pos2` with the caller's transformation |
| Geometry.FillLinesAt | src/tcanvas/geometry.py:55-58 | fill line `i` starts at the position after `i + 1` steps |
| Geometry.FillStep | src/tcanvas/geometry.py:55-58 | proof step: one more fill-loop iteration draws one more fill line |
| Geometry.TriangleDone | src/tcanvas/geometry.py:37-58 | proof step: the edges followed by the fill lines (or none) are the triangle's calls |
| Geometry.Geometry2D.DrawEdges | src/tcanvas/geometry.py:37-39 | the three edges are drawn, in order, without a transformation |
| Geometry.Geometry2D.FillTriangle | src/tcanvas/geometry.py:49-58 | the fill loop draws exactly the `steps - 1` fill lines |
| Geometry.Geometry2D.Triangle | src/tcanvas/geometry.py:30-58 | the trace grows by exactly the triangle's calls |
| Geometry.OutlineAt | src/tcanvas/geometry.py:84-87 | outline edge `i` runs from the vertex before `i` (wrapping) to vertex `i` |
| Geometry.OutlineCloses | src/tcanvas/geometry.py:82-87 | an outline of `n` vertices has `n` edges. The first starts at the last vertex and edge `i` ends at vertex `i`. Consecutive edges meet, and the last edge ends where the first starts |
| Geometry.OutlineStep | src/tcanvas/geometry.py:85-87 | proof step: one more outline iteration draws one more edge |
| Geometry.Geometry2D.DrawOutline | src/tcanvas/geometry.py:82-87 | the outline loop draws exactly the outline edges |
| Geometry.SumBounds | src/tcanvas/geometry.py:71-73 | the sum of `n` coordinates along one axis, each in `[lo, hi]`, lies in `[n * lo, n * hi]` |
| Geometry.MeanBounds | src/tcanvas/geometry.py:74-75 | proof step: dividing such a sum by `n` gives a value in `[lo, hi]` |
| Geometry.CentroidOf | src/tcanvas/geometry.py:68-75 | the centroid loop computes the arithmetic mean of the vertices |
| Geometry.CentroidInBox | src/tcanvas/geometry.py:68-75 | the centroid lies in every axis-aligned box holding all vertices |
| Geometry.FanAt | src/tcanvas/geometry.py:76-81 | fan triangle `i` is (centre, vertex before `i`, vertex `i`) |
| Geometry.FanOverOutline | src/tcanvas/geometry.py:67-81 | a filled polygon has one triangle per vertex, from the centroid over the matching outline edge |
| Geometry.FanStep | src/tcanvas/geometry.py:77-81 | proof step: one more fan iteration draws one more filled triangle |
| Geometry.Geometry2D.FillFan | src/tcanvas/geometry.py:76-81 | the fan loop draws exactly the fan's filled triangles |
| Geometry.Geometry2D.Polygon | src/tcanvas/geometry.py:60-87 | the trace grows by exactly the fan (fill) or the outline calls |
| Geometry.RectangleCorners | src/tcanvas/geometry.py:92-95 | four corners, the first `pos0` and the third `pos1` |
| Geometry.RectangleAxisAligned | src/tcanvas/geometry.py:92-95 | every edge of a rectangle's outline is vertical or horizontal |
| Geometry.Geometry2D.Rectangle | src/tcanvas/geometry.py:89-99 | the trace grows by exactly the calls of the polygon `[(x0,y0), (x0,y1), (x1,y1), (x1,y0)]` with the same fill, transformation and kwargs |

## Left out

- Terminal size: `click.get_terminal_size()` is terminal I/O. The constructor takes the terminal size as a parameter.
- Tcanvas.TCanvas.constructor: `clear_buffer`, which `__init__` calls at the end, is not defined in the shown class, so constructing a `TCanvas` raises AttributeError there unless a subclass supplies it. The model does not capture that error: its constructor finishes with an empty buffer.
- Tcanvas.TCanvas.Clear: `clear` is declared without `self`, so it fails when called on an instance. It is modelled as the evident instance method.
- `set` and `transform_position`: their definitions, and any clipping to the canvas, are not part of this model. `set` only records its call, and `transform_position` is an arbitrary function supplied to the constructor.
- Floating point: every position and step width is an exact real. This covers the accumulated `x += dpx` steps and `int(x * 255)`. Rounding drift is not modelled.
- Tcanvas.Texel.AnsiColorCode: a colour string outside the 17-entry table is excluded by a precondition (`ValidColor`). The source fails there with a formatting error.
- Mixed triples: the source scales a triple when its first element is a float. A triple mixing ints and floats is not modelled; a colour is all-integer or all-real.
- Non-integer values in an integer triple, which `%d` would truncate, are not modelled.
- Geometry.Geometry2D.Polygon: an empty vertex list is excluded by a precondition. The source divides by `len(vertices)` and indexes `vertices[-1]`, so it fails there.
- kwargs: keyword arguments are a map from names to simple values (text, flag, number), passed through untouched; a value such as a tuple colour (`fg_color=(255, 0, 0)`) cannot be expressed.
- Geometry.Geometry2D.Polygon: a keyword argument that collides with a parameter of the call it is passed on to makes the source raise TypeError, which the model does not capture (it records the calls). The keys are `pos0` and `pos1` (passed to `line` or `triangle`), and with `fill` also `pos2`. Keys naming the method's own parameters (`vertices`, `transformation`, `fill`) cannot reach it in Python at all.
- Geometry.Geometry2D.Rectangle: the same holds for the key `vertices` (passed to `polygon`) and, with `fill`, `pos2`, besides the keys listed for `Polygon`.
- Geometry.Geometry2D.Line, Geometry.Geometry2D.Triangle: keys naming their own parameters (`pos0`, `pos1`, `pos2`, `transformation`, `fill`) cannot be passed in Python; the model's map does not exclude them.
- Geometry2D constructor: the source class is a mixin without a constructor; the model's constructor only installs the drawing surface's position transform and an empty trace.
- Texel: a datatype with the constructor's default arguments. Nothing shown updates a cell's fields after construction.
- Helper methods: `Triangle`, `Polygon` and `Render` hand parts of their work to helper methods, in the source's order:
  - the three edges (`DrawEdges`);
  - the triangle fill loop (`FillTriangle`);
  - the centroid loop (`CentroidOf`);
  - the fan and outline loops (`FillFan`, `DrawOutline`);
  - the eight flag tests (`AppendFlagCodes`).
- `test.py` and `test_all.py` are demonstration scripts that assert nothing. They are not part of this model.
