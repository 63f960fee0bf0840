/**
 * One character cell (a Texel) and its ANSI serialisation, plus the canvas
 * that owns a grid of cells.  A cell is rendered as a Select Graphic
 * Rendition control sequence (section 8.3.117 of ECMA-48): `ESC [`, the
 * parameters for foreground colour, background colour and every set style
 * flag separated by `;`, the final byte `m`, the glyph, and the reset
 * sequence `ESC [ 0 m`.  The 90-97 bright colours and the `38;2;r;g;b` /
 * `48;2;r;g;b` true-colour forms are de-facto extensions of that standard.
 */
module Tcanvas {
  import opened Wrappers
  import opened Decimal
  import opened SgrParams

  /** Control Sequence Introducer: ESC followed by `[`. */
  const CSI: string := "\U{1B}["

  /** The sequence that resets every attribute: `ESC [ 0 m`. */
  const RESET: string := "\U{1B}[0m"

  /** The symbolic colour keys and their foreground SGR codes. */
  const SUBS: map<string, int> := map[
    "k" := 30, "r" := 31, "g" := 32, "y" := 33, "b" := 34, "m" := 35, "c" := 36, "w" := 37,
    "0" := 39,
    "K" := 90, "R" := 91, "G" := 92, "Y" := 93, "B" := 94, "M" := 95, "C" := 96, "W" := 97
  ]

  /** The SGR codes of the style flags, in the order the renderer emits them. */
  const FLAG_CODES: seq<int> := [1, 2, 3, 4, 5, 7, 9, 53]

  /**
   * A colour: a symbolic key, an RGB triple of integers (0-255 intended) or an
   * RGB triple of reals (0.0-1.0 intended).
   */
  datatype Color =
    | Sym(key: string)
    | RGBInt(r: int, g: int, b: int)
    | RGBReal(x: real, y: real, z: real)

  /** Only the symbolic keys of the table can be formatted. */
  predicate ValidColor(c: Color) {
    c.Sym? ==> c.key in SUBS
  }

  /** Python's `int(x)` on a float: truncation toward zero. */
  function Trunc(x: real): int {
    if x >= 0.0 then x.Floor else -((-x).Floor)
  }

  /** `int(x * 255)`: a 0.0-1.0 channel scaled to an integer channel. */
  function Channel(x: real): (v: int)
    ensures 0.0 <= x <= 1.0 ==> 0 <= v <= 255 && v == (x * 255.0).Floor
    ensures x < 0.0 ==> v <= 0
  {
    Trunc(x * 255.0)
  }

  /** The SGR parameters that select `c` as foreground (`bg` false) or background colour. */
  function ColorParams(c: Color, bg: bool): (ps: seq<int>)
    requires ValidColor(c)
    ensures |ps| == 1 || |ps| == 5
  {
    match c
    case Sym(k) => [SUBS[k] + (if bg then 10 else 0)]
    case RGBInt(r, g, b) => [if bg then 48 else 38, 2, r, g, b]
    case RGBReal(r, g, b) => [if bg then 48 else 38, 2, Channel(r), Channel(g), Channel(b)]
  }

  /** The `38;2;r;g;b;` / `48;2;r;g;b;` text of an integer triple. */
  function TrueColorCode(bg: bool, r: int, g: int, b: int): string {
    (if bg then "48;2;" else "38;2;") + IntToString(r) + ";" + IntToString(g) + ";" + IntToString(b) + ";"
  }

  /** The decimal texts of the fixed codes the renderer writes literally. */
  lemma LiteralCodeTexts()
    ensures IntToString(1) == "1" && IntToString(2) == "2" && IntToString(3) == "3"
    ensures IntToString(4) == "4" && IntToString(5) == "5" && IntToString(7) == "7"
    ensures IntToString(9) == "9" && IntToString(53) == "53"
    ensures IntToString(38) == "38" && IntToString(48) == "48"
  {
    assert NatToString(53) == NatToString(5) + [DigitChar(3)];
    assert NatToString(38) == NatToString(3) + [DigitChar(8)];
    assert NatToString(48) == NatToString(4) + [DigitChar(8)];
  }

  lemma CodesSingle(x: int)
    ensures Codes([x]) == IntToString(x) + ";"
  {
    CodesSnoc([], x);
    assert [] + [x] == [x];
  }

  /** The true-colour text is the accumulated form of the five parameters `38|48, 2, r, g, b`. */
  lemma TrueColorCodeParams(bg: bool, r: int, g: int, b: int)
    ensures TrueColorCode(bg, r, g, b) == Codes([if bg then 48 else 38, 2, r, g, b])
  {
    var lead := if bg then 48 else 38;
    LiteralCodeTexts();
    assert Texts([lead, 2, r, g, b]) == [IntToString(lead), IntToString(2), IntToString(r), IntToString(g), IntToString(b)];
    TerminatedFive(IntToString(lead), "2", IntToString(r), IntToString(g), IntToString(b));
    assert (if bg then "48;2;" else "38;2;") == IntToString(lead) + ";" + "2" + ";";
  }

  /** The codes whose flag is set, in the order of the pairs. */
  function SetCodes(pairs: seq<(bool, int)>): seq<int> {
    if pairs == [] then []
    else
      var last := pairs[|pairs| - 1];
      SetCodes(pairs[..|pairs| - 1]) + (if last.0 then [last.1] else [])
  }

  /** Concatenation of strings is associative: four strings grouped to the left equal them grouped to the right. */
  lemma AppendThree(a: string, b: string, c: string, d: string)
    ensures a + b + c + d == a + (b + c + d)
  {
  }

  /** `s` followed by the text and `;` of every code whose flag is set, in the order of the pairs. */
  function AppendSetCodes(s: string, pairs: seq<(bool, int)>): string {
    if pairs == [] then s
    else
      var last := pairs[|pairs| - 1];
      var front := AppendSetCodes(s, pairs[..|pairs| - 1]);
      if last.0 then front + IntToString(last.1) + ";" else front
  }

  /** Appending the texts of the selected codes to accumulated codes accumulates the selected codes. */
  lemma {:induction false} AppendSetCodesAccumulates(acc: string, cps: seq<int>, pairs: seq<(bool, int)>)
    requires acc == CSI + Codes(cps)
    ensures AppendSetCodes(acc, pairs) == CSI + Codes(cps + SetCodes(pairs))
  {
    if pairs == [] {
      assert cps + [] == cps;
    } else {
      var init, last := pairs[..|pairs| - 1], pairs[|pairs| - 1];
      AppendSetCodesAccumulates(acc, cps, init);
      if last.0 {
        var selected := cps + SetCodes(init);
        var code := IntToString(last.1);
        assert SetCodes(pairs) == SetCodes(init) + [last.1];
        assert cps + (SetCodes(init) + [last.1]) == selected + [last.1];
        CodesSnoc(selected, last.1);
        AppendThree(CSI, Codes(selected), code, ";");
      } else {
        assert SetCodes(init) + [] == SetCodes(init);
      }
    }
  }

  /** A code is selected exactly when some pair carries it with its flag set. */
  lemma {:induction false} SetCodesMembers(pairs: seq<(bool, int)>, x: int)
    ensures x in SetCodes(pairs) <==> exists i :: 0 <= i < |pairs| && pairs[i].0 && pairs[i].1 == x
  {
    if pairs != [] {
      var init := pairs[..|pairs| - 1];
      SetCodesMembers(init, x);
      if exists i :: 0 <= i < |pairs| && pairs[i].0 && pairs[i].1 == x {
        var i :| 0 <= i < |pairs| && pairs[i].0 && pairs[i].1 == x;
        if i < |pairs| - 1 {
          assert init[i] == pairs[i];
        }
      }
      if x in SetCodes(init) {
        var i :| 0 <= i < |init| && init[i].0 && init[i].1 == x;
        assert pairs[i] == init[i];
      }
    }
  }

  /** Selection keeps the order of the pairs, so ascending codes stay ascending. */
  lemma {:induction false} SetCodesAscending(pairs: seq<(bool, int)>)
    requires forall i, j :: 0 <= i < j < |pairs| ==> pairs[i].1 < pairs[j].1
    ensures forall i, j :: 0 <= i < j < |SetCodes(pairs)| ==> SetCodes(pairs)[i] < SetCodes(pairs)[j]
  {
    if pairs != [] {
      var init, last := pairs[..|pairs| - 1], pairs[|pairs| - 1];
      var front := SetCodes(init);
      SetCodesAscending(init);
      forall k | 0 <= k < |front| ensures front[k] < last.1 {
        SetCodesMembers(init, front[k]);
        var i :| 0 <= i < |init| && init[i].0 && init[i].1 == front[k];
        assert init[i] == pairs[i];
      }
    }
  }

  /** No code is selected when no flag is set. */
  lemma {:induction false} SetCodesNoneSet(pairs: seq<(bool, int)>)
    requires forall i :: 0 <= i < |pairs| ==> !pairs[i].0
    ensures SetCodes(pairs) == []
  {
    if pairs != [] {
      SetCodesNoneSet(pairs[..|pairs| - 1]);
    }
  }

  /** With ascending codes, a pair's code is selected exactly when its flag is set. */
  lemma SelectedExactly(pairs: seq<(bool, int)>, k: nat)
    requires k < |pairs|
    requires forall i, j :: 0 <= i < j < |pairs| ==> pairs[i].1 < pairs[j].1
    ensures (pairs[k].1 in SetCodes(pairs)) == pairs[k].0
  {
    SetCodesMembers(pairs, pairs[k].1);
  }

  /** `s` extended by the text `code` when `flag` is set. */
  function WithCode(s: string, flag: bool, code: string): string {
    if flag then s + code else s
  }

  /** One cell of the display and its attributes; the defaults are those of a blank cell. */
  datatype Texel = Texel(
    character: string := "",
    fgColor: Color := Sym("0"),
    bgColor: Color := Sym("0"),
    bold: bool := false,
    faint: bool := false,
    italic: bool := false,
    underline: bool := false,
    cross: bool := false,
    blink: bool := false,
    inverse: bool := false,
    overline: bool := false)
  {
    predicate Valid() {
      ValidColor(fgColor) && ValidColor(bgColor)
    }

    /**
     * The SGR code of a colour followed by `;`.  A background code is its
     * foreground code plus 10.
     */
    static function AnsiColorCode(color: Color, bg: bool): (code: string)
      requires ValidColor(color)
      ensures code == Codes(ColorParams(color, bg))
    {
      match color
      case Sym(k) =>
        CodesSingle(SUBS[k] + (if bg then 10 else 0));
        if bg then IntToString(SUBS[k] + 10) + ";" else IntToString(SUBS[k]) + ";"
      case RGBInt(r, g, b) =>
        TrueColorCodeParams(bg, r, g, b);
        TrueColorCode(bg, r, g, b)
      case RGBReal(r, g, b) =>
        TrueColorCodeParams(bg, Channel(r), Channel(g), Channel(b));
        TrueColorCode(bg, Channel(r), Channel(g), Channel(b))
    }

    /** Each style flag paired with its SGR code, in the order the renderer tests the flags. */
    function FlagPairs(): (pairs: seq<(bool, int)>)
      ensures |pairs| == |FLAG_CODES|
      ensures forall i :: 0 <= i < |pairs| ==> pairs[i].1 == FLAG_CODES[i]
    {
      [(bold, 1), (faint, 2), (italic, 3), (underline, 4), (blink, 5), (inverse, 7), (cross, 9), (overline, 53)]
    }

    /** The codes of the set style flags, in the order the renderer tests the flags. */
    function FlagParams(): seq<int> {
      SetCodes(FlagPairs())
    }

    /** Every SGR parameter of the cell: foreground colour, background colour, then flags. */
    function Params(): seq<int>
      requires Valid()
    {
      ColorParams(fgColor, false) + ColorParams(bgColor, true) + FlagParams()
    }

    /** What is displayed: the character itself, or a space for an empty one. */
    function Glyph(): string {
      if |character| > 0 then character else " "
    }

    /** The rendered cell: the parameters `;`-separated between `ESC [` and `m`, the glyph, the reset. */
    function Rendered(): string
      requires Valid()
    {
      CSI + Encode(Params()) + "m" + Glyph() + RESET
    }

    /**
     * Builds the escape sequence for the cell the way the renderer does: the
     * codes, each followed by `;`, then the last `;` replaced by `m`, the
     * glyph and the reset.
     */
    method Render() returns (ansi: string)
      requires Valid()
      ensures ansi == Rendered()
      ensures |ansi| >= |CSI| + |RESET| && ansi[..|CSI|] == CSI && ansi[|ansi| - |RESET|..] == RESET
      ensures DecodeRendered(ansi) == Some((Params(), Glyph()))
    {
      ansi := CSI;
      ansi := ansi + AnsiColorCode(fgColor, false);
      ansi := ansi + AnsiColorCode(bgColor, true);
      ghost var colored := ansi;
      ansi := AppendFlagCodes(ansi);
      ColorsAccumulate(AnsiColorCode(fgColor, false), AnsiColorCode(bgColor, true),
                       ColorParams(fgColor, false), ColorParams(bgColor, true));
      AppendSetCodesAccumulates(colored, ColorParams(fgColor, false) + ColorParams(bgColor, true), FlagPairs());
      CodesFramed(ansi, Params(), Glyph());
      ansi := ansi[..|ansi| - 1];
      ansi := ansi + "m";
      if |character| > 0 {
        ansi := ansi + character;
      } else {
        ansi := ansi + " ";
      }
      ansi := ansi + RESET;
    }

    /** Appends `code;` for every set style flag, testing the flags in the renderer's order. */
    method AppendFlagCodes(prefix: string) returns (ansi: string)
      ensures ansi == AppendSetCodes(prefix, FlagPairs())
    {
      ansi := prefix;
      if bold {
        ansi := ansi + "1;";
      }
      if faint {
        ansi := ansi + "2;";
      }
      if italic {
        ansi := ansi + "3;";
      }
      if underline {
        ansi := ansi + "4;";
      }
      if blink {
        ansi := ansi + "5;";
      }
      if inverse {
        ansi := ansi + "7;";
      }
      if cross {
        ansi := ansi + "9;";
      }
      if overline {
        ansi := ansi + "53;";
      }
      FlagCodesUnrolled(prefix, bold, faint, italic, underline, blink, inverse, cross, overline);
    }
  }

  /** One more pair appends its code and `;` exactly when its flag is set. */
  lemma AppendSetCodesStep(s: string, pairs: seq<(bool, int)>, flag: bool, x: int, code: string, before: string, after: string)
    requires code == IntToString(x) + ";"
    requires before == AppendSetCodes(s, pairs)
    requires after == WithCode(before, flag, code)
    ensures after == AppendSetCodes(s, pairs + [(flag, x)])
  {
    assert (pairs + [(flag, x)])[..|pairs|] == pairs;
  }

  /** The flag codes appended one set flag at a time, in the order the renderer tests the flags. */
  lemma FlagCodesUnrolled(s: string, bold: bool, faint: bool, italic: bool, underline: bool, blink: bool, inverse: bool, cross: bool, overline: bool)
    ensures AppendSetCodes(s, [(bold, 1), (faint, 2), (italic, 3), (underline, 4), (blink, 5), (inverse, 7), (cross, 9), (overline, 53)]) ==
      WithCode(WithCode(WithCode(WithCode(WithCode(WithCode(WithCode(WithCode(s, bold, "1;"), faint, "2;"), italic, "3;"), underline, "4;"), blink, "5;"), inverse, "7;"), cross, "9;"), overline, "53;")
  {
    LiteralCodeTexts();
    var q0: seq<(bool, int)> := [];
    var s0 := s;
    var s1 := WithCode(s0, bold, "1;");
    AppendSetCodesStep(s, q0, bold, 1, "1;", s0, s1);
    var q1 := q0 + [(bold, 1)];
    var s2 := WithCode(s1, faint, "2;");
    AppendSetCodesStep(s, q1, faint, 2, "2;", s1, s2);
    var q2 := q1 + [(faint, 2)];
    var s3 := WithCode(s2, italic, "3;");
    AppendSetCodesStep(s, q2, italic, 3, "3;", s2, s3);
    var q3 := q2 + [(italic, 3)];
    var s4 := WithCode(s3, underline, "4;");
    AppendSetCodesStep(s, q3, underline, 4, "4;", s3, s4);
    var q4 := q3 + [(underline, 4)];
    var s5 := WithCode(s4, blink, "5;");
    AppendSetCodesStep(s, q4, blink, 5, "5;", s4, s5);
    var q5 := q4 + [(blink, 5)];
    var s6 := WithCode(s5, inverse, "7;");
    AppendSetCodesStep(s, q5, inverse, 7, "7;", s5, s6);
    var q6 := q5 + [(inverse, 7)];
    var s7 := WithCode(s6, cross, "9;");
    AppendSetCodesStep(s, q6, cross, 9, "9;", s6, s7);
    var q7 := q6 + [(cross, 9)];
    var s8 := WithCode(s7, overline, "53;");
    AppendSetCodesStep(s, q7, overline, 53, "53;", s7, s8);
    var q8 := q7 + [(overline, 53)];
    assert q8 == [(bold, 1), (faint, 2), (italic, 3), (underline, 4), (blink, 5), (inverse, 7), (cross, 9), (overline, 53)];
  }

  /** The two colour codes after `ESC [` accumulate the parameters of both colours. */
  lemma ColorsAccumulate(fgCode: string, bgCode: string, fgParams: seq<int>, bgParams: seq<int>)
    requires fgCode == Codes(fgParams) && bgCode == Codes(bgParams)
    ensures CSI + fgCode + bgCode == CSI + Codes(fgParams + bgParams)
  {
    CodesAppend(fgParams, bgParams);
  }

  /**
   * Accumulated codes with the final `;` replaced by `m`, followed by a glyph
   * and the reset, frame the `;`-separated parameters and decode back to them.
   */
  lemma CodesFramed(acc: string, ps: seq<int>, glyph: string)
    requires |ps| >= 1
    requires acc == CSI + Codes(ps)
    ensures |acc| >= 1 && acc[..|acc| - 1] + "m" + glyph + RESET == CSI + Encode(ps) + "m" + glyph + RESET
    ensures DecodeRendered(CSI + Encode(ps) + "m" + glyph + RESET) == Some((ps, glyph))
  {
    DropTerminator(acc, ps);
    EncodeShape(ps);
    DecodeEncode(ps);
    DecodeFramed(Encode(ps), glyph, ps);
  }

  /** Removing the final `;` of the accumulated text leaves the `;`-separated parameters. */
  lemma DropTerminator(ansi: string, ps: seq<int>)
    requires |ps| >= 1
    requires ansi == CSI + Codes(ps)
    ensures |ansi| >= 1 && ansi[..|ansi| - 1] == CSI + Encode(ps)
  {
    TerminatedIsJoined(Texts(ps));
  }

  /** The first index at or after `from` where `s` holds `c`. */
  function FirstIndex(s: string, c: char, from: nat): (r: Option<nat>)
    ensures r.Some? ==> from <= r.value < |s| && s[r.value] == c
    ensures r.Some? ==> forall j :: from <= j < r.value ==> s[j] != c
    ensures r.None? ==> forall j :: from <= j < |s| ==> s[j] != c
    decreases |s| - from
  {
    if from >= |s| then None
    else if s[from] == c then Some(from)
    else FirstIndex(s, c, from + 1)
  }

  /**
   * Reads a rendered cell back: its SGR parameters and its glyph, or `None`
   * when the text is not `ESC [ params m glyph ESC [ 0 m`.
   */
  function DecodeRendered(s: string): Option<(seq<int>, string)> {
    if |s| < |CSI| + |RESET| || s[..|CSI|] != CSI || s[|s| - |RESET|..] != RESET then None
    else
      match FirstIndex(s, 'm', |CSI|)
      case None => None
      case Some(m) =>
        if m + 1 > |s| - |RESET| then None
        else
          match Decode(s[|CSI|..m])
          case None => None
          case Some(ps) => Some((ps, s[m + 1..|s| - |RESET|]))
  }

  /** Framing a decodable parameter text and a glyph gives back both. */
  lemma DecodeFramed(body: string, glyph: string, ps: seq<int>)
    requires Decode(body) == Some(ps)
    requires 'm' !in body
    ensures DecodeRendered(CSI + body + "m" + glyph + RESET) == Some((ps, glyph))
  {
    var s := CSI + body + "m" + glyph + RESET;
    var m := |CSI| + |body|;
    assert s[..|CSI|] == CSI;
    assert s[|s| - |RESET|..] == RESET;
    assert s[m] == 'm';
    forall j | |CSI| <= j < m ensures s[j] != 'm' {
      assert s[j] == body[j - |CSI|];
    }
    assert FirstIndex(s, 'm', |CSI|) == Some(m);
    assert s[|CSI|..m] == body;
    assert s[m + 1..|s| - |RESET|] == glyph;
  }

  /** A rendered cell decodes to exactly its parameters and its glyph. */
  lemma RenderedRoundTrip(t: Texel)
    requires t.Valid()
    ensures DecodeRendered(t.Rendered()) == Some((t.Params(), t.Glyph()))
  {
    EncodeShape(t.Params());
    DecodeEncode(t.Params());
    DecodeFramed(Encode(t.Params()), t.Glyph(), t.Params());
  }

  /**
   * The flag codes are emitted in ascending order, only codes of the flag
   * table appear, and each appears exactly when its flag is set.
   */
  lemma FlagParamsExact(t: Texel)
    ensures forall i, j :: 0 <= i < j < |t.FlagParams()| ==> t.FlagParams()[i] < t.FlagParams()[j]
    ensures forall x :: x in t.FlagParams() ==> x in FLAG_CODES
    ensures (1 in t.FlagParams()) == t.bold && (2 in t.FlagParams()) == t.faint
    ensures (3 in t.FlagParams()) == t.italic && (4 in t.FlagParams()) == t.underline
    ensures (5 in t.FlagParams()) == t.blink && (7 in t.FlagParams()) == t.inverse
    ensures (9 in t.FlagParams()) == t.cross && (53 in t.FlagParams()) == t.overline
  {
    var pairs := t.FlagPairs();
    assert forall i, j :: 0 <= i < j < |FLAG_CODES| ==> FLAG_CODES[i] < FLAG_CODES[j];
    SetCodesAscending(pairs);
    forall x | x in t.FlagParams() ensures x in FLAG_CODES {
      SetCodesMembers(pairs, x);
    }
    SelectedExactly(pairs, 0);
    SelectedExactly(pairs, 1);
    SelectedExactly(pairs, 2);
    SelectedExactly(pairs, 3);
    SelectedExactly(pairs, 4);
    SelectedExactly(pairs, 5);
    SelectedExactly(pairs, 6);
    SelectedExactly(pairs, 7);
  }

  /** A symbolic key gives its table code as foreground and the code plus 10 as background. */
  lemma SymbolicCodes(k: string)
    requires k in SUBS
    ensures Texel.AnsiColorCode(Sym(k), false) == IntToString(SUBS[k]) + ";"
    ensures Texel.AnsiColorCode(Sym(k), true) == IntToString(SUBS[k] + 10) + ";"
  {
  }

  /** The texts of the default and bright-black codes. */
  lemma ExampleCodeTexts()
    ensures IntToString(39) == "39" && IntToString(49) == "49"
    ensures IntToString(90) == "90" && IntToString(100) == "100"
  {
    assert NatToString(39) == NatToString(3) + ['9'];
    assert NatToString(49) == NatToString(4) + ['9'];
    assert NatToString(90) == NatToString(9) + ['0'];
    assert NatToString(100) == NatToString(10) + ['0'];
    assert NatToString(10) == NatToString(1) + ['0'];
  }

  lemma SymbolicExamples()
    ensures Texel.AnsiColorCode(Sym("0"), false) == "39;"
    ensures Texel.AnsiColorCode(Sym("0"), true) == "49;"
    ensures Texel.AnsiColorCode(Sym("K"), false) == "90;"
    ensures Texel.AnsiColorCode(Sym("K"), true) == "100;"
  {
    ExampleCodeTexts();
    assert SUBS["0"] == 39 && SUBS["K"] == 90;
  }

  /** An integer triple is emitted as `38;2;r;g;b;` (foreground) or `48;2;r;g;b;` (background). */
  lemma TrueColorCodes(r: int, g: int, b: int)
    ensures Texel.AnsiColorCode(RGBInt(r, g, b), false)
         == "38;2;" + IntToString(r) + ";" + IntToString(g) + ";" + IntToString(b) + ";"
    ensures Texel.AnsiColorCode(RGBInt(r, g, b), true)
         == "48;2;" + IntToString(r) + ";" + IntToString(g) + ";" + IntToString(b) + ";"
  {
  }

  /** A real triple is emitted as the integer triple of its scaled, truncated channels. */
  lemma RealColorAsInt(r: real, g: real, b: real, bg: bool)
    ensures Texel.AnsiColorCode(RGBReal(r, g, b), bg)
         == Texel.AnsiColorCode(RGBInt(Channel(r), Channel(g), Channel(b)), bg)
  {
  }

  /** The true-colour triple (1.0, 0.0, 0.5) and (255, 0, 127) give the same code. */
  lemma RealColorExample(bg: bool)
    ensures Texel.AnsiColorCode(RGBReal(1.0, 0.0, 0.5), bg) == Texel.AnsiColorCode(RGBInt(255, 0, 127), bg)
  {
    assert Channel(0.5) == 127;
  }

  /** Every background code is the foreground code of the same colour with its first parameter plus 10. */
  lemma BackgroundIsForegroundPlusTen(c: Color)
    requires ValidColor(c)
    ensures ColorParams(c, true) == [ColorParams(c, false)[0] + 10] + ColorParams(c, false)[1..]
  {
  }

  /** The default cell renders as `ESC [ 39;49 m`, a space and the reset. */
  lemma DefaultRendered()
    ensures Texel().Rendered() == "\U{1B}[39;49m \U{1B}[0m"
  {
    var t := Texel();
    SetCodesNoneSet(t.FlagPairs());
    assert t.Params() == [39, 49];
    ExampleCodeTexts();
    assert Encode([39, 49]) == "39" + ";" + Encode([49]);
  }

  /** Python's `len(range(n))`: no iterations for a negative bound. */
  function RangeLength(n: int): nat {
    if n < 0 then 0 else n
  }

  /** A canvas of `columns` by `rows` cells. */
  class TCanvas {
    var columns: int
    var rows: int
    var buffer: seq<seq<Texel>>

    /** An absent dimension defaults to the terminal's, which the caller supplies. */
    constructor (columns: Option<int>, rows: Option<int>, terminalSize: (int, int))
      ensures this.columns == (if columns.Some? then columns.value else terminalSize.0)
      ensures this.rows == (if rows.Some? then rows.value else terminalSize.1)
      ensures buffer == []
    {
      var termWidth, termHeight := terminalSize.0, terminalSize.1;
      if columns.None? {
        this.columns := termWidth;
      } else {
        this.columns := columns.value;
      }
      if rows.None? {
        this.rows := termHeight;
      } else {
        this.rows := rows.value;
      }
      buffer := [];
    }

    /** The number of columns and rows, in that order. */
    function GetSize(): (size: (int, int))
      reads this
      ensures size.0 == columns && size.1 == rows
    {
      (columns, rows)
    }

    /**
     * Rebuilds the buffer from default cells.  The first element of the size
     * is unpacked as the number of outer lists, so the buffer holds `columns`
     * lists of `rows` cells each.
     */
    method Clear()
      modifies this
      ensures columns == old(columns) && rows == old(rows)
      ensures |buffer| == RangeLength(GetSize().0)
      ensures forall i :: 0 <= i < |buffer| ==>
                |buffer[i]| == RangeLength(GetSize().1) &&
                forall j :: 0 <= j < |buffer[i]| ==> buffer[i][j] == Texel()
    {
      buffer := [];
      var size := GetSize();
      var nrow, ncol := size.0, size.1;
      for row := 0 to RangeLength(nrow)
        invariant columns == old(columns) && rows == old(rows)
        invariant |buffer| == row
        invariant forall i :: 0 <= i < row ==>
                    |buffer[i]| == RangeLength(ncol) && forall j :: 0 <= j < |buffer[i]| ==> buffer[i][j] == Texel()
      {
        buffer := buffer + [[]];
        for column := 0 to RangeLength(ncol)
          invariant columns == old(columns) && rows == old(rows)
          invariant |buffer| == row + 1
          invariant forall i :: 0 <= i < row ==>
                      |buffer[i]| == RangeLength(ncol) && forall j :: 0 <= j < |buffer[i]| ==> buffer[i][j] == Texel()
          invariant |buffer[row]| == column
          invariant forall j :: 0 <= j < column ==> buffer[row][j] == Texel()
        {
          buffer := buffer[|buffer| - 1 := buffer[|buffer| - 1] + [Texel()]];
        }
      }
    }
  }
}
