/**
 * Parameter lists of a Select Graphic Rendition control sequence (section
 * 8.3.117 of ECMA-48): decimal numbers separated by `;`.  `Codes` is the form
 * the renderer accumulates (every parameter followed by `;`), `Encode` the form
 * it emits (no trailing `;`), and `Decode` reads an emitted list back.  The
 * list structure is stated over the parameters' texts, so that it does not
 * depend on how a number is written.
 */
module SgrParams {
  import opened Wrappers
  import opened Decimal

  /** The `%d` text of every parameter. */
  function Texts(ps: seq<int>): (ts: seq<string>)
    ensures |ts| == |ps|
  {
    seq(|ps|, i requires 0 <= i < |ps| => IntToString(ps[i]))
  }

  /** Every text followed by `;`, the way the renderer accumulates them. */
  function Terminated(ts: seq<string>): string {
    if ts == [] then "" else Terminated(ts[..|ts| - 1]) + ts[|ts| - 1] + ";"
  }

  /** The texts separated by `;`, with no trailing `;`. */
  function Joined(ts: seq<string>): string {
    if |ts| == 0 then ""
    else if |ts| == 1 then ts[0]
    else Joined(ts[..|ts| - 1]) + ";" + ts[|ts| - 1]
  }

  /** Every parameter's `%d` text followed by `;`. */
  function Codes(ps: seq<int>): string {
    Terminated(Texts(ps))
  }

  /** The parameters' `%d` texts separated by `;`. */
  function Encode(ps: seq<int>): string {
    Joined(Texts(ps))
  }

  /** Cuts a string at every `;` (as Python's `str.split(";")`). */
  function Split(s: string): (r: seq<string>)
    ensures |r| >= 1
  {
    if s == [] then [""]
    else
      var rest := Split(s[1..]);
      if s[0] == ';' then [""] + rest else [[s[0]] + rest[0]] + rest[1..]
  }

  /** Parses every piece as an integer; `None` as soon as one piece is not one. */
  function ParseAll(ts: seq<string>): Option<seq<int>> {
    if ts == [] then Some([])
    else
      match (ParseAll(ts[..|ts| - 1]), ParseInt(ts[|ts| - 1]))
      case (Some(vs), Some(v)) => Some(vs + [v])
      case _ => None
  }

  function Decode(s: string): Option<seq<int>> {
    ParseAll(Split(s))
  }

  lemma TextsAppend(a: seq<int>, b: seq<int>)
    ensures Texts(a + b) == Texts(a) + Texts(b)
  {
  }

  lemma TerminatedSnoc(ts: seq<string>, t: string)
    ensures Terminated(ts + [t]) == Terminated(ts) + t + ";"
  {
    assert (ts + [t])[..|ts|] == ts;
  }

  lemma {:induction false} TerminatedAppend(a: seq<string>, b: seq<string>)
    ensures Terminated(a + b) == Terminated(a) + Terminated(b)
  {
    if b == [] {
      assert a + b == a;
    } else {
      var init, t := b[..|b| - 1], b[|b| - 1];
      TerminatedAppend(a, init);
      assert a + b == (a + init) + [t];
      TerminatedSnoc(a + init, t);
    }
  }

  /** Five texts accumulate to the texts each followed by `;`. */
  lemma TerminatedFive(a: string, b: string, c: string, d: string, e: string)
    ensures Terminated([a, b, c, d, e]) == a + ";" + b + ";" + c + ";" + d + ";" + e + ";"
  {
    assert [a][..0] == [];
    assert Terminated([a]) == a + ";";
    assert [a, b][..1] == [a];
    assert Terminated([a, b]) == a + ";" + b + ";";
    assert [a, b, c][..2] == [a, b];
    assert Terminated([a, b, c]) == a + ";" + b + ";" + c + ";";
    assert [a, b, c, d][..3] == [a, b, c];
    assert Terminated([a, b, c, d]) == a + ";" + b + ";" + c + ";" + d + ";";
    assert [a, b, c, d, e][..4] == [a, b, c, d];
  }

  lemma CodesSnoc(ps: seq<int>, x: int)
    ensures Codes(ps + [x]) == Codes(ps) + IntToString(x) + ";"
  {
    TextsAppend(ps, [x]);
    TerminatedSnoc(Texts(ps), IntToString(x));
  }

  lemma CodesAppend(a: seq<int>, b: seq<int>)
    ensures Codes(a + b) == Codes(a) + Codes(b)
  {
    TextsAppend(a, b);
    TerminatedAppend(Texts(a), Texts(b));
  }

  /** Dropping the last character of the accumulated texts gives the joined list. */
  lemma {:induction false} TerminatedIsJoined(ts: seq<string>)
    requires |ts| >= 1
    ensures Terminated(ts) == Joined(ts) + ";"
  {
    if |ts| == 1 {
      assert ts[..0] == [];
    } else {
      TerminatedIsJoined(ts[..|ts| - 1]);
    }
  }

  /** A character that is in no text and is not `;` is not in the joined list. */
  lemma {:induction false} JoinedAvoids(ts: seq<string>, c: char)
    requires c != ';'
    requires forall k :: 0 <= k < |ts| ==> c !in ts[k]
    ensures c !in Joined(ts)
  {
    if |ts| >= 2 {
      JoinedAvoids(ts[..|ts| - 1], c);
    }
  }

  lemma {:induction false} SplitWithoutSeparator(p: string)
    requires ';' !in p
    ensures Split(p) == [p]
  {
    if p != [] {
      SplitWithoutSeparator(p[1..]);
      assert [p[0]] + p[1..] == p;
    }
  }

  /** A separator followed by a piece without one adds that piece to the split. */
  lemma {:induction false} SplitAtLastSeparator(t: string, p: string)
    requires ';' !in p
    ensures Split(t + ";" + p) == Split(t) + [p]
  {
    var s := t + ";" + p;
    if t == [] {
      assert s[1..] == p;
      SplitWithoutSeparator(p);
    } else {
      assert s[1..] == t[1..] + ";" + p;
      SplitAtLastSeparator(t[1..], p);
      var rest := Split(t[1..]);
      assert (rest + [p])[0] == rest[0];
      assert (rest + [p])[1..] == rest[1..] + [p];
    }
  }

  /** Splitting undoes joining when no text contains the separator. */
  lemma {:induction false} SplitJoined(ts: seq<string>)
    requires |ts| >= 1
    requires forall k :: 0 <= k < |ts| ==> ';' !in ts[k]
    ensures Split(Joined(ts)) == ts
  {
    if |ts| == 1 {
      SplitWithoutSeparator(ts[0]);
    } else {
      var init := ts[..|ts| - 1];
      SplitJoined(init);
      SplitAtLastSeparator(Joined(init), ts[|ts| - 1]);
      assert init + [ts[|ts| - 1]] == ts;
    }
  }

  /** Parsing the `%d` texts gives the parameters back. */
  lemma {:induction false} ParseTexts(ps: seq<int>)
    ensures ParseAll(Texts(ps)) == Some(ps)
  {
    if ps != [] {
      var init := ps[..|ps| - 1];
      ParseTexts(init);
      IntToStringRoundTrip(ps[|ps| - 1]);
      assert Texts(ps)[..|ps| - 1] == Texts(init);
      assert init + [ps[|ps| - 1]] == ps;
    }
  }

  /** Every non-empty parameter list survives encoding and decoding unchanged. */
  lemma DecodeEncode(ps: seq<int>)
    requires |ps| >= 1
    ensures Decode(Encode(ps)) == Some(ps)
  {
    forall k | 0 <= k < |ps| ensures ';' !in Texts(ps)[k] {
      IntToStringAlphabet(ps[k]);
    }
    SplitJoined(Texts(ps));
    ParseTexts(ps);
  }

  lemma JoinedEndsWithLast(ts: seq<string>)
    requires |ts| >= 1 && |ts[|ts| - 1]| >= 1
    ensures |Joined(ts)| >= 1
    ensures Joined(ts)[|Joined(ts)| - 1] == ts[|ts| - 1][|ts[|ts| - 1]| - 1]
  {
  }

  /** The emitted list holds no `m` (the SGR final byte) and ends in a digit, never in `;`. */
  lemma EncodeShape(ps: seq<int>)
    requires |ps| >= 1
    ensures 'm' !in Encode(ps)
    ensures |Encode(ps)| >= 1 && IsDigit(Encode(ps)[|Encode(ps)| - 1])
  {
    forall k | 0 <= k < |ps| ensures 'm' !in Texts(ps)[k] {
      IntToStringAlphabet(ps[k]);
    }
    JoinedAvoids(Texts(ps), 'm');
    JoinedEndsWithLast(Texts(ps));
    IntToStringAlphabet(ps[|ps| - 1]);
  }
}
