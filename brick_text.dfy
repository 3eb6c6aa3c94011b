/** The line-based text form of a brick: `{h}x{w} ({x},{y},{z})` and a newline. */
module BrickText {
  import opened Results
  import opened Strings
  import opened Bricks

  /** The line without its newline; also what repr() of a brick shows. */
  function TxtBody(b: Brick): string {
    IntStr(b.h) + ("x" + (IntStr(b.w) + (" (" + (IntStr(b.x) + ("," + (IntStr(b.y) + ("," + (IntStr(b.z) + ")"))))))))
  }

  /** Brick.to_txt */
  function ToTxt(b: Brick): string {
    TxtBody(b) + "\n"
  }

  /** The text `d1 x d2 (d3,d4,d5)` assembled from five digit strings. */
  function TxtLine(d1: string, d2: string, d3: string, d4: string, d5: string): string {
    d1 + ("x" + (d2 + (" (" + (d3 + ("," + (d4 + ("," + (d5 + ")"))))))))
  }

  /**
   * What the regular expression `(\d+)x(\d+) \((\d+),(\d+),(\d+)\)` fully matches in t,
   * paired with the brick whose fields are int() of the five groups.
   */
  ghost predicate MatchesTxt(t: string, b: Brick) {
    exists d1, d2, d3, d4, d5 |
      IsNumeral(d1) && IsNumeral(d2) && IsNumeral(d3) && IsNumeral(d4) && IsNumeral(d5) ::
      t == TxtLine(d1, d2, d3, d4, d5)
      && b == Brick(NumeralValue(d1), NumeralValue(d2), NumeralValue(d3), NumeralValue(d4), NumeralValue(d5))
  }

  /** One `(\d+)` group followed by the literal lit: its value and what follows. */
  function Field(s: string, lit: string): Option<(nat, string)> {
    var n :- ParseNat(s);
    var rest :- Expect(n.1, lit);
    Some((n.0, rest))
  }

  /** The pattern applied to an already-stripped line. */
  function ParseTxt(t: string): Option<Brick> {
    var h :- Field(t, "x");
    var w :- Field(h.1, " (");
    var x :- Field(w.1, ",");
    var y :- Field(x.1, ",");
    var z :- Field(y.1, ")");
    if z.1 == [] then Some(Brick(h.0, w.0, x.0, y.0, z.0)) else None
  }

  /** Brick.from_txt: strip the line, then require a full match; otherwise a format error. */
  function FromTxt(line: string): (r: Result<Brick>)
    ensures r.Err? ==> r.error == FormatError
  {
    match ParseTxt(Strip(line))
    case Some(b) => Ok(b)
    case None => Err(FormatError)
  }

  /** The digits a successful Field consumed. */
  function FieldDigits(s: string): string {
    s[..LeadingDigits(s)]
  }

  lemma FieldSplit(s: string, lit: string)
    requires Field(s, lit).Some?
    ensures IsNumeral(FieldDigits(s))
    ensures s == FieldDigits(s) + (lit + Field(s, lit).value.1)
    ensures Field(s, lit).value.0 == NumeralValue(FieldDigits(s))
  {
    var n := LeadingDigits(s);
    assert s == s[..n] + s[n..];
  }

  lemma FieldNumeral(d: string, lit: string, rest: string)
    requires IsNumeral(d) && lit != [] && !IsDigit(lit[0])
    ensures Field(d + (lit + rest), lit) == Some((NumeralValue(d), rest))
  {
    ParseNatNumeral(d, lit + rest);
  }

  lemma ParseTxtSound(t: string)
    requires ParseTxt(t).Some?
    ensures MatchesTxt(t, ParseTxt(t).value)
  {
    var h := Field(t, "x").value;
    var w := Field(h.1, " (").value;
    var x := Field(w.1, ",").value;
    var y := Field(x.1, ",").value;
    var z := Field(y.1, ")").value;
    FieldSplit(t, "x");
    FieldSplit(h.1, " (");
    FieldSplit(w.1, ",");
    FieldSplit(x.1, ",");
    FieldSplit(y.1, ")");
    var d1, d2, d3, d4, d5 := FieldDigits(t), FieldDigits(h.1), FieldDigits(w.1), FieldDigits(x.1), FieldDigits(y.1);
    assert z.1 == [];
    assert y.1 == d5 + ")";
    assert t == TxtLine(d1, d2, d3, d4, d5);
    assert ParseTxt(t).value
        == Brick(NumeralValue(d1), NumeralValue(d2), NumeralValue(d3), NumeralValue(d4), NumeralValue(d5));
  }

  lemma ParseTxtComplete(d1: string, d2: string, d3: string, d4: string, d5: string)
    requires IsNumeral(d1) && IsNumeral(d2) && IsNumeral(d3) && IsNumeral(d4) && IsNumeral(d5)
    ensures ParseTxt(TxtLine(d1, d2, d3, d4, d5))
         == Some(Brick(NumeralValue(d1), NumeralValue(d2), NumeralValue(d3), NumeralValue(d4), NumeralValue(d5)))
  {
    var r4 := d5 + (")" + []);
    var r3 := d4 + ("," + r4);
    var r2 := d3 + ("," + r3);
    var r1 := d2 + (" (" + r2);
    assert TxtLine(d1, d2, d3, d4, d5) == d1 + ("x" + r1);
    FieldNumeral(d1, "x", r1);
    FieldNumeral(d2, " (", r2);
    FieldNumeral(d3, ",", r3);
    FieldNumeral(d4, ",", r4);
    FieldNumeral(d5, ")", []);
  }

  /** from_txt accepts exactly the lines whose stripped text matches the pattern, with the matched values. */
  lemma FromTxtMatches(line: string, b: Brick)
    ensures FromTxt(line) == Ok(b) <==> MatchesTxt(Strip(line), b)
  {
    var t := Strip(line);
    if FromTxt(line) == Ok(b) {
      ParseTxtSound(t);
    }
    if MatchesTxt(t, b) {
      var d1, d2, d3, d4, d5 :|
        IsNumeral(d1) && IsNumeral(d2) && IsNumeral(d3) && IsNumeral(d4) && IsNumeral(d5)
        && t == TxtLine(d1, d2, d3, d4, d5)
        && b == Brick(NumeralValue(d1), NumeralValue(d2), NumeralValue(d3), NumeralValue(d4), NumeralValue(d5));
      ParseTxtComplete(d1, d2, d3, d4, d5);
    }
  }

  predicate NonNegative(b: Brick) {
    b.h >= 0 && b.w >= 0 && b.x >= 0 && b.y >= 0 && b.z >= 0
  }

  lemma TxtBodyEnds(b: Brick)
    ensures TxtBody(b) != [] && !IsSpace(TxtBody(b)[0]) && TxtBody(b)[|TxtBody(b)| - 1] == ')'
  {
    IntStrChars(b.h);
    assert TxtBody(b)[0] == IntStr(b.h)[0];
  }

  /** Stripping a brick line, with or without its newline, leaves its body. */
  lemma StripTxt(b: Brick)
    ensures Strip(ToTxt(b)) == TxtBody(b) && Strip(TxtBody(b)) == TxtBody(b)
  {
    TxtBodyEnds(b);
    StripNewline(TxtBody(b));
  }

  /** A matched line holds no minus sign. */
  lemma MatchHasNoMinus(t: string, b: Brick)
    requires MatchesTxt(t, b)
    ensures '-' !in t
  {
    var d1, d2, d3, d4, d5 :|
      IsNumeral(d1) && IsNumeral(d2) && IsNumeral(d3) && IsNumeral(d4) && IsNumeral(d5)
      && t == TxtLine(d1, d2, d3, d4, d5)
      && b == Brick(NumeralValue(d1), NumeralValue(d2), NumeralValue(d3), NumeralValue(d4), NumeralValue(d5));
    assert '-' !in d1 && '-' !in d2 && '-' !in d3 && '-' !in d4 && '-' !in d5;
  }

  /**
   * The text round trip: from_txt(to_txt(b)) gives b back exactly when no field is negative;
   * a negative field is written with a minus sign, which the pattern rejects.
   */
  lemma {:induction false} TxtRoundTrip(b: Brick)
    ensures FromTxt(TxtBody(b)) == FromTxt(ToTxt(b))
    ensures NonNegative(b) ==> FromTxt(ToTxt(b)) == Ok(b)
    ensures !NonNegative(b) ==> FromTxt(ToTxt(b)) == Err(FormatError)
  {
    StripTxt(b);
    if NonNegative(b) {
      ParseTxtComplete(IntStr(b.h), IntStr(b.w), IntStr(b.x), IntStr(b.y), IntStr(b.z));
      assert TxtBody(b) == TxtLine(IntStr(b.h), IntStr(b.w), IntStr(b.x), IntStr(b.y), IntStr(b.z));
    } else {
      var t := TxtBody(b);
      assert '-' in t by {
        if b.h < 0 { assert t[0] == '-'; }
        else if b.w < 0 { assert IntStr(b.w)[0] == '-' && '-' in IntStr(b.w); }
        else if b.x < 0 { assert IntStr(b.x)[0] == '-' && '-' in IntStr(b.x); }
        else if b.y < 0 { assert IntStr(b.y)[0] == '-' && '-' in IntStr(b.y); }
        else { assert IntStr(b.z)[0] == '-' && '-' in IntStr(b.z); }
      }
      if FromTxt(t).Ok? {
        FromTxtMatches(t, FromTxt(t).value);
        MatchHasNoMinus(t, FromTxt(t).value);
      }
    }
  }
}
