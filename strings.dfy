/**
 * The pieces of Python's string handling that the brick codecs rely on:
 * str() of an int, int() of a digit string, str.strip(), str.split() with and
 * without a separator, ' '.join(...), and float() of a decimal token.
 */
module Strings {
  import opened Results

  predicate IsDigit(c: char) { '0' <= c <= '9' }

  /** The characters Python's str.isspace() accepts, which str.strip() and str.split() remove. */
  predicate IsSpace(c: char) {
    var n := c as int;
    (9 <= n <= 13) || (28 <= n <= 32) || n == 0x85 || n == 0xA0 || n == 0x1680
    || (0x2000 <= n <= 0x200A) || n == 0x2028 || n == 0x2029 || n == 0x202F
    || n == 0x205F || n == 0x3000
  }

  predicate AllDigits(s: string) { forall i | 0 <= i < |s| :: IsDigit(s[i]) }

  /** A non-empty run of decimal digits: what `\d+` matches and `str.isdigit()` accepts. */
  predicate IsNumeral(s: string) { |s| > 0 && AllDigits(s) }

  /** A maximal piece of str.split(): non-empty and free of whitespace. */
  predicate IsToken(t: string) { |t| > 0 && forall i | 0 <= i < |t| :: !IsSpace(t[i]) }

  predicate AllSpaces(s: string) { forall i | 0 <= i < |s| :: IsSpace(s[i]) }

  function DigitValue(c: char): nat
    requires IsDigit(c)
  {
    (c as int) - ('0' as int)
  }

  function DigitChar(d: nat): (c: char)
    requires d < 10
    ensures IsDigit(c) && DigitValue(c) == d
  {
    (('0' as int) + d) as char
  }

  /** int(s) for a string of digits (leading zeros allowed). */
  function NumeralValue(s: string): nat
    requires AllDigits(s)
  {
    if s == [] then 0 else NumeralValue(s[..|s| - 1]) * 10 + DigitValue(s[|s| - 1])
  }

  /** str(n) for n >= 0: the shortest decimal numeral of n, without leading zeros. */
  function NatStr(n: nat): (s: string)
    ensures IsNumeral(s) && NumeralValue(s) == n
    ensures |s| == 1 || s[0] != '0'
  {
    if n < 10 then [DigitChar(n)]
    else
      var p := NatStr(n / 10);
      assert |p| == 1 ==> p[0] == DigitChar(n / 10) && DigitValue(p[0]) != 0;
      assert (p + [DigitChar(n % 10)])[..|p|] == p;
      p + [DigitChar(n % 10)]
  }

  /** str(n): a minus sign followed by the numeral of |n| when n is negative. */
  function IntStr(n: int): (s: string)
    ensures |s| > 0
    ensures n >= 0 ==> IsNumeral(s) && NumeralValue(s) == n
    ensures n < 0 ==> s[0] == '-' && IsNumeral(s[1..]) && NumeralValue(s[1..]) == -n
  {
    if n < 0 then "-" + NatStr(-n) else NatStr(n)
  }

  lemma IntStrChars(n: int)
    ensures forall i | 0 <= i < |IntStr(n)| :: IsDigit(IntStr(n)[i]) || IntStr(n)[i] == '-'
    ensures IsToken(IntStr(n))
  {
    var s := IntStr(n);
    if n < 0 {
      forall i | 0 < i < |s| ensures IsDigit(s[i]) { assert s[1..][i - 1] == s[i]; }
    }
  }

  /** The decimal form of an integer holds nothing but digits and the minus sign. */
  lemma IntStrAvoids(n: int, c: char)
    requires !IsDigit(c) && c != '-'
    ensures c !in IntStr(n)
  {
    IntStrChars(n);
  }

  /** Length of the longest all-digit prefix of s. */
  function LeadingDigits(s: string): (n: nat)
    ensures n <= |s| && AllDigits(s[..n]) && (n == |s| || !IsDigit(s[n]))
  {
    if s == [] || !IsDigit(s[0]) then 0
    else
      var m := LeadingDigits(s[1..]);
      assert forall i | 1 <= i < 1 + m :: s[i] == s[1..][..m][i - 1];
      1 + m
  }

  /** Consumes `\d+` greedily; the value is int() of the digits consumed. */
  function ParseNat(s: string): Option<(nat, string)> {
    var n := LeadingDigits(s);
    if n == 0 then None else Some((NumeralValue(s[..n]), s[n..]))
  }

  /** Consumes the literal `lit` at the front of s. */
  function Expect(s: string, lit: string): (r: Option<string>)
    ensures r.Some? <==> |lit| <= |s| && s[..|lit|] == lit
    ensures r.Some? ==> s == lit + r.value
  {
    if |lit| <= |s| && s[..|lit|] == lit then Some(s[|lit|..]) else None
  }

  lemma {:induction false} LeadingDigitsOf(d: string, rest: string)
    requires AllDigits(d)
    requires rest == [] || !IsDigit(rest[0])
    ensures LeadingDigits(d + rest) == |d|
  {
    if d == [] {
      assert d + rest == rest;
    } else {
      assert (d + rest)[0] == d[0];
      assert (d + rest)[1..] == d[1..] + rest;
      LeadingDigitsOf(d[1..], rest);
    }
  }

  lemma ParseNatNumeral(d: string, rest: string)
    requires IsNumeral(d)
    requires rest == [] || !IsDigit(rest[0])
    ensures ParseNat(d + rest) == Some((NumeralValue(d), rest))
  {
    LeadingDigitsOf(d, rest);
    assert (d + rest)[..|d|] == d && (d + rest)[|d|..] == rest;
  }

  // ---------------------------------------------------------------------------
  // str.strip()

  function StripLeft(s: string): (r: string)
    ensures |r| <= |s| && r == s[|s| - |r|..]
    ensures AllSpaces(s[..|s| - |r|])
    ensures r == [] || !IsSpace(r[0])
  {
    if s != [] && IsSpace(s[0]) then
      var r := StripLeft(s[1..]);
      assert forall i | 1 <= i < |s| - |r| :: s[i] == s[1..][..|s| - 1 - |r|][i - 1];
      r
    else s
  }

  function StripRight(s: string): (r: string)
    ensures |r| <= |s| && r == s[..|r|]
    ensures AllSpaces(s[|r|..])
    ensures r == [] || !IsSpace(r[|r| - 1])
  {
    if s != [] && IsSpace(s[|s| - 1]) then
      var r := StripRight(s[..|s| - 1]);
      assert forall i | |r| <= i < |s| - 1 :: s[i] == s[..|s| - 1][|r|..][i - |r|];
      r
    else s
  }

  /** str.strip(): s without its leading and trailing whitespace. */
  function Strip(s: string): (r: string)
    ensures r == [] || (!IsSpace(r[0]) && !IsSpace(r[|r| - 1]))
  {
    StripRight(StripLeft(s))
  }

  lemma StripNewline(s: string)
    requires s != [] && !IsSpace(s[0]) && !IsSpace(s[|s| - 1])
    ensures Strip(s + "\n") == s
  {
    assert (s + "\n")[..|s|] == s;
  }

  lemma StripAllSpaces(s: string)
    requires AllSpaces(s)
    ensures Strip(s) == []
  {
    var l := StripLeft(s);
  }

  /** A string strips to nothing exactly when it is all whitespace. */
  lemma StripEmpty(s: string)
    ensures Strip(s) == [] <==> AllSpaces(s)
  {
    if AllSpaces(s) {
      StripAllSpaces(s);
    }
    var l := StripLeft(s);
    if Strip(s) == [] {
      assert AllSpaces(l[0..]);
      assert l == [];
      forall i | 0 <= i < |s| ensures IsSpace(s[i]) {
        assert s[i] == s[..|s|][i];
      }
    }
  }

  // ---------------------------------------------------------------------------
  // str.split() without a separator

  /** Length of the leading run of non-whitespace characters. */
  function WordLen(s: string): (n: nat)
    ensures n <= |s| && (forall i | 0 <= i < n :: !IsSpace(s[i])) && (n == |s| || IsSpace(s[n]))
  {
    if s == [] || IsSpace(s[0]) then 0 else 1 + WordLen(s[1..])
  }

  /** str.split(): the maximal runs of non-whitespace characters, in order. */
  function Words(s: string): seq<string>
    decreases |s|
  {
    if s == [] then []
    else if IsSpace(s[0]) then Words(s[1..])
    else
      var n := WordLen(s);
      [s[..n]] + Words(s[n..])
  }

  /** Every word str.split() returns is non-empty and free of whitespace. */
  lemma {:induction false} WordsAreTokens(s: string)
    ensures forall k | 0 <= k < |Words(s)| :: IsToken(Words(s)[k])
    decreases |s|
  {
    if s != [] {
      if IsSpace(s[0]) {
        WordsAreTokens(s[1..]);
      } else {
        var n := WordLen(s);
        WordsAreTokens(s[n..]);
        var ws := Words(s);
        assert ws == [s[..n]] + Words(s[n..]);
        forall k | 0 <= k < |ws| ensures IsToken(ws[k]) {
          if k > 0 { assert ws[k] == Words(s[n..])[k - 1]; }
        }
      }
    }
  }

  lemma {:induction false} WordLenOf(t: string, rest: string)
    requires forall i | 0 <= i < |t| :: !IsSpace(t[i])
    requires rest == [] || IsSpace(rest[0])
    ensures WordLen(t + rest) == |t|
  {
    if t == [] {
      assert t + rest == rest;
    } else {
      assert (t + rest)[0] == t[0];
      assert (t + rest)[1..] == t[1..] + rest;
      WordLenOf(t[1..], rest);
    }
  }

  lemma WordsToken(t: string, rest: string)
    requires IsToken(t)
    requires rest == [] || IsSpace(rest[0])
    ensures Words(t + rest) == [t] + Words(rest)
  {
    var s := t + rest;
    WordLenOf(t, rest);
    assert s[0] == t[0];
    assert s[..|t|] == t && s[|t|..] == rest;
  }

  lemma WordsSpaceFirst(s: string)
    ensures Words(" " + s) == Words(s)
  {
    assert (" " + s)[1..] == s;
  }

  lemma {:induction false} WordsSpaces(pre: string, s: string)
    requires AllSpaces(pre)
    ensures Words(pre + s) == Words(s)
  {
    if pre != [] {
      assert (pre + s)[0] == pre[0];
      assert (pre + s)[1..] == pre[1..] + s;
      assert Words(pre + s) == Words(pre[1..] + s);
      WordsSpaces(pre[1..], s);
    } else {
      assert pre + s == s;
    }
  }

  /** ' '.join(ts) */
  function JoinSpace(ts: seq<string>): string {
    if |ts| == 0 then [] else if |ts| == 1 then ts[0] else ts[0] + " " + JoinSpace(ts[1..])
  }

  /** Splitting what ' '.join produced gives the tokens back. */
  lemma {:induction false} WordsJoin(ts: seq<string>, rest: string)
    requires forall k | 0 <= k < |ts| :: IsToken(ts[k])
    requires rest == [] || IsSpace(rest[0])
    ensures Words(JoinSpace(ts) + rest) == ts + Words(rest)
  {
    if |ts| == 0 {
      assert JoinSpace(ts) + rest == rest;
    } else if |ts| == 1 {
      WordsToken(ts[0], rest);
      assert ts == [ts[0]];
    } else {
      var inner := JoinSpace(ts[1..]) + rest;
      calc {
        Words(JoinSpace(ts) + rest);
        { assert JoinSpace(ts) + rest == ts[0] + (" " + inner); }
        Words(ts[0] + (" " + inner));
        { WordsToken(ts[0], " " + inner); }
        [ts[0]] + Words(" " + inner);
        { WordsSpaceFirst(inner); }
        [ts[0]] + Words(inner);
        { WordsJoin(ts[1..], rest); }
        [ts[0]] + (ts[1..] + Words(rest));
        { assert ts == [ts[0]] + ts[1..]; }
        ts + Words(rest);
      }
    }
  }

  /** A character that is neither a space nor in any token is not in their join. */
  lemma {:induction false} JoinSpaceFree(ts: seq<string>, c: char)
    requires c != ' '
    requires forall k | 0 <= k < |ts| :: c !in ts[k]
    ensures c !in JoinSpace(ts)
  {
    if |ts| > 1 {
      JoinSpaceFree(ts[1..], c);
    }
  }

  lemma {:induction false} JoinSpaceAppend(a: seq<string>, b: seq<string>)
    requires |a| > 0 && |b| > 0
    ensures JoinSpace(a + b) == JoinSpace(a) + " " + JoinSpace(b)
  {
    if |a| == 1 {
      assert (a + b)[1..] == b;
    } else {
      assert (a + b)[1..] == a[1..] + b;
      JoinSpaceAppend(a[1..], b);
    }
  }

  // ---------------------------------------------------------------------------
  // str.split(sep)

  /** str.split(sep) for a single character: the pieces between occurrences of c. */
  function SplitOnChar(s: string, c: char): (r: seq<string>)
    ensures |r| >= 1
  {
    if s == [] then [[]]
    else
      var r := SplitOnChar(s[1..], c);
      if s[0] == c then [[]] + r else [[s[0]] + r[0]] + r[1..]
  }

  lemma {:induction false} SplitOnCharPrefix(l: string, c: char, rest: string)
    requires c !in l
    ensures SplitOnChar(l + [c] + rest, c) == [l] + SplitOnChar(rest, c)
  {
    var s := l + [c] + rest;
    if l == [] {
      assert s[1..] == rest;
    } else {
      assert s[1..] == l[1..] + [c] + rest;
      SplitOnCharPrefix(l[1..], c, rest);
      assert [s[0]] + l[1..] == l;
    }
  }

  /** Whether sep occurs in s starting at index p. */
  predicate OccursAt(s: string, sep: string, p: nat) {
    p + |sep| <= |s| && s[p..p + |sep|] == sep
  }

  /** str.split(sep): leftmost non-overlapping occurrences of sep delimit the pieces. */
  function SplitOn(s: string, sep: string): (r: seq<string>)
    requires |sep| > 0
    ensures |r| >= 1
    decreases |s|
  {
    if |s| < |sep| then [s]
    else if s[..|sep|] == sep then [[]] + SplitOn(s[|sep|..], sep)
    else
      var r := SplitOn(s[1..], sep);
      [[s[0]] + r[0]] + r[1..]
  }

  lemma SplitOnShort(s: string, sep: string)
    requires 0 < |sep| && |s| < |sep|
    ensures SplitOn(s, sep) == [s]
  {
  }

  /** When sep does not begin inside l, splitting l + sep + rest cuts exactly after l. */
  lemma {:induction false} SplitOnPrefix(l: string, sep: string, rest: string)
    requires |sep| > 0
    requires forall p | 0 <= p < |l| :: !OccursAt(l + sep, sep, p)
    ensures SplitOn(l + sep + rest, sep) == [l] + SplitOn(rest, sep)
  {
    var s := l + sep + rest;
    if l == [] {
      assert s[..|sep|] == sep && s[|sep|..] == rest;
    } else {
      assert s[..|sep|] == (l + sep)[0..|sep|];
      assert !OccursAt(l + sep, sep, 0);
      assert s[1..] == l[1..] + sep + rest;
      forall p | 0 <= p < |l[1..]| ensures !OccursAt(l[1..] + sep, sep, p) {
        assert (l[1..] + sep)[p..p + |sep|] == (l + sep)[p + 1..p + 1 + |sep|];
        assert !OccursAt(l + sep, sep, p + 1);
      }
      SplitOnPrefix(l[1..], sep, rest);
      assert [s[0]] + l[1..] == l;
    }
  }

  // ---------------------------------------------------------------------------
  // float() of a decimal token, and int() of a float

  /** Index of the first c in s, or |s| when there is none. */
  function FindChar(s: string, c: char): (i: nat)
    ensures i <= |s| && c !in s[..i] && (i < |s| ==> s[i] == c)
  {
    if s == [] || s[0] == c then 0
    else
      var k := FindChar(s[1..], c);
      assert s[..1 + k] == [s[0]] + s[1..][..k];
      1 + k
  }

  function Pow10(n: nat): (p: nat)
    ensures p >= 1
  {
    if n == 0 then 1 else 10 * Pow10(n - 1)
  }

  /** An unsigned decimal: digits, optionally a point and more digits, and at least one digit. */
  function ParseUnsigned(t: string): Option<real> {
    var k := FindChar(t, '.');
    var ip := t[..k];
    var fp := if k < |t| then t[k + 1..] else [];
    if AllDigits(ip) && AllDigits(fp) && |ip| + |fp| > 0 then Some(DecimalValue(ip, fp)) else None
  }

  /** The value of the decimal ip.fp */
  function DecimalValue(ip: string, fp: string): real
    requires AllDigits(ip) && AllDigits(fp)
  {
    NumeralValue(ip) as real + (NumeralValue(fp) as real) / (Pow10(|fp|) as real)
  }

  /**
   * float(t) for a decimal token with an optional sign, as the exact decimal value; Python
   * rounds that value to the nearest double, which differs for more than 15 or so significant digits.
   */
  function ParseFloat(t: string): Option<real> {
    if |t| > 0 && (t[0] == '-' || t[0] == '+') then
      match ParseUnsigned(t[1..])
      case None => None
      case Some(v) => Some(if t[0] == '-' then -v else v)
    else ParseUnsigned(t)
  }

  /** Python's repr of the float equal to the integer n (exact below 10^16). */
  function FloatStr(n: int): string {
    IntStr(n) + ".0"
  }

  lemma {:induction false} FindCharAfterNumeral(d: string, suffix: string)
    requires AllDigits(d)
    requires suffix == [] || suffix == ".0"
    ensures FindChar(d + suffix, '.') == |d|
  {
    if d == [] {
      assert d + suffix == suffix;
    } else {
      assert (d + suffix)[0] == d[0];
      assert (d + suffix)[1..] == d[1..] + suffix;
      FindCharAfterNumeral(d[1..], suffix);
    }
  }

  lemma ParseUnsignedNumeral(d: string)
    requires IsNumeral(d)
    ensures ParseUnsigned(d) == Some(NumeralValue(d) as real)
  {
    assert d + [] == d;
    FindCharAfterNumeral(d, []);
    assert d[..|d|] == d;
    assert DecimalValue(d, []) == NumeralValue(d) as real;
  }

  lemma DecimalPointZero(d: string)
    requires IsNumeral(d)
    ensures DecimalValue(d, "0") == NumeralValue(d) as real
  {
    assert NumeralValue("0") == 0 by { assert "0"[..0] == []; }
    assert Pow10(1) == 10;
  }

  lemma ParseUnsignedPointZero(d: string)
    requires IsNumeral(d)
    ensures ParseUnsigned(d + ".0") == Some(NumeralValue(d) as real)
  {
    var t := d + ".0";
    FindCharAfterNumeral(d, ".0");
    assert t[..|d|] == d;
    assert t[|d| + 1..] == "0";
    DecimalPointZero(d);
  }

  /** float() reads back what str() of an int and repr() of an integral float write. */
  lemma ParseFloatIntStr(n: int)
    ensures ParseFloat(IntStr(n)) == Some(n as real)
    ensures ParseFloat(FloatStr(n)) == Some(n as real)
  {
    var s := IntStr(n);
    if n < 0 {
      assert s == [s[0]] + s[1..];
      ParseFloatMinus(s, s[1..]);
    } else {
      ParseFloatNumeral(s);
    }
  }

  /** float() of a numeral, with or without a `.0` fraction. */
  lemma ParseFloatNumeral(d: string)
    requires IsNumeral(d)
    ensures ParseFloat(d) == Some(NumeralValue(d) as real)
    ensures ParseFloat(d + ".0") == Some(NumeralValue(d) as real)
  {
    ParseUnsignedNumeral(d);
    ParseUnsignedPointZero(d);
    assert IsDigit(d[0]);
    assert (d + ".0")[0] == d[0];
  }

  /** float() of a minus sign and a numeral, with or without a `.0` fraction. */
  lemma ParseFloatMinus(s: string, d: string)
    requires IsNumeral(d) && s == "-" + d
    ensures ParseFloat(s) == Some(-(NumeralValue(d) as real))
    ensures ParseFloat(s + ".0") == Some(-(NumeralValue(d) as real))
  {
    ParseUnsignedNumeral(d);
    ParseUnsignedPointZero(d);
    assert s[1..] == d;
    assert (s + ".0")[0] == '-';
    assert (s + ".0")[1..] == d + ".0";
  }

  /** int(r) for a float r: truncation toward zero. */
  function Trunc(r: real): (t: int)
    ensures r >= 0.0 ==> 0 <= t && t as real <= r < t as real + 1.0
    ensures r < 0.0 ==> t <= 0 && t as real - 1.0 < r <= t as real
  {
    if r >= 0.0 then r.Floor else -((-r).Floor)
  }

  lemma TruncInt(n: int)
    ensures Trunc(n as real) == n
  {
  }
}
