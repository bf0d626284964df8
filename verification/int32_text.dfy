/** The textual integers of the .NET `Int32.Parse(String)` call that the row
    converter applies to code columns, under its default number style
    (`NumberStyles.Integer`): leading and trailing white space, one optional
    leading sign, then one or more ASCII decimal digits; a malformed text is a
    format error, a well-formed one outside the 32-bit range an overflow. */
module Int32Text {
  import opened Wrappers

  const MinValue: int := -0x8000_0000
  const MaxValue: int := 0x7FFF_FFFF

  predicate InRange(n: int) {
    MinValue <= n <= MaxValue
  }

  /** `FormatException` and `OverflowException` of `Int32.Parse`. */
  datatype ParseError = FormatError | OverflowError

  /** The white space the number parser skips: U+0009 to U+000D and U+0020. */
  predicate IsWhiteSpace(ch: char) {
    ch == ' ' || '\t' <= ch <= '\r'
  }

  predicate IsDigit(ch: char) {
    '0' <= ch <= '9'
  }

  predicate IsSign(ch: char) {
    ch == '-' || ch == '+'
  }

  predicate AllWhiteSpace(s: string) {
    forall i :: 0 <= i < |s| ==> IsWhiteSpace(s[i])
  }

  predicate AllDigits(s: string) {
    forall i :: 0 <= i < |s| ==> IsDigit(s[i])
  }

  /** `s` without its leading white space. */
  function TrimStart(s: string): (t: string)
  {
    if s != [] && IsWhiteSpace(s[0]) then TrimStart(s[1..]) else s
  }

  /** `s` without its trailing white space. */
  function TrimEnd(s: string): (t: string)
  {
    if s != [] && IsWhiteSpace(s[|s| - 1]) then TrimEnd(s[..|s| - 1]) else s
  }

  /** `TrimStart` keeps a suffix of its input and drops only white space. */
  lemma {:induction false} TrimStartDropsWhitePrefix(s: string)
    ensures |TrimStart(s)| <= |s| && TrimStart(s) == s[|s| - |TrimStart(s)|..]
    ensures forall i :: 0 <= i < |s| - |TrimStart(s)| ==> IsWhiteSpace(s[i])
  {
    if s != [] && IsWhiteSpace(s[0]) {
      var rest := s[1..];
      TrimStartDropsWhitePrefix(rest);
      var t := TrimStart(rest);
      assert rest[|rest| - |t|..] == s[|s| - |t|..];
      forall i | 1 <= i < |s| - |t|
        ensures IsWhiteSpace(s[i])
      {
        assert s[i] == rest[i - 1];
      }
    }
  }

  /** `TrimEnd` keeps a prefix of its input and drops only white space. */
  lemma {:induction false} TrimEndDropsWhiteSuffix(s: string)
    ensures |TrimEnd(s)| <= |s| && TrimEnd(s) == s[..|TrimEnd(s)|]
    ensures forall i :: |TrimEnd(s)| <= i < |s| ==> IsWhiteSpace(s[i])
  {
    if s != [] && IsWhiteSpace(s[|s| - 1]) {
      var init := s[..|s| - 1];
      TrimEndDropsWhiteSuffix(init);
      var t := TrimEnd(init);
      assert init[..|t|] == s[..|t|];
      forall i | |t| <= i < |s| - 1
        ensures IsWhiteSpace(s[i])
      {
        assert s[i] == init[i];
      }
    }
  }

  function DigitValue(ch: char): (d: nat)
    requires IsDigit(ch)
  {
    ch as int - '0' as int
  }

  /** The decimal value of a string of digits, most significant first. */
  function DigitsValue(s: string): (n: nat)
    requires AllDigits(s)
  {
    if s == [] then 0 else DigitsValue(s[..|s| - 1]) * 10 + DigitValue(s[|s| - 1])
  }

  /** `Int32.Parse(s)` with the default number style, assuming the culture's
      signs are the invariant "+" and "-". */
  function ParseInt32(s: string): (r: Result<int, ParseError>)
    ensures r.Success? ==> InRange(r.value)
  {
    ParseTrimmed(TrimEnd(TrimStart(s)))
  }

  /** The sign and digits left once the surrounding white space is gone. */
  function ParseTrimmed(t: string): (r: Result<int, ParseError>)
    ensures r.Success? ==> InRange(r.value)
  {
    if t == [] then Failure(FormatError)
    else
      var digits := if IsSign(t[0]) then t[1..] else t;
      if digits == [] || !AllDigits(digits) then Failure(FormatError)
      else
        var n := if t[0] == '-' then -(DigitsValue(digits) as int) else DigitsValue(digits);
        if InRange(n) then Success(n) else Failure(OverflowError)
  }

  function DigitChar(d: nat): (ch: char)
    requires d < 10
    ensures IsDigit(ch) && DigitValue(ch) == d
  {
    ('0' as int + d) as char
  }

  /** The shortest decimal digits of `n`. */
  function DigitsOf(n: nat): (s: string)
    ensures s != [] && AllDigits(s)
  {
    if n < 10 then [DigitChar(n)] else DigitsOf(n / 10) + [DigitChar(n % 10)]
  }

  /** The text `Int32.ToString()` gives `n`: a minus sign for a negative
      value, then its digits. */
  function Format(n: int): (s: string)
  {
    if n < 0 then "-" + DigitsOf(-n) else DigitsOf(n)
  }

  lemma {:induction false} DigitsValueOfDigitsOf(n: nat)
    ensures DigitsValue(DigitsOf(n)) == n
  {
    var s := DigitsOf(n);
    if n >= 10 {
      DigitsValueOfDigitsOf(n / 10);
      assert s[..|s| - 1] == DigitsOf(n / 10);
    }
  }

  /** Parsing what `Format` prints gives the number back when it fits in 32
      bits, and an overflow error when it does not. */
  lemma ParseFormat(n: int)
    ensures ParseInt32(Format(n)) == if InRange(n) then Success(n) else Failure(OverflowError)
  {
    var s := Format(n);
    var m := if n < 0 then -n else n;
    var digits := DigitsOf(m);
    assert !IsWhiteSpace(s[0]) && !IsWhiteSpace(s[|s| - 1]);
    assert TrimStart(s) == s;
    assert TrimEnd(s) == s;
    assert (if IsSign(s[0]) then s[1..] else s) == digits;
    DigitsValueOfDigitsOf(m);
  }

  /** A character that is neither white space, a sign nor a digit makes the
      whole text fail with a format error, wherever it stands. */
  lemma NonNumericRejected(s: string, i: nat)
    requires i < |s|
    requires !IsWhiteSpace(s[i]) && !IsSign(s[i]) && !IsDigit(s[i])
    ensures ParseInt32(s) == Failure(FormatError)
  {
    var u := TrimStart(s);
    var t := TrimEnd(u);
    TrimStartDropsWhitePrefix(s);
    TrimEndDropsWhiteSuffix(u);
    var j := i - (|s| - |u|);
    assert 0 <= j < |u| && u[j] == s[i];
    assert j < |t| && t[j] == s[i];
    var digits := if IsSign(t[0]) then t[1..] else t;
    if IsSign(t[0]) {
      assert j > 0 && digits[j - 1] == s[i];
    } else {
      assert digits[j] == s[i];
    }
  }

  /** Leading white space is skipped entirely. */
  lemma {:induction false} TrimStartSkipsWhiteSpace(w: string, s: string)
    requires forall i :: 0 <= i < |w| ==> IsWhiteSpace(w[i])
    ensures TrimStart(w + s) == TrimStart(s)
  {
    if w != [] {
      var ws := w + s;
      assert ws[0] == w[0];
      assert IsWhiteSpace(ws[0]);
      assert ws[1..] == w[1..] + s;
      TrimStartSkipsWhiteSpace(w[1..], s);
    } else {
      assert w + s == s;
    }
  }

  /** White space in front of a text does not change what it parses to. */
  lemma ParseIgnoresLeadingWhiteSpace(w: string, s: string)
    requires forall i :: 0 <= i < |w| ==> IsWhiteSpace(w[i])
    ensures ParseInt32(w + s) == ParseInt32(s)
  {
    TrimStartSkipsWhiteSpace(w, s);
  }

  /** Trailing white space is skipped entirely. */
  lemma {:induction false} TrimEndSkipsWhiteSpace(s: string, w: string)
    requires AllWhiteSpace(w)
    ensures TrimEnd(s + w) == TrimEnd(s)
  {
    if w != [] {
      var sw := s + w;
      var w' := w[..|w| - 1];
      assert sw[|sw| - 1] == w[|w| - 1];
      assert sw[..|sw| - 1] == s + w';
      TrimEndSkipsWhiteSpace(s, w');
    } else {
      assert s + w == s;
    }
  }

  /** What `Int32.Parse` accepts, and what it yields: white space, an
      optional sign, one or more digits (leading zeros allowed) and white
      space parse to the signed value of the digits when it fits in 32 bits,
      and to an overflow error when it does not. */
  lemma ParseSignedDigits(w1: string, sign: string, d: string, w2: string)
    requires AllWhiteSpace(w1) && AllWhiteSpace(w2)
    requires sign == "" || sign == "+" || sign == "-"
    requires d != [] && AllDigits(d)
    ensures var n := if sign == "-" then -(DigitsValue(d) as int) else DigitsValue(d);
      ParseInt32(w1 + sign + d + w2) == if InRange(n) then Success(n) else Failure(OverflowError)
  {
    var x := sign + d;
    var y := x + w2;
    assert w1 + sign + d + w2 == w1 + y;
    TrimStartSkipsWhiteSpace(w1, y);
    assert y[0] == x[0];
    assert TrimStart(y) == y;
    TrimEndSkipsWhiteSpace(x, w2);
    assert x[|x| - 1] == d[|d| - 1];
    assert TrimEnd(x) == x;
    ParseSignAndDigits(sign, d);
  }

  /** The sign-and-digits core of `ParseSignedDigits`. */
  lemma ParseSignAndDigits(sign: string, d: string)
    requires sign == "" || sign == "+" || sign == "-"
    requires d != [] && AllDigits(d)
    ensures var n := if sign == "-" then -(DigitsValue(d) as int) else DigitsValue(d);
      ParseTrimmed(sign + d) == if InRange(n) then Success(n) else Failure(OverflowError)
  {
    var x := sign + d;
    if sign == "" {
      assert x == d;
    } else {
      assert x[0] == sign[0] && x[1..] == d;
    }
  }

  /** A trimmed text with a non-digit after its first character is malformed. */
  lemma ParseTrimmedRejects(t: string, p: nat)
    requires 1 <= p < |t| && !IsDigit(t[p])
    ensures ParseTrimmed(t) == Failure(FormatError)
  {
    var digits := if IsSign(t[0]) then t[1..] else t;
    if IsSign(t[0]) {
      assert digits[p - 1] == t[p];
    } else {
      assert digits[p] == t[p];
    }
  }

  /** Positions j to k, whose ends are not white space, survive trimming. */
  lemma TrimmedIndex(s: string, j: nat, i: nat, k: nat)
    requires j <= i <= k < |s|
    requires !IsWhiteSpace(s[j]) && !IsWhiteSpace(s[k])
    ensures var off := |s| - |TrimStart(s)|;
      && off <= j && k - off < |TrimEnd(TrimStart(s))|
      && TrimEnd(TrimStart(s))[i - off] == s[i]
  {
    var u := TrimStart(s);
    TrimStartDropsWhitePrefix(s);
    TrimEndDropsWhiteSuffix(u);
    var off := |s| - |u|;
    assert u[k - off] == s[k];
    assert u[i - off] == s[i];
  }

  /** A sign anywhere but in front of the first digit is a format error
      ("5-", "1+2", "--3"). */
  lemma MisplacedSignRejected(s: string, j: nat, i: nat)
    requires j < i < |s| && !IsWhiteSpace(s[j]) && IsSign(s[i])
    ensures ParseInt32(s) == Failure(FormatError)
  {
    TrimmedIndex(s, j, i, i);
    ParseTrimmedRejects(TrimEnd(TrimStart(s)), i - (|s| - |TrimStart(s)|));
  }

  /** White space between the sign and the digits, or among the digits, is a
      format error ("- 5", "1 2"). */
  lemma InnerWhiteSpaceRejected(s: string, j: nat, i: nat, k: nat)
    requires j < i < k < |s| && !IsWhiteSpace(s[j]) && !IsWhiteSpace(s[k]) && IsWhiteSpace(s[i])
    ensures ParseInt32(s) == Failure(FormatError)
  {
    TrimmedIndex(s, j, i, k);
    ParseTrimmedRejects(TrimEnd(TrimStart(s)), i - (|s| - |TrimStart(s)|));
  }

  /** The text `ParseTrimmed` sees is the slice of `s` between its leading
      and its trailing white space. */
  lemma TrimmedSlice(s: string)
    ensures var a := |s| - |TrimStart(s)|;
      var b := a + |TrimEnd(TrimStart(s))|;
      && 0 <= a <= b <= |s|
      && TrimEnd(TrimStart(s)) == s[a..b]
      && AllWhiteSpace(s[..a]) && AllWhiteSpace(s[b..])
  {
    var u := TrimStart(s);
    TrimStartDropsWhitePrefix(s);
    TrimEndDropsWhiteSuffix(u);
    var t := TrimEnd(u);
    var a := |s| - |u|;
    var b := a + |t|;
    assert t == s[a..b];
    forall i | 0 <= i < |s| - b
      ensures IsWhiteSpace(s[b..][i])
    {
      assert s[b..][i] == u[|t| + i];
    }
  }

  /** Every text without a format error has the shape `ParseSignedDigits`
      describes: white space up to `a`, a sign or digit at `a`, only digits up
      to `b` (at least one), and white space from `b` on. So a format error
      is exactly a text not of that shape. */
  lemma ParsedTextShape(s: string)
    requires ParseInt32(s) != Failure(FormatError)
    ensures var a := |s| - |TrimStart(s)|;
      var b := a + |TrimEnd(TrimStart(s))|;
      && 0 <= a < b <= |s|
      && AllWhiteSpace(s[..a]) && AllWhiteSpace(s[b..])
      && (IsSign(s[a]) || IsDigit(s[a]))
      && (IsSign(s[a]) ==> a + 1 < b)
      && AllDigits(s[a + 1..b])
  {
    TrimmedSlice(s);
    var t := TrimEnd(TrimStart(s));
    assert ParseTrimmed(t) == ParseInt32(s);
    TrimmedShape(t);
    var a := |s| - |TrimStart(s)|;
    var b := a + |t|;
    assert s[a] == t[0];
    assert s[a + 1..b] == t[1..];
  }

  /** The trimmed text without a format error is a sign or digit followed by
      digits only, at least one digit in all. */
  lemma TrimmedShape(t: string)
    requires ParseTrimmed(t) != Failure(FormatError)
    ensures |t| > 0 && (IsSign(t[0]) || IsDigit(t[0]))
    ensures IsSign(t[0]) ==> |t| > 1
    ensures AllDigits(t[1..])
  {
    var digits := if IsSign(t[0]) then t[1..] else t;
    forall i | 0 <= i < |t[1..]|
      ensures IsDigit(t[1..][i])
    {
      if !IsSign(t[0]) {
        assert t[1..][i] == digits[i + 1];
      }
    }
  }

  /** Every text without a format error holds a digit. */
  lemma ParsedTextDigit(s: string) returns (i: nat)
    requires ParseInt32(s) != Failure(FormatError)
    ensures i < |s| && IsDigit(s[i])
  {
    ParsedTextShape(s);
    var a := |s| - |TrimStart(s)|;
    var b := a + |TrimEnd(TrimStart(s))|;
    if IsDigit(s[a]) {
      i := a;
    } else {
      assert s[a + 1..b][0] == s[a + 1];
      i := a + 1;
    }
  }

  /** A text without a single digit is a format error: the empty text, blank
      text, and a bare sign among white space ("", "   ", "+", " - "). */
  lemma NoDigitsRejected(s: string)
    requires forall i :: 0 <= i < |s| ==> !IsDigit(s[i])
    ensures ParseInt32(s) == Failure(FormatError)
  {
    if ParseInt32(s) != Failure(FormatError) {
      var i := ParsedTextDigit(s);
      assert false;
    }
  }

  /** Leading zeros are accepted. */
  lemma ParseLeadingZeros()
    ensures ParseInt32("0042") == Success(42)
  {
    var d := "0042";
    assert DigitsValue("0") == 0 by { assert "0"[..0] == ""; }
    assert DigitsValue("00") == 0 by { assert "00"[..1] == "0"; }
    assert DigitsValue("004") == 4 by { assert "004"[..2] == "00"; }
    assert DigitsValue(d) == 42 by { assert d[..3] == "004"; }
    ParseSignedDigits("", "", d, "");
    assert "" + "" + d + "" == d;
  }

  /** A plus sign and surrounding white space are accepted. */
  lemma ParsePlusSignAndWhiteSpace()
    ensures ParseInt32(" +7\t") == Success(7)
  {
    ParseSignedDigits(" ", "+", "7", "\t");
    assert " " + "+" + "7" + "\t" == " +7\t";
  }

  /** A space among the digits is not accepted. */
  lemma ParseSpaceAmongDigits()
    ensures ParseInt32("1 2") == Failure(FormatError)
  {
    InnerWhiteSpaceRejected("1 2", 0, 1, 2);
  }
}
