/** Python's `int(text)` and `str(n)` / `'%04d' % n` on decimal text, as the
    configuration loaders and the nick-collision handler use them. */
module PyInt {
  import opened Strings

  predicate IsDigit(c: char) { '0' <= c <= '9' }

  predicate AllDigits(s: string) { forall i :: 0 <= i < |s| ==> IsDigit(s[i]) }

  /** The value of a string of decimal digits, most significant first. */
  function DigitsValue(s: string): (v: nat)
    requires AllDigits(s)
    decreases |s|
  {
    if s == [] then 0
    else DigitsValue(s[..|s| - 1]) * 10 + (s[|s| - 1] as int - '0' as int)
  }

  /** `str(n)` for a natural number. */
  function Decimal(n: nat): (s: string)
    ensures |s| >= 1 && AllDigits(s)
    ensures n < 10 <==> |s| == 1
  {
    if n < 10 then [('0' as int + n) as char]
    else Decimal(n / 10) + [('0' as int + n % 10) as char]
  }

  /** Reading back the digits of `str(n)` gives `n`. */
  lemma {:induction false} DecimalValue(n: nat)
    ensures DigitsValue(Decimal(n)) == n
  {
    if n >= 10 {
      DecimalValue(n / 10);
      var s := Decimal(n);
      assert s[..|s| - 1] == Decimal(n / 10);
    }
  }

  /** A leading zero does not change the value. */
  lemma {:induction false} LeadingZero(s: string)
    requires AllDigits(s)
    ensures AllDigits("0" + s) && DigitsValue("0" + s) == DigitsValue(s)
    decreases |s|
  {
    if s != [] {
      LeadingZero(s[..|s| - 1]);
      assert ("0" + s)[..|"0" + s| - 1] == "0" + s[..|s| - 1];
    }
  }

  function Zeros(n: nat): (s: string)
    ensures |s| == n && forall i :: 0 <= i < n ==> s[i] == '0'
  {
    seq(n, _ => '0')
  }

  /** `'%04d' % n`: at least four digits, zero-padded on the left. */
  function Pad4(n: nat): string
  {
    var d := Decimal(n);
    (if |d| < 4 then Zeros(4 - |d|) else "") + d
  }

  /** The padded form has at least four digits and still reads as `n`. */
  lemma {:induction false} Pad4Value(n: nat)
    ensures |Pad4(n)| >= 4 && AllDigits(Pad4(n))
    ensures DigitsValue(Pad4(n)) == n
  {
    DecimalValue(n);
    var d := Decimal(n);
    var k := if |d| < 4 then 4 - |d| else 0;
    ZerosValue(k, d);
    assert Pad4(n) == Zeros(k) + d;
  }

  lemma {:induction false} ZerosValue(k: nat, d: string)
    requires AllDigits(d)
    ensures AllDigits(Zeros(k) + d) && DigitsValue(Zeros(k) + d) == DigitsValue(d)
    decreases k
  {
    if k > 0 {
      ZerosValue(k - 1, d);
      assert Zeros(k) == "0" + Zeros(k - 1);
      assert Zeros(k) + d == "0" + (Zeros(k - 1) + d);
      LeadingZero(Zeros(k - 1) + d);
    } else {
      assert Zeros(k) + d == d;
    }
  }

  function TrimLeft(s: string): (r: string)
    ensures |r| <= |s|
    ensures r == [] || !IsSpace(r[0])
    decreases |s|
  {
    if s != [] && IsSpace(s[0]) then TrimLeft(s[1..]) else s
  }

  function TrimRight(s: string): (r: string)
    ensures |r| <= |s|
    ensures r == [] || !IsSpace(r[|r| - 1])
    decreases |s|
  {
    if s != [] && IsSpace(s[|s| - 1]) then TrimRight(s[..|s| - 1]) else s
  }

  /** Trimming removes only white space: any other character survives it. */
  lemma {:induction false} TrimKeeps(s: string, i: int)
    requires 0 <= i < |s| && !IsSpace(s[i])
    ensures s[i] in TrimRight(TrimLeft(s))
  {
    var t := TrimLeftKeeps(s, i);
    TrimRightKeeps(TrimLeft(s), t);
  }

  lemma {:induction false} TrimLeftKeeps(s: string, i: int) returns (j: int)
    requires 0 <= i < |s| && !IsSpace(s[i])
    ensures 0 <= j < |TrimLeft(s)| && TrimLeft(s)[j] == s[i]
    decreases |s|
  {
    if IsSpace(s[0]) {
      assert i > 0;
      j := TrimLeftKeeps(s[1..], i - 1);
    } else {
      j := i;
    }
  }

  lemma {:induction false} TrimRightKeeps(s: string, i: int)
    requires 0 <= i < |s| && !IsSpace(s[i])
    ensures s[i] in TrimRight(s)
    decreases |s|
  {
    if IsSpace(s[|s| - 1]) {
      assert i < |s| - 1;
      TrimRightKeeps(s[..|s| - 1], i);
    }
  }

  /** Text holding a character that is no digit, underscore, sign or white
      space is no integer: `int()` raises `ValueError` on it. */
  lemma StrayCharNoInt(text: string, i: int)
    requires 0 <= i < |text|
    requires !IsDigit(text[i]) && !IsSpace(text[i]) && text[i] !in "+-_"
    ensures ParseInt(text) == None
  {
    var t := TrimRight(TrimLeft(text));
    var c := text[i];
    TrimKeeps(text, i);
    var b := if |t| > 0 && (t[0] == '-' || t[0] == '+') then t[1..] else t;
    assert c in b by {
      if |t| > 0 && (t[0] == '-' || t[0] == '+') {
        assert t == [t[0]] + t[1..];
      }
    }
    var k :| 0 <= k < |b| && b[k] == c;
    assert !DigitPart(b);
  }

  /** The digit part `int()` accepts: digits, with single underscores only between digits. */
  predicate DigitPart(s: string)
  {
    && |s| >= 1 && IsDigit(s[0]) && IsDigit(s[|s| - 1])
    && (forall i :: 0 <= i < |s| ==> IsDigit(s[i]) || s[i] == '_')
    && (forall i :: 0 <= i < |s| - 1 ==> !(s[i] == '_' && s[i + 1] == '_'))
  }

  function DropUnderscores(s: string): (r: string)
    requires forall i :: 0 <= i < |s| ==> IsDigit(s[i]) || s[i] == '_'
    ensures AllDigits(r)
    ensures AllDigits(s) ==> r == s
    decreases |s|
  {
    if s == [] then ""
    else (if s[0] == '_' then "" else [s[0]]) + DropUnderscores(s[1..])
  }

  /** `int(text)` in base 10: surrounding white space, an optional sign, and the
      digit part; `None` where Python raises `ValueError`. */
  function ParseInt(text: string): Option<int>
  {
    ParseSigned(TrimRight(TrimLeft(text)))
  }

  /** An optional sign followed by the digit part. */
  function ParseSigned(t: string): Option<int>
  {
    if |t| > 0 && t[0] == '-' then Negated(ParseBody(t[1..]))
    else if |t| > 0 && t[0] == '+' then ParseBody(t[1..])
    else ParseBody(t)
  }

  function Negated(o: Option<int>): Option<int>
  {
    match o
    case Some(v) => Some(-v)
    case None => None
  }

  /** The digit part alone. */
  function ParseBody(b: string): Option<int>
  {
    if !DigitPart(b) then None else Some(DigitsValue(DropUnderscores(b)))
  }

  /** `str(i)` for any integer. */
  function IntToString(i: int): string
  {
    if i < 0 then "-" + Decimal(-i) else Decimal(i)
  }

  /** `int(str(i)) == i`. */
  lemma {:induction false} IntRoundTrip(i: int)
    ensures ParseInt(IntToString(i)) == Some(i)
  {
    if i < 0 {
      ParseNegative(-i);
    } else {
      ParseDecimal(i);
    }
  }

  /** `str(n)` reads back as `n`. */
  lemma ParseDecimal(n: nat)
    ensures ParseInt(Decimal(n)) == Some(n)
  {
    var d := Decimal(n);
    TrimNothing(d);
    BodyDecimal(n);
  }

  /** `str(-n)` reads back as `-n`. */
  lemma ParseNegative(n: nat)
    ensures ParseInt("-" + Decimal(n)) == Some(-(n as int))
  {
    TrimMinus(n);
    BodyDecimal(n);
    SignedMinus(Decimal(n), n);
  }

  lemma TrimMinus(n: nat)
    ensures ParseInt("-" + Decimal(n)) == ParseSigned("-" + Decimal(n))
  {
    var d := Decimal(n);
    var t := "-" + d;
    assert t[|t| - 1] == d[|d| - 1];
    TrimNothing(t);
  }

  lemma SignedMinus(d: string, v: int)
    requires ParseBody(d) == Some(v)
    ensures ParseSigned("-" + d) == Some(-v)
  {
    var t := "-" + d;
    assert t[1..] == d;
    assert |t| > 0 && t[0] == '-';
  }

  /** The digits of `str(n)` form a digit part worth `n`. */
  lemma BodyDecimal(n: nat)
    ensures ParseBody(Decimal(n)) == Some(n)
  {
    DecimalValue(n);
    DigitsArePart(Decimal(n));
  }

  /** Text without white space at either end is left as it is. */
  lemma TrimNothing(s: string)
    requires s != [] && !IsSpace(s[0]) && !IsSpace(s[|s| - 1])
    ensures TrimRight(TrimLeft(s)) == s
  {
  }

  lemma DigitsArePart(d: string)
    requires |d| >= 1 && AllDigits(d)
    ensures DigitPart(d) && DropUnderscores(d) == d
  {
  }
}
