/**
 * Numbers as text on both sides of the serial link: decimal rendering of
 * integers, .NET's `double.TryParse` / `int.TryParse` / `long.TryParse`
 * (invariant culture), C's `atof` and the `%f` / `%d` conversions of
 * `sscanf`, and the Arduino core's `Serial.print(x, 1)` for floating point.
 * Values are mathematical reals and integers: binary rounding of floats and
 * doubles is not modelled.
 */
module Numbers {
  import opened Wrappers

  predicate IsDigit(c: char) {
    '0' <= c <= '9'
  }

  function DigitValue(c: char): nat
    requires IsDigit(c)
  {
    c as int - '0' as int
  }

  function DigitChar(d: nat): (c: char)
    requires d < 10
    ensures IsDigit(c) && DigitValue(c) == d
  {
    (d + '0' as int) as char
  }

  predicate AllDigits(s: string) {
    forall i :: 0 <= i < |s| ==> IsDigit(s[i])
  }

  /** The value of a decimal digit string, most significant digit first. */
  function DigitsValue(s: string): nat
    requires AllDigits(s)
  {
    if s == [] then 0 else 10 * DigitsValue(s[..|s| - 1]) + DigitValue(s[|s| - 1])
  }

  function Pow10(n: nat): (r: nat)
    ensures r >= 1
  {
    if n == 0 then 1 else 10 * Pow10(n - 1)
  }

  /** Decimal rendering of a natural number (`ToString()`, `Serial.print(unsigned long)`):
      a non-empty digit string whose value is `n`. */
  function NatToString(n: nat): (r: string)
    ensures |r| >= 1 && AllDigits(r)
    ensures DigitsValue(r) == n
  {
    if n < 10 then [DigitChar(n)]
    else
      var r := NatToString(n / 10) + [DigitChar(n % 10)];
      assert r[..|r| - 1] == NatToString(n / 10);
      r
  }

  function IntToString(i: int): string {
    if i < 0 then "-" + NatToString(-i) else NatToString(i)
  }

  /** The number of decimal digits at the front of `s`. */
  function LeadingDigits(s: string): (n: nat)
    ensures n <= |s| && AllDigits(s[..n])
    ensures n < |s| ==> !IsDigit(s[n])
  {
    if s != [] && IsDigit(s[0]) then
      var m := LeadingDigits(s[1..]);
      assert s[..1 + m] == [s[0]] + s[1..][..m];
      1 + m
    else 0
  }

  /** C's `isspace` in the "C" locale; the same six characters are the white space
      that .NET's number parsing (`NumberStyles.AllowLeadingWhite`/`AllowTrailingWhite`) skips. */
  predicate IsAsciiSpace(c: char) {
    c == ' ' || ('\U{9}' <= c <= '\U{D}')
  }

  predicate AllAsciiSpace(s: string) {
    forall i :: 0 <= i < |s| ==> IsAsciiSpace(s[i])
  }

  /** The number of white-space characters at the front of `s`. */
  function LeadingSpace(s: string): (n: nat)
    ensures n <= |s| && AllAsciiSpace(s[..n])
    ensures n < |s| ==> !IsAsciiSpace(s[n])
  {
    if s != [] && IsAsciiSpace(s[0]) then
      var m := LeadingSpace(s[1..]);
      assert s[..1 + m] == [s[0]] + s[1..][..m];
      1 + m
    else 0
  }

  /** The value of the digits after a decimal point. */
  function FractionValue(d: string): real
    requires AllDigits(d)
  {
    DigitsValue(d) as real / Pow10(|d|) as real
  }

  /** `m` times ten to the power `e`. */
  function Scale(m: real, e: int): real {
    if e >= 0 then m * Pow10(e) as real else m / Pow10(-e) as real
  }

  /** Digits with an optional fraction (`12`, `12.5`, `12.`, `.5`) at the front of `s`:
      the value and the number of characters read. At least one digit is needed. */
  function ScanMantissa(s: string): (r: Option<(real, nat)>)
    ensures r.Some? ==> 0 < r.value.1 <= |s|
  {
    var a := LeadingDigits(s);
    var whole := DigitsValue(s[..a]) as real;
    if a < |s| && s[a] == '.' then
      var b := LeadingDigits(s[a + 1..]);
      if a + b == 0 then None
      else Some((whole + FractionValue(s[a + 1..][..b]), a + 1 + b))
    else if a == 0 then None
    else Some((whole, a))
  }

  /** An exponent part (`e`/`E`, optional sign, digits) at the front of `s`: its value and
      length; (0, 0) when there is none, for then the `e` is not part of the number. */
  function ScanExponent(s: string): (r: (int, nat))
    ensures r.1 <= |s|
  {
    if |s| > 0 && (s[0] == 'e' || s[0] == 'E') then
      var sg := if |s| > 1 && (s[1] == '+' || s[1] == '-') then 1 else 0;
      var d := LeadingDigits(s[1 + sg..]);
      if d == 0 then (0, 0)
      else
        var v: int := DigitsValue(s[1 + sg..][..d]);
        (if sg == 1 && s[1] == '-' then -v else v, 1 + sg + d)
    else (0, 0)
  }

  /** A signed decimal number with optional fraction and exponent at the front of `s`
      (no white space skipped): its value and the number of characters it spans. */
  function ScanReal(s: string): (r: Option<(real, nat)>)
    ensures r.Some? ==> 0 < r.value.1 <= |s|
  {
    var sg := if |s| > 0 && (s[0] == '-' || s[0] == '+') then 1 else 0;
    var body := s[sg..];
    match ScanMantissa(body)
    case None => None
    case Some((m, len)) =>
      var (e, elen) := ScanExponent(body[len..]);
      var v := Scale(m, e);
      Some((if sg == 1 && s[0] == '-' then -v else v, sg + len + elen))
  }

  /** A signed decimal integer at the front of `s` (no white space skipped). */
  function ScanInteger(s: string): (r: Option<(int, nat)>)
    ensures r.Some? ==> 0 < r.value.1 <= |s|
  {
    var sg := if |s| > 0 && (s[0] == '-' || s[0] == '+') then 1 else 0;
    var d := LeadingDigits(s[sg..]);
    if d == 0 then None
    else
      var v: int := DigitsValue(s[sg..][..d]);
      Some((if sg == 1 && s[0] == '-' then -v else v, sg + d))
  }

  // ---------------------------------------------------------------- .NET

  /** What .NET's number parsing accepts after the number: white space, then nothing but
      NUL characters (the runtime's `TrailingZeros` check). */
  predicate TrailingOk(t: string) {
    forall i :: LeadingSpace(t) <= i < |t| ==> t[i] == '\0'
  }

  /** `double.TryParse(s, out v)` as the invariant culture reads it: white space, a
      number, white space, then only NUL characters. None is the `false` result, where `v`
      is left 0. The source passes no culture, so it parses with the current one; the
      model fixes it to the invariant culture, whose decimal separator is `.`. */
  function TryParseDouble(s: string): Option<real> {
    var k := LeadingSpace(s);
    match ScanReal(s[k..])
    case None => None
    case Some((v, n)) => if TrailingOk(s[k..][n..]) then Some(v) else None
  }

  const Int32Min: int := -0x8000_0000
  const Int32Max: int := 0x7FFF_FFFF
  const Int64Min: int := -0x8000_0000_0000_0000
  const Int64Max: int := 0x7FFF_FFFF_FFFF_FFFF

  /** The common part of `int.TryParse` and `long.TryParse`: white space, a signed integer,
      white space, then only NUL characters, and a value in [lo, hi]; out of range is a
      failure, not a wrap-around. */
  function TryParseIntegerIn(s: string, lo: int, hi: int): (r: Option<int>)
    ensures r.Some? ==> lo <= r.value <= hi
  {
    var k := LeadingSpace(s);
    match ScanInteger(s[k..])
    case None => None
    case Some((v, n)) => if TrailingOk(s[k..][n..]) && lo <= v <= hi then Some(v) else None
  }

  /** `int.TryParse(s, out v)`. */
  function TryParseInt32(s: string): (r: Option<int>)
    ensures r.Some? ==> Int32Min <= r.value <= Int32Max
  {
    TryParseIntegerIn(s, Int32Min, Int32Max)
  }

  /** `long.TryParse(s, out v)`. */
  function TryParseInt64(s: string): (r: Option<int>)
    ensures r.Some? ==> Int64Min <= r.value <= Int64Max
  {
    TryParseIntegerIn(s, Int64Min, Int64Max)
  }

  // ---------------------------------------------------------------- C library

  /** `atof(s)`: the longest number after leading white space; 0.0 when there is none. */
  function Atof(s: string): real {
    var k := LeadingSpace(s);
    match ScanReal(s[k..])
    case None => 0.0
    case Some((v, _)) => v
  }

  /** One `%f` conversion of `sscanf`: white space is skipped, then a number is read.
      Gives the value and the number of characters consumed. */
  function ScanFloatField(s: string): (r: Option<(real, nat)>)
    ensures r.Some? ==> r.value.1 <= |s|
  {
    var k := LeadingSpace(s);
    match ScanReal(s[k..])
    case None => None
    case Some((v, n)) => Some((v, k + n))
  }

  /** One `%d` conversion of `sscanf`: white space is skipped, then a signed integer is
      read. The value is not reduced to the width of `int`. */
  function ScanIntField(s: string): (r: Option<(int, nat)>)
    ensures r.Some? ==> r.value.1 <= |s|
    decreases |s|
  {
    if s != [] && IsAsciiSpace(s[0]) then
      var rest := ScanIntField(s[1..]);
      if rest.None? then None else Some((rest.value.0, 1 + rest.value.1))
    else ScanInteger(s)
  }

  /** `sscanf(s, "%f,%f,%f", &a, &b, &c) == 3`: three numbers separated by single commas;
      anything after the third number is ignored. */
  function ScanFloatTriple(s: string): Option<(real, real, real)> {
    match ScanFloatField(s)
    case None => None
    case Some((a, n1)) =>
      if n1 < |s| && s[n1] == ',' then
        var s2 := s[n1 + 1..];
        match ScanFloatField(s2)
        case None => None
        case Some((b, n2)) =>
          if n2 < |s2| && s2[n2] == ',' then
            match ScanFloatField(s2[n2 + 1..])
            case None => None
            case Some((c, _)) => Some((a, b, c))
          else None
      else None
  }

  /** `sscanf(s, "%d,%d", &h, &f) == 2`. */
  function ScanIntPair(s: string): Option<(int, int)> {
    var first := ScanIntField(s);
    if first.None? then None
    else
      var n1 := first.value.1;
      if n1 < |s| && s[n1] == ',' then
        var second := ScanIntField(s[n1 + 1..]);
        if second.None? then None else Some((first.value.0, second.value.0))
      else None
  }

  // ---------------------------------------------------------------- Arduino core

  /** Largest magnitude `Print::printFloat` renders; beyond it, "ovf". */
  const PrintFloatLimit: real := 4294967040.0

  /** `Serial.print(x, 1)`: the sign, then |x| + 0.05 truncated to one decimal. */
  function PrintFloat1(x: real): string {
    if x > PrintFloatLimit || x < -PrintFloatLimit then "ovf"
    else (if x < 0.0 then "-" else "") + Magnitude1((if x < 0.0 then -x else x) + 0.05)
  }

  /** The digits `printFloat` writes for a magnitude already rounded up by 0.05:
      the whole part, a point and the first decimal, both truncated. */
  function Magnitude1(a: real): string
    requires a >= 0.0
  {
    var whole := a.Floor;
    NatToString(whole) + "." + [DigitChar(((a - whole as real) * 10.0).Floor)]
  }

  /** `Serial.print(x, 0)`: the sign, then |x| + 0.5 truncated to a whole number,
      with no decimal point. */
  function PrintFloat0(x: real): string {
    if x > PrintFloatLimit || x < -PrintFloatLimit then "ovf"
    else (if x < 0.0 then "-" else "") + NatToString(((if x < 0.0 then -x else x) + 0.5).Floor)
  }

  /** The value of Magnitude1's text: `a` truncated to one decimal. */
  function Truncated1(a: real): real {
    a.Floor as real + ((a - a.Floor as real) * 10.0).Floor as real / 10.0
  }

  // ---------------------------------------------------------------- properties

  /** Digits followed by a non-digit: the digit run is exactly the leading digits. */
  lemma {:induction false} LeadingDigitsOf(d: string, rest: string)
    requires AllDigits(d)
    requires rest == [] || !IsDigit(rest[0])
    ensures LeadingDigits(d + rest) == |d|
    decreases |d|
  {
    if d != [] {
      assert (d + rest)[1..] == d[1..] + rest;
      LeadingDigitsOf(d[1..], rest);
    } else {
      assert d + rest == rest;
    }
  }

  /** A digit string is read back by the integer scanner as its value. */
  lemma ScanIntegerDigits(d: string)
    requires |d| >= 1 && AllDigits(d)
    ensures ScanInteger(d) == Some((DigitsValue(d) as int, |d|))
  {
    ScanIntegerPrefix(d, []);
    assert d + [] == d;
  }

  /** Digits followed by something other than a digit are read by the integer scanner
      as their value, and no further. */
  lemma ScanIntegerPrefix(d: string, rest: string)
    requires |d| >= 1 && AllDigits(d)
    requires rest == [] || !IsDigit(rest[0])
    ensures ScanInteger(d + rest) == Some((DigitsValue(d) as int, |d|))
  {
    var s := d + rest;
    LeadingDigitsOf(d, rest);
    assert s[0] == d[0] && IsDigit(s[0]);
    var sg := if |s| > 0 && (s[0] == '-' || s[0] == '+') then 1 else 0;
    assert sg == 0 && s[sg..] == s;
    assert s[sg..][..|d|] == d;
  }

  /** One `%d` conversion reads a digit string up to the first non-digit. */
  lemma ScanIntFieldDigits(d: string, rest: string)
    requires |d| >= 1 && AllDigits(d)
    requires rest == [] || !IsDigit(rest[0])
    ensures ScanIntField(d + rest) == Some((DigitsValue(d) as int, |d|))
  {
    var s := d + rest;
    ScanIntegerPrefix(d, rest);
    assert s[0] == d[0] && !IsAsciiSpace(s[0]);
  }

  /** `sscanf("%d,%d")` succeeds when the first field is read, a comma follows it and the
      second field is read after the comma. */
  lemma ScanIntPairAt(s: string, h: int, n1: nat, f: int, n2: nat)
    requires ScanIntField(s) == Some((h, n1)) && n1 < |s| && s[n1] == ','
    requires ScanIntField(s[n1 + 1..]) == Some((f, n2))
    ensures ScanIntPair(s) == Some((h, f))
  {
  }

  /** `sscanf("%d,%d")` reads two digit strings separated by a comma. */
  lemma ScanIntPairDigits(d1: string, d2: string)
    requires |d1| >= 1 && AllDigits(d1) && |d2| >= 1 && AllDigits(d2)
    ensures ScanIntPair(d1 + "," + d2) == Some((DigitsValue(d1) as int, DigitsValue(d2) as int))
  {
    var s := d1 + "," + d2;
    var h, f := DigitsValue(d1) as int, DigitsValue(d2) as int;
    assert ScanIntField(s) == Some((h, |d1| as nat)) by {
      assert s == d1 + ("," + d2);
      ScanIntFieldDigits(d1, "," + d2);
    }
    assert ScanIntField(s[|d1| + 1..]) == Some((f, |d2| as nat)) by {
      assert s[|d1| + 1..] == d2 + [];
      ScanIntFieldDigits(d2, []);
    }
    assert s[|d1|] == ',';
    ScanIntPairAt(s, h, |d1|, f, |d2|);
  }

  /** A number that fills `body`, unsigned and without exponent, is read by ScanReal. */
  lemma ScanRealUnsigned(body: string, m: real)
    requires |body| >= 1 && IsDigit(body[0])
    requires ScanMantissa(body) == Some((m, |body| as nat))
    ensures ScanReal(body) == Some((m, |body| as nat))
  {
    assert body[0..] == body;
    assert body[|body|..] == [];
    assert ScanExponent([]) == (0, 0);
    assert Scale(m, 0) == m by {
      assert Pow10(0) == 1;
    }
  }

  /** An unsigned mantissa with no exponent after it is what the number scanner reads. */
  lemma ScanRealNoExponent(s: string, m: real, len: nat)
    requires |s| >= 1 && IsDigit(s[0])
    requires ScanMantissa(s) == Some((m, len)) && ScanExponent(s[len..]) == (0, 0)
    ensures ScanReal(s) == Some((m, len))
  {
    assert s[0..] == s;
    assert Scale(m, 0) == m by {
      assert Pow10(0) == 1;
    }
  }

  /** Digits followed by something that cannot continue a number (no digit, point or
      exponent letter) are read by the number scanner as their value, and no further. */
  lemma ScanRealPrefix(d: string, rest: string)
    requires |d| >= 1 && AllDigits(d)
    requires rest == [] || (!IsDigit(rest[0]) && rest[0] !in ".eE")
    ensures ScanReal(d + rest) == Some((DigitsValue(d) as real, |d| as nat))
  {
    var s := d + rest;
    var v := DigitsValue(d) as real;
    assert ScanMantissa(s) == Some((v, |d| as nat)) by {
      LeadingDigitsOf(d, rest);
      assert s[..|d|] == d;
      assert |d| < |s| ==> s[|d|] == rest[0];
    }
    assert ScanExponent(s[|d|..]) == (0, 0) by {
      assert s[|d|..] == rest;
    }
    assert s[0] == d[0] && IsDigit(s[0]);
    ScanRealNoExponent(s, v, |d|);
  }

  /** The same number after a minus sign is read as its negation. */
  lemma ScanRealNegated(body: string, m: real)
    requires |body| >= 1 && IsDigit(body[0])
    requires ScanMantissa(body) == Some((m, |body| as nat))
    ensures ScanReal("-" + body) == Some((-m, 1 + |body|))
  {
    var s := "-" + body;
    assert s[0] == '-';
    assert s[1..] == body;
    assert ScanMantissa(s[1..]) == Some((m, |body| as nat));
    assert body[|body|..] == [];
    assert ScanExponent([]) == (0, 0);
    assert Scale(m, 0) == m by {
      assert Pow10(0) == 1;
    }
  }

  /** A digit string is read back by the number scanner as its value. */
  lemma ScanRealDigits(d: string)
    requires |d| >= 1 && AllDigits(d)
    ensures ScanReal(d) == Some((DigitsValue(d) as real, |d| as nat))
  {
    LeadingDigitsOf(d, []);
    assert d + [] == d;
    assert d[..|d|] == d;
    assert ScanMantissa(d) == Some((DigitsValue(d) as real, |d| as nat));
    ScanRealUnsigned(d, DigitsValue(d) as real);
  }

  /** A text that starts with no white space and is one number throughout is what
      `double.TryParse` accepts and `atof` reads. */
  lemma ParseWholeReal(s: string, v: real)
    requires |s| > 0 && !IsAsciiSpace(s[0])
    requires ScanReal(s) == Some((v, |s| as nat))
    ensures TryParseDouble(s) == Some(v) && Atof(s) == v
  {
    assert LeadingSpace(s) == 0;
    assert s[0..] == s;
    assert s[|s|..] == [];
  }

  /** The same for `int.TryParse` / `long.TryParse` and a value in range. */
  lemma ParseWholeInteger(s: string, v: int, lo: int, hi: int)
    requires |s| > 0 && !IsAsciiSpace(s[0])
    requires ScanInteger(s) == Some((v, |s| as nat)) && lo <= v <= hi
    ensures TryParseIntegerIn(s, lo, hi) == Some(v)
  {
    assert LeadingSpace(s) == 0;
    assert s[0..] == s;
    assert s[|s|..] == [];
  }

  /** `int.TryParse` and `double.TryParse` read back what `NatToString` writes. */
  lemma ParseNatToString(n: nat)
    ensures n <= Int32Max ==> TryParseInt32(NatToString(n)) == Some(n)
    ensures n <= Int64Max ==> TryParseInt64(NatToString(n)) == Some(n)
    ensures TryParseDouble(NatToString(n)) == Some(n as real)
    ensures Atof(NatToString(n)) == n as real
  {
    var s := NatToString(n);
    ScanIntegerDigits(s);
    ScanRealDigits(s);
    ParseWholeReal(s, n as real);
    if n <= Int32Max {
      ParseWholeInteger(s, n, Int32Min, Int32Max);
    }
    if n <= Int64Max {
      ParseWholeInteger(s, n, Int64Min, Int64Max);
    }
  }

  /** A text that starts with no white space and begins with a number is accepted by
      `double.TryParse` exactly when what follows the number is acceptable after it. */
  lemma ParseRealAt(s: string, v: real, n: nat)
    requires |s| > 0 && !IsAsciiSpace(s[0]) && ScanReal(s) == Some((v, n))
    ensures TryParseDouble(s) == if TrailingOk(s[n..]) then Some(v) else None
  {
    assert LeadingSpace(s) == 0;
    assert s[0..] == s;
  }

  /** The same for `int.TryParse` / `long.TryParse`, which also need the value in range. */
  lemma ParseIntegerAt(s: string, v: int, n: nat, lo: int, hi: int)
    requires |s| > 0 && !IsAsciiSpace(s[0]) && ScanInteger(s) == Some((v, n))
    ensures TryParseIntegerIn(s, lo, hi) == if TrailingOk(s[n..]) && lo <= v <= hi then Some(v) else None
  {
    assert LeadingSpace(s) == 0;
    assert s[0..] == s;
  }

  /** A digit string followed by white space and NUL characters is a number followed by
      what may follow a number. */
  lemma DigitsTrailingScan(d: string, tail: string)
    requires |d| >= 1 && AllDigits(d) && TrailingOk(tail)
    ensures ScanReal(d + tail) == Some((DigitsValue(d) as real, |d| as nat))
    ensures ScanInteger(d + tail) == Some((DigitsValue(d) as int, |d| as nat))
    ensures (d + tail)[|d|..] == tail
  {
    assert tail != [] ==> IsAsciiSpace(tail[0]) || tail[0] == '\0';
    ScanRealPrefix(d, tail);
    ScanIntegerPrefix(d, tail);
  }

  /** A digit string followed by white space and NUL characters is read by
      `double.TryParse`, and by `int.TryParse`/`long.TryParse` when in range. */
  lemma ParseDigitsTrailing(d: string, tail: string)
    requires |d| >= 1 && AllDigits(d) && TrailingOk(tail)
    ensures TryParseDouble(d + tail) == Some(DigitsValue(d) as real)
    ensures DigitsValue(d) <= Int32Max ==> TryParseInt32(d + tail) == Some(DigitsValue(d))
    ensures DigitsValue(d) <= Int64Max ==> TryParseInt64(d + tail) == Some(DigitsValue(d))
  {
    var s := d + tail;
    var v := DigitsValue(d);
    DigitsTrailingScan(d, tail);
    assert s[0] == d[0];
    ParseRealAt(s, v as real, |d|);
    ParseIntegerAt(s, v, |d|, Int32Min, Int32Max);
    ParseIntegerAt(s, v, |d|, Int64Min, Int64Max);
  }

  /** "12" is the digit string of twelve. */
  lemma Twelve()
    ensures AllDigits("12") && DigitsValue("12") == 12
  {
    assert "12"[..1] == "1";
  }

  /** A trailing NUL character does not make `double.TryParse` fail. */
  lemma ParseDoubleTrailingNul()
    ensures TryParseDouble("12\0") == Some(12.0)
  {
    Twelve();
    assert LeadingSpace("\0") == 0;
    assert "12\0" == "12" + "\0";
    ParseDigitsTrailing("12", "\0");
  }

  /** Nor do trailing NUL characters make `int.TryParse` fail. */
  lemma ParseIntTrailingNul()
    ensures TryParseInt32("12\0\0") == Some(12)
  {
    Twelve();
    assert LeadingSpace("\0\0") == 0;
    assert "12\0\0" == "12" + "\0\0";
    ParseDigitsTrailing("12", "\0\0");
  }

  /** White space after a NUL does. */
  lemma ParseSpaceAfterNul()
    ensures TryParseInt32("12\0 ") == None
  {
    var s := "12\0 ";
    Twelve();
    assert ScanInteger(s) == Some((12, 2)) by {
      assert s == "12" + "\0 ";
      ScanIntegerPrefix("12", "\0 ");
    }
    assert !TrailingOk(s[2..]) by {
      assert LeadingSpace(s[2..]) == 0;
      assert s[2..][1] == ' ';
    }
    ParseIntegerAt(s, 12, 2, Int32Min, Int32Max);
  }

  /** `Serial.print(x, 1)` of a whole number is its digits followed by ".0". */
  lemma PrintWholeNumber(n: nat)
    requires n as real <= PrintFloatLimit
    ensures PrintFloat1(n as real) == NatToString(n) + ".0"
  {
    var a := n as real + 0.05;
    assert a.Floor == n;
    assert ((a - n as real) * 10.0).Floor == 0;
  }

  /** `Serial.print(x, 0)` of a whole number is its digits. */
  lemma PrintWholeNumber0(n: nat)
    requires n as real <= PrintFloatLimit
    ensures PrintFloat0(n as real) == NatToString(n)
  {
    assert (n as real + 0.5).Floor == n;
  }

  /** The characters `print(x, 1)` can produce. */
  predicate IsNumberChar(c: char) {
    IsDigit(c) || c == '.' || c == '-' || c == 'o' || c == 'v' || c == 'f'
  }

  lemma PrintFloat1Chars(x: real)
    ensures forall i :: 0 <= i < |PrintFloat1(x)| ==> IsNumberChar(PrintFloat1(x)[i])
  {
  }

  lemma PrintFloat0Chars(x: real)
    ensures forall i :: 0 <= i < |PrintFloat0(x)| ==> IsNumberChar(PrintFloat0(x)[i])
  {
  }

  /** The mantissa scanner on digits, a point and more digits. */
  lemma MantissaFraction(s: string, a: nat, b: nat, w: nat, f: real)
    requires LeadingDigits(s) == a && a < |s| && s[a] == '.'
    requires LeadingDigits(s[a + 1..]) == b && a + b > 0
    requires DigitsValue(s[..a]) == w && FractionValue(s[a + 1..][..b]) == f
    ensures ScanMantissa(s) == Some((w as real + f, a + 1 + b))
  {
    var whole := DigitsValue(s[..LeadingDigits(s)]) as real;
    assert whole == w as real;
    var frac := s[a + 1..];
    assert FractionValue(frac[..LeadingDigits(frac)]) == f;
  }

  /** Digits, a point and one digit are read as the whole part plus a tenth. */
  lemma MantissaOneDecimal(body: string, n: nat)
    requires n >= 1 && |body| == n + 2 && AllDigits(body[..n])
    requires body[n] == '.' && IsDigit(body[n + 1])
    ensures ScanMantissa(body)
         == Some((DigitsValue(body[..n]) as real + DigitValue(body[n + 1]) as real / 10.0, n + 2))
  {
    assert LeadingDigits(body) == n by {
      assert body == body[..n] + body[n..];
      LeadingDigitsOf(body[..n], body[n..]);
    }
    var frac := body[n + 1..];
    assert LeadingDigits(frac) == 1 by {
      assert LeadingDigits(frac[1..]) == 0;
    }
    assert FractionValue(frac[..1]) == DigitValue(body[n + 1]) as real / 10.0 by {
      var one := frac[..1];
      assert one == [body[n + 1]];
      assert one[..0] == [];
      assert DigitsValue(one) == DigitValue(body[n + 1]);
      assert Pow10(|one|) == 10;
    }
    MantissaFraction(body, n, 1, DigitsValue(body[..n]), DigitValue(body[n + 1]) as real / 10.0);
  }

  /** The truncation `printFloat` does: what it keeps is within 0.1 below the magnitude. */
  lemma TruncationBounds(a: real)
    requires a >= 0.0
    ensures 0 <= ((a - a.Floor as real) * 10.0).Floor < 10
    ensures Truncated1(a) <= a < Truncated1(a) + 0.1
  {
  }

  /** The mantissa scanner reads Magnitude1's text back as the truncated value. */
  lemma ScanMagnitude1(a: real)
    requires a >= 0.0
    ensures ScanMantissa(Magnitude1(a)) == Some((Truncated1(a), |Magnitude1(a)|))
  {
    TruncationBounds(a);
    var whole := a.Floor;
    var tenth := ((a - whole as real) * 10.0).Floor;
    var digits := NatToString(whole);
    var n := |digits|;
    var body := Magnitude1(a);
    assert body[..n] == digits && body[n] == '.' && body[n + 1] == DigitChar(tenth);
    MantissaOneDecimal(body, n);
  }

  /** `atof` reads what `print(x, 1)` writes as the signed truncated magnitude. */
  lemma AtofPrintFloat1(x: real)
    requires -PrintFloatLimit <= x <= PrintFloatLimit
    ensures var t := Truncated1((if x < 0.0 then -x else x) + 0.05);
      Atof(PrintFloat1(x)) == if x < 0.0 then -t else t
  {
    var a := (if x < 0.0 then -x else x) + 0.05;
    var body := Magnitude1(a);
    assert PrintFloat1(x) == (if x < 0.0 then "-" else "") + body;
    ScanMagnitude1(a);
    if x < 0.0 {
      AtofNegative(body, Truncated1(a));
      assert Atof("-" + body) == -Truncated1(a);
    } else {
      AtofUnsigned(body, Truncated1(a));
      assert "" + body == body;
    }
  }

  /** `atof` of an unsigned number without exponent. */
  lemma AtofUnsigned(body: string, t: real)
    requires |body| >= 1 && IsDigit(body[0])
    requires ScanMantissa(body) == Some((t, |body| as nat))
    ensures Atof(body) == t
  {
    ScanRealUnsigned(body, t);
    ParseWholeReal(body, t);
  }

  /** `atof` of the same number after a minus sign. */
  lemma AtofNegative(body: string, t: real)
    requires |body| >= 1 && IsDigit(body[0])
    requires ScanMantissa(body) == Some((t, |body| as nat))
    ensures Atof("-" + body) == -t
  {
    ScanRealNegated(body, t);
    ParseWholeReal("-" + body, -t);
  }

  /** Reading back what `print(x, 1)` writes with `atof` gives `x` to within the 0.05 of
      its rounding (towards larger magnitudes on a tie). */
  lemma PrintFloat1Accuracy(x: real)
    requires -PrintFloatLimit <= x <= PrintFloatLimit
    ensures x >= 0.0 ==> -0.05 < Atof(PrintFloat1(x)) - x <= 0.05
    ensures x < 0.0 ==> -0.05 <= Atof(PrintFloat1(x)) - x < 0.05
  {
    AtofPrintFloat1(x);
    TruncationBounds((if x < 0.0 then -x else x) + 0.05);
  }
}
