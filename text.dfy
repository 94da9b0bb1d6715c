/**
 * The .NET string and number-text operations the core relies on:
 * Char.IsWhiteSpace, Trim, IsNullOrWhiteSpace, ToUpperInvariant,
 * ToLowerInvariant, Contains, and decimal.TryParse.
 */
module Text {
  import opened Wrappers
  import opened Numerics

  /** Char.IsWhiteSpace: the Unicode space, line and paragraph separators, U+0009..U+000D and U+0085. */
  predicate IsWhiteSpace(c: char) {
    var n := c as int;
    n == 0x20 || (0x09 <= n <= 0x0D) || n == 0x85 || n == 0xA0 || n == 0x1680
    || (0x2000 <= n <= 0x200A) || n == 0x2028 || n == 0x2029 || n == 0x202F
    || n == 0x205F || n == 0x3000
  }

  predicate AllWhiteSpace(s: string) {
    forall i :: 0 <= i < |s| ==> IsWhiteSpace(s[i])
  }

  /** string.IsNullOrWhiteSpace; None stands for a null reference. */
  predicate IsNullOrWhiteSpace(s: Option<string>) {
    s.None? || AllWhiteSpace(s.value)
  }

  function TrimStart(s: string): (r: string)
    ensures |r| <= |s| && r == s[|s| - |r|..]
    ensures AllWhiteSpace(s[..|s| - |r|])
    ensures r == [] || !IsWhiteSpace(r[0])
  {
    if s == [] || !IsWhiteSpace(s[0]) then s else TrimStart(s[1..])
  }

  function TrimEnd(s: string): (r: string)
    ensures |r| <= |s| && r == s[..|r|]
    ensures AllWhiteSpace(s[|r|..])
    ensures r == [] || !IsWhiteSpace(r[|r| - 1])
  {
    if s == [] || !IsWhiteSpace(s[|s| - 1]) then s else TrimEnd(s[..|s| - 1])
  }

  /** string.Trim(): removes leading and trailing white space. */
  function Trim(s: string): string {
    TrimEnd(TrimStart(s))
  }

  /** A prefix `r` of a suffix `a` of `s` is the slice of `s` between them, and `a`'s rest is `s`'s rest. */
  lemma SliceOfSuffix(s: string, a: string, r: string)
    requires |a| <= |s| && a == s[|s| - |a|..]
    requires |r| <= |a| && r == a[..|r|]
    ensures r == s[|s| - |a|..|s| - |a| + |r|]
    ensures a[|r|..] == s[|s| - |a| + |r|..]
  {
  }

  /** Where Trim cuts: the kept slice s[i..j], with only white space outside it. */
  lemma TrimBounds(s: string) returns (i: nat, j: nat)
    ensures i <= j <= |s| && Trim(s) == s[i..j]
    ensures AllWhiteSpace(s[..i]) && AllWhiteSpace(s[j..])
  {
    var a := TrimStart(s);
    var r := TrimEnd(a);
    SliceOfSuffix(s, a, r);
    i := |s| - |a|;
    j := i + |r|;
  }

  /** Trim leaves no white space at either end. */
  lemma TrimEnds(s: string)
    ensures Trim(s) == [] || (!IsWhiteSpace(Trim(s)[0]) && !IsWhiteSpace(Trim(s)[|Trim(s)| - 1]))
  {
    var a := TrimStart(s);
    var r := TrimEnd(a);
    if r != [] {
      assert r == a[..|r|];
      assert r[0] == a[0];
    }
  }

  /** Trim leaves no white space at either end, and removes only white space. */
  lemma TrimShape(s: string)
    ensures Trim(s) == [] || (!IsWhiteSpace(Trim(s)[0]) && !IsWhiteSpace(Trim(s)[|Trim(s)| - 1]))
    ensures exists i, j :: 0 <= i <= j <= |s| && Trim(s) == s[i..j]
                           && AllWhiteSpace(s[..i]) && AllWhiteSpace(s[j..])
  {
    TrimEnds(s);
    var i, j := TrimBounds(s);
    assert 0 <= i <= j <= |s| && Trim(s) == s[i..j] && AllWhiteSpace(s[..i]) && AllWhiteSpace(s[j..]);
  }

  lemma {:induction false} TrimStartPadded(pad: string, s: string)
    requires AllWhiteSpace(pad)
    ensures TrimStart(pad + s) == TrimStart(s)
  {
    if pad != [] {
      assert (pad + s)[1..] == pad[1..] + s;
      TrimStartPadded(pad[1..], s);
    } else {
      assert pad + s == s;
    }
  }

  lemma {:induction false} TrimEndPadded(s: string, pad: string)
    requires AllWhiteSpace(pad)
    ensures TrimEnd(s + pad) == TrimEnd(s)
  {
    if pad != [] {
      assert (s + pad)[..|s + pad| - 1] == s + pad[..|pad| - 1];
      TrimEndPadded(s, pad[..|pad| - 1]);
    } else {
      assert s + pad == s;
    }
  }

  lemma {:induction false} TrimStartKeepsSuffix(s: string, pad: string)
    requires AllWhiteSpace(pad)
    ensures TrimStart(s + pad) == TrimStart(s) + pad || (TrimStart(s) == [] && TrimStart(s + pad) == [])
  {
    if s == [] {
      assert s + pad == pad;
      TrimStartPadded(pad, []);
    } else if !IsWhiteSpace(s[0]) {
    } else {
      assert (s + pad)[1..] == s[1..] + pad;
      TrimStartKeepsSuffix(s[1..], pad);
    }
  }

  /** Leading and trailing white space make no difference to Trim. */
  lemma TrimPadded(before: string, s: string, after: string)
    requires AllWhiteSpace(before) && AllWhiteSpace(after)
    ensures Trim(before + s + after) == Trim(s)
  {
    assert before + s + after == before + (s + after);
    TrimStartPadded(before, s + after);
    TrimStartKeepsSuffix(s, after);
    if TrimStart(s + after) == TrimStart(s) + after {
      TrimEndPadded(TrimStart(s), after);
    } else {
      assert TrimEnd([]) == [];
    }
  }

  /** ToUpperInvariant on one character (ASCII letters). */
  function UpperChar(c: char): char {
    if 'a' <= c <= 'z' then (c as int - 32) as char else c
  }

  /** ToLowerInvariant on one character (ASCII letters). */
  function LowerChar(c: char): char {
    if 'A' <= c <= 'Z' then (c as int + 32) as char else c
  }

  function ToUpperInvariant(s: string): (r: string)
    ensures |r| == |s|
    ensures forall i :: 0 <= i < |s| ==> r[i] == UpperChar(s[i])
  {
    seq(|s|, i requires 0 <= i < |s| => UpperChar(s[i]))
  }

  function ToLowerInvariant(s: string): (r: string)
    ensures |r| == |s|
    ensures forall i :: 0 <= i < |s| ==> r[i] == LowerChar(s[i])
  {
    seq(|s|, i requires 0 <= i < |s| => LowerChar(s[i]))
  }

  /**
   * String.Length: the number of UTF-16 code units. A character outside the
   * Basic Multilingual Plane is a surrogate pair and counts twice.
   */
  function Utf16Length(s: string): (n: nat)
    ensures |s| <= n <= 2 * |s|
    decreases |s|
  {
    if s == [] then 0
    else Utf16Length(s[..|s| - 1]) + if s[|s| - 1] as int >= 0x10000 then 2 else 1
  }

  /** On text within the Basic Multilingual Plane the UTF-16 length is the character count. */
  lemma {:induction false} Utf16LengthBmp(s: string)
    requires forall i :: 0 <= i < |s| ==> s[i] as int < 0x10000
    ensures Utf16Length(s) == |s|
    decreases |s|
  {
    if s != [] {
      Utf16LengthBmp(s[..|s| - 1]);
    }
  }

  lemma {:induction false} TrimStartUpper(s: string)
    ensures TrimStart(ToUpperInvariant(s)) == ToUpperInvariant(TrimStart(s))
  {
    if s != [] {
      assert ToUpperInvariant(s)[1..] == ToUpperInvariant(s[1..]);
      assert IsWhiteSpace(UpperChar(s[0])) == IsWhiteSpace(s[0]);
      TrimStartUpper(s[1..]);
    }
  }

  lemma {:induction false} TrimEndUpper(s: string)
    ensures TrimEnd(ToUpperInvariant(s)) == ToUpperInvariant(TrimEnd(s))
  {
    if s != [] {
      assert ToUpperInvariant(s)[..|s| - 1] == ToUpperInvariant(s[..|s| - 1]);
      assert IsWhiteSpace(UpperChar(s[|s| - 1])) == IsWhiteSpace(s[|s| - 1]);
      TrimEndUpper(s[..|s| - 1]);
    }
  }

  /** Upper-casing does not change which characters are white space, so it commutes with Trim. */
  lemma TrimUpper(s: string)
    ensures Trim(ToUpperInvariant(s)) == ToUpperInvariant(Trim(s))
  {
    TrimStartUpper(s);
    TrimEndUpper(TrimStart(s));
  }

  lemma UpperIdempotent(s: string)
    ensures ToUpperInvariant(ToUpperInvariant(s)) == ToUpperInvariant(s)
  {
  }

  /** Upper-casing forgets the case of the input. */
  lemma UpperOfLower(s: string)
    ensures ToUpperInvariant(ToLowerInvariant(s)) == ToUpperInvariant(s)
  {
  }

  /** string.Contains(sub): sub occurs at some position of s. */
  predicate Contains(s: string, sub: string) {
    exists i :: 0 <= i <= |s| - |sub| && OccursAt(s, sub, i)
  }

  predicate OccursAt(s: string, sub: string, i: int) {
    0 <= i <= |s| - |sub| && s[i..i + |sub|] == sub
  }

  // ---- decimal.TryParse(s, NumberStyles.Any, CultureInfo.InvariantCulture) ----

  predicate IsDigit(c: char) {
    '0' <= c <= '9'
  }

  predicate AllDigits(s: string) {
    forall i :: 0 <= i < |s| ==> IsDigit(s[i])
  }

  /** The white space that number parsing skips: U+0009..U+000D and U+0020. */
  predicate IsNumberWhite(c: char) {
    c == ' ' || ('\t' <= c <= '\r')
  }

  function TrimNumberWhite(s: string): (r: string)
    ensures |r| <= |s|
  {
    if s != [] && IsNumberWhite(s[0]) then TrimNumberWhite(s[1..])
    else if s != [] && IsNumberWhite(s[|s| - 1]) then TrimNumberWhite(s[..|s| - 1])
    else s
  }

  /** The value of a string of decimal digits. */
  function DigitsValue(d: string): nat
    requires AllDigits(d)
  {
    if d == [] then 0
    else DigitsValue(d[..|d| - 1]) * 10 + (d[|d| - 1] as int - '0' as int)
  }

  /** The position of the first '.', if any. */
  function IndexOfDot(s: string): (r: Option<nat>)
    ensures r.Some? ==> r.value < |s| && s[r.value] == '.' && '.' !in s[..r.value]
    ensures r.None? ==> '.' !in s
  {
    if s == [] then None
    else if s[0] == '.' then Some(0)
    else match IndexOfDot(s[1..])
      case None => None
      case Some(k) => assert s[..k + 1] == [s[0]] + s[1..][..k]; Some(k + 1)
  }

  /** Parses digits with an optional '.' and fractional digits; at least one digit overall. */
  function UnsignedValue(body: string): Option<real> {
    var dot := IndexOfDot(body);
    var whole := if dot.None? then body else body[..dot.value];
    var frac := if dot.None? then [] else body[dot.value + 1..];
    if AllDigits(whole) && AllDigits(frac) && |whole| + |frac| > 0 then
      Some(DigitsValue(whole) as real + DigitsValue(frac) as real / Scale(|frac|))
    else None
  }

  /**
   * decimal.TryParse with NumberStyles.Any and the invariant culture, on the
   * forms: optional surrounding white space, an optional leading sign, digits
   * with an optional decimal point. None is a failed parse.
   */
  function ParseDecimal(s: string): Option<real> {
    var t := TrimNumberWhite(s);
    if t != [] && (t[0] == '-' || t[0] == '+') then
      match UnsignedValue(t[1..])
      case None => None
      case Some(v) => Some(if t[0] == '-' then -v else v)
    else UnsignedValue(t)
  }

  /** The decimal digits of a natural number, without leading zeros ("0" for zero). */
  function Digits(n: nat): (d: string)
    ensures AllDigits(d) && |d| > 0
  {
    if n < 10 then [('0' as int + n) as char] else Digits(n / 10) + [('0' as int + n % 10) as char]
  }

  lemma {:induction false} DigitsValueOfDigits(n: nat)
    ensures DigitsValue(Digits(n)) == n
  {
    if n >= 10 {
      var d := Digits(n);
      assert d[..|d| - 1] == Digits(n / 10);
      DigitsValueOfDigits(n / 10);
    }
  }

  /** A non-empty run of digits, with no point, parses to its value. */
  lemma UnsignedDigits(d: string)
    requires AllDigits(d) && |d| > 0
    ensures UnsignedValue(d) == Some(DigitsValue(d) as real)
  {
    assert '.' !in d by {
      forall k | 0 <= k < |d| ensures d[k] != '.' {
        assert IsDigit(d[k]);
      }
    }
    assert IndexOfDot(d) == None;
    var frac: string := [];
    assert AllDigits(frac) && DigitsValue(frac) == 0;
    assert DigitsValue(frac) as real / Scale(|frac|) == 0.0;
  }

  /** Parsing the digits of a natural number gives that number back. */
  lemma ParseDigits(n: nat)
    ensures ParseDecimal(Digits(n)) == Some(n as real)
  {
    var d := Digits(n);
    assert !IsNumberWhite(d[0]) && !IsNumberWhite(d[|d| - 1]);
    assert TrimNumberWhite(d) == d;
    assert IsDigit(d[0]);
    assert ParseDecimal(d) == UnsignedValue(d);
    UnsignedDigits(d);
    DigitsValueOfDigits(n);
  }

  /** A minus sign before the digits of n parses to -n. */
  lemma ParseNegative(n: nat)
    ensures ParseDecimal("-" + Digits(n)) == Some(-(n as real))
  {
    var d := Digits(n);
    var s := "-" + d;
    assert !IsNumberWhite(s[0]) && !IsNumberWhite(s[|s| - 1]);
    assert TrimNumberWhite(s) == s;
    assert s[1..] == d;
    ParseDigits(n);
    assert TrimNumberWhite(d) == d;
  }

  /** Empty text, a lone sign and a lone point do not parse. */
  lemma ParseBare()
    ensures ParseDecimal("") == None && ParseDecimal("-") == None && ParseDecimal(".") == None
  {
    assert IndexOfDot(".") == Some(0);
  }

  /** A minus sign negates, and empty or sign-only text does not parse. */
  lemma ParseSigned(n: nat)
    ensures ParseDecimal("-" + Digits(n)) == Some(-(n as real))
    ensures ParseDecimal("") == None && ParseDecimal("-") == None && ParseDecimal(".") == None
  {
    ParseNegative(n);
    ParseBare();
  }
}
