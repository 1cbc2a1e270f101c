/** The string operations the source takes from `String.prototype` and the global
    `parseInt`: `trim`, `toLowerCase` (ASCII letters only), `includes`, the decimal
    `toString` of an integer and `parseInt` without a radix. */
module Text {
  import opened Wrappers

  /** The white space and line terminators that `trim` and `parseInt` skip. */
  predicate IsSpace(c: char) {
    || c == '\t' || c == '\n' || c == '\U{000B}' || c == '\U{000C}' || c == '\r' || c == ' '
    || c == '\U{00A0}' || c == '\U{1680}' || ('\U{2000}' <= c <= '\U{200A}')
    || c == '\U{2028}' || c == '\U{2029}' || c == '\U{202F}' || c == '\U{205F}'
    || c == '\U{3000}' || c == '\U{FEFF}'
  }

  /** `s` without its leading white space. */
  function TrimStart(s: string): (r: string)
    ensures |r| <= |s| && r == s[|s| - |r|..]
    ensures forall i | 0 <= i < |s| - |r| :: IsSpace(s[i])
    ensures r != [] ==> !IsSpace(r[0])
  {
    if s != [] && IsSpace(s[0]) then TrimStart(s[1..]) else s
  }

  /** `s` without its trailing white space. */
  function TrimEnd(s: string): (r: string)
    ensures |r| <= |s| && r == s[..|r|]
    ensures forall i | |r| <= i < |s| :: IsSpace(s[i])
    ensures r != [] ==> !IsSpace(r[|r| - 1])
  {
    if s != [] && IsSpace(s[|s| - 1]) then TrimEnd(s[..|s| - 1]) else s
  }

  /** `r` is `s[i..j]` and everything of `s` outside that slice is white space. */
  predicate IsTrimmedSlice(s: string, r: string, i: int, j: int) {
    && 0 <= i <= j <= |s| && r == s[i..j]
    && (forall k | 0 <= k < i :: IsSpace(s[k]))
    && (forall k | j <= k < |s| :: IsSpace(s[k]))
  }

  /** `s.trim()`: the slice of `s` left once white space is cut from both ends;
      empty exactly when `s` is blank, and otherwise neither starts nor ends with
      white space. */
  function Trim(s: string): (r: string)
    ensures |r| <= |s|
    ensures exists i, j :: IsTrimmedSlice(s, r, i, j)
    ensures r == [] <==> forall i | 0 <= i < |s| :: IsSpace(s[i])
    ensures r != [] ==> !IsSpace(r[0]) && !IsSpace(r[|r| - 1])
  {
    var t := TrimStart(s);
    assert t == [] ==> forall i | 0 <= i < |s| :: IsSpace(s[i]);
    CutBothEnds(s, t, TrimEnd(t));
    TrimEnd(t)
  }

  /** Cutting white space off the front of `s` (giving `t`), then off the back of
      `t` (giving `r`), leaves a slice of `s` with only white space around it. */
  lemma CutBothEnds(s: string, t: string, r: string)
    requires |t| <= |s| && t == s[|s| - |t|..]
    requires forall k | 0 <= k < |s| - |t| :: IsSpace(s[k])
    requires |r| <= |t| && r == t[..|r|]
    requires forall k | |r| <= k < |t| :: IsSpace(t[k])
    ensures IsTrimmedSlice(s, r, |s| - |t|, |s| - |t| + |r|)
  {
    var i := |s| - |t|;
    assert r == s[i..i + |r|];
    forall k | i + |r| <= k < |s|
      ensures IsSpace(s[k])
    {
      assert s[k] == t[k - i];
    }
  }

  /** Trimming a trimmed string changes nothing. */
  lemma TrimIdempotent(s: string)
    ensures Trim(Trim(s)) == Trim(s)
  {
    var r := Trim(s);
    if r != [] {
      assert TrimStart(r) == r;
      assert TrimEnd(r) == r;
    }
  }

  /** ASCII `toLowerCase` of one character. */
  function LowerChar(c: char): char {
    if 'A' <= c <= 'Z' then (c as int + 32) as char else c
  }

  /** `s.toLowerCase()` on ASCII letters; every other character is kept. */
  function ToLower(s: string): (r: string)
    ensures |r| == |s| && forall i | 0 <= i < |s| :: r[i] == LowerChar(s[i])
  {
    seq(|s|, i requires 0 <= i < |s| => LowerChar(s[i]))
  }

  /** `hay.includes(needle)`: `needle` occurs in `hay` at some position. */
  predicate Contains(hay: string, needle: string) {
    needle <= hay || (hay != [] && Contains(hay[1..], needle))
  }

  /** `needle` is the slice of `hay` that starts at position `i`. */
  predicate OccursAt(hay: string, needle: string, i: int) {
    0 <= i <= |hay| - |needle| && hay[i..i + |needle|] == needle
  }

  /** `includes` holds exactly when `needle` occurs in `hay` at some position. */
  lemma {:induction false} ContainsIff(hay: string, needle: string)
    ensures Contains(hay, needle) <==> exists i :: OccursAt(hay, needle, i)
  {
    if needle <= hay {
      assert OccursAt(hay, needle, 0);
    } else if hay == [] {
    } else {
      ContainsIff(hay[1..], needle);
      if exists i :: OccursAt(hay, needle, i) {
        var i :| OccursAt(hay, needle, i);
        assert i != 0;
        OccursShift(hay, needle, i - 1);
      }
      if exists i :: OccursAt(hay[1..], needle, i) {
        var i :| OccursAt(hay[1..], needle, i);
        OccursShift(hay, needle, i);
      }
    }
  }

  /** Dropping the first character moves every occurrence one place to the left. */
  lemma OccursShift(hay: string, needle: string, i: int)
    requires hay != [] && 0 <= i
    ensures OccursAt(hay[1..], needle, i) <==> OccursAt(hay, needle, i + 1)
  {
    if 0 <= i <= |hay| - 1 - |needle| {
      assert hay[1..][i..i + |needle|] == hay[i + 1..i + 1 + |needle|];
    }
  }

  // ---------------------------------------------------------------------------
  // Decimal digits, Number.prototype.toString and parseInt

  predicate IsDigit(c: char) {
    '0' <= c <= '9'
  }

  predicate AllDigits(s: string) {
    forall i | 0 <= i < |s| :: IsDigit(s[i])
  }

  function DigitChar(d: nat): (c: char)
    requires d < 10
    ensures IsDigit(c)
  {
    ('0' as int + d) as char
  }

  function DigitValue(c: char): (d: nat)
    requires IsDigit(c)
    ensures d < 10
  {
    c as int - '0' as int
  }

  /** The value of a string of decimal digits, most significant first. */
  function DigitsValue(s: string): nat
    requires AllDigits(s)
  {
    if s == [] then 0 else DigitsValue(s[..|s| - 1]) * 10 + DigitValue(s[|s| - 1])
  }

  /** The decimal numeral of `n`: digits only, never empty. */
  function NatToString(n: nat): (s: string)
    ensures s != [] && AllDigits(s)
  {
    if n < 10 then [DigitChar(n)] else NatToString(n / 10) + [DigitChar(n % 10)]
  }

  /** `n.toString()` for an integer `n`. */
  function IntToString(n: int): string {
    if n < 0 then "-" + NatToString(-n) else NatToString(n)
  }

  predicate IsHexDigit(c: char) {
    IsDigit(c) || 'a' <= c <= 'f' || 'A' <= c <= 'F'
  }

  function HexDigitValue(c: char): (d: nat)
    requires IsHexDigit(c)
    ensures d < 16
  {
    if IsDigit(c) then DigitValue(c)
    else if 'a' <= c <= 'f' then c as int - 'a' as int + 10
    else c as int - 'A' as int + 10
  }

  function HexValue(s: string): nat
    requires forall i | 0 <= i < |s| :: IsHexDigit(s[i])
  {
    if s == [] then 0 else HexValue(s[..|s| - 1]) * 16 + HexDigitValue(s[|s| - 1])
  }

  /** The longest prefix of `s` made of decimal digits. */
  function LeadingDigits(s: string): (r: string)
    ensures r <= s && AllDigits(r)
  {
    if s != [] && IsDigit(s[0]) then [s[0]] + LeadingDigits(s[1..]) else []
  }

  /** The longest prefix of `s` made of hexadecimal digits. */
  function LeadingHexDigits(s: string): (r: string)
    ensures r <= s && forall i | 0 <= i < |r| :: IsHexDigit(r[i])
  {
    if s != [] && IsHexDigit(s[0]) then [s[0]] + LeadingHexDigits(s[1..]) else []
  }

  /** The unsigned part of `parseInt`: a `0x`/`0X` prefix selects base 16, otherwise
      base 10; the longest run of digits is read and the rest ignored; no digit at
      all gives `None` (`NaN`). */
  function ParseMagnitude(u: string): Option<nat> {
    if |u| >= 2 && u[0] == '0' && (u[1] == 'x' || u[1] == 'X') then
      var hex := LeadingHexDigits(u[2..]);
      if hex == [] then None else Some(HexValue(hex))
    else
      var digits := LeadingDigits(u);
      if digits == [] then None else Some(DigitsValue(digits))
  }

  /** `parseInt(s)` without a radix: leading white space is skipped, then an
      optional sign, then the magnitude. `None` is `NaN`, which equals nothing. */
  function ParseInt(s: string): Option<int> {
    var t := TrimStart(s);
    var negative := t != [] && t[0] == '-';
    var magnitude := ParseMagnitude(if t != [] && (t[0] == '-' || t[0] == '+') then t[1..] else t);
    if magnitude.None? then None
    else if negative then Some(-(magnitude.value as int))
    else Some(magnitude.value)
  }

  lemma {:induction false} LeadingDigitsOfDigits(s: string)
    requires AllDigits(s)
    ensures LeadingDigits(s) == s
  {
    if s != [] {
      LeadingDigitsOfDigits(s[1..]);
    }
  }

  lemma {:induction false} NatToStringValue(n: nat)
    ensures DigitsValue(NatToString(n)) == n
  {
    if n >= 10 {
      var s := NatToString(n / 10) + [DigitChar(n % 10)];
      assert s[..|s| - 1] == NatToString(n / 10);
      NatToStringValue(n / 10);
    }
  }

  lemma MagnitudeOfNumeral(n: nat)
    ensures ParseMagnitude(NatToString(n)) == Some(n)
  {
    var digits := NatToString(n);
    assert |digits| >= 2 ==> IsDigit(digits[1]);
    LeadingDigitsOfDigits(digits);
    NatToStringValue(n);
  }

  /** A numeral has no leading white space, so `parseInt` reads it from the start. */
  lemma TrimStartOfNumeral(s: string)
    requires s != [] && (s[0] == '-' || IsDigit(s[0]))
    ensures TrimStart(s) == s
  {
  }

  /** `parseInt(String(n)) === n`: an integer survives the trip through its numeral,
      which is how the stores compare a numeric id with `parseInt(id)`. */
  lemma ParseIntOfIntToString(n: int)
    ensures ParseInt(IntToString(n)) == Some(n)
  {
    var m: nat := if n < 0 then -n else n;
    var digits := NatToString(m);
    MagnitudeOfNumeral(m);
    var s := IntToString(n);
    TrimStartOfNumeral(s);
    if n < 0 {
      assert s[1..] == digits;
      assert ParseMagnitude(s[1..]) == Some(m);
    } else {
      assert ParseMagnitude(s) == Some(m);
    }
  }

  /** Distinct integers have distinct numerals. */
  lemma IntToStringInjective(a: int, b: int)
    ensures IntToString(a) == IntToString(b) <==> a == b
  {
    ParseIntOfIntToString(a);
    ParseIntOfIntToString(b);
  }
}
