/**
 * String helpers with the semantics of the Java and JavaScript library calls
 * the repository relies on: prefix and substring tests, `trim()` in both
 * languages, ASCII case folding, `Long.parseLong`, decimal rendering and
 * `String.replace(target, "")`.
 */
module Text {
  import opened Common

  predicate StartsWith(s: string, prefix: string) {
    |prefix| <= |s| && s[..|prefix|] == prefix
  }

  predicate OccursAt(s: string, k: string, i: int) {
    0 <= i <= |s| - |k| && s[i..i + |k|] == k
  }

  /** `s.contains(k)` / `s.includes(k)`. */
  predicate Contains(s: string, k: string) {
    exists i | 0 <= i <= |s| - |k| :: OccursAt(s, k, i)
  }

  lemma ContainsEmpty(s: string)
    ensures Contains(s, "")
  {
    assert OccursAt(s, "", 0);
  }

  lemma ContainsItself(s: string)
    ensures Contains(s, s)
  {
    assert OccursAt(s, s, 0);
  }

  // ---------------------------------------------------------------- trimming

  /** Java's `String.trim()` removes every char whose code is at most U+0020. */
  predicate IsJavaSpace(c: char) {
    c <= ' '
  }

  /** ECMAScript WhiteSpace and LineTerminator code points, as removed by `String.prototype.trim`. */
  predicate IsJsSpace(c: char) {
    || c == '\t' || c == '\n' || c == '\U{0B}' || c == '\U{0C}' || c == '\r' || c == ' '
    || c == '\U{A0}' || c == '\U{1680}' || ('\U{2000}' <= c <= '\U{200A}')
    || c == '\U{2028}' || c == '\U{2029}' || c == '\U{202F}' || c == '\U{205F}'
    || c == '\U{3000}' || c == '\U{FEFF}'
  }

  predicate AllSpace(s: string, space: char -> bool) {
    forall i | 0 <= i < |s| :: space(s[i])
  }

  /** Number of leading chars of `s` that `space` accepts. */
  function LeadingSpace(s: string, space: char -> bool): (n: nat)
    ensures n <= |s|
    ensures AllSpace(s[..n], space)
    ensures n < |s| ==> !space(s[n])
  {
    if s != [] && space(s[0]) then
      var n := 1 + LeadingSpace(s[1..], space);
      assert s[..n] == [s[0]] + s[1..][..n - 1];
      n
    else 0
  }

  /** Number of trailing chars of `s` that `space` accepts. */
  function TrailingSpace(s: string, space: char -> bool): (n: nat)
    ensures n <= |s|
    ensures AllSpace(s[|s| - n..], space)
    ensures n < |s| ==> !space(s[|s| - n - 1])
  {
    if s != [] && space(s[|s| - 1]) then
      var n := 1 + TrailingSpace(s[..|s| - 1], space);
      assert s[|s| - n..] == s[..|s| - 1][|s| - n..] + [s[|s| - 1]];
      n
    else 0
  }

  /** The generic trim: the factor of `s` left once leading and trailing spaces are removed. */
  function Trim(s: string, space: char -> bool): (r: string)
    ensures LeadingSpace(s, space) + |r| <= |s|
    ensures r == s[LeadingSpace(s, space)..LeadingSpace(s, space) + |r|]
    ensures AllSpace(s[LeadingSpace(s, space) + |r|..], space)
    ensures r != [] ==> !space(r[0]) && !space(r[|r| - 1])
    ensures r == [] <==> AllSpace(s, space)
  {
    var lo := LeadingSpace(s, space);
    var rest := s[lo..];
    var n := TrailingSpace(rest, space);
    assert rest[|rest| - n..] == s[lo + |rest| - n..];
    if rest == [] then
      assert s[..lo] == s;
      []
    else
      rest[..|rest| - n]
  }

  function JavaTrim(s: string): string {
    Trim(s, IsJavaSpace)
  }

  function JsTrim(s: string): string {
    Trim(s, IsJsSpace)
  }

  /** `s.trim().isEmpty()` in Java. */
  predicate IsBlank(s: string) {
    JavaTrim(s) == []
  }

  lemma BlankIffAllJavaSpace(s: string)
    ensures IsBlank(s) <==> forall i | 0 <= i < |s| :: s[i] <= ' '
  {
  }

  /** Trimming twice changes nothing more. */
  lemma {:induction false} TrimIdempotent(s: string, space: char -> bool)
    ensures Trim(Trim(s, space), space) == Trim(s, space)
  {
    var t := Trim(s, space);
    if t != [] {
      assert LeadingSpace(t, space) == 0;
      assert TrailingSpace(t, space) == 0;
      assert t[0..][..|t| - 0] == t;
    }
  }

  // ----------------------------------------------------------------- length

  /** The UTF-16 code units of one char: two for a char beyond U+FFFF, a surrogate pair. */
  function CodeUnits(c: char): nat {
    if c as int >= 0x1_0000 then 2 else 1
  }

  /** Java's `String.length()`: the count of UTF-16 code units. */
  function Utf16Length(s: string): (n: nat)
    ensures |s| <= n <= 2 * |s|
    ensures n == |s| <==> forall i | 0 <= i < |s| :: (s[i] as int) < 0x1_0000
  {
    if s == [] then 0 else CodeUnits(s[0]) + Utf16Length(s[1..])
  }

  /** The length of a concatenation is the sum of the lengths. */
  lemma {:induction false} Utf16LengthAppend(a: string, b: string)
    ensures Utf16Length(a + b) == Utf16Length(a) + Utf16Length(b)
  {
    if a != [] {
      assert (a + b)[1..] == a[1..] + b;
      Utf16LengthAppend(a[1..], b);
    } else {
      assert a + b == b;
    }
  }

  /** The UTF-16 code units of one char: itself below U+10000, else its high and then its low surrogate. */
  function CharUnits(c: char): (r: seq<int>)
    ensures |r| == CodeUnits(c)
    ensures |r| == 1 ==> r[0] == c as int && !(0xD800 <= r[0] < 0xE000)
    ensures |r| == 2 ==> && 0xD800 <= r[0] < 0xDC00 && 0xDC00 <= r[1] < 0xE000
                         && c as int == 0x1_0000 + (r[0] - 0xD800) * 1024 + (r[1] - 0xDC00)
  {
    var cp := c as int;
    if cp < 0x1_0000 then [cp]
    else [0xD800 + (cp - 0x1_0000) / 1024, 0xDC00 + (cp - 0x1_0000) % 1024]
  }

  /** The string as Java stores it: the sequence of its UTF-16 code units. */
  function Utf16Units(s: string): (r: seq<int>)
    ensures |r| == Utf16Length(s)
  {
    if s == [] then [] else CharUnits(s[0]) + Utf16Units(s[1..])
  }

  /** Different strings have different code-unit sequences: UTF-16 can be decoded unambiguously. */
  lemma {:induction false} Utf16Injective(a: string, b: string)
    requires Utf16Units(a) == Utf16Units(b)
    ensures a == b
  {
    if a != [] && b != [] {
      var ua, ub := CharUnits(a[0]), CharUnits(b[0]);
      var u := Utf16Units(a);
      assert u == ua + Utf16Units(a[1..]) && u == ub + Utf16Units(b[1..]);
      assert u[0] == ua[0] == ub[0];
      assert |ua| == |ub|;
      if |ua| == 2 {
        assert u[1] == ua[1] == ub[1];
      }
      assert a[0] as int == b[0] as int;
      assert Utf16Units(a[1..]) == u[|ua|..] == Utf16Units(b[1..]);
      Utf16Injective(a[1..], b[1..]);
      assert a == [a[0]] + a[1..] && b == [b[0]] + b[1..];
    }
  }

  // ----------------------------------------------------------- case folding

  /** `toLowerCase()` restricted to ASCII letters. */
  function AsciiLower(s: string): (r: string)
    ensures |r| == |s|
    ensures forall i | 0 <= i < |s| :: r[i] == LowerChar(s[i])
  {
    if s == [] then [] else [LowerChar(s[0])] + AsciiLower(s[1..])
  }

  function LowerChar(c: char): char {
    if 'A' <= c <= 'Z' then (c as int + 32) as char else c
  }

  // ---------------------------------------------------------------- numbers

  const LongMin: int := -0x8000_0000_0000_0000
  const LongMax: int := 0x7FFF_FFFF_FFFF_FFFF
  const IntMin: int := -0x8000_0000
  const IntMax: int := 0x7FFF_FFFF

  /** Java `int` arithmetic: the value reduced into the 32-bit two's-complement range. */
  function Wrap32(x: int): (r: int)
    ensures IntMin <= r <= IntMax
    ensures (r - x) % 0x1_0000_0000 == 0
    ensures IntMin <= x <= IntMax ==> r == x
  {
    (x - IntMin) % 0x1_0000_0000 + IntMin
  }

  predicate IsDigit(c: char) {
    '0' <= c <= '9'
  }

  predicate AllDigits(s: string) {
    forall i | 0 <= i < |s| :: IsDigit(s[i])
  }

  function DigitChar(d: nat): (c: char)
    requires d < 10
    ensures IsDigit(c)
  {
    ('0' as int + d) as char
  }

  /** Value of a string of decimal digits, most significant first. */
  function DigitsValue(ds: string): nat
    requires AllDigits(ds)
  {
    if ds == [] then 0
    else DigitsValue(ds[..|ds| - 1]) * 10 + (ds[|ds| - 1] as int - '0' as int)
  }

  /** The canonical decimal rendering of a natural number (no leading zeros). */
  function NatToDecimal(n: nat): (r: string)
    ensures r != [] && AllDigits(r)
  {
    if n < 10 then [DigitChar(n)] else NatToDecimal(n / 10) + [DigitChar(n % 10)]
  }

  lemma {:induction false} DecimalRoundTrip(n: nat)
    ensures DigitsValue(NatToDecimal(n)) == n
  {
    if n >= 10 {
      DecimalRoundTrip(n / 10);
      var r := NatToDecimal(n);
      assert r[..|r| - 1] == NatToDecimal(n / 10);
    }
  }

  /** `Long.toString(n)`. */
  function LongToString(n: int): string {
    if n < 0 then "-" + NatToDecimal(-n) else NatToDecimal(n)
  }

  /**
   * `Long.parseLong(s)`: an optional sign then at least one decimal digit, and a
   * value inside the 64-bit range; `None` stands for NumberFormatException.
   */
  function ParseLong(s: string): (r: Option<int>)
    ensures r.Some? ==> LongMin <= r.value <= LongMax
    ensures r.Some? ==> s != [] && (IsDigit(s[0]) || s[0] == '-' || s[0] == '+')
    ensures r.Some? ==> AllDigits(s[1..])
  {
    if s == [] then None
    else
      var body := if s[0] == '-' || s[0] == '+' then s[1..] else s;
      if body == [] || !AllDigits(body) then None
      else
        var magnitude: int := DigitsValue(body);
        var v := if s[0] == '-' then -magnitude else magnitude;
        if LongMin <= v <= LongMax then Some(v) else None
  }

  /** Every `long` survives `Long.toString` followed by `Long.parseLong`. */
  lemma LongRoundTrip(n: int)
    requires LongMin <= n <= LongMax
    ensures ParseLong(LongToString(n)) == Some(n)
  {
    if n < 0 {
      var d := NatToDecimal(-n);
      DecimalRoundTrip(-n);
      var s := "-" + d;
      assert s[0] == '-' && s[1..] == d;
    } else {
      var d := NatToDecimal(n);
      DecimalRoundTrip(n);
      assert IsDigit(d[0]);
    }
  }

  /** `String.format("%0<width>d", n)` for a natural number. */
  function ZeroPad(n: nat, width: nat): (r: string)
    ensures AllDigits(r) && |r| >= width
    ensures DigitsValue(r) == n
    ensures 0 < width && n < Pow10(width) ==> |r| == width
  {
    var d := NatToDecimal(n);
    DecimalRoundTrip(n);
    if |d| >= width then
      (if 0 < width && n < Pow10(width) then DecimalLength(n, width); d else d)
    else PadZeros(width - |d|, d)
  }

  function Pow10(k: nat): (r: nat)
    ensures r >= 1
  {
    if k == 0 then 1 else 10 * Pow10(k - 1)
  }

  /** A number below 10^k has at most k decimal digits. */
  lemma {:induction false} DecimalLength(n: nat, k: nat)
    requires 0 < k && n < Pow10(k)
    ensures |NatToDecimal(n)| <= k
  {
    if n >= 10 {
      assert Pow10(1) == 10;
      assert n / 10 < Pow10(k - 1);
      DecimalLength(n / 10, k - 1);
    }
  }

  function PadZeros(k: nat, d: string): (r: string)
    requires AllDigits(d)
    ensures r == seq(k, _ => '0') + d
    ensures AllDigits(r) && DigitsValue(r) == DigitsValue(d) && |r| == k + |d|
  {
    if k == 0 then d
    else
      var r := PadZeros(k - 1, d);
      ZeroPrefixValue(r);
      assert ['0'] + r == seq(k, _ => '0') + d;
      ['0'] + r
  }

  lemma {:induction false} ZeroPrefixValue(d: string)
    requires AllDigits(d)
    ensures AllDigits(['0'] + d) && DigitsValue(['0'] + d) == DigitsValue(d)
  {
    if d != [] {
      var z := ['0'] + d;
      assert z[..|z| - 1] == ['0'] + d[..|d| - 1];
      ZeroPrefixValue(d[..|d| - 1]);
    }
  }

  /** Java `String` concatenation renders a null reference as "null". */
  function JavaString(s: Option<string>): string {
    if s.Some? then s.value else "null"
  }

  // -------------------------------------------------------------- replacing

  /** Java `s.replace(target, "")`: every non-overlapping occurrence, scanning left to right, removed. */
  function RemoveAll(s: string, target: string): (r: string)
    requires target != []
    ensures |r| <= |s|
  {
    if |s| < |target| then s
    else if s[..|target|] == target then RemoveAll(s[|target|..], target)
    else [s[0]] + RemoveAll(s[1..], target)
  }

  /** Removing a target that never occurs is the identity. */
  lemma {:induction false} RemoveAbsent(s: string, target: string)
    requires target != [] && !Contains(s, target)
    ensures RemoveAll(s, target) == s
  {
    if |s| >= |target| {
      assert !OccursAt(s, target, 0);
      assert !Contains(s[1..], target) by {
        forall i | OccursAt(s[1..], target, i) ensures false {
          assert s[1..][i..i + |target|] == s[i + 1..i + 1 + |target|];
          assert OccursAt(s, target, i + 1);
        }
      }
      RemoveAbsent(s[1..], target);
    }
  }
}
