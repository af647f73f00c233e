/** The pieces of Rust's formatting and string handling that the decoder's
    output depends on: `{:x}`, `{:#x}` and `{}` of integers, `join`,
    `str::trim` and `from_str_radix(_, 16)`. */
module Text {
  import opened Fallible
  import opened Numbers

  const HEX_DIGITS: string := "0123456789abcdef"
  const DEC_DIGITS: string := "0123456789"

  predicate IsLowerHexDigit(c: char) {
    '0' <= c <= '9' || 'a' <= c <= 'f'
  }

  /** A digit that `to_digit(16)` accepts. */
  predicate IsHexDigit(c: char) {
    '0' <= c <= '9' || 'a' <= c <= 'f' || 'A' <= c <= 'F'
  }

  function HexDigitValue(c: char): (v: nat)
    requires IsHexDigit(c)
    ensures v < 16
    ensures v < 10 <==> '0' <= c <= '9'
  {
    if '0' <= c <= '9' then c as int - '0' as int
    else if 'a' <= c <= 'f' then c as int - 'a' as int + 10
    else c as int - 'A' as int + 10
  }

  /** `{:x}`: lowercase digits, most significant first, no leading zero. */
  function LowerHex(n: nat): (s: string)
    ensures |s| > 0
    ensures forall i :: 0 <= i < |s| ==> IsLowerHexDigit(s[i])
    decreases n
  {
    if n < 16 then [HEX_DIGITS[n]] else LowerHex(n / 16) + [HEX_DIGITS[n % 16]]
  }

  /** `{:#x}` of an unsigned integer. */
  function AltHex(n: nat): (s: string)
    ensures |s| > 2 && s[..2] == "0x"
  {
    "0x" + LowerHex(n)
  }

  /** `{:#x}` of an `i64`: Rust prints the two's complement bit pattern. */
  function AltHexI64(x: i64): string {
    AltHex(AsU64(x))
  }

  predicate AllHexDigits(s: string) {
    forall i :: 0 <= i < |s| ==> IsHexDigit(s[i])
  }

  /** The number a string of hexadecimal digits denotes. */
  function HexValue(s: string): nat
    requires AllHexDigits(s)
  {
    if s == [] then 0 else 16 * HexValue(s[..|s| - 1]) + HexDigitValue(s[|s| - 1])
  }

  lemma HexDigitRoundTrip(n: nat)
    requires n < 16
    ensures IsLowerHexDigit(HEX_DIGITS[n]) && HexDigitValue(HEX_DIGITS[n]) == n
  {
  }

  lemma {:induction false} HexValueOfLowerHex(n: nat)
    ensures AllHexDigits(LowerHex(n))
    ensures HexValue(LowerHex(n)) == n
    decreases n
  {
    var s := LowerHex(n);
    if n >= 16 {
      HexValueOfLowerHex(n / 16);
      assert s[..|s| - 1] == LowerHex(n / 16);
      assert HexDigitValue(s[|s| - 1]) == n % 16;
    } else {
      assert HexDigitValue(s[0]) == n;
      assert s[..0] == [];
    }
  }

  /** `{}` of an unsigned integer. */
  function Decimal(n: nat): (s: string)
    ensures |s| > 0
    ensures forall i :: 0 <= i < |s| ==> '0' <= s[i] <= '9'
    decreases n
  {
    if n < 10 then [DEC_DIGITS[n]] else Decimal(n / 10) + [DEC_DIGITS[n % 10]]
  }

  /** `{}` of a signed integer. */
  function SignedDecimal(x: int): (s: string)
    ensures |s| > 0 && (x < 0 <==> s[0] == '-')
  {
    if x < 0 then "-" + Decimal(-x) else Decimal(x)
  }

  /** `{:#o}` of an unsigned integer. */
  function AltOct(n: nat): (s: string)
    ensures |s| > 2 && s[..2] == "0o"
  {
    "0o" + Octal(n)
  }

  function Octal(n: nat): (s: string)
    ensures |s| > 0
    decreases n
  {
    if n < 8 then [DEC_DIGITS[n]] else Octal(n / 8) + [DEC_DIGITS[n % 8]]
  }

  lemma DecDigit(n: nat)
    requires n < 10
    ensures DEC_DIGITS[n] as int == '0' as int + n
  {
  }

  /** Different numbers print differently. */
  lemma {:induction false} DecimalInjective(a: nat, b: nat)
    requires Decimal(a) == Decimal(b)
    ensures a == b
    decreases a
  {
    var s := Decimal(a);
    DecDigit(a % 10);
    DecDigit(b % 10);
    if a >= 10 && b >= 10 {
      assert Decimal(a / 10) == s[..|s| - 1] == Decimal(b / 10);
      DecimalInjective(a / 10, b / 10);
      assert DEC_DIGITS[a % 10] == s[|s| - 1] == DEC_DIGITS[b % 10];
    }
  }

  /** `[String]::join(sep)`. */
  function Join(parts: seq<string>, sep: string): (s: string)
    ensures |parts| == 0 ==> s == ""
    ensures |parts| == 1 ==> s == parts[0]
  {
    if |parts| == 0 then ""
    else if |parts| == 1 then parts[0]
    else parts[0] + sep + Join(parts[1..], sep)
  }

  /** Splitting at every `c`: the reading-back of `Join` with a one-character separator. */
  function Split(s: string, c: char): (parts: seq<string>)
    ensures |parts| > 0
  {
    if |s| == 0 then [""]
    else
      var rest := Split(s[1..], c);
      if s[0] == c then [""] + rest else [[s[0]] + rest[0]] + rest[1..]
  }

  lemma {:induction false} SplitPrefix(p: string, t: string, c: char)
    requires c !in p
    ensures Split(p + t, c) == [p + Split(t, c)[0]] + Split(t, c)[1..]
  {
    if |p| > 0 {
      assert (p + t)[1..] == p[1..] + t;
      SplitPrefix(p[1..], t, c);
      assert [p[0]] + (p[1..] + Split(t, c)[0]) == p + Split(t, c)[0];
    } else {
      var st := Split(t, c);
      assert p + t == t && p + st[0] == st[0];
      assert st == [st[0]] + st[1..];
    }
  }

  /** Parts free of the separator are recovered from their join. */
  lemma {:induction false} SplitJoin(parts: seq<string>, c: char)
    requires |parts| > 0
    requires forall i :: 0 <= i < |parts| ==> c !in parts[i]
    ensures Split(Join(parts, [c]), c) == parts
  {
    if |parts| == 1 {
      SplitPrefix(parts[0], "", c);
      assert parts[0] + "" == parts[0];
    } else {
      var tail := Join(parts[1..], [c]);
      SplitJoin(parts[1..], c);
      SplitPrefix(parts[0], [c] + tail, c);
      assert parts[0] + [c] + tail == parts[0] + ([c] + tail);
      assert ([c] + tail)[1..] == tail;
      assert Split([c] + tail, c) == [""] + Split(tail, c);
      assert Join(parts, [c]) == parts[0] + ([c] + tail);
      assert parts[0] + "" == parts[0];
      assert parts == [parts[0]] + parts[1..];
    }
  }

  /** The index of the first `c` in `s`, or `|s|` when there is none. */
  function FirstIndex(s: string, c: char): (i: nat)
    ensures i <= |s|
  {
    if |s| == 0 || s[0] == c then 0 else 1 + FirstIndex(s[1..], c)
  }

  lemma {:induction false} FirstIndexAfter(x: string, r: string, c: char)
    requires c !in x && |r| > 0 && r[0] == c
    ensures FirstIndex(x + r, c) == |x|
  {
    if |x| > 0 {
      assert (x + r)[1..] == x[1..] + r;
      FirstIndexAfter(x[1..], r, c);
    } else {
      assert x + r == r;
    }
  }

  /** A field free of `c` that is followed by `c` is recovered from the
      concatenation. */
  lemma SplitAtFirst(x1: string, r1: string, x2: string, r2: string, c: char)
    requires c !in x1 && c !in x2 && |r1| > 0 && r1[0] == c && |r2| > 0 && r2[0] == c
    requires x1 + r1 == x2 + r2
    ensures x1 == x2 && r1 == r2
  {
    FirstIndexAfter(x1, r1, c);
    FirstIndexAfter(x2, r2, c);
    assert x1 == (x1 + r1)[..|x1|] && x2 == (x2 + r2)[..|x2|];
    assert r1 == (x1 + r1)[|x1|..] && r2 == (x2 + r2)[|x2|..];
  }

  lemma StripPrefix(p: string, x: string, y: string)
    requires p + x == p + y
    ensures x == y
  {
    assert x == (p + x)[|p|..];
    assert y == (p + y)[|p|..];
  }

  /** A `{:#x}` field followed by a character that is no hex digit is
      recovered from the concatenation. */
  lemma AltHexFieldInjective(m: nat, r1: string, n: nat, r2: string, c: char)
    requires !IsLowerHexDigit(c) && |r1| > 0 && r1[0] == c && |r2| > 0 && r2[0] == c
    requires AltHex(m) + r1 == AltHex(n) + r2
    ensures m == n && r1 == r2
  {
    assert AltHex(m) + r1 == "0x" + (LowerHex(m) + r1);
    assert AltHex(n) + r2 == "0x" + (LowerHex(n) + r2);
    StripPrefix("0x", LowerHex(m) + r1, LowerHex(n) + r2);
    assert c !in LowerHex(m) && c !in LowerHex(n);
    SplitAtFirst(LowerHex(m), r1, LowerHex(n), r2, c);
    HexValueOfLowerHex(m);
    HexValueOfLowerHex(n);
  }

  /** `char::is_whitespace`: the Unicode White_Space property. */
  predicate IsWhitespace(c: char) {
    ('\U{9}' <= c <= '\U{D}') || c == ' ' || c == '\U{85}' || c == '\U{A0}'
    || c == '\U{1680}' || ('\U{2000}' <= c <= '\U{200A}') || c == '\U{2028}'
    || c == '\U{2029}' || c == '\U{202F}' || c == '\U{205F}' || c == '\U{3000}'
  }

  function TrimStart(s: string): (r: string)
    ensures |r| <= |s| && r == s[|s| - |r|..]
    ensures |r| > 0 ==> !IsWhitespace(r[0])
  {
    if |s| > 0 && IsWhitespace(s[0]) then TrimStart(s[1..]) else s
  }

  function TrimEnd(s: string): (r: string)
    ensures |r| <= |s| && r == s[..|r|]
    ensures |r| > 0 ==> !IsWhitespace(r[|r| - 1])
  {
    if |s| > 0 && IsWhitespace(s[|s| - 1]) then TrimEnd(s[..|s| - 1]) else s
  }

  /** `str::trim`. */
  function Trim(s: string): string {
    TrimEnd(TrimStart(s))
  }

  lemma TrimNoEdgeSpace(s: string)
    requires |s| > 0 && !IsWhitespace(s[0]) && !IsWhitespace(s[|s| - 1])
    ensures Trim(s) == s
  {
  }

  /** The digits after an optional leading '+'. */
  function Digits(s: string): (d: string)
    ensures |d| <= |s|
  {
    if |s| > 0 && s[0] == '+' then s[1..] else s
  }

  /** The messages of `ParseIntError`, which the callers' `unwrap` panics with. */
  const PIE_EMPTY: string := "cannot parse integer from empty string"
  const PIE_INVALID: string := "invalid digit found in string"
  const PIE_OVERFLOW: string := "number too large to fit in target type"

  /** `usize::from_str_radix(s, 16)` on a 64-bit host: an optional `+`, then
      one or more digits of either case; a value above `usize::MAX` overflows.
      The kind of error is not kept: every caller unwraps it. */
  function FromStrRadix16(s: string): (r: Result<u64>)
    ensures r.Ok? <==> |Digits(s)| > 0 && AllHexDigits(Digits(s)) && HexValue(Digits(s)) <= U64_MAX
  {
    var digits := Digits(s);
    if |s| == 0 then Err(Panic(PIE_EMPTY))
    else if |digits| == 0 || !AllHexDigits(digits) then Err(Panic(PIE_INVALID))
    else if HexValue(digits) > U64_MAX then Err(Panic(PIE_OVERFLOW))
    else Ok(HexValue(digits))
  }
}
