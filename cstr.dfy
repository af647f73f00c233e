/** NUL-terminated byte strings as the decoder reads them out of payloads:
    `CStr::from_bytes_until_nul`, `CStr::to_str` (UTF-8 validation) and the
    `{:?}` rendering of a `CStr` (ASCII escaping between double quotes). */
module CStr {
  import opened Fallible
  import opened Numbers
  import Text

  /** `CStr::from_bytes_until_nul`: the bytes before the first NUL, or
      nothing when the data holds no NUL at all. */
  function UntilNul(data: seq<byte>): (r: Option<seq<byte>>)
    ensures r.None? <==> 0 !in data
    ensures r.Some? ==> |r.value| < |data| && data[..|r.value|] == r.value
                        && data[|r.value|] == 0 && 0 !in r.value
  {
    if |data| == 0 then None
    else if data[0] == 0 then Some([])
    else
      match UntilNul(data[1..])
      case None => None
      case Some(s) => Some([data[0]] + s)
  }

  lemma UntilNulOfTerminated(s: seq<byte>, tail: seq<byte>)
    requires 0 !in s
    ensures UntilNul(s + [0] + tail) == Some(s)
  {
    var d := s + [0] + tail;
    assert d[|s|] == 0;
    assert d[..|s|] == s;
  }

  // ---------------------------------------------------------------- UTF-8

  predicate Continuation(b: byte) {
    0x80 <= b <= 0xBF
  }

  /** The first character of a UTF-8 byte sequence and its length in bytes,
      following the well-formedness table of `str::from_utf8`: no overlong
      forms, no surrogates, nothing above U+10FFFF. */
  function DecodeFirst(bs: seq<byte>): (r: Option<(char, nat)>)
    requires |bs| > 0
    ensures r.Some? ==> 1 <= r.value.1 <= |bs| && r.value.1 <= 4
  {
    var b0: int := bs[0];
    var b1: int := if |bs| > 1 then bs[1] else 0;
    var b2: int := if |bs| > 2 then bs[2] else 0;
    var b3: int := if |bs| > 3 then bs[3] else 0;
    if b0 < 0x80 then Some((b0 as char, 1))
    else if 0xC2 <= b0 <= 0xDF then
      if |bs| >= 2 && Continuation(bs[1])
      then Some((((b0 - 0xC0) * 64 + (b1 - 0x80)) as char, 2))
      else None
    else if 0xE0 <= b0 <= 0xEF then
      var lo := if b0 == 0xE0 then 0xA0 else 0x80;
      var hi := if b0 == 0xED then 0x9F else 0xBF;
      if |bs| >= 3 && lo <= b1 <= hi && Continuation(bs[2])
      then
        var cp := (b0 - 0xE0) * 4096 + (b1 - 0x80) * 64 + (b2 - 0x80);
        assert 0x800 <= cp < 0xD800 || 0xE000 <= cp < 0x10000;
        Some((cp as char, 3))
      else None
    else if 0xF0 <= b0 <= 0xF4 then
      var lo := if b0 == 0xF0 then 0x90 else 0x80;
      var hi := if b0 == 0xF4 then 0x8F else 0xBF;
      if |bs| >= 4 && lo <= b1 <= hi && Continuation(bs[2]) && Continuation(bs[3])
      then
        var cp := (b0 - 0xF0) * 262144 + (b1 - 0x80) * 4096 + (b2 - 0x80) * 64 + (b3 - 0x80);
        assert 0x10000 <= cp < 0x110000;
        Some((cp as char, 4))
      else None
    else None
  }

  /** `str::from_utf8`, as `CStr::to_str` applies it. */
  function Utf8Decode(bs: seq<byte>): Option<string>
    decreases |bs|
  {
    if |bs| == 0 then Some("")
    else
      match DecodeFirst(bs)
      case None => None
      case Some((c, n)) =>
        match Utf8Decode(bs[n..])
        case None => None
        case Some(s) => Some([c] + s)
  }

  /** The UTF-8 encoding of one character (the inverse the decoder is checked against). */
  function EncodeChar(c: char): (bs: seq<byte>)
    ensures 1 <= |bs| <= 4
    ensures (0 in bs) <==> c == 0 as char
  {
    var cp := c as int;
    if cp < 0x80 then [cp]
    else if cp < 0x800 then [0xC0 + cp / 64, 0x80 + cp % 64]
    else if cp < 0x10000 then [0xE0 + cp / 4096, 0x80 + (cp / 64) % 64, 0x80 + cp % 64]
    else [0xF0 + cp / 262144, 0x80 + (cp / 4096) % 64, 0x80 + (cp / 64) % 64, 0x80 + cp % 64]
  }

  function Utf8Encode(s: string): (bs: seq<byte>)
    ensures (0 in bs) <==> (0 as char in s)
  {
    if |s| == 0 then [] else EncodeChar(s[0]) + Utf8Encode(s[1..])
  }

  lemma Split64(x: int)
    requires x >= 0
    ensures x == 64 * (x / 64) + x % 64 && 0 <= x % 64 < 64
    ensures x / 4096 == (x / 64) / 64 && x / 262144 == (x / 4096) / 64
  {
  }

  lemma DecodeFirstOfEncodeChar(c: char, rest: seq<byte>)
    ensures DecodeFirst(EncodeChar(c) + rest) == Some((c, |EncodeChar(c)|))
  {
    var cp := c as int;
    if 0x80 <= cp < 0x800 {
      DecodeTwoBytes(c, rest);
    } else if 0x800 <= cp < 0x10000 {
      DecodeThreeBytes(c, rest);
    } else if 0x10000 <= cp {
      DecodeFourBytes(c, rest);
    }
  }

  lemma DecodeTwoBytes(c: char, rest: seq<byte>)
    requires 0x80 <= c as int < 0x800
    ensures DecodeFirst(EncodeChar(c) + rest) == Some((c, 2))
  {
    var cp := c as int;
    var bs := EncodeChar(c) + rest;
    Split64(cp);
    assert bs[0] as int == 0xC0 + cp / 64 && bs[1] as int == 0x80 + cp % 64;
  }

  lemma DecodeThreeBytes(c: char, rest: seq<byte>)
    requires 0x800 <= c as int < 0x10000
    ensures DecodeFirst(EncodeChar(c) + rest) == Some((c, 3))
  {
    var cp := c as int;
    var bs := EncodeChar(c) + rest;
    Split64(cp);
    Split64(cp / 64);
    assert bs[0] as int == 0xE0 + cp / 4096;
    assert bs[1] as int == 0x80 + (cp / 64) % 64 && bs[2] as int == 0x80 + cp % 64;
    assert cp == 4096 * (cp / 4096) + 64 * ((cp / 64) % 64) + cp % 64;
  }

  lemma DecodeFourBytes(c: char, rest: seq<byte>)
    requires 0x10000 <= c as int
    ensures DecodeFirst(EncodeChar(c) + rest) == Some((c, 4))
  {
    var cp := c as int;
    var bs := EncodeChar(c) + rest;
    Split64(cp);
    Split64(cp / 64);
    Split64(cp / 4096);
    assert bs[0] as int == 0xF0 + cp / 262144;
    assert bs[1] as int == 0x80 + (cp / 4096) % 64;
    assert bs[2] as int == 0x80 + (cp / 64) % 64 && bs[3] as int == 0x80 + cp % 64;
    assert cp == 262144 * (cp / 262144) + 4096 * ((cp / 4096) % 64) + 64 * ((cp / 64) % 64) + cp % 64;
  }

  /** Decoding inverts encoding: a Rust string's bytes always pass `to_str`. */
  lemma {:induction false} Utf8RoundTrip(s: string)
    ensures Utf8Decode(Utf8Encode(s)) == Some(s)
  {
    if |s| > 0 {
      var e := EncodeChar(s[0]);
      var tail := Utf8Encode(s[1..]);
      DecodeFirstOfEncodeChar(s[0], tail);
      assert (e + tail)[|e|..] == tail;
      Utf8RoundTrip(s[1..]);
      assert [s[0]] + s[1..] == s;
    }
  }

  // ------------------------------------------------------------ escaping

  /** `u8::escape_ascii`: the byte as the `{:?}` rendering shows it. */
  function EscapeByte(b: byte): (s: string)
    ensures |s| > 0
  {
    if b == 0x09 then "\\t"
    else if b == 0x0D then "\\r"
    else if b == 0x0A then "\\n"
    else if b == 0x5C then "\\\\"
    else if b == 0x27 then "\\'"
    else if b == 0x22 then "\\\""
    else if 0x20 <= b <= 0x7E then [b as char]
    else "\\x" + [Text.HEX_DIGITS[b / 16], Text.HEX_DIGITS[b % 16]]
  }

  /** `<[u8]>::escape_ascii`. */
  function EscapeAscii(bs: seq<byte>): string {
    if |bs| == 0 then "" else EscapeByte(bs[0]) + EscapeAscii(bs[1..])
  }

  /** `{:?}` of a `CStr` holding `bs`. */
  function CStrDebug(bs: seq<byte>): (s: string)
    ensures |s| >= 2 && s[0] == '"' && s[|s| - 1] == '"'
  {
    "\"" + EscapeAscii(bs) + "\""
  }

  /** Reads an escaped rendering back into bytes: the reference against
      which the escaping is shown to lose nothing. */
  function Unescape(s: string): Option<seq<byte>>
    decreases |s|
  {
    if |s| == 0 then Some([])
    else if s[0] == '\\' then
      if |s| >= 2 && s[1] in "trn\\'\"" then
        var b := if s[1] == 't' then 0x09 else if s[1] == 'r' then 0x0D
                 else if s[1] == 'n' then 0x0A else if s[1] == '\\' then 0x5C
                 else if s[1] == '\'' then 0x27 else 0x22;
        match Unescape(s[2..])
        case None => None
        case Some(t) => Some([b] + t)
      else if |s| >= 4 && s[1] == 'x' && Text.IsLowerHexDigit(s[2]) && Text.IsLowerHexDigit(s[3]) then
        var b := Text.HexDigitValue(s[2]) * 16 + Text.HexDigitValue(s[3]);
        match Unescape(s[4..])
        case None => None
        case Some(t) => Some([b] + t)
      else None
    else if ' ' <= s[0] <= '~' then
      match Unescape(s[1..])
      case None => None
      case Some(t) => Some([s[0] as int] + t)
    else None
  }

  lemma UnescapeEscapeByte(b: byte, rest: string)
    ensures Unescape(EscapeByte(b) + rest) ==
            match Unescape(rest) case None => None case Some(t) => Some([b] + t)
  {
    if b == 0x09 || b == 0x0D || b == 0x0A || b == 0x5C || b == 0x27 || b == 0x22 {
      UnescapeNamed(b, rest);
    } else if 0x20 <= b <= 0x7E {
      assert (EscapeByte(b) + rest)[1..] == rest;
    } else {
      UnescapeHex(b, rest);
    }
  }

  lemma UnescapeNamed(b: byte, rest: string)
    requires b == 0x09 || b == 0x0D || b == 0x0A || b == 0x5C || b == 0x27 || b == 0x22
    ensures Unescape(EscapeByte(b) + rest) ==
            match Unescape(rest) case None => None case Some(t) => Some([b] + t)
  {
    assert (EscapeByte(b) + rest)[2..] == rest;
  }

  lemma UnescapeHex(b: byte, rest: string)
    requires !(b == 0x09 || b == 0x0D || b == 0x0A || b == 0x5C || b == 0x27 || b == 0x22)
    requires !(0x20 <= b <= 0x7E)
    ensures Unescape(EscapeByte(b) + rest) ==
            match Unescape(rest) case None => None case Some(t) => Some([b] + t)
  {
    var s := EscapeByte(b) + rest;
    assert s[4..] == rest;
    Text.HexDigitRoundTrip(b / 16);
    Text.HexDigitRoundTrip(b % 16);
  }

  /** The rendering is lossless: every byte, printable or not, can be read back. */
  lemma {:induction false} UnescapeEscapeAscii(bs: seq<byte>)
    ensures Unescape(EscapeAscii(bs)) == Some(bs)
  {
    if |bs| > 0 {
      UnescapeEscapeByte(bs[0], EscapeAscii(bs[1..]));
      UnescapeEscapeAscii(bs[1..]);
      assert [bs[0]] + bs[1..] == bs;
    }
  }
}
