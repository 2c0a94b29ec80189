/** Strict UTF-8 (RFC 3629), as Python's "utf-8" codec applies it to text without lone surrogates. */
module Utf8 {
  import opened Bytes
  import opened Results

  datatype Lead = Lead(c: char, width: nat)

  function EncodeChar(c: char): (b: bytes)
    ensures 1 <= |b| <= 4
  {
    var n := c as int;
    if n < 0x80 then [n]
    else if n < 0x800 then [0xC0 + n / 64, 0x80 + n % 64]
    else if n < 0x1_0000 then [0xE0 + n / 4096, 0x80 + n / 64 % 64, 0x80 + n % 64]
    else [0xF0 + n / 262144, 0x80 + n / 4096 % 64, 0x80 + n / 64 % 64, 0x80 + n % 64]
  }

  function Encode(s: string): bytes {
    if s == "" then [] else EncodeChar(s[0]) + Encode(s[1..])
  }

  function Bits(x: byte, mark: int): int {
    x as int - mark
  }

  /** The bits of a character, as RFC 3629 section 3 spreads them over one to four bytes. */
  lemma CharLayout(c: char)
    ensures var n, b := c as int, EncodeChar(c);
            if n < 0x80 then b == [n]
            else if n < 0x800 then
              |b| == 2 && 0xC2 <= b[0] < 0xE0 && Trailing(b, 1) && n == Bits(b[0], 0xC0) * 64 + Bits(b[1], 0x80)
            else if n < 0x1_0000 then
              && |b| == 3 && 0xE0 <= b[0] < 0xF0 && Trailing(b, 1) && Trailing(b, 2)
              && n == Bits(b[0], 0xE0) * 4096 + Bits(b[1], 0x80) * 64 + Bits(b[2], 0x80)
            else
              && |b| == 4 && 0xF0 <= b[0] < 0xF5 && Trailing(b, 1) && Trailing(b, 2) && Trailing(b, 3)
              && n == Bits(b[0], 0xF0) * 262144 + Bits(b[1], 0x80) * 4096 + Bits(b[2], 0x80) * 64 + Bits(b[3], 0x80)
  {
    Sextets(c as int);
  }

  lemma {:induction false} EncodedLength(s: string)
    ensures |Encode(s)| <= 4 * |s|
  {
    if s != "" {
      EncodedLength(s[1..]);
    }
  }

  predicate Trailing(b: bytes, i: nat) {
    i < |b| && 0x80 <= b[i] < 0xC0
  }

  predicate IsScalar(n: int) {
    0 <= n < 0xD800 || 0xE000 <= n < 0x11_0000
  }

  /** The number carried by the trailing bytes from `i` on, below a lead carrying `n`. */
  function Join(n: int, b: bytes, i: nat, width: nat): int
    requires i <= width <= |b|
    decreases width - i
  {
    if i == width then n else Join(n * 64 + (b[i] as int - 0x80), b, i + 1, width)
  }

  /** The first character of `b`; none when the front is truncated, overlong, a surrogate or out of range. */
  function DecodeChar(b: bytes): (r: Option<Lead>)
    ensures r.Some? ==> 1 <= r.value.width <= |b|
  {
    if b == [] then None
    else if b[0] < 0x80 then Some(Lead(b[0] as char, 1))
    else if b[0] < 0xC0 then None
    else if b[0] < 0xE0 then
      if !Trailing(b, 1) then None else
        var n := Join(b[0] as int - 0xC0, b, 1, 2);
        if n < 0x80 then None else Some(Lead(n as char, 2))
    else if b[0] < 0xF0 then
      if !(Trailing(b, 1) && Trailing(b, 2)) then None else
        var n := Join(b[0] as int - 0xE0, b, 1, 3);
        if n < 0x800 || !IsScalar(n) then None else Some(Lead(n as char, 3))
    else if b[0] < 0xF8 then
      if !(Trailing(b, 1) && Trailing(b, 2) && Trailing(b, 3)) then None else
        var n := Join(b[0] as int - 0xF0, b, 1, 4);
        if n < 0x1_0000 || !IsScalar(n) then None else Some(Lead(n as char, 4))
    else None
  }

  function Decode(b: bytes): Option<string> {
    if b == [] then Some("")
    else
      match DecodeChar(b)
      case None => None
      case Some(lead) =>
        match Decode(b[lead.width..])
        case None => None
        case Some(rest) => Some([lead.c] + rest)
  }

  lemma Sextets(n: nat)
    ensures n / 4096 == n / 64 / 64 && n / 262144 == n / 64 / 64 / 64
    ensures n / 4096 * 64 + n / 64 % 64 == n / 64
    ensures n / 262144 * 64 + n / 4096 % 64 == n / 4096
  {
    assert n / 64 / 64 == n / 4096;
    assert n / 4096 / 64 == n / 262144;
  }

  lemma DecodeEncodedChar(c: char, rest: bytes)
    ensures DecodeChar(EncodeChar(c) + rest) == Some(Lead(c, |EncodeChar(c)|))
  {
    var n, b := c as int, EncodeChar(c) + rest;
    Sextets(n);
    if 0x80 <= n < 0x800 {
      assert Join(n / 64, b, 1, 2) == Join(n, b, 2, 2);
    } else if 0x800 <= n < 0x1_0000 {
      assert Join(n / 4096, b, 1, 3) == Join(n / 64, b, 2, 3) == Join(n, b, 3, 3);
    } else if 0x1_0000 <= n {
      assert Join(n / 262144, b, 1, 4) == Join(n / 4096, b, 2, 4) == Join(n / 64, b, 3, 4) == Join(n, b, 4, 4);
    }
  }

  lemma EncodeDecodedChar(b: bytes)
    requires DecodeChar(b).Some?
    ensures EncodeChar(DecodeChar(b).value.c) == b[..DecodeChar(b).value.width]
  {
    if b[0] >= 0x80 {
      var width := DecodeChar(b).value.width;
      var lead := b[0] as int - (if width == 2 then 0xC0 else if width == 3 then 0xE0 else 0xF0);
      var n1 := lead * 64 + (b[1] as int - 0x80);
      assert n1 / 64 == lead && n1 % 64 == b[1] as int - 0x80;
      if width == 2 {
        assert Join(lead, b, 1, 2) == Join(n1, b, 2, 2) == n1;
      } else {
        var n2 := n1 * 64 + (b[2] as int - 0x80);
        assert n2 / 64 == n1 && n2 % 64 == b[2] as int - 0x80;
        if width == 3 {
          assert Join(lead, b, 1, 3) == Join(n1, b, 2, 3) == Join(n2, b, 3, 3) == n2;
          Sextets(n2);
        } else {
          var n3 := n2 * 64 + (b[3] as int - 0x80);
          assert n3 / 64 == n2 && n3 % 64 == b[3] as int - 0x80;
          assert Join(lead, b, 1, 4) == Join(n1, b, 2, 4) == Join(n2, b, 3, 4) == Join(n3, b, 4, 4) == n3;
          Sextets(n3);
        }
      }
    }
  }

  lemma {:induction false} DecodeInvertsEncode(s: string)
    ensures Decode(Encode(s)) == Some(s)
  {
    if s != "" {
      var first, rest := EncodeChar(s[0]), Encode(s[1..]);
      DecodeEncodedChar(s[0], rest);
      DecodeInvertsEncode(s[1..]);
      assert (first + rest)[|first|..] == rest;
      assert s == [s[0]] + s[1..];
    }
  }

  /** Strictness: every accepted byte string is the encoding of the text it decodes to. */
  lemma {:induction false} EncodeInvertsDecode(b: bytes)
    requires Decode(b).Some?
    ensures Encode(Decode(b).value) == b
  {
    hide DecodeChar, EncodeChar;
    if b != [] {
      var width := DecodeChar(b).value.width;
      EncodeDecodedChar(b);
      EncodeInvertsDecode(b[width..]);
      var rest := Decode(b[width..]).value;
      assert Decode(b).value[1..] == rest;
      assert b == b[..width] + b[width..];
    }
  }
}
