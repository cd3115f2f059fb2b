/** Unpadded base64url (section 5 of RFC 4648) as the desktop uses it for settings keys. */
module Base64Url {
  type Byte = b: int | 0 <= b < 256
  type Bytes = seq<Byte>

  function Digit(d: int): char
    requires 0 <= d < 64
  {
    if d < 26 then ('A' as int + d) as char
    else if d < 52 then ('a' as int + d - 26) as char
    else if d < 62 then ('0' as int + d - 52) as char
    else if d == 62 then '-' else '_'
  }

  /** The value of a digit, or -1 for a character the decoder skips. */
  function DigitValue(c: char): int {
    if 'A' <= c <= 'Z' then c as int - 'A' as int
    else if 'a' <= c <= 'z' then c as int - 'a' as int + 26
    else if '0' <= c <= '9' then c as int - '0' as int + 52
    else if c == '-' then 62 else if c == '_' then 63 else -1
  }

  lemma DigitRead(d: int)
    requires 0 <= d < 64
    ensures DigitValue(Digit(d)) == d
  {
  }

  function Encode(s: Bytes): string {
    if |s| == 0 then ""
    else if |s| == 1 then [Digit(s[0] / 4), Digit(s[0] % 4 * 16)]
    else if |s| == 2 then [Digit(s[0] / 4), Digit(s[0] % 4 * 16 + s[1] / 16), Digit(s[1] % 16 * 4)]
    else
      [Digit(s[0] / 4), Digit(s[0] % 4 * 16 + s[1] / 16), Digit(s[1] % 16 * 4 + s[2] / 64), Digit(s[2] % 64)]
      + Encode(s[3..])
  }

  /** The decoder keeps `bits` pending bits of value `pending`; it skips other characters
      and drops bits that fill no byte. */
  function DecodeFrom(s: string, pending: int, bits: int): Bytes
    requires (bits == 0 && pending == 0) || (bits == 2 && 0 <= pending < 4)
      || (bits == 4 && 0 <= pending < 16) || (bits == 6 && 0 <= pending < 64)
  {
    if s == "" then []
    else
      var d := DigitValue(s[0]);
      if d == -1 then DecodeFrom(s[1..], pending, bits)
      else if bits == 0 then DecodeFrom(s[1..], d, 6)
      else if bits == 6 then [pending * 4 + d / 16] + DecodeFrom(s[1..], d % 16, 4)
      else if bits == 4 then [pending * 16 + d / 4] + DecodeFrom(s[1..], d % 4, 2)
      else [pending * 64 + d] + DecodeFrom(s[1..], 0, 0)
  }

  function Decode(s: string): Bytes {
    DecodeFrom(s, 0, 0)
  }

  lemma DecodeFour(a: int, b: int, c: int, d: int, rest: string)
    requires 0 <= a < 64 && 0 <= b < 64 && 0 <= c < 64 && 0 <= d < 64
    ensures Decode([Digit(a), Digit(b), Digit(c), Digit(d)] + rest)
      == [a * 4 + b / 16, b % 16 * 16 + c / 4, c % 4 * 64 + d] + Decode(rest)
  {
    var s := [Digit(a), Digit(b), Digit(c), Digit(d)] + rest;
    DigitRead(a);
    DigitRead(b);
    DigitRead(c);
    DigitRead(d);
    hide Digit, DigitValue;
    var s1, s2, s3 := s[1..], s[2..], s[3..];
    assert s1[1..] == s2 && s2[1..] == s3 && s3[1..] == rest;
    assert DecodeFrom(s3, c % 4, 2) == [c % 4 * 64 + d] + Decode(rest);
    assert DecodeFrom(s2, b % 16, 4) == [b % 16 * 16 + c / 4] + DecodeFrom(s3, c % 4, 2);
    assert DecodeFrom(s1, a, 6) == [a * 4 + b / 16] + DecodeFrom(s2, b % 16, 4);
  }

  lemma DecodeTail(a: int, b: int, c: int)
    requires 0 <= a < 64 && 0 <= b < 64 && 0 <= c < 64
    ensures Decode([Digit(a), Digit(b)]) == [a * 4 + b / 16]
    ensures Decode([Digit(a), Digit(b), Digit(c)]) == [a * 4 + b / 16, b % 16 * 16 + c / 4]
  {
    DigitRead(a);
    DigitRead(b);
    DigitRead(c);
    hide Digit, DigitValue;
    var two, three := [Digit(a), Digit(b)], [Digit(a), Digit(b), Digit(c)];
    assert two[1..] == [Digit(b)] && [Digit(b)][1..] == "";
    assert three[1..] == [Digit(b), Digit(c)] && three[1..][1..] == [Digit(c)] && [Digit(c)][1..] == "";
    assert DecodeFrom("", b % 16, 4) == [] && DecodeFrom("", c % 4, 2) == [];
    assert DecodeFrom([Digit(c)], b % 16, 4) == [b % 16 * 16 + c / 4];
    assert DecodeFrom([Digit(b)], a, 6) == [a * 4 + b / 16];
    assert DecodeFrom([Digit(b), Digit(c)], a, 6) == [a * 4 + b / 16] + [b % 16 * 16 + c / 4];
  }

  /** Splitting bytes into six-bit digits and joining the digits again loses nothing. */
  lemma Regroup(a: int, b: int, c: int)
    requires 0 <= a < 256 && 0 <= b < 256 && 0 <= c < 256
    ensures 0 <= a / 4 < 64 && 0 <= a % 4 * 16 + b / 16 < 64
    ensures 0 <= b % 16 * 4 + c / 64 < 64 && 0 <= c % 64 < 64
    ensures a / 4 * 4 + (a % 4 * 16 + b / 16) / 16 == a
    ensures (a % 4 * 16 + b / 16) % 16 * 16 + (b % 16 * 4 + c / 64) / 4 == b
    ensures (b % 16 * 4 + c / 64) % 4 * 64 + c % 64 == c
  {
  }

  lemma EncodeStep(s: Bytes)
    requires |s| > 2
    ensures Encode(s) == [Digit(s[0] / 4), Digit(s[0] % 4 * 16 + s[1] / 16),
                          Digit(s[1] % 16 * 4 + s[2] / 64), Digit(s[2] % 64)] + Encode(s[3..])
  {
  }

  lemma DecodeTriple(a: Byte, b: Byte, c: Byte, rest: string)
    ensures Decode([Digit(a / 4), Digit(a % 4 * 16 + b / 16), Digit(b % 16 * 4 + c / 64), Digit(c % 64)] + rest)
      == [a, b, c] + Decode(rest)
  {
    hide *;
    Regroup(a, b, c);
    DecodeFour(a / 4, a % 4 * 16 + b / 16, b % 16 * 4 + c / 64, c % 64, rest);
  }

  lemma EncodeShort(s: Bytes)
    ensures |s| == 1 ==> Encode(s) == [Digit(s[0] / 4), Digit(s[0] % 4 * 16)]
    ensures |s| == 2
      ==> Encode(s) == [Digit(s[0] / 4), Digit(s[0] % 4 * 16 + s[1] / 16), Digit(s[1] % 16 * 4)]
  {
  }

  lemma DecodeShort(s: Bytes)
    requires 0 < |s| < 3
    ensures Decode(Encode(s)) == s
  {
    EncodeShort(s);
    hide *;
    if |s| == 1 {
      Regroup(s[0], 0, 0);
      DecodeTail(s[0] / 4, s[0] % 4 * 16, 0);
    } else {
      Regroup(s[0], s[1], 0);
      DecodeTail(s[0] / 4, s[0] % 4 * 16 + s[1] / 16, s[1] % 16 * 4);
    }
  }

  /** Decoding undoes encoding, so the encoding is injective. */
  lemma {:induction false} RoundTrip(s: Bytes)
    ensures Decode(Encode(s)) == s
  {
    if 0 < |s| < 3 {
      DecodeShort(s);
    } else if |s| > 2 {
      EncodeStep(s);
      hide *;
      RoundTrip(s[3..]);
      DecodeTriple(s[0], s[1], s[2], Encode(s[3..]));
      assert s == [s[0], s[1], s[2]] + s[3..];
    }
  }

  lemma EncodeInjective(a: Bytes, b: Bytes)
    ensures Encode(a) == Encode(b) <==> a == b
  {
    RoundTrip(a);
    RoundTrip(b);
  }

  /** The other direction of the codec is lossy: the decoder skips what it does not know,
      so two different keys can decode to one name. */
  lemma DecodeSkips()
    ensures Decode("YQ") == [97] && Decode("YQ=") == [97] && "YQ" != "YQ="
  {
    assert Digit(24) == 'Y' && Digit(16) == 'Q';
    DecodeTail(24, 16, 0);
    assert "YQ="[1..] == "Q=" && "Q="[1..] == "=" && "="[1..] == "";
    assert DecodeFrom("=", 0, 4) == [];
    assert DecodeFrom("Q=", 24, 6) == [97] + DecodeFrom("=", 0, 4);
  }
}
