/**
 Base64 with the standard alphabet and padding (RFC 4648, section 4), as placed
 images travel between people editing one document.
 */
module Base64 {
  import opened Common

  type byte = x: int | 0 <= x < 256
  type sextet = x: int | 0 <= x < 64

  function Letter(v: sextet): char {
    if v < 26 then 'A' + v as char
    else if v < 52 then 'a' + (v - 26) as char
    else if v < 62 then '0' + (v - 52) as char
    else if v == 62 then '+'
    else '/'
  }

  /** The place of a character in the alphabet. */
  function Place(c: char): Option<sextet> {
    if 'A' <= c <= 'Z' then Some((c - 'A') as int)
    else if 'a' <= c <= 'z' then Some((c - 'a') as int + 26)
    else if '0' <= c <= '9' then Some((c - '0') as int + 52)
    else if c == '+' then Some(62)
    else if c == '/' then Some(63)
    else None
  }

  lemma LetterHasPlace(v: sextet)
    ensures Place(Letter(v)) == Some(v) && Letter(v) != '='
  {}

  // ---------------------------------------------------------------- encode

  function At(chunk: seq<byte>, i: nat): byte {
    if i < |chunk| then chunk[i] else 0
  }

  /** One chunk of up to three bytes: four letters, padded. */
  function EncodeChunk(chunk: seq<byte>): string
    requires 1 <= |chunk| <= 3
  {
    var n := At(chunk, 0) * 0x1_0000 + At(chunk, 1) * 0x100 + At(chunk, 2);
    [Letter(n / 0x4_0000 % 64), Letter(n / 0x1000 % 64),
     if |chunk| > 1 then Letter(n / 64 % 64) else '=',
     if |chunk| > 2 then Letter(n % 64) else '=']
  }

  function Encode(data: seq<byte>): string {
    if data == [] then ""
    else EncodeChunk(data[..MinNat(3, |data|)]) + Encode(data[MinNat(3, |data|)..])
  }

  lemma EncodeStep(rest: seq<byte>, out: string)
    requires rest != []
    ensures var k := MinNat(3, |rest|); out + Encode(rest) == out + EncodeChunk(rest[..k]) + Encode(rest[k..])
  {
    var k := MinNat(3, |rest|);
    var (x, y) := (EncodeChunk(rest[..k]), Encode(rest[k..]));
    assert Encode(rest) == x + y;
    assert out + (x + y) == out + x + y;
  }

  method EncodeBytes(data: seq<byte>) returns (out: string)
    ensures out == Encode(data)
  {
    out := "";
    var i := 0;
    while i < |data|
      invariant i <= |data|
      invariant out + Encode(data[i..]) == Encode(data)
    {
      var end := MinNat(i + 3, |data|);
      EncodeStep(data[i..], out);
      assert data[i..end] == data[i..][..MinNat(3, |data[i..]|)];
      assert data[end..] == data[i..][MinNat(3, |data[i..]|)..];
      out := WriteChunk(out, data[i..end]);
      i := end;
    }
  }

  method WriteChunk(before: string, chunk: seq<byte>) returns (out: string)
    requires 1 <= |chunk| <= 3
    ensures out == before + EncodeChunk(chunk)
  {
    var n := At(chunk, 0) * 0x1_0000 + At(chunk, 1) * 0x100 + At(chunk, 2);
    out := before + [Letter(n / 0x4_0000 % 64)];
    out := out + [Letter(n / 0x1000 % 64)];
    out := out + [if |chunk| > 1 then Letter(n / 64 % 64) else '='];
    out := out + [if |chunk| > 2 then Letter(n % 64) else '='];
  }

  // ---------------------------------------------------------------- decode

  /** The bit buffer's bounds at the head of the loop. */
  predicate Buffered(buf: nat, bits: nat) {
    bits in {0, 2, 4, 6} && buf < Width(bits)
  }

  /** Two to the power of the pending bits. */
  function Width(bits: nat): (w: nat)
    ensures w > 0
  {
    match bits case 2 => 4 case 4 => 16 case 6 => 64 case _ => 1
  }

  /** `x >> bits`, for the shifts the decoder makes. */
  function ShiftRight(x: nat, bits: nat): nat {
    match bits case 2 => x / 4 case 4 => x / 16 case _ => x
  }

  /** `x & ((1 << bits) - 1)`. */
  function LowBits(x: nat, bits: nat): nat {
    match bits case 2 => x % 4 case 4 => x % 16 case _ => 0
  }

  /** Bits still pending, and the byte they completed, if any. */
  datatype Pending = Pending(buf: nat, bits: nat, done: seq<byte>)

  function Absorb(buf: nat, bits: nat, v: sextet): (p: Pending)
    requires Buffered(buf, bits)
    ensures Buffered(p.buf, p.bits)
  {
    var acc := buf * 64 + v;
    if bits + 6 >= 8 then
      Pending(LowBits(acc, bits - 2), bits - 2, [ShiftRight(acc, bits - 2) % 256])
    else
      Pending(acc, bits + 6, [])
  }

  /** What is left to do on `s`, with `bits` bits pending in `buf`. */
  function DecodeFrom(s: string, buf: nat, bits: nat, out: seq<byte>): Option<seq<byte>>
    requires Buffered(buf, bits)
  {
    if s == "" || s[0] == '=' then Some(out)
    else if Place(s[0]).None? then None
    else
      var p := Absorb(buf, bits, Place(s[0]).value);
      DecodeFrom(s[1..], p.buf, p.bits, out + p.done)
  }

  function Decode(s: string): Option<seq<byte>> {
    DecodeFrom(s, 0, 0, [])
  }

  method DecodeString(s: string) returns (r: Option<seq<byte>>)
    ensures r == Decode(s)
  {
    var out: seq<byte> := [];
    var buf: nat, bits: nat := 0, 0;
    var i := 0;
    while i < |s| && s[i] != '='
      invariant i <= |s|
      invariant Buffered(buf, bits)
      invariant DecodeFrom(s[i..], buf, bits, out) == Decode(s)
    {
      var v := Place(s[i]);
      if v.None? {
        return None;
      }
      ghost var p := Absorb(buf, bits, v.value);
      buf := buf * 64 + v.value;
      bits := bits + 6;
      if bits >= 8 {
        bits := bits - 8;
        out := out + [ShiftRight(buf, bits) % 256];
        buf := LowBits(buf, bits);
      } else {
        assert out + p.done == out;
      }
      i := i + 1;
    }
    r := Some(out);
  }

  // ------------------------------------------------------------ round trip

  lemma DecodeLetter(v: sextet, rest: string, buf: nat, bits: nat, out: seq<byte>)
    requires Buffered(buf, bits)
    ensures var p := Absorb(buf, bits, v);
            DecodeFrom([Letter(v)] + rest, buf, bits, out) == DecodeFrom(rest, p.buf, p.bits, out + p.done)
  {
    LetterHasPlace(v);
    assert ([Letter(v)] + rest)[1..] == rest;
  }

  /** A later letter completes the byte `b` and leaves `r` pending. */
  lemma AbsorbCompletes(v: sextet, buf: nat, bits: nat, b: byte, r: nat)
    requires Buffered(buf, bits) && bits > 0
    requires buf * 64 + v == Width(bits - 2) * b + r && r < Width(bits - 2)
    ensures Absorb(buf, bits, v) == Pending(r, bits - 2, [b])
  {
    var acc := buf * 64 + v;
    match bits
    case 2 =>
    case 4 => Quotient(acc, 4, b, r);
    case 6 => Quotient(acc, 16, b, r);
  }

  lemma AtLeastOnce(d: nat, x: nat)
    requires x >= 1
    ensures d * x >= d
  {}

  lemma QuotientIsUnique(d: nat, q: nat, r: nat, k: nat, s: nat)
    requires d * q + r == d * k + s && r < d && s < d
    ensures q == k && r == s
  {
    assert d * q - d * k == d * (q - k) == -(d * (k - q));
    if k < q {
      AtLeastOnce(d, q - k);
    } else if q < k {
      AtLeastOnce(d, k - q);
    }
  }

  lemma Quotient(n: nat, d: nat, q: nat, r: nat)
    requires n == d * q + r && r < d
    ensures n / d == q && n % d == r
  {
    QuotientIsUnique(d, q, r, n / d, n % d);
  }

  lemma ChunkSextets(a: byte, b: byte, c: byte)
    ensures var n := a * 0x1_0000 + b * 0x100 + c;
            && n / 0x4_0000 % 64 == a / 4
            && n / 0x1000 % 64 == a % 4 * 16 + b / 16
            && n / 64 % 64 == b % 16 * 4 + c / 64
            && n % 64 == c % 64
  {
    var n := a * 0x1_0000 + b * 0x100 + c;
    var (h, m) := (a / 4 * 64 + (a % 4 * 16 + b / 16), b % 16 * 4 + c / 64);
    Quotient(n, 0x4_0000, a / 4, a % 4 * 0x1_0000 + b * 0x100 + c);
    Quotient(n, 0x1000, h, b % 16 * 0x100 + c);
    Quotient(h, 64, a / 4, a % 4 * 16 + b / 16);
    Quotient(n, 64, h * 64 + m, c % 64);
    Quotient(h * 64 + m, 64, h, m);
  }

  /** The letters of a chunk, by the bytes they split. */
  lemma ChunkLetters(chunk: seq<byte>)
    requires 1 <= |chunk| <= 3
    ensures var (a, b, c) := (chunk[0], At(chunk, 1), At(chunk, 2));
            EncodeChunk(chunk) == [Letter(a / 4), Letter(a % 4 * 16 + b / 16),
                                   if |chunk| > 1 then Letter(b % 16 * 4 + c / 64) else '=',
                                   if |chunk| > 2 then Letter(c % 64) else '=']
  {
    ChunkSextets(chunk[0], At(chunk, 1), At(chunk, 2));
  }

  // The letters of one chunk, read in turn.

  lemma DecodeFirst(a: byte, rest: string, out: seq<byte>)
    ensures Buffered(a / 4, 6)
    ensures DecodeFrom([Letter(a / 4)] + rest, 0, 0, out) == DecodeFrom(rest, a / 4, 6, out)
  {
    DecodeLetter(a / 4, rest, 0, 0, out);
    assert out + [] == out;
  }

  lemma DecodeSecond(a: byte, b: byte, rest: string, out: seq<byte>)
    ensures Buffered(a / 4, 6) && Buffered(b / 16, 4)
    ensures DecodeFrom([Letter(a % 4 * 16 + b / 16)] + rest, a / 4, 6, out) == DecodeFrom(rest, b / 16, 4, out + [a])
  {
    DecodeLetter(a % 4 * 16 + b / 16, rest, a / 4, 6, out);
    AbsorbCompletes(a % 4 * 16 + b / 16, a / 4, 6, a, b / 16);
  }

  lemma DecodeThird(b: byte, c: byte, rest: string, out: seq<byte>)
    ensures Buffered(b / 16, 4) && Buffered(c / 64, 2)
    ensures DecodeFrom([Letter(b % 16 * 4 + c / 64)] + rest, b / 16, 4, out) == DecodeFrom(rest, c / 64, 2, out + [b])
  {
    DecodeLetter(b % 16 * 4 + c / 64, rest, b / 16, 4, out);
    AbsorbCompletes(b % 16 * 4 + c / 64, b / 16, 4, b, c / 64);
  }

  lemma DecodeFourth(c: byte, rest: string, out: seq<byte>)
    ensures Buffered(c / 64, 2)
    ensures DecodeFrom([Letter(c % 64)] + rest, c / 64, 2, out) == DecodeFrom(rest, 0, 0, out + [c])
  {
    DecodeLetter(c % 64, rest, c / 64, 2, out);
    AbsorbCompletes(c % 64, c / 64, 2, c, 0);
  }

  /** A whole chunk gives back its three bytes and leaves nothing pending. */
  lemma DecodeWholeChunk(chunk: seq<byte>, rest: string, out: seq<byte>)
    requires |chunk| == 3
    ensures DecodeFrom(EncodeChunk(chunk) + rest, 0, 0, out) == DecodeFrom(rest, 0, 0, out + chunk)
  {
    var (a, b, c) := (chunk[0], chunk[1], chunk[2]);
    ChunkLetters(chunk);
    var r3 := [Letter(c % 64)] + rest;
    var r2 := [Letter(b % 16 * 4 + c / 64)] + r3;
    var r1 := [Letter(a % 4 * 16 + b / 16)] + r2;
    assert EncodeChunk(chunk) + rest == [Letter(a / 4)] + r1;
    DecodeFirst(a, r1, out);
    DecodeSecond(a, b, r2, out);
    DecodeThird(b, c, r3, out + [a]);
    DecodeFourth(c, rest, out + [a] + [b]);
    assert out + [a] + [b] + [c] == out + chunk;
  }

  /** A short last chunk gives back its bytes and stops at the padding. */
  lemma DecodeLastByte(a: byte, out: seq<byte>)
    ensures DecodeFrom(EncodeChunk([a]), 0, 0, out) == Some(out + [a])
  {
    ChunkLetters([a]);
    var r1 := [Letter(a % 4 * 16 + 0)] + "==";
    assert EncodeChunk([a]) == [Letter(a / 4)] + r1;
    DecodeFirst(a, r1, out);
    DecodeSecond(a, 0, "==", out);
  }

  lemma DecodeLastTwoBytes(a: byte, b: byte, out: seq<byte>)
    ensures DecodeFrom(EncodeChunk([a, b]), 0, 0, out) == Some(out + [a, b])
  {
    ChunkLetters([a, b]);
    var r2 := [Letter(b % 16 * 4 + 0)] + "=";
    var r1 := [Letter(a % 4 * 16 + b / 16)] + r2;
    assert EncodeChunk([a, b]) == [Letter(a / 4)] + r1;
    DecodeFirst(a, r1, out);
    DecodeSecond(a, b, r2, out);
    DecodeThird(b, 0, "=", out + [a]);
    assert out + [a] + [b] == out + [a, b];
  }

  lemma {:induction false} DecodeAfter(data: seq<byte>, out: seq<byte>)
    ensures DecodeFrom(Encode(data), 0, 0, out) == Some(out + data)
  {
    if data == [] {
      assert out + data == out;
    } else if |data| < 3 {
      assert data[..|data|] == data && Encode(data) == EncodeChunk(data) + "" == EncodeChunk(data);
      if |data| == 1 { DecodeLastByte(data[0], out); } else { DecodeLastTwoBytes(data[0], data[1], out); }
      assert data == if |data| == 1 then [data[0]] else [data[0], data[1]];
    } else {
      DecodeWholeChunk(data[..3], Encode(data[3..]), out);
      DecodeAfter(data[3..], out + data[..3]);
      assert out + data[..3] + data[3..] == out + data;
    }
  }

  /** Decoding undoes encoding, for every byte string. */
  lemma RoundTrip(data: seq<byte>)
    ensures Decode(Encode(data)) == Some(data)
  {
    DecodeAfter(data, []);
    assert [] + data == data;
  }

  /** Different byte strings are never written the same way. */
  lemma EncodeIsInjective(a: seq<byte>, b: seq<byte>)
    requires Encode(a) == Encode(b)
    ensures a == b
  {
    RoundTrip(a);
    RoundTrip(b);
  }

  /** Four letters for every chunk begun. */
  lemma {:induction false} EncodedLength(data: seq<byte>)
    ensures |Encode(data)| == (|data| + 2) / 3 * 4
  {
    if data != [] {
      var k := MinNat(3, |data|);
      EncodedLength(data[k..]);
      ChunkCount(|data|);
      assert |EncodeChunk(data[..k])| == 4;
    }
  }

  lemma ChunkCount(n: nat)
    requires n > 0
    ensures (n + 2) / 3 == 1 + (n - MinNat(3, n) + 2) / 3
  {}
}
