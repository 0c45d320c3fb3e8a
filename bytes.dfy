/** Bytes and the big-endian integer layouts shared by every Autobahn wire
    format: `put_u16`/`put_u32`/`get_u32` of the Rust `bytes` crate, the
    shift-and-mask pushes of the C++ client and `struct.pack(">B"/">I")` of
    the Python peer protocol. */
module Bytes {
  type byte = b: int | 0 <= b < 256

  const TWO16: nat := 0x1_0000
  const TWO32: nat := 0x1_0000_0000

  /** The two bytes `put_u16(n as u16)` writes: the cast keeps n mod 2^16. */
  function U16(n: nat): (r: seq<byte>)
    ensures |r| == 2
  {
    [(n / 256) % 256, n % 256]
  }

  /** The value of two bytes read high byte first. */
  function ReadU16(b: seq<byte>, at: nat): (r: nat)
    requires at + 2 <= |b|
    ensures r < TWO16
  {
    (b[at] as int) * 256 + b[at + 1]
  }

  /** The four bytes of `n as u32` in big-endian order. */
  function U32(n: nat): (r: seq<byte>)
    ensures |r| == 4
  {
    [(n / 0x100_0000) % 256, (n / 0x1_0000) % 256, (n / 256) % 256, n % 256]
  }

  /** `get_u32`: the value of four bytes read high byte first. */
  function ReadU32(b: seq<byte>, at: nat): (r: nat)
    requires at + 4 <= |b|
    ensures r < TWO32
  {
    (((b[at] as int) * 256 + b[at + 1]) * 256 + b[at + 2]) * 256 + b[at + 3]
  }

  /** `get_u32` reads back what `put_u32` wrote, modulo 2^32. */
  lemma U32RoundTrip(n: nat)
    ensures ReadU32(U32(n), 0) == n % TWO32
  {
    Digits16(n);
    Digits24(n);
    Digits32(n);
  }

  // Splitting a number into base-256 (and base-64) digits, one digit at a time.
  lemma Digits16(n: nat)
    ensures n / 0x1_0000 == (n / 256) / 256
    ensures n % 0x1_0000 == ((n / 256) % 256) * 256 + n % 256
  {}

  lemma Digits24(n: nat)
    ensures n / 0x100_0000 == (n / 0x1_0000) / 256
    ensures n % 0x100_0000 == ((n / 0x1_0000) % 256) * 0x1_0000 + n % 0x1_0000
  {}

  lemma Digits32(n: nat)
    ensures n % TWO32 == ((n / 0x100_0000) % 256) * 0x100_0000 + n % 0x100_0000
  {}

  lemma Sextets(n: nat)
    ensures n / 4096 == (n / 64) / 64
    ensures n / 0x4_0000 == (n / 4096) / 64
  {}

  /** Reading a u32 from four bytes that are a u32 encoding. */
  lemma ReadU32Slice(s: seq<byte>, at: nat, n: nat)
    requires at + 4 <= |s| && s[at..at + 4] == U32(n)
    ensures ReadU32(s, at) == n % TWO32
    ensures n < TWO32 ==> ReadU32(s, at) == n
  {
    var e := U32(n);
    U32RoundTrip(n);
    assert s[at] == e[0] && s[at + 1] == e[1] && s[at + 2] == e[2] && s[at + 3] == e[3];
  }

  /** Four bytes are the u32 encoding of the value read from them. */
  lemma U32OfRead(s: seq<byte>, at: nat)
    requires at + 4 <= |s|
    ensures s[at..at + 4] == U32(ReadU32(s, at))
  {
    var a, b, c, d: int := s[at], s[at + 1], s[at + 2], s[at + 3];
    var n := ReadU32(s, at);
    assert n == a * 0x100_0000 + b * 0x1_0000 + c * 256 + d;
    assert n / 256 == a * 0x1_0000 + b * 256 + c && n % 256 == d;
    assert n / 0x1_0000 == a * 256 + b;
    assert (n / 256) % 256 == c;
    assert n / 0x100_0000 == a;
    assert (n / 0x1_0000) % 256 == b;
    assert U32(n) == [a, b, c, d];
  }

  /** Reading back a u16 gives the value modulo 2^16. */
  lemma U16RoundTrip(n: nat)
    ensures ReadU16(U16(n), 0) == n % TWO16
  {
    Digits16(n);
  }

  /** `as u16` first: only n mod 2^16 reaches the buffer. */
  lemma U16Mod(n: nat)
    ensures U16(n) == U16(n % TWO16)
  {
    Digits16(n);
  }

  /** Reading the u16 written at the front of a longer buffer. */
  lemma ReadU16Prefix(n: nat, rest: seq<byte>, pre: seq<byte>)
    ensures ReadU16(pre + U16(n) + rest, |pre|) == n % TWO16
  {
    var s := pre + U16(n) + rest;
    assert s[|pre|..|pre| + 2] == U16(n);
    assert ReadU16(s, |pre|) == ReadU16(U16(n), 0);
    U16RoundTrip(n);
  }
}

/** UTF-8 as Rust's `String::from_utf8`/`as_bytes` and Python's
    `str.encode()`/`bytes.decode()` implement it: well-formed sequences only
    (no overlong forms, no surrogates, nothing above U+10FFFF). A Dafny
    `char` is a Unicode scalar value. */
module Utf8 {
  import opened Bytes
  import opened Wrappers

  predicate IsCont(b: byte) { 0x80 <= b < 0xC0 }

  /** The bytes of one scalar value. */
  function EncodeChar(c: char): (r: seq<byte>)
    ensures 1 <= |r| <= 4
  {
    var n := c as int;
    if n < 0x80 then [n]
    else if n < 0x800 then [0xC0 + n / 64, 0x80 + n % 64]
    else if n < 0x1_0000 then [0xE0 + n / 4096, 0x80 + (n / 64) % 64, 0x80 + n % 64]
    else [0xF0 + n / 0x4_0000, 0x80 + (n / 4096) % 64, 0x80 + (n / 64) % 64, 0x80 + n % 64]
  }

  /** `str.encode()` / `String::as_bytes`. */
  function Encode(s: string): (r: seq<byte>)
    ensures |r| >= |s|
    ensures s == [] <==> r == []
  {
    if s == [] then [] else EncodeChar(s[0]) + Encode(s[1..])
  }

  lemma EncodeAppend(s: string, t: string)
    ensures Encode(s + t) == Encode(s) + Encode(t)
  {
    if s != [] {
      assert (s + t)[1..] == s[1..] + t;
      EncodeAppend(s[1..], t);
    } else {
      assert s + t == t;
    }
  }

  /** Decodes the scalar value at the front of `b`; the number of bytes it
      took, or None when the front is not a well-formed sequence. */
  function DecodeChar(b: seq<byte>): (r: Option<(char, nat)>)
    requires |b| > 0
    ensures r.Some? ==> 1 <= r.value.1 <= |b|
  {
    var b0: int := b[0];
    if b0 < 0x80 then Some((b0 as char, 1))
    else if 0xC2 <= b0 < 0xE0 then
      if |b| < 2 || !IsCont(b[1]) then None
      else Some((Scalar2(b0, b[1]) as char, 2))
    else if 0xE0 <= b0 < 0xF0 then
      if |b| < 3 || !IsCont(b[1]) || !IsCont(b[2]) then None
      else if b0 == 0xE0 && b[1] < 0xA0 then None
      else if b0 == 0xED && b[1] >= 0xA0 then None
      else Some((Scalar3(b0, b[1], b[2]) as char, 3))
    else if 0xF0 <= b0 < 0xF5 then
      if |b| < 4 || !IsCont(b[1]) || !IsCont(b[2]) || !IsCont(b[3]) then None
      else if b0 == 0xF0 && b[1] < 0x90 then None
      else if b0 == 0xF4 && b[1] >= 0x90 then None
      else Some((Scalar4(b0, b[1], b[2], b[3]) as char, 4))
    else None
  }

  /** The scalar value of a two-byte sequence. */
  function Scalar2(b0: int, b1: int): (n: int)
    requires 0xC2 <= b0 < 0xE0 && 0x80 <= b1 < 0xC0
    ensures 0x80 <= n < 0x800
  {
    (b0 - 0xC0) * 64 + (b1 - 0x80)
  }

  /** The scalar value of a three-byte sequence, outside the surrogates. */
  function Scalar3(b0: int, b1: int, b2: int): (n: int)
    requires 0xE0 <= b0 < 0xF0 && 0x80 <= b1 < 0xC0 && 0x80 <= b2 < 0xC0
    requires b0 == 0xE0 ==> b1 >= 0xA0
    requires b0 == 0xED ==> b1 < 0xA0
    ensures 0x800 <= n < 0x1_0000 && !(0xD800 <= n < 0xE000)
  {
    (b0 - 0xE0) * 4096 + (b1 - 0x80) * 64 + (b2 - 0x80)
  }

  /** The scalar value of a four-byte sequence. */
  function Scalar4(b0: int, b1: int, b2: int, b3: int): (n: int)
    requires 0xF0 <= b0 < 0xF5 && 0x80 <= b1 < 0xC0 && 0x80 <= b2 < 0xC0 && 0x80 <= b3 < 0xC0
    requires b0 == 0xF0 ==> b1 >= 0x90
    requires b0 == 0xF4 ==> b1 < 0x90
    ensures 0x1_0000 <= n < 0x11_0000
  {
    (b0 - 0xF0) * 0x4_0000 + (b1 - 0x80) * 4096 + (b2 - 0x80) * 64 + (b3 - 0x80)
  }

  /** `String::from_utf8(..).ok()` / `bytes.decode()` (None: UnicodeDecodeError). */
  function Decode(b: seq<byte>): (r: Option<string>)
    decreases |b|
  {
    if b == [] then Some([])
    else match DecodeChar(b)
      case None => None
      case Some((c, k)) =>
        match Decode(b[k..])
        case None => None
        case Some(rest) => Some([c] + rest)
  }

  predicate Valid(b: seq<byte>) { Decode(b).Some? }

  lemma DecodeEncodeChar(c: char, rest: seq<byte>)
    ensures DecodeChar(EncodeChar(c) + rest) == Some((c, |EncodeChar(c)|))
  {
    var n := c as int;
    var e := EncodeChar(c);
    var b := e + rest;
    if n < 0x80 {
    } else if n < 0x800 {
      assert 2 <= n / 64 < 32;
      assert Scalar2(0xC0 + n / 64, 0x80 + n % 64) == n;
    } else if n < 0x1_0000 {
      var b1 := 0x80 + (n / 64) % 64;
      assert n / 4096 < 16;
      assert n / 64 == (n / 4096) * 64 + (n / 64) % 64 by { Sextets(n); }
      assert n / 4096 == 0 ==> b1 >= 0xA0;
      assert n / 4096 == 0xD ==> b1 < 0xA0;
      assert Scalar3(0xE0 + n / 4096, b1, 0x80 + n % 64) == n;
    } else {
      var b1 := 0x80 + (n / 4096) % 64;
      assert n / 0x4_0000 < 5;
      assert n / 4096 == (n / 0x4_0000) * 64 + (n / 4096) % 64 by { Sextets(n); }
      assert n / 64 == (n / 4096) * 64 + (n / 64) % 64 by { Sextets(n); }
      assert n / 0x4_0000 == 0 ==> b1 >= 0x90;
      assert n / 0x4_0000 == 4 ==> b1 < 0x90;
      assert Scalar4(0xF0 + n / 0x4_0000, b1, 0x80 + (n / 64) % 64, 0x80 + n % 64) == n;
    }
  }

  /** Decoding undoes encoding: every string survives `encode` then `decode`. */
  lemma {:induction false} DecodeEncode(s: string)
    ensures Decode(Encode(s)) == Some(s)
  {
    if s != [] {
      var e := EncodeChar(s[0]);
      var tail := Encode(s[1..]);
      DecodeEncodeChar(s[0], tail);
      assert (e + tail)[|e|..] == tail;
      DecodeEncode(s[1..]);
      assert [s[0]] + s[1..] == s;
    }
  }

  /** Decoding succeeds only on the image of Encode, so Encode is the
      inverse of Decode too. */
  lemma {:induction false} EncodeDecode(b: seq<byte>)
    requires Valid(b)
    ensures Encode(Decode(b).value) == b
    decreases |b|
  {
    if b != [] {
      var ck := DecodeChar(b).value;
      var c, k := ck.0, ck.1;
      EncodeDecodeChar(b);
      DecodeFirst(b);
      var t := Decode(b[k..]).value;
      EncodeDecode(b[k..]);
      assert Encode([c] + t) == EncodeChar(c) + Encode(t) by {
        assert ([c] + t)[1..] == t;
      }
      assert b == b[..k] + b[k..];
    }
  }

  /** A valid buffer decodes to its first character and the decoding of
      the rest. */
  lemma DecodeFirst(b: seq<byte>)
    requires b != [] && Valid(b)
    ensures var ck := DecodeChar(b).value;
      Valid(b[ck.1..]) && Decode(b) == Some([ck.0] + Decode(b[ck.1..]).value)
  {
  }

  lemma EncodeDecodeChar(b: seq<byte>)
    requires |b| > 0 && DecodeChar(b).Some?
    ensures var ck := DecodeChar(b).value;
      ck.1 == |EncodeChar(ck.0)| && b[..ck.1] == EncodeChar(ck.0)
  {
    var b0: int := b[0];
    if b0 < 0x80 {
      assert b[..1] == [b[0]];
    } else if b0 < 0xE0 {
      Split2(b0, b[1]);
      assert b[..2] == [b[0], b[1]];
    } else if b0 < 0xF0 {
      Split3(b0, b[1], b[2]);
      assert b[..3] == [b[0], b[1], b[2]];
    } else {
      Split4(b0, b[1], b[2], b[3]);
      assert b[..4] == [b[0], b[1], b[2], b[3]];
    }
  }

  lemma Split2(b0: int, b1: int)
    requires 0xC2 <= b0 < 0xE0 && 0x80 <= b1 < 0xC0
    ensures var n := Scalar2(b0, b1); EncodeChar(n as char) == [b0, b1]
  {
    var n := Scalar2(b0, b1);
    assert n / 64 == b0 - 0xC0 && n % 64 == b1 - 0x80;
  }

  lemma Split3(b0: int, b1: int, b2: int)
    requires 0xE0 <= b0 < 0xF0 && 0x80 <= b1 < 0xC0 && 0x80 <= b2 < 0xC0
    requires b0 == 0xE0 ==> b1 >= 0xA0
    requires b0 == 0xED ==> b1 < 0xA0
    ensures var n := Scalar3(b0, b1, b2); EncodeChar(n as char) == [b0, b1, b2]
  {
    var n := Scalar3(b0, b1, b2);
    var m := (b1 - 0x80) * 64 + (b2 - 0x80);
    assert n == (b0 - 0xE0) * 4096 + m && 0 <= m < 4096;
    assert n / 4096 == b0 - 0xE0;
    assert n / 64 == (b0 - 0xE0) * 64 + (b1 - 0x80);
    assert (n / 64) % 64 == b1 - 0x80;
    assert n % 64 == b2 - 0x80;
  }

  lemma Split4(b0: int, b1: int, b2: int, b3: int)
    requires 0xF0 <= b0 < 0xF5 && 0x80 <= b1 < 0xC0 && 0x80 <= b2 < 0xC0 && 0x80 <= b3 < 0xC0
    requires b0 == 0xF0 ==> b1 >= 0x90
    requires b0 == 0xF4 ==> b1 < 0x90
    ensures var n := Scalar4(b0, b1, b2, b3); EncodeChar(n as char) == [b0, b1, b2, b3]
  {
    var n := Scalar4(b0, b1, b2, b3);
    var lo := (b2 - 0x80) * 64 + (b3 - 0x80);
    var mid := (b1 - 0x80) * 4096 + lo;
    assert 0 <= lo < 4096 && 0 <= mid < 0x4_0000;
    assert n == (b0 - 0xF0) * 0x4_0000 + mid;
    assert n / 0x4_0000 == b0 - 0xF0;
    assert n / 4096 == (b0 - 0xF0) * 64 + (b1 - 0x80);
    assert (n / 4096) % 64 == b1 - 0x80;
    assert n / 64 == ((b0 - 0xF0) * 64 + (b1 - 0x80)) * 64 + (b2 - 0x80);
    assert (n / 64) % 64 == b2 - 0x80;
    assert n % 64 == b3 - 0x80;
  }

  lemma ValidEncode(s: string)
    ensures Valid(Encode(s))
  {
    DecodeEncode(s);
  }
}
