/**
  * Frame encoding (sections 5.2 and 5.3 of RFC 6455): minimal-length headers,
  * the masking transform, and the word-at-a-time masking loop.
  */
module Framing {
  import opened Basics

  /** The four opcode bits of a frame's first octet. */
  type Nibble = n: int | 0 <= n < 16

  const CONTINUATION: Nibble := 0x0
  const TEXT: Nibble := 0x1
  const BINARY: Nibble := 0x2
  const CLOSE: Nibble := 0x8
  const PING: Nibble := 0x9
  const PONG: Nibble := 0xA

  /** No payload is longer: an allocation holds at most 2^63 - 1 bytes. */
  const LIMIT: nat := 0x8000_0000_0000_0000

  type Key = k: Bytes | |k| == 4 witness [0, 0, 0, 0]

  predicate Opcode(op: Nibble) {
    op == CONTINUATION || op == TEXT || op == BINARY || op == CLOSE || op == PING || op == PONG
  }

  // ----- Masking -----

  function Pow2(n: nat): (p: nat)
    ensures p > 0
  {
    if n == 0 then 1 else 2 * Pow2(n - 1)
  }

  /** Exclusive or of two numbers of `bits` binary digits. */
  function XorBits(a: nat, b: nat, bits: nat): (c: nat)
    ensures c < Pow2(bits)
  {
    if bits == 0 then 0 else (a % 2 + b % 2) % 2 + 2 * XorBits(a / 2, b / 2, bits - 1)
  }

  lemma Pow2Of8()
    ensures Pow2(8) == 256
  {
    assert Pow2(4) == 16;
    assert Pow2(6) == 64;
  }

  function Xor(a: Byte, b: Byte): (c: Byte) {
    Pow2Of8();
    XorBits(a, b, 8)
  }

  function XorBit(x: nat, y: nat): (z: nat)
    requires x < 2 && y < 2
    ensures z < 2
  {
    if x == y then 0 else 1
  }

  /** Binary digit `k` of a number. */
  function Digit(n: nat, k: nat): nat {
    if k == 0 then n % 2 else Digit(n / 2, k - 1)
  }

  /** Exclusive or, digit by digit: one if and only if the digits differ. */
  lemma {:induction false} XorExact(a: nat, b: nat, bits: nat, k: nat)
    requires k < bits
    ensures Digit(XorBits(a, b, bits), k) == if Digit(a, k) == Digit(b, k) then 0 else 1
  {
    var c := XorBits(a, b, bits);
    assert c / 2 == XorBits(a / 2, b / 2, bits - 1) && c % 2 == (a % 2 + b % 2) % 2;
    if k > 0 { XorExact(a / 2, b / 2, bits - 1, k - 1); }
  }

  lemma XorDigit(a: nat, x: nat, b: nat, y: nat, bits: nat)
    requires x < 2 && y < 2
    ensures XorBits(2 * a + x, 2 * b + y, bits + 1) == 2 * XorBits(a, b, bits) + XorBit(x, y)
  {
    assert (2 * a + x) / 2 == a && (2 * a + x) % 2 == x;
    assert (2 * b + y) / 2 == b && (2 * b + y) % 2 == y;
  }

  lemma {:induction false} XorBitsTwice(a: nat, b: nat, bits: nat)
    requires a < Pow2(bits)
    ensures XorBits(XorBits(a, b, bits), b, bits) == a
  {
    hide XorBits;
    if bits == 0 {
      NoDigits(XorBits(a, b, bits), b);
    } else {
      var a', b' := a / 2, b / 2;
      var x, y := a - 2 * a', b - 2 * b';
      XorBitsTwice(a', b', bits - 1);
      XorDigit(a', x, b', y, bits - 1);
      XorDigit(XorBits(a', b', bits - 1), XorBit(x, y), b', y, bits - 1);
    }
  }

  lemma XorTwice(a: Byte, b: Byte)
    ensures Xor(Xor(a, b), b) == a
  {
    Pow2Of8();
    XorBitsTwice(a, b, 8);
  }

  /** Section 5.3 of RFC 6455: octet i is combined with octet i modulo 4 of the key. */
  function Mask(data: Bytes, key: Key): (r: Bytes)
    ensures |r| == |data|
  {
    seq(|data|, i requires 0 <= i < |data| => Xor(data[i], key[i % 4]))
  }

  function MaskWith(data: Bytes, key: Option<Key>): (r: Bytes)
    ensures |r| == |data|
  {
    if key.None? then data else Mask(data, key.value)
  }

  /** Masking is its own inverse. */
  lemma MaskTwice(data: Bytes, key: Key)
    ensures Mask(Mask(data, key), key) == data
  {
    forall i | 0 <= i < |data| ensures Mask(Mask(data, key), key)[i] == data[i] {
      XorTwice(data[i], key[i % 4]);
    }
  }

  /** `n` followed by `k` zero digits. */
  function Shifted(n: nat, k: nat): nat {
    if k == 0 then n else 2 * Shifted(n, k - 1)
  }

  lemma NoDigits(a: nat, b: nat)
    ensures XorBits(a, b, 0) == 0
  {
  }

  lemma XorSplitsStep(k: nat, l: nat, x: nat, hi: nat, l': nat, y: nat, hi': nat, bits: nat)
    requires x < 2 && y < 2
    requires XorBits(l + Shifted(hi, k), l' + Shifted(hi', k), k + bits)
          == XorBits(l, l', k) + Shifted(XorBits(hi, hi', bits), k)
    ensures XorBits(2 * l + x + Shifted(hi, k + 1), 2 * l' + y + Shifted(hi', k + 1), k + 1 + bits)
         == XorBits(2 * l + x, 2 * l' + y, k + 1) + Shifted(XorBits(hi, hi', bits), k + 1)
  {
    hide XorBits;
    XorDigit(l + Shifted(hi, k), x, l' + Shifted(hi', k), y, k + bits);
    XorDigit(l, x, l', y, k);
  }

  /** The lowest `k` digits and the rest are combined independently. */
  lemma {:induction false} XorSplits(k: nat, lo: nat, hi: nat, lo': nat, hi': nat, bits: nat)
    requires lo < Pow2(k) && lo' < Pow2(k)
    ensures XorBits(lo + Shifted(hi, k), lo' + Shifted(hi', k), k + bits)
         == XorBits(lo, lo', k) + Shifted(XorBits(hi, hi', bits), k)
  {
    hide XorBits;
    if k == 0 {
      NoDigits(lo, lo');
    } else {
      var l, l' := lo / 2, lo' / 2;
      XorSplits(k - 1, l, hi, l', hi', bits);
      XorSplitsStep(k - 1, l, lo - 2 * l, hi, l', lo' - 2 * l', hi', bits);
      assert k - 1 + bits + 1 == k + bits;
    }
  }

  lemma ShiftedBy8(n: nat)
    ensures Shifted(n, 8) == 256 * n
  {
    assert Shifted(n, 1) == 2 * n;
    assert Shifted(n, 2) == 4 * n;
    assert Shifted(n, 4) == 16 * n;
    assert Shifted(n, 6) == 64 * n;
  }

  /** Octet-wise exclusive or. */
  function XorBytes(a: Bytes, b: Bytes): (c: Bytes)
    requires |a| == |b|
    ensures |c| == |a|
  {
    seq(|a|, i requires 0 <= i < |a| => Xor(a[i], b[i]))
  }

  lemma XorBytesLast(a: Bytes, b: Bytes)
    requires |a| == |b| > 0
    ensures var n := |a| - 1;
            XorBytes(a, b)[..n] == XorBytes(a[..n], b[..n]) && XorBytes(a, b)[n] == Xor(a[n], b[n])
  {
  }

  lemma {:induction false} XorWord(a: Bytes, b: Bytes)
    requires |a| == |b|
    ensures XorBits(FromBigEndian(a), FromBigEndian(b), 8 * |a|) == FromBigEndian(XorBytes(a, b))
  {
    hide XorBits, XorBytes, Shifted;
    if a == [] {
    } else {
      var n := |a| - 1;
      XorWord(a[..n], b[..n]);
      var high, high' := FromBigEndian(a[..n]), FromBigEndian(b[..n]);
      Pow2Of8();
      XorSplits(8, a[n], high, b[n], high', 8 * n);
      ShiftedBy8(high);
      ShiftedBy8(high');
      ShiftedBy8(XorBits(high, high', 8 * n));
      XorBytesLast(a, b);
    }
  }

  /** A word's octets in the target's byte order, which may be either. */
  function Native(s: Bytes, big: bool): (r: Bytes)
    requires |s| == 4
    ensures |r| == 4
  {
    if big then s else [s[3], s[2], s[1], s[0]]
  }

  /** One word of `apply_mask`: load, exclusive or, store. */
  function MaskWord(s: Bytes, key: Key, big: bool): (r: Bytes)
    requires |s| == 4
    ensures |r| == 4
  {
    var word := XorBits(FromBigEndian(Native(s, big)), FromBigEndian(Native(key, big)), 32);
    Native(BigEndian(word, 4), big)
  }

  lemma MaskWordBytes(s: Bytes, key: Key, big: bool)
    requires |s| == 4
    ensures MaskWord(s, key, big) == XorBytes(s, key)
  {
    var x := XorBytes(Native(s, big), Native(key, big));
    XorWord(Native(s, big), Native(key, big));
    BigEndianEncodes(x);
    assert Native(x, big) == XorBytes(s, key);
  }

  lemma MaskAt(data: Bytes, key: Key, i: nat, j: nat)
    requires i % 4 == 0 && j < 4 && i + j < |data|
    ensures Mask(data, key)[i + j] == Xor(data[i + j], key[j])
  {
  }

  lemma MaskGroup(data: Bytes, key: Key, i: nat, big: bool)
    requires i % 4 == 0 && i + 4 <= |data|
    ensures MaskWord(data[i..i + 4], key, big) == Mask(data, key)[i..i + 4]
  {
    hide Xor, Mask, MaskWord;
    MaskWordBytes(data[i..i + 4], key, big);
    forall j | 0 <= j < 4 ensures Mask(data, key)[i + j] == Xor(data[i + j], key[j]) {
      MaskAt(data, key, i, j);
    }
  }

  /** `apply_mask`: four octets per round, then the remaining ones. */
  method ApplyMask(data: array<Byte>, key: Key, big: bool)
    modifies data
    ensures data[..] == Mask(old(data[..]), key)
  {
    hide Xor, Mask, MaskWord;
    ghost var before := data[..];
    ghost var after := Mask(before, key);
    var i := 0;
    while i + 4 <= data.Length
      invariant 0 <= i <= data.Length && i % 4 == 0
      invariant forall k | 0 <= k < i :: data[k] == after[k]
      invariant forall k | i <= k < data.Length :: data[k] == before[k]
    {
      var word := MaskWord(data[i..i + 4], key, big);
      assert data[i..i + 4] == before[i..i + 4];
      MaskGroup(before, key, i, big);
      assert word[0] == after[i..i + 4][0] && word[1] == after[i..i + 4][1];
      assert word[2] == after[i..i + 4][2] && word[3] == after[i..i + 4][3];
      data[i], data[i + 1], data[i + 2], data[i + 3] := word[0], word[1], word[2], word[3];
      i := i + 4;
    }
    var tail := i;
    while i < data.Length
      invariant tail <= i <= data.Length < tail + 4
      invariant forall k | 0 <= k < i :: data[k] == after[k]
      invariant forall k | i <= k < data.Length :: data[k] == before[k]
    {
      MaskAt(before, key, tail, i - tail);
      data[i] := Xor(data[i], key[i - tail]);
      i := i + 1;
    }
    assert data[..] == after;
  }

  // ----- Encoding -----

  /** One frame: its header fields and its unmasked payload. */
  datatype Frame = Frame(fin: bool, op: Nibble, key: Option<Key>, payload: Bytes)

  /** The shortest of the three length forms of section 5.2 of RFC 6455. */
  function LengthBytes(len: nat, masked: bool): (s: Bytes)
    ensures s != []
  {
    var bit := if masked then 0x80 else 0;
    if len <= 125 then [bit + len]
    else if len <= 0xFFFF then [bit + 126] + BigEndian(len, 2)
    else [bit + 127] + BigEndian(len, 8)
  }

  function Header(f: Frame): (s: Bytes) {
    [(if f.fin then 0x80 else 0) + f.op]
    + LengthBytes(|f.payload|, f.key.Some?)
    + (if f.key.Some? then f.key.value else [])
  }

  function Encode(f: Frame): (s: Bytes) {
    Header(f) + MaskWith(f.payload, f.key)
  }

  function EncodedLen(len: nat, masked: bool): nat {
    len + 2 + (if len <= 125 then 0 else if len <= 0xFFFF then 2 else 8) + (if masked then 4 else 0)
  }

  lemma EncodedLength(f: Frame)
    ensures |Encode(f)| == EncodedLen(|f.payload|, f.key.Some?)
  {
  }

  lemma LengthIs(len: nat, masked: bool)
    ensures var bit := if masked then 0x80 else 0;
            LengthBytes(len, masked)
            == if len <= 125 then [bit + len]
               else if len <= 0xFFFF then [bit + 126] + BigEndian(len, 2)
               else [bit + 127] + BigEndian(len, 8)
  {
  }

  /** Masks the end of a buffer in place. */
  method MaskFrom(s: Bytes, start: nat, key: Key, big: bool) returns (r: Bytes)
    requires start <= |s|
    ensures r == s[..start] + Mask(s[start..], key)
  {
    hide Mask;
    var slice := new Byte[|s| - start](i requires 0 <= i < |s| - start => s[start + i]);
    assert slice[..] == s[start..];
    ApplyMask(slice, key, big);
    r := s[..start] + slice[..];
  }

  /** Appends one final frame; only its own payload is masked. */
  method EncodeInto(out: Bytes, op: Nibble, payload: Bytes, key: Option<Key>, big: bool) returns (r: Bytes)
    ensures r == out + Encode(Frame(true, op, key, payload))
  {
    hide Mask, BigEndian, LengthBytes;
    ghost var f := Frame(true, op, key, payload);
    var len := |payload|;
    LengthIs(len, key.Some?);
    r := out + [0x80 + op];
    var bit := if key.Some? then 0x80 else 0;
    if len <= 125 {
      r := r + [bit + len];
    } else if len <= 0xFFFF {
      r := r + ([bit + 126] + BigEndian(len, 2));
    } else {
      r := r + ([bit + 127] + BigEndian(len, 8));
    }
    assert r == out + [0x80 + op] + LengthBytes(len, key.Some?);
    if key.Some? {
      r := r + key.value;
    }
    HeaderIs(out, f, r);
    var start := |r|;
    r := r + payload;
    if key.Some? {
      assert r[..start] == out + Header(f) && r[start..] == payload;
      r := MaskFrom(r, start, key.value, big);
    }
    EncodedIs(out, f, r);
  }

  lemma HeaderIs(out: Bytes, f: Frame, r: Bytes)
    requires f.fin
    requires r == out + [0x80 + f.op] + LengthBytes(|f.payload|, f.key.Some?) + (if f.key.Some? then f.key.value else [])
    ensures r == out + Header(f)
  {
    hide LengthBytes;
  }

  lemma EncodedIs(out: Bytes, f: Frame, r: Bytes)
    requires r == out + Header(f) + MaskWith(f.payload, f.key)
    ensures r == out + Encode(f)
  {
    hide Header, MaskWith;
  }

  // ----- The examples of section 5.7 of RFC 6455 -----

  lemma OpcodesAre(op: Nibble)
    ensures Opcode(op) <==> op in {0, 1, 2, 8, 9, 10}
  {
  }

  const HELLO: Bytes := [0x48, 0x65, 0x6c, 0x6c, 0x6f]

  lemma ShortEncoding(f: Frame)
    requires |f.payload| == 5
    ensures Encode(f) == [(if f.fin then 128 else 0) + f.op, if f.key.None? then 5 else 133]
                         + (if f.key.None? then f.payload else f.key.value + Mask(f.payload, f.key.value))
  {
    hide Mask;
  }

  lemma HelloFrames(key: Key)
    ensures Encode(Frame(true, TEXT, None, HELLO)) == [0x81, 0x05, 0x48, 0x65, 0x6c, 0x6c, 0x6f]
    ensures Encode(Frame(true, TEXT, Some(key), HELLO)) == [0x81, 0x85] + key + Mask(HELLO, key)
    ensures Encode(Frame(true, PING, None, HELLO)) == [0x89, 0x05, 0x48, 0x65, 0x6c, 0x6c, 0x6f]
    ensures Encode(Frame(true, PONG, Some(key), HELLO)) == [0x8a, 0x85] + key + Mask(HELLO, key)
  {
    hide Encode, Mask;
    ShortEncoding(Frame(true, TEXT, None, HELLO));
    ShortEncoding(Frame(true, TEXT, Some(key), HELLO));
    ShortEncoding(Frame(true, PING, None, HELLO));
    ShortEncoding(Frame(true, PONG, Some(key), HELLO));
  }

  /** "Hel" and "lo" in two fragments. */
  lemma HelloFragments()
    ensures Encode(Frame(false, TEXT, None, [0x48, 0x65, 0x6c])) == [0x01, 0x03, 0x48, 0x65, 0x6c]
    ensures Encode(Frame(true, CONTINUATION, None, [0x6c, 0x6f])) == [0x80, 0x02, 0x6c, 0x6f]
  {
  }

  lemma {:induction false} Zeros(k: nat)
    ensures BigEndian(0, k) == seq(k, _ => 0)
  {
    if k > 0 {
      Zeros(k - 1);
    }
  }

  lemma LengthExamples()
    ensures BigEndian(256, 2) == [0x01, 0x00]
    ensures BigEndian(65536, 8) == [0x00, 0x00, 0x00, 0x00, 0x00, 0x01, 0x00, 0x00]
  {
    Zeros(5);
    assert BigEndian(1, 6) == BigEndian(0, 5) + [1];
    assert BigEndian(256, 7) == BigEndian(1, 6) + [0];
    assert BigEndian(65536, 8) == BigEndian(256, 7) + [0];
  }

  /** 256 octets and 64 KiB of binary data in one frame. */
  lemma BinaryFrames(data: Bytes)
    ensures |data| == 256 ==> Encode(Frame(true, BINARY, None, data)) == [0x82, 0x7e, 0x01, 0x00] + data
    ensures |data| == 65536
            ==> Encode(Frame(true, BINARY, None, data)) == [0x82, 0x7f, 0x00, 0x00, 0x00, 0x00, 0x00, 0x01, 0x00, 0x00] + data
  {
    hide BigEndian;
    LengthExamples();
  }

  // ----- Close payloads -----

  function ClosePayload(code: nat, reason: Bytes): Bytes
    requires code < 0x10000
  {
    BigEndian(code, 2) + reason
  }

  predicate ValidCloseCode(code: nat) {
    1000 <= code <= 1003 || 1007 <= code <= 1014 || 3000 <= code <= 4999
  }

  /** Section 7.4 of RFC 6455: below 1000 and above 4999, reserved numbers, and those that never go on the wire. */
  lemma CloseCodesAre(code: nat)
    ensures ValidCloseCode(code) <==> !(code < 1000 || code in {1004, 1005, 1006, 1015} || 1016 <= code < 3000 || code > 4999)
  {
  }

  /** The code's two octets come first. */
  lemma ClosePayloadIs(code: nat, reason: Bytes)
    requires code < 0x10000
    ensures ClosePayload(code, reason) == [code / 256, code % 256] + reason
  {
    assert BigEndian(code / 256, 1) == [] + [code / 256 % 256];
  }
}
