/** Byte strings and the small sequence facts every module shares. */
module Basics {

  datatype Option<+T> = None | Some(value: T)

  /** One octet. Bit masks of the implementation are written as arithmetic on it. */
  type Byte = b: int | 0 <= b < 256

  type Bytes = seq<Byte>

  function Max(a: int, b: int): int {
    if a < b then b else a
  }

  /** The concatenation of a list of byte strings. */
  function Concat(parts: seq<Bytes>): Bytes {
    if parts == [] then [] else parts[0] + Concat(parts[1..])
  }

  lemma {:induction false} ConcatAppend(parts: seq<Bytes>, last: Bytes)
    ensures Concat(parts + [last]) == Concat(parts) + last
  {
    if parts == [] {
      assert parts + [last] == [last];
    } else {
      assert (parts + [last])[1..] == parts[1..] + [last];
      ConcatAppend(parts[1..], last);
    }
  }

  /** Big-endian bytes of `n` in `width` octets. */
  function BigEndian(n: nat, width: nat): (s: Bytes)
    ensures |s| == width
  {
    if width == 0 then [] else BigEndian(n / 256, width - 1) + [n % 256]
  }

  /** The number a big-endian byte string denotes. */
  function FromBigEndian(s: Bytes): (n: nat) {
    if s == [] then 0 else FromBigEndian(s[..|s| - 1]) * 256 + s[|s| - 1]
  }

  function Power256(width: nat): (p: nat)
    ensures p > 0
  {
    if width == 0 then 1 else 256 * Power256(width - 1)
  }

  lemma {:induction false} BigEndianDecodes(n: nat, width: nat)
    requires n < Power256(width)
    ensures FromBigEndian(BigEndian(n, width)) == n
  {
    if width > 0 {
      BigEndianDecodes(n / 256, width - 1);
      var s := BigEndian(n, width);
      assert s[..|s| - 1] == BigEndian(n / 256, width - 1);
    }
  }

  lemma {:induction false} BigEndianEncodes(s: Bytes)
    ensures FromBigEndian(s) < Power256(|s|)
    ensures BigEndian(FromBigEndian(s), |s|) == s
  {
    if s == [] {
    } else {
      BigEndianEncodes(s[..|s| - 1]);
      var n := FromBigEndian(s);
      assert n / 256 == FromBigEndian(s[..|s| - 1]) && n % 256 == s[|s| - 1];
    }
  }
}
