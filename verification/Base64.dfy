/** Strict base64 (sections 3.5 and 4 of RFC 4648), as used by the opening handshake. */
module Base64 {
  import opened Basics

  const PAD: Byte := 61

  type Sextet = v: int | 0 <= v < 64

  /** The alphabet, by code point: capital letters, small letters, digits, plus and slash. */
  function Letter(v: Sextet): (b: Byte)
    ensures b != PAD
  {
    if v < 26 then 65 + v else if v < 52 then 71 + v else if v < 62 then v - 4 else if v == 62 then 43 else 47
  }

  function Value(b: Byte): (v: Option<Sextet>)
    ensures v.Some? ==> Letter(v.value) == b
    ensures v.None? ==> forall w: Sextet :: Letter(w) != b
  {
    if 65 <= b <= 90 then Some(b - 65)
    else if 97 <= b <= 122 then Some(b - 71)
    else if 48 <= b <= 57 then Some(b + 4)
    else if b == 43 then Some(62)
    else if b == 47 then Some(63)
    else None
  }

  lemma ValueOfLetter(v: Sextet)
    ensures Value(Letter(v)) == Some(v)
  {
  }

  predicate Letters(s: Bytes) {
    forall i | 0 <= i < |s| :: Value(s[i]).Some?
  }

  /** The number a run of letters denotes. */
  function Number(s: Bytes): (n: nat)
    requires Letters(s)
  {
    if s == [] then 0 else Number(s[..|s| - 1]) * 64 + Value(s[|s| - 1]).value
  }

  /** Three octets as one number. */
  function Joined(a: int, b: int, c: int): int {
    a * 65536 + b * 256 + c
  }

  /** Four characters for one to three octets. */
  function Quad(x: Bytes): (s: Bytes)
    requires 1 <= |x| <= 3
    ensures |s| == 4
  {
    var n := Joined(x[0], if |x| > 1 then x[1] else 0, if |x| > 2 then x[2] else 0);
    [Letter(n / 262144 % 64), Letter(n / 4096 % 64),
     if |x| >= 2 then Letter(n / 64 % 64) else PAD,
     if |x| >= 3 then Letter(n % 64) else PAD]
  }

  function Encode(x: Bytes): (s: Bytes) {
    if |x| <= 3 then if x == [] then [] else Quad(x)
    else Quad(x[..3]) + Encode(x[3..])
  }

  function Three(n: nat): (x: Bytes) {
    [n / 65536 % 256, n / 256 % 256, n % 256]
  }

  /** A final group with padding, whose unused bits must be zero. */
  function Padded(s: Bytes): (x: Option<Bytes>)
    requires |s| == 4
  {
    if !Letters(s[..2]) || s[3] != PAD then None
    else if s[2] == PAD then
      var n := Number(s[..2]);
      if n % 16 != 0 then None else Some([n / 16 % 256])
    else if Letters(s[..3]) then
      var n := Number(s[..3]);
      if n % 4 != 0 then None else Some([n / 1024 % 256, n / 4 % 256])
    else None
  }

  function Prepend(x: Bytes, y: Option<Bytes>): Option<Bytes> {
    if y.Some? then Some(x + y.value) else None
  }

  function Decode(s: Bytes): (x: Option<Bytes>) {
    if s == [] then Some([])
    else if |s| < 4 then None
    else if Letters(s[..4]) then Prepend(Three(Number(s[..4])), Decode(s[4..]))
    else if |s| == 4 then Padded(s)
    else None
  }

  // ----- One group -----

  lemma NumberOf(s: Bytes)
    requires Letters(s)
    ensures |s| == 2 ==> Number(s) == Value(s[0]).value * 64 + Value(s[1]).value
    ensures |s| == 3 ==> Number(s) == Value(s[0]).value * 4096 + Value(s[1]).value * 64 + Value(s[2]).value
    ensures |s| == 4 ==> Number(s) == Value(s[0]).value * 262144 + Value(s[1]).value * 4096
                                      + Value(s[2]).value * 64 + Value(s[3]).value
  {
    hide Value;
    if 2 <= |s| <= 4 {
      assert forall i, j | 0 <= i <= j <= |s| :: s[..j][..i] == s[..i];
      assert s[..0] == [];
      assert Number(s[..1]) == Value(s[0]).value;
      assert Number(s[..2]) == Number(s[..1]) * 64 + Value(s[1]).value by { assert s[..2][..1] == s[..1]; }
      if |s| >= 3 {
        assert Number(s[..3]) == Number(s[..2]) * 64 + Value(s[2]).value by { assert s[..3][..2] == s[..2]; }
      }
      assert s[..|s|] == s;
    }
  }

  lemma Quotient(n: nat, d: nat, q: nat, r: nat)
    requires n == q * d + r && r < d
    ensures n / d == q && n % d == r
  {
    var k := n / d - q;
    assert k * d == r - n % d by { assert n == n / d * d + n % d; }
    var size: int := d;
    assert k >= 1 ==> k * size >= size;
    assert k <= -1 ==> k * size <= -size;
  }

  lemma Digits64(a: Sextet, b: Sextet, c: Sextet, d: Sextet)
    ensures var n := a * 262144 + b * 4096 + c * 64 + d;
            n / 262144 % 64 == a && n / 4096 % 64 == b && n / 64 % 64 == c && n % 64 == d
  {
    var n := a * 262144 + b * 4096 + c * 64 + d;
    Quotient(n, 64, a * 4096 + b * 64 + c, d);
    Quotient(n, 4096, a * 64 + b, c * 64 + d);
    Quotient(n, 262144, a, b * 4096 + c * 64 + d);
    Quotient(a * 4096 + b * 64 + c, 64, a * 64 + b, c);
    Quotient(a * 64 + b, 64, a, b);
    Quotient(a, 64, 0, a);
  }

  /** Every number of 24 bits has four digits of six. */
  lemma Sextets(n: nat) returns (a: Sextet, b: Sextet, c: Sextet, d: Sextet)
    requires n < 0x100_0000
    ensures n == a * 262144 + b * 4096 + c * 64 + d
  {
    var q := n / 64;
    var p := q / 64;
    a, b, c, d := p / 64, p % 64, q % 64, n % 64;
  }

  lemma Octets(a: Byte, b: Byte, c: Byte)
    ensures var n := Joined(a, b, c);
            n / 65536 % 256 == a && n / 256 % 256 == b && n % 256 == c
  {
    var n := Joined(a, b, c);
    var high: int := a as int * 256 + b as int;
    Quotient(n, 65536, a, b as int * 256 + c as int);
    Quotient(n, 256, high, c);
    Quotient(high, 256, a, b);
    Quotient(a, 256, 0, a);
  }

  /** A group's characters are the digits of its number. */
  lemma QuadIs(x: Bytes, a: Sextet, b: Sextet, c: Sextet, d: Sextet)
    requires 1 <= |x| <= 3
    requires Joined(x[0], if |x| > 1 then x[1] else 0, if |x| > 2 then x[2] else 0)
          == a * 262144 + b * 4096 + c * 64 + d
    ensures Quad(x) == [Letter(a), Letter(b), if |x| >= 2 then Letter(c) else PAD, if |x| >= 3 then Letter(d) else PAD]
  {
    hide Letter;
    Digits64(a, b, c, d);
  }

  lemma LettersDenote(a: Sextet, b: Sextet, c: Sextet, d: Sextet)
    ensures var s := [Letter(a), Letter(b), Letter(c), Letter(d)];
            && Letters(s) && Letters(s[..3]) && Letters(s[..2])
            && Number(s) == a * 262144 + b * 4096 + c * 64 + d
            && Number(s[..3]) == a * 4096 + b * 64 + c
            && Number(s[..2]) == a * 64 + b
  {
    hide Letter, Value, Number;
    ValueOfLetter(a);
    ValueOfLetter(b);
    ValueOfLetter(c);
    ValueOfLetter(d);
    var s := [Letter(a), Letter(b), Letter(c), Letter(d)];
    NumberOf(s);
    NumberOf(s[..3]);
    NumberOf(s[..2]);
  }

  lemma PadIsNoLetter()
    ensures Value(PAD).None?
  {
  }

  lemma ThreeDecodes(x: Bytes)
    requires |x| == 3
    ensures Letters(Quad(x)) && Three(Number(Quad(x))) == x
  {
    hide Letter, Value, Number, Letters, Quad, Joined;
    var n := Joined(x[0], x[1], x[2]);
    Octets(x[0], x[1], x[2]);
    JoinedBound(x[0], x[1], x[2]);
    var a, b, c, d := Sextets(n);
    QuadIs(x, a, b, c, d);
    LettersDenote(a, b, c, d);
  }

  lemma JoinedBound(a: Byte, b: Byte, c: Byte)
    ensures 0 <= Joined(a, b, c) < 0x100_0000
  {
  }

  lemma TwoDigits(x: Byte, y: Byte) returns (a: Sextet, b: Sextet, c: Sextet)
    ensures Joined(x, y, 0) == a * 262144 + b * 4096 + c * 64
    ensures var m := a * 4096 + b * 64 + c;
            m % 4 == 0 && m / 1024 % 256 == x && m / 4 % 256 == y
  {
    var d: Sextet;
    a, b, c, d := Sextets(Joined(x, y, 0));
    var m := a * 4096 + b * 64 + c;
    var w: int := x as int * 256 + y as int;
    assert m == w * 4;
    Quotient(m, 1024, x, y as int * 4);
    Quotient(m, 4, w, 0);
    Quotient(w, 256, x, y);
    Quotient(x, 256, 0, x);
  }

  lemma TwoDecodes(x: Bytes)
    requires |x| == 2
    ensures !Letters(Quad(x)) && Padded(Quad(x)) == Some(x)
  {
    hide Letter, Value, Number, Quad, Letters, Joined;
    var a, b, c := TwoDigits(x[0], x[1]);
    QuadIs(x, a, b, c, 0);
    LettersDenote(a, b, c, 0);
    var s, full := Quad(x), [Letter(a), Letter(b), Letter(c), Letter(0)];
    assert s[..3] == full[..3] && s[..2] == full[..2];
    PadEnds(s);
    LetterIsNoPad(c);
    var m := Number(s[..3]);
    assert x == [m / 1024 % 256, m / 4 % 256];
  }

  lemma PadEnds(s: Bytes)
    requires |s| == 4 && s[3] == PAD
    ensures !Letters(s)
  {
    assert Value(s[3]).None?;
  }

  lemma LetterIsNoPad(v: Sextet)
    ensures Letter(v) != PAD
  {
  }

  lemma OneDigits(x: Byte) returns (a: Sextet, b: Sextet)
    ensures Joined(x, 0, 0) == a * 262144 + b * 4096
    ensures var m := a * 64 + b;
            m % 16 == 0 && m / 16 % 256 == x
  {
    var m: int := x as int * 16;
    a, b := m / 64, m % 64;
    Quotient(m, 16, x, 0);
    Quotient(x, 256, 0, x);
  }

  lemma OneDecodes(x: Bytes)
    requires |x| == 1
    ensures !Letters(Quad(x)) && Padded(Quad(x)) == Some(x)
  {
    hide Letter, Value, Number, Quad, Letters, Joined;
    var a, b := OneDigits(x[0]);
    QuadIs(x, a, b, 0, 0);
    LettersDenote(a, b, 0, 0);
    var s, full := Quad(x), [Letter(a), Letter(b), Letter(0), Letter(0)];
    assert s[..2] == full[..2];
    PadEnds(s);
    assert x == [Number(s[..2]) / 16 % 256];
  }

  lemma QuadDecodes(x: Bytes)
    requires 1 <= |x| <= 3
    ensures |x| == 3 ==> Letters(Quad(x)) && Three(Number(Quad(x))) == x
    ensures |x| < 3 ==> !Letters(Quad(x)) && Padded(Quad(x)) == Some(x)
  {
    hide Quad, Letters, Padded, Three, Number;
    if |x| == 3 {
      ThreeDecodes(x);
    } else if |x| == 2 {
      TwoDecodes(x);
    } else {
      OneDecodes(x);
    }
  }

  lemma GroupEncodes(s: Bytes)
    requires |s| == 4 && Letters(s)
    ensures |Three(Number(s))| == 3 && Quad(Three(Number(s))) == s
  {
    hide Letter, Number, Quad;
    NumberOf(s);
    var a, b, c, d := Value(s[0]).value, Value(s[1]).value, Value(s[2]).value, Value(s[3]).value;
    Regroups(Number(s));
    QuadIs(Three(Number(s)), a, b, c, d);
  }

  lemma Regroups(n: nat)
    requires n < 0x100_0000
    ensures Joined(n / 65536 % 256, n / 256 % 256, n % 256) == n
  {
    var q, r := n / 256, n % 256;
    var p, m := q / 256, q % 256;
    Quotient(n, 65536, p, m * 256 + r);
    Quotient(p, 256, 0, p);
  }

  lemma PaddedEncodes(s: Bytes)
    requires |s| == 4 && Padded(s).Some?
    ensures 1 <= |Padded(s).value| <= 2 && Quad(Padded(s).value) == s
  {
    hide Letter, Number, Quad, Joined, Value;
    if s[2] == PAD {
      OnePadded(s, Number(s[..2]));
    } else {
      TwoPadded(s, Number(s[..3]));
    }
  }

  lemma OnePadded(s: Bytes, n: nat)
    requires |s| == 4 && s[2] == PAD && s[3] == PAD && Letters(s[..2]) && n == Number(s[..2]) && n % 16 == 0
    ensures Quad([n / 16 % 256]) == s
  {
    hide Letter, Number, Quad, Joined, Value;
    var a, b := Value(s[0]).value, Value(s[1]).value;
    NumberOf(s[..2]);
    OneJoined(n);
    QuadIs([n / 16 % 256], a, b, 0, 0);
    assert s == [s[0], s[1], PAD, PAD];
  }

  lemma OneJoined(n: nat)
    requires n % 16 == 0 && n < 4096
    ensures Joined(n / 16 % 256, 0, 0) == n * 4096
  {
    var q := n / 16;
    Quotient(q, 256, 0, q);
  }

  lemma TwoPadded(s: Bytes, n: nat)
    requires |s| == 4 && s[3] == PAD && Letters(s[..3]) && n == Number(s[..3]) && n % 4 == 0
    ensures Quad([n / 1024 % 256, n / 4 % 256]) == s
  {
    hide Letter, Number, Quad, Joined, Value;
    var a, b, c := Value(s[0]).value, Value(s[1]).value, Value(s[2]).value;
    NumberOf(s[..3]);
    TwoJoined(n);
    QuadIs([n / 1024 % 256, n / 4 % 256], a, b, c, 0);
    assert s == [s[0], s[1], s[2], PAD];
  }

  lemma TwoJoined(n: nat)
    requires n % 4 == 0 && n < 262144
    ensures Joined(n / 1024 % 256, n / 4 % 256, 0) == n * 64
  {
    var k := n / 4;
    var p, r := k / 256, k % 256;
    Quotient(n, 1024, p, r * 4);
    Quotient(p, 256, 0, p);
  }

  // ----- Whole strings -----

  /** Decoding undoes encoding, for every octet string. */
  lemma {:induction false} DecodeEncode(x: Bytes)
    ensures Decode(Encode(x)) == Some(x)
  {
    hide Quad, Padded, Three, Letters;
    if x == [] {
    } else {
      var k := if |x| <= 3 then |x| else 3;
      var head, tail := x[..k], Encode(x[k..]);
      assert |x| <= 3 ==> head == x && tail == [];
      QuadDecodes(head);
      assert Encode(x) == Quad(head) + tail;
      assert (Quad(head) + tail)[..4] == Quad(head) && (Quad(head) + tail)[4..] == tail;
      DecodeEncode(x[k..]);
      assert x == head + x[k..];
    }
  }

  /** Only canonical strings are accepted: what decodes is the encoding of its value. */
  lemma {:induction false} EncodeDecode(s: Bytes)
    requires Decode(s).Some?
    ensures Encode(Decode(s).value) == s
  {
    hide Quad, Padded, Number, Letters;
    if s == [] {
    } else {
      var x := Decode(s).value;
      if Letters(s[..4]) {
        GroupEncodes(s[..4]);
        EncodeDecode(s[4..]);
        var head, tail := Three(Number(s[..4])), Decode(s[4..]).value;
        assert x[..3] == head && x[3..] == tail;
        assert s == s[..4] + s[4..];
        assert |x| == 3 ==> tail == [] && x == head;
      } else {
        PaddedEncodes(s);
      }
    }
  }

  lemma {:induction false} EncodedSize(x: Bytes)
    ensures |Encode(x)| == (|x| + 2) / 3 * 4
  {
    hide Quad;
    if |x| > 3 {
      EncodedSize(x[3..]);
    }
  }

  // ----- The loops -----

  method EncodeLoop(x: Bytes) returns (s: Bytes)
    ensures s == Encode(x)
  {
    hide Quad;
    s := [];
    var i := 0;
    while i < |x|
      invariant 0 <= i <= |x| && s + Encode(x[i..]) == Encode(x)
    {
      var end := if i + 3 <= |x| then i + 3 else |x|;
      var chunk := x[i..end];
      assert x[i..][..|chunk|] == chunk && x[i..][|chunk|..] == x[end..];
      assert |x[i..]| <= 3 ==> x[i..] == chunk && x[end..] == [];
      s := s + Quad(chunk);
      i := end;
    }
  }

  /** How many padding characters a string ends with. */
  method CountPadding(s: Bytes) returns (pad: nat)
    ensures pad <= |s| && Ending(s, pad)
  {
    pad := 0;
    while pad < |s| && s[|s| - 1 - pad] == PAD
      invariant 0 <= pad <= |s|
      invariant forall i | |s| - pad <= i < |s| :: s[i] == PAD
    {
      pad := pad + 1;
    }
  }

  predicate Ending(s: Bytes, pad: nat)
    requires pad <= |s|
  {
    && (forall i | |s| - pad <= i < |s| :: s[i] == PAD)
    && (pad < |s| ==> s[|s| - 1 - pad] != PAD)
  }

  method DecodeLoop(s: Bytes) returns (x: Option<Bytes>)
    ensures x == Decode(s)
  {
    hide Value, Decode, Three, Letters, Number, Ending;
    if |s| % 4 != 0 {
      OddLength(s);
      return None;
    }
    var pad := CountPadding(s);
    if pad > 2 {
      TooMuchPadding(s, pad);
      return None;
    }
    var out: Bytes := [];
    var n: nat := 0;
    var i := 0;
    ghost var at: nat := 0;
    NoLetters(s[0..0]);
    assert s[0..] == s && (Decode(s).Some? ==> [] + Decode(s).value == Decode(s).value);
    while i < |s| - pad
      invariant at <= i <= |s| - pad && i < at + 4 && at % 4 == 0
      invariant Letters(s[at..i]) && n == Number(s[at..i])
      invariant Decode(s) == Prepend(out, Decode(s[at..]))
    {
      WholeGroup(|s|, at, i);
      var v := Value(s[i]);
      if v.None? {
        BadLetter(s, at, i, pad);
        return None;
      }
      assert s[at..i + 1] == s[at..i] + [s[i]];
      NumberAppend(s[at..i], s[i]);
      n := n * 64 + v.value;
      if i % 4 == 3 {
        GroupDecodes(s, at, out);
        out := out + Three(n);
        n := 0;
        at := at + 4;
        NoLetters(s[at..i + 1]);
      }
      i := i + 1;
    }
    if pad > 0 { WholeGroup(|s|, at, i); } else { AtEnd(|s|, at, i); }
    LastGroup(s, pad, at, i, out);
    assert out + [] == out;
    if pad == 1 {
      if n % 4 != 0 {
        return None;
      }
      out := out + [n / 1024 % 256, n / 4 % 256];
    } else if pad == 2 {
      if n % 16 != 0 {
        return None;
      }
      out := out + [n / 16 % 256];
    }
    x := Some(out);
  }

  lemma WholeGroup(size: nat, at: nat, i: nat)
    requires size % 4 == 0 && at % 4 == 0 && at <= i < size && i < at + 4
    ensures at + 4 <= size && i % 4 == i - at
  {
  }

  lemma AtEnd(size: nat, at: nat, i: nat)
    requires size % 4 == 0 && at % 4 == 0 && at <= i == size < at + 4
    ensures at == size
  {
  }

  lemma NumberAppend(s: Bytes, b: Byte)
    requires Letters(s) && Value(b).Some?
    ensures Letters(s + [b]) && Number(s + [b]) == Number(s) * 64 + Value(b).value
  {
    hide Value;
    assert (s + [b])[..|s|] == s;
  }

  lemma NoLetters(s: Bytes)
    requires s == []
    ensures Letters(s) && Number(s) == 0
  {
  }

  lemma GroupDecodes(s: Bytes, start: nat, out: Bytes)
    requires start + 4 <= |s| && Letters(s[start..start + 4])
    ensures Prepend(out, Decode(s[start..]))
         == Prepend(out + Three(Number(s[start..start + 4])), Decode(s[start + 4..]))
  {
    hide Letters, Number, Three;
    assert s[start..][..4] == s[start..start + 4] && s[start..][4..] == s[start + 4..];
    var tail := Decode(s[start + 4..]);
    assert tail.Some? ==> out + (Three(Number(s[start..start + 4])) + tail.value)
                          == out + Three(Number(s[start..start + 4])) + tail.value;
  }

  lemma {:induction false} OddLength(s: Bytes)
    requires |s| % 4 != 0
    ensures Decode(s).None?
  {
    hide Value, Number, Letters, Padded, Three;
    if |s| <= 4 {
    } else {
      assert |s[4..]| % 4 != 0;
      OddLength(s[4..]);
    }
  }

  lemma FoursBound(size: nat)
    requires size % 4 == 0 && size > 2
    ensures size == 4 || (size > 4 && (size - 4) % 4 == 0 && size >= 8)
  {
  }

  lemma {:induction false} TooMuchPadding(s: Bytes, pad: nat)
    requires |s| % 4 == 0 && 2 < pad <= |s| && Ending(s, pad)
    ensures Decode(s).None?
  {
    hide Value, Number;
    PadIsNoLetter();
    FoursBound(|s|);
    if |s| > 4 && pad <= |s| - 4 {
      TooMuchPadding(s[4..], pad);
    } else if |s| > 4 {
      assert s[..4][3] == s[3] == PAD;
    } else {
      assert s[..4][1] == s[..2][1] == s[1] == PAD;
    }
  }

  lemma BadLetter(s: Bytes, at: nat, i: nat, pad: nat)
    requires at + 4 <= |s| && pad <= 2 && at <= i < at + 4 && i < |s| - pad
    requires Ending(s, pad) && Value(s[i]).None?
    ensures Decode(s[at..]).None?
  {
    hide Value, Number;
    var t := s[at..];
    assert t[..4][i - at] == s[i];
    if |t| == 4 && Letters(t[..2]) {
      assert t[..2][0] == t[0] && t[..2][1] == t[1];
      assert t[2] == s[|s| - 2] && t[3] == s[|s| - 1];
    }
  }

  /** The value of a group that `pad` pad characters end. */
  function Rest(n: nat, pad: nat): Option<Bytes> {
    if pad == 0 then Some([])
    else if pad == 1 then if n % 4 != 0 then None else Some([n / 1024 % 256, n / 4 % 256])
    else if n % 16 != 0 then None else Some([n / 16 % 256])
  }

  lemma RestIs(g: Bytes, pad: nat)
    requires 1 <= pad <= 2 && |g| == 4 && Letters(g[..4 - pad]) && g[3] == PAD && (pad == 2 ==> g[2] == PAD)
    ensures Decode(g) == Rest(Number(g[..4 - pad]), pad)
  {
    hide Value, Number;
    PadIsNoLetter();
    assert g[..4] == g && g[..4][3] == PAD;
    if pad == 1 {
      assert g[..3][2] == g[2] && g[..2] == g[..3][..2];
      PadIsNoLetter();
    }
  }

  /** What is left behind the last full group decides with its padding. */
  lemma LastGroup(s: Bytes, pad: nat, at: nat, i: nat, out: Bytes)
    requires pad <= 2 && i == |s| - pad && |s| == at + (if pad == 0 then 0 else 4) && Ending(s, pad)
    requires Letters(s[at..i]) && Decode(s) == Prepend(out, Decode(s[at..]))
    ensures Decode(s) == Prepend(out, Rest(Number(s[at..i]), pad))
  {
    hide Number, Rest, Letters;
    var g := s[at..];
    if pad == 0 {
      EmptyGroup(g, Number(s[at..i]));
    } else {
      assert g[..4 - pad] == s[at..i] && g[3] == s[|s| - 1] && g[2] == s[|s| - 2];
      RestIs(g, pad);
    }
  }

  lemma EmptyGroup(g: Bytes, n: nat)
    requires g == []
    ensures Decode(g) == Rest(n, 0)
  {
  }
}
