/**
  * UTF-8. `Valid` is the definition of section 3 of RFC 3629: a byte string is
  * valid when it is the encoding of some list of Unicode scalar values. `Scan`
  * is the validating scanner the reader relies on, with the error it reports:
  * how many bytes were valid, and whether the input merely stopped too early.
  */
module Utf8 {
  import opened Basics

  type Scalar = c: int | 0 <= c < 0xD800 || 0xE000 <= c < 0x110000 witness 0

  function EncodeScalar(c: Scalar): (s: Bytes)
    ensures 1 <= |s| <= 4
  {
    if c < 0x80 then [c]
    else if c < 0x800 then [0xC0 + c / 64, 0x80 + c % 64]
    else if c < 0x10000 then [0xE0 + c / 4096, 0x80 + c / 64 % 64, 0x80 + c % 64]
    else [0xF0 + c / 262144, 0x80 + c / 4096 % 64, 0x80 + c / 64 % 64, 0x80 + c % 64]
  }

  function EncodeText(cs: seq<Scalar>): Bytes {
    if cs == [] then [] else EncodeScalar(cs[0]) + EncodeText(cs[1..])
  }

  ghost predicate Valid(s: Bytes) {
    exists cs: seq<Scalar> :: s == EncodeText(cs)
  }

  /** Some continuation of `s` is valid text. */
  ghost predicate Extendable(s: Bytes) {
    exists t: Bytes :: Valid(s + t)
  }

  // ----- The scanner -----

  /** What stands at the front of a nonempty string. */
  datatype Front = Char(size: nat) | Cut | Broken

  function Width(b: Byte): (n: nat)
    ensures n <= 4
  {
    if b < 0x80 then 1
    else if 0xC2 <= b <= 0xDF then 2
    else if 0xE0 <= b <= 0xEF then 3
    else if 0xF0 <= b <= 0xF4 then 4
    else 0
  }

  predicate Tail(b: Byte) {
    0x80 <= b <= 0xBF
  }

  /** The second byte excludes overlong forms, surrogates and values past 10FFFF. */
  predicate Second(first: Byte, b: Byte) {
    if first == 0xE0 then 0xA0 <= b <= 0xBF
    else if first == 0xED then 0x80 <= b <= 0x9F
    else if first == 0xF0 then 0x90 <= b <= 0xBF
    else if first == 0xF4 then 0x80 <= b <= 0x8F
    else Tail(b)
  }

  function FrontOf(s: Bytes): (f: Front)
    requires s != []
    ensures f.Char? ==> 1 <= f.size <= |s| && f.size <= 4
  {
    var w := Width(s[0]);
    if w == 0 then Broken
    else if w == 1 then Char(1)
    else if |s| == 1 then Cut
    else if !Second(s[0], s[1]) then Broken
    else if w == 2 then Char(2)
    else if |s| == 2 then Cut
    else if !Tail(s[2]) then Broken
    else if w == 3 then Char(3)
    else if |s| == 3 then Cut
    else if !Tail(s[3]) then Broken
    else Char(4)
  }

  datatype Check = Ok | Err(validUpTo: nat, incomplete: bool)

  function Shift(c: Check, n: nat): Check {
    if c.Ok? then Ok else Err(n + c.validUpTo, c.incomplete)
  }

  function Scan(s: Bytes): (c: Check)
    ensures c.Err? ==> c.validUpTo < |s|
  {
    if s == [] then Ok
    else
      match FrontOf(s)
      case Char(n) => Shift(Scan(s[n..]), n)
      case Cut => Err(0, true)
      case Broken => Err(0, false)
  }

  // ----- The table of first and second bytes describes exactly the encodings -----

  /** The six payload bits of a continuation byte. */
  function Low(b: Byte): int {
    b - 0x80
  }

  lemma DecodeTwo(s: Bytes) returns (c: Scalar)
    requires |s| >= 2 && FrontOf(s) == Char(2)
    ensures EncodeScalar(c) == s[..2]
  {
    var lead: int := s[0];
    c := (lead - 0xC0) * 64 + Low(s[1]);
    assert c / 64 == lead - 0xC0 && c % 64 == Low(s[1]);
  }

  lemma DecodeThree(s: Bytes) returns (c: Scalar)
    requires |s| >= 3 && FrontOf(s) == Char(3)
    ensures EncodeScalar(c) == s[..3]
  {
    var lead: int := s[0];
    var high := (lead - 0xE0) * 64 + Low(s[1]);
    c := high * 64 + Low(s[2]);
    assert c / 64 == high && c % 64 == Low(s[2]);
    assert high / 64 == lead - 0xE0 && high % 64 == Low(s[1]);
    assert c / 4096 == high / 64;
  }

  lemma DecodeFour(s: Bytes) returns (c: Scalar)
    requires |s| >= 4 && FrontOf(s) == Char(4)
    ensures EncodeScalar(c) == s[..4]
  {
    var lead: int := s[0];
    var top := (lead - 0xF0) * 64 + Low(s[1]);
    var high := top * 64 + Low(s[2]);
    c := high * 64 + Low(s[3]);
    assert c / 64 == high && c % 64 == Low(s[3]);
    assert high / 64 == top && high % 64 == Low(s[2]);
    assert top / 64 == lead - 0xF0 && top % 64 == Low(s[1]);
    assert c / 4096 == top && c / 262144 == top / 64;
  }

  lemma DecodeFront(s: Bytes) returns (c: Scalar)
    requires s != [] && FrontOf(s).Char?
    ensures EncodeScalar(c) == s[..FrontOf(s).size]
  {
    var n := FrontOf(s).size;
    if n == 1 {
      c := s[0];
    } else if n == 2 {
      c := DecodeTwo(s);
    } else if n == 3 {
      c := DecodeThree(s);
    } else {
      c := DecodeFour(s);
    }
  }

  lemma FrontOfScalar(c: Scalar, t: Bytes)
    ensures FrontOf(EncodeScalar(c) + t) == Char(|EncodeScalar(c)|)
  {
  }

  lemma FrontMonotone(s: Bytes, t: Bytes)
    requires s != []
    ensures !FrontOf(s).Cut? ==> FrontOf(s + t) == FrontOf(s)
    ensures FrontOf(s).Cut? ==> |s| <= 3
  {
  }

  lemma CutCompletes(s: Bytes) returns (t: Bytes)
    requires s != [] && FrontOf(s).Cut?
    ensures FrontOf(s + t) == Char(|s + t|)
  {
    var w := Width(s[0]);
    var second := if s[0] == 0xE0 then 0xA0 else if s[0] == 0xF0 then 0x90 else 0x80;
    t := if |s| == 1 then [second] + seq(w - 2, i => 0x80) else seq(w - |s|, i => 0x80);
  }

  // ----- The scanner is exact -----

  lemma {:induction false} ScanText(cs: seq<Scalar>)
    ensures Scan(EncodeText(cs)) == Ok
  {
    if cs == [] {
    } else {
      FrontOfScalar(cs[0], EncodeText(cs[1..]));
      ScanText(cs[1..]);
      var e := EncodeScalar(cs[0]);
      assert (e + EncodeText(cs[1..]))[|e|..] == EncodeText(cs[1..]);
    }
  }

  lemma {:induction false} ScanWitness(s: Bytes) returns (cs: seq<Scalar>)
    requires Scan(s).Ok?
    ensures EncodeText(cs) == s
  {
    if s == [] {
      cs := [];
    } else {
      var c := DecodeFront(s);
      var rest := ScanWitness(s[FrontOf(s).size..]);
      cs := [c] + rest;
      assert cs[1..] == rest;
    }
  }

  /** The scanner accepts exactly the valid strings. */
  lemma ScanExact(s: Bytes)
    ensures Scan(s).Ok? <==> Valid(s)
  {
    if Scan(s).Ok? {
      var cs := ScanWitness(s);
    }
    if Valid(s) {
      var cs: seq<Scalar> :| s == EncodeText(cs);
      ScanText(cs);
    }
  }

  /** Scanning may resume behind any valid prefix. */
  lemma {:induction false} ScanResume(a: Bytes, b: Bytes)
    requires Scan(a).Ok?
    ensures Scan(a + b) == Shift(Scan(b), |a|)
  {
    hide FrontOf;
    if a == [] {
      assert a + b == b;
    } else {
      FrontMonotone(a, b);
      var n := FrontOf(a).size;
      ScanResume(a[n..], b);
      assert (a + b)[n..] == a[n..] + b;
    }
  }

  lemma {:induction false} ScanSplits(s: Bytes)
    requires Scan(s).Err?
    ensures Scan(s[..Scan(s).validUpTo]).Ok?
    ensures s[Scan(s).validUpTo..] != []
    ensures FrontOf(s[Scan(s).validUpTo..]) == if Scan(s).incomplete then Cut else Broken
  {
    hide FrontOf;
    if !FrontOf(s).Char? {
      assert s[..0] == [] && s[0..] == s;
    } else {
      var n := FrontOf(s).size;
      ScanSplits(s[n..]);
      var m := Scan(s[n..]).validUpTo;
      assert s[n..][m..] == s[n + m..];
      assert s[..n + m][n..] == s[n..][..m];
      SameFront(s, s[..n + m], n);
    }
  }

  lemma SameFront(s: Bytes, a: Bytes, n: nat)
    requires s != [] && FrontOf(s) == Char(n)
    requires n <= |a| <= |s| && a == s[..|a|]
    ensures FrontOf(a) == Char(n)
  {
  }

  lemma {:induction false} BrokenStays(s: Bytes, t: Bytes)
    requires Scan(s).Err? && !Scan(s).incomplete
    ensures Scan(s + t) == Scan(s)
  {
    FrontMonotone(s, t);
    if FrontOf(s).Char? {
      var n := FrontOf(s).size;
      assert (s + t)[n..] == s[n..] + t;
      BrokenStays(s[n..], t);
    }
  }

  lemma CutIsExtendable(s: Bytes, n: nat)
    requires n < |s| && Scan(s[..n]).Ok? && FrontOf(s[n..]).Cut?
    ensures Extendable(s)
  {
    hide FrontOf;
    var tail := s[n..];
    var t := CutCompletes(tail);
    assert (tail + t)[|tail + t|..] == [];
    assert Scan(tail + t).Ok?;
    ScanResume(s[..n], tail + t);
    assert s + t == s[..n] + (tail + t);
    ScanExact(s + t);
  }

  /**
    * The reported error is exact: the bytes before it are valid, the input is
    * called incomplete just when some continuation is valid, and then at most
    * three bytes are left over.
    */
  lemma ScanErrorExact(s: Bytes)
    requires Scan(s).Err?
    ensures Valid(s[..Scan(s).validUpTo])
    ensures Scan(s).incomplete <==> Extendable(s)
    ensures Scan(s).incomplete ==> |s| - Scan(s).validUpTo <= 3
  {
    hide FrontOf;
    var n := Scan(s).validUpTo;
    ScanSplits(s);
    ScanExact(s[..n]);
    if Scan(s).incomplete {
      FrontMonotone(s[n..], []);
      CutIsExtendable(s, n);
    } else {
      forall t: Bytes ensures !Valid(s + t) {
        BrokenStays(s, t);
        ScanExact(s + t);
      }
    }
  }

  lemma ValidIsExtendable(s: Bytes)
    requires Valid(s)
    ensures Extendable(s)
  {
    assert s + [] == s;
  }
}
