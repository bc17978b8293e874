/** The few text operations the handshake is made of, on byte strings. */
module Text {
  import opened Basics
  import Utf8

  const TAB: Byte := 9
  const LF: Byte := 10
  const CR: Byte := 13
  const SPACE: Byte := 32
  const COMMA: Byte := 44
  const COLON: Byte := 58

  const CRLF: Bytes := [CR, LF]

  /** The bytes of an ASCII literal. */
  function Ascii(s: string): (b: Bytes)
    ensures |b| == |s|
  {
    seq(|s|, i requires 0 <= i < |s| => s[i] as int % 256)
  }

  function LowerByte(b: Byte): Byte {
    if 65 <= b <= 90 then b + 32 else b
  }

  /** ASCII lower case. */
  function Lower(s: Bytes): (r: Bytes)
    ensures |r| == |s|
  {
    seq(|s|, i requires 0 <= i < |s| => LowerByte(s[i]))
  }

  predicate Blank(b: Byte) {
    b == SPACE || b == TAB
  }

  function TrimStart(s: Bytes): Bytes {
    if s != [] && Blank(s[0]) then TrimStart(s[1..]) else s
  }

  function TrimEnd(s: Bytes): Bytes {
    if s != [] && Blank(s[|s| - 1]) then TrimEnd(s[..|s| - 1]) else s
  }

  /** Without blanks at either end. */
  function Trim(s: Bytes): Bytes {
    TrimEnd(TrimStart(s))
  }

  predicate Trimmed(s: Bytes) {
    s == [] || (!Blank(s[0]) && !Blank(s[|s| - 1]))
  }

  /** Blanks around a text make no difference to what is left of it. */
  lemma TrimBlank(b: Byte, s: Bytes)
    requires Blank(b)
    ensures Trim([b] + s) == Trim(s) && Trim(s + [b]) == Trim(s)
  {
    assert ([b] + s)[1..] == s;
    TrimStartTail(s, b);
  }

  lemma {:induction false} TrimStartTail(s: Bytes, b: Byte)
    requires Blank(b)
    ensures Trim(s + [b]) == Trim(s)
  {
    var t := s + [b];
    if s == [] {
      assert t[1..] == [];
    } else if Blank(s[0]) {
      assert t[1..] == s[1..] + [b];
      TrimStartTail(s[1..], b);
    } else {
      assert t[..|t| - 1] == s;
    }
  }

  lemma TrimTrimmed(s: Bytes)
    requires Trimmed(s)
    ensures Trim(s) == s
  {
  }

  predicate Blanks(s: Bytes) {
    forall b | b in s :: Blank(b)
  }

  lemma {:induction false} TrimStartParts(s: Bytes) returns (lead: Bytes)
    ensures Blanks(lead) && s == lead + TrimStart(s)
    ensures TrimStart(s) == [] || !Blank(TrimStart(s)[0])
  {
    lead := [];
    if s != [] && Blank(s[0]) {
      var l := TrimStartParts(s[1..]);
      lead := [s[0]] + l;
    }
  }

  lemma {:induction false} TrimEndParts(s: Bytes) returns (tail: Bytes)
    ensures Blanks(tail) && s == TrimEnd(s) + tail
    ensures TrimEnd(s) == [] || !Blank(TrimEnd(s)[|TrimEnd(s)| - 1])
  {
    tail := [];
    if s != [] && Blank(s[|s| - 1]) {
      var l := TrimEndParts(s[..|s| - 1]);
      tail := l + [s[|s| - 1]];
    }
  }

  /** Trimming drops blanks at both ends, all of them, and nothing else. */
  lemma TrimExact(s: Bytes) returns (lead: Bytes, tail: Bytes)
    ensures Blanks(lead) && Blanks(tail) && s == lead + Trim(s) + tail && Trimmed(Trim(s))
  {
    lead := TrimStartParts(s);
    tail := TrimEndParts(TrimStart(s));
    assert Trim(s) != [] ==> Trim(s)[0] == TrimStart(s)[0];
  }

  /** Trimming only drops bytes. */
  lemma {:induction false} TrimStartKeeps(s: Bytes, ok: Byte -> bool)
    requires forall b | b in s :: ok(b)
    ensures forall b | b in TrimStart(s) :: ok(b)
  {
    if s != [] && Blank(s[0]) {
      TrimStartKeeps(s[1..], ok);
    }
  }

  lemma {:induction false} TrimEndKeeps(s: Bytes, ok: Byte -> bool)
    requires forall b | b in s :: ok(b)
    ensures forall b | b in TrimEnd(s) :: ok(b)
  {
    if s != [] && Blank(s[|s| - 1]) {
      TrimEndKeeps(s[..|s| - 1], ok);
    }
  }

  // ----- Splitting -----

  /** At the first separator, if any. */
  function SplitOnce(s: Bytes, sep: Byte): Option<(Bytes, Bytes)> {
    if s == [] then None
    else if s[0] == sep then Some(([], s[1..]))
    else
      match SplitOnce(s[1..], sep)
      case None => None
      case Some((a, b)) => Some(([s[0]] + a, b))
  }

  lemma {:induction false} SplitOnceAt(a: Bytes, sep: Byte, b: Bytes)
    requires sep !in a
    ensures SplitOnce(a + [sep] + b, sep) == Some((a, b))
  {
    var s := a + [sep] + b;
    if a == [] {
      assert s[1..] == b;
    } else {
      assert s[1..] == a[1..] + [sep] + b;
      SplitOnceAt(a[1..], sep, b);
      assert [a[0]] + a[1..] == a;
    }
  }

  lemma {:induction false} SplitOnceNone(s: Bytes, sep: Byte)
    requires sep !in s
    ensures SplitOnce(s, sep).None?
  {
    if s == [] {
    } else {
      SplitOnceNone(s[1..], sep);
    }
  }

  lemma {:induction false} FirstOf(s: Bytes, sep: Byte)
    requires sep in s
    ensures SplitOnce(s, sep).Some?
  {
    if s[0] != sep { FirstOf(s[1..], sep); }
  }

  lemma {:induction false} SplitOnceParts(s: Bytes, sep: Byte)
    requires SplitOnce(s, sep).Some?
    ensures var (a, b) := SplitOnce(s, sep).value; sep !in a && s == a + [sep] + b
  {
    if s[0] != sep { SplitOnceParts(s[1..], sep); }
  }

  /** At every separator. */
  function Split(s: Bytes, sep: Byte): (r: seq<Bytes>)
    ensures r != []
  {
    if s == [] then [[]]
    else
      var r := Split(s[1..], sep);
      if s[0] == sep then [[]] + r else [[s[0]] + r[0]] + r[1..]
  }

  lemma {:induction false} SplitAt(a: Bytes, sep: Byte, b: Bytes)
    requires sep !in a
    ensures Split(a + [sep] + b, sep) == [a] + Split(b, sep)
  {
    var s := a + [sep] + b;
    if a == [] {
      assert s[1..] == b;
    } else {
      assert s[1..] == a[1..] + [sep] + b;
      SplitAt(a[1..], sep, b);
      assert [a[0]] + a[1..] == a;
    }
  }

  lemma {:induction false} SplitNone(s: Bytes, sep: Byte)
    requires sep !in s
    ensures Split(s, sep) == [s]
  {
    if s == [] {
    } else {
      SplitNone(s[1..], sep);
      assert [s[0]] + s[1..] == s;
    }
  }

  /** The parts of a split hold no separator, and joined again they are the whole. */
  lemma {:induction false} SplitExact(s: Bytes, sep: Byte)
    ensures Join(Split(s, sep), [sep]) == s && forall p | p in Split(s, sep) :: sep !in p
  {
    if s == [] {
    } else {
      hide Join;
      SplitExact(s[1..], sep);
      var r := Split(s[1..], sep);
      assert s == [s[0]] + s[1..];
      if s[0] == sep {
        JoinEmpty(r, [sep]);
      } else {
        JoinPrepend(s[0], r, [sep]);
        assert r[0] in r && forall p | p in r[1..] :: p in r;
      }
    }
  }

  lemma JoinEmpty(r: seq<Bytes>, sep: Bytes)
    requires r != []
    ensures Join([[]] + r, sep) == sep + Join(r, sep)
  {
    assert ([[]] + r)[1..] == r;
  }

  /** At every line break. */
  function Lines(s: Bytes): (r: seq<Bytes>)
    ensures r != []
  {
    if s == [] then [[]]
    else if |s| >= 2 && s[0] == CR && s[1] == LF then [[]] + Lines(s[2..])
    else
      var r := Lines(s[1..]);
      [[s[0]] + r[0]] + r[1..]
  }

  lemma {:induction false} LinesAt(a: Bytes, b: Bytes)
    requires CR !in a
    ensures Lines(a + CRLF + b) == [a] + Lines(b)
  {
    var s := a + CRLF + b;
    if a == [] {
      assert s[2..] == b;
    } else {
      assert s[1..] == a[1..] + CRLF + b;
      LinesAt(a[1..], b);
      assert [a[0]] + a[1..] == a;
    }
  }

  lemma {:induction false} LinesNone(s: Bytes)
    requires CR !in s
    ensures Lines(s) == [s]
  {
    if s == [] {
    } else {
      LinesNone(s[1..]);
      assert [s[0]] + s[1..] == s;
    }
  }

  /** Strings with a separator between them. */
  function Join(parts: seq<Bytes>, sep: Bytes): Bytes {
    if parts == [] then []
    else if |parts| == 1 then parts[0]
    else parts[0] + sep + Join(parts[1..], sep)
  }

  lemma {:induction false} LinesOfJoin(lines: seq<Bytes>)
    requires lines != [] && forall l | l in lines :: CR !in l
    ensures Lines(Join(lines, CRLF)) == lines
  {
    assert lines[0] in lines;
    if |lines| == 1 {
      LinesNone(lines[0]);
    } else {
      LinesOfJoin(lines[1..]);
      LinesAt(lines[0], Join(lines[1..], CRLF));
    }
  }

  /** The lines of a text, joined again, are the text. */
  lemma {:induction false} JoinOfLines(s: Bytes)
    ensures Join(Lines(s), CRLF) == s
  {
    if s == [] {
    } else if |s| >= 2 && s[0] == CR && s[1] == LF {
      JoinOfLines(s[2..]);
      var r := Lines(s[2..]);
      assert ([[]] + r)[1..] == r;
      assert s == [] + CRLF + s[2..];
    } else {
      JoinOfLines(s[1..]);
      var r := Lines(s[1..]);
      JoinPrepend(s[0], r, CRLF);
      assert s == [s[0]] + s[1..];
    }
  }

  lemma JoinPrepend(b: Byte, r: seq<Bytes>, sep: Bytes)
    requires r != []
    ensures Join([[b] + r[0]] + r[1..], sep) == [b] + Join(r, sep)
  {
    assert ([[b] + r[0]] + r[1..])[1..] == r[1..];
  }

  // ----- ASCII is valid UTF-8 -----

  predicate IsAscii(s: Bytes) {
    forall b | b in s :: b < 128
  }

  lemma {:induction false} AsciiScans(s: Bytes)
    requires IsAscii(s)
    ensures Utf8.Scan(s).Ok?
  {
    if s == [] {
    } else {
      assert s[0] in s && forall b | b in s[1..] :: b in s;
      AsciiScans(s[1..]);
    }
  }

  lemma BreaksAreAscii()
    ensures IsAscii(CRLF) && IsAscii(CRLF + CRLF)
  {
    assert forall b | b in CRLF :: b == CRLF[0] || b == CRLF[1];
  }

  lemma ScanConcat(a: Bytes, b: Bytes)
    requires Utf8.Scan(a).Ok? && Utf8.Scan(b).Ok?
    ensures Utf8.Scan(a + b).Ok?
  {
    Utf8.ScanResume(a, b);
  }
}
