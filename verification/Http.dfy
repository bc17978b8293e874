/** A strict, bounded HTTP/1.1 head parser, its printer, and header lookups. */
module Http {
  import opened Basics
  import opened Text
  import Heads
  import Utf8

  const MAX_HEADERS: nat := 64

  datatype Header = Header(name: Bytes, value: Bytes)
  type Headers = seq<Header>

  predicate Alphanumeric(b: Byte) {
    48 <= b <= 57 || 65 <= b <= 90 || 97 <= b <= 122
  }

  predicate TokenByte(b: Byte) {
    Alphanumeric(b) || b in {33, 35, 36, 37, 38, 39, 42, 43, 45, 46, 94, 95, 96, 124, 126}
  }

  predicate IsToken(s: Bytes) {
    s != [] && forall b | b in s :: TokenByte(b)
  }

  predicate ValueByte(b: Byte) {
    b == TAB || (b >= 32 && b != 127)
  }

  predicate IsValue(s: Bytes) {
    forall b | b in s :: ValueByte(b)
  }

  // ----- Parsing -----

  function HeaderOf(line: Bytes): Option<Header> {
    match SplitOnce(line, COLON)
    case None => None
    case Some((name, value)) =>
      if IsToken(name) && IsValue(Trim(value)) then Some(Header(Lower(name), Trim(value))) else None
  }

  function HeadersOf(lines: seq<Bytes>): Option<Headers> {
    if lines == [] then Some([])
    else
      var n := |lines| - 1;
      var before, last := HeadersOf(lines[..n]), HeaderOf(lines[n]);
      if before.Some? && last.Some? then Some(before.value + [last.value]) else None
  }

  predicate EndsBlank(head: Bytes) {
    |head| >= 4 && head[|head| - 4..] == Heads.BLANK
  }

  /** The start line and the headers of a complete head. */
  function Parse(head: Bytes): Option<(Bytes, Headers)> {
    if |head| > Heads.MAX_HEAD || !Utf8.Scan(head).Ok? || !EndsBlank(head) then None
    else
      var lines := Lines(head[..|head| - 4]);
      var headers := HeadersOf(lines[1..]);
      if headers.Some? && |headers.value| <= MAX_HEADERS && IsValue(lines[0])
      then Some((lines[0], headers.value)) else None
  }

  /** One bad line spoils the head. */
  lemma {:induction false} HeadersOfPrefix(lines: seq<Bytes>, k: nat)
    requires k <= |lines| && HeadersOf(lines).Some?
    ensures HeadersOf(lines[..k]).Some? && |HeadersOf(lines).value| == |lines|
    ensures HeadersOf(lines[..k]).value == HeadersOf(lines).value[..k]
  {
    if lines == [] {
    } else {
      var n := |lines| - 1;
      HeadersOfPrefix(lines[..n], if k <= n then k else n);
      if k <= n { assert lines[..n][..k] == lines[..k]; } else { assert lines[..k] == lines; }
    }
  }

  /** The parser's loop over lines, which stops at the first fault or the sixty-fifth header. */
  method ParseLoop(head: Bytes) returns (r: Option<(Bytes, Headers)>)
    ensures r == Parse(head)
  {
    hide HeaderOf, Trim, IsToken, IsValue;
    if |head| > Heads.MAX_HEAD || !Utf8.Scan(head).Ok? || !EndsBlank(head) {
      return None;
    }
    var lines := Lines(head[..|head| - 4]);
    ghost var rest := lines[1..];
    var headers: Headers := [];
    var i := 1;
    while i < |lines|
      invariant 1 <= i <= |lines| && |headers| == i - 1 <= MAX_HEADERS
      invariant HeadersOf(rest[..i - 1]) == Some(headers)
    {
      var h := HeaderOf(lines[i]);
      assert rest[..i][..i - 1] == rest[..i - 1] && rest[i - 1] == lines[i];
      if h.None? || |headers| == MAX_HEADERS {
        if HeadersOf(rest).Some? { HeadersOfPrefix(rest, i); }
        return None;
      }
      headers := headers + [h.value];
      i := i + 1;
    }
    assert rest[..i - 1] == rest;
    return if IsValue(lines[0]) then Some((lines[0], headers)) else None;
  }

  // ----- Printing -----

  function HeaderLine(h: Header): Bytes {
    h.name + [COLON, SPACE] + h.value
  }

  function HeaderLines(hs: Headers): (lines: seq<Bytes>)
    ensures |lines| == |hs|
  {
    seq(|hs|, i requires 0 <= i < |hs| => HeaderLine(hs[i]))
  }

  /** A head as it is written: lines separated by line breaks, then a blank line. */
  function Render(start: Bytes, hs: Headers): Bytes {
    Join([start] + HeaderLines(hs), CRLF) + Heads.BLANK
  }

  predicate Printable(h: Header) {
    IsToken(h.name) && IsValue(h.value)
  }

  predicate AllPrintable(hs: Headers) {
    forall i | 0 <= i < |hs| :: Printable(hs[i])
  }

  /** A header as its reader sees it. */
  function Canonical(h: Header): Header {
    Header(Lower(h.name), Trim(h.value))
  }

  function Canonicals(hs: Headers): (r: Headers)
    ensures |r| == |hs|
  {
    seq(|hs|, i requires 0 <= i < |hs| => Canonical(hs[i]))
  }

  lemma TokenBytes(s: Bytes)
    requires IsToken(s)
    ensures COLON !in s && COMMA !in s && CR !in s && SPACE !in s && TAB !in s
    ensures forall b | b in s :: 33 <= b <= 126
  {
  }

  lemma TrimmedValue(v: Bytes)
    requires IsValue(v)
    ensures IsValue(Trim(v))
  {
    TrimStartKeeps(v, ValueByte);
    TrimEndKeeps(TrimStart(v), ValueByte);
  }

  /** Only blanks are trimmed, and blanks may stand in a value. */
  lemma UntrimmedValue(v: Bytes)
    requires IsValue(Trim(v))
    ensures IsValue(v)
  {
    hide Trim;
    var lead, tail := TrimExact(v);
  }

  // ----- The grammar of a head -----

  /** A header line as it may come, with any blanks around its value. */
  function RawLine(h: Header): Bytes {
    h.name + [COLON] + h.value
  }

  function RawLines(raw: Headers): (lines: seq<Bytes>)
    ensures |lines| == |raw|
  {
    seq(|raw|, i requires 0 <= i < |raw| => RawLine(raw[i]))
  }

  /** A start line, header lines and a blank line. */
  function HeadText(start: Bytes, raw: Headers): Bytes {
    Join([start] + RawLines(raw), CRLF) + Heads.BLANK
  }

  predicate Within(start: Bytes, raw: Headers) {
    |HeadText(start, raw)| <= Heads.MAX_HEAD && |raw| <= MAX_HEADERS
  }

  lemma RawReadsBack(h: Header)
    requires Printable(h)
    ensures HeaderOf(RawLine(h)) == Some(Canonical(h)) && CR !in RawLine(h)
  {
    hide Trim;
    TokenBytes(h.name);
    SplitOnceAt(h.name, COLON, h.value);
    TrimmedValue(h.value);
  }

  lemma {:induction false} RawsReadBack(raw: Headers)
    requires AllPrintable(raw)
    ensures HeadersOf(RawLines(raw)) == Some(Canonicals(raw)) && forall l | l in RawLines(raw) :: CR !in l
  {
    hide Canonical, RawLine, HeaderOf, Printable;
    if raw == [] {
    } else {
      var n := |raw| - 1;
      RawsReadBack(raw[..n]);
      assert RawLines(raw)[..n] == RawLines(raw[..n]);
      RawReadsBack(raw[n]);
      assert Canonicals(raw) == Canonicals(raw[..n]) + [Canonical(raw[n])];
      assert RawLines(raw) == RawLines(raw[..n]) + [RawLine(raw[n])];
    }
  }

  /** Every head of this form is read: start line, names in lower case, values trimmed, in order, unless over a limit. */
  lemma ParseText(start: Bytes, raw: Headers)
    requires IsValue(start) && AllPrintable(raw) && Utf8.Scan(HeadText(start, raw)).Ok?
    ensures Parse(HeadText(start, raw)) == if Within(start, raw) then Some((start, Canonicals(raw))) else None
  {
    hide HeaderOf, RawLines, Lines, Join, AllPrintable;
    var lines := [start] + RawLines(raw);
    var text := Join(lines, CRLF);
    var head := HeadText(start, raw);
    assert head[..|head| - 4] == text && head[|head| - 4..] == Heads.BLANK;
    RawsReadBack(raw);
    assert CR !in start;
    LinesOfJoin(lines);
    assert lines[1..] == RawLines(raw) && lines[0] == start;
  }

  lemma {:induction false} RawOf(lines: seq<Bytes>) returns (raw: Headers)
    requires HeadersOf(lines).Some?
    ensures AllPrintable(raw) && RawLines(raw) == lines && Canonicals(raw) == HeadersOf(lines).value
  {
    hide Trim, IsToken, IsValue, Lower;
    if lines == [] {
      raw := [];
    } else {
      var n := |lines| - 1;
      var before := RawOf(lines[..n]);
      var (name, value) := SplitOnce(lines[n], COLON).value;
      SplitOnceParts(lines[n], COLON);
      UntrimmedValue(value);
      var h := Header(name, value);
      raw := before + [h];
      assert RawLines(raw) == RawLines(before) + [RawLine(h)] && lines == lines[..n] + [lines[n]];
      assert Canonicals(raw) == Canonicals(before) + [Canonical(h)];
    }
  }

  /** And nothing else is read. */
  lemma ParsedText(head: Bytes) returns (raw: Headers)
    requires Parse(head).Some?
    ensures var (start, hs) := Parse(head).value;
            && head == HeadText(start, raw) && IsValue(start) && AllPrintable(raw) && Utf8.Scan(head).Ok?
            && Within(start, raw) && hs == Canonicals(raw)
  {
    hide HeadersOf, Lines, Join, AllPrintable, IsValue;
    var text := head[..|head| - 4];
    var lines := Lines(text);
    raw := RawOf(lines[1..]);
    JoinOfLines(text);
    assert [lines[0]] + lines[1..] == lines;
    assert head == text + head[|head| - 4..];
  }

  // ----- Printed heads -----

  /** Printing puts one space before each value. */
  function Spaced(hs: Headers): (raw: Headers)
    ensures |raw| == |hs|
  {
    seq(|hs|, i requires 0 <= i < |hs| => Header(hs[i].name, [SPACE] + hs[i].value))
  }

  lemma SpacedIs(start: Bytes, hs: Headers)
    ensures HeadText(start, Spaced(hs)) == Render(start, hs) && Canonicals(Spaced(hs)) == Canonicals(hs)
    ensures AllPrintable(hs) ==> AllPrintable(Spaced(hs))
  {
    hide Trim, IsToken, Lower;
    forall i | 0 <= i < |hs| ensures RawLine(Spaced(hs)[i]) == HeaderLine(hs[i]) && Canonical(Spaced(hs)[i]) == Canonical(hs[i]) {
      TrimBlank(SPACE, hs[i].value);
    }
    assert RawLines(Spaced(hs)) == HeaderLines(hs);
    assert Canonicals(Spaced(hs)) == Canonicals(hs);
  }

  lemma HeaderLineClean(h: Header)
    requires Printable(h)
    ensures CR !in HeaderLine(h) && HeaderLine(h) != []
  {
    TokenBytes(h.name);
  }

  predicate CleanLines(lines: seq<Bytes>) {
    lines != [] && forall l | l in lines :: CR !in l && l != []
  }

  lemma CleanHead(start: Bytes, hs: Headers)
    requires start != [] && IsValue(start) && AllPrintable(hs)
    ensures CleanLines([start] + HeaderLines(hs))
  {
    hide HeaderLine, Printable;
    forall i | 0 <= i < |hs| ensures CR !in HeaderLines(hs)[i] && HeaderLines(hs)[i] != [] {
      HeaderLineClean(hs[i]);
    }
  }

  predicate Fits(start: Bytes, hs: Headers) {
    |Render(start, hs)| <= Heads.MAX_HEAD && |hs| <= MAX_HEADERS
  }

  /**
    * What is printed is read back: same start line, names in lower case, values
    * trimmed, in order. It is refused exactly when it is over a limit.
    */
  lemma ParseRender(start: Bytes, hs: Headers)
    requires IsValue(start) && AllPrintable(hs) && Utf8.Scan(Render(start, hs)).Ok?
    ensures Parse(Render(start, hs)) == if Fits(start, hs) then Some((start, Canonicals(hs))) else None
  {
    hide Parse, HeadText, Render, AllPrintable, IsValue;
    SpacedIs(start, hs);
    ParseText(start, Spaced(hs));
  }

  // ----- The head's end -----

  lemma {:induction false} OneBlank(lines: seq<Bytes>, k: nat)
    requires CleanLines(lines)
    requires Heads.EndsAt(Join(lines, CRLF) + Heads.BLANK, k)
    ensures k == |Join(lines, CRLF)| + 4
  {
    hide Heads.EndsAt;
    var l := lines[0];
    assert l in lines;
    var b := Join(lines, CRLF) + Heads.BLANK;
    BlankBytes(b, k);
    if |lines| == 1 {
      AfterLine(l, Heads.BLANK, b, k);
    } else {
      var rest := Join(lines[1..], CRLF) + Heads.BLANK;
      assert lines[1] in lines;
      assert b == l + CRLF + rest;
      assert rest[0] == lines[1][0];
      BlankBehind(l, rest, b, k);
      assert forall x | x in lines[1..] :: x in lines;
      OneBlank(lines[1..], k - |l| - 2);
    }
  }

  lemma BlankBytes(b: Bytes, k: nat)
    requires Heads.EndsAt(b, k)
    ensures 4 <= k <= |b| && b[k - 4] == CR && b[k - 3] == LF && b[k - 2] == CR && b[k - 1] == LF
  {
    assert b[k - 4..k][0] == CR && b[k - 4..k][1] == LF && b[k - 4..k][2] == CR && b[k - 4..k][3] == LF;
  }

  /** A blank line cannot begin in a line, nor at its break if another line follows. */
  lemma BlankBehind(l: Bytes, rest: Bytes, b: Bytes, k: nat)
    requires CR !in l && b == l + CRLF + rest && rest != [] && rest[0] != CR && Heads.EndsAt(b, k)
    ensures k >= |l| + 6 && Heads.EndsAt(rest, k - |l| - 2)
  {
    BlankBytes(b, k);
    AfterLine(l, CRLF + rest, b, k);
    assert b[|l|] == CR && b[|l| + 1] == LF && b[|l| + 2] == rest[0];
    var j := k - |l| - 2;
    assert b[|l| + 2..] == rest;
    assert rest[j - 4..j] == b[k - 4..k];
  }

  lemma AfterLine(l: Bytes, rest: Bytes, b: Bytes, k: nat)
    requires CR !in l && b == l + rest && 4 <= k <= |b| && b[k - 4] == CR
    ensures k - 4 >= |l|
  {
    assert forall i | 0 <= i < |l| :: b[i] == l[i] && l[i] in l;
  }

  /** A printed head ends at its only blank line, whatever follows it. */
  lemma HeadEnds(start: Bytes, hs: Headers, more: Bytes)
    requires start != [] && IsValue(start) && AllPrintable(hs)
    ensures Heads.FirstEnd(Render(start, hs) + more, Some(|Render(start, hs)|))
  {
    var head := Render(start, hs);
    var lines := [start] + HeaderLines(hs);
    CleanHead(start, hs);
    assert head[|head| - 4..|head|] == Heads.BLANK;
    forall j: nat | j < |head| ensures !Heads.EndsAt(head, j) {
      if Heads.EndsAt(head, j) { OneBlank(lines, j); }
    }
    Heads.Settled(head, more, Some(|head|));
  }

  // ----- Valid text -----

  lemma {:induction false} JoinScans(lines: seq<Bytes>)
    requires forall l | l in lines :: Utf8.Scan(l).Ok?
    ensures Utf8.Scan(Join(lines, CRLF)).Ok?
  {
    if |lines| == 1 {
      assert lines[0] in lines;
    } else if |lines| > 1 {
      assert lines[0] in lines;
      JoinScans(lines[1..]);
      BreaksAreAscii();
      AsciiScans(CRLF);
      ScanConcat(lines[0], CRLF);
      ScanConcat(lines[0] + CRLF, Join(lines[1..], CRLF));
    }
  }

  lemma HeaderScans(h: Header)
    requires IsToken(h.name) && Utf8.Scan(h.value).Ok?
    ensures Utf8.Scan(HeaderLine(h)).Ok?
  {
    TokenBytes(h.name);
    AsciiScans(h.name + [COLON, SPACE]);
    ScanConcat(h.name + [COLON, SPACE], h.value);
  }

  lemma RenderScans(start: Bytes, hs: Headers)
    requires Utf8.Scan(start).Ok? && AllPrintable(hs)
    requires forall i | 0 <= i < |hs| :: Utf8.Scan(hs[i].value).Ok?
    ensures Utf8.Scan(Render(start, hs)).Ok?
  {
    var lines := [start] + HeaderLines(hs);
    forall i | 0 <= i < |lines| ensures Utf8.Scan(lines[i]).Ok? {
      if i > 0 {
        assert Printable(hs[i - 1]);
        HeaderScans(hs[i - 1]);
      }
    }
    JoinScans(lines);
    BreaksAreAscii();
    assert Heads.BLANK == CRLF + CRLF;
    AsciiScans(Heads.BLANK);
    ScanConcat(Join(lines, CRLF), Heads.BLANK);
  }

  // ----- Size -----

  function Size(hs: Headers): nat {
    if hs == [] then 0 else |hs[0].name| + |hs[0].value| + 4 + Size(hs[1..])
  }

  lemma {:induction false} JoinSize(start: Bytes, hs: Headers)
    ensures |Join([start] + HeaderLines(hs), CRLF)| == |start| + Size(hs)
    decreases hs
  {
    var lines := [start] + HeaderLines(hs);
    if hs == [] {
    } else {
      var h := HeaderLine(hs[0]);
      assert lines[1..] == [h] + HeaderLines(hs[1..]);
      JoinSize(h, hs[1..]);
    }
  }

  lemma RenderSize(start: Bytes, hs: Headers)
    ensures |Render(start, hs)| == |start| + Size(hs) + 4
  {
    JoinSize(start, hs);
  }

  // ----- Lookups -----

  /** Every value given for a name, in order. */
  function All(hs: Headers, name: Bytes): seq<Bytes> {
    if hs == [] then []
    else (if hs[0].name == name then [hs[0].value] else []) + All(hs[1..], name)
  }

  function One(hs: Headers, name: Bytes): Option<Bytes> {
    var values := All(hs, name);
    if |values| == 1 then Some(values[0]) else None
  }

  lemma {:induction false} AllAppend(a: Headers, b: Headers, name: Bytes)
    ensures All(a + b, name) == All(a, name) + All(b, name)
  {
    if a == [] {
      assert a + b == b;
    } else {
      assert (a + b)[1..] == a[1..] + b;
      AllAppend(a[1..], b, name);
    }
  }

  lemma {:induction false} AllAbsent(hs: Headers, name: Bytes)
    requires forall i | 0 <= i < |hs| :: hs[i].name != name
    ensures All(hs, name) == []
  {
    if hs == [] {
    } else {
      AllAbsent(hs[1..], name);
    }
  }

  lemma AllOnce(hs: Headers, k: nat, name: Bytes)
    requires k < |hs| && hs[k].name == name && forall i | 0 <= i < |hs| && i != k :: hs[i].name != name
    ensures All(hs, name) == [hs[k].value]
  {
    assert hs == hs[..k] + ([hs[k]] + hs[k + 1..]);
    AllAppend(hs[..k], [hs[k]] + hs[k + 1..], name);
    AllAbsent(hs[..k], name);
    AllAbsent(hs[k + 1..], name);
    assert ([hs[k]] + hs[k + 1..])[1..] == hs[k + 1..];
  }

  // ----- Comma-separated lists -----

  function TrimAll(items: seq<Bytes>): (r: seq<Bytes>)
    ensures |r| == |items|
  {
    seq(|items|, i requires 0 <= i < |items| => Trim(items[i]))
  }

  /** The items of all the lists, in order. */
  function Items(values: seq<Bytes>): seq<Bytes> {
    if values == [] then [] else TrimAll(Split(values[0], COMMA)) + Items(values[1..])
  }

  predicate HasToken(hs: Headers, name: Bytes, token: Bytes) {
    exists item | item in Items(All(hs, name)) :: Lower(item) == Lower(token)
  }

  predicate Distinct(s: seq<Bytes>) {
    forall i, j | 0 <= i < j < |s| :: s[i] != s[j]
  }

  predicate DistinctTokens(s: seq<Bytes>) {
    (forall i | 0 <= i < |s| :: IsToken(s[i])) && Distinct(s)
  }

  function Tokens(hs: Headers, name: Bytes): Option<seq<Bytes>> {
    var items := Items(All(hs, name));
    if DistinctTokens(items) then Some(items) else None
  }

  /** The loop that collects items into a list and a set at once. */
  method TokensLoop(hs: Headers, name: Bytes) returns (r: Option<seq<Bytes>>)
    ensures r == Tokens(hs, name)
  {
    hide IsToken, Items, All;
    var items := Items(All(hs, name));
    var out: seq<Bytes> := [];
    var seen: set<Bytes> := {};
    var i := 0;
    while i < |items|
      invariant 0 <= i <= |items| && out == items[..i] && DistinctTokens(out)
      invariant seen == set j | 0 <= j < i :: items[j]
    {
      if !IsToken(items[i]) || items[i] in seen {
        return None;
      }
      seen := seen + {items[i]};
      out := out + [items[i]];
      i := i + 1;
    }
    assert out == items;
    r := Some(out);
  }

  lemma SplitLead(b: Byte, s: Bytes)
    requires Blank(b)
    ensures var r := Split(s, COMMA);
            Split([b] + s, COMMA) == [[b] + r[0]] + r[1..]
  {
    assert ([b] + s)[1..] == s;
  }

  lemma {:induction false} SplitTail(s: Bytes, b: Byte)
    requires Blank(b)
    ensures var r := Split(s, COMMA);
            Split(s + [b], COMMA) == r[..|r| - 1] + [r[|r| - 1] + [b]]
    decreases |s|
  {
    hide Split;
    if COMMA !in s {
      SplitNone(s, COMMA);
      SplitNone(s + [b], COMMA);
    } else {
      FirstOf(s, COMMA);
      var (first, rest) := SplitOnce(s, COMMA).value;
      SplitOnceParts(s, COMMA);
      SplitAt(first, COMMA, rest);
      assert s + [b] == first + [COMMA] + (rest + [b]);
      SplitAt(first, COMMA, rest + [b]);
      SplitTail(rest, b);
      var r := Split(rest, COMMA);
      assert ([first] + r)[..|r|] == [first] + r[..|r| - 1];
    }
  }

  lemma PiecesBlank(b: Byte, s: Bytes)
    requires Blank(b)
    ensures TrimAll(Split([b] + s, COMMA)) == TrimAll(Split(s, COMMA)) == TrimAll(Split(s + [b], COMMA))
  {
    hide Trim, Split;
    var r := Split(s, COMMA);
    var n := |r| - 1;
    SplitLead(b, s);
    SplitTail(s, b);
    TrimBlank(b, r[0]);
    TrimBlank(b, r[n]);
    var led, tailed := [[b] + r[0]] + r[1..], r[..n] + [r[n] + [b]];
    assert forall i | 0 <= i < |r| :: TrimAll(led)[i] == TrimAll(r)[i] && TrimAll(tailed)[i] == TrimAll(r)[i];
  }

  /** Splitting and then trimming comes to the same whether or not the whole was trimmed first. */
  lemma {:induction false} PiecesTrimmed(s: Bytes)
    ensures TrimAll(Split(Trim(s), COMMA)) == TrimAll(Split(s, COMMA))
    decreases |s|
  {
    hide TrimAll, Split;
    if s == [] {
    } else if Blank(s[0]) {
      assert s == [s[0]] + s[1..];
      PiecesBlank(s[0], s[1..]);
      TrimBlank(s[0], s[1..]);
      PiecesTrimmed(s[1..]);
    } else if Blank(s[|s| - 1]) {
      var n := |s| - 1;
      assert s == s[..n] + [s[n]];
      PiecesBlank(s[n], s[..n]);
      TrimBlank(s[n], s[..n]);
      PiecesTrimmed(s[..n]);
    } else {
      TrimTrimmed(s);
    }
  }

  lemma TokenTrimmed(s: Bytes)
    requires IsToken(s)
    ensures Trimmed(s) && Trim(s) == s && COMMA !in s && Split(s, COMMA) == [s]
  {
    TokenBytes(s);
    assert s[0] in s && s[|s| - 1] in s;
    TrimTrimmed(s);
    SplitNone(s, COMMA);
  }

  const SEPARATOR: Bytes := [COMMA, SPACE]

  /** A printed list of tokens is read back item by item. */
  lemma {:induction false} ListReadsBack(tokens: seq<Bytes>)
    requires tokens != [] && forall t | t in tokens :: IsToken(t)
    ensures TrimAll(Split(Join(tokens, SEPARATOR), COMMA)) == tokens
  {
    hide Trim, IsToken, Split;
    var t := tokens[0];
    assert t in tokens;
    TokenTrimmed(t);
    if |tokens| == 1 {
      assert TrimAll([t]) == [t];
    } else {
      var rest := Join(tokens[1..], SEPARATOR);
      ListReadsBack(tokens[1..]);
      assert Join(tokens, SEPARATOR) == t + [COMMA] + ([SPACE] + rest);
      SplitAt(t, COMMA, [SPACE] + rest);
      PiecesBlank(SPACE, rest);
      assert TrimAll([t] + Split([SPACE] + rest, COMMA)) == [t] + TrimAll(Split([SPACE] + rest, COMMA));
    }
  }

  lemma {:induction false} ListTrimmed(tokens: seq<Bytes>)
    requires tokens != [] && forall t | t in tokens :: IsToken(t)
    ensures var v := Join(tokens, SEPARATOR);
            v != [] && Trimmed(v) && IsValue(v) && IsAscii(v)
  {
    var t := tokens[0];
    assert t in tokens;
    TokenTrimmed(t);
    TokenBytes(t);
    if |tokens| > 1 {
      ListTrimmed(tokens[1..]);
      var rest := Join(tokens[1..], SEPARATOR);
      var v := Join(tokens, SEPARATOR);
      assert v == t + SEPARATOR + rest && v[0] == t[0] && v[|v| - 1] == rest[|rest| - 1];
    }
  }
}
