/**
  * What both sides decide, for every byte string: on headers in any order, number
  * and letter case, and with any blanks around their values.
  */
module Verdicts {
  import opened Basics
  import opened Text
  import opened Http
  import opened Names
  import opened Handshake
  import opened Opening
  import Urls
  import Utf8

  // ----- What headers say -----

  /** The values given for a name, whatever its letter case, without blanks around them. */
  function Given(raw: Headers, n: Name): seq<Bytes> {
    if raw == [] then []
    else (if Lower(raw[0].name) == Lowered(n) then [Trim(raw[0].value)] else []) + Given(raw[1..], n)
  }

  /** The pieces of a list: split at commas, without blanks around them. */
  function Pieces(value: Bytes): seq<Bytes> {
    TrimAll(Split(value, COMMA))
  }

  /** The pieces of all lists given for a name, line after line. */
  function Listed(raw: Headers, n: Name): seq<Bytes> {
    if raw == [] then []
    else (if Lower(raw[0].name) == Lowered(n) then Pieces(raw[0].value) else []) + Listed(raw[1..], n)
  }

  /** Some line for the name has the word among its pieces, in any letter case. */
  predicate Says(raw: Headers, n: Name, word: Bytes) {
    exists i, j | 0 <= i < |raw| && Lower(raw[i].name) == Lowered(n) && 0 <= j < |Split(raw[i].value, COMMA)| ::
      Lower(Trim(Split(raw[i].value, COMMA)[j])) == Lower(word)
  }

  lemma {:induction false} GivenIs(raw: Headers, n: Name)
    ensures All(Canonicals(raw), Lowered(n)) == Given(raw, n)
  {
    hide Lower, Lowered, Trim;
    if raw == [] {
    } else {
      GivenIs(raw[1..], n);
      assert Canonicals(raw)[1..] == Canonicals(raw[1..]) && Canonicals(raw)[0] == Canonical(raw[0]);
    }
  }

  lemma {:induction false} ListedIs(raw: Headers, n: Name)
    ensures Items(Given(raw, n)) == Listed(raw, n)
  {
    hide Lower, Lowered, Trim, TrimAll, Split;
    if raw == [] {
    } else {
      ListedIs(raw[1..], n);
      PiecesTrimmed(raw[0].value);
      var rest := Given(raw[1..], n);
      if Lower(raw[0].name) == Lowered(n) {
        assert ([Trim(raw[0].value)] + rest)[1..] == rest;
      } else {
        assert [] + rest == rest;
      }
    }
  }

  lemma {:induction false} SaidIsListed(raw: Headers, n: Name, word: Bytes, i: nat, j: nat)
    requires i < |raw| && Lower(raw[i].name) == Lowered(n) && j < |Split(raw[i].value, COMMA)|
    requires Lower(Trim(Split(raw[i].value, COMMA)[j])) == Lower(word)
    ensures Mentions(Listed(raw, n), word)
  {
    hide Lower, Lowered, Trim, Split;
    if i == 0 {
      var item := Pieces(raw[0].value)[j];
      assert item in Pieces(raw[0].value);
    } else {
      SaidIsListed(raw[1..], n, word, i - 1, j);
    }
  }

  lemma {:induction false} ListedIsSaid(raw: Headers, n: Name, word: Bytes)
    requires Mentions(Listed(raw, n), word)
    ensures Says(raw, n, word)
  {
    hide Lower, Lowered, Trim, Split;
    var item :| item in Listed(raw, n) && Lower(item) == Lower(word);
    if item in Listed(raw[1..], n) {
      ListedIsSaid(raw[1..], n, word);
      var i, j :| 0 <= i < |raw[1..]| && Lower(raw[1..][i].name) == Lowered(n) && 0 <= j < |Split(raw[1..][i].value, COMMA)|
                  && Lower(Trim(Split(raw[1..][i].value, COMMA)[j])) == Lower(word);
      assert raw[1..][i] == raw[i + 1];
    } else {
      var j :| 0 <= j < |Split(raw[0].value, COMMA)| && Pieces(raw[0].value)[j] == item;
    }
  }

  /** A token is found if and only if some line for the name, the first or a later one, has it among its pieces. */
  lemma TokenSaid(raw: Headers, n: Name, word: Bytes)
    ensures HasToken(Canonicals(raw), Lowered(n), word) <==> Says(raw, n, word)
  {
    hide Lower, Lowered, All, Canonicals, Given, Items, Listed, Trim, Split;
    GivenIs(raw, n);
    ListedIs(raw, n);
    if Says(raw, n, word) {
      var i, j :| 0 <= i < |raw| && Lower(raw[i].name) == Lowered(n) && 0 <= j < |Split(raw[i].value, COMMA)|
                  && Lower(Trim(Split(raw[i].value, COMMA)[j])) == Lower(word);
      SaidIsListed(raw, n, word, i, j);
    }
    if Mentions(Listed(raw, n), word) {
      ListedIsSaid(raw, n, word);
    }
  }

  /** What a lookup of a name finds. */
  lemma LookedUp(raw: Headers, n: Name)
    ensures Tokens(Canonicals(raw), Lowered(n)) == if DistinctTokens(Listed(raw, n)) then Some(Listed(raw, n)) else None
    ensures One(Canonicals(raw), Lowered(n)) == if |Given(raw, n)| == 1 then Some(Given(raw, n)[0]) else None
  {
    hide Lower, Lowered, All, Canonicals, Given, Items, DistinctTokens, Listed;
    GivenIs(raw, n);
    ListedIs(raw, n);
  }

  lemma {:induction false} ListedAppend(raw: Headers, more: Headers, n: Name)
    ensures Listed(raw + more, n) == Listed(raw, n) + Listed(more, n)
  {
    hide Lower, Lowered, Pieces;
    if raw == [] {
      assert raw + more == more;
    } else {
      assert (raw + more)[1..] == raw[1..] + more;
      ListedAppend(raw[1..], more, n);
    }
  }

  lemma DistinctAppend(a: seq<Bytes>, b: seq<Bytes>)
    ensures DistinctTokens(a + b) <==> DistinctTokens(a) && DistinctTokens(b) && forall x | x in a :: x !in b
  {
    hide IsToken;
    var s := a + b;
    assert s[..|a|] == a && s[|a|..] == b;
    if DistinctTokens(s) {
      forall i | 0 <= i < |a| ensures IsToken(a[i]) && a[i] !in b { assert a[i] == s[i]; }
      forall i | 0 <= i < |b| ensures IsToken(b[i]) { assert b[i] == s[|a| + i]; }
      forall i, j | 0 <= i < j < |b| ensures b[i] != b[j] { assert b[i] == s[|a| + i] && b[j] == s[|a| + j]; }
      forall i, j | 0 <= i < j < |a| ensures a[i] != a[j] { assert a[i] == s[i] && a[j] == s[j]; }
    } else if DistinctTokens(a) && DistinctTokens(b) && forall x | x in a :: x !in b {
      forall i | 0 <= i < |s| ensures IsToken(s[i]) { assert s[i] == if i < |a| then a[i] else b[i - |a|]; }
      forall i, j | 0 <= i < j < |s| ensures s[i] != s[j] {
        if i < |a| <= j {
          assert a[i] in a && b[j - |a|] in b;
        } else if |a| <= i {
          assert s[i] == b[i - |a|] && s[j] == b[j - |a|];
        }
      }
      assert false;
    }
  }

  /** The list read off some lines and more lines is the one list and then the other, if no token comes twice. */
  lemma TokensAppend(raw: Headers, more: Headers, n: Name)
    ensures var all, a, b := Tokens(Canonicals(raw + more), Lowered(n)), Tokens(Canonicals(raw), Lowered(n)),
                             Tokens(Canonicals(more), Lowered(n));
            all == if a.Some? && b.Some? && (forall t | t in a.value :: t !in b.value) then Some(a.value + b.value) else None
  {
    hide Tokens, DistinctTokens, Listed, Lowered, Canonicals;
    LookedUp(raw, n);
    LookedUp(more, n);
    LookedUp(raw + more, n);
    ListedAppend(raw, more, n);
    DistinctAppend(Listed(raw, n), Listed(more, n));
  }

  /** And the list read off one line is that of its pieces, if it is a line for the name. */
  lemma TokensOfLine(h: Header, n: Name)
    ensures var pieces := if Lower(h.name) == Lowered(n) then TrimAll(Split(h.value, COMMA)) else [];
            Tokens(Canonicals([h]), Lowered(n)) == if DistinctTokens(pieces) then Some(pieces) else None
  {
    hide Tokens, DistinctTokens, Lowered, Canonicals, Lower, Split, TrimAll;
    LookedUp([h], n);
    var rest := [h][1..];
    assert rest == [] && Listed(rest, n) == [];
    var pieces := if Lower(h.name) == Lowered(n) then Pieces(h.value) else [];
    assert Listed([h], n) == pieces + [] == pieces;
  }

  // ----- Requests -----

  /** A request line of three words, and header lines. */
  datatype Form = Form(verb: Bytes, target: Bytes, version: Bytes, raw: Headers)

  function Line(f: Form): Bytes {
    f.verb + [SPACE] + f.target + [SPACE] + f.version
  }

  function Message(f: Form): Bytes {
    HeadText(Line(f), f.raw)
  }

  /** The words hold no space, and the text is one that HTTP allows. */
  predicate Formal(f: Form) {
    && SPACE !in f.verb && SPACE !in f.target && SPACE !in f.version
    && IsValue(Line(f)) && AllPrintable(f.raw) && Utf8.Scan(Message(f)).Ok?
  }

  predicate HostOk(v6: Bytes -> bool, raw: Headers) {
    |Given(raw, Host)| == 1 && ValidHost(v6, Given(raw, Host)[0])
  }

  predicate NoBody(raw: Headers) {
    Given(raw, TransferEncoding) == [] && forall v | v in Given(raw, ContentLength) :: v == Ascii("0")
  }

  /** What the server must decide: the first rule broken has its status. */
  function Ruling(v6: Bytes -> bool, f: Form): Verdict {
    if !Within(Line(f), f.raw) || f.version != Ascii("HTTP/1.1") || !Urls.GoodTarget(f.target) then Refused(400)
    else if f.verb != Ascii("GET") then Refused(405)
    else if !HostOk(v6, f.raw) || |Given(f.raw, Origin)| > 1 || !NoBody(f.raw) then Refused(400)
    else if !Says(f.raw, Upgrade, Ascii("websocket")) then Refused(426)
    else if !Says(f.raw, Connection, Ascii("upgrade")) then Refused(400)
    else if Given(f.raw, Version) != [Ascii("13")] then Refused(426)
    else
      var keys, protocols := Given(f.raw, Key), Listed(f.raw, Protocol);
      if |keys| != 1 || !ValidKey(keys[0]) || !DistinctTokens(protocols) then Refused(400)
      else Allowed(Request(f.target, Canonicals(f.raw), keys[0], protocols))
  }

  lemma SingleIs(s: seq<Bytes>, v: Bytes)
    ensures (if |s| == 1 then Some(s[0]) else None) == Some(v) <==> s == [v]
  {
  }

  lemma CheckIs(v6: Bytes -> bool, f: Form)
    requires Within(Line(f), f.raw) && f.version == Ascii("HTTP/1.1") && Urls.GoodTarget(f.target) && f.verb == Ascii("GET")
    ensures Check(v6, f.target, Canonicals(f.raw)) == Ruling(v6, f)
  {
    hide HasToken, Tokens, One, All, Given, Listed, Lowered, Ascii, Says, DistinctTokens, ValidHost, ValidKey, Canonicals,
         Within, Urls.GoodTarget, Line;
    GivenIs(f.raw, Origin);
    GivenIs(f.raw, TransferEncoding);
    GivenIs(f.raw, ContentLength);
    LookedUp(f.raw, Host);
    TokenSaid(f.raw, Upgrade, Ascii("websocket"));
    TokenSaid(f.raw, Connection, Ascii("upgrade"));
    LookedUp(f.raw, Version);
    SingleIs(Given(f.raw, Version), Ascii("13"));
    LookedUp(f.raw, Key);
    LookedUp(f.raw, Protocol);
  }

  lemma LineSplits(f: Form)
    requires SPACE !in f.verb && SPACE !in f.target && SPACE !in f.version
    ensures Split(Line(f), SPACE) == [f.verb, f.target, f.version]
  {
    hide Split;
    assert Line(f) == f.verb + [SPACE] + (f.target + [SPACE] + f.version);
    SplitAt(f.verb, SPACE, f.target + [SPACE] + f.version);
    SplitAt(f.target, SPACE, f.version);
    SplitNone(f.version, SPACE);
  }

  /** Every request in three words with any headers at all: the server's verdict is the ruling. */
  lemma AnyRequest(v6: Bytes -> bool, f: Form)
    requires Formal(f)
    ensures Receive(v6, Message(f)) == Ruling(v6, f)
  {
    hide Parse, Check, Line, Split, Ascii, Urls.GoodTarget, Canonicals, AllPrintable, IsValue, Utf8.Scan, Within, HeadText, Given,
         Listed, HostOk, NoBody, Says, DistinctTokens, ValidKey;
    ParseText(Line(f), f.raw);
    LineSplits(f);
    if Within(Line(f), f.raw) && f.version == Ascii("HTTP/1.1") && Urls.GoodTarget(f.target) && f.verb == Ascii("GET") {
      CheckIs(v6, f);
    }
  }

  lemma ThreeWords(start: Bytes) returns (verb: Bytes, target: Bytes, version: Bytes)
    requires |Split(start, SPACE)| == 3
    ensures start == verb + [SPACE] + target + [SPACE] + version
    ensures SPACE !in verb && SPACE !in target && SPACE !in version
  {
    hide Split;
    var p := Split(start, SPACE);
    SplitExact(start, SPACE);
    verb, target, version := p[0], p[1], p[2];
    assert p[1..][1..] == [p[2]];
    assert Join(p[1..], [SPACE]) == p[1] + [SPACE] + Join([p[2]], [SPACE]);
    assert start == p[0] + [SPACE] + (p[1] + [SPACE] + p[2]);
  }

  /** Every byte string is such a request, and judged so, or is refused with 400. */
  lemma EveryHead(v6: Bytes -> bool, head: Bytes) returns (form: Option<Form>)
    ensures form.Some? ==> Formal(form.value) && head == Message(form.value) && Receive(v6, head) == Ruling(v6, form.value)
    ensures form.None? ==> Receive(v6, head) == Refused(400)
  {
    hide Parse, Check, Split, Ascii, Urls.GoodTarget, Canonicals, AllPrintable, IsValue, Utf8.Scan, Within, HeadText, Ruling;
    form := None;
    if Parse(head).Some? {
      var raw := ParsedText(head);
      var (start, hs) := Parse(head).value;
      if |Split(start, SPACE)| == 3 {
        var verb, target, version := ThreeWords(start);
        var f := Form(verb, target, version, raw);
        AnyRequest(v6, f);
        form := Some(f);
      }
    }
  }

  /** What an accepted request is, in terms of its bytes. */
  predicate Admits(v6: Bytes -> bool, head: Bytes, raw: Headers, r: Request) {
    && head == HeadText(RequestLine(r.target), raw) && |head| <= 16_384 && |raw| <= 64
    && AllPrintable(raw) && Utf8.Scan(head).Ok? && r.headers == Canonicals(raw)
    && Urls.GoodTarget(r.target)
    && HostOk(v6, raw) && |Given(raw, Origin)| <= 1 && NoBody(raw)
    && Says(raw, Upgrade, Ascii("websocket")) && Says(raw, Connection, Ascii("upgrade"))
    && Given(raw, Version) == [Ascii("13")]
    && Given(raw, Key) == [r.key] && ValidKey(r.key)
    && Listed(raw, Protocol) == r.protocols && DistinctTokens(r.protocols)
  }

  function Getting(target: Bytes, raw: Headers): Form {
    Form(Ascii("GET"), target, Ascii("HTTP/1.1"), raw)
  }

  lemma GettingFormal(target: Bytes, raw: Headers)
    requires Urls.GoodTarget(target) && AllPrintable(raw) && Utf8.Scan(HeadText(RequestLine(target), raw)).Ok?
    ensures Formal(Getting(target, raw)) && Line(Getting(target, raw)) == RequestLine(target)
  {
    hide Ascii, HeadText, AllPrintable, Utf8.Scan;
    VisibleAscii("GET");
    VisibleAscii("HTTP/1.1");
    var f := Getting(target, raw);
    assert forall b | b in Line(f) :: b in f.verb || b in f.target || b in f.version || b == SPACE;
  }

  lemma AdmittedIsAllowed(v6: Bytes -> bool, head: Bytes, raw: Headers, r: Request)
    requires Admits(v6, head, raw, r)
    ensures Receive(v6, head) == Allowed(r)
  {
    hide Receive, Ascii, HeadText, AllPrintable, Utf8.Scan, Urls.GoodTarget, HostOk, NoBody, Given, Listed, Says, Canonicals,
         DistinctTokens, ValidKey, Formal, Line, RequestLine;
    GettingFormal(r.target, raw);
    AnyRequest(v6, Getting(r.target, raw));
  }

  lemma AllowedIsAdmitted(v6: Bytes -> bool, head: Bytes, r: Request) returns (raw: Headers)
    requires Receive(v6, head) == Allowed(r)
    ensures Admits(v6, head, raw, r)
  {
    hide Receive, Ascii, HeadText, AllPrintable, Utf8.Scan, Urls.GoodTarget, HostOk, NoBody, Given, Listed, Says, Canonicals,
         DistinctTokens, ValidKey, IsValue;
    var form := EveryHead(v6, head);
    raw := form.value.raw;
  }

  /** A byte string is accepted as a request if and only if it is one. */
  lemma AcceptedExactly(v6: Bytes -> bool, head: Bytes, r: Request)
    ensures Receive(v6, head) == Allowed(r) <==> exists raw :: Admits(v6, head, raw, r)
  {
    hide Receive, Admits;
    if Receive(v6, head) == Allowed(r) {
      var raw := AllowedIsAdmitted(v6, head, r);
    }
    if raw :| Admits(v6, head, raw, r) {
      AdmittedIsAllowed(v6, head, raw, r);
    }
  }

  /** A header as the application gets it: a lower-case token with a value free of blanks at its ends. */
  predicate CleanHeader(h: Header) {
    IsToken(h.name) && Lower(h.name) == h.name && IsValue(h.value) && Trimmed(h.value)
  }

  lemma CanonicalIsClean(h: Header)
    requires Printable(h)
    ensures CleanHeader(Canonical(h))
  {
    hide Trim;
    var name := h.name;
    forall i | 0 <= i < |name| ensures TokenByte(Lower(name)[i]) {
      assert name[i] in name;
    }
    assert forall b | b in Lower(name) :: exists i | 0 <= i < |name| :: Lower(name)[i] == b;
    TrimmedValue(h.value);
    var lead, tail := TrimExact(h.value);
  }

  /** And what the application gets of it is clean. */
  lemma AcceptedIsClean(v6: Bytes -> bool, head: Bytes, r: Request)
    requires Receive(v6, head) == Allowed(r)
    ensures |r.headers| <= 64 && forall i | 0 <= i < |r.headers| :: CleanHeader(r.headers[i])
  {
    hide Receive, Ascii, HeadText, Utf8.Scan, Urls.GoodTarget, HostOk, NoBody, Given, Listed, Says, CleanHeader,
         DistinctTokens, ValidKey, Canonical, Printable;
    var raw := AllowedIsAdmitted(v6, head, r);
    forall i | 0 <= i < |r.headers| ensures CleanHeader(r.headers[i]) {
      CanonicalIsClean(raw[i]);
    }
  }

  // ----- Answers -----

  /** A status line of a version, a status and a reason, and header lines. */
  datatype Sheet = Sheet(version: Bytes, status: Bytes, reason: Bytes, raw: Headers)

  function StatusLineOf(a: Sheet): Bytes {
    a.version + [SPACE] + (a.status + [SPACE] + a.reason)
  }

  function Paper(a: Sheet): Bytes {
    HeadText(StatusLineOf(a), a.raw)
  }

  predicate Proper(a: Sheet) {
    && SPACE !in a.version && SPACE !in a.status
    && IsValue(StatusLineOf(a)) && AllPrintable(a.raw) && Utf8.Scan(Paper(a)).Ok?
  }

  /** What the client must conclude: the first rule broken has its fault. */
  function Conclusion(expected: Bytes, a: Sheet, protocols: seq<Bytes>): Reply {
    if !Within(StatusLineOf(a), a.raw) || a.version != Ascii("HTTP/1.1") || |a.status| != 3 || !Urls.AllDigits(a.status)
    then Failed(BadHead)
    else if a.status != Ascii("101") then Failed(BadStatus(a.status))
    else if !Says(a.raw, Upgrade, Ascii("websocket")) || !Says(a.raw, Connection, Ascii("upgrade"))
    then Failed(BadUpgrade)
    else if Given(a.raw, Accept) != [expected] then Failed(BadAccept)
    else if Given(a.raw, Extensions) != [] then Failed(Extended)
    else if Given(a.raw, Protocol) == [] then Chosen(None)
    else if |Given(a.raw, Protocol)| == 1 && Given(a.raw, Protocol)[0] in protocols then Chosen(Some(Given(a.raw, Protocol)[0]))
    else Failed(NotOffered)
  }

  lemma ConfirmIs(expected: Bytes, a: Sheet, protocols: seq<Bytes>)
    requires Within(StatusLineOf(a), a.raw) && a.version == Ascii("HTTP/1.1") && a.status == Ascii("101")
    requires |a.status| == 3 && Urls.AllDigits(a.status)
    ensures ConfirmHeaders(expected, Canonicals(a.raw), protocols) == Conclusion(expected, a, protocols)
  {
    hide HasToken, Tokens, One, All, Given, Listed, Lowered, Ascii, Says, Canonicals, Within, StatusLineOf, Urls.AllDigits;
    TokenSaid(a.raw, Upgrade, Ascii("websocket"));
    TokenSaid(a.raw, Connection, Ascii("upgrade"));
    LookedUp(a.raw, Accept);
    SingleIs(Given(a.raw, Accept), expected);
    GivenIs(a.raw, Extensions);
    GivenIs(a.raw, Protocol);
  }

  lemma StatusIs(a: Sheet)
    requires SPACE !in a.version && SPACE !in a.status
    ensures StatusOf(StatusLineOf(a))
         == if a.version == Ascii("HTTP/1.1") && |a.status| == 3 && Urls.AllDigits(a.status) then Some(a.status) else None
  {
    hide Ascii, SplitOnce, Urls.AllDigits;
    SplitOnceAt(a.version, SPACE, a.status + [SPACE] + a.reason);
    SplitOnceAt(a.status, SPACE, a.reason);
  }

  /** Every answer with a status line and any headers at all: the client concludes what it must. */
  lemma AnyAnswer(sha1: Bytes -> Bytes, key: Bytes, a: Sheet, protocols: seq<Bytes>)
    requires Proper(a)
    ensures Confirm(sha1, Paper(a), key, protocols) == Conclusion(AcceptKey(sha1, key), a, protocols)
  {
    hide Parse, StatusOf, StatusLineOf, ConfirmHeaders, Conclusion, Ascii, Canonicals, AllPrintable, IsValue, Utf8.Scan, Within,
         HeadText, AcceptKey, Urls.AllDigits;
    ParseText(StatusLineOf(a), a.raw);
    StatusIs(a);
    var expected := AcceptKey(sha1, key);
    if Within(StatusLineOf(a), a.raw) && a.version == Ascii("HTTP/1.1") && |a.status| == 3 && Urls.AllDigits(a.status)
       && a.status == Ascii("101") {
      ConfirmIs(expected, a, protocols);
    } else {
      Turned(expected, a, protocols);
    }
  }

  lemma Turned(expected: Bytes, a: Sheet, protocols: seq<Bytes>)
    requires !(Within(StatusLineOf(a), a.raw) && a.version == Ascii("HTTP/1.1") && |a.status| == 3 && Urls.AllDigits(a.status)
               && a.status == Ascii("101"))
    ensures Conclusion(expected, a, protocols)
         == if Within(StatusLineOf(a), a.raw) && a.version == Ascii("HTTP/1.1") && |a.status| == 3 && Urls.AllDigits(a.status)
            then Failed(BadStatus(a.status)) else Failed(BadHead)
  {
    hide Ascii, Given, Listed, Says, Within, StatusLineOf, Urls.AllDigits;
  }

  /** Every byte string is such an answer, and judged so, or is no answer at all. */
  lemma EveryAnswer(sha1: Bytes -> Bytes, head: Bytes, key: Bytes, protocols: seq<Bytes>) returns (sheet: Option<Sheet>)
    ensures sheet.Some? ==> Proper(sheet.value) && head == Paper(sheet.value)
    ensures sheet.Some? ==> Confirm(sha1, head, key, protocols) == Conclusion(AcceptKey(sha1, key), sheet.value, protocols)
    ensures sheet.None? ==> Confirm(sha1, head, key, protocols) == Failed(BadHead)
  {
    hide Parse, ConfirmHeaders, Conclusion, Ascii, Canonicals, AllPrintable, IsValue, Utf8.Scan, Within, HeadText, AcceptKey,
         SplitOnce, Urls.AllDigits;
    sheet := None;
    if Parse(head).Some? {
      var raw := ParsedText(head);
      var (start, hs) := Parse(head).value;
      if StatusOf(start).Some? {
        var (version, rest) := SplitOnce(start, SPACE).value;
        SplitOnceParts(start, SPACE);
        var (status, reason) := SplitOnce(rest, SPACE).value;
        SplitOnceParts(rest, SPACE);
        var a := Sheet(version, status, reason, raw);
        AnyAnswer(sha1, key, a, protocols);
        sheet := Some(a);
      }
    }
  }
}
