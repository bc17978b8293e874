/** What each side of the handshake writes, the other side accepts. */
module Opening {
  import opened Basics
  import opened Text
  import opened Http
  import opened Names
  import opened Handshake
  import Base64
  import Urls
  import Utf8

  // ----- Visible text -----

  predicate Visible(s: Bytes) {
    s != [] && forall b | b in s :: 32 < b < 127
  }

  lemma VisibleIs(s: Bytes)
    requires Visible(s)
    ensures IsValue(s) && Trim(s) == s && Utf8.Scan(s).Ok?
  {
    assert s[0] in s && s[|s| - 1] in s;
    TrimTrimmed(s);
    AsciiScans(s);
  }

  lemma TokenVisible(s: Bytes)
    requires IsToken(s)
    ensures Visible(s)
  {
    TokenBytes(s);
  }

  lemma QuadVisible(x: Bytes)
    requires 1 <= |x| <= 3
    ensures Visible(Base64.Quad(x))
  {
    var s := Base64.Quad(x);
    forall b | b in s ensures 32 < b < 127 {
      assert b == s[0] || b == s[1] || b == s[2] || b == s[3];
    }
  }

  lemma {:induction false} EncodedVisible(x: Bytes)
    requires x != []
    ensures Visible(Base64.Encode(x))
  {
    hide Base64.Quad;
    if |x| <= 3 {
      QuadVisible(x);
    } else {
      QuadVisible(x[..3]);
      EncodedVisible(x[3..]);
    }
  }

  lemma Literals()
    ensures IsToken(Ascii("websocket")) && Lower(Ascii("websocket")) == Ascii("websocket")
    ensures IsToken(Ascii("Upgrade")) && Lower(Ascii("Upgrade")) == Ascii("upgrade")
    ensures Lower(Ascii("upgrade")) == Ascii("upgrade")
  {
    LowersAscii("websocket", "websocket");
    LowersAscii("Upgrade", "upgrade");
    LowersAscii("upgrade", "upgrade");
  }

  lemma Thirteen()
    ensures Visible(Ascii("13"))
  {
    assert forall b | b in Ascii("13") :: b == Ascii("13")[0] || b == Ascii("13")[1];
  }

  // ----- Looking up in a known layout -----

  /** The given names come first, and no managed name follows. */
  predicate Placed(hs: Headers, names: seq<Name>) {
    && |names| <= |hs|
    && (forall i | 0 <= i < |names| :: names[i] in RESERVED && hs[i].name == Lowered(names[i]))
    && (forall i, j | 0 <= i < j < |names| :: names[i] != names[j])
    && forall i | |names| <= i < |hs| :: Unmanaged(hs[i].name)
  }

  predicate Unmanaged(lowered: Bytes) {
    forall n | n in RESERVED :: Lowered(n) != lowered
  }

  lemma Found(hs: Headers, names: seq<Name>, k: nat)
    requires Placed(hs, names) && k < |names|
    ensures All(hs, Lowered(names[k])) == [hs[k].value]
  {
    hide Lowered;
    forall i | 0 <= i < |hs| && i != k ensures hs[i].name != Lowered(names[k]) {
      if i < |names| { NamesDiffer(names[i], names[k]); }
    }
    AllOnce(hs, k, Lowered(names[k]));
  }

  lemma NotFound(hs: Headers, names: seq<Name>, n: Name)
    requires Placed(hs, names) && n in RESERVED && n !in names
    ensures All(hs, Lowered(n)) == []
  {
    hide Lowered;
    forall i | 0 <= i < |hs| ensures hs[i].name != Lowered(n) {
      if i < |names| { NamesDiffer(names[i], n); }
    }
    AllAbsent(hs, Lowered(n));
  }

  lemma OriginsLast(hs: Headers, names: seq<Name>)
    requires Placed(hs, names)
    ensures All(hs, Lowered(Origin)) == All(hs[|names|..], Lowered(Origin))
  {
    hide Lowered;
    var first := hs[..|names|];
    forall i | 0 <= i < |first| ensures first[i].name != Lowered(Origin) {
      NamesDiffer(names[i], Origin);
    }
    AllAbsent(first, Lowered(Origin));
    AllAppend(first, hs[|names|..], Lowered(Origin));
    assert first + hs[|names|..] == hs;
  }

  /** A list of tokens has a word in it, in any case. */
  predicate Mentions(tokens: seq<Bytes>, word: Bytes) {
    exists t | t in tokens :: Lower(t) == Lower(word)
  }

  predicate AllTokens(tokens: seq<Bytes>) {
    forall t | t in tokens :: IsToken(t)
  }

  lemma ListItems(tokens: seq<Bytes>)
    requires tokens != [] && AllTokens(tokens)
    ensures Items([Join(tokens, SEPARATOR)]) == tokens
  {
    hide IsToken, Join, TrimAll, Split;
    ListReadsBack(tokens);
    var values := [Join(tokens, SEPARATOR)];
    assert Items(values[1..]) == [];
  }

  lemma ListFound(hs: Headers, names: seq<Name>, k: nat, tokens: seq<Bytes>, word: Bytes)
    requires Placed(hs, names) && k < |names| && tokens != [] && AllTokens(tokens)
    requires hs[k].value == Join(tokens, SEPARATOR)
    ensures Items(All(hs, Lowered(names[k]))) == tokens
    ensures HasToken(hs, Lowered(names[k]), word) <==> Mentions(tokens, word)
  {
    hide Lowered, AllTokens, All, Join, Lower, Items;
    Found(hs, names, k);
    ListItems(tokens);
  }

  // ----- Reading back what was written -----

  /** A value that survives being written and read. */
  predicate Stable(v: Bytes) {
    IsValue(v) && Trim(v) == v && Utf8.Scan(v).Ok?
  }

  predicate AllChecked(extra: Headers) {
    forall i | 0 <= i < |extra| :: Checked(extra[i]) && Utf8.Scan(extra[i].value).Ok?
  }

  predicate OwnNames(names: seq<Name>) {
    && (forall i | 0 <= i < |names| :: names[i].Written() && names[i] in RESERVED)
    && forall i, j | 0 <= i < j < |names| :: names[i] != names[j]
  }

  function Own(names: seq<Name>, values: seq<Bytes>): (hs: Headers)
    requires |names| == |values| && OwnNames(names)
    ensures |hs| == |names|
  {
    seq(|names|, i requires 0 <= i < |names| => Header(Title(names[i]), values[i]))
  }

  lemma OwnHeader(n: Name, v: Bytes)
    requires n.Written() && Stable(v)
    ensures Printable(Header(Title(n), v)) && Canonical(Header(Title(n), v)) == Header(Lowered(n), v)
  {
    hide Title, Lowered, Trim;
    TitleIs(n);
  }

  lemma Legible(names: seq<Name>, values: seq<Bytes>, extra: Headers)
    requires |names| == |values| && OwnNames(names) && AllChecked(extra)
    requires forall i | 0 <= i < |values| :: Stable(values[i])
    ensures AllPrintable(Own(names, values) + extra)
    ensures forall i | 0 <= i < |Own(names, values) + extra| :: Utf8.Scan((Own(names, values) + extra)[i].value).Ok?
  {
    hide Title, Lowered, IsToken, Printable, Utf8.Scan;
    var hs := Own(names, values) + extra;
    forall i | 0 <= i < |hs| ensures Printable(hs[i]) && Utf8.Scan(hs[i].value).Ok? {
      if i < |names| { OwnHeader(names[i], values[i]); } else { assert Checked(extra[i - |names|]); }
    }
  }

  /** The reader finds the writer's own headers first, then the caller's. */
  lemma ReadBack(names: seq<Name>, values: seq<Bytes>, extra: Headers)
    requires |names| == |values| && OwnNames(names) && AllChecked(extra)
    requires forall i | 0 <= i < |values| :: Stable(values[i])
    ensures var hs := Canonicals(Own(names, values) + extra);
            && Placed(hs, names) && hs[|names|..] == Canonicals(extra)
            && forall i | 0 <= i < |names| :: hs[i].value == values[i]
  {
    hide Title, Lowered, IsToken, Printable, Stable, Lower;
    var sent := Own(names, values) + extra;
    var hs := Canonicals(sent);
    forall i | 0 <= i < |names| ensures hs[i] == Header(Lowered(names[i]), values[i]) {
      OwnHeader(names[i], values[i]);
    }
    forall i | |names| <= i < |hs| ensures Unmanaged(hs[i].name) {
      assert Checked(extra[i - |names|]);
    }
    assert hs[|names|..] == Canonicals(extra);
  }

  // ----- Any request -----

  function RequestNames(protocols: seq<Bytes>): (names: seq<Name>)
    ensures OwnNames(names)
  {
    [Host, Upgrade, Connection, Key, Version] + if protocols == [] then [] else [Protocol]
  }

  /** A request that has each header once, with whatever values. */
  datatype Ask = Ask(
    verb: Bytes, target: Bytes, host: Bytes, upgrades: seq<Bytes>, connections: seq<Bytes>,
    key: Bytes, version: Bytes, protocols: seq<Bytes>, extra: Headers)

  predicate WellWritten(f: Ask) {
    && IsToken(f.verb) && Visible(f.target) && Stable(f.host) && Stable(f.key) && Stable(f.version)
    && f.upgrades != [] && AllTokens(f.upgrades) && f.connections != [] && AllTokens(f.connections)
    && AllTokens(f.protocols) && AllChecked(f.extra)
  }

  function Values(f: Ask): (values: seq<Bytes>)
    ensures |values| == |RequestNames(f.protocols)|
  {
    [f.host, Join(f.upgrades, SEPARATOR), Join(f.connections, SEPARATOR), f.key, f.version]
    + if f.protocols == [] then [] else [Join(f.protocols, SEPARATOR)]
  }

  function Line(f: Ask): Bytes {
    f.verb + [SPACE] + f.target + [SPACE] + Ascii("HTTP/1.1")
  }

  function Sent(f: Ask): Headers {
    Own(RequestNames(f.protocols), Values(f)) + f.extra
  }

  predicate OneOrigin(extra: Headers) {
    |All(Canonicals(extra), Lowered(Origin))| <= 1
  }

  /** What the server must decide, and the status of a refusal. */
  function OrderlyRuling(v6: Bytes -> bool, f: Ask): Verdict {
    if !Fits(Line(f), Sent(f)) || !Urls.GoodTarget(f.target) then Refused(400)
    else if f.verb != Ascii("GET") then Refused(405)
    else if !ValidHost(v6, f.host) || !OneOrigin(f.extra) then Refused(400)
    else if !Mentions(f.upgrades, Ascii("websocket")) then Refused(426)
    else if !Mentions(f.connections, Ascii("upgrade")) then Refused(400)
    else if f.version != Ascii("13") then Refused(426)
    else if !ValidKey(f.key) || !Distinct(f.protocols) then Refused(400)
    else Allowed(Request(f.target, Canonicals(Sent(f)), f.key, f.protocols))
  }

  lemma VisibleStable(s: Bytes)
    requires Visible(s)
    ensures Stable(s)
  {
    VisibleIs(s);
  }

  lemma ListStable(tokens: seq<Bytes>)
    requires tokens != [] && AllTokens(tokens)
    ensures Stable(Join(tokens, SEPARATOR))
  {
    ListTrimmed(tokens);
    TrimTrimmed(Join(tokens, SEPARATOR));
    AsciiScans(Join(tokens, SEPARATOR));
  }

  lemma ValuesStable(f: Ask)
    requires WellWritten(f)
    ensures forall v | v in Values(f) :: Stable(v)
  {
    hide Stable, Visible, IsToken, Join, AllTokens, AllChecked;
    ListStable(f.upgrades);
    ListStable(f.connections);
    if f.protocols != [] { ListStable(f.protocols); }
  }

  /** The headers a server sees. */
  predicate Seen(hs: Headers, f: Ask) {
    && Placed(hs, RequestNames(f.protocols))
    && forall i | 0 <= i < |RequestNames(f.protocols)| :: hs[i].value == Values(f)[i]
  }

  lemma SeenHost(hs: Headers, f: Ask)
    requires Seen(hs, f)
    ensures One(hs, Lowered(Host)) == Some(f.host) && Bodiless(hs)
  {
    hide Lowered, Placed, Join;
    var names := RequestNames(f.protocols);
    Found(hs, names, 0);
    NotFound(hs, names, TransferEncoding);
    NotFound(hs, names, ContentLength);
  }

  lemma SeenUpgrade(hs: Headers, f: Ask)
    requires Seen(hs, f) && WellWritten(f)
    ensures HasToken(hs, Lowered(Upgrade), Ascii("websocket")) <==> Mentions(f.upgrades, Ascii("websocket"))
    ensures HasToken(hs, Lowered(Connection), Ascii("upgrade")) <==> Mentions(f.connections, Ascii("upgrade"))
  {
    hide Lowered, Ascii, HasToken, Mentions, Join, Placed, AllTokens, IsToken, Stable, Visible, AllChecked;
    ListFound(hs, RequestNames(f.protocols), 1, f.upgrades, Ascii("websocket"));
    ListFound(hs, RequestNames(f.protocols), 2, f.connections, Ascii("upgrade"));
  }

  lemma SeenKey(hs: Headers, f: Ask)
    requires Seen(hs, f)
    ensures One(hs, Lowered(Key)) == Some(f.key) && One(hs, Lowered(Version)) == Some(f.version)
  {
    hide Lowered, Placed, Join;
    Found(hs, RequestNames(f.protocols), 3);
    Found(hs, RequestNames(f.protocols), 4);
  }

  /** The server recovers the protocols, or refuses a list that repeats one. */
  lemma SeenProtocols(hs: Headers, f: Ask)
    requires Seen(hs, f) && WellWritten(f)
    ensures Tokens(hs, Lowered(Protocol)) == if Distinct(f.protocols) then Some(f.protocols) else None
  {
    hide Lowered, IsToken, Join, All, Placed, Stable, Visible, AllChecked, HasToken, Mentions;
    var names := RequestNames(f.protocols);
    if f.protocols == [] {
      NotFound(hs, names, Protocol);
    } else {
      ListFound(hs, names, 5, f.protocols, []);
      assert forall i | 0 <= i < |f.protocols| :: f.protocols[i] in f.protocols;
    }
  }

  /** The header checks, on any headers so laid out. */
  lemma CheckSeen(v6: Bytes -> bool, hs: Headers, f: Ask)
    requires Seen(hs, f) && WellWritten(f)
    ensures Check(v6, f.target, hs) ==
      if !ValidHost(v6, f.host) || |All(hs, Lowered(Origin))| > 1 then Refused(400)
      else if !Mentions(f.upgrades, Ascii("websocket")) then Refused(426)
      else if !Mentions(f.connections, Ascii("upgrade")) then Refused(400)
      else if f.version != Ascii("13") then Refused(426)
      else if !ValidKey(f.key) || !Distinct(f.protocols) then Refused(400)
      else Allowed(Request(f.target, hs, f.key, f.protocols))
  {
    hide Seen, WellWritten, ValidHost, ValidKey, Bodiless, HasToken, One, Tokens, All, Lowered, Ascii, Mentions, Distinct;
    SeenHost(hs, f);
    SeenUpgrade(hs, f);
    SeenKey(hs, f);
    SeenProtocols(hs, f);
  }

  lemma LineParts(f: Ask)
    requires IsToken(f.verb) && Visible(f.target)
    ensures Split(Line(f), SPACE) == [f.verb, f.target, Ascii("HTTP/1.1")]
    ensures Line(f) != [] && IsValue(Line(f)) && Utf8.Scan(Line(f)).Ok?
  {
    hide Ascii, Split;
    TokenVisible(f.verb);
    VisibleAscii("HTTP/1.1");
    var a, b := f.verb, Ascii("HTTP/1.1");
    assert Line(f) == a + [SPACE] + (f.target + [SPACE] + b);
    SplitAt(a, SPACE, f.target + [SPACE] + b);
    SplitAt(f.target, SPACE, b);
    SplitNone(b, SPACE);
    assert forall c | c in Line(f) :: c in a || c in f.target || c in b || c == SPACE;
    AsciiScans(Line(f));
  }

  lemma VisibleAscii(s: string)
    requires s != "" && forall i | 0 <= i < |s| :: ' ' < s[i] <= '~'
    ensures Visible(Ascii(s))
  {
    assert forall b | b in Ascii(s) :: exists i | 0 <= i < |s| :: Ascii(s)[i] == b;
  }

  lemma SentSeen(f: Ask)
    requires WellWritten(f)
    ensures AllPrintable(Sent(f)) && (forall i | 0 <= i < |Sent(f)| :: Utf8.Scan(Sent(f)[i].value).Ok?)
    ensures Seen(Canonicals(Sent(f)), f)
    ensures |All(Canonicals(Sent(f)), Lowered(Origin))| <= 1 <==> OneOrigin(f.extra)
  {
    hide AllTokens, AllChecked, Visible, Stable, AllPrintable, Own, Placed, All, Lowered, Utf8.Scan, Join, IsToken;
    var names, values := RequestNames(f.protocols), Values(f);
    ValuesStable(f);
    Legible(names, values, f.extra);
    ReadBack(names, values, f.extra);
    OriginsLast(Canonicals(Sent(f)), names);
  }

  /**
    * Any request with each header once, whatever its values and the headers added:
    * the server's verdict is the ruling, with the status of the first rule broken.
    */
  lemma OrderlyRequest(v6: Bytes -> bool, f: Ask)
    requires WellWritten(f)
    ensures Receive(v6, Render(Line(f), Sent(f))) == OrderlyRuling(v6, f)
  {
    hide Urls.GoodTarget, Fits, Sent, Line, Parse, Check, Seen, Visible, Stable, AllTokens, AllChecked, AllPrintable, ValidHost,
         ValidKey, Ascii, Split, OneOrigin, Render, Utf8.Scan, Mentions, Distinct, IsToken, All;
    LineParts(f);
    SentSeen(f);
    RenderScans(Line(f), Sent(f));
    ParseRender(Line(f), Sent(f));
    CheckSeen(v6, Canonicals(Sent(f)), f);
  }

  // ----- The client's own request -----

  function Asked(u: Urls.Url, key: Bytes, protocols: seq<Bytes>, extra: Headers): Ask {
    Ask(Ascii("GET"), u.target, u.authority, [Ascii("websocket")], [Ascii("Upgrade")], key, Ascii("13"), protocols, extra)
  }

  lemma AskedIsSent(u: Urls.Url, key: Bytes, protocols: seq<Bytes>, extra: Headers)
    ensures var f := Asked(u, key, protocols, extra);
            Line(f) == RequestLine(u.target) && Sent(f) == RequestHeaders(u, key, protocols, extra)
  {
    hide Title, Ascii;
    var f := Asked(u, key, protocols, extra);
    assert Own(RequestNames(protocols), Values(f)) == FixedHeaders(u.authority, key) + ProtocolHeader(protocols);
  }

  lemma AuthorityVisible(v6: Bytes -> bool, u: Urls.Url)
    requires Urls.Good(v6, u)
    ensures Visible(u.authority) && ValidHost(v6, u.authority)
  {
    hide Urls.SplitHost, Urls.GoodTarget, Urls.Authority;
    Urls.AuthorityClean(v6, u);
    if COLON in u.host { Urls.V6Splits(v6, u); } else { Urls.NameSplits(v6, u); }
    Urls.PortDigits(u.port);
  }

  lemma TargetVisible(target: Bytes)
    requires Urls.GoodTarget(target)
    ensures Visible(target)
  {
  }

  lemma KeyIsValid(nonce: Bytes)
    requires |nonce| == 16
    ensures ValidKey(Base64.Encode(nonce)) && Visible(Base64.Encode(nonce))
  {
    hide Base64.Encode, Base64.Decode, Visible;
    Base64.DecodeEncode(nonce);
    Base64.EncodedSize(nonce);
    EncodedVisible(nonce);
  }

  lemma GetIsToken()
    ensures IsToken(Ascii("GET"))
  {
    LowersAscii("GET", "get");
  }

  lemma AskedIsWell(v6: Bytes -> bool, u: Urls.Url, key: Bytes, protocols: seq<Bytes>, extra: Headers)
    requires Urls.Good(v6, u) && Visible(key) && DistinctTokens(protocols) && AllChecked(extra)
    ensures WellWritten(Asked(u, key, protocols, extra))
    ensures Mentions([Ascii("websocket")], Ascii("websocket")) && Mentions([Ascii("Upgrade")], Ascii("upgrade"))
  {
    hide Urls.GoodHost, Urls.Authority, Urls.GoodTarget, Ascii, Lower, Visible, Stable, AllChecked, IsToken, ValidHost;
    Literals();
    GetIsToken();
    Thirteen();
    AuthorityVisible(v6, u);
    TargetVisible(u.target);
    VisibleStable(u.authority);
    VisibleStable(key);
    VisibleStable(Ascii("13"));
    assert Ascii("websocket") in [Ascii("websocket")] && Ascii("Upgrade") in [Ascii("Upgrade")];
  }

  /** The request is within the limits and names at most one origin. */
  predicate Answerable(u: Urls.Url, key: Bytes, protocols: seq<Bytes>, extra: Headers) {
    Fits(RequestLine(u.target), RequestHeaders(u, key, protocols, extra)) && OneOrigin(extra)
  }

  function Expected(u: Urls.Url, key: Bytes, protocols: seq<Bytes>, extra: Headers): Verdict {
    if Answerable(u, key, protocols, extra)
    then Allowed(Request(u.target, Canonicals(RequestHeaders(u, key, protocols, extra)), key, protocols))
    else Refused(400)
  }

  lemma GoodAnswered(v6: Bytes -> bool, u: Urls.Url, nonce: Bytes, protocols: seq<Bytes>, extra: Headers)
    requires Urls.Good(v6, u)
    requires |nonce| == 16 && DistinctTokens(protocols) && AllChecked(extra)
    ensures var key := Base64.Encode(nonce);
            Receive(v6, ClientRequest(u, key, protocols, extra)) == Expected(u, key, protocols, extra)
  {
    hide Urls.GoodHost, Urls.GoodTarget, Urls.Authority, Fits, RequestHeaders, RequestLine, AllChecked, IsToken, Sent, Line,
         Visible, ValidHost, ValidKey, Ascii, OneOrigin, Render, Base64.Encode, Receive, WellWritten, Mentions;
    var key := Base64.Encode(nonce);
    var f := Asked(u, key, protocols, extra);
    KeyIsValid(nonce);
    AuthorityVisible(v6, u);
    AskedIsWell(v6, u, key, protocols, extra);
    AskedIsSent(u, key, protocols, extra);
    OrderlyRequest(v6, f);
  }

  /**
    * The server answers a client's request: it recovers the target, the key, the
    * protocols and every header, and it refuses exactly when the caller added a
    * second Origin header or went over the size or header limit.
    */
  lemma RequestAnswered(v6: Bytes -> bool, input: Bytes, nonce: Bytes, protocols: seq<Bytes>, extra: Headers)
    requires Urls.V6Facts(v6) && Urls.Parse(v6, input).Ok?
    requires |nonce| == 16 && DistinctTokens(protocols) && AllChecked(extra)
    ensures var u, key := Urls.Parse(v6, input).url, Base64.Encode(nonce);
            Receive(v6, ClientRequest(u, key, protocols, extra)) == Expected(u, key, protocols, extra)
  {
    hide Urls.Parse, Urls.V6Facts, Urls.Good, Receive, Expected, ClientRequest, Base64.Encode, DistinctTokens, AllChecked;
    Urls.ParsedIsGood(v6, input);
    GoodAnswered(v6, Urls.Parse(v6, input).url, nonce, protocols, extra);
  }
}
