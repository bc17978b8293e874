/** The whole exchange: request, answer and confirmation. */
module Agreement {
  import opened Basics
  import opened Text
  import opened Http
  import opened Names
  import opened Handshake
  import opened Opening
  import Base64
  import Heads
  import Urls
  import Utf8

  // ----- Any answer -----

  /** An answer that has each header at most once, with whatever values. */
  datatype Response = Response(
    status: Bytes, reason: Bytes, upgrades: seq<Bytes>, connections: seq<Bytes>, accept: Bytes,
    extensions: Option<Bytes>, protocol: Option<Bytes>, extra: Headers)

  function Optional<T>(o: Option<Bytes>, x: T): seq<T> {
    if o.None? then [] else [x]
  }

  function AnswerNames(f: Response): (names: seq<Name>)
    ensures OwnNames(names)
  {
    [Upgrade, Connection, Accept] + Optional(f.extensions, Extensions) + Optional(f.protocol, Protocol)
  }

  function AnswerValues(f: Response): (values: seq<Bytes>)
    ensures |values| == |AnswerNames(f)|
  {
    [Join(f.upgrades, SEPARATOR), Join(f.connections, SEPARATOR), f.accept]
    + (if f.extensions.None? then [] else [f.extensions.value])
    + if f.protocol.None? then [] else [f.protocol.value]
  }

  function StatusLine(f: Response): Bytes {
    Ascii("HTTP/1.1") + [SPACE] + (f.status + [SPACE] + f.reason)
  }

  function Given(f: Response): Headers {
    Own(AnswerNames(f), AnswerValues(f)) + f.extra
  }

  predicate WellGiven(f: Response) {
    && |f.status| == 3 && Urls.AllDigits(f.status) && IsValue(f.reason) && Utf8.Scan(f.reason).Ok?
    && f.upgrades != [] && AllTokens(f.upgrades) && f.connections != [] && AllTokens(f.connections)
    && Stable(f.accept) && AllChecked(f.extra)
    && (f.extensions.Some? ==> Stable(f.extensions.value)) && (f.protocol.Some? ==> Stable(f.protocol.value))
  }

  /** What the client must conclude. */
  function OrderlyConclusion(expected: Bytes, f: Response, protocols: seq<Bytes>): Reply {
    if !Fits(StatusLine(f), Given(f)) then Failed(BadHead)
    else if f.status != Ascii("101") then Failed(BadStatus(f.status))
    else if !Mentions(f.upgrades, Ascii("websocket")) || !Mentions(f.connections, Ascii("upgrade")) then Failed(BadUpgrade)
    else if f.accept != expected then Failed(BadAccept)
    else if f.extensions.Some? then Failed(Extended)
    else if f.protocol.None? || f.protocol.value in protocols then Chosen(f.protocol)
    else Failed(NotOffered)
  }

  /** The headers a client sees. */
  predicate Answered(hs: Headers, f: Response) {
    && Placed(hs, AnswerNames(f))
    && forall i | 0 <= i < |AnswerNames(f)| :: hs[i].value == AnswerValues(f)[i]
  }

  lemma GivenStable(f: Response)
    requires WellGiven(f)
    ensures forall v | v in AnswerValues(f) :: Stable(v)
  {
    hide Stable, IsToken, Join, AllTokens, AllChecked, Utf8.Scan, IsValue;
    ListStable(f.upgrades);
    ListStable(f.connections);
  }

  lemma GivenSeen(f: Response)
    requires WellGiven(f)
    ensures AllPrintable(Given(f)) && (forall i | 0 <= i < |Given(f)| :: Utf8.Scan(Given(f)[i].value).Ok?)
    ensures Answered(Canonicals(Given(f)), f)
  {
    hide AllTokens, AllChecked, Stable, AllPrintable, Own, Placed, Utf8.Scan, Join, IsValue;
    GivenStable(f);
    Legible(AnswerNames(f), AnswerValues(f), f.extra);
    ReadBack(AnswerNames(f), AnswerValues(f), f.extra);
  }

  lemma ListsSeen(hs: Headers, f: Response)
    requires Answered(hs, f) && WellGiven(f)
    ensures HasToken(hs, Lowered(Upgrade), Ascii("websocket")) <==> Mentions(f.upgrades, Ascii("websocket"))
    ensures HasToken(hs, Lowered(Connection), Ascii("upgrade")) <==> Mentions(f.connections, Ascii("upgrade"))
  {
    hide Lowered, Ascii, HasToken, Mentions, Join, Placed, AllTokens, Stable, AllChecked, Utf8.Scan, IsValue;
    ListFound(hs, AnswerNames(f), 0, f.upgrades, Ascii("websocket"));
    ListFound(hs, AnswerNames(f), 1, f.connections, Ascii("upgrade"));
  }

  lemma ValuesSeen(hs: Headers, f: Response)
    requires Answered(hs, f)
    ensures One(hs, Lowered(Accept)) == Some(f.accept)
    ensures All(hs, Lowered(Extensions)) == if f.extensions.None? then [] else [f.extensions.value]
    ensures All(hs, Lowered(Protocol)) == if f.protocol.None? then [] else [f.protocol.value]
  {
    hide Lowered, All, Join, Placed;
    var names := AnswerNames(f);
    Found(hs, names, 2);
    if f.extensions.None? { NotFound(hs, names, Extensions); } else { Found(hs, names, 3); }
    if f.protocol.None? { NotFound(hs, names, Protocol); } else { Found(hs, names, |names| - 1); }
  }

  lemma StatusRead(f: Response)
    requires WellGiven(f)
    ensures StatusOf(StatusLine(f)) == Some(f.status)
    ensures StatusLine(f) != [] && IsValue(StatusLine(f)) && Utf8.Scan(StatusLine(f)).Ok?
  {
    hide Ascii, SplitOnce, AllTokens, Stable, AllChecked;
    VisibleAscii("HTTP/1.1");
    var a, lead := Ascii("HTTP/1.1"), Ascii("HTTP/1.1") + [SPACE] + f.status + [SPACE];
    SplitOnceAt(a, SPACE, f.status + [SPACE] + f.reason);
    SplitOnceAt(f.status, SPACE, f.reason);
    assert StatusLine(f) == lead + f.reason;
    assert forall x | x in lead :: x in a || x in f.status || x == SPACE;
    AsciiScans(lead);
    ScanConcat(lead, f.reason);
  }

  /**
    * Any answer with each header at most once, whatever its values and the headers
    * added: the client concludes what it must, for the first rule broken.
    */
  lemma OrderlyAnswer(sha1: Bytes -> Bytes, key: Bytes, f: Response, protocols: seq<Bytes>)
    requires WellGiven(f)
    ensures Confirm(sha1, Render(StatusLine(f), Given(f)), key, protocols) == OrderlyConclusion(AcceptKey(sha1, key), f, protocols)
  {
    hide WellGiven, Answered, Given, StatusLine, Ascii, Parse, StatusOf, IsValue, Utf8.Scan, AllPrintable, Fits, Render, Mentions,
         HasToken, One, All, Lowered, AcceptKey;
    StatusRead(f);
    GivenSeen(f);
    RenderScans(StatusLine(f), Given(f));
    ParseRender(StatusLine(f), Given(f));
    ListsSeen(Canonicals(Given(f)), f);
    ValuesSeen(Canonicals(Given(f)), f);
  }

  // ----- The server's own answer -----

  function Replied(accept: Bytes, protocol: Option<Bytes>): Response {
    Response(Ascii("101"), Ascii("Switching Protocols"), [Ascii("websocket")], [Ascii("Upgrade")], accept, None, protocol, [])
  }

  lemma RepliedIsGiven(accept: Bytes, protocol: Option<Bytes>)
    ensures var f := Replied(accept, protocol);
            StatusLine(f) == STATUS_LINE && Given(f) == SwitchingHeaders(accept, protocol)
  {
    hide Title, Ascii;
    var f := Replied(accept, protocol);
    assert Own(AnswerNames(f), AnswerValues(f)) == SwitchingHeaders(accept, protocol);
  }

  lemma PlainAscii(s: string)
    requires forall i | 0 <= i < |s| :: ' ' <= s[i] <= '~'
    ensures forall b | b in Ascii(s) :: 32 <= b < 127
  {
    assert forall b | b in Ascii(s) :: exists i | 0 <= i < |s| :: Ascii(s)[i] == b;
  }

  lemma Digits101()
    ensures Urls.AllDigits(Ascii("101"))
  {
    var s := Ascii("101");
    assert forall b | b in s :: b == s[0] || b == s[1] || b == s[2];
  }

  lemma ReasonClean(reason: Bytes)
    requires forall b | b in reason :: 32 <= b < 127
    ensures IsValue(reason) && Utf8.Scan(reason).Ok?
  {
    AsciiScans(reason);
  }

  lemma RepliedIsWell(accept: Bytes, protocol: Option<Bytes>)
    requires Visible(accept) && (protocol.Some? ==> IsToken(protocol.value))
    ensures WellGiven(Replied(accept, protocol))
    ensures Mentions([Ascii("websocket")], Ascii("websocket")) && Mentions([Ascii("Upgrade")], Ascii("upgrade"))
  {
    hide Ascii, Lower, Visible, Stable, IsToken, IsValue, Utf8.Scan;
    Literals();
    PlainAscii("Switching Protocols");
    ReasonClean(Ascii("Switching Protocols"));
    Digits101();
    VisibleStable(accept);
    if protocol.Some? {
      TokenVisible(protocol.value);
      VisibleStable(protocol.value);
    }
    assert Ascii("websocket") in [Ascii("websocket")] && Ascii("Upgrade") in [Ascii("Upgrade")];
  }

  /** A client's conclusion from a server's own answer. */
  function Settlement(accept: Bytes, expected: Bytes, protocol: Option<Bytes>, protocols: seq<Bytes>): Reply {
    if accept != expected then Failed(BadAccept)
    else if protocol.None? || protocol.value in protocols then Chosen(protocol)
    else Failed(NotOffered)
  }

  /**
    * A client holding `key` that receives the answer to `other`: it takes the
    * protocol exactly when the accept keys agree and the protocol was offered.
    */
  lemma AnswerConfirmed(sha1: Bytes -> Bytes, key: Bytes, other: Bytes, protocol: Option<Bytes>, protocols: seq<Bytes>)
    requires sha1(other + GUID) != [] && (protocol.Some? ==> IsToken(protocol.value))
    requires Fits(STATUS_LINE, SwitchingHeaders(AcceptKey(sha1, other), protocol))
    ensures Confirm(sha1, Switching(sha1, other, protocol), key, protocols)
         == Settlement(AcceptKey(sha1, other), AcceptKey(sha1, key), protocol, protocols)
  {
    hide WellGiven, Given, StatusLine, SwitchingHeaders, Ascii, Confirm, Fits, Render, IsToken, Visible, Base64.Encode, Mentions;
    var accept := AcceptKey(sha1, other);
    EncodedVisible(sha1(other + GUID));
    RepliedIsWell(accept, protocol);
    RepliedIsGiven(accept, protocol);
    OrderlyAnswer(sha1, key, Replied(accept, protocol), protocols);
  }

  /** Accept keys agree only when the digests do. */
  lemma AcceptKeysAgree(sha1: Bytes -> Bytes, key: Bytes, other: Bytes)
    ensures AcceptKey(sha1, key) == AcceptKey(sha1, other) <==> sha1(key + GUID) == sha1(other + GUID)
  {
    Base64.DecodeEncode(sha1(key + GUID));
    Base64.DecodeEncode(sha1(other + GUID));
  }

  // ----- Size -----

  lemma {:induction false} SizeAppend(a: Headers, b: Headers)
    ensures Size(a + b) == Size(a) + Size(b)
  {
    if a == [] {
      assert a + b == b;
    } else {
      assert (a + b)[1..] == a[1..] + b;
      SizeAppend(a[1..], b);
    }
  }

  lemma SizeOne(h: Header)
    ensures Size([h]) == |h.name| + |h.value| + 4
  {
    assert Size([h][1..]) == 0;
  }

  lemma {:induction false} JoinCovers(tokens: seq<Bytes>, t: Bytes)
    requires t in tokens
    ensures |Join(tokens, SEPARATOR)| >= |t|
  {
    if |tokens| > 1 && t != tokens[0] { JoinCovers(tokens[1..], t); }
  }

  lemma TitleSizes()
    ensures |Title(Host)| == 4 && |Title(Upgrade)| == 7 && |Title(Connection)| == 10 && |Title(Key)| == 17
    ensures |Title(Version)| == 21 && |Title(Protocol)| == 22 && |Title(Accept)| == 20
  {
  }

  lemma FixedSize(authority: Bytes, key: Bytes)
    ensures Size(FixedHeaders(authority, key)) == |authority| + |key| + 97
  {
    hide Title, Ascii;
    TitleSizes();
    var f := FixedHeaders(authority, key);
    SizeOne(f[0]);
    SizeOne(f[1]);
    SizeOne(f[2]);
    SizeOne(f[3]);
    SizeOne(f[4]);
    assert f == [f[0]] + ([f[1]] + ([f[2]] + ([f[3]] + [f[4]])));
    SizeAppend([f[0]], [f[1]] + ([f[2]] + ([f[3]] + [f[4]])));
    SizeAppend([f[1]], [f[2]] + ([f[3]] + [f[4]]));
    SizeAppend([f[2]], [f[3]] + [f[4]]);
    SizeAppend([f[3]], [f[4]]);
  }

  lemma RequestSize(u: Urls.Url, key: Bytes, protocols: seq<Bytes>, extra: Headers)
    ensures |ClientRequest(u, key, protocols, extra)|
         == |u.target| + |u.authority| + |key| + 114 + Size(ProtocolHeader(protocols)) + Size(extra)
  {
    hide Title, Ascii, FixedHeaders;
    FixedSize(u.authority, key);
    SizeAppend(FixedHeaders(u.authority, key) + ProtocolHeader(protocols), extra);
    SizeAppend(FixedHeaders(u.authority, key), ProtocolHeader(protocols));
    RenderSize(RequestLine(u.target), RequestHeaders(u, key, protocols, extra));
  }

  lemma AnswerSize(accept: Bytes, protocol: Option<Bytes>)
    ensures |Render(STATUS_LINE, SwitchingHeaders(accept, protocol))|
         == |accept| + 101 + if protocol.None? then 0 else 26 + |protocol.value|
  {
    hide Title, Ascii;
    TitleSizes();
    var hs := SwitchingHeaders(accept, protocol);
    SizeOne(hs[0]);
    SizeOne(hs[1]);
    SizeOne(hs[2]);
    if protocol.Some? { SizeOne(hs[3]); }
    assert hs == [hs[0]] + ([hs[1]] + ([hs[2]] + ChosenHeader(protocol)));
    SizeAppend([hs[0]], [hs[1]] + ([hs[2]] + ChosenHeader(protocol)));
    SizeAppend([hs[1]], [hs[2]] + ChosenHeader(protocol));
    SizeAppend([hs[2]], ChosenHeader(protocol));
    RenderSize(STATUS_LINE, hs);
  }

  lemma OfferSize(protocols: seq<Bytes>, t: Bytes)
    requires t in protocols
    ensures Size(ProtocolHeader(protocols)) >= 26 + |t|
  {
    hide Title;
    TitleSizes();
    SizeOne(ProtocolHeader(protocols)[0]);
    JoinCovers(protocols, t);
  }

  /** An answer is never longer than the request it answers. */
  lemma AnswerFits(u: Urls.Url, key: Bytes, accept: Bytes, protocol: Option<Bytes>, protocols: seq<Bytes>, extra: Headers)
    requires |key| == 24 && |accept| == 28 && u.target != [] && u.authority != []
    requires protocol.Some? ==> protocol.value in protocols
    ensures |Render(STATUS_LINE, SwitchingHeaders(accept, protocol))| < |ClientRequest(u, key, protocols, extra)|
  {
    hide Render, SwitchingHeaders, ClientRequest, ProtocolHeader;
    RequestSize(u, key, protocols, extra);
    AnswerSize(accept, protocol);
    if protocol.Some? { OfferSize(protocols, protocol.value); }
  }

  // ----- The round trip -----

  /** What a connecting client has checked before it writes. */
  ghost predicate Ready(v6: Bytes -> bool, input: Bytes, nonce: Bytes, protocols: seq<Bytes>, extra: Headers) {
    && Urls.V6Facts(v6) && Urls.Parse(v6, input).Ok?
    && |nonce| == 16 && DistinctTokens(protocols) && AllChecked(extra)
  }

  ghost predicate Digest(sha1: Bytes -> Bytes) {
    forall x :: |sha1(x)| == 20
  }

  lemma ReplyFits(u: Urls.Url, nonce: Bytes, sha1: Bytes -> Bytes, protocol: Option<Bytes>, protocols: seq<Bytes>, extra: Headers)
    requires |nonce| == 16 && Digest(sha1) && u.target != [] && u.authority != []
    requires protocol.Some? ==> protocol.value in protocols
    requires Answerable(u, Base64.Encode(nonce), protocols, extra)
    ensures Fits(STATUS_LINE, SwitchingHeaders(AcceptKey(sha1, Base64.Encode(nonce)), protocol))
  {
    hide Render, SwitchingHeaders, RequestHeaders, Base64.Encode, OneOrigin;
    var key := Base64.Encode(nonce);
    Base64.EncodedSize(nonce);
    Base64.EncodedSize(sha1(key + GUID));
    AnswerFits(u, key, AcceptKey(sha1, key), protocol, protocols, extra);
    AnswerCount(AcceptKey(sha1, key), protocol);
  }

  lemma AnswerCount(accept: Bytes, protocol: Option<Bytes>)
    ensures |SwitchingHeaders(accept, protocol)| <= 4
  {
  }

  /**
    * The opening handshake completes. The server recovers exactly what the client
    * asked for, and whatever protocol it picks from that list, or none, the client
    * takes.
    */
  lemma HandshakeCompletes(v6: Bytes -> bool, sha1: Bytes -> Bytes, input: Bytes, nonce: Bytes, protocols: seq<Bytes>,
                           extra: Headers, protocol: Option<Bytes>)
    requires Ready(v6, input, nonce, protocols, extra) && Digest(sha1)
    requires Answerable(Urls.Parse(v6, input).url, Base64.Encode(nonce), protocols, extra)
    requires protocol.Some? ==> protocol.value in protocols
    ensures var u, key := Urls.Parse(v6, input).url, Base64.Encode(nonce);
            && Receive(v6, ClientRequest(u, key, protocols, extra))
               == Allowed(Request(u.target, Canonicals(RequestHeaders(u, key, protocols, extra)), key, protocols))
            && Confirm(sha1, Switching(sha1, key, protocol), key, protocols) == Chosen(protocol)
  {
    hide Urls.Parse, Urls.V6Facts, Urls.Good, Receive, ClientRequest, Base64.Encode, DistinctTokens, AllChecked, Confirm,
         Switching, Answerable, Digest, AcceptKey, SwitchingHeaders, RequestHeaders, Fits;
    var u, key := Urls.Parse(v6, input).url, Base64.Encode(nonce);
    RequestAnswered(v6, input, nonce, protocols, extra);
    Urls.ParsedIsGood(v6, input);
    Nonempty(v6, u);
    ReplyFits(u, nonce, sha1, protocol, protocols, extra);
    assert sha1(key + GUID) != [] by { DigestSize(sha1, key + GUID); }
    assert protocol.Some? ==> IsToken(protocol.value) by {
      if protocol.Some? { OfferedToken(protocols, protocol.value); }
    }
    AnswerConfirmed(sha1, key, key, protocol, protocols);
  }

  lemma Nonempty(v6: Bytes -> bool, u: Urls.Url)
    requires Urls.Good(v6, u)
    ensures u.target != [] && u.authority != []
  {
    AuthorityVisible(v6, u);
  }

  lemma DigestSize(sha1: Bytes -> Bytes, x: Bytes)
    requires Digest(sha1)
    ensures sha1(x) != []
  {
    assert |sha1(x)| == 20;
  }

  lemma OfferedToken(protocols: seq<Bytes>, t: Bytes)
    requires DistinctTokens(protocols) && t in protocols
    ensures IsToken(t)
  {
  }

  /** Either message ends at its first blank line, so any bytes may follow it on the stream. */
  lemma MessagesEnd(v6: Bytes -> bool, u: Urls.Url, key: Bytes, protocols: seq<Bytes>, extra: Headers,
                    accept: Bytes, protocol: Option<Bytes>, more: Bytes)
    requires Urls.Good(v6, u) && Visible(key) && DistinctTokens(protocols) && AllChecked(extra)
    requires Visible(accept) && (protocol.Some? ==> IsToken(protocol.value))
    ensures var sent := ClientRequest(u, key, protocols, extra);
            Heads.FirstEnd(sent + more, Some(|sent|))
    ensures var reply := Render(STATUS_LINE, SwitchingHeaders(accept, protocol));
            Heads.FirstEnd(reply + more, Some(|reply|))
  {
    hide Urls.Good, RequestHeaders, SwitchingHeaders, RequestLine, Visible, AllPrintable, Heads.FirstEnd, Render, Seen, Answered,
         OneOrigin, All, WellGiven, Sent, Line, Given, StatusLine, IsValue, DistinctTokens, AllChecked, IsToken, Mentions, Ascii;
    AskedIsWell(v6, u, key, protocols, extra);
    AskedIsSent(u, key, protocols, extra);
    RequestEnds(Asked(u, key, protocols, extra), more);
    RepliedIsWell(accept, protocol);
    RepliedIsGiven(accept, protocol);
    StatusRead(Replied(accept, protocol));
    GivenSeen(Replied(accept, protocol));
    HeadEnds(STATUS_LINE, SwitchingHeaders(accept, protocol), more);
  }

  lemma RequestEnds(f: Ask, more: Bytes)
    requires WellWritten(f)
    ensures Heads.FirstEnd(Render(Line(f), Sent(f)) + more, Some(|Render(Line(f), Sent(f))|))
  {
    hide Sent, Line, IsValue, AllPrintable, Render, Heads.FirstEnd, Visible, Stable, AllTokens, AllChecked, Seen, All, OneOrigin;
    LineParts(f);
    SentSeen(f);
    HeadEnds(Line(f), Sent(f), more);
  }
}
