/** The opening handshake: both sides' messages and both sides' checks. */
module Handshake {
  import opened Basics
  import opened Text
  import opened Http
  import opened Names
  import Base64
  import Heads
  import Urls

  // ----- What a client may add -----

  const RESERVED: seq<Name> :=
    [Host, Upgrade, Connection, ContentLength, TransferEncoding, Key, Version, Protocol, Extensions, Accept]

  predicate Managed(name: Bytes) {
    exists n | n in RESERVED :: Lowered(n) == Lower(name)
  }

  predicate Checked(h: Header) {
    Printable(h) && !Managed(h.name)
  }

  // ----- The server's checks -----

  datatype Request = Request(target: Bytes, headers: Headers, key: Bytes, protocols: seq<Bytes>)
  datatype Verdict = Allowed(request: Request) | Refused(status: nat)

  predicate HostByte(b: Byte) {
    Alphanumeric(b) || b in {33, 36, 37, 38, 39, 40, 41, 42, 43, 44, 45, 46, 59, 61, 95, 126}
  }

  predicate ValidHost(v6: Bytes -> bool, host: Bytes) {
    match Urls.SplitHost(v6, host)
    case Bad(_) => false
    case Parts(name, port) =>
      && ((host != [] && host[0] == Urls.OPEN) || (name != [] && forall b | b in name :: HostByte(b)))
      && (port.Some? ==> Urls.PortText(port.value))
  }

  predicate ValidKey(key: Bytes) {
    |key| == 24 && Base64.Decode(key).Some? && |Base64.Decode(key).value| == 16
  }

  predicate OneHost(v6: Bytes -> bool, hs: Headers) {
    One(hs, Lowered(Host)).Some? && ValidHost(v6, One(hs, Lowered(Host)).value)
  }

  predicate Bodiless(hs: Headers) {
    && All(hs, Lowered(TransferEncoding)) == []
    && forall v | v in All(hs, Lowered(ContentLength)) :: v == Ascii("0")
  }

  /** The checks on headers, in order; each has its own status. */
  function Check(v6: Bytes -> bool, target: Bytes, hs: Headers): Verdict {
    if !OneHost(v6, hs) || |All(hs, Lowered(Origin))| > 1 || !Bodiless(hs) then Refused(400)
    else if !HasToken(hs, Lowered(Upgrade), Ascii("websocket")) then Refused(426)
    else if !HasToken(hs, Lowered(Connection), Ascii("upgrade")) then Refused(400)
    else if One(hs, Lowered(Version)) != Some(Ascii("13")) then Refused(426)
    else
      var key := One(hs, Lowered(Key));
      var protocols := Tokens(hs, Lowered(Protocol));
      if key.None? || !ValidKey(key.value) || protocols.None? then Refused(400)
      else Allowed(Request(target, hs, key.value, protocols.value))
  }

  function CheckStart(v6: Bytes -> bool, start: Bytes, hs: Headers): Verdict {
    var parts := Split(start, SPACE);
    if |parts| != 3 || parts[2] != Ascii("HTTP/1.1") || !Urls.GoodTarget(parts[1]) then Refused(400)
    else if parts[0] != Ascii("GET") then Refused(405)
    else Check(v6, parts[1], hs)
  }

  /** Validates an upgrade request. */
  function Receive(v6: Bytes -> bool, head: Bytes): Verdict {
    match Parse(head)
    case None => Refused(400)
    case Some((start, hs)) => CheckStart(v6, start, hs)
  }

  datatype Incoming = Answer(verdict: Verdict, rest: Bytes) | Closed

  /** What comes when no more bytes do: the end of the input, a read error, or the handshake's deadline. */
  datatype Stop = EndOfInput | ReadError | TimedOut

  /**
    * Reads a request off a stream that brings some chunks and then stops; how the
    * bytes are split makes no difference to the verdict. A head that does not come in
    * time is answered with 408, one that is too large with 431, and a broken stream
    * with nothing.
    */
  method ReceiveStream(v6: Bytes -> bool, chunks: seq<Bytes>, stop: Stop) returns (r: Incoming)
    requires Heads.Reads(chunks)
    ensures forall k: nat | Heads.FirstEnd(Concat(chunks), Some(k)) && k <= Heads.MAX_HEAD ::
              r.Answer? && r.verdict == Receive(v6, Concat(chunks)[..k]) && r.rest <= Concat(chunks)[k..]
    ensures (forall k: nat | Heads.FirstEnd(Concat(chunks), Some(k)) :: k > Heads.MAX_HEAD) ==>
              r == if |Concat(chunks)| > Heads.MAX_HEAD then Answer(Refused(431), [])
                   else if stop == TimedOut then Answer(Refused(408), []) else Closed
  {
    hide Receive, Heads.Reads;
    ghost var all := Concat(chunks);
    var h := Heads.ReadHead(chunks);
    match h
    case Head(head, rest) =>
      ghost var n :| Heads.ReadBy(chunks, n, head, rest);
      Heads.ConcatSplit(chunks, n);
      assert head + rest <= all && all[..|head|] == head && rest <= all[|head|..];
      Heads.Settled(all, [], Some(|head|));
      assert all + [] == all;
      r := Answer(Receive(v6, head), rest);
    case TooLarge => r := Answer(Refused(431), []);
    case EndOfInput => r := if stop == TimedOut then Answer(Refused(408), []) else Closed;
  }

  // ----- The client's request -----

  function RequestLine(target: Bytes): Bytes {
    Ascii("GET") + [SPACE] + target + [SPACE] + Ascii("HTTP/1.1")
  }

  function FixedHeaders(authority: Bytes, key: Bytes): Headers {
    [ Header(Title(Host), authority), Header(Title(Upgrade), Ascii("websocket")),
      Header(Title(Connection), Ascii("Upgrade")), Header(Title(Key), key),
      Header(Title(Version), Ascii("13")) ]
  }

  function ProtocolHeader(protocols: seq<Bytes>): (hs: Headers)
    ensures |hs| <= 1
  {
    if protocols == [] then [] else [Header(Title(Protocol), Join(protocols, SEPARATOR))]
  }

  function RequestHeaders(u: Urls.Url, key: Bytes, protocols: seq<Bytes>, extra: Headers): Headers {
    FixedHeaders(u.authority, key) + ProtocolHeader(protocols) + extra
  }

  function ClientRequest(u: Urls.Url, key: Bytes, protocols: seq<Bytes>, extra: Headers): Bytes {
    Render(RequestLine(u.target), RequestHeaders(u, key, protocols, extra))
  }

  /** Lines with a break after each. */
  function Written(lines: seq<Bytes>): Bytes {
    if lines == [] then [] else Written(lines[..|lines| - 1]) + lines[|lines| - 1] + CRLF
  }

  lemma {:induction false} WrittenJoin(line: Bytes, lines: seq<Bytes>)
    ensures Written([line] + lines) == Join([line] + lines, CRLF) + CRLF
    decreases lines
  {
    if lines == [] {
      assert Written([line]) == [] + line + CRLF;
      assert [line] + lines == [line];
    } else {
      var n := |lines| - 1;
      WrittenJoin(line, lines[..n]);
      assert ([line] + lines)[..n + 1] == [line] + lines[..n];
      JoinLast([line] + lines[..n], lines[n]);
      assert [line] + lines[..n] + [lines[n]] == [line] + lines;
    }
  }

  lemma {:induction false} JoinLast(lines: seq<Bytes>, l: Bytes)
    requires lines != []
    ensures Join(lines + [l], CRLF) == Join(lines, CRLF) + CRLF + l
  {
    if |lines| > 1 {
      JoinLast(lines[1..], l);
      assert (lines + [l])[1..] == lines[1..] + [l];
    }
  }

  lemma WrittenStep(lines: seq<Bytes>, k: nat)
    requires k < |lines|
    ensures Written(lines[..k + 1]) == Written(lines[..k]) + lines[k] + CRLF
  {
    assert lines[..k + 1][..k] == lines[..k];
  }

  lemma LeadWritten(lines: seq<Bytes>)
    requires |lines| >= 6
    ensures Written(lines[..6]) == lines[0] + CRLF + lines[1] + CRLF + lines[2] + CRLF
                                   + lines[3] + CRLF + lines[4] + CRLF + lines[5] + CRLF
  {
    hide Written;
    assert Written(lines[..0]) == [] by { WrittenNone(lines[..0]); }
    WrittenStep(lines, 0);
    WrittenStep(lines, 1);
    WrittenStep(lines, 2);
    WrittenStep(lines, 3);
    WrittenStep(lines, 4);
    WrittenStep(lines, 5);
    assert [] + lines[0] == lines[0];
  }

  lemma WrittenNone(lines: seq<Bytes>)
    requires lines == []
    ensures Written(lines) == []
  {
  }

  /** The request as it is put together, piece by piece. */
  method PrintRequest(u: Urls.Url, key: Bytes, protocols: seq<Bytes>, extra: Headers) returns (out: Bytes)
    ensures out == ClientRequest(u, key, protocols, extra)
  {
    hide HeaderLine, Title, Join, RequestLine, Ascii, Written;
    var fixed := FixedHeaders(u.authority, key);
    ghost var hs := RequestHeaders(u, key, protocols, extra);
    ghost var start := RequestLine(u.target);
    ghost var lines := [start] + HeaderLines(hs);
    out := RequestLine(u.target) + CRLF + HeaderLine(fixed[0]) + CRLF + HeaderLine(fixed[1]) + CRLF
           + HeaderLine(fixed[2]) + CRLF + HeaderLine(fixed[3]) + CRLF + HeaderLine(fixed[4]) + CRLF;
    LeadWritten(lines);
    if protocols != [] {
      var h := ProtocolHeader(protocols)[0];
      WrittenStep(lines, 6);
      assert lines[6] == HeaderLine(h);
      out := out + HeaderLine(h) + CRLF;
    }
    ghost var base := 6 + |ProtocolHeader(protocols)|;
    var i := 0;
    while i < |extra|
      invariant 0 <= i <= |extra| && out == Written(lines[..base + i])
    {
      WrittenStep(lines, base + i);
      assert lines[base + i] == HeaderLine(extra[i]);
      out := out + HeaderLine(extra[i]) + CRLF;
      i := i + 1;
    }
    assert lines[..base + i] == lines;
    WrittenJoin(start, HeaderLines(hs));
    out := out + CRLF;
    assert CRLF + CRLF == Heads.BLANK;
  }

  // ----- The server's answer -----

  const GUID: Bytes := Ascii("258EAFA5-E914-47DA-95CA-C5AB0DC85B11")

  function AcceptKey(sha1: Bytes -> Bytes, key: Bytes): Bytes {
    Base64.Encode(sha1(key + GUID))
  }

  const STATUS_LINE: Bytes := Ascii("HTTP/1.1") + [SPACE] + (Ascii("101") + [SPACE] + Ascii("Switching Protocols"))

  function ChosenHeader(protocol: Option<Bytes>): (hs: Headers)
    ensures |hs| <= 1
  {
    if protocol.None? then [] else [Header(Title(Protocol), protocol.value)]
  }

  function SwitchingHeaders(accept: Bytes, protocol: Option<Bytes>): Headers {
    [ Header(Title(Upgrade), Ascii("websocket")), Header(Title(Connection), Ascii("Upgrade")),
      Header(Title(Accept), accept) ] + ChosenHeader(protocol)
  }

  function Switching(sha1: Bytes -> Bytes, key: Bytes, protocol: Option<Bytes>): Bytes {
    Render(STATUS_LINE, SwitchingHeaders(AcceptKey(sha1, key), protocol))
  }

  // ----- The client's check -----

  datatype Fault = BadHead | BadStatus(status: Bytes) | BadUpgrade | BadAccept | Extended | NotOffered
  datatype Reply = Chosen(protocol: Option<Bytes>) | Failed(fault: Fault)

  /** The three digits of a status line. */
  function StatusOf(start: Bytes): Option<Bytes> {
    match SplitOnce(start, SPACE)
    case None => None
    case Some((version, rest)) =>
      match SplitOnce(rest, SPACE)
      case None => None
      case Some((status, _)) =>
        if version == Ascii("HTTP/1.1") && |status| == 3 && Urls.AllDigits(status) then Some(status) else None
  }

  function ConfirmHeaders(accept: Bytes, hs: Headers, protocols: seq<Bytes>): Reply {
    if !HasToken(hs, Lowered(Upgrade), Ascii("websocket")) || !HasToken(hs, Lowered(Connection), Ascii("upgrade"))
    then Failed(BadUpgrade)
    else if One(hs, Lowered(Accept)) != Some(accept) then Failed(BadAccept)
    else if All(hs, Lowered(Extensions)) != [] then Failed(Extended)
    else
      var chosen := All(hs, Lowered(Protocol));
      if chosen == [] then Chosen(None)
      else if |chosen| == 1 && chosen[0] in protocols then Chosen(Some(chosen[0]))
      else Failed(NotOffered)
  }

  /** Validates the server's answer. */
  function Confirm(sha1: Bytes -> Bytes, head: Bytes, key: Bytes, protocols: seq<Bytes>): Reply {
    match Parse(head)
    case None => Failed(BadHead)
    case Some((start, hs)) =>
      match StatusOf(start)
      case None => Failed(BadHead)
      case Some(status) =>
        if status != Ascii("101") then Failed(BadStatus(status))
        else ConfirmHeaders(AcceptKey(sha1, key), hs, protocols)
  }
}
