/** The handshake letter by letter: its alphabets, its names and its messages. */
module Wire {
  import opened Basics
  import opened Text
  import opened Http
  import opened Names
  import opened Handshake
  import opened Locators
  import Base64
  import Heads
  import Urls

  // ----- Alphabets -----

  /** The delimiters of section 5.6.2 of RFC 9110, which no token holds. */
  const DELIMITERS: Bytes := [34, 40, 41, 44, 47, 58, 59, 60, 61, 62, 63, 64, 91, 92, 93, 123, 125]

  lemma TokenBytesAre(b: Byte)
    ensures TokenByte(b) <==> 33 <= b <= 126 && b !in DELIMITERS
  {
  }

  lemma DelimitersAre()
    ensures DELIMITERS == Ascii("\"(),/:;<=>?@[\\]{}")
  {
    assert forall i | 0 <= i < 17 :: DELIMITERS[i] == Ascii("\"(),/:;<=>?@[\\]{}")[i];
  }

  /** A value holds no control character but the tab. */
  lemma ValueBytesAre(b: Byte)
    ensures ValueByte(b) <==> b == 9 || 32 <= b <= 126 || 128 <= b
  {
  }

  /** The base64 alphabet of table 1 of RFC 4648. */
  lemma LettersAre(v: Base64.Sextet)
    ensures v < 26 ==> Base64.Letter(v) == "ABCDEFGHIJKLMNOPQRSTUVWXYZ"[v] as int
    ensures 26 <= v < 52 ==> Base64.Letter(v) == "abcdefghijklmnopqrstuvwxyz"[v - 26] as int
    ensures 52 <= v ==> Base64.Letter(v) == "0123456789+/"[v - 52] as int
  {
    assert forall i | 0 <= i < 26 :: "ABCDEFGHIJKLMNOPQRSTUVWXYZ"[i] as int == 65 + i;
    assert forall i | 0 <= i < 26 :: "abcdefghijklmnopqrstuvwxyz"[i] as int == 97 + i;
  }

  // ----- Names -----

  function NameText(n: Name): string {
    match n
    case Host => "host"
    case Upgrade => "upgrade"
    case Connection => "connection"
    case ContentLength => "content-length"
    case TransferEncoding => "transfer-encoding"
    case Key => "sec-websocket-key"
    case Version => "sec-websocket-version"
    case Protocol => "sec-websocket-protocol"
    case Extensions => "sec-websocket-extensions"
    case Accept => "sec-websocket-accept"
    case Origin => "origin"
  }

  lemma NameTexts(n: Name)
    ensures Lowered(n) == Ascii(NameText(n))
  {
    if n.Socket() {
      assert "sec-websocket-" + n.Lower() == NameText(n);
    }
  }

  /** The headers a caller may not set are the ten that the handshake sets or reads, in any letter case; it may set Origin. */
  lemma ManagedExact(name: Bytes)
    ensures Managed(name) <==> exists n: Name | n != Origin :: Lower(name) == Ascii(NameText(n))
  {
    hide Lowered, Ascii, NameText, Lower;
    forall n: Name ensures Lowered(n) == Ascii(NameText(n)) {
      NameTexts(n);
    }
    forall n: Name ensures n in RESERVED <==> n != Origin {
      ReservedAre(n);
    }
  }

  lemma ReservedAre(n: Name)
    ensures n in RESERVED <==> n != Origin
  {
    assert n.Host? ==> RESERVED[0] == n;
    assert n.Upgrade? ==> RESERVED[1] == n;
    assert n.Connection? ==> RESERVED[2] == n;
    assert n.ContentLength? ==> RESERVED[3] == n;
    assert n.TransferEncoding? ==> RESERVED[4] == n;
    assert n.Key? ==> RESERVED[5] == n;
    assert n.Version? ==> RESERVED[6] == n;
    assert n.Protocol? ==> RESERVED[7] == n;
    assert n.Extensions? ==> RESERVED[8] == n;
    assert n.Accept? ==> RESERVED[9] == n;
  }

  // ----- Hosts and keys -----

  /** A letter, a digit or one of the marks that a registered name may hold. */
  predicate RegisteredByte(b: Byte) {
    48 <= b <= 57 || 65 <= b <= 90 || 97 <= b <= 122 || b in Ascii("-._~!$&'()*+,;=%")
  }

  lemma RegisteredMarks()
    ensures Ascii("-._~!$&'()*+,;=%") == [45, 46, 95, 126, 33, 36, 38, 39, 40, 41, 42, 43, 44, 59, 61, 37]
  {
  }

  lemma RegisteredBytes(b: Byte)
    ensures RegisteredByte(b) <==> Handshake.HostByte(b)
  {
    hide Ascii;
    RegisteredMarks();
  }

  /** A Host value: an address in brackets or a name, and perhaps a port of one to five digits. */
  predicate HostText(v6: Bytes -> bool, bracketed: bool, name: Bytes, port: Option<Bytes>) {
    && (if bracketed then v6(name) && CLOSING !in name else name != [] && forall b | b in name :: RegisteredByte(b))
    && (port.Some? ==> 1 <= |port.value| <= 5 && Urls.AllDigits(port.value))
  }

  const CLOSING: Byte := 93

  function HostValue(bracketed: bool, name: Bytes, port: Option<Bytes>): Bytes {
    Enclosed(bracketed, name) + PortPart(port)
  }

  lemma HostTextIsValid(v6: Bytes -> bool, bracketed: bool, name: Bytes, port: Option<Bytes>)
    requires HostText(v6, bracketed, name, port)
    ensures ValidHost(v6, HostValue(bracketed, name, port))
  {
    hide Ascii, Urls.AllDigits;
    Letters();
    var host, part := HostValue(bracketed, name, port), PortPart(port);
    if bracketed {
      assert host == [Urls.OPEN] + name + [Urls.CLOSE] + part;
      Urls.SplitV6(v6, name, part);
      assert part != [] ==> part[1..] == port.value;
    } else {
      forall b | b in name ensures Handshake.HostByte(b) { RegisteredBytes(b); }
      assert host[0] == name[0] && name[0] in name;
      if port.None? {
        assert host == name;
        SplitOnceNone(name, COLON);
      } else {
        assert host == name + [COLON] + port.value;
        SplitOnceAt(name, COLON, port.value);
      }
    }
  }

  lemma ValidHostIsText(v6: Bytes -> bool, host: Bytes) returns (bracketed: bool, name: Bytes, port: Option<Bytes>)
    requires ValidHost(v6, host)
    ensures HostText(v6, bracketed, name, port) && host == HostValue(bracketed, name, port)
  {
    hide Ascii, Urls.AllDigits, Urls.SplitHost;
    HostParts(v6, host);
    bracketed := host != [] && host[0] == Urls.OPEN;
    name, port := Urls.SplitHost(v6, host).host, Urls.SplitHost(v6, host).port;
    if !bracketed {
      forall b | b in name ensures RegisteredByte(b) { RegisteredBytes(b); }
    }
  }

  /** A Host value is valid if and only if it has that form. */
  lemma ValidHostExact(v6: Bytes -> bool, host: Bytes)
    ensures ValidHost(v6, host)
            <==> exists bracketed, name, port :: HostText(v6, bracketed, name, port) && host == HostValue(bracketed, name, port)
  {
    hide ValidHost, HostText, HostValue;
    if ValidHost(v6, host) {
      var bracketed, name, port := ValidHostIsText(v6, host);
    }
    if bracketed, name, port :| HostText(v6, bracketed, name, port) && host == HostValue(bracketed, name, port) {
      HostTextIsValid(v6, bracketed, name, port);
    }
  }

  /** A key is valid if and only if it is the encoding of sixteen octets. */
  lemma ValidKeyExact(key: Bytes)
    ensures ValidKey(key) <==> exists nonce :: |nonce| == 16 && key == Base64.Encode(nonce)
  {
    hide Base64.Decode, Base64.Encode;
    if ValidKey(key) {
      Base64.EncodeDecode(key);
    }
    if nonce :| |nonce| == 16 && key == Base64.Encode(nonce) {
      Base64.DecodeEncode(nonce);
      Base64.EncodedSize(nonce);
    }
  }

  // ----- Messages -----

  function HeaderText(name: Bytes, value: Bytes): Bytes {
    name + Ascii(": ") + value + Ascii("\r\n")
  }

  /** Header lines one after the other. */
  function Printed(hs: Headers): Bytes {
    if hs == [] then [] else HeaderText(hs[0].name, hs[0].value) + Printed(hs[1..])
  }

  lemma Breaks()
    ensures CRLF == Ascii("\r\n") && [COLON, SPACE] == Ascii(": ") && SEPARATOR == Ascii(", ")
  {
    assert Ascii("\r\n") == [13, 10] && Ascii(": ") == [58, 32] && Ascii(", ") == [44, 32];
  }

  lemma {:induction false} PrintedAppend(a: Headers, b: Headers)
    ensures Printed(a + b) == Printed(a) + Printed(b)
  {
    hide HeaderText;
    if a == [] {
      assert a + b == b;
    } else {
      assert (a + b)[1..] == a[1..] + b;
      PrintedAppend(a[1..], b);
    }
  }

  lemma PrintedOne(h: Header)
    ensures Printed([h]) == HeaderText(h.name, h.value)
  {
    hide HeaderText;
    assert [h][1..] == [];
    assert Printed([h][1..]) == [];
  }

  lemma {:induction false} JoinPrinted(line: Bytes, hs: Headers)
    ensures Join([line] + HeaderLines(hs), CRLF) + CRLF == line + CRLF + Printed(hs)
    decreases |hs|
  {
    hide Ascii;
    Breaks();
    var lines := [line] + HeaderLines(hs);
    if hs == [] {
      assert lines == [line];
    } else {
      var l := HeaderLine(hs[0]);
      assert lines[1..] == [l] + HeaderLines(hs[1..]);
      JoinPrinted(l, hs[1..]);
      assert HeaderText(hs[0].name, hs[0].value) == l + CRLF;
    }
  }

  /** A head as it goes out: its start line, its header lines and an empty line. */
  lemma RenderText(start: Bytes, hs: Headers)
    ensures Render(start, hs) == start + Ascii("\r\n") + Printed(hs) + Ascii("\r\n")
  {
    hide Ascii, Join, Printed;
    Breaks();
    JoinPrinted(start, hs);
    assert Heads.BLANK == CRLF + CRLF;
  }

  lemma Titles()
    ensures Title(Host) == Ascii("Host") && Title(Upgrade) == Ascii("Upgrade") && Title(Connection) == Ascii("Connection")
    ensures Title(Key) == Ascii("Sec-WebSocket-Key") && Title(Version) == Ascii("Sec-WebSocket-Version")
    ensures Title(Protocol) == Ascii("Sec-WebSocket-Protocol") && Title(Accept) == Ascii("Sec-WebSocket-Accept")
  {
    assert "Sec-WebSocket-" + "Key" == "Sec-WebSocket-Key" && "Sec-WebSocket-" + "Version" == "Sec-WebSocket-Version";
    assert "Sec-WebSocket-" + "Protocol" == "Sec-WebSocket-Protocol" && "Sec-WebSocket-" + "Accept" == "Sec-WebSocket-Accept";
  }

  lemma PrintedFive(a: Header, b: Header, c: Header, d: Header, e: Header)
    ensures Printed([a, b, c, d, e]) == HeaderText(a.name, a.value) + HeaderText(b.name, b.value) + HeaderText(c.name, c.value)
                                        + HeaderText(d.name, d.value) + HeaderText(e.name, e.value)
  {
    hide HeaderText, Printed;
    PrintedThree(a, b, c);
    PrintedOne(d);
    PrintedOne(e);
    PrintedAppend([a, b, c], [d]);
    PrintedAppend([a, b, c] + [d], [e]);
    assert [a, b, c] + [d] + [e] == [a, b, c, d, e];
  }

  lemma PrintedThree(a: Header, b: Header, c: Header)
    ensures Printed([a, b, c]) == HeaderText(a.name, a.value) + HeaderText(b.name, b.value) + HeaderText(c.name, c.value)
  {
    hide HeaderText, Printed;
    PrintedOne(a);
    PrintedOne(b);
    PrintedOne(c);
    PrintedAppend([a], [b]);
    PrintedAppend([a] + [b], [c]);
    assert [a] + [b] + [c] == [a, b, c];
  }

  /** The line that names the protocols, if there are any. */
  function ProtocolText(value: Option<Bytes>): Bytes {
    if value.None? then [] else HeaderText(Ascii("Sec-WebSocket-Protocol"), value.value)
  }

  /** The request, letter by letter: its own lines, the protocols, and what the caller adds. */
  lemma RequestText(u: Urls.Url, key: Bytes, protocols: seq<Bytes>, extra: Headers)
    ensures ClientRequest(u, key, protocols, extra)
         == Ascii("GET ") + u.target + Ascii(" HTTP/1.1") + Ascii("\r\n")
            + (HeaderText(Ascii("Host"), u.authority)
               + HeaderText(Ascii("Upgrade"), Ascii("websocket"))
               + HeaderText(Ascii("Connection"), Ascii("Upgrade"))
               + HeaderText(Ascii("Sec-WebSocket-Key"), key)
               + HeaderText(Ascii("Sec-WebSocket-Version"), Ascii("13"))
               + ProtocolText(if protocols == [] then None else Some(Join(protocols, Ascii(", "))))
               + Printed(extra))
            + Ascii("\r\n")
  {
    hide Ascii, HeaderText, Printed, Title, Join, Render, RequestLine;
    Titles();
    Breaks();
    var hs := RequestHeaders(u, key, protocols, extra);
    var fixed, offer := FixedHeaders(u.authority, key), ProtocolHeader(protocols);
    PrintedAppend(fixed + offer, extra);
    PrintedAppend(fixed, offer);
    PrintedFive(fixed[0], fixed[1], fixed[2], fixed[3], fixed[4]);
    if protocols == [] { PrintedNone(); } else { PrintedOne(offer[0]); }
    RenderText(RequestLine(u.target), hs);
    GetLine(u.target);
  }

  lemma PrintedNone()
    ensures Printed([]) == []
  {
  }

  lemma GetLine(target: Bytes)
    ensures RequestLine(target) == Ascii("GET ") + target + Ascii(" HTTP/1.1")
  {
    assert Ascii("GET ") == Ascii("GET") + [SPACE] && Ascii(" HTTP/1.1") == [SPACE] + Ascii("HTTP/1.1");
  }

  lemma StatusLineText()
    ensures STATUS_LINE == Ascii("HTTP/1.1 101 ") + Ascii("Switching Protocols")
  {
    assert Ascii("HTTP/1.1") + [SPACE] + (Ascii("101") + [SPACE]) == Ascii("HTTP/1.1 101 ");
  }

  /** The answer, letter by letter: the digest is that of the key and the fixed text of section 1.3 of RFC 6455. */
  lemma AnswerText(sha1: Bytes -> Bytes, key: Bytes, protocol: Option<Bytes>)
    ensures Switching(sha1, key, protocol)
         == Ascii("HTTP/1.1 101 ") + Ascii("Switching Protocols") + Ascii("\r\n")
            + (HeaderText(Ascii("Upgrade"), Ascii("websocket"))
               + HeaderText(Ascii("Connection"), Ascii("Upgrade"))
               + HeaderText(Ascii("Sec-WebSocket-Accept"),
                            Base64.Encode(sha1(key + Ascii("258EAFA5-E914-47DA-95CA-C5AB0DC85B11"))))
               + ProtocolText(protocol))
            + Ascii("\r\n")
  {
    hide Ascii, HeaderText, Printed, Title, Render, Base64.Encode;
    Titles();
    var accept := AcceptKey(sha1, key);
    var hs, chosen := SwitchingHeaders(accept, protocol), ChosenHeader(protocol);
    var fixed := hs[..3];
    assert hs == fixed + chosen && fixed == [hs[0], hs[1], hs[2]];
    PrintedAppend(fixed, chosen);
    PrintedThree(hs[0], hs[1], hs[2]);
    if protocol.None? { PrintedNone(); } else { PrintedOne(chosen[0]); }
    RenderText(STATUS_LINE, hs);
    StatusLineText();
  }
}
