/** Which texts are URLs, and what each of them means. */
module Locators {
  import opened Basics
  import opened Text
  import opened Urls

  /** A URL as it may be written: the host in brackets or not, with or without a port. */
  datatype Locator = Locator(scheme: Bytes, bracketed: bool, host: Bytes, port: Option<Bytes>, path: Bytes)

  function Enclosed(bracketed: bool, host: Bytes): Bytes {
    if bracketed then Ascii("[") + host + Ascii("]") else host
  }

  function PortPart(port: Option<Bytes>): Bytes {
    if port.None? then [] else Ascii(":") + port.value
  }

  function Auth(l: Locator): Bytes {
    Enclosed(l.bracketed, l.host) + PortPart(l.port)
  }

  function TextOf(l: Locator): Bytes {
    l.scheme + Ascii("://") + (Auth(l) + l.path)
  }

  predicate NameByte(b: Byte) {
    48 <= b <= 57 || 65 <= b <= 90 || 97 <= b <= 122 || b in Ascii("-._")
  }

  /** Visible ASCII without the number sign. */
  predicate PathByte(b: Byte) {
    33 <= b <= 126 && b !in Ascii("#")
  }

  predicate AddressByte(b: Byte) {
    PathByte(b) && b !in Ascii("/?@]")
  }

  predicate Written(v6: Bytes -> bool, l: Locator) {
    && (Lower(l.scheme) == Ascii("ws") || Lower(l.scheme) == Ascii("wss"))
    && l.host != []
    && (if l.bracketed then v6(l.host) && forall b | b in l.host :: AddressByte(b) else forall b | b in l.host :: NameByte(b))
    && (l.port.Some? ==> 1 <= |l.port.value| <= 5 && AllDigits(l.port.value) && 1 <= Number(l.port.value) <= 65535)
    && (l.path != [] ==> l.path[0] in Ascii("/?"))
    && forall b | b in l.path :: PathByte(b)
  }

  function Usual(tls: bool): nat {
    if tls then 443 else 80
  }

  /** What it means: the host and port to go to, what to ask for there, and the value of the Host header. */
  function Meaning(l: Locator): Url
    requires l.port.Some? ==> AllDigits(l.port.value)
  {
    var tls := Lower(l.scheme) == Ascii("wss");
    var port := if l.port.None? then Usual(tls) else Number(l.port.value);
    var target := if l.path != [] && l.path[0] in Ascii("/") then l.path else Ascii("/") + l.path;
    var suffix := if port == Usual(tls) then [] else Ascii(":") + Decimal(port);
    Url(tls, Lower(l.host), port, target, Enclosed(l.bracketed, Lower(l.host)) + suffix)
  }

  predicate Denotes(v6: Bytes -> bool, l: Locator, input: Bytes, u: Url) {
    Written(v6, l) && input == TextOf(l) && u == Meaning(l)
  }

  // ----- Letters -----

  lemma Letters()
    ensures Ascii("ws") == [119, 115] && Ascii("wss") == [119, 115, 115] && Ascii("://") == MARK
    ensures Ascii("[") == [OPEN] && Ascii("]") == [CLOSE] && Ascii(":") == [COLON] && Ascii("/") == [SLASH]
  {
  }

  lemma Sets(b: Byte)
    ensures b in Ascii("-._") <==> b == 45 || b == 46 || b == 95
    ensures b in Ascii("#") <==> b == HASH
    ensures b in Ascii("/?") <==> b == SLASH || b == QUESTION
    ensures b in Ascii("/") <==> b == SLASH
  {
    assert Ascii("-._") == [45, 46, 95] && Ascii("#") == [HASH] && Ascii("/?") == [SLASH, QUESTION] && Ascii("/") == [SLASH];
  }

  lemma ByteKinds(b: Byte)
    ensures NameByte(b) <==> HostByte(b)
    ensures PathByte(b) <==> Visible(b) && b != HASH
    ensures AddressByte(b) <==> AuthByte(b) && b != CLOSE
  {
    hide Ascii;
    Sets(b);
    assert b in Ascii("/?@]") <==> b == SLASH || b == QUESTION || b == AT || b == CLOSE by {
      AddressLetters();
    }
  }

  lemma AddressLetters()
    ensures Ascii("/?@]") == [SLASH, QUESTION, AT, CLOSE]
  {
  }

  lemma Kinds()
    ensures forall b: Byte :: NameByte(b) <==> HostByte(b)
    ensures forall b: Byte :: PathByte(b) <==> Visible(b) && b != HASH
    ensures forall b: Byte :: AddressByte(b) <==> AuthByte(b) && b != CLOSE
  {
    forall b: Byte ensures (NameByte(b) <==> HostByte(b)) && (PathByte(b) <==> Visible(b) && b != HASH)
                           && (AddressByte(b) <==> AuthByte(b) && b != CLOSE) {
      ByteKinds(b);
    }
  }

  // ----- Every such text is read so -----

  lemma SchemeIs(scheme: Bytes)
    ensures Scheme(scheme) == if Lower(scheme) == Ascii("ws") then Some(false)
                              else if Lower(scheme) == Ascii("wss") then Some(true) else None
    ensures Scheme(scheme).Some? ==> COLON !in scheme
  {
    hide Ascii, Lower;
    Letters();
    LowerSame(scheme, COLON);
  }

  lemma AuthSplits(v6: Bytes -> bool, l: Locator)
    requires Written(v6, l)
    ensures SplitHost(v6, Auth(l)) == Parts(l.host, l.port) && Auth(l) != [] && (Auth(l)[0] == OPEN <==> l.bracketed)
  {
    hide Ascii, Lower, Number, AllDigits;
    Letters();
    Kinds();
    var part := PortPart(l.port);
    if l.bracketed {
      assert Auth(l) == [OPEN] + l.host + [CLOSE] + part;
      SplitV6(v6, l.host, part);
      assert part != [] ==> part[1..] == l.port.value;
    } else {
      assert Auth(l)[0] == l.host[0] && l.host[0] in l.host && HostByte(l.host[0]);
      if l.port.None? {
        assert Auth(l) == l.host;
        SplitOnceNone(l.host, COLON);
      } else {
        assert Auth(l) == l.host + [COLON] + l.port.value;
        SplitOnceAt(l.host, COLON, l.port.value);
      }
    }
  }

  lemma AuthIsClean(v6: Bytes -> bool, l: Locator)
    requires Written(v6, l)
    ensures forall b | b in Auth(l) :: AuthByte(b)
  {
    hide Ascii, Lower, Number;
    Letters();
    Kinds();
    assert forall b | b in Enclosed(l.bracketed, l.host) :: b in l.host || b == OPEN || b == CLOSE;
    if l.port.Some? {
      assert forall b | b in PortPart(l.port) :: b in l.port.value || b == COLON;
    }
  }

  lemma Finished(v6: Bytes -> bool, l: Locator, tls: bool)
    requires V6Facts(v6) && Written(v6, l) && tls == (Lower(l.scheme) == Ascii("wss"))
    ensures Finish(v6, tls, Auth(l), l.path) == Ok(Meaning(l))
  {
    hide Ascii, Lower, Number, AllDigits, SplitHost, Decimal, Auth;
    Letters();
    Kinds();
    AuthSplits(v6, l);
    assert Auth(l)[..1] == [Auth(l)[0]];
    LowerSame(l.host, COLON);
    if l.path != [] { Sets(l.path[0]); }
    assert l.path == [] ==> Ascii("/") + l.path == [SLASH];
  }

  /** Every URL so written is parsed, to what it means. */
  lemma AnyUrl(v6: Bytes -> bool, l: Locator)
    requires V6Facts(v6) && Written(v6, l)
    ensures Parse(v6, TextOf(l)) == Ok(Meaning(l))
  {
    hide Ascii, Lower, Number, AllDigits, SplitHost, Decimal, Auth, Finish, Meaning, V6Facts, Scheme, PathAt;
    Letters();
    Kinds();
    SchemeIs(l.scheme);
    AuthIsClean(v6, l);
    if l.path != [] { Sets(l.path[0]); }
    var auth := Auth(l);
    var rest := auth + l.path;
    MarkFollows(l.scheme, rest);
    PathFollows(auth, l.path);
    assert rest[..|auth|] == auth && rest[|auth|..] == l.path;
    assert Ascii("ws") != Ascii("wss");
    Finished(v6, l, Lower(l.scheme) == Ascii("wss"));
  }

  // ----- And no other text is read -----

  lemma {:induction false} MarkParts(s: Bytes)
    requires SplitMark(s).Some?
    ensures var (scheme, rest) := SplitMark(s).value; s == scheme + MARK + rest
  {
    if s[..3] != MARK { MarkParts(s[1..]); }
  }

  lemma HostParts(v6: Bytes -> bool, auth: Bytes)
    requires SplitHost(v6, auth).Parts?
    ensures var (host, port) := (SplitHost(v6, auth).host, SplitHost(v6, auth).port);
            var bracketed := auth != [] && auth[0] == OPEN;
            auth == Enclosed(bracketed, host) + PortPart(port) && (bracketed ==> v6(host) && CLOSE !in host)
  {
    hide Ascii;
    Letters();
    if auth != [] && auth[0] == OPEN {
      assert auth == [OPEN] + auth[1..];
      SplitOnceParts(auth[1..], CLOSE);
      var (addr, tail) := SplitOnce(auth[1..], CLOSE).value;
      assert auth == [OPEN] + addr + [CLOSE] + tail && (tail != [] ==> tail == [tail[0]] + tail[1..]);
    } else if SplitOnce(auth, COLON).Some? {
      SplitOnceParts(auth, COLON);
      var (host, port) := SplitOnce(auth, COLON).value;
      assert auth == host + ([COLON] + port);
    } else {
      assert auth == auth + [];
    }
  }

  lemma HostWritten(v6: Bytes -> bool, tls: bool, auth: Bytes, path: Bytes) returns (l: Locator)
    requires Finish(v6, tls, auth, path).Ok? && forall b | b in auth :: AuthByte(b)
    requires (path != [] ==> path[0] == SLASH || path[0] == QUESTION) && forall b | b in path :: Visible(b) && b != HASH
    ensures l.scheme == SchemeText(tls) && Written(v6, l) && Auth(l) == auth && l.path == path
  {
    hide Ascii, Lower, Number, SplitHost, Decimal;
    HostParts(v6, auth);
    var (host, port) := (SplitHost(v6, auth).host, SplitHost(v6, auth).port);
    l := Locator(SchemeText(tls), auth != [] && auth[0] == OPEN, host, port, path);
    assert auth != [] ==> auth[..1] == [auth[0]];
    Kinds();
    Letters();
    SchemeIs(l.scheme);
    if path != [] { Sets(path[0]); }
    assert forall b | b in host :: b in auth;
  }

  lemma UrlWritten(v6: Bytes -> bool, input: Bytes) returns (l: Locator)
    requires Parse(v6, input).Ok?
    ensures Written(v6, l) && input == TextOf(l)
  {
    hide Ascii, Lower, Number, AllDigits, SplitHost, Decimal, Auth, Finish, Scheme, PathAt;
    var (scheme, rest) := SplitMark(input).value;
    MarkParts(input);
    SchemeIs(scheme);
    Letters();
    var k := PathAt(rest);
    BeforePath(rest);
    assert forall b | b in rest[..k] :: b in rest;
    assert forall b | b in rest[k..] :: b in rest;
    var m := HostWritten(v6, Scheme(scheme).value, rest[..k], rest[k..]);
    l := m.(scheme := scheme);
    assert Auth(l) == Auth(m) by { SameAuth(l, m); }
    assert rest == rest[..k] + rest[k..];
  }

  lemma SameAuth(l: Locator, m: Locator)
    requires l.bracketed == m.bracketed && l.host == m.host && l.port == m.port
    ensures Auth(l) == Auth(m)
  {
  }

  /** A text is a URL, and means what it does, if and only if it is so written. */
  lemma ParsedExactly(v6: Bytes -> bool, input: Bytes, u: Url)
    requires V6Facts(v6)
    ensures Parse(v6, input) == Ok(u) <==> exists l :: Denotes(v6, l, input, u)
  {
    hide Parse, Written, TextOf, Meaning, V6Facts;
    if Parse(v6, input) == Ok(u) {
      var l := UrlWritten(v6, input);
      AnyUrl(v6, l);
      assert Denotes(v6, l, input, u);
    }
    if l :| Denotes(v6, l, input, u) {
      AnyUrl(v6, l);
    }
  }
}
