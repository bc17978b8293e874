/** `ws://` and `wss://` URLs. */
module Urls {
  import opened Basics
  import opened Text
  import opened Http

  datatype Url = Url(tls: bool, host: Bytes, port: nat, target: Bytes, authority: Bytes)

  datatype Fault = NotAUrl | BadScheme | BadCharacters | Fragment | Credentials | BadV6 | EmptyHost | BadHost | BadPort

  datatype Parsed = Ok(url: Url) | Err(fault: Fault)

  const SLASH: Byte := 47
  const QUESTION: Byte := 63
  const OPEN: Byte := 91
  const CLOSE: Byte := 93
  const MARK: Bytes := [58, 47, 47]

  /** Which texts are IPv6 addresses is not modelled; these facts about them are used. */
  ghost predicate V6Facts(v6: Bytes -> bool) {
    && (forall s :: v6(s) ==> COLON in s)
    && forall s :: v6(Lower(s)) == v6(s)
  }

  // ----- Decimal numbers -----

  predicate Digit(b: Byte) {
    48 <= b <= 57
  }

  predicate AllDigits(s: Bytes) {
    forall b | b in s :: Digit(b)
  }

  /** One to five digits. */
  predicate PortText(s: Bytes) {
    1 <= |s| <= 5 && AllDigits(s)
  }

  function Number(s: Bytes): nat
    requires AllDigits(s)
  {
    if s == [] then 0
    else
      assert s[|s| - 1] in s;
      Number(s[..|s| - 1]) * 10 + (s[|s| - 1] as int - 48)
  }

  function Decimal(n: nat): (s: Bytes)
    ensures s != [] && AllDigits(s) && Number(s) == n
  {
    if n < 10 then [48 + n]
    else
      var s := Decimal(n / 10) + [48 + n % 10];
      assert s[..|s| - 1] == Decimal(n / 10);
      s
  }

  function Power10(k: nat): nat {
    if k == 0 then 1 else 10 * Power10(k - 1)
  }

  lemma {:induction false} DecimalSize(n: nat, k: nat)
    requires 1 <= k && n < Power10(k)
    ensures |Decimal(n)| <= k
  {
    if n >= 10 {
      assert Power10(1) == 10;
      DecimalSize(n / 10, k - 1);
    }
  }

  lemma PortDigits(n: nat)
    requires n < 0x1_0000
    ensures PortText(Decimal(n))
  {
    assert Power10(5) == 100_000;
    DecimalSize(n, 5);
  }

  // ----- Parsing -----

  function SplitMark(s: Bytes): Option<(Bytes, Bytes)> {
    if |s| < 3 then None
    else if s[..3] == MARK then Some(([], s[3..]))
    else
      match SplitMark(s[1..])
      case None => None
      case Some((a, b)) => Some(([s[0]] + a, b))
  }

  /** Where the path or the query begins. */
  function PathAt(s: Bytes): (k: nat)
    ensures k <= |s|
  {
    if s == [] || s[0] == SLASH || s[0] == QUESTION then 0 else 1 + PathAt(s[1..])
  }

  function Scheme(s: Bytes): Option<bool> {
    if Lower(s) == [119, 115] then Some(false)
    else if Lower(s) == [119, 115, 115] then Some(true)
    else None
  }

  predicate HostByte(b: Byte) {
    Alphanumeric(b) || b == 45 || b == 46 || b == 95
  }

  datatype Split = Parts(host: Bytes, port: Option<Bytes>) | Bad(fault: Fault)

  /** The host and the port text of an authority. */
  function SplitHost(v6: Bytes -> bool, auth: Bytes): Split {
    if auth != [] && auth[0] == OPEN then
      match SplitOnce(auth[1..], CLOSE)
      case None => Bad(BadV6)
      case Some((addr, tail)) =>
        if !v6(addr) then Bad(BadV6)
        else if tail == [] then Parts(addr, None)
        else if tail[0] == COLON then Parts(addr, Some(tail[1..]))
        else Bad(BadPort)
    else
      match SplitOnce(auth, COLON)
      case None => Parts(auth, None)
      case Some((h, p)) => Parts(h, Some(p))
  }

  function Default(tls: bool): nat {
    if tls then 443 else 80
  }

  /** The port to use, if the text names one. */
  function PortOf(tls: bool, text: Option<Bytes>): Option<nat> {
    match text
    case None => Some(Default(tls))
    case Some(p) => if PortText(p) && 0 < Number(p) < 0x1_0000 then Some(Number(p)) else None
  }

  function Bracketed(host: Bytes): Bytes {
    if COLON in host then [OPEN] + host + [CLOSE] else host
  }

  function Authority(tls: bool, host: Bytes, port: nat): Bytes {
    Bracketed(host) + if port == Default(tls) then [] else [COLON] + Decimal(port)
  }

  function Target(text: Bytes): Bytes {
    if text == [] then [SLASH] else if text[0] == QUESTION then [SLASH] + text else text
  }

  predicate Visible(b: Byte) {
    32 < b < 127
  }

  const HASH: Byte := 35
  const AT: Byte := 64

  function Finish(v6: Bytes -> bool, tls: bool, auth: Bytes, path: Bytes): Parsed {
    match SplitHost(v6, auth)
    case Bad(f) => Err(f)
    case Parts(host, text) =>
      if host == [] then Err(EmptyHost)
      else if auth[..1] != [OPEN] && exists b | b in host :: !HostByte(b) then Err(BadHost)
      else
        match PortOf(tls, text)
        case None => Err(BadPort)
        case Some(port) => Ok(Url(tls, Lower(host), port, Target(path), Authority(tls, Lower(host), port)))
  }

  function ParseRest(v6: Bytes -> bool, tls: bool, rest: Bytes): Parsed {
    if exists b | b in rest :: !Visible(b) then Err(BadCharacters)
    else if HASH in rest then Err(Fragment)
    else
      var k := PathAt(rest);
      if AT in rest[..k] then Err(Credentials) else Finish(v6, tls, rest[..k], rest[k..])
  }

  function Parse(v6: Bytes -> bool, input: Bytes): Parsed {
    match SplitMark(input)
    case None => Err(NotAUrl)
    case Some((scheme, rest)) =>
      match Scheme(scheme)
      case None => Err(BadScheme)
      case Some(tls) => ParseRest(v6, tls, rest)
  }

  // ----- What a parsed URL is -----

  /** A host as a parsed URL holds it. */
  predicate GoodHost(v6: Bytes -> bool, host: Bytes) {
    && host != [] && Lower(host) == host
    && if COLON in host then v6(host) && CLOSE !in host && forall b | b in host :: AuthByte(b)
       else forall b | b in host :: HostByte(b)
  }

  predicate GoodTarget(target: Bytes) {
    target != [] && target[0] == SLASH && forall b | b in target :: Visible(b) && b != HASH
  }

  predicate Good(v6: Bytes -> bool, u: Url) {
    && GoodHost(v6, u.host) && GoodTarget(u.target)
    && 0 < u.port < 0x1_0000
    && u.authority == Authority(u.tls, u.host, u.port)
  }

  lemma {:induction false} BeforePath(s: Bytes)
    ensures SLASH !in s[..PathAt(s)] && QUESTION !in s[..PathAt(s)]
    ensures PathAt(s) < |s| ==> s[PathAt(s)] == SLASH || s[PathAt(s)] == QUESTION
  {
    if s != [] && s[0] != SLASH && s[0] != QUESTION {
      BeforePath(s[1..]);
      assert s[..PathAt(s)] == [s[0]] + s[1..][..PathAt(s[1..])];
    }
  }

  lemma LowerTwice(s: Bytes)
    ensures Lower(Lower(s)) == Lower(s)
  {
  }

  /** Lower case changes letters only. */
  lemma LowerKeeps(s: Bytes, ok: Byte -> bool)
    requires forall b | b in s :: ok(b) && ok(LowerByte(b))
    ensures forall b | b in Lower(s) :: ok(b)
  {
    forall b | b in Lower(s) ensures ok(b) {
      var i :| 0 <= i < |s| && Lower(s)[i] == b;
      assert s[i] in s;
    }
  }

  lemma LowerSame(s: Bytes, c: Byte)
    requires !(65 <= c <= 90) && !(97 <= c <= 122)
    ensures c in Lower(s) <==> c in s
  {
    if c in s {
      var i :| 0 <= i < |s| && s[i] == c;
      assert Lower(s)[i] == c;
    }
    if c in Lower(s) {
      var i :| 0 <= i < |s| && Lower(s)[i] == c;
      assert s[i] == c;
    }
  }

  predicate AuthByte(b: Byte) {
    Visible(b) && b != HASH && b != AT && b != SLASH && b != QUESTION
  }

  lemma HostIsGood(v6: Bytes -> bool, auth: Bytes)
    requires V6Facts(v6) && SplitHost(v6, auth).Parts? && SplitHost(v6, auth).host != []
    requires forall b | b in auth :: AuthByte(b)
    requires auth[..1] != [OPEN] ==> forall b | b in SplitHost(v6, auth).host :: HostByte(b)
    ensures GoodHost(v6, Lower(SplitHost(v6, auth).host))
  {
    var host := SplitHost(v6, auth).host;
    LowerTwice(host);
    LowerSame(host, COLON);
    LowerSame(host, CLOSE);
    if auth != [] && auth[0] == OPEN {
      SplitOnceParts(auth[1..], CLOSE);
      assert auth == [OPEN] + host + ([CLOSE] + SplitOnce(auth[1..], CLOSE).value.1);
      LowerKeeps(host, AuthByte);
    } else {
      LowerKeeps(host, HostByte);
    }
  }

  lemma FinishIsGood(v6: Bytes -> bool, tls: bool, auth: Bytes, path: Bytes)
    requires V6Facts(v6) && Finish(v6, tls, auth, path).Ok?
    requires (forall b | b in auth :: AuthByte(b)) && forall b | b in path :: Visible(b) && b != HASH
    requires path != [] ==> path[0] == SLASH || path[0] == QUESTION
    ensures Good(v6, Finish(v6, tls, auth, path).url)
  {
    hide SplitHost, V6Facts, GoodHost, Authority;
    assert auth != [] && auth[0] == OPEN ==> auth[..1] == [OPEN];
    HostIsGood(v6, auth);
  }

  /** Every URL that parses has these properties. */
  lemma ParsedIsGood(v6: Bytes -> bool, input: Bytes)
    requires V6Facts(v6) && Parse(v6, input).Ok?
    ensures Good(v6, Parse(v6, input).url)
  {
    hide SplitMark, Scheme, V6Facts, Good, Finish;
    var (scheme, rest) := SplitMark(input).value;
    var k := PathAt(rest);
    BeforePath(rest);
    assert forall b | b in rest[..k] :: b in rest;
    assert forall b | b in rest[k..] :: b in rest;
    FinishIsGood(v6, Scheme(scheme).value, rest[..k], rest[k..]);
  }

  // ----- Printing -----

  function Print(u: Url): Bytes {
    SchemeText(u.tls) + MARK + u.authority + u.target
  }

  lemma DecimalClean(n: nat)
    ensures forall b | b in Decimal(n) :: AuthByte(b) && b != COLON && b != CLOSE
  {
  }

  predicate AuthorityParts(v6: Bytes -> bool, u: Url) {
    var text := if u.port == Default(u.tls) then None else Some(Decimal(u.port));
    SplitHost(v6, u.authority) == Parts(u.host, text)
  }

  function Tail(u: Url): Bytes {
    if u.port == Default(u.tls) then [] else [COLON] + Decimal(u.port)
  }

  lemma SplitV6(v6: Bytes -> bool, host: Bytes, tail: Bytes)
    requires v6(host) && CLOSE !in host && (tail != [] ==> tail[0] == COLON)
    ensures SplitHost(v6, [OPEN] + host + [CLOSE] + tail) == Parts(host, if tail == [] then None else Some(tail[1..]))
  {
    var a := [OPEN] + host + [CLOSE] + tail;
    assert a[1..] == host + [CLOSE] + tail;
    SplitOnceAt(host, CLOSE, tail);
  }

  lemma V6Splits(v6: Bytes -> bool, u: Url)
    requires Good(v6, u) && COLON in u.host
    ensures AuthorityParts(v6, u) && u.authority != [] && u.authority[0] == OPEN
  {
    hide Decimal, V6Facts, SplitHost;
    var tail := Tail(u);
    assert u.authority == [OPEN] + u.host + [CLOSE] + tail;
    SplitV6(v6, u.host, tail);
    assert tail != [] ==> tail[1..] == Decimal(u.port);
  }

  lemma NameSplits(v6: Bytes -> bool, u: Url)
    requires Good(v6, u) && COLON !in u.host
    ensures AuthorityParts(v6, u) && u.authority != [] && u.authority[0] != OPEN
  {
    hide Decimal, V6Facts;
    var a := u.authority;
    assert a[0] == u.host[0] && u.host[0] in u.host;
    if u.port == Default(u.tls) {
      assert a == u.host;
      SplitOnceNone(a, COLON);
    } else {
      assert a == u.host + [COLON] + Decimal(u.port);
      SplitOnceAt(u.host, COLON, Decimal(u.port));
    }
  }

  lemma AuthorityClean(v6: Bytes -> bool, u: Url)
    requires Good(v6, u)
    ensures forall b | b in u.authority :: AuthByte(b)
  {
    hide Decimal, V6Facts, Number, AllDigits;
    DecimalClean(u.port);
    assert u.authority == Bracketed(u.host) + Tail(u);
    assert forall b | b in Bracketed(u.host) :: b in u.host || b == OPEN || b == CLOSE;
    assert forall b | b in Tail(u) :: b in Decimal(u.port) || b == COLON;
  }

  lemma {:induction false} PathFollows(auth: Bytes, path: Bytes)
    requires SLASH !in auth && QUESTION !in auth && (path != [] ==> path[0] == SLASH || path[0] == QUESTION)
    ensures PathAt(auth + path) == |auth|
  {
    if auth == [] {
      assert auth + path == path;
    } else {
      assert (auth + path)[1..] == auth[1..] + path;
      PathFollows(auth[1..], path);
    }
  }

  lemma MarkFollows(scheme: Bytes, rest: Bytes)
    requires COLON !in scheme
    ensures SplitMark(scheme + MARK + rest) == Some((scheme, rest))
  {
    var s := scheme + MARK + rest;
    if scheme == [] {
      assert s == MARK + rest && s[..3] == MARK && s[3..] == rest;
    } else {
      assert s[..3][0] == scheme[0] && scheme[0] in scheme;
      assert s[1..] == scheme[1..] + MARK + rest;
      MarkFollows(scheme[1..], rest);
      assert [scheme[0]] + scheme[1..] == scheme;
    }
  }

  function SchemeText(tls: bool): (s: Bytes)
    ensures COLON !in s && Scheme(s) == Some(tls)
  {
    var s := if tls then [119, 115, 115] else [119, 115];
    assert Lower(s) == s;
    assert tls ==> |s| == 3;
    s
  }

  /** Every good URL is parsed from its printed form. */
  lemma PrintParses(v6: Bytes -> bool, u: Url)
    requires Good(v6, u)
    ensures Parse(v6, Print(u)) == Ok(u)
  {
    hide SplitMark, SplitHost, Scheme, Finish, V6Facts, GoodHost, Authority;
    AuthorityClean(v6, u);
    if COLON in u.host { V6Splits(v6, u); } else { NameSplits(v6, u); }
    var rest := u.authority + u.target;
    assert Print(u) == SchemeText(u.tls) + MARK + rest;
    MarkFollows(SchemeText(u.tls), rest);
    PathFollows(u.authority, u.target);
    assert rest[..|u.authority|] == u.authority && rest[|u.authority|..] == u.target;
    FinishPrinted(v6, u);
  }

  /** Parsing is onto the good URLs, and what it returns is a fixed point of printing and parsing. */
  lemma ParsePrint(v6: Bytes -> bool, input: Bytes)
    requires V6Facts(v6) && Parse(v6, input).Ok?
    ensures Parse(v6, Print(Parse(v6, input).url)) == Parse(v6, input)
  {
    hide Parse, V6Facts, Good, Print;
    ParsedIsGood(v6, input);
    PrintParses(v6, Parse(v6, input).url);
  }

  lemma FinishPrinted(v6: Bytes -> bool, u: Url)
    requires Good(v6, u) && AuthorityParts(v6, u)
    requires u.authority != [] && (u.authority[0] == OPEN <==> COLON in u.host)
    ensures Finish(v6, u.tls, u.authority, u.target) == Ok(u)
  {
    hide SplitHost, Authority;
    PortDigits(u.port);
    assert u.authority[0] == OPEN ==> u.authority[..1] == [OPEN];
  }
}
