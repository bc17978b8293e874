/** The header names the handshake uses. */
module Names {
  import opened Basics
  import opened Text
  import opened Http

  datatype Name =
    | Host | Upgrade | Connection | ContentLength | TransferEncoding
    | Key | Version | Protocol | Extensions | Accept | Origin
  {
    predicate Socket() {
      Key? || Version? || Protocol? || Extensions? || Accept?
    }

    /** A name either side may write. */
    predicate Written() {
      Host? || Upgrade? || Connection? || Key? || Version? || Protocol? || Extensions? || Accept?
    }

    function Word(): string
      requires Written()
    {
      match this
      case Host => "Host"
      case Upgrade => "Upgrade"
      case Connection => "Connection"
      case Key => "Key"
      case Version => "Version"
      case Protocol => "Protocol"
      case Extensions => "Extensions"
      case Accept => "Accept"
    }

    function Lower(): string {
      match this
      case Host => "host"
      case Upgrade => "upgrade"
      case Connection => "connection"
      case ContentLength => "content-length"
      case TransferEncoding => "transfer-encoding"
      case Key => "key"
      case Version => "version"
      case Protocol => "protocol"
      case Extensions => "extensions"
      case Accept => "accept"
      case Origin => "origin"
    }
  }

  /** As it is looked up. */
  function Lowered(n: Name): Bytes {
    Ascii(if n.Socket() then "sec-websocket-" + n.Lower() else n.Lower())
  }

  /** As it is written. */
  function Title(n: Name): Bytes
    requires n.Written()
  {
    Ascii(if n.Socket() then "Sec-WebSocket-" + n.Word() else n.Word())
  }

  lemma NamesDiffer(m: Name, n: Name)
    requires m != n
    ensures Lowered(m) != Lowered(n)
  {
    hide Lowered;
    LoweredStart(m);
    LoweredStart(n);
  }

  /** Lengths tell the names apart, but for one pair that differs in its first letter. */
  lemma LoweredStart(n: Name)
    ensures |Lowered(n)| == Length(n)
    ensures n.Key? ==> Lowered(n)[0] == 115
    ensures n.TransferEncoding? ==> Lowered(n)[0] == 116
  {
  }

  function Length(n: Name): nat {
    match n
    case Host => 4
    case Origin => 6
    case Upgrade => 7
    case Connection => 10
    case ContentLength => 14
    case TransferEncoding => 17
    case Key => 17
    case Accept => 20
    case Version => 21
    case Protocol => 22
    case Extensions => 24
  }

  predicate Letter(c: char) {
    'A' <= c <= 'Z' || 'a' <= c <= 'z' || c == '-'
  }

  predicate Lowers(c: char, d: char) {
    Letter(c) && if 'A' <= c <= 'Z' then d as int == c as int + 32 else d == c
  }

  predicate LowersTo(s: string, t: string) {
    s != "" && |s| == |t| && forall i | 0 <= i < |s| :: Lowers(s[i], t[i])
  }

  lemma SocketWord(n: Name)
    requires n.Socket() && n.Written()
    ensures LowersTo(n.Word(), n.Lower())
  {
  }

  lemma PlainWord(n: Name)
    requires !n.Socket() && n.Written()
    ensures LowersTo(n.Word(), n.Lower())
  {
  }

  lemma Prefix()
    ensures LowersTo("Sec-WebSocket-", "sec-websocket-")
  {
  }

  lemma LowersConcat(a: string, b: string, c: string, d: string)
    requires LowersTo(a, b) && LowersTo(c, d)
    ensures LowersTo(a + c, b + d)
  {
  }

  lemma LowersAscii(s: string, t: string)
    requires LowersTo(s, t)
    ensures IsToken(Ascii(s)) && Lower(Ascii(s)) == Ascii(t)
  {
    forall i | 0 <= i < |s| ensures TokenByte(Ascii(s)[i]) && LowerByte(Ascii(s)[i]) == Ascii(t)[i] {
      assert Lowers(s[i], t[i]);
    }
  }

  /** A written name is a token, and is the looked-up name in another case. */
  lemma TitleIs(n: Name)
    requires n.Written()
    ensures IsToken(Title(n)) && Lower(Title(n)) == Lowered(n)
  {
    hide LowersTo;
    if n.Socket() {
      SocketWord(n);
      Prefix();
      LowersConcat("Sec-WebSocket-", "sec-websocket-", n.Word(), n.Lower());
      LowersAscii("Sec-WebSocket-" + n.Word(), "sec-websocket-" + n.Lower());
    } else {
      PlainWord(n);
      LowersAscii(n.Word(), n.Lower());
    }
  }
}
