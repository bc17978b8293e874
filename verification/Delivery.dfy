/** What a connection sends is what its peer's reader decodes. */
module Delivery {
  import opened Basics
  import opened Framing
  import opened SendQueue
  import opened Outbound
  import opened Connection
  import opened Lifecycle
  import opened Safety
  import opened Streams
  import Assembly
  import Decoding
  import Heartbeat
  import Parsing
  import Utf8

  /** The payload of a close frame a peer accepts. */
  predicate GoodClose(payload: Bytes) {
    |payload| <= 125 && Assembly.ReadClose(payload).Accepted?
  }

  /** Every frame is what its kind promises, masked as the role demands. */
  predicate Proper(c: Setup, p: Pushed) {
    && p.frame.fin && Keyed(c, p.frame.key)
    && match p.kind
       case App => MaySend(p.frame.op, p.frame.payload)
       case Reply => p.frame.op == PONG && |p.frame.payload| <= 125
       case Deferred => p.frame.op == PONG && |p.frame.payload| <= 125
       case Probe => p.frame.op == PING && p.frame.payload == c.token
       case Final => p.frame.op == CLOSE && GoodClose(p.frame.payload)
  }

  predicate FramesAgree(c: Setup, s: Link) {
    && (forall i | 0 <= i < |s.out.log| :: Proper(c, s.out.log[i]))
    && (s.held.ClosePush? ==> GoodClose(s.held.payload))
  }

  lemma CloseGood(code: nat, reason: Bytes)
    requires ValidStatus(code, reason)
    ensures GoodClose(ClosePayload(code, reason))
  {
    hide Utf8.Scan, BigEndian, FromBigEndian;
    var p := ClosePayload(code, reason);
    assert p[..2] == BigEndian(code, 2) && p[2..] == reason;
    assert Power256(2) == 0x10000;
    BigEndianDecodes(code, 2);
  }

  lemma NoReason()
    ensures Utf8.Scan([]).Ok?
  {
  }

  lemma StepFrames(c: Setup, s: Link, i: Inner)
    requires Living(s) && FramesAgree(c, s) && CanStep(c, s, i)
    ensures FramesAgree(c, DoStep(c, s, i))
  {
    hide Do, Fits, EncodedLen, Utf8.Scan, Assembly.ReadClose;
    DoGuards(s.out, Effect(c, s, i));
  }

  lemma EnterFrames(c: Setup, s: Link, e: Entry)
    requires Living(s) && FramesAgree(c, s) && CanEnter(c, s, e)
    ensures FramesAgree(c, DoEnter(c, s, e))
  {
    hide Do, Fits, EncodedLen, Utf8.Scan, GoodClose, ClosePayload, Proper, Heartbeat.Check, Heartbeat.Seen;
    EnterOut(c, s, e);
    DoGuards(s.out, EntryAct(s, e));
    NoReason();
    match e
    case AppClose(code, reason) => CloseGood(code, reason);
    case GotClose(status) =>
      if status.Some? { CloseGood(status.value.0, []); } else { EmptyClose(); }
    case GotViolation(fail) => CloseGood(Parsing.Code(fail), []);
    case _ =>
  }

  lemma EmptyClose()
    ensures GoodClose([])
  {
  }

  lemma NextFrames(c: Setup, s: Link, a: Action)
    requires Living(s) && FramesAgree(c, s) && Enabled(c, s, a)
    ensures FramesAgree(c, Next(c, s, a))
  {
    hide Do, DoEnter, DoStep, Proper, GoodClose;
    match a
    case Enter(e) => EnterFrames(c, s, e);
    case Inside(i) => StepFrames(c, s, i);
    case Working(w) => DoGuards(s.out, Job(c, s, w));
    case Around(w) =>
  }

  /** A peer in the opposite role that takes messages up to `max`. */
  function Peer(c: Setup, max: nat): Parsing.Config {
    Parsing.Config(!c.server, max)
  }

  lemma ProperSendable(c: Setup, p: Pushed, max: nat)
    requires Sane(c) && Proper(c, p) && |p.frame.payload| <= max
    ensures Sendable(p.frame, Peer(c, max))
  {
    hide Utf8.Scan, Assembly.ReadClose;
    if p.frame.op == TEXT { Utf8.ScanExact(p.frame.payload); }
  }

  /**
    * The bytes are a prefix of the encoded frames in order, and a reader decodes
    * them, without any failure, to exactly the messages of the complete frames.
    */
  predicate Understood(reader: Parsing.Config, fs: seq<Frame>, wire: Bytes) {
    var k := Whole(fs, |wire|);
    && |EncodeAll(fs[..k])| <= |wire| <= |EncodeAll(fs)|
    && wire == EncodeAll(fs)[..|wire|]
    && Decoding.Decode(reader, None, wire)
       == Decoding.Decoded(MsgsOf(fs[..k]), Decoding.Waiting(None, wire[|EncodeAll(fs[..k])|..]))
  }

  /** End to end: whatever was queued and however it was written, the peer understands it. */
  lemma PeerDecodes(c: Setup, s: Link, max: nat)
    requires Sane(c) && Ordered(s.out) && FramesAgree(c, s)
    requires forall i | 0 <= i < |s.out.log| :: |s.out.log[i].frame.payload| <= max
    ensures Understood(Peer(c, max), Bits(s.out.log), s.out.wire)
  {
    hide EncodeAll, Proper, Decoding.Decode, MsgsOf, Sendable, Remaining, Content, Shaped;
    Outbound.Pipeline(s.out);
    var fs := Bits(s.out.log);
    forall f | f in fs ensures Sendable(f, Peer(c, max)) {
      var i :| 0 <= i < |fs| && fs[i] == f;
      ProperSendable(c, s.out.log[i], max);
    }
    SentPrefixDecodes(fs, Peer(c, max), s.out.wire);
  }
}
