/** What the peer hears of the application is what the application said, in order. */
module Hearing {
  import opened Basics
  import opened Framing
  import opened Outbound
  import opened Streams
  import opened Connection
  import opened Sending
  import Assembly
  import Decoding
  import Delivery
  import Runs
  import Safety

  /** The message of a kind and a payload. */
  function Message(op: Nibble, payload: Bytes): Assembly.Msg {
    if op == TEXT then Assembly.Text(payload)
    else if op == BINARY then Assembly.Binary(payload)
    else Assembly.Ping(payload)
  }

  /** What the application said: the sends whose sections came to queue them. */
  function Said(run: seq<Action>): seq<Assembly.Msg> {
    if run == [] then []
    else
      var n := |run| - 1;
      Said(run[..n]) +
      match (run[n], LatestSend(run[..n]))
      case (Inside(PushSend(_)), Some((op, payload))) => [Message(op, payload)]
      case _ => []
  }

  /** Of messages that answer to the frames of a log, those the application sent. */
  function FromApp(log: seq<Pushed>, msgs: seq<Assembly.Msg>): seq<Assembly.Msg>
    requires |msgs| == |log|
  {
    if log == [] then []
    else
      var n := |log| - 1;
      FromApp(log[..n], msgs[..n]) + if log[n].kind == App then [msgs[n]] else []
  }

  /** What a peer makes of a wire. */
  function Understands(c: Setup, max: nat, wire: Bytes): seq<Assembly.Msg> {
    Decoding.Decode(Delivery.Peer(c, max), None, wire).msgs
  }

  lemma {:induction false} FromAppPrefix(log: seq<Pushed>, msgs: seq<Assembly.Msg>, k: nat)
    requires |msgs| == |log| && k <= |log|
    ensures FromApp(log[..k], msgs[..k]) <= FromApp(log, msgs)
    decreases |log|
  {
    if k == |log| {
      assert log[..k] == log && msgs[..k] == msgs;
    } else {
      var n := |log| - 1;
      FromAppPrefix(log[..n], msgs[..n], k);
      assert log[..n][..k] == log[..k] && msgs[..n][..k] == msgs[..k];
    }
  }

  /** Application frames carry one of the three kinds. */
  predicate Plain(log: seq<Pushed>) {
    forall i | 0 <= i < |log| && log[i].kind == App ::
      log[i].frame.op == TEXT || log[i].frame.op == BINARY || log[i].frame.op == PING
  }

  lemma FromAppAppend(log: seq<Pushed>, p: Pushed)
    requires p.kind == App ==> p.frame.op == TEXT || p.frame.op == BINARY || p.frame.op == PING
    ensures FromApp(log + [p], MsgsOf(Bits(log + [p])))
         == FromApp(log, MsgsOf(Bits(log))) + if p.kind == App then [Message(p.frame.op, p.frame.payload)] else []
  {
    var msgs := MsgsOf(Bits(log + [p]));
    assert (log + [p])[..|log|] == log;
    assert msgs[..|log|] == MsgsOf(Bits(log));
  }

  lemma {:induction false} SaidIsQueued(c: Setup, run: seq<Action>)
    requires Plain(Queued(c, run))
    ensures var log := Queued(c, run); FromApp(log, MsgsOf(Bits(log))) == Said(run)
  {
    hide FromApp, MsgsOf, Bits, Message, Farewell, Taken, LatestPing;
    if run == [] {
      NothingSaid();
    } else {
      var n := |run| - 1;
      var before, log := Queued(c, run[..n]), Queued(c, run);
      assert log[..|before|] == before;
      assert forall i | 0 <= i < |before| :: before[i] == log[i];
      SaidIsQueued(c, run[..n]);
      if |log| > |before| {
        var p := log[|before|];
        assert log == before + [p];
        FromAppAppend(before, p);
      } else {
        assert log == before;
      }
    }
  }

  lemma NothingSaid()
    ensures FromApp([], MsgsOf(Bits([]))) == []
  {
  }

  /**
    * In every execution, what the peer decodes of the application's messages is a
    * prefix of what the application said, with its kinds, payloads and order; and once
    * every queued byte is on the wire it is all of it.
    */
  lemma PeerHears(c: Setup, run: seq<Action>, max: nat)
    requires Sane(c) && After(c, run).Some?
    requires var log := After(c, run).value.out.log;
             forall i | 0 <= i < |log| :: |log[i].frame.payload| <= max
    ensures var o := After(c, run).value.out; var heard := Understands(c, max, o.wire);
            && |heard| <= |o.log|
            && FromApp(o.log[..|heard|], heard) <= Said(run)
            && (o.wire == EncodeLog(o.log) ==> |heard| == |o.log| && FromApp(o.log, heard) == Said(run))
  {
    hide After, Delivery.FramesAgree, FromApp, Said, Queued, Decoding.Decode, EncodeAll, Farewell, PutOff, Taken, Carried;
    var o := After(c, run).value.out;
    Runs.EndToEnd(c, run, max);
    QueueTold(c, run);
    LogIsPlain(c, run);
    SaidIsQueued(c, run);
    var fs := Bits(o.log);
    var k := Whole(fs, |o.wire|);
    assert MsgsOf(fs[..k]) == MsgsOf(fs)[..k];
    FromAppPrefix(o.log, MsgsOf(fs), k);
    if o.wire == EncodeLog(o.log) {
      AllWhole(fs, |o.wire|);
      assert fs[..k] == fs;
    }
  }

  lemma AllWhole(fs: seq<Frame>, n: nat)
    requires n == |EncodeAll(fs)|
    ensures Whole(fs, n) == |fs|
  {
  }

  lemma LogIsPlain(c: Setup, run: seq<Action>)
    requires Sane(c) && After(c, run).Some?
    ensures Plain(After(c, run).value.out.log)
  {
    hide After, Runs.Invariant;
    Runs.RunInvariant(c, run);
    FramesPlain(c, After(c, run).value);
  }

  lemma FramesPlain(c: Setup, s: Link)
    requires Runs.Invariant(c, s)
    ensures Plain(s.out.log)
  {
    hide Safety.Safe;
    forall i | 0 <= i < |s.out.log| && s.out.log[i].kind == App
      ensures s.out.log[i].frame.op == TEXT || s.out.log[i].frame.op == BINARY || s.out.log[i].frame.op == PING
    {
      assert Delivery.Proper(c, s.out.log[i]);
    }
  }
}
