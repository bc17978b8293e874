/** Frames on a byte stream: decoding is the inverse of encoding, frame by frame. */
module Streams {
  import opened Basics
  import opened Framing
  import opened Parsing
  import opened Assembly
  import opened Decoding
  import Utf8

  function EncodeAll(fs: seq<Frame>): Bytes {
    if fs == [] then [] else EncodeAll(fs[..|fs| - 1]) + Encode(fs[|fs| - 1])
  }

  lemma {:induction false} EncodeAllSplits(fs: seq<Frame>, n: nat)
    requires n <= |fs|
    ensures EncodeAll(fs) == EncodeAll(fs[..n]) + EncodeAll(fs[n..])
  {
    hide Encode;
    if n == |fs| {
      assert fs[..n] == fs && fs[n..] == [];
    } else {
      var m := |fs| - 1;
      EncodeAllSplits(fs[..m], n);
      assert fs[..m][..n] == fs[..n] && fs[..m][n..] == fs[n..][..m - n];
      assert fs[n..][m - n] == fs[m];
    }
  }

  lemma EncodeFirst(fs: seq<Frame>)
    requires fs != []
    ensures EncodeAll(fs) == Encode(fs[0]) + EncodeAll(fs[1..])
  {
    hide Encode;
    EncodeAllSplits(fs, 1);
    assert fs[..1] == [fs[0]];
    assert EncodeAll([fs[0]]) == EncodeAll([]) + Encode(fs[0]);
  }

  /** Every frame obeys the protocol at the point where it is received. */
  predicate Obeys(c: Config, p: Option<Partial>, fs: seq<Frame>)
    requires Formed(p)
    decreases |fs|
  {
    fs != [] ==>
      && Acceptable(fs[0], c, Pending(p))
      && (var r := Assemble(p, fs[0]); r.Rejected? || Obeys(c, r.partial, fs[1..]))
  }

  /** What is decoded once a frame was assembled as `r` and `rest` follows it. */
  function Followed(c: Config, r: Assembled, rest: Bytes): Decoded
    requires Formed(r.partial)
  {
    if r.Rejected? then Decoded([], Failed(r.fail))
    else
      var d := Decode(c, r.partial, rest);
      if r.Stored? then d else Decoded([r.msg] + d.msgs, d.end)
  }

  lemma DecodeStep(c: Config, p: Option<Partial>, f: Frame, rest: Bytes)
    requires Formed(p) && Acceptable(f, c, Pending(p))
    ensures Decode(c, p, Encode(f) + rest) == Followed(c, Assemble(p, f), rest)
  {
    hide Parse, Assemble, Encode;
    ParseEncoded(f, rest, c, Pending(p));
    assert (Encode(f) + rest)[|Encode(f)|..] == rest;
  }

  /** Bytes that stop short of an acceptable frame are waited for, never refused. */
  lemma ShortFrameWaits(c: Config, p: Option<Partial>, f: Frame, t: Bytes)
    requires Acceptable(f, c, Pending(p))
    requires |t| < |Encode(f)| && t == Encode(f)[..|t|]
    ensures Parse(t, c, Pending(p)).More?
  {
    hide Parse, Encode;
    if !Parse(t, c, Pending(p)).More? {
      ParseMonotone(t, Encode(f)[|t|..], c, Pending(p));
      assert t + Encode(f)[|t|..] == Encode(f) + [];
      ParseEncoded(f, [], c, Pending(p));
      SizePositive(t, c, Pending(p));
    }
  }

  /** Decoding an encoded frame list is assembling the list. */
  lemma {:induction false} DecodeRun(c: Config, p: Option<Partial>, fs: seq<Frame>)
    requires Formed(p) && Obeys(c, p, fs)
    ensures var r := RunFrames(p, fs);
            Decode(c, p, EncodeAll(fs))
            == Decoded(r.msgs, if r.failed.Some? then Failed(r.failed.value) else Waiting(r.partial, []))
    decreases |fs|
  {
    hide Decode, Assemble, EncodeAll, Acceptable, Encode;
    if fs == [] {
      Nowhere(c, p);
    } else {
      EncodeFirst(fs);
      DecodeStep(c, p, fs[0], EncodeAll(fs[1..]));
      var r := Assemble(p, fs[0]);
      if !r.Rejected? {
        DecodeRun(c, r.partial, fs[1..]);
      }
    }
  }

  lemma Nowhere(c: Config, p: Option<Partial>)
    requires Formed(p)
    ensures Decode(c, p, EncodeAll([])) == Decoded([], Waiting(p, []))
  {
  }

  /** Conversely, the bytes a reader consumed are the encoding of the frames it assembled. */
  lemma {:induction false} StreamCanonical(c: Config, p: Option<Partial>, b: Bytes) returns (fs: seq<Frame>)
    requires Formed(p) && Decode(c, p, b).end.Waiting?
    ensures Obeys(c, p, fs)
    ensures var d := Decode(c, p, b);
            b == EncodeAll(fs) + d.end.rest && RunFrames(p, fs) == Run(d.msgs, d.end.partial, None)
    decreases |b|
  {
    hide Assemble, EncodeAll, Acceptable, Encode, Parse, Decode;
    NoFrames();
    if Parse(b, c, Pending(p)).Got? {
      var Got(f, size) := Parse(b, c, Pending(p));
      ParseCanonical(b, c, Pending(p));
      SizePositive(b, c, Pending(p));
      assert b == Encode(f) + b[size..];
      DecodeStep(c, p, f, b[size..]);
      var r := Assemble(p, f);
      var tail := StreamCanonical(c, r.partial, b[size..]);
      fs := [f] + tail;
      assert fs[1..] == tail;
      EncodeFirst(fs);
    } else {
      fs := [];
      NoFrameDecodes(c, p, b);
    }
  }

  lemma NoFrameDecodes(c: Config, p: Option<Partial>, b: Bytes)
    requires Formed(p) && !Parse(b, c, Pending(p)).Got? && Decode(c, p, b).end.Waiting?
    ensures Decode(c, p, b) == Decoded([], Waiting(p, b))
  {
  }

  lemma NoFrames()
    ensures EncodeAll([]) == []
  {
  }

  // ----- What an endpoint sends -----

  /** A final frame that a peer configured as `c` takes for one whole message. */
  ghost predicate Sendable(f: Frame, c: Config) {
    && Acceptable(f, c, None) && f.fin
    && (f.op == TEXT ==> Utf8.Valid(f.payload))
    && (f.op == CLOSE ==> ReadClose(f.payload).Accepted?)
  }

  function MsgOf(f: Frame): Msg {
    if f.op == TEXT then Text(f.payload)
    else if f.op == BINARY then Binary(f.payload)
    else if f.op == PING then Ping(f.payload)
    else if f.op == PONG then Pong(f.payload)
    else Close(if |f.payload| < 2 then None else Some((FromBigEndian(f.payload[..2]), f.payload[2..])))
  }

  function MsgsOf(fs: seq<Frame>): (ms: seq<Msg>)
    ensures |ms| == |fs|
  {
    seq(|fs|, i requires 0 <= i < |fs| => MsgOf(fs[i]))
  }

  lemma SentAssembles(f: Frame, c: Config)
    requires Sendable(f, c)
    ensures Assemble(None, f) == Delivered(MsgOf(f), None)
  {
    if f.op == TEXT {
      TextExact(None, f, 0);
    }
  }

  lemma {:induction false} SentRun(fs: seq<Frame>, c: Config)
    requires forall f | f in fs :: Sendable(f, c)
    ensures Obeys(c, None, fs) && RunFrames(None, fs) == Run(MsgsOf(fs), None, None)
  {
    hide Assemble, MsgOf;
    if fs == [] {
    } else {
      SentAssembles(fs[0], c);
      SentRun(fs[1..], c);
      assert [MsgOf(fs[0])] + MsgsOf(fs[1..]) == MsgsOf(fs);
    }
  }

  /** How many leading frames lie wholly within the first `n` bytes of the encoding. */
  function Whole(fs: seq<Frame>, n: nat): (k: nat)
    ensures k <= |fs|
  {
    if fs == [] then 0
    else if |EncodeAll(fs)| <= n then |fs|
    else Whole(fs[..|fs| - 1], n)
  }

  lemma {:induction false} WholeExact(fs: seq<Frame>, n: nat)
    ensures var k := Whole(fs, n);
            && |EncodeAll(fs[..k])| <= n
            && (k < |fs| ==> n < |EncodeAll(fs[..k + 1])|)
  {
    hide Encode;
    if fs == [] {
      NoFrames();
      assert fs[..0] == [];
    } else if |EncodeAll(fs)| <= n {
      assert fs[..|fs|] == fs;
    } else {
      var m := |fs| - 1;
      WholeExact(fs[..m], n);
      var k := Whole(fs[..m], n);
      assert fs[..m][..k] == fs[..k];
      if k < m {
        assert fs[..m][..k + 1] == fs[..k + 1];
      } else {
        assert fs[..k + 1] == fs;
      }
    }
  }

  /**
    * Any prefix of the encoding of sendable frames is decoded without failure to
    * exactly the messages whose frames are complete, in order.
    */
  lemma SentPrefixDecodes(fs: seq<Frame>, c: Config, w: Bytes)
    requires forall f | f in fs :: Sendable(f, c)
    requires |w| <= |EncodeAll(fs)| && w == EncodeAll(fs)[..|w|]
    ensures var k := Whole(fs, |w|);
            && |EncodeAll(fs[..k])| <= |w|
            && Decode(c, None, w) == Decoded(MsgsOf(fs[..k]), Waiting(None, w[|EncodeAll(fs[..k])|..]))
  {
    hide Decode, MsgsOf, EncodeAll, Sendable, Obeys, Parse, RunFrames;
    WholeExact(fs, |w|);
    var k := Whole(fs, |w|);
    EncodeAllSplits(fs, k);
    var head, t := EncodeAll(fs[..k]), w[|EncodeAll(fs[..k])|..];
    assert w == head + t;
    SentRun(fs[..k], c);
    DecodeRun(c, None, fs[..k]);
    DecodeExtends(c, None, head, t);
    assert Parse(t, c, None).More? by { TailWaits(fs, c, w, k); }
    WaitDecodes(c, t);
    assert [] + t == t && MsgsOf(fs[..k]) + [] == MsgsOf(fs[..k]);
  }

  lemma WaitDecodes(c: Config, t: Bytes)
    requires Parse(t, c, None).More?
    ensures Decode(c, None, t) == Decoded([], Waiting(None, t))
  {
  }

  lemma TailWaits(fs: seq<Frame>, c: Config, w: Bytes, k: nat)
    requires forall f | f in fs :: Sendable(f, c)
    requires |w| <= |EncodeAll(fs)| && w == EncodeAll(fs)[..|w|]
    requires k == Whole(fs, |w|) && |EncodeAll(fs[..k])| <= |w|
    ensures Parse(w[|EncodeAll(fs[..k])|..], c, None).More?
  {
    hide Parse, Encode, EncodeAll;
    WholeExact(fs, |w|);
    EncodeAllSplits(fs, k);
    var n := |EncodeAll(fs[..k])|;
    var t := w[n..];
    if k < |fs| {
      EncodeFirst(fs[k..]);
      EncodeAllSplits(fs, k + 1);
      EncodeAllSplits(fs[..k + 1], k);
      assert fs[..k + 1][..k] == fs[..k] && fs[..k + 1][k..] == [fs[k]];
      EncodeFirst([fs[k]]);
      NoFrames();
      assert [fs[k]][1..] == [];
      assert t == Encode(fs[k])[..|t|];
      assert fs[k] in fs;
      ShortFrameWaits(c, None, fs[k], t);
    } else {
      assert fs[..k] == fs && t == [];
      Parsing.EmptyWaits(c, None);
    }
  }
}
