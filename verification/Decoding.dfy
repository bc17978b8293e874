/**
  * Decoding a byte stream: what one call for the next message does to the
  * unread bytes and the unfinished message, what draining the reader yields,
  * and that neither depends on how the bytes were split.
  */
module Decoding {
  import opened Basics
  import opened Parsing
  import opened Assembly

  datatype Out = Error(fail: Fail) | Nothing | Message(msg: Msg)

  /** A call's result with the state it leaves. */
  datatype Turn = Turn(out: Out, partial: Option<Partial>, rest: Bytes)

  lemma SizePositive(b: Bytes, c: Config, pending: Option<nat>)
    requires Parse(b, c, pending).Got?
    ensures 2 <= Parse(b, c, pending).size <= |b|
  {
  }

  function Next(c: Config, p: Option<Partial>, b: Bytes): (t: Turn)
    requires Formed(p)
    ensures Formed(t.partial) && |t.rest| <= |b|
    ensures t.out.Message? ==> |t.rest| < |b|
    decreases |b|
  {
    match Parse(b, c, Pending(p))
    case More => Turn(Nothing, p, b)
    case Bad(fail) => Turn(Error(fail), p, b)
    case Got(f, size) =>
      SizePositive(b, c, Pending(p));
      match Assemble(p, f)
      case Rejected(fail, p') => Turn(Error(fail), p', b[size..])
      case Stored(p') => Next(c, p', b[size..])
      case Delivered(msg, p') => Turn(Message(msg), p', b[size..])
  }

  datatype End = Failed(fail: Fail) | Waiting(partial: Option<Partial>, rest: Bytes)

  /** The messages a drained reader yields and how it stops. */
  datatype Decoded = Decoded(msgs: seq<Msg>, end: End)

  predicate Resumable(e: End) {
    e.Waiting? ==> Formed(e.partial)
  }

  function Decode(c: Config, p: Option<Partial>, b: Bytes): (d: Decoded)
    requires Formed(p)
    ensures Resumable(d.end)
    decreases |b|
  {
    var t := Next(c, p, b);
    match t.out
    case Error(fail) => Decoded([], Failed(fail))
    case Nothing => Decoded([], Waiting(t.partial, t.rest))
    case Message(msg) =>
      var d := Decode(c, t.partial, t.rest);
      Decoded([msg] + d.msgs, d.end)
  }

  // ----- Chunking -----

  /** More input: a verdict stands, and a waiting reader simply goes on. */
  lemma {:induction false} NextExtends(c: Config, p: Option<Partial>, b: Bytes, t: Bytes)
    requires Formed(p)
    ensures var n := Next(c, p, b);
            Next(c, p, b + t) == if n.out.Nothing? then Next(c, n.partial, n.rest + t) else n.(rest := n.rest + t)
    decreases |b|
  {
    hide Parse, Assemble;
    if !Parse(b, c, Pending(p)).More? {
      ParseMonotone(b, t, c, Pending(p));
      if Parse(b, c, Pending(p)).Got? {
        var Got(f, size) := Parse(b, c, Pending(p));
        SizePositive(b, c, Pending(p));
        assert (b + t)[size..] == b[size..] + t;
        if Assemble(p, f).Stored? {
          NextExtends(c, Assemble(p, f).partial, b[size..], t);
        }
      }
    }
  }

  /** The state after more input arrives. */
  function Feed(c: Config, d: Decoded, chunk: Bytes): (r: Decoded)
    requires Resumable(d.end)
    ensures Resumable(r.end)
  {
    if d.end.Failed? then d
    else
      var e := Decode(c, d.end.partial, d.end.rest + chunk);
      Decoded(d.msgs + e.msgs, e.end)
  }

  /** A reader fed chunk by chunk and drained after each. */
  function FeedAll(c: Config, chunks: seq<Bytes>): (d: Decoded)
    ensures Resumable(d.end)
  {
    if chunks == [] then Decoded([], Waiting(None, []))
    else Feed(c, FeedAll(c, chunks[..|chunks| - 1]), chunks[|chunks| - 1])
  }

  lemma {:induction false} DecodeExtends(c: Config, p: Option<Partial>, b: Bytes, t: Bytes)
    requires Formed(p)
    ensures Decode(c, p, b + t) == Feed(c, Decode(c, p, b), t)
    decreases |b|
  {
    hide Next;
    NextExtends(c, p, b, t);
    var n := Next(c, p, b);
    if n.out.Message? {
      DecodeExtends(c, n.partial, n.rest, t);
    } else if n.out.Nothing? {
      NextIdle(c, p, b);
      assert [] + Decode(c, n.partial, n.rest + t).msgs == Decode(c, n.partial, n.rest + t).msgs;
    }
  }

  lemma NextIdle(c: Config, p: Option<Partial>, b: Bytes)
    requires Formed(p)
    ensures Formed(Next(c, p, b).partial)
  {
  }

  /**
    * Chunking independence: however a stream is split, the messages and the
    * final outcome are those of the stream as a whole.
    */
  lemma {:induction false} ChunkingIndependent(c: Config, chunks: seq<Bytes>)
    ensures FeedAll(c, chunks) == Decode(c, None, Concat(chunks))
  {
    hide Decode, Feed;
    if chunks == [] {
      NothingYet(c);
    } else {
      var n := |chunks| - 1;
      ChunkingIndependent(c, chunks[..n]);
      ConcatAppend(chunks[..n], chunks[n]);
      assert chunks == chunks[..n] + [chunks[n]];
      DecodeExtends(c, None, Concat(chunks[..n]), chunks[n]);
    }
  }

  lemma NothingYet(c: Config)
    ensures FeedAll(c, []) == Decode(c, None, Concat([]))
  {
  }

  // ----- The reader's memory -----

  /** A reader that waits holds no oversized message and only part of one more frame. */
  lemma {:induction false} NextBounded(c: Config, p: Option<Partial>, b: Bytes)
    requires Sound(p, c.max)
    ensures var n := Next(c, p, b);
            && (!n.out.Error? ==> Sound(n.partial, c.max))
            && (n.out.Nothing? ==> Parse(n.rest, c, Pending(n.partial)).More?)
            && (n.out.Message? && (n.out.msg.Text? || n.out.msg.Binary?) ==> |n.out.msg.data| <= c.max)
            && (n.out.Message? && (n.out.msg.Ping? || n.out.msg.Pong?) ==> |n.out.msg.data| <= 125)
    decreases |b|
  {
    hide Parse, Assemble, Sound;
    assert Formed(p) by { SoundFormed(p, c.max); }
    if Parse(b, c, Pending(p)).Got? {
      var Got(f, size) := Parse(b, c, Pending(p));
      SizePositive(b, c, Pending(p));
      ParseCanonical(b, c, Pending(p));
      AssembleSound(p, f, c);
      if Assemble(p, f).Stored? {
        NextBounded(c, Assemble(p, f).partial, b[size..]);
      }
    }
  }

  lemma SoundFormed(p: Option<Partial>, max: nat)
    requires Sound(p, max)
    ensures Formed(p) && (p.Some? ==> |p.value.data| <= max)
  {
  }

  lemma {:induction false} DecodeBounded(c: Config, p: Option<Partial>, b: Bytes)
    requires Sound(p, c.max)
    ensures Formed(p)
    ensures var d := Decode(c, p, b);
            && (forall i | 0 <= i < |d.msgs| ::
                  (d.msgs[i].Text? || d.msgs[i].Binary? ==> |d.msgs[i].data| <= c.max))
            && (d.end.Waiting? ==>
                  && Sound(d.end.partial, c.max)
                  && (d.end.partial.Some? ==> |d.end.partial.value.data| <= c.max)
                  && |d.end.rest| < 14 + Max(c.max, 125))
    decreases |b|
  {
    hide Next, Sound, Parse;
    SoundFormed(p, c.max);
    NextBounded(c, p, b);
    var n := Next(c, p, b);
    if n.out.Message? {
      DecodeBounded(c, n.partial, n.rest);
    } else if n.out.Nothing? {
      SoundFormed(n.partial, c.max);
      MoreIsBounded(n.rest, c, Pending(n.partial));
    }
  }
}
