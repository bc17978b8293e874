/**
  * The outbound path as a state machine: the shared queue, the writer with the
  * batch it took, the frames queued so far and the bytes that reached the wire.
  */
module Outbound {
  import opened Basics
  import opened Framing
  import opened SendQueue
  import opened Streams

  /** Why a frame was queued. */
  datatype Kind = App | Reply | Deferred | Probe | Final

  datatype Pushed = Pushed(frame: Frame, kind: Kind)

  /**
    * The writer is about to take a batch, about to flush a deferred pong, busy
    * with its batch, owing a drain notice, or gone.
    */
  datatype Phase = Idle | Flushing | Writing | Owing | Exited

  /** `at` bytes of the first item are accounted for and `wrote` more are written. */
  datatype Writer = Writer(phase: Phase, batch: seq<Item>, at: nat, wrote: nat, stamp: nat)

  datatype Out = Out(
    q: Queue,
    w: Writer,
    log: seq<Pushed>,       // every frame queued, in order
    fins: seq<nat>,         // where in the log a shutdown was queued
    wire: Bytes,            // every byte the transport accepted
    shut: bool,             // the transport's sending direction was closed
    progressed: nat,        // bytes subtracted from the buffered counter
    prev: nat,              // log length at the writer's last batch but one
    mid: nat,               // log length at the writer's last batch
    floor: nat)             // log length behind the last probe that was written

  const Start := Out(Empty, Writer(Exited, [], 0, 0, 0), [], [], [], false, 0, 0, 0, 0)

  datatype Act =
    | Nop
    | Push(p: Pushed)
    | PushDeferred(p: Pushed)
    | PushProbe(p: Pushed)
    | PushFin
    | SetPong(pong: Option<Bytes>)
    | SetDrain(len: nat)
    | Stop
    | Launch
    | Swap
    | SkipPong
    | Write(n: nat)
    | Progress(limit: nat, stamp: nat)
    | Noticed
    | Finish
    | Shut
    | Exit

  function Logged(o: Out, p: Pushed): seq<Pushed> {
    if o.q.done then o.log else o.log + [p]
  }

  predicate CanWrite(w: Writer) {
    w.phase == Writing && w.batch != [] && !w.batch[0].Shutdown?
  }

  /** Where the code performing the action stands. */
  predicate Ready(o: Out, a: Act) {
    match a
    case PushDeferred(_) => o.w.phase == Flushing
    case Swap => o.w.phase == Idle && !o.q.done
    case SkipPong => o.w.phase == Flushing
    case Write(n) => CanWrite(o.w) && o.w.wrote == 0 && n > 0 && o.w.at + n <= |o.w.batch[0].bytes|
    case Progress(_, _) => CanWrite(o.w) && o.w.wrote > 0
    case Noticed => o.w.phase == Owing
    case Finish => CanWrite(o.w) && o.w.wrote == 0 && o.w.at == |o.w.batch[0].bytes|
    case Shut => o.w.phase == Writing && o.w.batch != [] && o.w.batch[0].Shutdown?
    case _ => true
  }

  /** What a connection guarantees of its actions: nothing follows a shutdown. */
  predicate Allowed(o: Out, a: Act) {
    && Ready(o, a)
    && (a.PushFin? || a.Push? || a.PushProbe? || a.PushDeferred? ==> o.fins == [])
    && (a.Launch? ==> o.w.batch == [])
  }

  /** The phase once the pong was looked after or an item is complete. */
  function Resume(batch: seq<Item>): Phase {
    if batch == [] then Idle else Writing
  }

  function Do(o: Out, a: Act): Out
    requires Ready(o, a)
  {
    match a
    case Nop => o
    case Push(p) => o.(q := WithData(o.q, Encode(p.frame)), log := Logged(o, p))
    case PushDeferred(p) =>
      o.(q := WithData(o.q, Encode(p.frame)), log := Logged(o, p), w := o.w.(phase := Resume(o.w.batch)))
    case PushProbe(p) => o.(q := WithBeat(o.q, Encode(p.frame), |o.log|), log := Logged(o, p))
    case PushFin => o.(q := WithShutdown(o.q), fins := if o.q.done then o.fins else o.fins + [|o.log|])
    case SetPong(pong) => o.(q := o.q.(pong := pong))
    case SetDrain(len) => o.(q := o.q.(drain := Some(len)))
    case Stop => o.(q := Stopped(o.q))
    case Launch => o.(w := o.w.(phase := Idle))
    case Swap =>
      o.(q := o.q.(items := []), prev := o.mid, mid := |o.log|,
         w := o.w.(batch := o.q.items, phase := if o.q.pong.Some? then Flushing else Resume(o.q.items)))
    case SkipPong => o.(q := o.q.(pong := None), w := o.w.(phase := Resume(o.w.batch)))
    case Write(n) =>
      o.(wire := o.wire + o.w.batch[0].bytes[o.w.at..o.w.at + n], w := o.w.(wrote := n))
    case Progress(limit, stamp) =>
      var (q', due) := Progressed(o.q, o.w.wrote, limit);
      o.(q := q', progressed := o.progressed + o.w.wrote,
         w := o.w.(at := o.w.at + o.w.wrote, wrote := 0, stamp := stamp, phase := if due then Owing else Writing))
    case Noticed => o.(w := o.w.(phase := Writing))
    case Finish =>
      o.(w := o.w.(batch := o.w.batch[1..], at := 0, phase := Resume(o.w.batch[1..])),
         floor := if o.w.batch[0].Beat? then o.w.batch[0].probe + 1 else o.floor)
    case Shut =>
      o.(shut := true, q := o.q.(shutdown := false),
         w := o.w.(batch := o.w.batch[1..], at := 0, phase := Resume(o.w.batch[1..])))
    case Exit => o.(w := o.w.(phase := Exited))
  }

  /** The parts of the state that guard other actions, after an action. */
  lemma DoGuards(o: Out, a: Act)
    requires Ready(o, a)
    ensures Do(o, a).q.done == (o.q.done || a.Stop?)
    ensures Do(o, a).q.pong == if a.SetPong? then a.pong
                               else if a.Stop? || a.SkipPong? || (a.PushFin? && !o.q.done) then None
                               else o.q.pong
    ensures Do(o, a).fins == if a.PushFin? && !o.q.done then o.fins + [|o.log|] else o.fins
    ensures Do(o, a).log == if (a.Push? || a.PushDeferred? || a.PushProbe?) && !o.q.done then o.log + [a.p] else o.log
  {
    hide Encode, Joined;
  }

  lemma DoPhase(o: Out, a: Act)
    requires Ready(o, a)
    ensures o.w.phase == Flushing && !a.PushDeferred? && !a.SkipPong? && !a.Launch? && !a.Exit? ==>
              Do(o, a).w.phase == Flushing
    ensures o.w.phase == Exited && !a.Launch? ==> Do(o, a).w.phase == Exited && Do(o, a).w.batch == o.w.batch
    ensures Do(o, a).w.phase == Owing ==> o.w.phase == Owing || a.Progress?
  {
    hide Encode, Joined;
  }

  // ----- Order and accounting -----

  function Bits(log: seq<Pushed>): (fs: seq<Frame>)
    ensures |fs| == |log|
  {
    seq(|log|, i requires 0 <= i < |log| => log[i].frame)
  }

  /** The bytes of the frames queued, in push order. */
  function EncodeLog(log: seq<Pushed>): Bytes {
    EncodeAll(Bits(log))
  }

  lemma LogAppend(log: seq<Pushed>, p: Pushed)
    ensures EncodeLog(log + [p]) == EncodeLog(log) + Encode(p.frame)
  {
    hide Encode;
    assert Bits(log + [p]) == Bits(log) + [p.frame];
    assert (Bits(log) + [p.frame])[..|log|] == Bits(log);
  }

  lemma LogSplit(log: seq<Pushed>, n: nat)
    requires n <= |log|
    ensures EncodeLog(log) == EncodeLog(log[..n]) + EncodeLog(log[n..])
  {
    hide EncodeAll;
    EncodeAllSplits(Bits(log), n);
    assert Bits(log)[..n] == Bits(log[..n]) && Bits(log)[n..] == Bits(log[n..]);
  }

  lemma LogEmpty()
    ensures EncodeLog([]) == []
  {
  }

  /** What the writer still holds. */
  function Remaining(w: Writer): Bytes
    requires Shaped(w)
  {
    if w.batch == [] then [] else BytesOf(w.batch[0])[w.at + w.wrote..] + Content(w.batch[1..])
  }

  predicate Shaped(w: Writer) {
    && (w.batch == [] ==> w.at == 0 && w.wrote == 0)
    && (w.batch != [] ==> w.at + w.wrote <= |BytesOf(w.batch[0])|)
    && (w.phase == Idle ==> w.batch == [])
    && (w.phase == Flushing ==> w.at == 0 && w.wrote == 0)
    && (w.phase == Owing ==> CanWrite(w.(phase := Writing)) && w.wrote == 0)
  }

  /**
    * The wire and the writer's batch hold the frames up to the last exchange, the
    * queue the rest, and the counter is what was pushed less what was accounted for.
    */
  predicate Ordered(o: Out) {
    && Shaped(o.w)
    && o.prev <= o.mid <= |o.log|
    && o.wire + Remaining(o.w) == EncodeLog(o.log[..o.mid])
    && (!o.q.done ==> Content(o.q.items) == EncodeLog(o.log[o.mid..]))
    && o.progressed + o.w.wrote == |o.wire|
    && o.q.buffered == |EncodeLog(o.log)| - o.progressed
    && |EncodeLog(o.log[..o.prev])| <= o.progressed
  }

  /** The whole log lies on the wire, in the writer or in the queue. */
  lemma Pipeline(o: Out)
    requires Ordered(o)
    ensures EncodeLog(o.log) == o.wire + Remaining(o.w) + EncodeLog(o.log[o.mid..])
    ensures o.wire == EncodeLog(o.log)[..|o.wire|]
    ensures !o.q.done ==> o.q.buffered == |Remaining(o.w)| + o.w.wrote + |Content(o.q.items)|
    ensures o.w.wrote <= o.q.buffered
  {
    hide EncodeLog, Remaining;
    LogSplit(o.log, o.mid);
  }

  lemma PushOrdered(o: Out, p: Pushed, q': Queue)
    requires Ordered(o) && !o.q.done
    requires !q'.done && Content(q'.items) == Content(o.q.items) + Encode(p.frame)
    requires q'.buffered == o.q.buffered + |Encode(p.frame)|
    ensures Ordered(o.(q := q', log := o.log + [p]))
  {
    hide EncodeLog, Remaining, Encode;
    var log' := o.log + [p];
    assert log'[..o.mid] == o.log[..o.mid] && log'[..o.prev] == o.log[..o.prev];
    assert log'[o.mid..] == o.log[o.mid..] + [p];
    LogAppend(o.log[o.mid..], p);
    LogAppend(o.log, p);
  }

  lemma SwapOrdered(o: Out)
    requires Ordered(o) && Ready(o, Swap)
    ensures Ordered(Do(o, Swap))
  {
    hide EncodeLog;
    Pipeline(o);
    var o' := Do(o, Swap);
    assert o.log[..|o.log|] == o.log && o.log[|o.log|..] == [];
    LogEmpty();
    assert Remaining(o'.w) == Content(o.q.items) by {
      if o.q.items != [] {
        assert BytesOf(o.q.items[0])[0..] == BytesOf(o.q.items[0]);
      }
    }
  }

  lemma Regroup(wire: Bytes, item: Bytes, at: nat, n: nat, rest: Bytes)
    requires at + n <= |item|
    ensures wire + item[at..at + n] + (item[at + n..] + rest) == wire + (item[at..] + rest)
  {
    assert item[at..] == item[at..at + n] + item[at + n..];
  }

  lemma WriteMoves(o: Out, n: nat)
    requires Shaped(o.w) && Ready(o, Write(n))
    ensures var o' := Do(o, Write(n));
            Shaped(o'.w) && o'.wire + Remaining(o'.w) == o.wire + Remaining(o.w) && |o'.wire| == |o.wire| + n
  {
    hide Content, Do, Ready;
    WriteEffect(o, n);
    Regroup(o.wire, o.w.batch[0].bytes, o.w.at, n, Content(o.w.batch[1..]));
  }

  lemma WriteEffect(o: Out, n: nat)
    requires Ready(o, Write(n))
    ensures var o' := Do(o, Write(n));
            && CanWrite(o.w) && o.w.wrote == 0 && o.w.at + n <= |o.w.batch[0].bytes|
            && o'.wire == o.wire + o.w.batch[0].bytes[o.w.at..o.w.at + n]
            && o'.w == o.w.(wrote := n)
  {
  }

  lemma WriteOrdered(o: Out, n: nat)
    requires Ordered(o) && Ready(o, Write(n))
    ensures Ordered(Do(o, Write(n)))
  {
    hide EncodeLog, Remaining, Shaped;
    WriteMoves(o, n);
  }

  lemma PopOrdered(o: Out, a: Act)
    requires Ordered(o) && Ready(o, a) && (a.Finish? || a.Shut?)
    ensures Ordered(Do(o, a))
  {
    hide EncodeLog, Do, Ready, Content, Remaining, Shaped;
    PopEffect(o, a);
    PopRemaining(o.w, Do(o, a).w);
  }

  lemma PopEffect(o: Out, a: Act)
    requires Shaped(o.w) && Ready(o, a) && (a.Finish? || a.Shut?)
    ensures var o' := Do(o, a);
            && Popped(o.w, o'.w)
            && o'.q.items == o.q.items && o'.q.buffered == o.q.buffered && o'.q.done == o.q.done
            && o'.log == o.log && o'.wire == o.wire && o'.progressed == o.progressed && o'.prev == o.prev && o'.mid == o.mid
  {
  }

  predicate Popped(w: Writer, w': Writer) {
    && w.batch != [] && w.at == |BytesOf(w.batch[0])| && w.wrote == 0
    && w' == w.(batch := w.batch[1..], at := 0, phase := Resume(w.batch[1..]))
  }

  lemma PopRemaining(w: Writer, w': Writer)
    requires Shaped(w) && Popped(w, w')
    ensures Shaped(w') && Remaining(w') == Remaining(w)
  {
    hide Content;
    var rest := w.batch[1..];
    assert Remaining(w) == [] + Content(rest);
    if rest == [] {
      EmptyContent(rest);
    } else {
      ContentHead(rest);
      assert BytesOf(rest[0])[0..] == BytesOf(rest[0]);
    }
  }

  lemma EmptyContent(items: seq<Item>)
    requires items == []
    ensures Content(items) == []
  {
  }

  lemma ContentHead(items: seq<Item>)
    requires items != []
    ensures Content(items) == BytesOf(items[0]) + Content(items[1..])
  {
  }

  lemma ProgressOrdered(o: Out, limit: nat, stamp: nat)
    requires Ordered(o) && Ready(o, Progress(limit, stamp))
    ensures o.w.wrote <= o.q.buffered
    ensures Ordered(Do(o, Progress(limit, stamp)))
  {
    hide EncodeLog, Content;
    Pipeline(o);
  }

  /** Every step keeps order and accounting; `progress` cannot underflow. */
  lemma NextOrdered(o: Out, a: Act)
    requires Ordered(o) && Allowed(o, a)
    ensures a.Progress? ==> o.w.wrote <= o.q.buffered
    ensures Ordered(Do(o, a))
  {
    hide EncodeLog, Content, Encode, Joined, Remaining, Shaped;
    match a
    case Push(p) =>
      if !o.q.done {
        JoinedContent(o.q.items, Encode(p.frame));
        PushOrdered(o, p, WithData(o.q, Encode(p.frame)));
      }
    case PushDeferred(p) =>
      if !o.q.done {
        JoinedContent(o.q.items, Encode(p.frame));
        PushOrdered(o, p, WithData(o.q, Encode(p.frame)));
      }
      ResumeShaped(o.w);
    case PushProbe(p) =>
      if !o.q.done {
        ContentAppend(o.q.items, Beat(Encode(p.frame), |o.log|));
        PushOrdered(o, p, WithBeat(o.q, Encode(p.frame), |o.log|));
      }
    case PushFin =>
      ContentAppend(o.q.items, Shutdown);
      assert Content(o.q.items) + [] == Content(o.q.items);
    case Swap => SwapOrdered(o);
    case SkipPong => ResumeShaped(o.w);
    case Write(n) => WriteOrdered(o, n);
    case Progress(limit, stamp) => ProgressOrdered(o, limit, stamp);
    case Finish => PopOrdered(o, a);
    case Shut => PopOrdered(o, a);
    case Launch => ResumeShaped(o.w);
    case Noticed => ResumeShaped(o.w);
    case Exit => ResumeShaped(o.w);
    case _ =>
  }

  lemma ResumeShaped(w: Writer)
    requires Shaped(w)
    ensures w.phase == Flushing ==>
              Shaped(w.(phase := Resume(w.batch))) && Remaining(w.(phase := Resume(w.batch))) == Remaining(w)
    ensures w.batch == [] ==> Shaped(w.(phase := Idle)) && Remaining(w.(phase := Idle)) == Remaining(w)
    ensures w.phase == Owing ==> Shaped(w.(phase := Writing)) && Remaining(w.(phase := Writing)) == Remaining(w)
    ensures Shaped(w.(phase := Exited)) && Remaining(w.(phase := Exited)) == Remaining(w)
  {
    hide Remaining, Content;
    if w.phase == Flushing { SameRemaining(w, w.(phase := Resume(w.batch))); }
    if w.batch == [] { SameRemaining(w, w.(phase := Idle)); }
    if w.phase == Owing { SameRemaining(w, w.(phase := Writing)); }
    SameRemaining(w, w.(phase := Exited));
  }

  lemma SameRemaining(w: Writer, w': Writer)
    requires Shaped(w) && Shaped(w') && w'.batch == w.batch && w'.at == w.at && w'.wrote == w.wrote
    ensures Remaining(w') == Remaining(w)
  {
  }
}
