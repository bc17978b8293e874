/** How much a connection buffers for a peer that does not read. */
module Limits {
  import opened Basics
  import opened Framing
  import opened SendQueue
  import opened Outbound
  import opened Pipeline
  import opened Backlog
  import opened Connection
  import opened Lifecycle
  import opened Safety
  import opened Goodbye
  import opened Delivery
  import Heartbeat
  import Utf8

  /** What ordinary frames may take: the limit, one oversized send, or replies to pings. */
  function Cap(c: Setup, largest: nat): nat {
    Max(Max(c.limit, largest), PONG_LIMIT + 130)
  }

  predicate LimitAgrees(c: Setup, s: Link) {
    && (s.held.SendPush? ==> Fits(s.out.q.buffered, EncodedSize(c, s.held.payload), c.limit))
    && (s.held.PongClear? || s.held.PongPush? ==> s.out.q.buffered < PONG_LIMIT)
    && Unwritten(s.out.log, s.out.progressed, ORDINARY) <= Cap(c, s.past.largest)
  }

  /** Frames that are not ordinary never count, and writing never adds. */
  lemma OrdinaryStays(o: Out, a: Act)
    requires Flowing(o) && Allowed(o, a)
    ensures a.Push? && a.p.kind in ORDINARY && !o.q.done ==>
              Unwritten(Do(o, a).log, Do(o, a).progressed, ORDINARY)
              == Unwritten(o.log, o.progressed, ORDINARY) + |Encode(a.p.frame)|
    ensures !((a.Push? || a.PushDeferred? || a.PushProbe?) && a.p.kind in ORDINARY) ==>
              Unwritten(Do(o, a).log, Do(o, a).progressed, ORDINARY) <= Unwritten(o.log, o.progressed, ORDINARY)
    ensures !a.Push? && !a.PushDeferred? && !a.PushProbe? ==> Do(o, a).q.buffered <= o.q.buffered
  {
    hide EncodeLog, Encode, Joined, Unwritten, Remaining, Content, Sealed, Paced, Probing;
    Outbound.Pipeline(o);
    if (a.Push? || a.PushDeferred? || a.PushProbe?) && !o.q.done {
      UnwrittenAppend(o.log, a.p, o.progressed, ORDINARY);
    } else if a.Progress? {
      UnwrittenShrinks(o.log, o.progressed, o.progressed + o.w.wrote, ORDINARY);
    }
  }

  lemma OrdinaryPart(o: Out)
    requires Ordered(o)
    ensures Unwritten(o.log, o.progressed, ORDINARY) <= o.q.buffered
  {
    hide EncodeLog, Unwritten, Remaining, Content;
    UnwrittenTotal(o.log, o.progressed);
    Outbound.Pipeline(o);
  }

  lemma StepLimit(c: Setup, s: Link, i: Inner)
    requires Safe(s) && LimitAgrees(c, s) && CanStep(c, s, i)
    ensures LimitAgrees(c, DoStep(c, s, i))
  {
    hide Do, Encode, EncodedLen, Utf8.Scan, Unwritten, Ordered, Sealed, Paced, Probing, ProbeAgrees;
    EffectAllowed(c, s, i);
    var a := Effect(c, s, i);
    OrdinaryStays(s.out, a);
    OrdinaryPart(s.out);
    if a.Push? { EncodedLength(a.p.frame); }
    if i.PushPong? { PongSize(c, s.held.data); }
  }

  lemma PongSize(c: Setup, data: Bytes)
    requires |data| <= 125
    ensures EncodedSize(c, data) <= 131
  {
  }

  lemma WorkLimit(c: Setup, s: Link, w: Work)
    requires Safe(s) && LimitAgrees(c, s) && CanWork(c, s, w)
    ensures LimitAgrees(c, DoWork(c, s, w))
  {
    hide Do, EncodedLen, Unwritten, Living, Ordered, Sealed, Paced, Probing, ProbeAgrees;
    WorkAllowed(c, s, w);
    OrdinaryStays(s.out, Job(c, s, w));
  }

  lemma EnterLimit(c: Setup, s: Link, e: Entry)
    requires Safe(s) && LimitAgrees(c, s) && CanEnter(c, s, e)
    ensures LimitAgrees(c, DoEnter(c, s, e))
  {
    hide Do, EncodedLen, Unwritten, Ordered, Sealed, Paced, Probing, ProbeAgrees, Utf8.Scan, Heartbeat.Check, Heartbeat.Seen;
    EnterOut(c, s, e);
    OrdinaryStays(s.out, EntryAct(s, e));
  }

  lemma NextLimit(c: Setup, s: Link, a: Action)
    requires Safe(s) && LimitAgrees(c, s) && Enabled(c, s, a)
    ensures LimitAgrees(c, Next(c, s, a))
  {
    hide DoEnter, DoStep, DoWork, CanEnter, CanStep, CanWork, Safe, Unwritten;
    match a
    case Enter(e) => EnterLimit(c, s, e);
    case Inside(i) => StepLimit(c, s, i);
    case Working(w) => WorkLimit(c, s, w);
    case Around(w) =>
  }

  /** The sizes of the frames that are queued whatever the limit. */
  lemma ControlsAreSmall(c: Setup, s: Link)
    requires Sane(c) && FramesAgree(c, s)
    ensures Small(s.out.log)
  {
    hide Encode, MaySend, GoodClose;
    forall p | p in s.out.log
      ensures (p.kind == Deferred || p.kind == Final ==> |Encode(p.frame)| <= 131) && (p.kind == Probe ==> |Encode(p.frame)| <= 14)
    {
      EncodedLength(p.frame);
      GoodCloseSize(p.frame.payload);
    }
  }

  lemma GoodCloseSize(payload: Bytes)
    ensures GoodClose(payload) ==> |payload| <= 125
  {
  }

  /** The buffer's bound in every state. */
  lemma Bounded(c: Setup, s: Link)
    requires Sane(c) && Safe(s) && FramesAgree(c, s) && ClosingAgrees(s) && LimitAgrees(c, s)
    ensures s.out.q.buffered <= Cap(c, s.past.largest) + 131 + 14 + 262
  {
    hide Ordered, Paced, Probing, Sealed, Small, Unwritten, Count, Living, ProbeAgrees;
    ControlsAreSmall(c, s);
    BufferedBound(s.out, Cap(c, s.past.largest));
  }
}
