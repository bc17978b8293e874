/** The closing handshake on the wire, and that a reply is not cut off. */
module Goodbye {
  import opened Framing
  import opened SendQueue
  import opened Outbound
  import opened Pipeline
  import opened Connection
  import opened Lifecycle
  import opened Safety
  import Heartbeat
  import Utf8

  /** After our close frame only pongs may follow. */
  predicate Parting(log: seq<Pushed>) {
    forall i, j | 0 <= i < j < |log| && log[i].kind == Final :: log[j].kind == Reply || log[j].kind == Deferred
  }

  /** Our close frame is queued once, by the section that recorded it as sent. */
  predicate ClosingAgrees(s: Link) {
    && Count(s.out.log, Final) + (if s.held.ClosePush? then 1 else 0) == (if s.flags.sentClose then 1 else 0)
    && Parting(s.out.log)
  }

  lemma NoFinal(log: seq<Pushed>)
    requires Count(log, Final) == 0
    ensures forall i | 0 <= i < |log| :: log[i].kind != Final
  {
    hide Count;
    forall i | 0 <= i < |log| ensures log[i].kind != Final {
      if log[i].kind == Final { CountSome(log, i, Final); }
    }
  }

  lemma PartingAppend(log: seq<Pushed>, p: Pushed)
    requires Parting(log)
    requires p.kind == Reply || p.kind == Deferred || Count(log, Final) == 0
    ensures Parting(log + [p])
    ensures Count(log + [p], Final) == Count(log, Final) + if p.kind == Final then 1 else 0
  {
    hide Count;
    CountAppend(log, p, Final);
    if Count(log, Final) == 0 { NoFinal(log); }
  }

  lemma StepClosing(c: Setup, s: Link, i: Inner)
    requires Safe(s) && ClosingAgrees(s) && CanStep(c, s, i)
    ensures ClosingAgrees(DoStep(c, s, i))
  {
    hide Do, Fits, EncodedLen, Utf8.Scan, Count, Parting, Flowing, ProbeAgrees;
    EffectAllowed(c, s, i);
    var a := Effect(c, s, i);
    DoGuards(s.out, a);
    if a.Push? || a.PushDeferred? || a.PushProbe? {
      PartingAppend(s.out.log, a.p);
    }
  }

  lemma EnterClosing(c: Setup, s: Link, e: Entry)
    requires Living(s) && ClosingAgrees(s) && CanEnter(c, s, e)
    ensures ClosingAgrees(DoEnter(c, s, e))
  {
    hide Do, Fits, EncodedLen, Utf8.Scan, Count, Parting, Verdict, Heartbeat.Seen, EndStatus;
    EnterOut(c, s, e);
    DoGuards(s.out, EntryAct(s, e));
  }

  lemma WorkClosing(c: Setup, s: Link, w: Work)
    requires ClosingAgrees(s) && CanWork(c, s, w)
    ensures ClosingAgrees(DoWork(c, s, w))
  {
    hide Do, Count, Parting, Progressed;
    DoGuards(s.out, Job(c, s, w));
  }

  lemma NextClosing(c: Setup, s: Link, a: Action)
    requires Safe(s) && ClosingAgrees(s) && Enabled(c, s, a)
    ensures ClosingAgrees(Next(c, s, a))
  {
    hide DoEnter, DoStep, DoWork, CanEnter, CanStep, CanWork, Count, Parting, Flowing, ProbeAgrees, Living, FinAgrees;
    match a
    case Enter(e) => EnterClosing(c, s, e);
    case Inside(i) => StepClosing(c, s, i);
    case Working(w) => WorkClosing(c, s, w);
    case Around(w) =>
  }

  // ----- Flushing the close reply -----

  /** A section that queues nothing. */
  predicate Mute(h: Held) {
    h == Free || h == FlushTake
  }

  /**
    * Once the reader is past its loop with the conversation over, nothing more is
    * queued, so a flush that found everything written stays true.
    */
  predicate FlushAgrees(s: Link) {
    && ((s.task == Draining || s.task == Leaving) && Over(s.flags) ==> Mute(s.held))
    && (s.task == Draining ==> Over(s.flags))
    && (s.env.flushed && s.flags.state != Closed ==>
          s.task == Leaving && Over(s.flags) && s.out.q.buffered == 0 && !s.out.q.shutdown)
    && (Returned(s) ==> s.env.flushed)
  }

  /** Waiting for the close reply is over, with the connection neither ended nor out of time. */
  predicate Returned(s: Link) {
    && s.task == Leaving && Over(s.flags) && s.flags.state != Closed
    && s.flags.deadline.Some? && s.env.now < s.flags.deadline.value
  }

  lemma EnterFlush(c: Setup, s: Link, e: Entry)
    requires Safe(s) && FlushAgrees(s) && CanEnter(c, s, e)
    ensures FlushAgrees(DoEnter(c, s, e))
  {
    hide Do, Fits, EncodedLen, Utf8.Scan, Heartbeat.Check, Heartbeat.Seen, Flowing, ProbeAgrees;
    EnterOut(c, s, e);
    StillEmpty(s.out, EntryAct(s, e));
  }

  lemma NextFlush(c: Setup, s: Link, a: Action)
    requires Safe(s) && FlushAgrees(s) && Enabled(c, s, a)
    ensures FlushAgrees(Next(c, s, a))
  {
    hide DoEnter, DoStep, DoWork, CanEnter, CanStep, CanWork, Happen, CanHappen, Safe;
    match a
    case Enter(e) => EnterFlush(c, s, e);
    case Inside(i) => StepFlush(c, s, i);
    case Working(w) => WorkFlush(c, s, w);
    case Around(w) => HappenFlush(s, w);
  }

  lemma HappenFlush(s: Link, w: World)
    requires Safe(s) && FlushAgrees(s) && CanHappen(s, w)
    ensures FlushAgrees(Happen(s, w))
  {
    hide Flowing, ProbeAgrees, FinAgrees;
  }

  lemma StepFlush(c: Setup, s: Link, i: Inner)
    requires Safe(s) && FlushAgrees(s) && CanStep(c, s, i)
    ensures FlushAgrees(DoStep(c, s, i))
  {
    hide Do, Fits, EncodedLen, MaySend, Flowing, ProbeAgrees, Progressed;
    EffectAllowed(c, s, i);
    if i.TakePong? { StillEmpty(s.out, Effect(c, s, i)); }
  }

  lemma WorkFlush(c: Setup, s: Link, w: Work)
    requires Safe(s) && FlushAgrees(s) && CanWork(c, s, w)
    ensures FlushAgrees(DoWork(c, s, w))
  {
    hide Do, Fits, EncodedLen, MaySend, Flowing, ProbeAgrees, Progressed;
    StillEmpty(s.out, Job(c, s, w));
  }

  /** Without a push, an empty buffer and a completed shutdown stay so. */
  lemma StillEmpty(o: Out, a: Act)
    requires Flowing(o) && Ready(o, a) && !Queues(a)
    ensures o.q.buffered == 0 ==> Do(o, a).q.buffered == 0
    ensures !o.q.shutdown ==> !Do(o, a).q.shutdown
  {
    hide EncodeLog, Remaining, Content, Encode, Joined, Sealed, Paced, Probing;
    Outbound.Pipeline(o);
  }

  predicate Queues(a: Act) {
    a.Push? || a.PushDeferred? || a.PushProbe? || a.PushFin?
  }

  /**
    * The reply is not cut off: if flushing ended because nothing was pending, and
    * the connection has not ended, every queued byte is on the wire, our close
    * frame among them, and a queued shutdown is done.
    */
  lemma ReplyComplete(s: Link)
    requires Safe(s) && ClosingAgrees(s) && FlushAgrees(s)
    requires s.env.flushed && s.flags.state != Closed
    ensures s.out.wire == EncodeLog(s.out.log)
    ensures Count(s.out.log, Final) == 1
    ensures s.out.fins != [] ==> s.out.shut
  {
    hide EncodeLog, Remaining, Content, Count, Paced, Probing, ProbeAgrees;
    Outbound.Pipeline(s.out);
  }

  /** And no action can queue anything any more. */
  lemma NothingFollows(c: Setup, s: Link, a: Action)
    requires Safe(s) && FlushAgrees(s) && Enabled(c, s, a)
    requires s.env.flushed && s.flags.state != Closed
    ensures Next(c, s, a).out.log == s.out.log && Next(c, s, a).out.fins == s.out.fins
  {
    hide Do, Fits, EncodedLen, Utf8.Scan, Heartbeat.Check, Heartbeat.Seen, Flowing, ProbeAgrees;
    match a
    case Enter(e) =>
      EnterOut(c, s, e);
      DoGuards(s.out, EntryAct(s, e));
    case Inside(i) => DoGuards(s.out, Effect(c, s, i));
    case Working(w) => DoGuards(s.out, Job(c, s, w));
    case Around(w) =>
  }
}
