/** The outbound invariants hold in every state of a connection. */
module Safety {
  import opened Basics
  import opened Framing
  import opened SendQueue
  import opened Outbound
  import opened Pipeline
  import opened Connection
  import opened Lifecycle
  import Heartbeat
  import Utf8

  /** A shutdown was queued only in the section that ended the conversation. */
  predicate FinAgrees(s: Link) {
    s.out.fins != [] ==> Over(s.flags) && !s.held.ClosePush? && s.held != FinPush
  }

  /** Every probe in the log was written. */
  predicate NoProbe(o: Out) {
    o.floor <= |o.log| && Count(o.log[o.floor..], Probe) == 0
  }

  predicate ProbeAgrees(s: Link) {
    && (s.held == BeatPush ==> NoProbe(s.out) && !s.beats.due)
    && (s.beats.due ==> NoProbe(s.out))
    && (s.beats.alive.ping.None? || s.beats.alive.ping.value.id in s.beats.sent ==> NoProbe(s.out))
    && (forall id | id in s.beats.sent :: id < |s.out.log|)
  }

  /** The invariants of the outbound path. */
  predicate Flowing(o: Out) {
    Ordered(o) && Sealed(o) && Paced(o) && Probing(o)
  }

  predicate Safe(s: Link) {
    Living(s) && FinAgrees(s) && Flowing(s.out) && ProbeAgrees(s)
  }

  lemma EmptyFlows(o: Out)
    requires o.log == [] && o.fins == [] && o.wire == [] && !o.shut
    requires o.progressed == 0 && o.prev == 0 && o.mid == 0 && o.floor == 0
    requires o.w.phase == Exited && o.w.batch == [] && o.w.at == 0 && o.w.wrote == 0
    requires o.q.items == [] && !o.q.done && !o.q.shutdown && o.q.buffered == 0
    ensures Flowing(o) && NoProbe(o)
  {
    hide EncodeLog, Count;
    assert o.log[..0] == [] && o.log[0..] == [] && o.log[0..0] == [];
    assert Pipe(o) == [];
    LogEmpty();
    CountNone(Deferred);
    CountNone(Probe);
  }

  lemma SafeInit()
    ensures Safe(Init())
  {
    hide Flowing, NoProbe;
    EmptyFlows(Outbound.Start);
    LivingInit();
  }

  lemma DoFlows(o: Out, a: Act)
    requires Flowing(o) && Allowed(o, a)
    requires a.Push? ==> a.p.kind != Deferred && a.p.kind != Probe
    requires a.PushDeferred? ==> a.p.kind == Deferred
    requires a.PushProbe? ==> a.p.kind == Probe && NoProbe(o)
    ensures Flowing(Do(o, a))
  {
    hide Ordered, Sealed, Paced, Probing, Do, Ready;
    NextOrdered(o, a);
    NextSealed(o, a);
    NextPaced(o, a);
    NextProbing(o, a);
  }

  /** Nothing is queued behind a shutdown, and nothing queued is dropped. */
  lemma EffectAllowed(c: Setup, s: Link, i: Inner)
    requires Living(s) && FinAgrees(s) && CanStep(c, s, i)
    ensures Allowed(s.out, Effect(c, s, i)) && (i.TakePong? || !s.out.q.done)
  {
    hide Do, Fits, EncodedLen, Utf8.Scan;
  }

  /** Only a section or the writer changes the outbound path, and the latter never its log. */
  lemma WorkAllowed(c: Setup, s: Link, w: Work)
    requires CanWork(c, s, w)
    ensures Allowed(s.out, Job(c, s, w))
  {
  }

  lemma EnterOut(c: Setup, s: Link, e: Entry)
    requires Living(s) && CanEnter(c, s, e)
    ensures var a := EntryAct(s, e); Allowed(s.out, a) && DoEnter(c, s, e).out == Do(s.out, a)
  {
    hide Fits, EncodedLen, Heartbeat.Check, Heartbeat.Seen, Utf8.Scan;
  }

  function EntryAct(s: Link, e: Entry): Act {
    if e.Begin? && s.flags.state == Connecting then Launch else if e.Notify? then Noticed else Nop
  }

  lemma NextFlows(c: Setup, s: Link, a: Action)
    requires Safe(s) && Enabled(c, s, a)
    ensures Flowing(Next(c, s, a).out)
  {
    hide Flowing, Living, Do, DoEnter, EntryAct, NoProbe;
    match a
    case Enter(e) =>
      EnterOut(c, s, e);
      DoFlows(s.out, EntryAct(s, e)) by { EntryActIdle(s, e); }
    case Inside(i) =>
      EffectAllowed(c, s, i);
      DoFlows(s.out, Effect(c, s, i));
    case Working(w) =>
      WorkAllowed(c, s, w);
      DoFlows(s.out, Job(c, s, w));
    case Around(w) =>
  }

  lemma EntryActIdle(s: Link, e: Entry)
    ensures var a := EntryAct(s, e); !a.Push? && !a.PushDeferred? && !a.PushProbe?
  {
  }

  // ----- Probes -----

  /** Actions other than a probe and its completion leave the probes of the log alone. */
  lemma ProbesStay(o: Out, a: Act)
    requires Flowing(o) && Allowed(o, a)
    requires (a.Push? || a.PushDeferred?) ==> a.p.kind != Probe
    requires !a.PushProbe?
    ensures NoProbe(o) ==> NoProbe(Do(o, a))
    ensures a.Finish? && o.w.batch != [] && o.w.batch[0].Beat? ==> NoProbe(Do(o, a))
    ensures |o.log| <= |Do(o, a).log|
  {
    hide NoProbe, Do, Count, Ordered, Sealed, Paced, Probing;
    DoGuards(o, a);
    if a.Finish? && o.w.batch != [] && o.w.batch[0].Beat? {
      PopClears(o);
    } else {
      FloorStays(o, a);
      SameProbes(o, Do(o, a), if a.Push? || a.PushDeferred? then Some(a.p) else None);
    }
  }

  /** The completed probe is the last one of the log. */
  lemma PopClears(o: Out)
    requires o.w.batch != [] && o.w.batch[0].Beat? && Allowed(o, Act.Finish) && Flowing(o)
    ensures NoProbe(Do(o, Act.Finish))
  {
    hide EncodeLog, Count, Ordered, Sealed, Paced, Probing;
    HeadWritten(o);
  }

  lemma FloorStays(o: Out, a: Act)
    requires Ready(o, a) && !(a.Finish? && o.w.batch != [] && o.w.batch[0].Beat?)
    ensures Do(o, a).floor == o.floor
  {
    hide Encode, Joined;
  }

  /** A log that grew by a frame which is no probe, if at all. */
  lemma SameProbes(o: Out, o': Out, added: Option<Pushed>)
    requires o'.floor == o.floor
    requires o'.log == o.log || (added.Some? && added.value.kind != Probe && o'.log == o.log + [added.value])
    ensures NoProbe(o) ==> NoProbe(o')
  {
    hide Count;
    if o'.log != o.log && NoProbe(o) {
      var p := added.value;
      assert (o.log + [p])[o.floor..] == o.log[o.floor..] + [p];
      CountAppend(o.log[o.floor..], p, Probe);
    }
  }

  lemma StepProbes(c: Setup, s: Link, i: Inner)
    requires Safe(s) && CanStep(c, s, i)
    ensures ProbeAgrees(DoStep(c, s, i))
  {
    hide Flowing, Do, NoProbe, Living, Fits, EncodedLen;
    EffectAllowed(c, s, i);
    DoGuards(s.out, Effect(c, s, i));
    if !i.PushBeat? {
      ProbesStay(s.out, Effect(c, s, i));
    }
  }

  lemma WorkProbes(c: Setup, s: Link, w: Work)
    requires Safe(s) && CanWork(c, s, w)
    ensures ProbeAgrees(DoWork(c, s, w))
  {
    hide Flowing, Do, NoProbe, Living, Fits;
    WorkAllowed(c, s, w);
    DoGuards(s.out, Job(c, s, w));
    ProbesStay(s.out, Job(c, s, w));
    if w.ItemDone? && s.out.w.batch[0].Beat? {
      HeadKnown(s.out);
    }
  }

  lemma HeadKnown(o: Out)
    requires o.w.batch != [] && o.w.batch[0].Beat? && Flowing(o)
    ensures o.w.batch[0].probe < |o.log|
  {
    hide EncodeLog, Count, Ordered, Sealed, Paced;
    assert Pipe(o)[0] == o.w.batch[0];
    assert Placed(o, 0);
  }

  lemma EnterProbes(c: Setup, s: Link, e: Entry)
    requires Safe(s) && CanEnter(c, s, e)
    ensures ProbeAgrees(DoEnter(c, s, e))
  {
    hide Flowing, NoProbe, Living, Fits, EncodedLen, Utf8.Scan, Do;
    EnterOut(c, s, e);
    EntryActIdle(s, e);
    ProbesStay(s.out, EntryAct(s, e));
  }

  lemma NextSafe(c: Setup, s: Link, a: Action)
    requires Safe(s) && Enabled(c, s, a)
    ensures Safe(Next(c, s, a))
  {
    hide Living, Flowing, FinAgrees, NoProbe, DoEnter, DoStep, DoWork, CanEnter, CanStep, CanWork;
    NextLiving(c, s, a);
    NextFin(c, s, a);
    NextFlows(c, s, a);
    match a
    case Enter(e) => EnterProbes(c, s, e);
    case Inside(i) => StepProbes(c, s, i);
    case Working(w) => WorkProbes(c, s, w);
    case Around(w) =>
  }

  lemma NextFin(c: Setup, s: Link, a: Action)
    requires Living(s) && FinAgrees(s) && Enabled(c, s, a)
    ensures FinAgrees(Next(c, s, a))
  {
    hide DoEnter, DoStep, DoWork, CanEnter, CanStep, CanWork, Living;
    match a
    case Enter(e) => EnterFin(c, s, e);
    case Inside(i) => StepFin(c, s, i);
    case Working(w) => WorkFin(c, s, w);
    case Around(w) =>
  }

  lemma EnterFin(c: Setup, s: Link, e: Entry)
    requires Living(s) && FinAgrees(s) && CanEnter(c, s, e)
    ensures FinAgrees(DoEnter(c, s, e))
  {
    hide Do, Fits, EncodedLen, Heartbeat.Check, Heartbeat.Seen, Utf8.Scan;
    DoGuards(s.out, Launch);
    if e.Notify? { DoGuards(s.out, Noticed); }
  }

  lemma StepFin(c: Setup, s: Link, i: Inner)
    requires Living(s) && FinAgrees(s) && CanStep(c, s, i)
    ensures FinAgrees(DoStep(c, s, i))
  {
    hide Do, Fits, EncodedLen, Heartbeat.Check, Heartbeat.Seen, Utf8.Scan;
    DoGuards(s.out, Effect(c, s, i));
  }

  lemma WorkFin(c: Setup, s: Link, w: Work)
    requires Living(s) && FinAgrees(s) && CanWork(c, s, w)
    ensures FinAgrees(DoWork(c, s, w))
  {
    hide Do, Fits, EncodedLen;
    DoGuards(s.out, Job(c, s, w));
  }
}
