/**
  * Nothing gets stuck: as long as the writer runs, the connection's own steps
  * bring every byte queued, and every pending shutdown, to the transport.
  */
module Drains {
  import opened Basics
  import opened Framing
  import opened SendQueue
  import opened Outbound
  import opened Pipeline
  import opened Connection
  import opened Lifecycle
  import opened Safety
  import Runs

  /** The writer has not exited and was not stopped. */
  predicate Alive(s: Link) {
    s.out.w.phase != Exited && !s.out.q.done
  }

  /** No section is open, and there is nothing left to write, shut down or answer. */
  predicate Settled(s: Link) {
    s.held == Free && s.out.w.phase == Idle && s.out.q.items == [] && s.out.q.pong.None?
  }

  /** A step that finishes what was begun; no caller, peer or clock is involved. */
  predicate Internal(a: Action) {
    match a
    case Enter(e) => e == FlushLock || e == Notify
    case Inside(_) => true
    case Working(w) => !w.StopWriter? && !w.WriterGone?
    case Around(_) => false
  }

  predicate Loaded(o: Out) {
    o.w.phase == Writing ==> o.w.batch != []
  }

  lemma DoLoaded(o: Out, a: Act)
    requires Shaped(o.w) && Loaded(o) && Ready(o, a)
    ensures Loaded(Do(o, a))
  {
    hide Encode, Joined;
  }

  lemma EnterLoaded(c: Setup, s: Link, e: Entry)
    requires Living(s) && Shaped(s.out.w) && Loaded(s.out) && CanEnter(c, s, e)
    ensures Loaded(DoEnter(c, s, e).out)
  {
    hide Do, Fits, EncodedLen, MaySend, Loaded, Shaped;
    EnterOut(c, s, e);
    DoLoaded(s.out, EntryAct(s, e));
  }

  lemma StepLoaded(c: Setup, s: Link, i: Inner)
    requires Shaped(s.out.w) && Loaded(s.out) && CanStep(c, s, i)
    ensures Loaded(DoStep(c, s, i).out)
  {
    hide Do, Fits, EncodedLen, MaySend, Loaded, Shaped;
    DoLoaded(s.out, Effect(c, s, i));
  }

  lemma WorkLoaded(c: Setup, s: Link, w: Work)
    requires Shaped(s.out.w) && Loaded(s.out) && CanWork(c, s, w)
    ensures Loaded(DoWork(c, s, w).out)
  {
    hide Do, Fits, Loaded, Shaped;
    DoLoaded(s.out, Job(c, s, w));
  }

  lemma SafeShaped(s: Link)
    requires Safe(s)
    ensures Living(s) && Shaped(s.out.w)
  {
  }

  lemma NextLoaded(c: Setup, s: Link, a: Action)
    requires Safe(s) && Loaded(s.out) && Enabled(c, s, a)
    ensures Loaded(Next(c, s, a).out)
  {
    hide DoEnter, DoStep, DoWork, CanEnter, CanStep, CanWork, Living, Shaped, Loaded, Safe;
    SafeShaped(s);
    match a
    case Enter(e) => EnterLoaded(c, s, e);
    case Inside(i) => StepLoaded(c, s, i);
    case Working(w) => WorkLoaded(c, s, w);
    case Around(w) =>
  }

  lemma {:induction false} RunLoaded(c: Setup, run: seq<Action>)
    requires Sane(c) && After(c, run).Some?
    ensures Loaded(After(c, run).value.out)
  {
    hide Next, Enabled, Runs.Invariant, Safe, Loaded;
    if run == [] {
      InitLoaded(Init());
    } else {
      var n := |run| - 1;
      RunLoaded(c, run[..n]);
      Runs.RunInvariant(c, run[..n]);
      var s := After(c, run[..n]).value;
      Runs.InvariantSafe(c, s);
      NextLoaded(c, s, run[n]);
    }
  }

  lemma InitLoaded(s: Link)
    requires s == Init()
    ensures Loaded(s.out)
  {
  }

  // ----- A schedule -----

  function AnyKey(c: Setup): Option<Key> {
    if c.server then None else Some([0, 0, 0, 0])
  }

  /** The next step towards a settled connection. */
  function Pick(c: Setup, s: Link): Action {
    match s.held
    case SendRecheck(_, _) => Inside(Recheck)
    case SendPush(_, _) => Inside(PushSend(AnyKey(c)))
    case ClosePush(_, _) => Inside(PushClose(AnyKey(c)))
    case FinPush => Inside(PushEnd)
    case PongClear(_, _) => Inside(ClearPong)
    case PongPush(_, _) => Inside(PushPong(AnyKey(c)))
    case PongDefer(_, _) => Inside(DeferPong)
    case BeatPush => Inside(PushBeat(AnyKey(c)))
    case FlushTake => Inside(TakePong)
    case FlushPush(_, _) => Inside(PushFlushed(AnyKey(c)))
    case Free =>
      match s.out.w.phase
      case Idle => Working(TakeBatch)
      case Flushing => Enter(FlushLock)
      case Owing => Enter(Notify)
      case Exited => Working(WriterGone)
      case Writing =>
        if s.out.w.batch == [] then Working(WriterGone)
        else if s.out.w.batch[0].Shutdown? then Working(TransportShut)
        else if s.out.w.wrote > 0 then Working(Account)
        else if s.out.w.at < |s.out.w.batch[0].bytes|
        then Working(WriteBytes(|s.out.w.batch[0].bytes| - s.out.w.at))
        else Working(ItemDone)
  }

  // ----- Why the schedule ends -----

  /** Frames and shutdowns that may still be queued by what is under way. */
  function Coming(s: Link): nat {
    (match s.held
     case Free => 0
     case FlushTake => 0
     case ClosePush(_, fin) => if fin then 2 else 1
     case _ => 1)
    + if s.out.q.pong.Some? then 1 else 0
  }

  function Load(s: Link): nat {
    |s.out.q.items| + |s.out.w.batch|
  }

  function HeldRank(h: Held): nat {
    match h
    case SendRecheck(_, _) => 2
    case PongClear(_, _) => 2
    case Free => 0
    case FlushTake => 0
    case FlushPush(_, _) => 0
    case _ => 1
  }

  function Position(s: Link): nat {
    match s.out.w.phase
    case Idle => if s.out.q.items != [] then 10 else if s.out.q.pong.Some? then 14 else 0
    case Flushing =>
      (if s.out.w.batch == [] then 11 else 7) + if s.held == FlushTake then 1 else if s.held.FlushPush? then 0 else 2
    case Writing =>
      if s.out.w.batch == [] || s.out.w.batch[0].Shutdown? then 1
      else if s.out.w.wrote > 0 then 4
      else if s.out.w.at < |s.out.w.batch[0].bytes| then 5 else 2
    case Owing => 6
    case Exited => 0
  }

  function Rank(s: Link): nat {
    20 * HeldRank(s.held) + Position(s)
  }

  predicate Closer(t: Link, s: Link) {
    || Coming(t) < Coming(s)
    || (Coming(t) == Coming(s) && Load(t) < Load(s))
    || (Coming(t) == Coming(s) && Load(t) == Load(s) && t.out.q.buffered < s.out.q.buffered)
    || (Coming(t) == Coming(s) && Load(t) == Load(s) && t.out.q.buffered == s.out.q.buffered && Rank(t) < Rank(s))
  }

  lemma StepCloser(c: Setup, s: Link)
    requires Living(s) && Shaped(s.out.w) && Alive(s) && s.held != Free
    ensures Pick(c, s).Inside? && Enabled(c, s, Pick(c, s))
    ensures var t := Next(c, s, Pick(c, s)); Alive(t) && Closer(t, s)
  {
    hide Living, Shaped, DoStep, Closer, Alive;
    if s.held == FlushTake || s.held.FlushPush? {
      FlushCloser(c, s);
    } else if s.held.SendRecheck? || s.held.PongClear? || s.held.PongDefer? {
      TurnCloser(c, s);
    } else {
      PushCloser(c, s);
    }
  }

  lemma FlushCloser(c: Setup, s: Link)
    requires Living(s) && Shaped(s.out.w) && Alive(s) && (s.held == FlushTake || s.held.FlushPush?)
    ensures Enabled(c, s, Pick(c, s))
    ensures var t := Next(c, s, Pick(c, s)); Alive(t) && Closer(t, s)
  {
    hide Encode, Joined, Fits, EncodedLen, MaySend;
  }

  lemma TurnCloser(c: Setup, s: Link)
    requires Alive(s) && (s.held.SendRecheck? || s.held.PongClear? || s.held.PongDefer?)
    ensures Enabled(c, s, Pick(c, s))
    ensures var t := Next(c, s, Pick(c, s)); Alive(t) && Closer(t, s)
  {
    hide Encode, Joined, Fits, EncodedLen, MaySend;
  }

  lemma PushCloser(c: Setup, s: Link)
    requires Alive(s) && HeldRank(s.held) == 1 && !s.held.PongDefer?
    ensures Enabled(c, s, Pick(c, s))
    ensures var t := Next(c, s, Pick(c, s)); Alive(t) && Closer(t, s)
  {
    hide Encode, Joined, Fits, EncodedLen, MaySend;
  }

  lemma EnterCloser(c: Setup, s: Link)
    requires Living(s) && Shaped(s.out.w) && Alive(s) && s.held == Free && (s.out.w.phase == Flushing || s.out.w.phase == Owing)
    ensures Pick(c, s).Enter? && Enabled(c, s, Pick(c, s))
    ensures var t := Next(c, s, Pick(c, s)); Alive(t) && Closer(t, s)
  {
    hide Encode, Joined, Fits, EncodedLen, MaySend;
  }

  lemma WorkCloser(c: Setup, s: Link)
    requires Living(s) && Shaped(s.out.w) && Loaded(s.out) && Alive(s) && !Settled(s) && s.held == Free
    requires s.out.w.phase == Idle || s.out.w.phase == Writing
    requires s.out.w.wrote <= s.out.q.buffered
    ensures Pick(c, s).Working? && Internal(Pick(c, s)) && Enabled(c, s, Pick(c, s))
    ensures var t := Next(c, s, Pick(c, s)); Alive(t) && Closer(t, s)
  {
    hide Living, DoWork, Closer, Alive;
    if s.out.w.phase == Idle { BatchCloser(c, s); } else { WriteCloser(c, s); }
  }

  lemma BatchCloser(c: Setup, s: Link)
    requires Shaped(s.out.w) && Alive(s) && !Settled(s) && s.held == Free && s.out.w.phase == Idle
    ensures Enabled(c, s, Pick(c, s))
    ensures var t := Next(c, s, Pick(c, s)); Alive(t) && Closer(t, s)
  {
    hide Encode, Joined, EncodedLen, MaySend;
  }

  lemma WriteCloser(c: Setup, s: Link)
    requires Shaped(s.out.w) && Loaded(s.out) && Alive(s) && s.held == Free && s.out.w.phase == Writing
    requires s.out.w.wrote <= s.out.q.buffered
    ensures Enabled(c, s, Pick(c, s))
    ensures var t := Next(c, s, Pick(c, s)); Alive(t) && Closer(t, s)
  {
    hide Encode, Joined, EncodedLen, MaySend, Fits;
  }

  lemma PickCloser(c: Setup, s: Link)
    requires Safe(s) && Loaded(s.out) && Alive(s) && !Settled(s)
    ensures Internal(Pick(c, s)) && Enabled(c, s, Pick(c, s))
    ensures var t := Next(c, s, Pick(c, s)); Alive(t) && Closer(t, s)
  {
    hide Sealed, Paced, Probing, ProbeAgrees, Living, FinAgrees, Loaded, Next, Enabled, Closer, EncodeLog, Content, Remaining;
    Outbound.Pipeline(s.out);
    if s.held != Free {
      StepCloser(c, s);
    } else if s.out.w.phase == Flushing || s.out.w.phase == Owing {
      EnterCloser(c, s);
    } else {
      WorkCloser(c, s);
    }
  }

  lemma LogGrows(c: Setup, s: Link, a: Action)
    requires Living(s) && Enabled(c, s, a)
    ensures s.out.log <= Next(c, s, a).out.log
  {
    hide Do, Fits, EncodedLen, MaySend, Living;
    match a
    case Enter(e) =>
      EnterOut(c, s, e);
      DoGuards(s.out, EntryAct(s, e));
    case Inside(i) => DoGuards(s.out, Effect(c, s, i));
    case Working(w) => DoGuards(s.out, Job(c, s, w));
    case Around(w) =>
  }

  lemma SettledIsWritten(o: Out)
    requires Ordered(o) && Sealed(o) && o.w.phase == Idle && o.q.items == [] && !o.q.done
    ensures o.wire == EncodeLog(o.log) && o.q.buffered == 0 && (o.fins != [] ==> o.shut)
  {
    hide EncodeLog;
    Outbound.Pipeline(o);
  }

  /**
    * From every state any run reaches with the writer running, steps of the
    * connection alone lead to one where the wire holds every frame queued and a
    * shutdown that was asked for is done.
    */
  lemma {:induction false} EverythingIsWritten(c: Setup, run: seq<Action>) returns (more: seq<Action>)
    requires Sane(c) && After(c, run).Some? && Alive(After(c, run).value)
    ensures After(c, run + more).Some? && forall a | a in more :: Internal(a)
    ensures var s, t := After(c, run).value, After(c, run + more).value;
            && Settled(t) && !t.out.q.done && s.out.log <= t.out.log
            && t.out.wire == EncodeLog(t.out.log) && t.out.q.buffered == 0
            && (t.out.fins != [] ==> t.out.shut)
    decreases Coming(After(c, run).value), Load(After(c, run).value), After(c, run).value.out.q.buffered,
              Rank(After(c, run).value)
  {
    hide Next, Enabled, Runs.Invariant, Closer, Pick, Ordered, EncodeLog, Sealed, Paced, Probing, ProbeAgrees, Living, FinAgrees,
         Coming, Load, Rank, Settled, Loaded;
    var s := After(c, run).value;
    Runs.RunInvariant(c, run);
    Runs.InvariantSafe(c, s);
    RunLoaded(c, run);
    if Settled(s) {
      more := [];
      assert run + more == run;
      SettledFacts(s);
      SettledIsWritten(s.out);
    } else {
      var a := Pick(c, s);
      PickCloser(c, s);
      LogGrows(c, s, a);
      assert (run + [a])[..|run|] == run;
      CloserFacts(Next(c, s, a), s);
      var rest := EverythingIsWritten(c, run + [a]);
      more := [a] + rest;
      assert run + more == run + [a] + rest;
    }
  }

  lemma SettledFacts(s: Link)
    requires Settled(s)
    ensures s.out.w.phase == Idle && s.out.q.items == []
  {
  }

  lemma CloserFacts(t: Link, s: Link)
    requires Closer(t, s)
    ensures || Coming(t) < Coming(s)
            || (Coming(t) == Coming(s) && (|| Load(t) < Load(s)
                 || (Load(t) == Load(s) && (|| t.out.q.buffered < s.out.q.buffered
                       || (t.out.q.buffered == s.out.q.buffered && Rank(t) < Rank(s))))))
  {
  }
}
