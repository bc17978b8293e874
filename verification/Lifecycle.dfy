/** The life of a connection: what its flags, its lock holder and its events keep to. */
module Lifecycle {
  import opened Framing
  import opened SendQueue
  import opened Outbound
  import opened Connection
  import Heartbeat
  import Utf8

  /** The peer closed, or we failed the connection. */
  predicate Over(f: Flags) {
    f.received.Some? || f.failed.Some?
  }

  predicate FlagsAgree(f: Flags) {
    && (f.state == Connecting ==> !f.sentClose && !Over(f) && f.deadline.None?)
    && (f.state == Open ==> !f.sentClose && !Over(f) && f.deadline.None?)
    && (f.state == Closing ==> f.sentClose && f.deadline.Some?)
    && (Over(f) ==> f.sentClose && (f.state == Closing || f.state == Closed))
    && !(f.received.Some? && f.failed.Some?)
  }

  /** A section in progress was entered in a state that still holds. */
  predicate HeldAgrees(h: Held, f: Flags, phase: Phase) {
    match h
    case Free => true
    case SendRecheck(op, payload) => f.state == Open && MaySend(op, payload)
    case SendPush(op, payload) => f.state == Open && MaySend(op, payload)
    case BeatPush => f.state == Open
    case ClosePush(_, fin) => f.state == Closing && (fin ==> Over(f))
    case FinPush => f.state == Closing && Over(f)
    case PongClear(data, _) => Answering(f) && f.state != Connecting && |data| <= 125
    case PongPush(data, _) => Answering(f) && f.state != Connecting && |data| <= 125
    case PongDefer(data, _) => Answering(f) && f.state != Connecting && |data| <= 125
    case FlushTake => f.state != Connecting && phase == Flushing
    case FlushPush(data, _) => Answering(f) && f.state != Connecting && phase == Flushing && |data| <= 125
  }

  predicate TaskAgrees(s: Link) {
    && (s.task == Unborn ==> !Over(s.flags) && s.out.w.phase == Exited && s.out.w.batch == [])
    && (s.task == Looping(true) ==> !Over(s.flags))
    && (s.flags.state == Connecting ==> s.task == Unborn)
    && (s.flags.state == Open || s.flags.state == Closing ==> s.task != Unborn)
  }

  /** The queue is stopped only once the connection ended, and pongs waiting are short. */
  predicate QueueAgrees(s: Link) {
    && (s.out.q.done ==> s.flags.state == Closed && !s.env.stopDue)
    && (s.env.stopDue ==> s.flags.state == Closed)
    && (s.env.stopped ==> s.out.q.done)
    && (s.flags.state == Closed ==> s.env.stopDue || s.out.q.done)
    && (s.out.q.pong.Some? ==> |s.out.q.pong.value| <= 125)
  }

  predicate Living(s: Link) {
    && FlagsAgree(s.flags)
    && HeldAgrees(s.held, s.flags, s.out.w.phase)
    && TaskAgrees(s)
    && QueueAgrees(s)
  }

  lemma LivingInit()
    ensures Living(Init())
  {
  }

  lemma EnterLiving(c: Setup, s: Link, e: Entry)
    requires Living(s) && CanEnter(c, s, e)
    ensures Living(DoEnter(c, s, e))
  {
    hide Fits, EncodedLen, Heartbeat.Check, Heartbeat.Seen, Utf8.Scan;
  }

  lemma StepLiving(c: Setup, s: Link, i: Inner)
    requires Living(s) && CanStep(c, s, i)
    ensures Living(DoStep(c, s, i))
  {
    hide Do, Fits, EncodedLen, Utf8.Scan;
    DoGuards(s.out, Effect(c, s, i));
    DoPhase(s.out, Effect(c, s, i));
  }

  lemma WorkLiving(c: Setup, s: Link, w: Work)
    requires Living(s) && CanWork(c, s, w)
    ensures Living(DoWork(c, s, w))
  {
    hide Do, Fits, EncodedLen, Utf8.Scan;
    DoGuards(s.out, Job(c, s, w));
    DoPhase(s.out, Job(c, s, w));
  }

  lemma NextLiving(c: Setup, s: Link, a: Action)
    requires Living(s) && Enabled(c, s, a)
    ensures Living(Next(c, s, a))
  {
    hide DoEnter, DoStep, DoWork, CanEnter, CanStep, CanWork, Living, Happen, CanHappen;
    match a
    case Enter(e) => EnterLiving(c, s, e);
    case Inside(i) => StepLiving(c, s, i);
    case Working(w) => WorkLiving(c, s, w);
    case Around(w) => HappenLiving(s, w);
  }

  lemma HappenLiving(s: Link, w: World)
    requires Living(s) && CanHappen(s, w)
    ensures Living(Happen(s, w))
  {
  }

  // ----- The state only moves forward -----

  function Rank(state: State): nat {
    match state
    case Connecting => 0
    case Open => 1
    case Closing => 2
    case Closed => 3
  }

  lemma StateAdvances(c: Setup, s: Link, a: Action)
    requires Living(s) && Enabled(c, s, a)
    ensures Rank(s.flags.state) <= Rank(Next(c, s, a).flags.state)
  {
    hide Fits, EncodedLen, Heartbeat.Check, Heartbeat.Seen, Do, Effect, Utf8.Scan;
  }

  // ----- Events -----

  /** The final event is the last one, and it is there if anyone listened. */
  predicate EventsAgree(s: Link) {
    && (forall i | 0 <= i < |s.past.events| :: s.past.events[i].Ended? ==>
          i == |s.past.events| - 1 && s.flags.state == Closed)
    && (s.flags.state == Closed && s.past.endHub ==>
          s.past.events != [] && s.past.events[|s.past.events| - 1].Ended?)
  }

  lemma NextEvents(c: Setup, s: Link, a: Action)
    requires EventsAgree(s) && Enabled(c, s, a)
    ensures EventsAgree(Next(c, s, a))
    ensures s.flags.state == Closed ==> Next(c, s, a).past.events == s.past.events
  {
    hide DoEnter, DoStep, DoWork, CanEnter, CanStep, CanWork;
    match a
    case Enter(e) => EnterEvents(c, s, e);
    case Inside(i) => StepEvents(c, s, i);
    case Working(w) => WorkEvents(c, s, w);
    case Around(w) =>
  }

  lemma EnterEvents(c: Setup, s: Link, e: Entry)
    requires EventsAgree(s) && CanEnter(c, s, e)
    ensures EventsAgree(DoEnter(c, s, e))
    ensures s.flags.state == Closed ==> DoEnter(c, s, e).past.events == s.past.events
  {
    hide Do, Fits, EncodedLen, Verdict, Heartbeat.Seen, Utf8.Scan, EndStatus;
  }

  lemma StepEvents(c: Setup, s: Link, i: Inner)
    requires CanStep(c, s, i)
    ensures var t := DoStep(c, s, i);
            t.flags == s.flags && t.past.events == s.past.events && t.past.endHub == s.past.endHub
  {
    hide Do, Effect, Fits, EncodedLen;
  }

  lemma WorkEvents(c: Setup, s: Link, w: Work)
    requires CanWork(c, s, w)
    ensures var t := DoWork(c, s, w);
            t.flags == s.flags && t.past.events == s.past.events && t.past.endHub == s.past.endHub
  {
    hide Do, Progressed;
  }
}
