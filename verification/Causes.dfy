/** The codes a connection sends and reports are the right ones. */
module Causes {
  import opened Basics
  import opened Framing
  import opened SendQueue
  import opened Outbound
  import opened Connection
  import opened Lifecycle
  import opened Safety
  import Heartbeat
  import Utf8

  predicate Carries(payload: Bytes, code: nat, reason: Bytes) {
    code < 0x10000 && payload == ClosePayload(code, reason)
  }

  /** Our close frame says what was asked for, echoes the peer's code, or names the violation. */
  predicate Right(cause: Cause, f: Flags, payload: Bytes) {
    match cause
    case Undecided => false
    case Asked(code, reason) => Carries(payload, code, reason)
    case Replied =>
      f.received.Some? && if f.received.value.0 == 1005 then payload == [] else Carries(payload, f.received.value.0, [])
    case Faulted => f.failed.Some? && Carries(payload, f.failed.value, [])
  }

  predicate CauseAgrees(s: Link) {
    && (s.past.cause == Undecided <==> !s.flags.sentClose)
    && (s.past.cause == Replied ==> s.flags.received.Some?)
    && (s.past.cause == Faulted ==> s.flags.failed.Some?)
    && (s.held.ClosePush? ==> Right(s.past.cause, s.flags, s.held.payload))
    && (forall i | 0 <= i < |s.out.log| && s.out.log[i].kind == Final ::
          Right(s.past.cause, s.flags, s.out.log[i].frame.payload))
  }

  lemma EnterCause(c: Setup, s: Link, e: Entry)
    requires Living(s) && CauseAgrees(s) && CanEnter(c, s, e)
    ensures CauseAgrees(DoEnter(c, s, e))
  {
    hide Do, Fits, EncodedLen, MaySend, Utf8.Scan, Verdict, Heartbeat.Seen, ClosePayload, EndStatus;
    EnterOut(c, s, e);
    DoGuards(s.out, EntryAct(s, e));
  }

  lemma StepCause(c: Setup, s: Link, i: Inner)
    requires CauseAgrees(s) && CanStep(c, s, i)
    ensures CauseAgrees(DoStep(c, s, i))
  {
    hide Do, Fits, EncodedLen, MaySend, Right;
    DoGuards(s.out, Effect(c, s, i));
  }

  lemma WorkCause(c: Setup, s: Link, w: Work)
    requires CauseAgrees(s) && CanWork(c, s, w)
    ensures CauseAgrees(DoWork(c, s, w))
  {
    hide Do, Fits, Right;
    DoGuards(s.out, Job(c, s, w));
  }

  lemma NextCause(c: Setup, s: Link, a: Action)
    requires Living(s) && CauseAgrees(s) && Enabled(c, s, a)
    ensures CauseAgrees(Next(c, s, a))
  {
    hide DoEnter, DoStep, DoWork, CanEnter, CanStep, CanWork, Living, Right;
    match a
    case Enter(e) => EnterCause(c, s, e);
    case Inside(i) => StepCause(c, s, i);
    case Working(w) => WorkCause(c, s, w);
    case Around(w) =>
  }

  // ----- What the application is told -----

  predicate EndAgrees(s: Link) {
    && (s.past.ending.Gone? <==> s.flags.state == Closed)
    && (s.past.ending.Gone? ==> s.past.ending.known == Saw(s.flags, s.past.ending.who))
    && (s.past.ending.Gone? && s.past.ending.who == ByHeart ==> s.past.drops != [])
    && (forall i | 0 <= i < |s.past.events| && s.past.events[i].Ended? ::
          s.past.ending.Gone?
          && (s.past.events[i].code, s.past.events[i].reason) == EndStatus(s.past.ending.known))
    && (s.flags.received.Some? ==> s.flags.received.value.0 != 1006)
    && (s.flags.failed.Some? ==> s.flags.failed.value != 1006)
  }

  lemma EnterEnd(c: Setup, s: Link, e: Entry)
    requires Living(s) && EndAgrees(s) && CanEnter(c, s, e)
    ensures EndAgrees(DoEnter(c, s, e))
  {
    hide Do, Fits, EncodedLen, MaySend, Utf8.Scan, Verdict, Heartbeat.Seen, ClosePayload, QueueAgrees, HeldAgrees;
    if e.Finish? && s.flags.state != Closed {
      var (code, reason) := EndStatus(Saw(s.flags, e.who));
      assert (code, reason) == EndStatus(Saw(s.flags, e.who));
    }
  }

  /** Other actions leave alone what an ending goes by. */
  predicate SameEnd(s: Link, t: Link) {
    t.flags == s.flags && t.past.ending == s.past.ending && t.past.events == s.past.events && t.past.drops == s.past.drops
  }

  lemma SameEndAgrees(s: Link, t: Link)
    requires EndAgrees(s) && SameEnd(s, t)
    ensures EndAgrees(t)
  {
    hide EndStatus;
  }

  lemma StepEnd(c: Setup, s: Link, i: Inner)
    requires CanStep(c, s, i)
    ensures SameEnd(s, DoStep(c, s, i))
  {
    hide Do, Effect, Fits, EncodedLen;
  }

  lemma WorkEnd(c: Setup, s: Link, w: Work)
    requires CanWork(c, s, w)
    ensures SameEnd(s, DoWork(c, s, w))
  {
    hide Do, Progressed;
  }

  lemma NextEnd(c: Setup, s: Link, a: Action)
    requires Living(s) && EndAgrees(s) && Enabled(c, s, a)
    ensures EndAgrees(Next(c, s, a))
  {
    hide DoEnter, DoStep, DoWork, CanEnter, CanStep, CanWork, EndAgrees, Living;
    match a
    case Enter(e) => EnterEnd(c, s, e);
    case Inside(i) =>
      StepEnd(c, s, i);
      SameEndAgrees(s, DoStep(c, s, i));
    case Working(w) =>
      WorkEnd(c, s, w);
      SameEndAgrees(s, DoWork(c, s, w));
    case Around(w) => SameEndAgrees(s, Happen(s, w));
  }
}
