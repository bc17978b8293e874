/** When each section may begin and each event may come, by the actions of an execution. */
module Turns {
  import opened Basics
  import opened Framing
  import opened SendQueue
  import opened Outbound
  import opened Connection
  import opened History
  import opened Sections
  import Beating
  import Heartbeat
  import Utf8

  /** Where the reader is: in its loop from when the connection opens, and no longer handling messages once one ended them. */
  function Reader(run: seq<Action>): Task {
    if run == [] then Unborn
    else
      var n := |run| - 1;
      var before := run[..n];
      match run[n]
      case Enter(Begin) => if Life(before) == Connecting then Looping(true) else Leaving
      case Enter(GotClose(_)) => Looping(false)
      case Enter(GotViolation(_)) => Looping(false)
      case Enter(FlushBegin) => if Received(before).None? && Failed(before).None? then Leaving else Draining
      case Around(FlushDone) => Leaving
      case Around(FlushTimeout) => Leaving
      case Around(FlushStopped) => Leaving
      case _ => Reader(before)
  }

  /** The connection ended and its writer was not yet stopped. */
  predicate ToStop(run: seq<Action>) {
    if run == [] then false
    else
      var n := |run| - 1;
      match run[n]
      case Enter(Finish(_)) => Life(run[..n]) != Closed || ToStop(run[..n])
      case Working(StopWriter) => false
      case _ => ToStop(run[..n])
  }

  predicate InTurn(run: seq<Action>, s: Link) {
    && s.task == Reader(run) && s.env.stopDue == ToStop(run)
    && s.env.stopped == (Working(StopWriter) in run) && s.out.q.done == (Working(StopWriter) in run)
  }

  lemma {:induction false} DeadlineSet(run: seq<Action>)
    ensures Received(run).Some? || Failed(run).Some? ==> Life(run) == Closing || Life(run) == Closed
    ensures Life(run) == Closing ==> Deadline(run).Some?
    ensures Received(run).Some? || Failed(run).Some? ==> Deadline(run).Some?
  {
    if run == [] {
    } else {
      DeadlineSet(run[..|run| - 1]);
    }
  }

  lemma EnterTurn(c: Setup, run: seq<Action>, s: Link, e: Entry)
    requires run != [] && run[|run| - 1] == Enter(e) && CanEnter(c, s, e)
    requires InTurn(run[..|run| - 1], s) && Lived(run[..|run| - 1], s)
    ensures InTurn(run, DoEnter(c, s, e))
  {
    hide Fits, EncodedLen, MaySend, ValidStatus, Verdict, EndStatus, ClosePayload, Heartbeat.Seen, Life, Received, Failed, Deadline,
         Why, Began;
    DeadlineSet(run[..|run| - 1]);
    assert run == run[..|run| - 1] + [Enter(e)];
  }

  lemma StepTurn(c: Setup, run: seq<Action>, s: Link, i: Inner)
    requires run != [] && run[|run| - 1] == Inside(i) && CanStep(c, s, i) && InTurn(run[..|run| - 1], s)
    ensures InTurn(run, DoStep(c, s, i))
  {
    hide Do, Fits, EncodedLen, Life, Received, Failed;
    DoGuards(s.out, Effect(c, s, i));
    assert run == run[..|run| - 1] + [Inside(i)];
  }

  lemma WorkTurn(c: Setup, run: seq<Action>, s: Link, w: Work)
    requires run != [] && run[|run| - 1] == Working(w) && CanWork(c, s, w) && InTurn(run[..|run| - 1], s)
    ensures InTurn(run, DoWork(c, s, w))
  {
    hide Do, Fits, EncodedLen, Life, Received, Failed, Progressed;
    DoGuards(s.out, Job(c, s, w));
    assert run == run[..|run| - 1] + [Working(w)];
  }

  lemma HappenTurn(run: seq<Action>, s: Link, w: World)
    requires run != [] && run[|run| - 1] == Around(w) && CanHappen(s, w) && InTurn(run[..|run| - 1], s)
    ensures InTurn(run, Happen(s, w))
  {
    hide Life, Received, Failed;
    assert run == run[..|run| - 1] + [Around(w)];
  }

  lemma StartTurn(s: Link)
    requires s == Init()
    ensures InTurn([], s)
  {
  }

  lemma NextTurn(c: Setup, run: seq<Action>, s: Link)
    requires run != [] && Enabled(c, s, run[|run| - 1]) && InTurn(run[..|run| - 1], s) && Lived(run[..|run| - 1], s)
    ensures InTurn(run, Next(c, s, run[|run| - 1]))
  {
    hide InTurn, Lived, DoEnter, DoStep, DoWork, Happen, CanEnter, CanStep, CanWork, CanHappen;
    match run[|run| - 1]
    case Enter(e) => EnterTurn(c, run, s, e);
    case Inside(i) => StepTurn(c, run, s, i);
    case Working(w) => WorkTurn(c, run, s, w);
    case Around(w) => HappenTurn(run, s, w);
  }

  /** In every execution the reader, the stop signal and the writer's end are what its actions amount to. */
  lemma {:induction false} TurnTold(c: Setup, run: seq<Action>)
    requires Sane(c) && After(c, run).Some?
    ensures InTurn(run, After(c, run).value)
  {
    hide InTurn, Next, Enabled, Lived, Timed, Reported;
    if run == [] {
      StartTurn(Init());
    } else {
      var n := |run| - 1;
      TurnTold(c, run[..n]);
      HistoryTold(c, run[..n]);
      NextTurn(c, run, After(c, run[..n]).value);
    }
  }

  /** A status that may go in a close frame. */
  ghost predicate LegalStatus(code: nat, reason: Bytes) {
    && (1000 <= code <= 1003 || 1007 <= code <= 1014 || 3000 <= code <= 4999)
    && |reason| <= 123 && Utf8.Valid(reason)
  }

  /** The section is in its turn. */
  ghost predicate MayEnter(c: Setup, run: seq<Action>, e: Entry)
    requires After(c, run).Some?
  {
    var s := After(c, run).value;
    match e
    case Begin => Reader(run) == Unborn
    case Send(op, payload) => Legal(op, payload)
    case AppClose(code, reason) => LegalStatus(code, reason)
    case Finish(who) =>
      && (who == ByHeart ==> s.past.drops != [])
      && (who == ByTask ==> Reader(run) == Leaving || (Reader(run) != Unborn && s.out.w.phase == Exited))
    case Emit(event) => event == Delivered || event == Errored
    case Notify => s.out.w.phase == Owing
    case GotPing(data) => Reader(run) == Looping(true) && |data| <= 125
    case GotClose(status) => Reader(run) == Looping(true) && (status.Some? ==> LegalStatus(status.value.0, status.value.1))
    case GotViolation(_) => Reader(run) == Looping(true)
    case BeatCheck(now) => Reader(run).Looping? && now <= Clock(run)
    case BeatLock => Beating.Due(c, run)
    case FlushLock => s.out.w.phase == Flushing
    case FlushBegin => Reader(run).Looping?
  }

  /** In every execution a section may begin if and only if no other is open and it is in its turn. */
  lemma EntriesExact(c: Setup, run: seq<Action>, e: Entry)
    requires Sane(c) && After(c, run).Some?
    ensures Enabled(c, After(c, run).value, Enter(e)) <==> After(c, run).value.held == Free && MayEnter(c, run, e)
  {
    hide After, Reader, Clock, Beating.Due, Lived, Reported, ToStop, Utf8.Valid, Utf8.Scan;
    TurnTold(c, run);
    HistoryTold(c, run);
    Beating.DueTold(c, run);
    match e
    case Send(_, payload) => Utf8.ScanExact(payload);
    case AppClose(_, reason) => Utf8.ScanExact(reason);
    case GotClose(Some(status)) => Utf8.ScanExact(status.1);
    case _ =>
  }

  /** The surroundings act in their turn. */
  predicate MayHappen(c: Setup, run: seq<Action>, w: World)
    requires After(c, run).Some?
  {
    var q := After(c, run).value.out.q;
    match w
    case ReadDone => Reader(run).Looping?
    case FlushDone => Reader(run) == Draining && (Working(StopWriter) in run || (q.buffered == 0 && !q.shutdown))
    case FlushTimeout => Reader(run) == Draining && Deadline(run).Some? && Clock(run) >= Deadline(run).value
    case FlushStopped => Reader(run) == Draining && Working(StopWriter) in run
    case Tick(now) => now >= Clock(run)
    case _ => true
  }

  lemma EventsExact(c: Setup, run: seq<Action>, w: World)
    requires Sane(c) && After(c, run).Some?
    ensures Enabled(c, After(c, run).value, Around(w)) <==> MayHappen(c, run, w)
  {
    hide After, Reader, Clock, Reported, ToStop, Life, Why, Received, Failed, Deadline, Began, Wrote, Heard, Pings, Listening;
    TurnTold(c, run);
    HistoryTold(c, run);
  }

  /** The writer is stopped, at most once, when the connection has ended. */
  lemma StopExact(c: Setup, run: seq<Action>)
    requires Sane(c) && After(c, run).Some?
    ensures Enabled(c, After(c, run).value, Working(StopWriter)) <==> ToStop(run)
  {
    hide After, Reader, ToStop;
    TurnTold(c, run);
  }
}
