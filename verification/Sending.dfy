/**
  * What is queued for the peer, read off the list of actions alone: what the
  * application sent, and the replies the protocol calls for.
  */
module Sending {
  import opened Basics
  import opened Framing
  import opened SendQueue
  import opened Outbound
  import opened Connection
  import opened Lifecycle
  import opened Safety
  import opened History
  import Heartbeat
  import Runs
  import Utf8

  // ----- Readings of a list of actions -----

  /** The message of the latest call to send. */
  function LatestSend(run: seq<Action>): Option<(Nibble, Bytes)> {
    if run == [] then None
    else
      var n := |run| - 1;
      match run[n]
      case Enter(Send(op, payload)) => Some((op, payload))
      case _ => LatestSend(run[..n])
  }

  function LatestPing(run: seq<Action>): Bytes {
    var pings := Pings(run);
    if pings == [] then [] else pings[|pings| - 1]
  }

  function Status(code: nat, reason: Bytes): Bytes {
    if code < 0x10000 then ClosePayload(code, reason) else []
  }

  /** What our close frame must carry: what was asked for, the peer's code, or that of the violation. */
  function Farewell(run: seq<Action>): Bytes {
    match Why(run)
    case Undecided => []
    case Asked(code, reason) => Status(code, reason)
    case Replied => if Received(run).None? || Received(run).value.0 == 1005 then [] else Status(Received(run).value.0, [])
    case Faulted => if Failed(run).None? then [] else Status(Failed(run).value, [])
  }

  /** The pong that waits for the writer: the latest put off, unless answered, taken or given up since. */
  function PutOff(run: seq<Action>): Option<Bytes> {
    if run == [] then None
    else
      var n := |run| - 1;
      match run[n]
      case Inside(DeferPong) => Some(LatestPing(run[..n]))
      case Inside(ClearPong) => None
      case Inside(TakePong) => None
      case Inside(PushEnd) => None
      case Working(StopWriter) => None
      case _ => PutOff(run[..n])
  }

  /** The pong the writer took last. */
  function Taken(run: seq<Action>): Option<Bytes> {
    if run == [] then None
    else
      var n := |run| - 1;
      if run[n] == Inside(TakePong) then PutOff(run[..n]) else Taken(run[..n])
  }

  /** Every frame queued, in order. */
  function Queued(c: Setup, run: seq<Action>): seq<Pushed> {
    if run == [] then []
    else
      var n := |run| - 1;
      var before := run[..n];
      Queued(c, before) +
      match run[n]
      case Inside(PushSend(key)) =>
        (match LatestSend(before)
         case Some((op, payload)) => [Pushed(Frame(true, op, key, payload), App)]
         case None => [])
      case Inside(PushClose(key)) => [Pushed(Frame(true, CLOSE, key, Farewell(before)), Final)]
      case Inside(PushPong(key)) => [Pushed(Frame(true, PONG, key, LatestPing(before)), Reply)]
      case Inside(PushFlushed(key)) =>
        [Pushed(Frame(true, PONG, key, if Taken(before).Some? then Taken(before).value else []), Deferred)]
      case Inside(PushBeat(key)) => [Pushed(Frame(true, PING, key, c.token), Probe)]
      case _ => []
  }

  // ----- The queue holds exactly that -----

  /** The section in progress works on what its caller gave it. */
  predicate Carried(run: seq<Action>, h: Held) {
    match h
    case SendRecheck(op, payload) => LatestSend(run) == Some((op, payload))
    case SendPush(op, payload) => LatestSend(run) == Some((op, payload))
    case ClosePush(payload, _) => payload == Farewell(run)
    case PongClear(data, _) => data == LatestPing(run)
    case PongPush(data, _) => data == LatestPing(run)
    case PongDefer(data, _) => data == LatestPing(run)
    case FlushPush(data, _) => Taken(run) == Some(data)
    case _ => true
  }

  predicate Holds(c: Setup, run: seq<Action>, s: Link) {
    Carried(run, s.held) && s.out.q.pong == PutOff(run) && s.out.log == Queued(c, run)
  }

  lemma EnterHolds(c: Setup, run: seq<Action>, s: Link, e: Entry)
    requires run != [] && run[|run| - 1] == Enter(e) && CanEnter(c, s, e) && Living(s)
    requires Holds(c, run[..|run| - 1], s) && Lived(run, DoEnter(c, s, e)) && Timed(run, DoEnter(c, s, e))
    requires Lived(run[..|run| - 1], s)
    ensures Holds(c, run, DoEnter(c, s, e))
  {
    hide Do, Fits, EncodedLen, MaySend, Verdict, EndStatus, ClosePayload, Heartbeat.Seen, HeldAgrees, QueueAgrees, Received,
         Failed, Life, Deadline, Clock, Wrote, Heard, Began, Utf8.Scan;
    EnterOut(c, s, e);
    DoGuards(s.out, EntryAct(s, e));
  }

  /** Nothing else moves what has been handed over, and no history reading changes with other actions. */
  lemma StepReadings(run: seq<Action>, i: Inner)
    requires run != [] && run[|run| - 1] == Inside(i)
    ensures var before := run[..|run| - 1];
            && LatestSend(run) == LatestSend(before) && LatestPing(run) == LatestPing(before) && Farewell(run) == Farewell(before)
  {
    hide Life;
  }

  lemma StepHolds(c: Setup, run: seq<Action>, s: Link, i: Inner)
    requires run != [] && run[|run| - 1] == Inside(i) && CanStep(c, s, i) && Living(s) && FinAgrees(s)
    requires Holds(c, run[..|run| - 1], s)
    ensures Holds(c, run, DoStep(c, s, i))
  {
    hide Do, Fits, EncodedLen, MaySend, LatestSend, LatestPing, Farewell, FinAgrees;
    StepReadings(run, i);
    EffectAllowed(c, s, i);
    DoGuards(s.out, Effect(c, s, i));
  }

  /** An action that is none of a section's. */
  lemma OtherReadings(c: Setup, run: seq<Action>)
    requires run != [] && (run[|run| - 1].Working? || run[|run| - 1].Around?)
    ensures var before := run[..|run| - 1];
            && LatestSend(run) == LatestSend(before) && LatestPing(run) == LatestPing(before) && Farewell(run) == Farewell(before)
            && Taken(run) == Taken(before) && Queued(c, run) == Queued(c, before)
            && PutOff(run) == if run[|run| - 1] == Working(StopWriter) then None else PutOff(before)
  {
    hide Life;
  }

  lemma WorkHolds(c: Setup, run: seq<Action>, s: Link, w: Work)
    requires run != [] && run[|run| - 1] == Working(w) && CanWork(c, s, w)
    requires Holds(c, run[..|run| - 1], s)
    ensures Holds(c, run, DoWork(c, s, w))
  {
    hide Do, Progressed, LatestSend, LatestPing, Farewell, Taken, PutOff, Queued;
    OtherReadings(c, run);
    DoGuards(s.out, Job(c, s, w));
  }

  lemma HappenHolds(c: Setup, run: seq<Action>, s: Link, w: World)
    requires run != [] && run[|run| - 1] == Around(w) && CanHappen(s, w)
    requires Holds(c, run[..|run| - 1], s)
    ensures Holds(c, run, Happen(s, w))
  {
    hide LatestSend, LatestPing, Farewell, Taken, PutOff, Queued;
    OtherReadings(c, run);
  }

  lemma StartHolds(c: Setup, s: Link)
    requires s == Init()
    ensures Holds(c, [], s)
  {
  }

  lemma NextHolds(c: Setup, run: seq<Action>, s: Link)
    requires run != [] && Safe(s) && Enabled(c, s, run[|run| - 1]) && Holds(c, run[..|run| - 1], s)
    requires Lived(run[..|run| - 1], s)
    requires var t := Next(c, s, run[|run| - 1]); Lived(run, t) && Timed(run, t)
    ensures Holds(c, run, Next(c, s, run[|run| - 1]))
  {
    hide DoEnter, DoStep, DoWork, CanEnter, CanStep, CanWork, Happen, CanHappen, Timed, Lived, Holds, Living, FinAgrees, Flowing,
         ProbeAgrees;
    match run[|run| - 1]
    case Enter(e) => EnterHolds(c, run, s, e);
    case Inside(i) => StepHolds(c, run, s, i);
    case Working(w) => WorkHolds(c, run, s, w);
    case Around(w) => HappenHolds(c, run, s, w);
  }

  /** In every execution the frames queued, and the pong that waits, are those its actions call for. */
  lemma {:induction false} QueueTold(c: Setup, run: seq<Action>)
    requires Sane(c) && After(c, run).Some?
    ensures Holds(c, run, After(c, run).value)
  {
    hide Next, Enabled, Timed, Lived, Reported, Holds, Runs.Invariant, Safe;
    if run == [] {
      StartHolds(c, Init());
    } else {
      var n := |run| - 1;
      QueueTold(c, run[..n]);
      HistoryTold(c, run[..n]);
      HistoryTold(c, run);
      Runs.RunInvariant(c, run[..n]);
      Runs.InvariantSafe(c, After(c, run[..n]).value);
      NextHolds(c, run, After(c, run[..n]).value);
    }
  }
}
