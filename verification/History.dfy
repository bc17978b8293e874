/**
  * What the actions of an execution amount to, read off the list of actions alone,
  * and that the connection's state is exactly that.
  */
module History {
  import opened Basics
  import opened Framing
  import opened SendQueue
  import opened Outbound
  import opened Connection
  import opened Lifecycle
  import opened Safety
  import Heartbeat
  import Parsing
  import Runs

  // ----- Readings of a list of actions -----

  /** The time of the last tick. */
  function Clock(run: seq<Action>): nat {
    if run == [] then 0
    else
      var n := |run| - 1;
      match run[n]
      case Around(Tick(now)) => now
      case _ => Clock(run[..n])
  }

  /** The lifecycle: opened, closing once either side closes or errs, closed once finished. */
  function Life(run: seq<Action>): State {
    if run == [] then Connecting
    else
      var n := |run| - 1;
      var life := Life(run[..n]);
      match run[n]
      case Enter(Begin) => if life == Connecting then Open else life
      case Enter(AppClose(_, _)) => if life == Open then Closing else life
      case Enter(GotClose(_)) => if life == Closed then Closed else Closing
      case Enter(GotViolation(_)) => if life == Closed then Closed else Closing
      case Enter(Finish(_)) => Closed
      case _ => life
  }

  /** The status of the peer's first close frame, unless the connection had ended. */
  function Received(run: seq<Action>): Option<(nat, Bytes)> {
    if run == [] then None
    else
      var n := |run| - 1;
      var received := Received(run[..n]);
      match run[n]
      case Enter(GotClose(status)) =>
        if Life(run[..n]) == Closed || received.Some? then received
        else if status.Some? then status else Some((1005, []))
      case _ => received
  }

  /** The code of a violation, unless the connection had ended. */
  function Failed(run: seq<Action>): Option<nat> {
    if run == [] then None
    else
      var n := |run| - 1;
      match run[n]
      case Enter(GotViolation(fail)) =>
        if Life(run[..n]) == Closed then Failed(run[..n])
        else Some(if fail == Parsing.TooBig then 1009
                  else if fail == Parsing.InvalidText || fail == Parsing.InvalidReason then 1007 else 1002)
      case _ => Failed(run[..n])
  }

  /** Why this side sends its close frame: whichever came first. */
  function Why(run: seq<Action>): Cause {
    if run == [] then Undecided
    else
      var n := |run| - 1;
      var why := Why(run[..n]);
      if why != Undecided || Life(run[..n]) == Closed then why
      else
        match run[n]
        case Enter(AppClose(code, reason)) => if Life(run[..n]) == Open then Asked(code, reason) else why
        case Enter(GotClose(_)) => Replied
        case Enter(GotViolation(_)) => Faulted
        case _ => why
  }

  /** Five seconds from when the connection began to close. */
  function Deadline(run: seq<Action>): Option<nat> {
    if run == [] then None
    else
      var n := |run| - 1;
      if Life(run[..n]) != Closing && Life(run) == Closing then Some(Clock(run[..n]) + 5_000_000_000)
      else Deadline(run[..n])
  }

  function Pings(run: seq<Action>): seq<Bytes> {
    if run == [] then []
    else
      var n := |run| - 1;
      Pings(run[..n]) + match run[n] case Enter(GotPing(data)) => [data] case _ => []
  }

  /** Whether the application's hub still listens. */
  predicate Listening(run: seq<Action>) {
    Around(HubDrops) !in run
  }

  /** When the connection was opened. */
  function Began(run: seq<Action>): nat {
    if run == [] then 0
    else
      var n := |run| - 1;
      if run[n] == Enter(Begin) && Life(run[..n]) == Connecting then Clock(run[..n]) else Began(run[..n])
  }

  /** When inbound bytes were seen, by the reader or by the transport. */
  function Heard(run: seq<Action>): set<nat> {
    if run == [] then {}
    else
      var n := |run| - 1;
      Heard(run[..n]) + if run[n] == Around(ReadDone) || run[n] == Around(TransportIn) then {Clock(run[..n])} else {}
  }

  /** When bytes were last written. */
  function Wrote(run: seq<Action>): nat {
    if run == [] then 0
    else
      var n := |run| - 1;
      match run[n]
      case Around(TransportOut) => Clock(run[..n])
      case Working(WriteBytes(_)) => Clock(run[..n])
      case _ => Wrote(run[..n])
  }

  /** What the application is told, in order. */
  function Told(run: seq<Action>): seq<Event> {
    if run == [] then []
    else
      var n := |run| - 1;
      var told := Told(run[..n]);
      if !Listening(run[..n]) || Life(run[..n]) == Closed then told
      else
        match run[n]
        case Enter(Begin) => if Life(run[..n]) == Connecting then told + [Opened] else told
        case Enter(Emit(event)) => told + [event]
        case Enter(Notify) => told + [Drained]
        case Enter(Finish(who)) =>
          told + [if who != ByTask then Ended(1006, [])
                  else if Received(run[..n]).Some? then Ended(Received(run[..n]).value.0, Received(run[..n]).value.1)
                  else if Failed(run[..n]).Some? then Ended(Failed(run[..n]).value, [])
                  else Ended(1006, [])]
        case _ => told
  }

  // ----- The state is what the actions amount to -----

  predicate Timed(run: seq<Action>, s: Link) {
    && s.env.now == Clock(run) && s.env.written == Wrote(run) && s.past.heard == Heard(run)
    && s.env.hub == Listening(run) && s.past.pings == Pings(run)
  }

  predicate Lived(run: seq<Action>, s: Link) {
    && s.flags == Flags(Life(run), Why(run) != Undecided, Received(run), Failed(run), Deadline(run))
    && s.past.cause == Why(run) && s.past.began == Began(run)
  }

  predicate Reported(run: seq<Action>, s: Link) {
    s.past.events == Told(run)
  }

  lemma EnterTimed(c: Setup, run: seq<Action>, s: Link, e: Entry)
    requires run != [] && run[|run| - 1] == Enter(e) && Timed(run[..|run| - 1], s) && CanEnter(c, s, e)
    ensures Timed(run, DoEnter(c, s, e))
  {
    hide Do, Fits, EncodedLen, MaySend, ValidStatus, Verdict, EndStatus, ClosePayload, Heartbeat.Seen;
  }

  lemma StepTimed(c: Setup, run: seq<Action>, s: Link, i: Inner)
    requires run != [] && run[|run| - 1] == Inside(i) && Timed(run[..|run| - 1], s) && CanStep(c, s, i)
    ensures Timed(run, DoStep(c, s, i))
  {
    hide Do, Effect, Fits, EncodedLen;
  }

  lemma WorkTimed(c: Setup, run: seq<Action>, s: Link, w: Work)
    requires run != [] && run[|run| - 1] == Working(w) && Timed(run[..|run| - 1], s) && CanWork(c, s, w)
    ensures Timed(run, DoWork(c, s, w))
  {
    hide Do, Progressed;
  }

  lemma HappenTimed(run: seq<Action>, s: Link, w: World)
    requires run != [] && run[|run| - 1] == Around(w) && Timed(run[..|run| - 1], s) && CanHappen(s, w)
    ensures Timed(run, Happen(s, w))
  {
  }

  lemma EnterLived(c: Setup, run: seq<Action>, s: Link, e: Entry)
    requires run != [] && run[|run| - 1] == Enter(e) && CanEnter(c, s, e)
    requires Living(s) && Timed(run[..|run| - 1], s) && Lived(run[..|run| - 1], s)
    ensures Lived(run, DoEnter(c, s, e))
  {
    hide Do, Fits, EncodedLen, MaySend, ValidStatus, Verdict, EndStatus, ClosePayload, Heartbeat.Seen, HeldAgrees, QueueAgrees;
  }

  /** Only taking the lock changes the flags, and what is recorded with them. */
  predicate SameLife(s: Link, t: Link) {
    t.flags == s.flags && t.past.cause == s.past.cause && t.past.began == s.past.began && t.past.events == s.past.events
  }

  lemma OtherLived(c: Setup, s: Link, a: Action)
    requires Enabled(c, s, a) && !a.Enter?
    ensures SameLife(s, Next(c, s, a))
  {
    hide Do, Effect, Fits, EncodedLen, Progressed;
  }

  lemma SameLifeLived(run: seq<Action>, s: Link, t: Link)
    requires run != [] && !run[|run| - 1].Enter? && SameLife(s, t)
    ensures Lived(run[..|run| - 1], s) ==> Lived(run, t)
    ensures Reported(run[..|run| - 1], s) ==> Reported(run, t)
  {
  }

  lemma EnterReported(c: Setup, run: seq<Action>, s: Link, e: Entry)
    requires run != [] && run[|run| - 1] == Enter(e) && CanEnter(c, s, e)
    requires Timed(run[..|run| - 1], s) && Lived(run[..|run| - 1], s) && Reported(run[..|run| - 1], s)
    ensures Reported(run, DoEnter(c, s, e))
  {
    hide Do, Fits, EncodedLen, MaySend, ValidStatus, Verdict, ClosePayload, Heartbeat.Seen;
  }

  lemma StartTold(s: Link)
    requires s == Init()
    ensures Timed([], s) && Lived([], s) && Reported([], s)
  {
  }

  /** In every execution the state is what its actions amount to. */
  lemma {:induction false} HistoryTold(c: Setup, run: seq<Action>)
    requires Sane(c) && After(c, run).Some?
    ensures Timed(run, After(c, run).value) && Lived(run, After(c, run).value) && Reported(run, After(c, run).value)
  {
    hide Next, Enabled, Timed, Lived, Reported, Runs.Invariant;
    if run == [] {
      StartTold(Init());
    } else {
      var n := |run| - 1;
      HistoryTold(c, run[..n]);
      Runs.RunInvariant(c, run[..n]);
      var s := After(c, run[..n]).value;
      Runs.InvariantSafe(c, s);
      NextTold(c, run, s);
    }
  }

  lemma NextTold(c: Setup, run: seq<Action>, s: Link)
    requires run != [] && Safe(s) && Enabled(c, s, run[|run| - 1])
    requires var before := run[..|run| - 1]; Timed(before, s) && Lived(before, s) && Reported(before, s)
    ensures var t := Next(c, s, run[|run| - 1]); Timed(run, t) && Lived(run, t) && Reported(run, t)
  {
    hide DoEnter, DoStep, DoWork, CanEnter, CanStep, CanWork, Happen, CanHappen, Timed, Lived, Reported, SameLife, Safe;
    Runs.SafeLiving(s);
    var a := run[|run| - 1];
    match a
    case Enter(e) =>
      EnterTimed(c, run, s, e);
      EnterLived(c, run, s, e);
      EnterReported(c, run, s, e);
    case Inside(i) =>
      StepTimed(c, run, s, i);
      OtherLived(c, s, a);
      SameLifeLived(run, s, DoStep(c, s, i));
    case Working(w) =>
      WorkTimed(c, run, s, w);
      OtherLived(c, s, a);
      SameLifeLived(run, s, DoWork(c, s, w));
    case Around(w) =>
      HappenTimed(run, s, w);
      OtherLived(c, s, a);
      SameLifeLived(run, s, Happen(s, w));
  }
}
