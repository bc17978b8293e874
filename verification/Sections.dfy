/**
  * When a send is taken and when it is refused, when a ping is answered at once, and
  * who shuts the connection down: in numbers, and by the actions of an execution.
  */
module Sections {
  import opened Basics
  import opened Framing
  import opened SendQueue
  import opened Outbound
  import opened Connection
  import opened Lifecycle
  import opened Safety
  import opened History
  import Heartbeat
  import Runs
  import Utf8

  // ----- Sending -----

  /** The bytes a message takes on the wire. */
  function Cost(c: Setup, op: Nibble, payload: Bytes): nat {
    |Encode(Frame(true, op, if c.server then None else Some([0, 0, 0, 0]), payload))|
  }

  lemma CostIs(c: Setup, op: Nibble, payload: Bytes)
    ensures Cost(c, op, payload) == EncodedSize(c, payload)
  {
    hide Encode;
    EncodedLength(Frame(true, op, if c.server then None else Some([0, 0, 0, 0]), payload));
  }

  /** What an application may hand over: text, binary or a short ping. */
  ghost predicate Legal(op: Nibble, payload: Bytes) {
    && |payload| < 0x8000_0000_0000_0000
    && (op == TEXT || op == BINARY || op == PING)
    && (op == TEXT ==> Utf8.Valid(payload)) && (op == PING ==> |payload| <= 125)
  }

  /** There is room: the buffer is empty, or holds the message too. */
  predicate Room(c: Setup, s: Link, len: nat) {
    s.out.q.buffered == 0 || s.out.q.buffered + len <= c.limit
  }

  /** The application may send whenever no section is open, and a send on an open connection that has room is never refused. */
  lemma SendEnters(c: Setup, run: seq<Action>, op: Nibble, payload: Bytes)
    requires Sane(c) && After(c, run).Some? && After(c, run).value.held == Free && Legal(op, payload)
    ensures Enabled(c, After(c, run).value, Enter(Send(op, payload)))
    ensures var s := After(c, run).value;
            Next(c, s, Enter(Send(op, payload)))
            == if Life(run) != Open then s
               else if Room(c, s, Cost(c, op, payload)) then s.(held := SendPush(op, payload))
               else s.(held := SendRecheck(op, payload))
  {
    hide After, Cost, Life, Why, Received, Failed, Deadline, Began, Timed, Reported, Runs.Invariant;
    Utf8.ScanExact(payload);
    CostIs(c, op, payload);
    HistoryTold(c, run);
    Runs.RunInvariant(c, run);
    Runs.InvariantSafe(c, After(c, run).value);
  }

  /** The second look refuses exactly if there is no room then, and registers what was refused. */
  lemma RecheckDecides(c: Setup, s: Link)
    requires s.held.SendRecheck?
    ensures Enabled(c, s, Inside(Recheck))
    ensures var len := Cost(c, s.held.op, s.held.payload); var t := Next(c, s, Inside(Recheck));
            if Room(c, s, len) then t == s.(held := SendPush(s.held.op, s.held.payload))
            else t == s.(held := Free, out := s.out.(q := s.out.q.(drain := Some(len))),
                         past := s.past.(notices := s.past.notices + [Refused(len)]))
  {
    hide Cost;
    CostIs(c, s.held.op, s.held.payload);
  }

  /** With a refused length pending, a notice falls due exactly if what is left would let it in. */
  lemma NoticeDecides(c: Setup, run: seq<Action>)
    requires Sane(c) && After(c, run).Some? && Enabled(c, After(c, run).value, Working(Account))
    ensures var s := After(c, run).value; var t := Next(c, s, Working(Account));
            var left := s.out.q.buffered - s.out.w.wrote;
            && left >= 0 && t.out.q.buffered == left
            && (t.out.w.phase == Owing <==> s.out.q.drain.Some? && (left == 0 || left + s.out.q.drain.value <= c.limit))
            && t.out.q.drain == if t.out.w.phase == Owing then None else s.out.q.drain
  {
    hide After, Runs.Invariant, Living, FinAgrees, EncodeLog, Content, Remaining;
    Runs.RunInvariant(c, run);
    Runs.InvariantSafe(c, After(c, run).value);
    Outbound.Pipeline(After(c, run).value.out);
  }

  /** The call is neither taken nor refused yet. */
  predicate Pending(s: Link, op: Nibble, payload: Bytes) {
    s.held == SendPush(op, payload) || s.held == SendRecheck(op, payload)
  }

  /** The step that takes the message. */
  predicate Takes(s: Link, a: Action, t: Link, op: Nibble, payload: Bytes) {
    && a.Inside? && a.inner.PushSend? && t.held == Free
    && t.out.log == s.out.log + [Pushed(Frame(true, op, a.inner.key, payload), App)]
  }

  /** The step that refuses it, for want of room. */
  predicate Refuses(c: Setup, s: Link, a: Action, t: Link, op: Nibble, payload: Bytes) {
    a == Inside(Recheck) && t.held == Free && t.out.log == s.out.log && !Room(c, s, Cost(c, op, payload))
    && t.out.q.drain == Some(Cost(c, op, payload))
  }

  lemma PendingStep(c: Setup, s: Link, a: Action, op: Nibble, payload: Bytes)
    requires Living(s) && Enabled(c, s, a) && Pending(s, op, payload)
    ensures var t := Next(c, s, a); Pending(t, op, payload) || Takes(s, a, t, op, payload) || Refuses(c, s, a, t, op, payload)
  {
    hide Do, Fits, EncodedLen, MaySend, Cost, Progressed;
    match a
    case Inside(i) =>
      DoGuards(s.out, Effect(c, s, i));
      if i.Recheck? { RecheckDecides(c, s); }
    case Working(w) =>
    case Around(w) =>
    case Enter(e) =>
  }

  function Sent(run: seq<Action>, op: Nibble, payload: Bytes, more: seq<Action>): seq<Action> {
    run + [Enter(Send(op, payload))] + more
  }

  /** Step `j` behind the call decides it. */
  predicate DecidedAt(c: Setup, run: seq<Action>, op: Nibble, payload: Bytes, more: seq<Action>, j: nat) {
    && j < |more|
    && After(c, Sent(run, op, payload, more[..j])).Some? && After(c, Sent(run, op, payload, more[..j + 1])).Some?
    && var s, t := After(c, Sent(run, op, payload, more[..j])).value, After(c, Sent(run, op, payload, more[..j + 1])).value;
       Pending(s, op, payload) && (Takes(s, more[j], t, op, payload) || Refuses(c, s, more[j], t, op, payload))
  }

  lemma DecidedStays(c: Setup, run: seq<Action>, op: Nibble, payload: Bytes, more: seq<Action>, k: nat, j: nat)
    requires k <= |more| && DecidedAt(c, run, op, payload, more[..k], j)
    ensures DecidedAt(c, run, op, payload, more, j)
  {
    hide After, Pending, Takes, Refuses, Sent;
    assert more[..k][..j] == more[..j] && more[..k][..j + 1] == more[..j + 1];
  }

  /**
    * The fate of a send on an open connection, whatever comes between its steps: it is
    * pending until the step that takes it, with its own kind and payload, or the step
    * that refuses it for want of room.
    */
  lemma {:induction false} SendDecided(c: Setup, run: seq<Action>, op: Nibble, payload: Bytes, more: seq<Action>) returns (j: nat)
    requires Sane(c) && After(c, run).Some? && Life(run) == Open && After(c, Sent(run, op, payload, more)).Some?
    ensures DecidedAt(c, run, op, payload, more, j) || Pending(After(c, Sent(run, op, payload, more)).value, op, payload)
    decreases more
  {
    hide Next, Enabled, Pending, DecidedAt, Runs.Invariant, Life;
    var whole := Sent(run, op, payload, more);
    var n := |whole| - 1;
    j := 0;
    if more == [] {
      assert whole[..n] == run && whole[n] == Enter(Send(op, payload));
      SendBegins(c, run, op, payload);
    } else {
      var k := |more| - 1;
      assert whole[..n] == Sent(run, op, payload, more[..k]) && whole[n] == more[k];
      j := SendDecided(c, run, op, payload, more[..k]);
      if DecidedAt(c, run, op, payload, more[..k], j) {
        DecidedStays(c, run, op, payload, more, k, j);
      } else {
        SendStep(c, run, op, payload, more);
        j := k;
      }
    }
  }

  lemma SendStep(c: Setup, run: seq<Action>, op: Nibble, payload: Bytes, more: seq<Action>)
    requires more != [] && Sane(c) && After(c, Sent(run, op, payload, more)).Some?
    requires var before := Sent(run, op, payload, more[..|more| - 1]);
             After(c, before).Some? && Pending(After(c, before).value, op, payload)
    ensures DecidedAt(c, run, op, payload, more, |more| - 1)
            || Pending(After(c, Sent(run, op, payload, more)).value, op, payload)
  {
    hide After, Next, Enabled, Pending, Takes, Refuses, Runs.Invariant, Safe, Living;
    var k := |more| - 1;
    var before := Sent(run, op, payload, more[..k]);
    assert Sent(run, op, payload, more) == before + [more[k]] && more[..k + 1] == more;
    Unrolled(c, before, more[k]);
    var s := After(c, before).value;
    Runs.RunInvariant(c, before);
    Runs.InvariantSafe(c, s);
    Runs.SafeLiving(s);
    PendingStep(c, s, more[k], op, payload);
  }

  lemma Unrolled(c: Setup, run: seq<Action>, a: Action)
    requires After(c, run + [a]).Some?
    ensures After(c, run).Some? && Enabled(c, After(c, run).value, a)
    ensures After(c, run + [a]) == Some(Next(c, After(c, run).value, a))
  {
    hide Next, Enabled;
    assert (run + [a])[..|run|] == run;
  }

  lemma SendBegins(c: Setup, run: seq<Action>, op: Nibble, payload: Bytes)
    requires Sane(c) && After(c, run).Some? && Life(run) == Open
    requires Enabled(c, After(c, run).value, Enter(Send(op, payload)))
    ensures Pending(Next(c, After(c, run).value, Enter(Send(op, payload))), op, payload)
  {
    hide After, Life, Why, Received, Failed, Deadline, Began, Timed, Reported, Runs.Invariant, Fits, EncodedLen, MaySend;
    HistoryTold(c, run);
    Runs.RunInvariant(c, run);
    Runs.InvariantSafe(c, After(c, run).value);
  }

  // ----- Pings and violations -----

  /** A ping is for answering until the peer closed, erred, or the connection ended; at once while less than a mebibyte waits. */
  lemma PingEnters(c: Setup, run: seq<Action>, data: Bytes)
    requires Sane(c) && After(c, run).Some? && Enabled(c, After(c, run).value, Enter(GotPing(data)))
    ensures var s := After(c, run).value; var t := Next(c, s, Enter(GotPing(data))); var n := |Pings(run)|;
            && t.out == s.out
            && t.held == if Life(run) == Closed || Received(run).Some? || Failed(run).Some? then Free
                         else if s.out.q.buffered < 1_048_576 then PongClear(data, n) else PongDefer(data, n)
  {
    hide After, Life, Why, Received, Failed, Deadline, Began, Clock, Wrote, Heard, Reported, Pings;
    HistoryTold(c, run);
  }

  /** And the section goes on to answer it or to put it off. */
  lemma PongSteps(c: Setup, s: Link, key: Option<Key>)
    requires Keyed(c, key)
    ensures s.held.PongClear? ==> CanStep(c, s, ClearPong) && DoStep(c, s, ClearPong).held == PongPush(s.held.data, s.held.ping)
    ensures s.held.PongPush? ==> CanStep(c, s, PushPong(key)) && DoStep(c, s, PushPong(key)).held == Free
    ensures s.held.PongDefer? ==> CanStep(c, s, DeferPong) && DoStep(c, s, DeferPong).held == Free
  {
    hide Do;
  }

  // ----- Shutting down -----

  /** A shutdown is queued, or about to be, exactly if the server has the peer's close or a violation was found. */
  predicate ShutdownAgrees(c: Setup, s: Link) {
    s.out.fins != [] || s.held == FinPush || (s.held.ClosePush? && s.held.fin)
    <==> (c.server && s.flags.received.Some?) || s.flags.failed.Some?
  }

  lemma EnterShutdown(c: Setup, s: Link, e: Entry)
    requires Living(s) && FinAgrees(s) && ShutdownAgrees(c, s) && CanEnter(c, s, e)
    ensures ShutdownAgrees(c, DoEnter(c, s, e))
  {
    hide Do, Fits, EncodedLen, MaySend, ValidStatus, Verdict, EndStatus, ClosePayload, Heartbeat.Seen, HeldAgrees, QueueAgrees;
    EnterOut(c, s, e);
    DoGuards(s.out, EntryAct(s, e));
  }

  lemma StepShutdown(c: Setup, s: Link, i: Inner)
    requires Living(s) && FinAgrees(s) && ShutdownAgrees(c, s) && CanStep(c, s, i)
    ensures ShutdownAgrees(c, DoStep(c, s, i))
  {
    hide Do, Fits, EncodedLen, MaySend;
    EffectAllowed(c, s, i);
    DoGuards(s.out, Effect(c, s, i));
  }

  lemma WorkShutdown(c: Setup, s: Link, w: Work)
    requires ShutdownAgrees(c, s) && CanWork(c, s, w)
    ensures ShutdownAgrees(c, DoWork(c, s, w))
  {
    hide Do, Progressed;
    DoGuards(s.out, Job(c, s, w));
  }

  lemma NextShutdown(c: Setup, s: Link, a: Action)
    requires Living(s) && FinAgrees(s) && ShutdownAgrees(c, s) && Enabled(c, s, a)
    ensures ShutdownAgrees(c, Next(c, s, a))
  {
    hide DoEnter, DoStep, DoWork, CanEnter, CanStep, CanWork, Living, FinAgrees;
    match a
    case Enter(e) => EnterShutdown(c, s, e);
    case Inside(i) => StepShutdown(c, s, i);
    case Working(w) => WorkShutdown(c, s, w);
    case Around(w) =>
  }

  lemma StartShutdown(c: Setup, s: Link)
    requires s == Init()
    ensures ShutdownAgrees(c, s)
  {
  }

  lemma {:induction false} AlwaysShutdown(c: Setup, run: seq<Action>)
    requires Sane(c) && After(c, run).Some?
    ensures ShutdownAgrees(c, After(c, run).value)
  {
    hide Next, Enabled, ShutdownAgrees, Runs.Invariant, Living, FinAgrees, Flowing, ProbeAgrees;
    if run == [] {
      StartShutdown(c, Init());
    } else {
      var n := |run| - 1;
      AlwaysShutdown(c, run[..n]);
      Runs.RunInvariant(c, run[..n]);
      Runs.InvariantSafe(c, After(c, run[..n]).value);
      NextShutdown(c, After(c, run[..n]).value, run[n]);
    }
  }

  /**
    * Who shuts down: between sections, a shutdown was queued exactly if this is the
    * server and the peer closed, or a violation was found.
    */
  lemma ShutdownExact(c: Setup, run: seq<Action>)
    requires Sane(c) && After(c, run).Some? && After(c, run).value.held == Free
    ensures After(c, run).value.out.fins != [] <==> (c.server && Received(run).Some?) || Failed(run).Some?
  {
    hide After, Life, Why, Received, Failed, Deadline, Began, Timed, Reported;
    AlwaysShutdown(c, run);
    HistoryTold(c, run);
  }
}
