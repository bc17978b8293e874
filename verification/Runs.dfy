/**
  * What holds in every state any execution of a connection reaches, under every
  * interleaving of application threads, reader, writer, transport and clock.
  */
module Runs {
  import opened Basics
  import opened Framing
  import opened SendQueue
  import opened Outbound
  import opened Pipeline
  import opened Connection
  import opened Lifecycle
  import opened Safety
  import opened Goodbye
  import opened Delivery
  import opened BackPressure
  import opened Pongs
  import opened Limits
  import opened Silence
  import opened Causes
  import Backlog
  import Heartbeat

  predicate Invariant(c: Setup, s: Link) {
    && Safe(s) && EventsAgree(s) && ClosingAgrees(s) && FlushAgrees(s) && FramesAgree(c, s)
    && DrainAgrees(c, s) && PongAgrees(s) && LimitAgrees(c, s) && HeardAgrees(s) && CauseAgrees(s)
    && SentAgrees(s) && Evidenced(c, s.past.drops) && EndAgrees(s)
  }

  lemma NextInvariant(c: Setup, s: Link, a: Action)
    requires Sane(c) && Invariant(c, s) && Enabled(c, s, a)
    ensures Invariant(c, Next(c, s, a))
  {
    hide EventsAgree, ClosingAgrees, FlushAgrees, FramesAgree, DrainAgrees, PongAgrees, LimitAgrees, HeardAgrees,
         CauseAgrees, SentAgrees, Evidenced, EndAgrees, Living, FinAgrees, Flowing, ProbeAgrees, Next, Enabled;
    NextSafe(c, s, a);
    NextEvents(c, s, a);
    NextClosing(c, s, a);
    NextFlush(c, s, a);
    NextFrames(c, s, a);
    NextDrain(c, s, a);
    NextPong(c, s, a);
    NextLimit(c, s, a);
    NextHeard(c, s, a);
    NextCause(c, s, a);
    NextSent(c, s, a);
    NextDrops(c, s, a);
    NextEnd(c, s, a);
  }

  lemma InitInvariant(c: Setup, s: Link)
    requires s == Init()
    ensures Invariant(c, s)
  {
    hide Safe;
    SafeInit();
    CountNone(Final);
    assert s.out.log == [] && s.past.events == [] && s.past.notices == [] && s.past.answered == [];
    assert Backlog.Unwritten([], 0, Backlog.ORDINARY) == 0;
  }

  lemma {:induction false} RunInvariant(c: Setup, run: seq<Action>)
    requires Sane(c) && After(c, run).Some?
    ensures Invariant(c, After(c, run).value)
  {
    hide Invariant, Next, Enabled;
    if run == [] {
      InitInvariant(c, Init());
    } else {
      var n := |run| - 1;
      RunInvariant(c, run[..n]);
      NextInvariant(c, After(c, run[..n]).value, run[n]);
    }
  }

  // ----- The outbound bytes -----

  /** The wire is a prefix of the frames pushed, and the peer decodes exactly the complete ones. */
  lemma EndToEnd(c: Setup, run: seq<Action>, max: nat)
    requires Sane(c) && After(c, run).Some?
    requires var log := After(c, run).value.out.log;
             forall i | 0 <= i < |log| :: |log[i].frame.payload| <= max
    ensures var o := After(c, run).value.out;
            Understood(Peer(c, max), Bits(o.log), o.wire)
  {
    hide Understood, After, Living, FinAgrees, Sealed, Paced, Probing, ProbeAgrees;
    RunInvariant(c, run);
    PeerDecodes(c, After(c, run).value, max);
  }

  /** The counter is exact and never underflows, and it never exceeds its bound. */
  lemma Accounting(c: Setup, run: seq<Action>)
    requires Sane(c) && After(c, run).Some?
    ensures var s := After(c, run).value; var o := s.out;
            && Shaped(o.w)
            && (!o.q.done ==> o.q.buffered == |Content(o.q.items)| + |Remaining(o.w)| + o.w.wrote)
            && o.w.wrote <= o.q.buffered
            && o.q.buffered <= Max(Max(c.limit, s.past.largest), PONG_LIMIT + 130) + 131 + 14 + 262
  {
    hide After, Living, FinAgrees, Sealed, Paced, Probing, ProbeAgrees, EncodeLog, Remaining, Content;
    RunInvariant(c, run);
    var s := After(c, run).value;
    Outbound.Pipeline(s.out);
    Bounded(c, s);
  }

  // ----- Closing -----

  /**
    * At most one close frame and one shutdown are queued; behind the close frame
    * come only pongs, behind the shutdown nothing, and it closes a complete wire.
    */
  lemma ClosingOnTheWire(c: Setup, run: seq<Action>)
    requires Sane(c) && After(c, run).Some?
    ensures var o := After(c, run).value.out;
            && (forall i, j | 0 <= i < j < |o.log| && o.log[i].frame.op == CLOSE :: o.log[j].frame.op == PONG)
            && |o.fins| <= 1 && (forall n | n in o.fins :: n == |o.log|)
            && (o.shut ==> o.wire == EncodeLog(o.log))
  {
    hide After, Living, FinAgrees, Paced, Probing, ProbeAgrees, EncodeLog, Remaining, Content, MaySend, GoodClose, Ordered;
    RunInvariant(c, run);
    var s := After(c, run).value;
    forall i | 0 <= i < |s.out.log| ensures s.out.log[i].frame.op == CLOSE <==> s.out.log[i].kind == Final {
      assert Proper(c, s.out.log[i]);
      OnlyFinalCloses(c, s.out.log[i]);
    }
    forall i, j | 0 <= i < j < |s.out.log| && s.out.log[i].frame.op == CLOSE ensures s.out.log[j].frame.op == PONG {
      assert Proper(c, s.out.log[j]);
    }
  }

  lemma OnlyFinalCloses(c: Setup, p: Pushed)
    requires Proper(c, p)
    ensures p.frame.op == CLOSE <==> p.kind == Final
  {
  }

  /** A close frame says what the application asked for, echoes the peer's code, or names the violation found. */
  lemma CloseIsTruthful(c: Setup, run: seq<Action>)
    requires Sane(c) && After(c, run).Some?
    ensures var s := After(c, run).value;
            forall i | 0 <= i < |s.out.log| && s.out.log[i].frame.op == CLOSE ::
              Right(s.past.cause, s.flags, s.out.log[i].frame.payload)
  {
    hide After, Safe, Right, Proper, EndAgrees, SentAgrees, Evidenced;
    RunInvariant(c, run);
    var s := After(c, run).value;
    forall i | 0 <= i < |s.out.log| && s.out.log[i].frame.op == CLOSE ensures s.out.log[i].kind == Final {
      OnlyFinalCloses(c, s.out.log[i]);
    }
  }

  /**
    * The application is told the peer's status if it sent one, else the code of a
    * violation, else 1006, when a task ended the connection; it is told 1006 when a
    * caller or the heartbeat did. So it is told all there is to know if and only if a
    * task ended it or there is nothing to know.
    */
  lemma EndIsTruthful(c: Setup, run: seq<Action>, i: nat)
    requires Sane(c) && After(c, run).Some?
    requires var events := After(c, run).value.past.events; i < |events| && events[i].Ended?
    ensures var s := After(c, run).value; var told := (s.past.events[i].code, s.past.events[i].reason);
            && s.past.ending.Gone?
            && (s.past.ending.who == ByHeart ==> s.past.drops != [])
            && (s.past.ending.who == ByTask ==>
                  told == if s.flags.received.Some? then s.flags.received.value
                          else if s.flags.failed.Some? then (s.flags.failed.value, []) else (1006, []))
            && (s.past.ending.who != ByTask ==> told == (1006, []))
            && (told == EndStatus(Outcome(s.flags)) <==>
                  s.past.ending.who == ByTask || (s.flags.received.None? && s.flags.failed.None?))
  {
    hide After, Safe, SentAgrees, Evidenced, FramesAgree, DrainAgrees, PongAgrees, LimitAgrees, CauseAgrees, ClosingAgrees;
    RunInvariant(c, run);
  }

  lemma StaysSilent(c: Setup, s: Link, a: Action)
    requires Safe(s) && Enabled(c, s, a) && Over(s.flags) && Mute(s.held)
    ensures var t := Next(c, s, a); t.out.log == s.out.log && t.out.fins == s.out.fins && Mute(t.held) && Over(t.flags)
  {
    hide Do, Fits, EncodedLen, MaySend, ValidStatus, Heartbeat.Seen, Flowing, ProbeAgrees, Verdict, EndStatus;
    match a
    case Enter(e) =>
      EnterOut(c, s, e);
      DoGuards(s.out, EntryAct(s, e));
    case Inside(i) => DoGuards(s.out, Effect(c, s, i));
    case Working(w) => DoGuards(s.out, Job(c, s, w));
    case Around(w) =>
  }

  /** Once the peer closed or a violation was found, and that section is over, nothing is ever queued again. */
  lemma {:induction false} SilentOnceOver(c: Setup, run: seq<Action>, more: seq<Action>)
    requires Sane(c) && After(c, run).Some? && After(c, run + more).Some?
    requires var s := After(c, run).value; Over(s.flags) && Mute(s.held)
    ensures var s, t := After(c, run).value, After(c, run + more).value;
            t.out.log == s.out.log && t.out.fins == s.out.fins && Over(t.flags) && Mute(t.held)
    decreases more
  {
    hide Next, Enabled, Invariant, Over, Mute;
    if more == [] {
      assert run + more == run;
    } else {
      var n := |more| - 1;
      var before := run + more[..n];
      assert (run + more)[..|run| + n] == before && (run + more)[|run| + n] == more[n];
      SilentOnceOver(c, run, more[..n]);
      RunInvariant(c, before);
      InvariantSafe(c, After(c, before).value);
      StaysSilent(c, After(c, before).value, more[n]);
    }
  }

  lemma InvariantSafe(c: Setup, s: Link)
    requires Invariant(c, s)
    ensures Safe(s) && Ordered(s.out)
  {
  }

  lemma NextWire(c: Setup, s: Link, a: Action)
    requires Living(s) && Enabled(c, s, a)
    ensures |s.out.wire| <= |Next(c, s, a).out.wire|
  {
    hide Do, Living, Fits, EncodedLen, EndStatus, Verdict, ValidStatus, MaySend, Heartbeat.Seen;
    match a
    case Enter(e) =>
      EnterOut(c, s, e);
      WireGrows(s.out, EntryAct(s, e));
    case Inside(i) => WireGrows(s.out, Effect(c, s, i));
    case Working(w) => WireGrows(s.out, Job(c, s, w));
    case Around(w) =>
  }

  lemma {:induction false} WireStays(c: Setup, run: seq<Action>, more: seq<Action>)
    requires Sane(c) && After(c, run).Some? && After(c, run + more).Some?
    ensures |After(c, run).value.out.wire| <= |After(c, run + more).value.out.wire|
    decreases more
  {
    hide Next, Enabled, Invariant, Safe;
    if more == [] {
      assert run + more == run;
    } else {
      var n := |more| - 1;
      var before := run + more[..n];
      assert (run + more)[..|run| + n] == before && (run + more)[|run| + n] == more[n];
      WireStays(c, run, more[..n]);
      RunInvariant(c, before);
      InvariantSafe(c, After(c, before).value);
      SafeLiving(After(c, before).value);
      NextWire(c, After(c, before).value, more[n]);
    }
  }

  lemma SafeLiving(s: Link)
    requires Safe(s)
    ensures Living(s)
  {
  }

  /**
    * The close reply is not cut off. Once waiting for it has ended, with the
    * connection neither ended nor out of time, every frame queued is on the wire, our
    * close frame among them, a shutdown asked for is done, and no continuation adds
    * anything.
    */
  lemma ReplyNotCutOff(c: Setup, run: seq<Action>, more: seq<Action>)
    requires Sane(c) && After(c, run).Some? && Returned(After(c, run).value)
    requires After(c, run + more).Some?
    ensures var s, t := After(c, run).value, After(c, run + more).value;
            && s.out.wire == EncodeLog(s.out.log)
            && Count(s.out.log, Final) == 1
            && (s.out.fins != [] ==> s.out.shut)
            && t.out.log == s.out.log && t.out.fins == s.out.fins && t.out.wire == s.out.wire
  {
    hide After, Safe, ClosingAgrees, EncodeLog, Count, Ordered, EndAgrees, SentAgrees, Evidenced, FramesAgree,
         DrainAgrees, PongAgrees, LimitAgrees, CauseAgrees;
    RunInvariant(c, run);
    var s, t := After(c, run).value, After(c, run + more).value;
    ReplyComplete(s);
    SilentOnceOver(c, run, more);
    WireStays(c, run, more);
    RunInvariant(c, run + more);
    InvariantSafe(c, t);
    Outbound.Pipeline(t.out);
  }

  // ----- Lifecycle -----

  /** The flags agree with the state, the state only advances, and the final event is the last. */
  lemma LifecycleSafety(c: Setup, run: seq<Action>)
    requires Sane(c) && After(c, run).Some?
    ensures var s := After(c, run).value;
            && FlagsAgree(s.flags)
            && (forall i | 0 <= i < |s.past.events| :: s.past.events[i].Ended? ==>
                  i == |s.past.events| - 1 && s.flags.state == Closed)
            && (s.flags.state == Closed && s.past.endHub ==>
                  s.past.events != [] && s.past.events[|s.past.events| - 1].Ended?)
            && (run != [] ==>
                  && After(c, run[..|run| - 1]).Some?
                  && Rank(After(c, run[..|run| - 1]).value.flags.state) <= Rank(s.flags.state))
  {
    hide Next, Enabled, Flowing, ProbeAgrees, FinAgrees, Rank;
    RunInvariant(c, run);
    if run != [] {
      var n := |run| - 1;
      RunInvariant(c, run[..n]);
      StateAdvances(c, After(c, run[..n]).value, run[n]);
    }
  }

  // ----- Back-pressure, pongs and heartbeats -----

  lemma DrainNeverLost(c: Setup, run: seq<Action>)
    requires Sane(c) && After(c, run).Some?
    ensures DrainAgrees(c, After(c, run).value)
  {
    hide After;
    RunInvariant(c, run);
  }

  lemma PongsCoalesce(c: Setup, run: seq<Action>)
    requires Sane(c) && After(c, run).Some?
    ensures var s := After(c, run).value;
            && Answers(PongsOf(s.out.log), s.past.pings, s.past.answered)
            && (Answering(s.flags) && s.past.pings != [] ==> Remembered(s))
  {
    hide After, Answers, PongsOf;
    RunInvariant(c, run);
  }

  /**
    * Every time the heartbeat gave a peer up it had evidence, and a ping it counted as
    * sent is on the wire; and of two pings queued the earlier was written before.
    */
  lemma HeartbeatEvidence(c: Setup, run: seq<Action>)
    requires Sane(c) && After(c, run).Some?
    ensures Evidenced(c, After(c, run).value.past.drops)
    ensures var s := After(c, run).value;
            forall i | 0 <= i < |s.past.drops| && s.past.drops[i].sent.Some? ::
              s.past.drops[i].ping.Some? && Transmitted(s.out, s.past.drops[i].ping.value.id)
    ensures var o := After(c, run).value.out;
            forall i, j | 0 <= i < j < |o.log| && o.log[i].kind == Probe && o.log[j].kind == Probe ::
              |EncodeLog(o.log[..i + 1])| <= o.progressed
  {
    hide After, Living, FinAgrees, Sealed, Paced, EncodeLog, Ordered, Count, Evidenced, Transmitted, EndAgrees,
         FramesAgree, DrainAgrees, PongAgrees, LimitAgrees, CauseAgrees;
    RunInvariant(c, run);
    var s := After(c, run).value;
    forall i, j | 0 <= i < j < |s.out.log| && s.out.log[i].kind == Probe && s.out.log[j].kind == Probe
      ensures |EncodeLog(s.out.log[..i + 1])| <= s.out.progressed
    {
      EarlierProbeWritten(s.out, i, j);
    }
  }

  lemma EarlierProbeWritten(o: Out, i: nat, j: nat)
    requires Probing(o) && i < j < |o.log| && o.log[i].kind == Probe && o.log[j].kind == Probe
    ensures |EncodeLog(o.log[..i + 1])| <= o.progressed
  {
    hide EncodeLog, Count, Placed;
    if i < o.floor {
      LogSplit(o.log[..o.floor], i + 1);
      assert o.log[..o.floor][..i + 1] == o.log[..i + 1];
    } else {
      var tail := o.log[o.floor..];
      CountSplit(tail, i + 1 - o.floor, Probe);
      CountSome(tail[..i + 1 - o.floor], i - o.floor, Probe);
      CountSome(tail[i + 1 - o.floor..], j - i - 1, Probe);
    }
  }
}
