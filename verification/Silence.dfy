/** A peer is dropped only after a full interval of silence with a probe outstanding. */
module Silence {
  import opened Framing
  import opened SendQueue
  import opened Outbound
  import opened Pipeline
  import opened Connection
  import opened Lifecycle
  import opened Safety
  import Heartbeat
  import Utf8

  // ----- What the heartbeat goes by -----

  /** The heartbeat goes by the latest sign of life: no later one was missed, and it is one. */
  predicate HeardAgrees(s: Link) {
    var latest := Heartbeat.Seen(s.beats.alive.seen, s.env.received);
    && latest in Signs(s.past) && (forall h | h in Signs(s.past) :: h <= latest)
    && latest <= s.env.now
    && (s.task == Unborn ==> s.beats.alive.seen == 0)
  }

  lemma NextHeard(c: Setup, s: Link, a: Action)
    requires HeardAgrees(s) && Enabled(c, s, a)
    ensures HeardAgrees(Next(c, s, a))
  {
    hide DoEnter, DoStep, DoWork, CanEnter, CanStep, CanWork, Happen, CanHappen, HeardAgrees, SameSigns;
    match a
    case Enter(e) =>
      EnterHeard(c, s, e);
      if !e.Begin? { SameSignsAgree(s, DoEnter(c, s, e)); }
    case Inside(i) =>
      StepHeard(c, s, i);
      SameSignsAgree(s, DoStep(c, s, i));
    case Working(w) =>
      WorkHeard(c, s, w);
      SameSignsAgree(s, DoWork(c, s, w));
    case Around(w) => HappenHeard(s, w);
  }

  lemma SameSignsAgree(s: Link, t: Link)
    requires HeardAgrees(s) && SameSigns(s, t)
    ensures HeardAgrees(t)
  {
    hide Heartbeat.Seen;
  }

  lemma HappenHeard(s: Link, w: World)
    requires HeardAgrees(s) && CanHappen(s, w)
    ensures HeardAgrees(Happen(s, w))
  {
  }

  /** What is known of signs of life did not change. */
  predicate SameSigns(s: Link, t: Link) {
    && Signs(t.past) == Signs(s.past) && t.env.now == s.env.now
    && Heartbeat.Seen(t.beats.alive.seen, t.env.received) == Heartbeat.Seen(s.beats.alive.seen, s.env.received)
    && (t.task == Unborn ==> t.beats.alive.seen == s.beats.alive.seen && s.task == Unborn)
  }

  lemma EnterHeard(c: Setup, s: Link, e: Entry)
    requires CanEnter(c, s, e)
    ensures !e.Begin? ==> SameSigns(s, DoEnter(c, s, e))
    ensures e.Begin? && HeardAgrees(s) ==> HeardAgrees(DoEnter(c, s, e))
  {
    hide Do, Fits, EncodedLen, Verdict, Utf8.Scan, EndStatus;
  }

  lemma StepHeard(c: Setup, s: Link, i: Inner)
    requires CanStep(c, s, i)
    ensures SameSigns(s, DoStep(c, s, i))
  {
    hide Do, Effect, Fits, EncodedLen;
  }

  lemma WorkHeard(c: Setup, s: Link, w: Work)
    requires CanWork(c, s, w)
    ensures SameSigns(s, DoWork(c, s, w))
  {
    hide Do, Progressed;
  }

  // ----- A transmission time means the ping is on the wire -----

  /** Ping number `id` of the log is wholly on the wire. */
  predicate Transmitted(o: Out, id: nat) {
    id < |o.log| && o.log[id].kind == Probe && |EncodeLog(o.log[..id + 1])| <= |o.wire|
  }

  predicate SentAgrees(s: Link) {
    && (forall id | id in s.beats.sent :: Transmitted(s.out, id))
    && (forall i | 0 <= i < |s.past.drops| && s.past.drops[i].sent.Some? ::
          s.past.drops[i].ping.Some? && Transmitted(s.out, s.past.drops[i].ping.value.id))
  }

  lemma TransmittedStays(o: Out, a: Act, id: nat)
    requires Ready(o, a) && Transmitted(o, id)
    ensures Transmitted(Do(o, a), id)
  {
    hide EncodeLog, Do;
    DoGuards(o, a);
    WireGrows(o, a);
    assert Do(o, a).log[..id + 1] == o.log[..id + 1];
  }

  lemma WireGrows(o: Out, a: Act)
    requires Ready(o, a)
    ensures |o.wire| <= |Do(o, a).wire|
  {
    hide Encode, Joined;
  }

  lemma HeadTransmitted(o: Out)
    requires o.w.batch != [] && o.w.batch[0].Beat? && Allowed(o, Act.Finish) && Flowing(o)
    ensures Transmitted(o, o.w.batch[0].probe)
  {
    hide EncodeLog, Sealed, Paced, Count;
    HeadWritten(o);
    assert Pipe(o)[0] == o.w.batch[0] && Placed(o, 0);
  }

  lemma AllTransmitted(s: Link, a: Act)
    requires SentAgrees(s) && Ready(s.out, a)
    ensures forall id | id in s.beats.sent :: Transmitted(Do(s.out, a), id)
    ensures forall i | 0 <= i < |s.past.drops| && s.past.drops[i].sent.Some? ::
              s.past.drops[i].ping.Some? && Transmitted(Do(s.out, a), s.past.drops[i].ping.value.id)
  {
    hide Transmitted, Do, Ready;
    forall id | id in s.beats.sent ensures Transmitted(Do(s.out, a), id) {
      TransmittedStays(s.out, a, id);
    }
    forall i | 0 <= i < |s.past.drops| && s.past.drops[i].sent.Some?
      ensures Transmitted(Do(s.out, a), s.past.drops[i].ping.value.id)
    {
      TransmittedStays(s.out, a, s.past.drops[i].ping.value.id);
    }
  }

  lemma EnterSent(c: Setup, s: Link, e: Entry)
    requires Living(s) && SentAgrees(s) && CanEnter(c, s, e)
    ensures SentAgrees(DoEnter(c, s, e))
  {
    hide Do, Transmitted, Fits, EncodedLen, MaySend, ValidStatus, Verdict, EndStatus, Heartbeat.Seen;
    EnterOut(c, s, e);
    AllTransmitted(s, EntryAct(s, e));
  }

  lemma StepSent(c: Setup, s: Link, i: Inner)
    requires SentAgrees(s) && CanStep(c, s, i)
    ensures SentAgrees(DoStep(c, s, i))
  {
    hide Do, Transmitted, Fits, EncodedLen, MaySend;
    AllTransmitted(s, Effect(c, s, i));
  }

  lemma WorkSent(c: Setup, s: Link, w: Work)
    requires Flowing(s.out) && SentAgrees(s) && CanWork(c, s, w)
    ensures SentAgrees(DoWork(c, s, w))
  {
    hide Do, Transmitted, Flowing, Progressed;
    AllTransmitted(s, Job(c, s, w));
    if w.ItemDone? && s.out.w.batch[0].Beat? {
      HeadTransmitted(s.out);
      TransmittedStays(s.out, Job(c, s, w), s.out.w.batch[0].probe);
    }
  }

  lemma NextSent(c: Setup, s: Link, a: Action)
    requires Safe(s) && SentAgrees(s) && Enabled(c, s, a)
    ensures SentAgrees(Next(c, s, a))
  {
    hide DoEnter, DoStep, DoWork, CanEnter, CanStep, CanWork, Living, Flowing, Transmitted, FinAgrees, ProbeAgrees;
    match a
    case Enter(e) => EnterSent(c, s, e);
    case Inside(i) => StepSent(c, s, i);
    case Working(w) => WorkSent(c, s, w);
    case Around(w) =>
  }

  // ----- Every drop has its reasons -----

  /**
    * The peer was pinged and stayed silent: the ping was sent an interval ago and
    * nothing was heard since; or it could not be sent, and for an interval nothing
    * was heard nor anything written.
    */
  predicate Evidence(interval: nat, d: Drop) {
    && d.ping.Some?
    && match d.sent
       case Some(sent) => sent + interval <= d.at && forall h | h in d.heard :: h <= sent
       case None =>
         && d.ping.value.queued + interval <= d.at
         && d.written + interval <= d.at
         && forall h | h in d.heard :: h + interval <= d.at
  }

  predicate Evidenced(c: Setup, drops: seq<Drop>) {
    forall i | 0 <= i < |drops| :: c.heartbeat.Some? && Evidence(c.heartbeat.value, drops[i])
  }

  lemma EvidencedAppend(c: Setup, drops: seq<Drop>, d: Drop)
    requires Evidenced(c, drops) && c.heartbeat.Some? && Evidence(c.heartbeat.value, d)
    ensures Evidenced(c, drops + [d])
  {
    hide Evidence;
  }

  /** All that a check made now, with a clock read at `now`, goes by. */
  function Basis(s: Link, now: nat): Drop {
    Drop(now, s.beats.alive.ping, SentAt(s.beats), s.env.written, Signs(s.past))
  }

  /** A ping is outstanding: queued and not sent, or sent with no sign of life since. */
  predicate Outstanding(d: Drop) {
    d.ping.Some? && (d.sent.Some? ==> forall h | h in d.heard :: h <= d.sent.value)
  }

  /** No sign of life for an interval. */
  predicate Quiet(interval: nat, d: Drop) {
    forall h | h in d.heard :: h + interval <= d.at
  }

  /**
    * The check by the signs of life alone: it gives the peer up if and only if it has
    * evidence, and it pings if and only if no ping is outstanding and it was quiet for
    * an interval.
    */
  lemma VerdictExact(interval: nat, s: Link, now: nat)
    requires HeardAgrees(s) && interval > 0
    ensures Verdict(interval, s, now) == Heartbeat.Dead <==> Evidence(interval, Basis(s, now))
    ensures Verdict(interval, s, now) == Heartbeat.Ping <==> !Outstanding(Basis(s, now)) && Quiet(interval, Basis(s, now))
  {
    var latest := Heartbeat.Seen(s.beats.alive.seen, s.env.received);
    assert latest in Signs(s.past);
  }

  lemma DropNeedsSilence(interval: nat, s: Link, now: nat)
    requires HeardAgrees(s) && interval > 0
    requires Verdict(interval, s, now) == Heartbeat.Dead
    ensures Evidence(interval, Basis(s, now))
  {
    VerdictExact(interval, s, now);
  }

  lemma EnterDrops(c: Setup, s: Link, e: Entry)
    requires CanEnter(c, s, e)
    ensures var t := DoEnter(c, s, e);
            || t.past.drops == s.past.drops
            || (e.BeatCheck? && c.heartbeat.Some? && Verdict(c.heartbeat.value, s, e.now) == Heartbeat.Dead
                && t.past.drops == s.past.drops + [Basis(s, e.now)])
  {
    hide Do, Fits, EncodedLen, MaySend, ValidStatus, Verdict, EndStatus, Heartbeat.Seen;
  }

  lemma StepDrops(c: Setup, s: Link, i: Inner)
    requires CanStep(c, s, i)
    ensures DoStep(c, s, i).past.drops == s.past.drops
  {
    hide Do, Effect, Fits, EncodedLen;
  }

  lemma WorkDrops(c: Setup, s: Link, w: Work)
    requires CanWork(c, s, w)
    ensures DoWork(c, s, w).past.drops == s.past.drops
  {
    hide Do, Progressed;
  }

  lemma NextDrops(c: Setup, s: Link, a: Action)
    requires Sane(c) && HeardAgrees(s) && Evidenced(c, s.past.drops) && Enabled(c, s, a)
    ensures Evidenced(c, Next(c, s, a).past.drops)
  {
    hide DoEnter, DoStep, DoWork, CanEnter, CanStep, CanWork, Evidence, Evidenced, HeardAgrees, Verdict;
    match a
    case Enter(e) =>
      EnterDrops(c, s, e);
      if DoEnter(c, s, e).past.drops != s.past.drops {
        DropNeedsSilence(c.heartbeat.value, s, e.now);
        EvidencedAppend(c, s.past.drops, Basis(s, e.now));
      }
    case Inside(i) => StepDrops(c, s, i);
    case Working(w) => WorkDrops(c, s, w);
    case Around(w) =>
  }
}
