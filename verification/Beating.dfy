/** The heartbeat by the actions of an execution: when it pings, when it gives up, and when a ping counts as sent. */
module Beating {
  import opened Basics
  import opened Framing
  import opened SendQueue
  import opened Outbound
  import opened Connection
  import opened Lifecycle
  import opened Safety
  import opened Silence
  import opened History
  import opened Sending
  import Heartbeat
  import Runs

  /** The latest ping queued: when, and which frame it is. */
  function LatestBeat(c: Setup, run: seq<Action>): Option<Heartbeat.Probe> {
    if run == [] then None
    else
      var n := |run| - 1;
      match run[n]
      case Inside(PushBeat(_)) => Some(Heartbeat.Probe(Clock(run[..n]), |Queued(c, run[..n])|))
      case _ => LatestBeat(c, run[..n])
  }

  /** When bytes had last gone out, as of the writer's latest accounting. */
  function Accounted(run: seq<Action>): nat {
    if run == [] then 0
    else
      var n := |run| - 1;
      if run[n] == Working(Account) then Wrote(run[..n]) else Accounted(run[..n])
  }

  /** The pings written whole, with that time. */
  function Completed(c: Setup, run: seq<Action>): map<nat, nat>
    requires After(c, run).Some?
  {
    if run == [] then map[]
    else
      var n := |run| - 1;
      var batch := After(c, run[..n]).value.out.w.batch;
      if run[n] == Working(ItemDone) && batch != [] && batch[0].Beat?
      then Completed(c, run[..n])[batch[0].probe := Accounted(run[..n])]
      else Completed(c, run[..n])
  }

  predicate Beats(c: Setup, run: seq<Action>, s: Link)
    requires After(c, run).Some?
  {
    s.beats.alive.ping == LatestBeat(c, run) && s.out.w.stamp == Accounted(run) && s.beats.sent == Completed(c, run)
  }

  lemma StampIs(o: Out, a: Act)
    requires Ready(o, a)
    ensures Do(o, a).w.stamp == if a.Progress? then a.stamp else o.w.stamp
  {
    hide Encode, Joined;
  }

  lemma EnterBeats(c: Setup, s: Link, e: Entry)
    requires Living(s) && CanEnter(c, s, e)
    ensures var t := DoEnter(c, s, e);
            t.beats.alive.ping == s.beats.alive.ping && t.beats.sent == s.beats.sent && t.out.w.stamp == s.out.w.stamp
  {
    hide Do, Fits, EncodedLen, MaySend, ValidStatus, Verdict, EndStatus, ClosePayload, Heartbeat.Seen, HeldAgrees, QueueAgrees;
    EnterOut(c, s, e);
    StampIs(s.out, EntryAct(s, e));
  }

  lemma StepBeats(c: Setup, s: Link, i: Inner)
    requires CanStep(c, s, i)
    ensures var t := DoStep(c, s, i);
            && t.beats.sent == s.beats.sent && t.out.w.stamp == s.out.w.stamp
            && t.beats.alive.ping == if i.PushBeat? then Some(Heartbeat.Probe(s.env.now, |s.out.log|)) else s.beats.alive.ping
  {
    hide Do, Fits, EncodedLen;
    StampIs(s.out, Effect(c, s, i));
  }

  lemma WorkBeats(c: Setup, s: Link, w: Work)
    requires CanWork(c, s, w)
    ensures var t := DoWork(c, s, w);
            && t.beats.alive.ping == s.beats.alive.ping
            && t.out.w.stamp == (if w.Account? then s.env.written else s.out.w.stamp)
            && t.beats.sent == if w.ItemDone? && s.out.w.batch[0].Beat? then s.beats.sent[s.out.w.batch[0].probe := s.out.w.stamp]
                               else s.beats.sent
  {
    hide Do, Progressed;
    StampIs(s.out, Job(c, s, w));
  }

  /** The readings of an execution with one more action. */
  predicate Reads(c: Setup, run: seq<Action>, s: Link) {
    s.env.now == Clock(run) && s.env.written == Wrote(run) && s.out.log == Queued(c, run)
  }

  lemma NextBeats(c: Setup, run: seq<Action>, s: Link, a: Action)
    requires run != [] && run[|run| - 1] == a && After(c, run[..|run| - 1]) == Some(s) && After(c, run).Some?
    requires Beats(c, run[..|run| - 1], s) && Reads(c, run[..|run| - 1], s) && Living(s) && Enabled(c, s, a)
    ensures Beats(c, run, Next(c, s, a))
  {
    hide After, DoEnter, DoStep, DoWork, CanEnter, CanStep, CanWork, Happen, CanHappen, Clock, Wrote, Queued, Living, Ready, Do;
    match a
    case Enter(e) => EnterBeats(c, s, e);
    case Inside(i) => StepBeats(c, s, i);
    case Working(w) =>
      WorkBeats(c, s, w);
      if w.ItemDone? { ItemThere(c, s); }
    case Around(w) => HappenBeats(s, w);
  }

  lemma ItemThere(c: Setup, s: Link)
    requires CanWork(c, s, ItemDone)
    ensures s.out.w.batch != []
  {
  }

  lemma HappenBeats(s: Link, w: World)
    requires CanHappen(s, w)
    ensures var t := Happen(s, w);
            t.beats.alive.ping == s.beats.alive.ping && t.beats.sent == s.beats.sent && t.out == s.out
  {
  }

  lemma StartBeats(c: Setup, s: Link)
    requires s == Init()
    ensures Beats(c, [], s)
  {
  }

  lemma {:induction false} BeatsTold(c: Setup, run: seq<Action>)
    requires Sane(c) && After(c, run).Some?
    ensures Beats(c, run, After(c, run).value)
  {
    hide Beats, Next, Enabled, Runs.Invariant, Lived, Reported, Safe, Living, Clock, Wrote, Heard, Pings, Queued, Carried, PutOff;
    if run == [] {
      StartBeats(c, Init());
    } else {
      var n := |run| - 1;
      BeatsTold(c, run[..n]);
      HistoryTold(c, run[..n]);
      QueueTold(c, run[..n]);
      Runs.RunInvariant(c, run[..n]);
      Runs.InvariantSafe(c, After(c, run[..n]).value);
      Runs.SafeLiving(After(c, run[..n]).value);
      NextBeats(c, run, After(c, run[..n]).value, run[n]);
    }
  }

  /** All a check goes by: the latest ping, when it counts as sent, the last write, and the signs of life. */
  function Grounds(c: Setup, run: seq<Action>, now: nat): Drop
    requires After(c, run).Some?
  {
    var ping := LatestBeat(c, run);
    Drop(now, ping,
         if ping.Some? && ping.value.id in Completed(c, run) then Some(Completed(c, run)[ping.value.id]) else None,
         Wrote(run), Heard(run) + {Began(run)})
  }

  /**
    * A check on an open connection: it decides to ping exactly if no ping is outstanding
    * and the peer was quiet for an interval, and gives the peer up exactly on evidence.
    */
  lemma CheckDecides(c: Setup, run: seq<Action>, now: nat)
    requires Sane(c) && After(c, run).Some? && Enabled(c, After(c, run).value, Enter(BeatCheck(now)))
    ensures var s := After(c, run).value; var t := Next(c, s, Enter(BeatCheck(now))); var d := Grounds(c, run, now);
            if c.heartbeat.None? || Life(run) != Open then t == s
            else
              && (t.beats.due <==> !Outstanding(d) && Quiet(c.heartbeat.value, d))
              && t.past.drops == s.past.drops + (if Evidence(c.heartbeat.value, d) then [d] else [])
  {
    hide After, Life, Why, Received, Failed, Deadline, Began, Clock, Wrote, Heard, Pings, Queued, Completed, LatestBeat, Reported,
         Outstanding, Quiet, Evidence, Verdict, Runs.Invariant, HeardAgrees;
    HistoryTold(c, run);
    BeatsTold(c, run);
    Runs.RunInvariant(c, run);
    InvariantHeard(c, After(c, run).value);
    if c.heartbeat.Some? { VerdictExact(c.heartbeat.value, After(c, run).value, now); }
    assert After(c, run).value.past.drops + [] == After(c, run).value.past.drops;
  }

  lemma InvariantHeard(c: Setup, s: Link)
    requires Runs.Invariant(c, s)
    ensures HeardAgrees(s)
  {
  }

  /** A ping that was decided on is queued if the connection is still open. */
  lemma BeatEnters(c: Setup, run: seq<Action>)
    requires Sane(c) && After(c, run).Some? && After(c, run).value.held == Free && After(c, run).value.beats.due
    ensures var s := After(c, run).value;
            && Enabled(c, s, Enter(BeatLock))
            && Next(c, s, Enter(BeatLock))
               == s.(beats := s.beats.(due := false), held := if Life(run) == Open then BeatPush else Free)
  {
    hide After, Life, Why, Received, Failed, Deadline, Began, Timed, Reported;
    HistoryTold(c, run);
  }

  /** A ping was decided on, and not looked after since. */
  predicate Due(c: Setup, run: seq<Action>)
    requires After(c, run).Some?
  {
    if run == [] then false
    else
      var n := |run| - 1;
      match run[n]
      case Enter(BeatCheck(now)) =>
        if c.heartbeat.None? || Life(run[..n]) != Open then Due(c, run[..n])
        else
          var d := Grounds(c, run[..n], now);
          !Outstanding(d) && Quiet(c.heartbeat.value, d)
      case Enter(BeatLock) => false
      case _ => Due(c, run[..n])
  }

  lemma OtherDue(c: Setup, s: Link, a: Action)
    requires Enabled(c, s, a)
    ensures a == Enter(BeatLock) ==> !Next(c, s, a).beats.due
    ensures a != Enter(BeatLock) && !(a.Enter? && a.entry.BeatCheck?) ==> Next(c, s, a).beats.due == s.beats.due
  {
    hide Do, Fits, EncodedLen, MaySend, ValidStatus, Verdict, EndStatus, ClosePayload, Heartbeat.Seen;
  }

  /** In every execution the heartbeat has a ping to queue exactly if one was decided on. */
  lemma {:induction false} DueTold(c: Setup, run: seq<Action>)
    requires Sane(c) && After(c, run).Some?
    ensures After(c, run).value.beats.due == Due(c, run)
  {
    hide Next, Enabled, Grounds, Outstanding, Quiet, Life;
    if run == [] {
    } else {
      var n := |run| - 1;
      var s := After(c, run[..n]).value;
      DueTold(c, run[..n]);
      OtherDue(c, s, run[n]);
      match run[n]
      case Enter(BeatCheck(now)) => CheckDecides(c, run[..n], now);
      case _ =>
    }
  }
}
