/** A refused sender is told once its length fits: never missed, never twice. */
module BackPressure {
  import opened Basics
  import opened Framing
  import opened SendQueue
  import opened Outbound
  import opened Connection
  import opened Lifecycle
  import opened Safety
  import Heartbeat
  import Utf8

  // ----- Drain notices -----

  /** A notice always answers a refusal. */
  predicate Alternating(notices: seq<Notice>) {
    forall i | 0 <= i < |notices| && notices[i].Freed? :: i > 0 && notices[i - 1].Refused?
  }

  function Freeds(notices: seq<Notice>): nat {
    if notices == [] then 0
    else Freeds(notices[..|notices| - 1]) + if notices[|notices| - 1].Freed? then 1 else 0
  }

  function Drains(events: seq<Event>): nat {
    if events == [] then 0
    else Drains(events[..|events| - 1]) + if events[|events| - 1].Drained? then 1 else 0
  }

  /**
    * A request is pending exactly while the latest refused length was not answered,
    * and then that length still does not fit; every answer is one event.
    */
  predicate DrainAgrees(c: Setup, s: Link) {
    var n := |s.past.notices|;
    && Alternating(s.past.notices)
    && (s.out.q.drain.Some? <==> n > 0 && s.past.notices[n - 1].Refused?)
    && (s.out.q.drain.Some? ==>
          && s.past.notices[n - 1] == Refused(s.out.q.drain.value)
          && !Fits(s.out.q.buffered, s.out.q.drain.value, c.limit))
    && var owed := if s.out.w.phase == Owing then 1 else 0;
       && Drains(s.past.events) + owed <= Freeds(s.past.notices)
       && (s.flags.state != Closed && s.env.hub ==> Drains(s.past.events) + owed == Freeds(s.past.notices))
  }

  lemma NoticeAppend(notices: seq<Notice>, n: Notice)
    ensures Freeds(notices + [n]) == Freeds(notices) + if n.Freed? then 1 else 0
    ensures Alternating(notices) && (n.Freed? ==> notices != [] && notices[|notices| - 1].Refused?) ==>
              Alternating(notices + [n])
  {
    assert (notices + [n])[..|notices|] == notices;
  }

  lemma EventAppend(events: seq<Event>, e: Event)
    ensures Drains(events + [e]) == Drains(events) + if e.Drained? then 1 else 0
  {
    assert (events + [e])[..|events|] == events;
  }

  /** How an action changes the counter and the pending request. */
  lemma DoDrain(o: Out, a: Act)
    requires Ready(o, a)
    ensures !a.Progress? && !a.SetDrain? ==> Do(o, a).q.drain == o.q.drain
    ensures a.SetDrain? ==> Do(o, a).q.drain == Some(a.len)
    ensures !a.Progress? ==> o.q.buffered <= Do(o, a).q.buffered
    ensures a.Launch? || a.Noticed? || a.Nop? ==> Do(o, a).q == o.q
    ensures a.Progress? ==> Do(o, a).q == Progressed(o.q, o.w.wrote, a.limit).0
    ensures Do(o, a).w.phase == Owing <==>
              (a.Progress? && Progressed(o.q, o.w.wrote, a.limit).1)
              || (o.w.phase == Owing && !a.Noticed? && !a.Launch? && !a.Exit?)
  {
    hide Encode, Joined;
  }

  lemma StepDrain(c: Setup, s: Link, i: Inner)
    requires Living(s) && DrainAgrees(c, s) && CanStep(c, s, i)
    ensures DrainAgrees(c, DoStep(c, s, i))
  {
    hide Do, EncodedLen, Utf8.Scan, Alternating, Freeds, Drains;
    DoDrain(s.out, Effect(c, s, i));
    if i.Recheck? {
      NoticeAppend(s.past.notices, Refused(EncodedSize(c, s.held.payload)));
    }
  }

  lemma WorkDrain(c: Setup, s: Link, w: Work)
    requires Living(s) && DrainAgrees(c, s) && CanWork(c, s, w)
    ensures DrainAgrees(c, DoWork(c, s, w))
  {
    hide Do, Alternating, Freeds, Drains;
    DoDrain(s.out, Job(c, s, w));
    NoticeAppend(s.past.notices, Freed);
  }

  lemma EnterDrain(c: Setup, s: Link, e: Entry)
    requires Living(s) && DrainAgrees(c, s) && CanEnter(c, s, e)
    ensures DrainAgrees(c, DoEnter(c, s, e))
  {
    hide Do, EncodedLen, Utf8.Scan, Alternating, Freeds, Drains, Heartbeat.Check, Heartbeat.Seen, Fits, EndStatus;
    EnterOut(c, s, e);
    DoDrain(s.out, EntryAct(s, e));
    var (code, reason) := EndStatus(Saw(s.flags, if e.Finish? then e.who else ByCaller));
    EventAppend(s.past.events, Ended(code, reason));
    EventAppend(s.past.events, Opened);
    EventAppend(s.past.events, Drained);
    EventAppend(s.past.events, Errored);
    EventAppend(s.past.events, Delivered);
  }

  lemma NextDrain(c: Setup, s: Link, a: Action)
    requires Living(s) && DrainAgrees(c, s) && Enabled(c, s, a)
    ensures DrainAgrees(c, Next(c, s, a))
  {
    hide DoEnter, DoStep, DoWork, CanEnter, CanStep, CanWork, Living, Alternating, Freeds, Drains, Fits;
    match a
    case Enter(e) => EnterDrain(c, s, e);
    case Inside(i) => StepDrain(c, s, i);
    case Working(w) => WorkDrain(c, s, w);
    case Around(w) =>
  }

  /** The write that first makes the refused length fit is the one that answers it. */
  lemma DrainImmediate(c: Setup, s: Link)
    requires Safe(s) && DrainAgrees(c, s) && CanWork(c, s, Account) && s.out.q.drain.Some?
    ensures var s' := DoWork(c, s, Account); var len := s.out.q.drain.value;
            && s'.out.q.buffered == s.out.q.buffered - s.out.w.wrote
            && (s'.out.w.phase == Owing <==> Fits(s'.out.q.buffered, len, c.limit))
            && (s'.out.w.phase == Owing <==> s'.out.q.drain.None?)
  {
    hide EncodeLog, Content, Remaining, Alternating, Freeds, Drains;
    Outbound.Pipeline(s.out);
  }
}
