/** Pings are answered in order, at most once, and the latest is never forgotten. */
module Pongs {
  import opened Basics
  import opened Framing
  import opened SendQueue
  import opened Outbound
  import opened Connection
  import opened Lifecycle
  import opened Safety
  import Heartbeat

  /** The payloads of the pongs queued, in order. */
  function PongsOf(log: seq<Pushed>): seq<Bytes> {
    if log == [] then []
    else
      var n := |log| - 1;
      PongsOf(log[..n]) + if log[n].kind == Reply || log[n].kind == Deferred then [log[n].frame.payload] else []
  }

  predicate Increasing(ns: seq<nat>) {
    forall i, j | 0 <= i < j < |ns| :: ns[i] < ns[j]
  }

  predicate Above(k: nat, ns: seq<nat>) {
    forall i | 0 <= i < |ns| :: ns[i] < k
  }

  /** The pongs queued answer the pings listed, in the order these were received. */
  predicate Answers(pongs: seq<Bytes>, pings: seq<Bytes>, answered: seq<nat>) {
    && |pongs| == |answered|
    && Increasing(answered)
    && (forall i | 0 <= i < |answered| :: answered[i] < |pings| && pongs[i] == pings[answered[i]])
  }

  /** `data` is ping number `k`, not yet answered. */
  predicate Owed(pings: seq<Bytes>, answered: seq<nat>, data: Bytes, k: nat) {
    k < |pings| && pings[k] == data && Above(k, answered)
  }

  predicate Replying(h: Held) {
    h.PongClear? || h.PongPush? || h.PongDefer? || h.FlushPush?
  }

  predicate PongAgrees(s: Link) {
    && Answers(PongsOf(s.out.log), s.past.pings, s.past.answered)
    && (s.out.q.pong.Some? <==> s.past.deferred.Some?)
    && (s.out.q.pong.Some? ==> Owed(s.past.pings, s.past.answered, s.out.q.pong.value, s.past.deferred.value))
    && (Replying(s.held) ==> Owed(s.past.pings, s.past.answered, s.held.data, s.held.ping))
    && (s.held.PongPush? || s.held.FlushPush? ==> s.past.deferred.None?)
    && (s.held.PongClear? || s.held.PongDefer? ==> s.held.ping == |s.past.pings| - 1)
    && (Answering(s.flags) && s.past.pings != [] ==> Remembered(s))
  }

  /** The latest ping was answered, is about to be, or is the one deferred pong. */
  predicate Remembered(s: Link)
    requires s.past.pings != []
  {
    var last := |s.past.pings| - 1;
    || (s.past.answered != [] && s.past.answered[|s.past.answered| - 1] == last)
    || s.past.deferred == Some(last)
    || (Replying(s.held) && s.held.ping == last)
  }

  lemma PongAppend(log: seq<Pushed>, p: Pushed)
    ensures PongsOf(log + [p])
         == PongsOf(log) + if p.kind == Reply || p.kind == Deferred then [p.frame.payload] else []
  {
    assert (log + [p])[..|log|] == log;
  }

  lemma AnswerAppend(pongs: seq<Bytes>, p: Past, data: Bytes, k: nat)
    requires Answers(pongs, p.pings, p.answered) && Owed(p.pings, p.answered, data, k)
    ensures Answers(pongs + [data], p.pings, p.answered + [k])
  {
  }

  lemma StepPong(c: Setup, s: Link, i: Inner)
    requires Living(s) && FinAgrees(s) && PongAgrees(s) && CanStep(c, s, i)
    ensures PongAgrees(DoStep(c, s, i))
  {
    hide DoStep, CanStep, Living, FinAgrees, PongAgrees;
    if i.PushPong? || i.PushFlushed? { ReplyPong(c, s, i); } else { OtherPong(c, s, i); }
  }

  lemma ReplyPong(c: Setup, s: Link, i: Inner)
    requires Living(s) && FinAgrees(s) && PongAgrees(s) && CanStep(c, s, i) && (i.PushPong? || i.PushFlushed?)
    ensures PongAgrees(DoStep(c, s, i))
  {
    hide Do, Fits, EncodedLen, MaySend, PongsOf, Answers;
    EffectAllowed(c, s, i);
    var a := Effect(c, s, i);
    DoGuards(s.out, a);
    PongAppend(s.out.log, a.p);
    AnswerAppend(PongsOf(s.out.log), s.past, s.held.data, s.held.ping);
  }

  lemma OtherPong(c: Setup, s: Link, i: Inner)
    requires Living(s) && FinAgrees(s) && PongAgrees(s) && CanStep(c, s, i) && !i.PushPong? && !i.PushFlushed?
    ensures PongAgrees(DoStep(c, s, i))
  {
    hide Do, Fits, EncodedLen, MaySend, PongsOf, Answers, Owed;
    EffectAllowed(c, s, i);
    var a := Effect(c, s, i);
    DoGuards(s.out, a);
    if a.Push? || a.PushDeferred? || a.PushProbe? {
      PongAppend(s.out.log, a.p);
      assert PongsOf(s.out.log) + [] == PongsOf(s.out.log);
    }
  }

  lemma PingArrives(p: Past, pongs: seq<Bytes>, data: Bytes)
    requires Answers(pongs, p.pings, p.answered)
    ensures Answers(pongs, p.pings + [data], p.answered)
    ensures Owed(p.pings + [data], p.answered, data, |p.pings|)
  {
  }

  lemma EnterPong(c: Setup, s: Link, e: Entry)
    requires Living(s) && PongAgrees(s) && CanEnter(c, s, e)
    ensures PongAgrees(DoEnter(c, s, e))
  {
    hide DoEnter, CanEnter, Living, PongAgrees;
    if e.GotPing? { PingPong(c, s, e); } else { QuietPong(c, s, e); }
  }

  lemma PingPong(c: Setup, s: Link, e: Entry)
    requires Living(s) && PongAgrees(s) && CanEnter(c, s, e) && e.GotPing?
    ensures PongAgrees(DoEnter(c, s, e))
  {
    hide Do, Fits, EncodedLen, MaySend, ValidStatus, PongsOf, Answers, Verdict, Heartbeat.Seen, EndStatus;
    EnterOut(c, s, e);
    DoGuards(s.out, EntryAct(s, e));
    PingArrives(s.past, PongsOf(s.out.log), e.data);
  }

  lemma QuietPong(c: Setup, s: Link, e: Entry)
    requires Living(s) && PongAgrees(s) && CanEnter(c, s, e) && !e.GotPing?
    ensures PongAgrees(DoEnter(c, s, e))
  {
    hide Do, Fits, EncodedLen, MaySend, ValidStatus, PongsOf, Answers, Owed, Verdict, Heartbeat.Seen, EndStatus;
    EnterOut(c, s, e);
    DoGuards(s.out, EntryAct(s, e));
  }

  lemma WorkPong(c: Setup, s: Link, w: Work)
    requires Living(s) && PongAgrees(s) && CanWork(c, s, w)
    ensures PongAgrees(DoWork(c, s, w))
  {
    hide Do, PongsOf, Answers, Owed, FlagsAgree, HeldAgrees, TaskAgrees, Progressed;
    DoGuards(s.out, Job(c, s, w));
  }

  lemma NextPong(c: Setup, s: Link, a: Action)
    requires Living(s) && FinAgrees(s) && PongAgrees(s) && Enabled(c, s, a)
    ensures PongAgrees(Next(c, s, a))
  {
    hide DoEnter, DoStep, DoWork, PongsOf, Answers, CanEnter, CanStep, CanWork, Living, Owed;
    match a
    case Enter(e) => EnterPong(c, s, e);
    case Inside(i) => StepPong(c, s, i);
    case Working(w) => WorkPong(c, s, w);
    case Around(w) =>
  }
}
