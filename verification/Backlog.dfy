/** How much a slow peer can make a connection buffer. */
module Backlog {
  import opened Basics
  import opened Framing
  import opened SendQueue
  import opened Outbound
  import opened Pipeline

  /** The part of a frame at offset `start` that lies behind the first `done` bytes. */
  function Clip(start: nat, len: nat, done: nat): nat {
    if done <= start then len else if done < start + len then start + len - done else 0
  }

  /** Bytes of frames of the given kinds that are not yet accounted for. */
  function Unwritten(log: seq<Pushed>, done: nat, kinds: set<Kind>): nat {
    if log == [] then 0
    else
      var n := |log| - 1;
      Unwritten(log[..n], done, kinds)
      + if log[n].kind in kinds then Clip(|EncodeLog(log[..n])|, |Encode(log[n].frame)|, done) else 0
  }

  const ORDINARY: set<Kind> := {App, Reply}

  lemma LogLast(log: seq<Pushed>)
    requires log != []
    ensures var n := |log| - 1;
            |EncodeLog(log)| == |EncodeLog(log[..n])| + |Encode(log[n].frame)|
  {
    hide EncodeLog, Encode;
    var n := |log| - 1;
    assert log == log[..n] + [log[n]];
    LogAppend(log[..n], log[n]);
  }

  lemma UnwrittenAppend(log: seq<Pushed>, p: Pushed, done: nat, kinds: set<Kind>)
    requires done <= |EncodeLog(log)|
    ensures Unwritten(log + [p], done, kinds)
         == Unwritten(log, done, kinds) + if p.kind in kinds then |Encode(p.frame)| else 0
  {
    hide EncodeLog, Encode;
    assert (log + [p])[..|log|] == log;
  }

  lemma {:induction false} UnwrittenShrinks(log: seq<Pushed>, done: nat, done': nat, kinds: set<Kind>)
    requires done <= done'
    ensures Unwritten(log, done', kinds) <= Unwritten(log, done, kinds)
  {
    hide EncodeLog, Encode;
    if log == [] {
    } else {
      UnwrittenShrinks(log[..|log| - 1], done, done', kinds);
    }
  }

  /** Ordinary and extra frames together are everything unwritten. */
  lemma {:induction false} UnwrittenTotal(log: seq<Pushed>, done: nat)
    ensures Unwritten(log, done, ORDINARY) + Unwritten(log, done, {Deferred}) + Unwritten(log, done, {Probe})
          + Unwritten(log, done, {Final}) == Max(0, |EncodeLog(log)| - done)
  {
    hide EncodeLog, Encode;
    if log == [] {
      LogEmpty();
    } else {
      UnwrittenTotal(log[..|log| - 1], done);
      LogLast(log);
      match log[|log| - 1].kind
      case App =>
      case Reply =>
      case Deferred =>
      case Probe =>
      case Final =>
    }
  }

  lemma {:induction false} AllWritten(log: seq<Pushed>, done: nat, k: Kind)
    requires |EncodeLog(log)| <= done
    ensures Unwritten(log, done, {k}) == 0
  {
    hide EncodeLog, Encode;
    if log == [] {
    } else {
      LogLast(log);
      AllWritten(log[..|log| - 1], done, k);
    }
  }

  /** Only frames behind the first `i` count, and each for at most `cap` bytes. */
  lemma {:induction false} UnwrittenCapped(log: seq<Pushed>, done: nat, k: Kind, i: nat, cap: nat)
    requires i <= |log| && |EncodeLog(log[..i])| <= done
    requires forall p | p in log && p.kind == k :: |Encode(p.frame)| <= cap
    ensures Unwritten(log, done, {k}) <= cap * Count(log[i..], k)
  {
    hide EncodeLog, Encode;
    if log == [] {
    } else {
      var n := |log| - 1;
      if i == |log| {
        assert log[..i] == log && log[i..] == [];
        AllWritten(log, done, k);
      } else {
        assert log[..n][..i] == log[..i] && log[..n][i..] == log[i..n];
        UnwrittenCapped(log[..n], done, k, i, cap);
        assert log[i..] == log[i..n] + [log[n]];
        CountAppend(log[i..n], log[n], k);
        assert log[n] in log;
        Distribute(cap, Count(log[i..n], k));
      }
    }
  }

  lemma Distribute(cap: nat, n: nat)
    ensures cap * (n + 1) == cap * n + cap
  {
  }

  /** The sizes of the frames that are queued whatever the limit. */
  predicate Small(log: seq<Pushed>) {
    forall p | p in log ::
      && (p.kind == Deferred || p.kind == Final ==> |Encode(p.frame)| <= 131)
      && (p.kind == Probe ==> |Encode(p.frame)| <= 14)
  }

  /**
    * Besides ordinary frames the buffer holds at most one close frame, one probe
    * and two deferred pongs.
    */
  lemma BufferedBound(o: Out, bound: nat)
    requires Ordered(o) && Paced(o) && Probing(o) && Small(o.log)
    requires Count(o.log, Final) <= 1
    requires Unwritten(o.log, o.progressed, ORDINARY) <= bound
    ensures o.q.buffered <= bound + 131 + 14 + 262
  {
    hide EncodeLog, Encode, Unwritten, Count, Content, Remaining;
    UnwrittenTotal(o.log, o.progressed);
    LogEmpty();
    assert o.log[..0] == [] && o.log[0..] == o.log;
    UnwrittenCapped(o.log, o.progressed, Final, 0, 131);
    UnwrittenCapped(o.log, o.progressed, Probe, o.floor, 14);
    UnwrittenCapped(o.log, o.progressed, Deferred, o.prev, 131);
    CountSplit(o.log[o.prev..], o.mid - o.prev, Deferred);
    assert o.log[o.prev..][..o.mid - o.prev] == o.log[o.prev..o.mid];
    assert o.log[o.prev..][o.mid - o.prev..] == o.log[o.mid..];
  }
}
