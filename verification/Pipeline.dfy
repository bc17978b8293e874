/** What the outbound path keeps about its shutdown, its deferred pongs and its probes. */
module Pipeline {
  import opened Framing
  import opened SendQueue
  import opened Outbound

  // ----- The shutdown comes last -----

  predicate ShutdownLast(items: seq<Item>) {
    forall i | 0 <= i < |items| :: items[i].Shutdown? ==> i == |items| - 1
  }

  /** At most one shutdown is ever queued, nothing follows it, and it closes a complete wire. */
  predicate Sealed(o: Out) {
    && ShutdownLast(o.w.batch) && ShutdownLast(o.q.items)
    && (o.fins == [] ==> Shutdown !in o.w.batch && Shutdown !in o.q.items && !o.shut && !o.q.shutdown)
    && (o.fins != [] ==> o.fins == [|o.log|])
    && (o.q.done ==> o.q.items == [] && !o.q.shutdown)
    && (!o.q.done && o.fins != [] ==>
          && o.q.shutdown == (Shutdown in o.w.batch || Shutdown in o.q.items)
          && (o.shut == !o.q.shutdown))
    && (Shutdown in o.w.batch ==> o.q.items == [] && o.mid == |o.log|)
    && (o.shut ==> o.w.batch == [] && o.q.items == [] && o.wire == EncodeLog(o.log))
  }

  lemma ShutSealed(o: Out)
    requires Ordered(o) && Sealed(o) && Allowed(o, Shut)
    ensures Sealed(Do(o, Shut))
  {
    hide EncodeLog;
    assert o.w.batch[0] in o.w.batch;
    assert o.w.batch == [Shutdown];
    assert o.log[..|o.log|] == o.log;
    assert Remaining(o.w) == [];
  }

  lemma QueueSealed(o: Out, a: Act)
    requires Ordered(o) && Sealed(o) && Allowed(o, a)
    requires a.Push? || a.PushDeferred? || a.PushProbe?
    ensures Sealed(Do(o, a))
  {
    hide EncodeLog, Encode, Remaining;
    var items := Do(o, a).q.items;
    forall i | 0 <= i < |items| && !o.q.done ensures !items[i].Shutdown? {
      if i < |o.q.items| {
        assert o.q.items[i] in o.q.items;
      }
    }
  }

  lemma NextSealed(o: Out, a: Act)
    requires Ordered(o) && Sealed(o) && Allowed(o, a)
    ensures Sealed(Do(o, a))
  {
    hide EncodeLog, Encode, Remaining, Joined;
    match a
    case Push(_) => QueueSealed(o, a);
    case PushDeferred(_) => QueueSealed(o, a);
    case PushProbe(_) => QueueSealed(o, a);
    case PushFin =>
      var items := Do(o, a).q.items;
      forall i | 0 <= i < |o.q.items| ensures !o.q.items[i].Shutdown? {
        assert o.fins == [] ==> o.q.items[i] in o.q.items;
      }
    case Swap =>
      assert forall i | 0 <= i < |o.q.items| :: o.q.items[i] in o.q.items;
    case Finish =>
      assert forall i | 0 <= i < |o.w.batch[1..]| :: o.w.batch[1..][i] == o.w.batch[i + 1];
      assert Shutdown in o.w.batch[1..] <==> Shutdown in o.w.batch;
    case Shut => ShutSealed(o);
    case _ =>
  }

  // ----- Counting frames by kind -----

  function Count(log: seq<Pushed>, k: Kind): nat {
    if log == [] then 0
    else Count(log[..|log| - 1], k) + (if log[|log| - 1].kind == k then 1 else 0)
  }

  lemma CountAppend(log: seq<Pushed>, p: Pushed, k: Kind)
    ensures Count(log + [p], k) == Count(log, k) + if p.kind == k then 1 else 0
  {
    assert (log + [p])[..|log|] == log;
  }

  lemma {:induction false} CountSplit(log: seq<Pushed>, n: nat, k: Kind)
    requires n <= |log|
    ensures Count(log, k) == Count(log[..n], k) + Count(log[n..], k)
  {
    if n == |log| {
      assert log[..n] == log && log[n..] == [];
    } else {
      var m := |log| - 1;
      CountSplit(log[..m], n, k);
      assert log[..m][..n] == log[..n] && log[..m][n..] == log[n..][..m - n];
      assert log[n..][m - n] == log[m];
    }
  }

  lemma {:induction false} CountSome(log: seq<Pushed>, i: nat, k: Kind)
    requires i < |log| && log[i].kind == k
    ensures Count(log, k) >= 1
  {
    if i < |log| - 1 {
      CountSome(log[..|log| - 1], i, k);
    }
  }

  // ----- At most two deferred pongs are unwritten -----

  /** One in the batch being written, one queued since. */
  predicate Paced(o: Out) {
    && o.prev <= o.mid <= |o.log|
    && Count(o.log[o.prev..o.mid], Deferred) <= 1
    && Count(o.log[o.mid..], Deferred) <= 1
    && (o.w.phase == Flushing ==> Count(o.log[o.mid..], Deferred) == 0)
  }

  lemma NextPaced(o: Out, a: Act)
    requires Paced(o) && Allowed(o, a)
    requires (a.Push? || a.PushProbe?) ==> a.p.kind != Deferred
    ensures Paced(Do(o, a))
  {
    hide Encode, Joined, Count;
    assert Count([], Deferred) == 0 by { CountNone(Deferred); }
    if (a.Push? || a.PushProbe? || a.PushDeferred?) && !o.q.done {
      var log' := o.log + [a.p];
      assert log'[o.prev..o.mid] == o.log[o.prev..o.mid];
      assert log'[o.mid..] == o.log[o.mid..] + [a.p];
      CountAppend(o.log[o.mid..], a.p, Deferred);
    } else if a.Swap? {
      assert o.log[|o.log|..] == [];
      assert o.log[o.mid..|o.log|] == o.log[o.mid..];
    }
  }

  lemma CountNone(k: Kind)
    ensures Count([], k) == 0
  {
  }

  // ----- At most one probe is unwritten -----

  function Pipe(o: Out): seq<Item> {
    o.w.batch + o.q.items
  }

  /** How far the wire reaches once the first `n` pipeline items are written. */
  function Reach(o: Out, n: nat): int
    requires n <= |Pipe(o)|
  {
    |o.wire| - o.w.at - o.w.wrote + |Content(Pipe(o)[..n])|
  }

  /** A queued probe sits exactly at the end of its frame in the log. */
  predicate Placed(o: Out, k: nat)
    requires k < |Pipe(o)|
  {
    var item := Pipe(o)[k];
    item.Beat? ==>
      && o.floor <= item.probe < |o.log| && o.log[item.probe].kind == Probe
      && Reach(o, k + 1) == |EncodeLog(o.log[..item.probe + 1])|
  }

  predicate Probing(o: Out) {
    && o.floor <= |o.log|
    && |EncodeLog(o.log[..o.floor])| <= o.progressed
    && Count(o.log[o.floor..], Probe) <= 1
    && (forall k | 0 <= k < |Pipe(o)| :: Placed(o, k))
    && (forall i, j | 0 <= i < |Pipe(o)| && 0 <= j < |Pipe(o)| :: Pipe(o)[i].Beat? && Pipe(o)[j].Beat? ==> i == j)
  }

  /** No probe is queued while every probe in the log was written. */
  lemma NoneQueued(o: Out)
    requires Probing(o) && Count(o.log[o.floor..], Probe) == 0
    ensures forall k | 0 <= k < |Pipe(o)| :: !Pipe(o)[k].Beat?
  {
    hide EncodeLog, Content, Count;
    forall k | 0 <= k < |Pipe(o)| ensures !Pipe(o)[k].Beat? {
      assert Placed(o, k);
      if Pipe(o)[k].Beat? {
        CountSome(o.log[o.floor..], Pipe(o)[k].probe - o.floor, Probe);
      }
    }
  }

  lemma SameItems(o: Out, o': Out)
    requires Probing(o)
    requires Pipe(o') == Pipe(o) && o'.log == o.log && o'.floor == o.floor && o'.progressed >= o.progressed
    requires |o'.wire| - o'.w.at - o'.w.wrote == |o.wire| - o.w.at - o.w.wrote
    ensures Probing(o')
  {
    hide EncodeLog, Content, Count;
    forall k | 0 <= k < |Pipe(o')| ensures Placed(o', k) {
      assert Placed(o, k);
    }
  }

  lemma DataProbing(o: Out, p: Pushed, o': Out)
    requires Probing(o) && !o.q.done && p.kind != Probe
    requires o'.log == o.log + [p] && o'.q.items == Joined(o.q.items, Encode(p.frame)) && o'.w.batch == o.w.batch
    requires o'.floor == o.floor && o'.progressed == o.progressed
    requires o'.wire == o.wire && o'.w.at == o.w.at && o'.w.wrote == o.w.wrote
    ensures Probing(o')
  {
    hide EncodeLog, Content, Encode, Count;
    assert o'.log[..o.floor] == o.log[..o.floor];
    assert o'.log[o.floor..] == o.log[o.floor..] + [p];
    CountAppend(o.log[o.floor..], p, Probe);
    var pipe, pipe' := Pipe(o), Pipe(o');
    forall k | 0 <= k < |pipe'| && pipe'[k].Beat? ensures k < |pipe| && pipe[k] == pipe'[k] && Placed(o', k) {
      assert Placed(o, k);
      assert pipe'[..k + 1] == pipe[..k + 1];
      assert o'.log[..pipe[k].probe + 1] == o.log[..pipe[k].probe + 1];
    }
  }

  lemma BeatProbing(o: Out, p: Pushed)
    requires Ordered(o) && Probing(o) && Allowed(o, PushProbe(p)) && !o.q.done && p.kind == Probe
    requires Count(o.log[o.floor..], Probe) == 0
    ensures Probing(Do(o, PushProbe(p)))
  {
    hide EncodeLog, Encode, Count, Content, Ordered;
    NoneQueued(o);
    var o' := Do(o, PushProbe(p));
    assert o'.log[..o.floor] == o.log[..o.floor];
    assert o'.log[o.floor..] == o.log[o.floor..] + [p];
    CountAppend(o.log[o.floor..], p, Probe);
    assert Pipe(o') == Pipe(o) + [Beat(Encode(p.frame), |o.log|)];
    assert Placed(o', |Pipe(o)|) by { BeatPlaced(o, p); }
  }

  lemma BeatPlaced(o: Out, p: Pushed)
    requires Ordered(o) && Allowed(o, PushProbe(p)) && !o.q.done && p.kind == Probe && o.floor <= |o.log|
    ensures Pipe(Do(o, PushProbe(p))) == Pipe(o) + [Beat(Encode(p.frame), |o.log|)]
    ensures Placed(Do(o, PushProbe(p)), |Pipe(o)|)
  {
    hide EncodeLog, Encode, Content, Ordered;
    var o' := Do(o, PushProbe(p));
    assert Pipe(o') == Pipe(o) + [Beat(Encode(p.frame), |o.log|)];
    assert Pipe(o')[..|Pipe(o)| + 1] == Pipe(o');
    assert o'.log[..|o.log| + 1] == o'.log;
    Total(o);
    ContentAppend(Pipe(o), Beat(Encode(p.frame), |o.log|));
    LogAppend(o.log, p);
  }

  /** The pipeline reaches to the end of the log. */
  lemma Total(o: Out)
    requires Ordered(o) && !o.q.done
    ensures |o.wire| - o.w.at - o.w.wrote + |Content(Pipe(o))| == |EncodeLog(o.log)|
  {
    hide EncodeLog;
    Outbound.Pipeline(o);
    ContentConcat(o.w.batch, o.q.items);
  }

  lemma {:induction false} ContentConcat(a: seq<Item>, b: seq<Item>)
    ensures Content(a + b) == Content(a) + Content(b)
  {
    if a == [] {
      assert a + b == b;
    } else {
      assert (a + b)[1..] == a[1..] + b;
      ContentConcat(a[1..], b);
    }
  }

  /** The log up to `n` is written and no probe lies behind it. */
  predicate Cleared(o: Out, n: nat) {
    && n <= |o.log|
    && |EncodeLog(o.log[..n])| <= o.progressed
    && Count(o.log[n..], Probe) == 0
  }

  /** Once the probe at the head is written, no probe behind it is in the log. */
  lemma HeadWritten(o: Out)
    requires o.w.batch != [] && o.w.batch[0].Beat?
    requires Allowed(o, Finish) && Ordered(o) && Probing(o)
    ensures Cleared(o, o.w.batch[0].probe + 1)
  {
    hide EncodeLog, Count;
    var head := o.w.batch[0];
    assert Placed(o, 0) && Pipe(o)[0] == head;
    assert Pipe(o)[..1] == [head];
    assert Content([head]) == head.bytes + Content([]);
    var log, n := o.log[o.floor..], head.probe + 1 - o.floor;
    CountSplit(log, n, Probe);
    assert log[n..] == o.log[head.probe + 1..];
    CountSome(log[..n], n - 1, Probe);
  }

  lemma PopPlaced(o: Out, a: Act, k: nat)
    requires Ordered(o) && Probing(o) && Allowed(o, a) && (a.Finish? || a.Shut?)
    requires k + 1 < |Pipe(o)| && Pipe(o)[k + 1].Beat?
    ensures Pipe(Do(o, a)) == Pipe(o)[1..] && Placed(Do(o, a), k)
  {
    hide EncodeLog, Count, Remaining;
    var o' := Do(o, a);
    assert Pipe(o') == Pipe(o)[1..];
    assert Placed(o, k + 1) && Pipe(o)[k + 1] == Pipe(o')[k];
    assert Pipe(o)[..k + 2][1..] == Pipe(o')[..k + 1];
  }

  lemma PopProbing(o: Out, a: Act)
    requires Ordered(o) && Probing(o) && Allowed(o, a) && (a.Finish? || a.Shut?)
    ensures Probing(Do(o, a))
  {
    hide EncodeLog, Count, Remaining, Content, Ordered;
    var o' := Do(o, a);
    assert Pipe(o') == Pipe(o)[1..];
    forall k | 0 <= k < |Pipe(o')| ensures Placed(o', k) {
      if Pipe(o)[k + 1].Beat? { PopPlaced(o, a, k); }
    }
    if a.Finish? && o.w.batch[0].Beat? {
      HeadWritten(o);
    }
  }

  lemma NextProbing(o: Out, a: Act)
    requires Ordered(o) && Probing(o) && Allowed(o, a)
    requires (a.Push? || a.PushDeferred?) ==> a.p.kind != Probe
    requires a.PushProbe? ==> a.p.kind == Probe && Count(o.log[o.floor..], Probe) == 0
    ensures Probing(Do(o, a))
  {
    hide EncodeLog, Encode, Remaining, Joined, Content, Count, Probing;
    var o' := Do(o, a);
    match a
    case Push(p) =>
      if !o.q.done { DataProbing(o, p, o'); }
    case PushDeferred(p) =>
      if !o.q.done { DataProbing(o, p, o'); } else { SameItems(o, o'); }
    case PushProbe(p) =>
      if !o.q.done { BeatProbing(o, p); }
    case PushFin =>
      if !o.q.done { FinProbing(o, o'); }
    case Stop => StopProbing(o, o');
    case Finish => PopProbing(o, a);
    case Shut => PopProbing(o, a);
    case Progress(_, _) => ProgressOrdered(o, a.limit, a.stamp); SameItems(o, o');
    case _ => SameItems(o, o');
  }

  lemma FinProbing(o: Out, o': Out)
    requires Probing(o)
    requires o'.q.items == o.q.items + [Shutdown] && o'.w == o.w && o'.log == o.log && o'.floor == o.floor
    requires o'.progressed == o.progressed && o'.wire == o.wire
    ensures Probing(o')
  {
    hide EncodeLog, Content, Count;
    forall k | 0 <= k < |Pipe(o')| && Pipe(o')[k].Beat? ensures k < |Pipe(o)| && Pipe(o)[k] == Pipe(o')[k] && Placed(o', k) {
      assert Placed(o, k);
      assert Pipe(o')[..k + 1] == Pipe(o)[..k + 1];
    }
  }

  lemma StopProbing(o: Out, o': Out)
    requires Probing(o)
    requires o'.q.items == [] && o'.w == o.w && o'.log == o.log && o'.floor == o.floor
    requires o'.progressed == o.progressed && o'.wire == o.wire
    ensures Probing(o')
  {
    hide EncodeLog, Content, Count;
    forall k | 0 <= k < |Pipe(o')| && Pipe(o')[k].Beat? ensures k < |Pipe(o)| && Pipe(o)[k] == Pipe(o')[k] && Placed(o', k) {
      assert Placed(o, k);
      assert Pipe(o')[..k + 1] == Pipe(o)[..k + 1];
    }
  }
}
