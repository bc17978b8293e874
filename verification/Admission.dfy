/**
  * Admission slots: a counter taken by compare-exchange and given back when the
  * last owner of a permit lets go, under every interleaving of its users.
  */
module Admission {
  import opened Basics

  /**
    * Who keeps a permit alive: the worker, the admission cell of a connection's events,
    * events being sent or undrained. Connection and handshake slots are both such
    * permits; a handshake slot has no cell, but its request event carries a share.
    */
  datatype Permit = Permit(worker: bool, admitted: bool, cell: bool, sending: nat, queued: nat, closed: bool)

  predicate Owned(p: Permit) {
    p.worker || p.cell || p.sending > 0 || p.queued > 0
  }

  datatype Desk = Desk(
    limit: nat,
    count: nat,                     // the shared counter
    attempts: map<nat, nat>,        // acquirers, with the count each saw last
    permits: map<nat, Permit>,      // permits not yet given back
    issued: nat)                    // permits ever issued, which also names them

  datatype Step =
    | Load(t: nat)
    | Exchange(t: nat, spurious: bool)
    | Admit(p: nat)
    | Send(p: nat, close: bool)
    | SendRequest(p: nat)
    | Sent(p: nat, ok: bool)
    | Drain(p: nat)
    | WorkerEnds(p: nat)
    | HandlesGone(p: nat)
    | GiveBack(p: nat)

  predicate Can(d: Desk, a: Step) {
    match a
    case Load(t) => t !in d.attempts
    case Exchange(t, _) => t in d.attempts
    case Admit(p) => p in d.permits && d.permits[p].worker && !d.permits[p].admitted
    case Send(p, _) => p in d.permits && d.permits[p].admitted
    case SendRequest(p) => p in d.permits && d.permits[p].worker && !d.permits[p].admitted
    case Sent(p, _) => p in d.permits && d.permits[p].sending > 0
    case Drain(p) => p in d.permits && d.permits[p].queued > 0
    case WorkerEnds(p) => p in d.permits && d.permits[p].worker
    case HandlesGone(p) => p in d.permits
    case GiveBack(p) => p in d.permits && !Owned(d.permits[p])
  }

  /** Sending takes a share of the slot; the final event takes the cell's own. */
  function Sends(p: Permit, close: bool): Permit {
    p.(sending := p.sending + (if p.cell then 1 else 0), cell := p.cell && !close, closed := p.closed || close)
  }

  function Take(d: Desk, a: Step): Desk
    requires Can(d, a)
  {
    match a
    case Load(t) => d.(attempts := d.attempts[t := d.count])
    case Exchange(t, spurious) =>
      var n := d.attempts[t];
      if n >= d.limit then d.(attempts := d.attempts - {t})
      else if n == d.count && !spurious then
        d.(count := n + 1, attempts := d.attempts - {t}, issued := d.issued + 1,
           permits := d.permits[d.issued := Permit(true, false, false, 0, 0, false)])
      else d.(attempts := d.attempts[t := d.count])
    case Admit(p) => d.(permits := d.permits[p := d.permits[p].(admitted := true, cell := true)])
    case Send(p, close) => d.(permits := d.permits[p := Sends(d.permits[p], close)])
    case SendRequest(p) => d.(permits := d.permits[p := d.permits[p].(sending := d.permits[p].sending + 1)])
    case Sent(p, ok) =>
      var q := d.permits[p];
      d.(permits := d.permits[p := q.(sending := q.sending - 1, queued := q.queued + if ok then 1 else 0)])
    case Drain(p) => d.(permits := d.permits[p := d.permits[p].(queued := d.permits[p].queued - 1)])
    case WorkerEnds(p) => d.(permits := d.permits[p := d.permits[p].(worker := false)])
    case HandlesGone(p) => d.(permits := d.permits[p := d.permits[p].(cell := false)])
    case GiveBack(p) =>
      d.(permits := d.permits - {p}, count := if d.count > 0 then d.count - 1 else 0xFFFF_FFFF_FFFF_FFFF)
  }

  /** The counter is the number of permits out, within the limit, and a closed handle keeps none. */
  predicate Fair(d: Desk) {
    && d.count == |d.permits| <= d.limit
    && (forall p | p in d.permits :: p < d.issued)
    && (forall p | p in d.permits && d.permits[p].closed :: !d.permits[p].cell && d.permits[p].admitted)
  }

  lemma UpdateFair(d: Desk, p: nat, q: Permit)
    requires Fair(d) && p in d.permits && (q.closed ==> !q.cell && q.admitted)
    ensures Fair(d.(permits := d.permits[p := q]))
  {
    assert d.permits[p := q].Keys == d.permits.Keys;
  }

  lemma ExchangeFair(d: Desk, t: nat, spurious: bool)
    requires Fair(d) && t in d.attempts
    ensures Fair(Take(d, Exchange(t, spurious)))
  {
    var grown := d.permits[d.issued := Permit(true, false, false, 0, 0, false)];
    assert d.issued !in d.permits;
    assert grown.Keys == d.permits.Keys + {d.issued};
  }

  lemma TakeFair(d: Desk, a: Step)
    requires Fair(d) && Can(d, a)
    ensures Fair(Take(d, a))
    ensures a.GiveBack? ==> d.count > 0
  {
    hide Fair;
    match a
    case Load(_) => assert Fair(Take(d, a)) by { LoadFair(d, Take(d, a).attempts); }
    case Exchange(t, spurious) => ExchangeFair(d, t, spurious);
    case GiveBack(p) => GiveBackFair(d, p);
    case _ =>
      FairPermit(d, a.p);
      UpdateFair(d, a.p, Take(d, a).permits[a.p]);
  }

  lemma LoadFair(d: Desk, attempts: map<nat, nat>)
    requires Fair(d)
    ensures Fair(d.(attempts := attempts))
  {
  }

  lemma FairPermit(d: Desk, p: nat)
    requires Fair(d) && p in d.permits
    ensures d.permits[p].closed ==> !d.permits[p].cell && d.permits[p].admitted
  {
  }

  lemma GiveBackFair(d: Desk, p: nat)
    requires Fair(d) && p in d.permits
    ensures d.count > 0 && Fair(d.(permits := d.permits - {p}, count := d.count - 1))
  {
    assert p in d.permits.Keys;
    assert (d.permits - {p}).Keys == d.permits.Keys - {p};
  }

  function After(limit: nat, steps: seq<Step>): Option<Desk> {
    if steps == [] then Some(Desk(limit, 0, map[], map[], 0))
    else
      var d := After(limit, steps[..|steps| - 1]);
      if d.Some? && Can(d.value, steps[|steps| - 1]) then Some(Take(d.value, steps[|steps| - 1])) else None
  }

  /** In every execution the counter is exact and within the limit. */
  lemma {:induction false} NeverOverAdmits(limit: nat, steps: seq<Step>)
    requires After(limit, steps).Some?
    ensures var d := After(limit, steps).value; d.limit == limit && Fair(d)
  {
    if steps == [] {
    } else {
      var n := |steps| - 1;
      NeverOverAdmits(limit, steps[..n]);
      TakeFair(After(limit, steps[..n]).value, steps[n]);
    }
  }

  /**
    * A retained handle does not retain capacity: once its final event was attempted,
    * the worker is gone and its events are drained, the slot can be given back, and
    * sending again through the handle cannot take it anew.
    */
  lemma ClosedHandleHoldsNothing(limit: nat, steps: seq<Step>, p: nat)
    requires After(limit, steps).Some?
    requires var d := After(limit, steps).value; p in d.permits && d.permits[p].closed
    ensures var d := After(limit, steps).value; var q := d.permits[p];
            && !q.cell
            && (forall close :: Sends(q, close).sending == q.sending && !Sends(q, close).cell)
            && (!q.worker && q.sending == 0 && q.queued == 0 ==>
                  Can(d, GiveBack(p)) && Take(d, GiveBack(p)).count == d.count - 1)
  {
    NeverOverAdmits(limit, steps);
    var d := After(limit, steps).value;
    if Can(d, GiveBack(p)) { TakeFair(d, GiveBack(p)); }
  }

  /** While an owner remains, the slot stays taken; a slot is lost only by giving it back. */
  lemma OwnedStays(d: Desk, a: Step, p: nat)
    requires Fair(d) && Can(d, a) && p in d.permits && Owned(d.permits[p])
    ensures p in Take(d, a).permits
  {
  }

  /**
    * A request retains its handshake slot even if its worker is gone: until the
    * application drains the event, no continuation gives the slot back.
    */
  lemma {:induction false} RequestRetains(limit: nat, steps: seq<Step>, more: seq<Step>, p: nat)
    requires After(limit, steps).Some? && After(limit, steps + more).Some?
    requires var d := After(limit, steps).value; p in d.permits && d.permits[p].queued > 0
    requires Drain(p) !in more
    ensures var d := After(limit, steps + more).value; p in d.permits && d.permits[p].queued > 0 && !Can(d, GiveBack(p))
    decreases more
  {
    hide Fair, Take;
    if more == [] {
      assert steps + more == steps;
    } else {
      var n := |more| - 1;
      assert (steps + more)[..|steps| + n] == steps + more[..n] && (steps + more)[|steps| + n] == more[n];
      assert more[n] in more;
      RequestRetains(limit, steps, more[..n], p);
      NeverOverAdmits(limit, steps + more[..n]);
      QueuedStays(After(limit, steps + more[..n]).value, more[n], p);
    }
  }

  lemma QueuedStays(d: Desk, a: Step, p: nat)
    requires Fair(d) && Can(d, a) && a != Drain(p) && p in d.permits && d.permits[p].queued > 0
    ensures p in Take(d, a).permits && Take(d, a).permits[p].queued > 0
  {
  }

  // ----- Who gets a permit -----

  /** The step is one in which the acquirer looks at the counter. */
  predicate Looks(a: Step, t: nat) {
    (a.Load? || a.Exchange?) && a.t == t
  }

  /** An acquirer goes by how many permits were out when it last looked. */
  lemma {:induction false} LookedAt(limit: nat, steps: seq<Step>, t: nat) returns (k: nat)
    requires After(limit, steps).Some? && t in After(limit, steps).value.attempts
    ensures k < |steps| && Looks(steps[k], t) && (forall j | k < j < |steps| :: !Looks(steps[j], t))
    ensures After(limit, steps[..k]).Some?
    ensures After(limit, steps).value.attempts[t] == |After(limit, steps[..k]).value.permits|
  {
    hide Fair, Take, Can, Looks;
    var n := |steps| - 1;
    NeverOverAdmits(limit, steps[..n]);
    LookStep(After(limit, steps[..n]).value, steps[n], t);
    if Looks(steps[n], t) {
      k := n;
    } else {
      k := LookedAt(limit, steps[..n], t);
      assert steps[..n][..k] == steps[..k];
      assert forall j | k < j < n :: steps[..n][j] == steps[j];
    }
  }

  lemma LookStep(d: Desk, a: Step, t: nat)
    requires Fair(d) && Can(d, a) && t in Take(d, a).attempts
    ensures !Looks(a, t) ==> t in d.attempts
    ensures Take(d, a).attempts[t] == if Looks(a, t) then |d.permits| else d.attempts[t]
  {
  }

  lemma FairCount(d: Desk)
    requires Fair(d)
    ensures d.count == |d.permits| <= d.limit
  {
  }

  /** Whoever comes looks at once. */
  lemma LoadLooks(limit: nat, steps: seq<Step>, t: nat)
    requires After(limit, steps).Some?
    ensures var d := After(limit, steps).value;
            t !in d.attempts ==> Can(d, Load(t)) && t in Take(d, Load(t)).attempts && Take(d, Load(t)).attempts[t] == |d.permits|
  {
    NeverOverAdmits(limit, steps);
  }

  predicate Granted(d: Desk, d': Desk) {
    d.issued !in d.permits && d'.permits == d.permits[d.issued := Permit(true, false, false, 0, 0, false)]
  }

  /**
    * What becomes of an acquirer: it gets a permit if the permits out are still those it saw, fewer than
    * the limit, and the exchange does not fail for no reason; it gives up if it saw the limit; else it looks again.
    */
  lemma ExchangeDecides(limit: nat, steps: seq<Step>, t: nat, spurious: bool)
    requires After(limit, steps).Some? && t in After(limit, steps).value.attempts
    ensures var d := After(limit, steps).value;
            var d', saw := Take(d, Exchange(t, spurious)), d.attempts[t];
            && (Granted(d, d') <==> saw == |d.permits| < limit && !spurious)
            && (t in d'.attempts <==> saw < limit && (saw != |d.permits| || spurious))
            && (t in d'.attempts ==> d'.attempts[t] == |d.permits|)
            && (!Granted(d, d') ==> d'.permits == d.permits)
  {
    NeverOverAdmits(limit, steps);
    var d := After(limit, steps).value;
    assert d.issued !in d.permits;
    var grown := d.permits[d.issued := Permit(true, false, false, 0, 0, false)];
    assert d.issued in grown;
  }

  /** An acquirer gives up only if at its last look as many permits were out as the limit allows. */
  lemma RefusedOnlyWhenFull(limit: nat, steps: seq<Step>, t: nat, spurious: bool) returns (k: nat)
    requires After(limit, steps).Some? && t in After(limit, steps).value.attempts
    requires var d := After(limit, steps).value;
             t !in Take(d, Exchange(t, spurious)).attempts && !Granted(d, Take(d, Exchange(t, spurious)))
    ensures k < |steps| && Looks(steps[k], t) && After(limit, steps[..k]).Some?
    ensures |After(limit, steps[..k]).value.permits| == limit
  {
    hide After, Take, Fair;
    k := LookedAt(limit, steps, t);
    ExchangeDecides(limit, steps, t, spurious);
    NeverOverAdmits(limit, steps[..k]);
    FairCount(After(limit, steps[..k]).value);
  }

  // ----- The ledger -----

  function Count(steps: seq<Step>, a: Step): nat {
    if steps == [] then 0 else Count(steps[..|steps| - 1], a) + if steps[|steps| - 1] == a then 1 else 0
  }

  /** The admission cell holds a share: it was filled and not emptied since. */
  predicate Filled(steps: seq<Step>, p: nat) {
    if steps == [] then false
    else
      var a := steps[|steps| - 1];
      if a == Admit(p) then true
      else if a == HandlesGone(p) || a == Send(p, true) then false
      else Filled(steps[..|steps| - 1], p)
  }

  /** How often a share went out with an event: one sent while the cell was filled, or a request. */
  function Shares(steps: seq<Step>, p: nat): nat {
    if steps == [] then 0
    else
      var n, a := |steps| - 1, steps[|steps| - 1];
      Shares(steps[..n], p) + if (a.Send? && a.p == p && Filled(steps[..n], p)) || a == SendRequest(p) then 1 else 0
  }

  /** What a permit records of an execution. */
  predicate Recorded(steps: seq<Step>, p: nat, q: Permit) {
    && (q.worker <==> Count(steps, WorkerEnds(p)) == 0)
    && (q.admitted <==> Count(steps, Admit(p)) > 0)
    && (q.closed <==> Count(steps, Send(p, true)) > 0)
    && q.queued + Count(steps, Drain(p)) == Count(steps, Sent(p, true))
  }

  /** And where its shares are. */
  predicate Shared(steps: seq<Step>, p: nat, q: Permit) {
    && (q.cell <==> Filled(steps, p))
    && q.sending + Count(steps, Sent(p, true)) + Count(steps, Sent(p, false)) == Shares(steps, p)
  }

  /** A permit is out if and only if it was issued and not given back; while it is out it records the execution. */
  predicate Kept(steps: seq<Step>, d: Desk, p: nat) {
    && (p in d.permits <==> p < d.issued && Count(steps, GiveBack(p)) == 0)
    && (p in d.permits ==> Recorded(steps, p, d.permits[p]) && Shared(steps, p, d.permits[p]))
    && (p >= d.issued ==> forall a | a in steps :: !Mentions(a, p))
  }

  predicate Mentions(a: Step, p: nat) {
    !a.Load? && !a.Exchange? && a.p == p
  }

  lemma {:induction false} NotCounted(steps: seq<Step>, p: nat, a: Step)
    requires (forall b | b in steps :: !Mentions(b, p)) && Mentions(a, p)
    ensures Count(steps, a) == 0 && !Filled(steps, p) && Shares(steps, p) == 0
  {
    if steps == [] {
    } else {
      assert steps[|steps| - 1] in steps;
      NotCounted(steps[..|steps| - 1], p, a);
    }
  }

  /** A permit that is issued has nothing on record. */
  lemma FreshKept(steps: seq<Step>, p: nat)
    requires forall a | a in steps :: !Mentions(a, p)
    ensures Recorded(steps, p, Permit(true, false, false, 0, 0, false)) && Shared(steps, p, Permit(true, false, false, 0, 0, false))
    ensures Count(steps, GiveBack(p)) == 0
  {
    hide Count, Filled, Shares;
    NotCounted(steps, p, WorkerEnds(p));
    NotCounted(steps, p, Admit(p));
    NotCounted(steps, p, Send(p, true));
    NotCounted(steps, p, Drain(p));
    NotCounted(steps, p, Sent(p, true));
    NotCounted(steps, p, Sent(p, false));
    NotCounted(steps, p, GiveBack(p));
  }

  /** Another's step changes nothing on record. */
  lemma OtherStep(steps: seq<Step>, p: nat, q: Permit)
    requires steps != [] && !Mentions(steps[|steps| - 1], p)
    ensures var before := steps[..|steps| - 1];
            && (Recorded(steps, p, q) <==> Recorded(before, p, q)) && (Shared(steps, p, q) <==> Shared(before, p, q))
            && Count(steps, GiveBack(p)) == Count(before, GiveBack(p))
  {
  }

  lemma OwnRecorded(steps: seq<Step>, d: Desk, p: nat)
    requires steps != [] && Can(d, steps[|steps| - 1]) && Mentions(steps[|steps| - 1], p)
    requires p in d.permits && Recorded(steps[..|steps| - 1], p, d.permits[p])
    ensures var d' := Take(d, steps[|steps| - 1]); p in d'.permits ==> Recorded(steps, p, d'.permits[p])
  {
    hide Count;
    CountStep(steps, WorkerEnds(p));
    CountStep(steps, Admit(p));
    CountStep(steps, Send(p, true));
    CountStep(steps, Drain(p));
    CountStep(steps, Sent(p, true));
  }

  lemma CountStep(steps: seq<Step>, a: Step)
    requires steps != []
    ensures Count(steps, a) == Count(steps[..|steps| - 1], a) + if steps[|steps| - 1] == a then 1 else 0
  {
  }

  lemma OwnShared(steps: seq<Step>, d: Desk, p: nat)
    requires steps != [] && Can(d, steps[|steps| - 1]) && Mentions(steps[|steps| - 1], p)
    requires p in d.permits && Shared(steps[..|steps| - 1], p, d.permits[p])
    ensures var d' := Take(d, steps[|steps| - 1]); p in d'.permits ==> Shared(steps, p, d'.permits[p])
  {
  }

  lemma OwnOut(steps: seq<Step>, d: Desk, p: nat)
    requires steps != [] && Can(d, steps[|steps| - 1]) && Mentions(steps[|steps| - 1], p)
    requires p in d.permits && Count(steps[..|steps| - 1], GiveBack(p)) == 0
    ensures var d' := Take(d, steps[|steps| - 1]);
            d'.issued == d.issued && (p in d'.permits <==> Count(steps, GiveBack(p)) == 0)
  {
  }

  lemma OthersOut(d: Desk, a: Step, p: nat)
    requires Can(d, a) && !Mentions(a, p)
    ensures var d' := Take(d, a);
            && d.issued <= d'.issued <= d.issued + 1
            && (p != d.issued ==> (p in d'.permits <==> p in d.permits))
            && (p in d.permits && p != d.issued ==> d'.permits[p] == d.permits[p])
            && (d'.issued == d.issued ==> d'.permits.Keys == d.permits.Keys - (if a.GiveBack? then {a.p} else {}))
            && (d'.issued > d.issued ==> d'.permits == d.permits[d.issued := Permit(true, false, false, 0, 0, false)])
  {
  }

  lemma KeptStep(steps: seq<Step>, d: Desk, p: nat)
    requires steps != [] && Kept(steps[..|steps| - 1], d, p) && Can(d, steps[|steps| - 1])
    ensures Kept(steps, Take(d, steps[|steps| - 1]), p)
  {
    hide Take, Can, Recorded, Shared, Count;
    var n := |steps| - 1;
    var a := steps[n];
    assert steps == steps[..n] + [a];
    if Mentions(a, p) {
      assert p in d.permits by { Mentioned(d, a, p); }
      OwnRecorded(steps, d, p);
      OwnShared(steps, d, p);
      OwnOut(steps, d, p);
    } else {
      OthersOut(d, a, p);
      OtherStep(steps, p, Permit(true, false, false, 0, 0, false));
      if p >= d.issued {
        FreshKept(steps, p);
      } else if p in d.permits {
        OtherStep(steps, p, d.permits[p]);
      }
    }
  }

  lemma Mentioned(d: Desk, a: Step, p: nat)
    requires Can(d, a) && Mentions(a, p)
    ensures p in d.permits
  {
  }

  /** In every execution, of every permit. */
  lemma {:induction false} Ledger(limit: nat, steps: seq<Step>, p: nat)
    requires After(limit, steps).Some?
    ensures Kept(steps, After(limit, steps).value, p)
  {
    hide Take, Can, Recorded, Shared;
    if steps == [] {
    } else {
      var n := |steps| - 1;
      Ledger(limit, steps[..n], p);
      KeptStep(steps, After(limit, steps[..n]).value, p);
    }
  }

  /** Events that carry a share and are being sent. */
  function UnderWay(steps: seq<Step>, p: nat): int {
    Shares(steps, p) - Count(steps, Sent(p, true)) - Count(steps, Sent(p, false))
  }

  /** Events that carry a share and were not drained. */
  function Undrained(steps: seq<Step>, p: nat): int {
    Count(steps, Sent(p, true)) - Count(steps, Drain(p))
  }

  /** Which step a permit allows, by what was done with it before. */
  predicate Allows(steps: seq<Step>, a: Step) {
    match a
    case Load(_) => true
    case Exchange(_, _) => true
    case Admit(p) => Count(steps, WorkerEnds(p)) == 0 && Count(steps, Admit(p)) == 0
    case Send(p, _) => Count(steps, Admit(p)) > 0
    case SendRequest(p) => Count(steps, WorkerEnds(p)) == 0 && Count(steps, Admit(p)) == 0
    case Sent(p, _) => UnderWay(steps, p) > 0
    case Drain(p) => Undrained(steps, p) > 0
    case WorkerEnds(p) => Count(steps, WorkerEnds(p)) == 0
    case HandlesGone(_) => true
    case GiveBack(p) =>
      Count(steps, WorkerEnds(p)) > 0 && !Filled(steps, p) && UnderWay(steps, p) == 0 && Undrained(steps, p) == 0
  }

  /**
    * In every execution a step of a permit is possible if and only if the permit is out and what was done with
    * it allows the step; it is given back exactly when its worker ended, its cell is empty and its events are drained.
    */
  lemma StepsExact(limit: nat, steps: seq<Step>, a: Step)
    requires After(limit, steps).Some? && !a.Load? && !a.Exchange?
    ensures var d := After(limit, steps).value;
            Can(d, a) <==> a.p < d.issued && Count(steps, GiveBack(a.p)) == 0 && Allows(steps, a)
  {
    hide Count, Filled, Shares, After;
    Ledger(limit, steps, a.p);
  }
}
