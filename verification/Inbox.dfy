/**
  * Inbound back-pressure: what a peer can make an application's inbox hold, as a
  * state machine of the reader task, the application and the lifecycle.
  */
module Inbox {
  import opened Basics
  import opened Framing
  import opened Parsing
  import opened Assembly
  import opened Decoding
  import opened Streams
  import opened SendQueue
  import Utf8

  const INBOX_LIMIT: nat := 0x10_0000
  const EVENT_COST: nat := 64
  const READ_CHUNK: nat := 16 * 1024

  /** Payload bytes a message hands to the application. */
  function Size(m: Msg): nat {
    if m.Close? then 0 else |m.data|
  }

  function Sizes(ms: seq<Msg>): nat {
    if ms == [] then 0 else Size(ms[0]) + Sizes(ms[1..])
  }

  function Held(p: Option<Partial>): nat {
    if p.Some? then |p.value.data| else 0
  }

  /** What assembling one frame costs: payload is either kept or handed over. */
  lemma AssembleCost(p: Option<Partial>, f: Frame)
    requires Formed(p)
    ensures var r := Assemble(p, f);
            && (r.Stored? ==> Held(r.partial) == Held(p) + |f.payload|)
            && (r.Delivered? ==> Size(r.msg) + Held(r.partial) <= Held(p) + |f.payload|)
  {
  }

  lemma FrameSize(b: Bytes, c: Config, pending: Option<nat>)
    requires Parse(b, c, pending).Got?
    ensures var Got(f, size) := Parse(b, c, pending); 2 + |f.payload| <= size <= |b|
  {
    hide Mask, FromBigEndian;
  }

  /** Every message costs two header bytes besides its payload. */
  lemma {:induction false} DecodeCost(c: Config, p: Option<Partial>, b: Bytes)
    requires Formed(p)
    ensures var ms := Decode(c, p, b).msgs;
            Sizes(ms) + 2 * |ms| <= Held(p) + |b| && 2 * |ms| <= |b|
    decreases |b|
  {
    hide Parse, Assemble;
    if Parse(b, c, Pending(p)).Got? {
      var Got(f, size) := Parse(b, c, Pending(p));
      FrameSize(b, c, Pending(p));
      AssembleCost(p, f);
      Unfold(c, p, b);
      var r := Assemble(p, f);
      if !r.Rejected? {
        DecodeCost(c, r.partial, b[size..]);
        if r.Delivered? {
          var rest := Decode(c, r.partial, b[size..]).msgs;
          assert ([r.msg] + rest)[1..] == rest;
        }
      }
    } else {
      assert Decode(c, p, b).msgs == [];
    }
  }

  lemma Unfold(c: Config, p: Option<Partial>, b: Bytes)
    requires Formed(p) && Parse(b, c, Pending(p)).Got?
    ensures var Got(f, size) := Parse(b, c, Pending(p));
            size <= |b| && Decode(c, p, b) == Followed(c, Assemble(p, f), b[size..])
  {
    hide Parse, Assemble, Decode, Encode;
    var Got(f, size) := Parse(b, c, Pending(p));
    ParseCanonical(b, c, Pending(p));
    assert b == Encode(f) + b[size..];
    DecodeStep(c, p, f, b[size..]);
  }

  /** The most one chunk can add to the inbox of a reader that was waiting. */
  function Burst(max: nat): nat {
    max + 125 + READ_CHUNK + EVENT_COST * (1 + READ_CHUNK / 2)
  }

  function Cost(ms: seq<Msg>): nat {
    Sizes(ms) + EVENT_COST * |ms|
  }

  lemma FirstFrame(c: Config, p: Option<Partial>, rest: Bytes, chunk: Bytes)
    requires Formed(p) && Parse(rest, c, Pending(p)).More? && Parse(rest + chunk, c, Pending(p)).Got?
    ensures |rest| < Parse(rest + chunk, c, Pending(p)).size
  {
    hide Parse, Encode;
    var b := rest + chunk;
    ParseCanonical(b, c, Pending(p));
    var Got(f, size) := Parse(b, c, Pending(p));
    if size <= |rest| {
      assert rest == b[..size] + rest[size..];
      ParseEncoded(f, rest[size..], c, Pending(p));
    }
  }

  /** One chunk completes at most the frame that was waited for and those wholly inside it. */
  lemma ChunkBurst(c: Config, p: Option<Partial>, rest: Bytes, chunk: Bytes)
    requires Sound(p, c.max) && Formed(p) && Parse(rest, c, Pending(p)).More? && |chunk| <= READ_CHUNK
    ensures Cost(Decode(c, p, rest + chunk).msgs) < Burst(c.max)
  {
    hide Parse, Assemble, Sound, Decode;
    var b := rest + chunk;
    if Parse(b, c, Pending(p)).Got? {
      var Got(f, size) := Parse(b, c, Pending(p));
      FirstFrame(c, p, rest, chunk);
      FrameSize(b, c, Pending(p));
      ParseCanonical(b, c, Pending(p));
      AssembleSound(p, f, c);
      Unfold(c, p, b);
      var r := Assemble(p, f);
      if !r.Rejected? {
        SoundFormed(r.partial, c.max);
        var later := Decode(c, r.partial, b[size..]).msgs;
        DecodeCost(c, r.partial, b[size..]);
        assert r.Delivered? ==> ([r.msg] + later)[1..] == later;
        FirstBurst(p, f, c);
      }
    } else {
      NoMessage(c, p, b);
    }
  }

  lemma NoMessage(c: Config, p: Option<Partial>, b: Bytes)
    requires Formed(p) && !Parse(b, c, Pending(p)).Got?
    ensures Decode(c, p, b).msgs == []
  {
  }

  /** A first frame yields at most a full message, or a control frame beside a full partial. */
  lemma FirstBurst(p: Option<Partial>, f: Frame, c: Config)
    requires Sound(p, c.max) && Formed(p) && Acceptable(f, c, Pending(p))
    ensures var r := Assemble(p, f);
            && (r.Stored? ==> Held(r.partial) <= c.max)
            && (r.Delivered? ==> Size(r.msg) + Held(r.partial) <= c.max + 125)
  {
    hide Utf8.Scan;
    AssembleSound(p, f, c);
  }

  // ----- The state machine -----

  datatype Phase = Dispatching | Checked | MayRead | Over

  /**
    * How far the reader is with one event: it reads the counter, then, if that is
    * full, the state, then adds the event's cost, then emits it. No lock covers two
    * of these. An addition is marked `late` if it was the state that cleared it.
    */
  datatype Delivery = Idle | Looking(size: nat) | Asking(size: nat) | Adding(size: nat, late: bool) | Emitting(cost: nat)

  datatype Desk = Desk(
    phase: Phase,
    open: bool,
    partial: Option<Partial>,
    rest: Bytes,
    delivery: Delivery,
    inbox: nat,
    owed: seq<nat>,           // costs of events emitted and not yet consumed
    lost: nat)                // costs of events added and then not accepted

  /** A connection starts with what came behind the handshake as its first chunk. */
  const Start := Desk(MayRead, true, None, [], Idle, 0, [], 0)

  datatype Step =
    | Dispatch(keep: bool)    // the next message; some are not for the application
    | ReadCounter
    | ReadState
    | Add
    | Emit(accepted: bool)
    | Permit                  // the check before reading
    | Read(chunk: Bytes)
    | Consume(i: nat)
    | LeaveOpen

  predicate Can(d: Desk, a: Step) {
    match a
    case Dispatch(_) => d.phase == Dispatching && d.delivery == Idle && Formed(d.partial)
    case ReadCounter => d.delivery.Looking?
    case ReadState => d.delivery.Asking?
    case Add => d.delivery.Adding?
    case Emit(_) => d.delivery.Emitting?
    case Permit => d.phase == Checked && (!d.open || d.inbox < INBOX_LIMIT)
    case Read(chunk) => d.phase == MayRead && |chunk| <= READ_CHUNK
    case Consume(i) => i < |d.owed|
    case LeaveOpen => true
  }

  function Take(c: Config, d: Desk, a: Step): Desk
    requires Can(d, a)
  {
    match a
    case Dispatch(keep) =>
      var n := Next(c, d.partial, d.rest);
      var d' := d.(partial := n.partial, rest := n.rest);
      (match n.out
       case Error(_) => d'.(phase := Over)
       case Nothing => d'.(phase := Checked)
       case Message(m) =>
         if m.Close? then d'.(phase := Over) else if keep then d'.(delivery := Looking(|m.data|)) else d')
    case ReadCounter =>
      var size := d.delivery.size;
      d.(delivery := if d.inbox < INBOX_LIMIT then Adding(size, false) else Asking(size))
    case ReadState => d.(delivery := if d.open then Adding(d.delivery.size, true) else Idle)
    case Add =>
      var cost := d.delivery.size + EVENT_COST;
      d.(delivery := Emitting(cost), inbox := d.inbox + cost)
    case Emit(accepted) =>
      var cost := d.delivery.cost;
      if accepted then d.(delivery := Idle, owed := d.owed + [cost]) else d.(delivery := Idle, lost := d.lost + cost)
    case Permit => d.(phase := MayRead)
    case Read(chunk) => d.(phase := Dispatching, rest := d.rest + chunk)
    case Consume(i) => d.(inbox := Less(d.inbox, d.owed[i]), owed := d.owed[..i] + d.owed[i + 1..])
    case LeaveOpen => d.(open := false)
  }

  function Sum(ns: seq<nat>): nat {
    if ns == [] then 0 else Sum(ns[..|ns| - 1]) + ns[|ns| - 1]
  }

  /** What the delivery in progress may still add. */
  function Coming(d: Delivery): nat {
    if d.Looking? || d.Asking? || d.Adding? then d.size + EVENT_COST else 0
  }

  /** What it added and did not yet emit. */
  function Between(d: Delivery): nat {
    if d.Emitting? then d.cost else 0
  }

  /** What is still to come of the bytes at hand. */
  function Due(c: Config, d: Desk): nat
    requires Formed(d.partial)
  {
    Coming(d.delivery) + Cost(Decode(c, d.partial, d.rest).msgs)
  }

  predicate Exact(d: Desk) {
    d.inbox == Sum(d.owed) + d.lost + Between(d.delivery)
  }

  /** The delivery in progress belongs to a dispatch, and no event is longer than a message may be. */
  predicate Placed(c: Config, d: Desk) {
    && (d.delivery != Idle ==> d.phase == Dispatching)
    && Coming(d.delivery) <= Max(c.max, 125) + EVENT_COST
    && (d.delivery.Adding? ==> d.inbox + Coming(d.delivery) < INBOX_LIMIT + Burst(c.max))
    && (d.delivery.Adding? && !d.delivery.late ==> d.inbox < INBOX_LIMIT)
  }

  ghost predicate Steady(c: Config, d: Desk) {
    && Formed(d.partial) && Exact(d) && Placed(c, d)
    && d.inbox < INBOX_LIMIT + Burst(c.max)
    && (d.phase != Over ==> Sound(d.partial, c.max))
    && (d.phase == Dispatching && d.open ==> d.inbox + Due(c, d) < INBOX_LIMIT + Burst(c.max))
    && (d.phase == Checked || d.phase == MayRead ==> Parse(d.rest, c, Pending(d.partial)).More?)
    && (d.phase == MayRead && d.open ==> d.inbox < INBOX_LIMIT)
  }

  lemma {:induction false} SumSplit(ns: seq<nat>, i: nat)
    requires i < |ns|
    ensures Sum(ns) == Sum(ns[..i] + ns[i + 1..]) + ns[i]
  {
    var n := |ns| - 1;
    var less := ns[..i] + ns[i + 1..];
    if i == n {
      assert less == ns[..n];
    } else {
      SumSplit(ns[..n], i);
      assert less[..n - 1] == ns[..n][..i] + ns[..n][i + 1..];
      assert less[n - 1] == ns[n];
    }
  }

  lemma SumAppend(ns: seq<nat>, n: nat)
    ensures Sum(ns + [n]) == Sum(ns) + n
  {
    assert (ns + [n])[..|ns|] == ns;
  }

  /** A message taken off the bytes at hand takes its cost off what is still to come. */
  lemma MessageCost(c: Config, p: Option<Partial>, b: Bytes)
    requires Formed(p) && Next(c, p, b).out.Message?
    ensures var n := Next(c, p, b);
            Cost(Decode(c, n.partial, n.rest).msgs) + Size(n.out.msg) + EVENT_COST <= Cost(Decode(c, p, b).msgs)
            || n.out.msg.Close?
  {
    hide Next, Parse;
    var n := Next(c, p, b);
    var later := Decode(c, n.partial, n.rest).msgs;
    assert ([n.out.msg] + later)[1..] == later;
  }

  lemma DispatchSteady(c: Config, d: Desk, keep: bool)
    requires Steady(c, d) && Can(d, Dispatch(keep))
    ensures Steady(c, Take(c, d, Dispatch(keep)))
  {
    hide Next, Parse, Sound, Decode, Cost, Sum;
    NextBounded(c, d.partial, d.rest);
    if Next(c, d.partial, d.rest).out.Message? { MessageCost(c, d.partial, d.rest); }
  }

  lemma DeliverSteady(c: Config, d: Desk, a: Step)
    requires Steady(c, d) && Can(d, a) && (a.ReadCounter? || a.ReadState? || a.Add? || a.Emit?)
    ensures Steady(c, Take(c, d, a))
  {
    hide Parse, Sound, Decode, Cost, Sum, Formed;
    if a.Emit? { SumAppend(d.owed, d.delivery.cost); }
  }

  lemma ReadSteady(c: Config, d: Desk, chunk: Bytes)
    requires Steady(c, d) && Can(d, Read(chunk))
    ensures Steady(c, Take(c, d, Read(chunk)))
  {
    hide Parse, Sound, Decode, Cost, Sum;
    ChunkBurst(c, d.partial, d.rest, chunk);
  }

  lemma ConsumeSteady(c: Config, d: Desk, i: nat)
    requires Steady(c, d) && Can(d, Consume(i))
    ensures Steady(c, Take(c, d, Consume(i)))
  {
    hide Parse, Sound, Decode, Cost, Sum, Formed;
    SumSplit(d.owed, i);
  }

  lemma RestSteady(c: Config, d: Desk, a: Step)
    requires Steady(c, d) && Can(d, a) && (a.Permit? || a.LeaveOpen?)
    ensures Steady(c, Take(c, d, a))
  {
    hide Parse, Sound, Decode, Cost, Sum, Formed;
  }

  lemma TakeSteady(c: Config, d: Desk, a: Step)
    requires Steady(c, d) && Can(d, a)
    ensures Steady(c, Take(c, d, a))
  {
    hide Take, Steady, Can;
    match a
    case Dispatch(keep) => DispatchSteady(c, d, keep);
    case Read(chunk) => ReadSteady(c, d, chunk);
    case Consume(i) => ConsumeSteady(c, d, i);
    case Permit => RestSteady(c, d, a);
    case LeaveOpen => RestSteady(c, d, a);
    case _ => DeliverSteady(c, d, a);
  }

  /** Where a list of steps leads, if each can be taken in its turn. */
  function After(c: Config, steps: seq<Step>): Option<Desk> {
    if steps == [] then Some(Start)
    else
      var d := After(c, steps[..|steps| - 1]);
      if d.Some? && Can(d.value, steps[|steps| - 1]) then Some(Take(c, d.value, steps[|steps| - 1])) else None
  }

  lemma {:induction false} AlwaysSteady(c: Config, steps: seq<Step>)
    requires After(c, steps).Some?
    ensures Steady(c, After(c, steps).value)
  {
    hide Take, Steady, Can;
    if steps == [] {
      StartSteady(c, Start);
    } else {
      var n := |steps| - 1;
      AlwaysSteady(c, steps[..n]);
      TakeSteady(c, After(c, steps[..n]).value, steps[n]);
    }
  }

  lemma StartSteady(c: Config, d: Desk)
    requires d == Start
    ensures Steady(c, d)
  {
    hide Steady;
    FreshSteady(c, d);
  }

  lemma FreshSteady(c: Config, d: Desk)
    requires d.phase == MayRead && d.open && d.partial == None && d.rest == [] && d.delivery == Idle
    requires d.inbox == 0 && d.owed == [] && d.lost == 0
    ensures Steady(c, d)
  {
    hide Parse, Decode, Cost, SoundText;
    EmptyWaits(c, None);
  }

  /**
    * In every state the inbox is exactly what was added and not consumed, so
    * acknowledging never underflows, and it stays below the limit plus one burst.
    */
  lemma InboxBounded(c: Config, steps: seq<Step>)
    requires After(c, steps).Some?
    ensures var d := After(c, steps).value;
            && d.inbox == Sum(d.owed) + d.lost + (if d.delivery.Emitting? then d.delivery.cost else 0)
            && d.inbox < 1_048_576 + c.max + 125 + 16_384 + 64 * 8_193
  {
    hide After, Parse, Sound, Decode;
    AlwaysSteady(c, steps);
  }

  // ----- What reaches the application -----

  /** The cost of the message that the step takes up for the application, if it does. */
  function Taken(c: Config, d: Desk, a: Step): seq<nat> {
    if a == Dispatch(true) && Formed(d.partial) then
      var out := Next(c, d.partial, d.rest).out;
      if out.Message? && !out.msg.Close? then [|out.msg.data| + 64] else []
    else []
  }

  /**
    * The costs of the messages for the application, in order, but for those turned away: the
    * inbox was full, and the state was looked at after the connection had left the open state.
    */
  function Wanted(c: Config, steps: seq<Step>): seq<nat>
    requires After(c, steps).Some?
  {
    if steps == [] then []
    else
      var n := |steps| - 1;
      var before := Wanted(c, steps[..n]);
      if steps[n] == ReadState && LeaveOpen in steps[..n] && before != [] then before[..|before| - 1]
      else before + Taken(c, After(c, steps[..n]).value, steps[n])
  }

  /** The costs of the events emitted, in order. */
  function Emitted(c: Config, steps: seq<Step>): seq<nat>
    requires After(c, steps).Some?
  {
    if steps == [] then []
    else
      var n := |steps| - 1;
      var d := After(c, steps[..n]).value;
      Emitted(c, steps[..n]) + if steps[n].Emit? then [d.delivery.cost] else []
  }

  /** The cost of the event in delivery. */
  function Underway(d: Delivery): seq<nat> {
    match d
    case Idle => []
    case Emitting(cost) => [cost]
    case _ => [d.size + 64]
  }

  lemma {:induction false} OpenUntilLeft(c: Config, steps: seq<Step>)
    requires After(c, steps).Some?
    ensures After(c, steps).value.open <==> LeaveOpen !in steps
  {
    hide Next, Can;
    if steps == [] {
    } else {
      var n := |steps| - 1;
      assert steps == steps[..n] + [steps[n]];
      OpenUntilLeft(c, steps[..n]);
    }
  }

  lemma UnderwayStep(c: Config, d: Desk, a: Step)
    requires Can(d, a) && (d.delivery != Idle ==> d.phase == Dispatching)
    ensures Underway(Take(c, d, a).delivery)
         == if a.Emit? || (a == ReadState && !d.open) then [] else Underway(d.delivery) + Taken(c, d, a)
    ensures a.Emit? ==> Underway(d.delivery) == [d.delivery.cost]
    ensures a == ReadState ==> |Underway(d.delivery)| == 1
    ensures a.Emit? || a == ReadState ==> Taken(c, d, a) == []
  {
    hide Next;
  }

  /**
    * Every message for the application is emitted, in order and at its cost, or is the one in delivery;
    * none is lost but those that a full inbox turns away once the connection is no longer open.
    */
  lemma {:induction false} EmittedExactly(c: Config, steps: seq<Step>)
    requires After(c, steps).Some?
    ensures Wanted(c, steps) == Emitted(c, steps) + Underway(After(c, steps).value.delivery)
  {
    hide Take, Can, Underway, Taken;
    if steps == [] {
      assert Underway(Start.delivery) == [] by { NothingUnderway(Start.delivery); }
    } else {
      var n := |steps| - 1;
      var d, a := After(c, steps[..n]).value, steps[n];
      EmittedExactly(c, steps[..n]);
      OpenUntilLeft(c, steps[..n]);
      AlwaysSteady(c, steps[..n]);
      UnderwayStep(c, d, a);
      var before := Wanted(c, steps[..n]);
      if a == ReadState && !d.open {
        assert before[..|before| - 1] == Emitted(c, steps[..n]);
      }
    }
  }

  /** The costs of the events that the application was given and has not acknowledged. */
  function Unacknowledged(c: Config, steps: seq<Step>): seq<nat>
    requires After(c, steps).Some?
  {
    if steps == [] then []
    else
      var n := |steps| - 1;
      var before := Unacknowledged(c, steps[..n]);
      match steps[n]
      case Emit(true) => before + [After(c, steps[..n]).value.delivery.cost]
      case Consume(i) => if i < |before| then before[..i] + before[i + 1..] else before
      case _ => before
  }

  /** The costs of the events that no one took. */
  function Untaken(c: Config, steps: seq<Step>): nat
    requires After(c, steps).Some?
  {
    if steps == [] then 0
    else
      var n := |steps| - 1;
      Untaken(c, steps[..n]) + if steps[n] == Emit(false) then After(c, steps[..n]).value.delivery.cost else 0
  }

  lemma OwedStep(c: Config, d: Desk, a: Step)
    requires Can(d, a)
    ensures Take(c, d, a).owed == match a case Emit(true) => d.owed + [d.delivery.cost]
                                          case Consume(i) => d.owed[..i] + d.owed[i + 1..]
                                          case _ => d.owed
    ensures Take(c, d, a).lost == d.lost + if a == Emit(false) then d.delivery.cost else 0
  {
    hide Next;
  }

  /** In every execution the counter holds the unacknowledged events, in order, and those that no one took. */
  lemma {:induction false} OwedExactly(c: Config, steps: seq<Step>)
    requires After(c, steps).Some?
    ensures After(c, steps).value.owed == Unacknowledged(c, steps) && After(c, steps).value.lost == Untaken(c, steps)
  {
    hide Take;
    if steps == [] {
    } else {
      var n := |steps| - 1;
      OwedExactly(c, steps[..n]);
      OwedStep(c, After(c, steps[..n]).value, steps[n]);
    }
  }

  lemma NothingUnderway(d: Delivery)
    requires d == Idle
    ensures Underway(d) == []
  {
  }

  /** A look at the counter clears an event below one mebibyte; a full counter makes the reader look at the state. */
  lemma CounterDecides(c: Config, d: Desk)
    requires Can(d, ReadCounter)
    ensures Take(c, d, ReadCounter).delivery.Adding? <==> d.inbox < 1_048_576
    ensures Take(c, d, ReadCounter).delivery.Asking? <==> d.inbox >= 1_048_576
  {
  }

  /** While the connection is open nothing more is read at one mebibyte; once it closes, reading goes on. */
  lemma ReadingPauses(c: Config, steps: seq<Step>)
    requires After(c, steps).Some? && After(c, steps).value.phase == Checked
    ensures Can(After(c, steps).value, Permit) <==> LeaveOpen in steps || After(c, steps).value.inbox < 1_048_576
  {
    hide After;
    OpenUntilLeft(c, steps);
  }

  // ----- A full inbox while closing -----

  /** The step raises a full inbox although the connection is no longer open. */
  predicate Overfills(c: Config, d: Desk, a: Step) {
    Can(d, a) && !d.open && d.inbox >= INBOX_LIMIT && Take(c, d, a).inbox > d.inbox
  }

  /** An addition that a look at the open connection cleared is still to be made. */
  predicate LatePending(d: Desk) {
    d.delivery.Adding? && d.delivery.late
  }

  /** A full inbox of a closing connection grows by exactly the additions that were cleared while it was open. */
  lemma OverfillsExactly(c: Config, steps: seq<Step>, a: Step)
    requires After(c, steps).Some?
    requires var d := After(c, steps).value; Can(d, a) && !d.open && d.inbox >= INBOX_LIMIT
    ensures var d := After(c, steps).value; Overfills(c, d, a) <==> a.Add? && LatePending(d)
  {
    hide Next, After, Parse, Sound, Decode;
    AlwaysSteady(c, steps);
    match a
    case Consume(i) => SumSplit(After(c, steps).value.owed, i);
    case _ =>
  }

  /** Once the connection left the open state with no such addition pending, there will never be one. */
  predicate Settled(d: Desk) {
    !d.open && !LatePending(d)
  }

  lemma SettledStays(c: Config, d: Desk, a: Step)
    requires Settled(d) && Can(d, a)
    ensures Settled(Take(c, d, a))
  {
    hide Next;
  }

  lemma {:induction false} AlwaysSettled(c: Config, steps: seq<Step>, k: nat)
    requires k <= |steps| && After(c, steps).Some? && After(c, steps[..k]).Some? && Settled(After(c, steps[..k]).value)
    ensures Settled(After(c, steps).value)
    decreases |steps|
  {
    hide Take, Can, Settled;
    if k == |steps| {
      assert steps[..k] == steps;
    } else {
      var n := |steps| - 1;
      assert steps[..n][..k] == steps[..k];
      AlwaysSettled(c, steps[..n], k);
      SettledStays(c, After(c, steps[..n]).value, steps[n]);
    }
  }

  /** With no such addition pending when the connection leaves the open state, a full inbox never grows again. */
  lemma FullNeverGrows(c: Config, steps: seq<Step>, k: nat, a: Step)
    requires k <= |steps| && After(c, steps).Some? && After(c, steps[..k]).Some? && Settled(After(c, steps[..k]).value)
    ensures !Overfills(c, After(c, steps).value, a)
  {
    hide After, Take, Can;
    AlwaysSettled(c, steps, k);
    if Overfills(c, After(c, steps).value, a) { OverfillsExactly(c, steps, a); }
  }

  /** And otherwise it grows by one event at most: no execution overfills twice. */
  lemma OverfillsOnce(c: Config, steps: seq<Step>, i: nat, a: Step)
    requires i < |steps| && After(c, steps).Some? && After(c, steps[..i]).Some?
    requires Overfills(c, After(c, steps[..i]).value, steps[i])
    ensures !Overfills(c, After(c, steps).value, a)
  {
    hide After, Can, Next;
    OverfillsExactly(c, steps[..i], steps[i]);
    Extends(c, steps[..i], steps[i]);
    assert steps[..i] + [steps[i]] == steps[..i + 1];
    FullNeverGrows(c, steps, i + 1, a);
  }

  lemma Extends(c: Config, steps: seq<Step>, a: Step)
    requires After(c, steps).Some? && Can(After(c, steps).value, a)
    ensures After(c, steps + [a]) == Some(Take(c, After(c, steps).value, a))
  {
    hide Take, Can;
    assert (steps + [a])[..|steps|] == steps;
  }

  // ----- An execution in which a full inbox grows while closing -----

  /** The reader's state when a chunk has arrived, nothing having been delivered before. */
  predicate Holding(d: Desk, phase: Phase, b: Bytes) {
    d == Start.(phase := phase, rest := b)
  }

  /** Reading the first bytes of a frame, chunk by chunk, delivers nothing. */
  lemma {:induction false} ReadsOn(c: Config, f: Frame, n: nat) returns (steps: seq<Step>)
    requires Acceptable(f, c, None) && n < |Encode(f)|
    ensures After(c, steps).Some? && Holding(After(c, steps).value, MayRead, Encode(f)[..n])
    decreases n
  {
    hide After, Parse, Encode, Acceptable, Decode, Next;
    if n == 0 {
      steps := [];
      assert After(c, steps) == Some(Start) by { NoSteps(c); }
      assert Encode(f)[..0] == [];
    } else {
      var m := if n <= READ_CHUNK then 0 else n - READ_CHUNK;
      var before := ReadsOn(c, f, m);
      var chunk := Encode(f)[m..n];
      var d := After(c, before).value;
      assert Encode(f)[..m] + chunk == Encode(f)[..n];
      Extends(c, before, Read(chunk));
      ShortFrameWaits(c, None, f, Encode(f)[..n]);
      Waits(c, Encode(f)[..n]);
      Extends(c, before + [Read(chunk)], Dispatch(true));
      Extends(c, before + [Read(chunk)] + [Dispatch(true)], Permit);
      steps := before + [Read(chunk)] + [Dispatch(true)] + [Permit];
    }
  }

  lemma NoSteps(c: Config)
    ensures After(c, []) == Some(Start)
  {
  }

  lemma Waits(c: Config, b: Bytes)
    requires Parse(b, c, None).More?
    ensures Next(c, None, b) == Turn(Nothing, None, b)
  {
  }

  lemma TakesBinary(c: Config, f: Frame, rest: Bytes)
    requires Acceptable(f, c, None) && f.op == BINARY && f.fin
    ensures Next(c, None, Encode(f) + rest) == Turn(Message(Binary(f.payload)), None, rest)
  {
    hide Parse, Encode;
    ParseEncoded(f, rest, c, None);
    assert (Encode(f) + rest)[|Encode(f)|..] == rest;
  }

  /** Both frames are at hand, and nothing was delivered yet. */
  lemma BothArrive(c: Config, f: Frame, g: Frame) returns (steps: seq<Step>)
    requires Acceptable(f, c, None) && 1 + |Encode(g)| <= READ_CHUNK && Encode(f) != []
    ensures After(c, steps).Some? && Holding(After(c, steps).value, Dispatching, Encode(f) + Encode(g))
  {
    hide After, Encode, Acceptable;
    var n := |Encode(f)| - 1;
    var before := ReadsOn(c, f, n);
    var chunk := Encode(f)[n..] + Encode(g);
    assert Encode(f)[..n] + chunk == Encode(f) + Encode(g);
    Extends(c, before, Read(chunk));
    steps := before + [Read(chunk)];
  }

  /** The first is delivered, which fills the inbox; the second is at hand. */
  lemma FirstDelivered(c: Config, f: Frame, g: Frame, steps: seq<Step>) returns (more: seq<Step>)
    requires Acceptable(f, c, None) && f.op == BINARY && f.fin && |f.payload| >= INBOX_LIMIT
    requires After(c, steps).Some? && Holding(After(c, steps).value, Dispatching, Encode(f) + Encode(g))
    ensures After(c, more).Some?
    ensures var d := After(c, more).value;
            && d.phase == Dispatching && d.open && d.partial == None && d.rest == Encode(g) && d.delivery == Idle
            && d.inbox >= INBOX_LIMIT
  {
    hide After, Encode, Acceptable, Next;
    TakesBinary(c, f, Encode(g));
    Extends(c, steps, Dispatch(true));
    Extends(c, steps + [Dispatch(true)], ReadCounter);
    Extends(c, steps + [Dispatch(true)] + [ReadCounter], Add);
    Extends(c, steps + [Dispatch(true)] + [ReadCounter] + [Add], Emit(true));
    more := steps + [Dispatch(true)] + [ReadCounter] + [Add] + [Emit(true)];
  }

  /** The second is looked at while the connection is open, which it then no longer is. */
  lemma SecondCleared(c: Config, g: Frame, steps: seq<Step>) returns (more: seq<Step>)
    requires Acceptable(g, c, None) && g.op == BINARY && g.fin && After(c, steps).Some?
    requires var d := After(c, steps).value;
             && d.phase == Dispatching && d.open && d.partial == None && d.rest == Encode(g) && d.delivery == Idle
             && d.inbox >= INBOX_LIMIT
    ensures After(c, more).Some? && Overfills(c, After(c, more).value, Add)
  {
    hide After, Encode, Acceptable, Next;
    TakesBinary(c, g, []);
    assert Encode(g) + [] == Encode(g);
    Extends(c, steps, Dispatch(true));
    Extends(c, steps + [Dispatch(true)], ReadCounter);
    Extends(c, steps + [Dispatch(true)] + [ReadCounter], ReadState);
    Extends(c, steps + [Dispatch(true)] + [ReadCounter] + [ReadState], LeaveOpen);
    more := steps + [Dispatch(true)] + [ReadCounter] + [ReadState] + [LeaveOpen];
  }

  /**
    * A full inbox can grow while closing: a message of the inbox's size is followed by
    * an empty one, which the reader clears while the connection is open and adds when
    * another thread has begun to close it.
    */
  lemma FullInboxGrows(c: Config) returns (steps: seq<Step>)
    requires !c.server && c.max >= INBOX_LIMIT
    ensures After(c, steps).Some? && Overfills(c, After(c, steps).value, Add)
  {
    hide After, Overfills, Encode;
    var f := Frame(true, BINARY, None, seq(INBOX_LIMIT, i => 0));
    var g := Frame(true, BINARY, None, []);
    EncodedLength(f);
    EncodedLength(g);
    var arrived := BothArrive(c, f, g);
    var filled := FirstDelivered(c, f, g, arrived);
    steps := SecondCleared(c, g, filled);
  }
}
