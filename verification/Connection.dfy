/**
  * A connection shared by application threads, a reader task and a writer task.
  *
  * Its flags are guarded by one lock, so at most one section holding it is in
  * progress; `held` says which. A section consists of the steps it takes under
  * the queue lock, and the writer's own steps may come between any two of them.
  * An execution is a list of actions, each an atomic step of one of the tasks.
  */
module Connection {
  import opened Basics
  import opened Framing
  import opened SendQueue
  import opened Outbound
  import Parsing
  import Heartbeat
  import Utf8

  const CLOSE_TIMEOUT: nat := 5_000_000_000
  const PONG_LIMIT: nat := 0x10_0000

  datatype Setup = Setup(server: bool, limit: nat, heartbeat: Option<nat>, token: Bytes)

  /** Settings are checked before a connection is made: a heartbeat interval is positive. */
  predicate Sane(c: Setup) {
    |c.token| == 8 && (c.heartbeat.Some? ==> c.heartbeat.value > 0)
  }

  datatype State = Connecting | Open | Closing | Closed

  datatype Flags = Flags(
    state: State,
    sentClose: bool,
    received: Option<(nat, Bytes)>,
    failed: Option<nat>,
    deadline: Option<nat>)

  /** The section that holds the flags lock, at its next step. */
  datatype Held =
    | Free
    | SendRecheck(op: Nibble, payload: Bytes)
    | SendPush(op: Nibble, payload: Bytes)
    | ClosePush(payload: Bytes, fin: bool)
    | FinPush
    | PongClear(data: Bytes, ping: nat)
    | PongPush(data: Bytes, ping: nat)
    | PongDefer(data: Bytes, ping: nat)
    | BeatPush
    | FlushTake
    | FlushPush(data: Bytes, ping: nat)

  /** The reader task: not started, in its loop, flushing the close reply, or past it. */
  datatype Task = Unborn | Looping(ok: bool) | Draining | Leaving

  datatype Event = Opened | Delivered | Errored | Drained | Ended(code: nat, reason: Bytes)

  datatype Notice = Refused(len: nat) | Freed

  /** What made this side queue its close frame. */
  datatype Cause = Undecided | Asked(code: nat, reason: Bytes) | Replied | Faulted

  /** A heartbeat check that gave the peer up, with all it went by. */
  datatype Drop = Drop(at: nat, ping: Option<Heartbeat.Probe>, sent: Option<nat>, written: nat, heard: set<nat>)

  /** How the connection ended. */
  datatype Ending = Going | Gone(who: By, known: Known)

  /** The heartbeat's state: `due` once a ping was decided on. */
  datatype Beats = Beats(alive: Heartbeat.Alive, due: bool, sent: map<nat, nat>)

  /** Who ends a connection: a caller that drops it, the heartbeat, or the reading or writing task when it is done. */
  datatype By = ByCaller | ByHeart | ByTask

  /** The outcome of a conversation, as far as it is known. */
  datatype Known = Known(received: Option<(nat, Bytes)>, failed: Option<nat>)

  /** The surroundings: the application's hub, the stop signal, clocks. */
  datatype Env = Env(
    hub: bool, stopDue: bool, stopped: bool, flushed: bool,
    now: nat, written: nat, received: Option<nat>)

  /** What happened so far. */
  datatype Past = Past(
    events: seq<Event>,       // events the application's hub accepted
    pings: seq<Bytes>,        // pings received
    answered: seq<nat>,       // which of them were answered, in order
    deferred: Option<nat>,    // which of them the deferred pong answers
    notices: seq<Notice>,     // refused sends and the notices that followed
    largest: nat,             // the longest frame an application send was given
    endHub: bool,             // whether the hub still listened when the connection ended
    heard: set<nat>,          // when inbound bytes were seen
    cause: Cause,
    drops: seq<Drop>,
    ending: Ending,
    began: nat)               // when the connection was opened

  datatype Link = Link(
    flags: Flags, held: Held, out: Out, task: Task, beats: Beats, env: Env, past: Past)

  function Init(): Link {
    Link(Flags(Connecting, false, None, None, None), Free, Outbound.Start, Unborn,
         Beats(Heartbeat.Alive(0, None), false, map[]),
         Env(true, false, false, false, 0, 0, None),
         Past([], [], [], None, [], 0, false, {}, Undecided, [], Going, 0))
  }

  // ----- Actions -----

  /** Taking the flags lock: a section begins, or is over at once. */
  datatype Entry =
    | Begin
    | Send(op: Nibble, payload: Bytes)
    | AppClose(code: nat, reason: Bytes)
    | Finish(who: By)
    | Emit(event: Event)
    | Notify
    | GotPing(data: Bytes)
    | GotClose(status: Option<(nat, Bytes)>)
    | GotViolation(fail: Parsing.Fail)
    | BeatCheck(now: nat)
    | BeatLock
    | FlushLock
    | FlushBegin

  /** A step of the section that holds the flags lock, under the queue lock too. */
  datatype Inner =
    | Recheck
    | PushSend(key: Option<Key>)
    | PushClose(key: Option<Key>)
    | PushEnd
    | ClearPong
    | PushPong(key: Option<Key>)
    | DeferPong
    | PushBeat(key: Option<Key>)
    | TakePong
    | PushFlushed(key: Option<Key>)

  /** A step of the writer, or of whoever stops it, under the queue lock alone. */
  datatype Work =
    | TakeBatch
    | WriteBytes(n: nat)
    | Account
    | ItemDone
    | TransportShut
    | WriterGone
    | StopWriter

  /** Everything that takes no lock. */
  datatype World =
    | HubDrops
    | ReadDone
    | FlushDone
    | FlushTimeout
    | FlushStopped
    | Tick(now: nat)
    | TransportIn
    | TransportOut

  datatype Action = Enter(entry: Entry) | Inside(inner: Inner) | Working(work: Work) | Around(world: World)

  function EncodedSize(c: Setup, payload: Bytes): nat {
    EncodedLen(|payload|, !c.server)
  }

  function FrameOf(op: Nibble, payload: Bytes, key: Option<Key>): Frame {
    Frame(true, op, key, payload)
  }

  /** Clients mask what they send. */
  predicate Keyed(c: Setup, key: Option<Key>) {
    key.Some? == !c.server
  }

  /** Messages an application may send: text is text and pings are short. */
  predicate MaySend(op: Nibble, payload: Bytes) {
    && |payload| < LIMIT
    && (op == TEXT || op == BINARY || op == PING)
    && (op == TEXT ==> Utf8.Scan(payload).Ok?)
    && (op == PING ==> |payload| <= 125)
  }

  predicate ValidStatus(code: nat, reason: Bytes) {
    ValidCloseCode(code) && |reason| <= 123 && Utf8.Scan(reason).Ok?
  }

  /** Pongs are due until the peer closes, we fail the connection or it ends. */
  predicate Answering(f: Flags) {
    f.state != Closed && f.received.None? && f.failed.None?
  }

  /** The signs of life of the peer: that the connection opened, and all that was heard. */
  function Signs(p: Past): set<nat> {
    p.heard + {p.began}
  }

  function SentAt(b: Beats): Option<nat> {
    if b.alive.ping.Some? && b.alive.ping.value.id in b.sent then Some(b.sent[b.alive.ping.value.id]) else None
  }

  /** The verdict of a heartbeat check made now, with a clock read at `now`. */
  function Verdict(interval: nat, s: Link, now: nat): Heartbeat.Action {
    Heartbeat.Check(interval, now, s.beats.alive, s.env.received, SentAt(s.beats), s.env.written)
  }

  /** The flags when a closing handshake starts, without what caused it. */
  function Closes(s: Link): Flags {
    s.flags.(state := Closing, sentClose := true,
             deadline := if s.flags.deadline.Some? then s.flags.deadline else Some(s.env.now + CLOSE_TIMEOUT))
  }

  /** The rest of a closing section: our close frame if none was sent, then a shutdown. */
  function CloseSection(f: Flags, payload: Bytes, fin: bool): Held {
    if !f.sentClose then ClosePush(payload, fin) else if fin then FinPush else Free
  }

  function Because(s: Link, cause: Cause): Past {
    if s.flags.sentClose then s.past else s.past.(cause := cause)
  }

  function Logging(s: Link, event: Event): Past {
    if s.flags.state != Closed && s.env.hub then s.past.(events := s.past.events + [event]) else s.past
  }

  /** All that is known of the outcome. */
  function Outcome(f: Flags): Known {
    Known(f.received, f.failed)
  }

  /**
    * What whoever ends the connection goes by; a caller and the heartbeat go by
    * nothing. A task reads the flags in a section before the one that ends the
    * connection, but only the reading task changes what is read there, and both tasks
    * are polled as one, so the reading is still right.
    */
  function Saw(f: Flags, who: By): Known {
    if who == ByTask then Outcome(f) else Known(None, None)
  }

  /** The code and reason reported: the peer's, ours after a violation, or none. */
  function EndStatus(k: Known): (nat, Bytes) {
    if k.received.Some? then k.received.value
    else if k.failed.Some? then (k.failed.value, [])
    else (1006, [])
  }

  // ----- Taking the lock -----

  predicate CanEnter(c: Setup, s: Link, e: Entry) {
    && s.held == Free
    && match e
       case Begin => s.task == Unborn
       case Send(op, payload) => MaySend(op, payload)
       case AppClose(code, reason) => ValidStatus(code, reason)
       case Finish(who) =>
         && (who == ByHeart ==> s.past.drops != [])
         && (who == ByTask ==> s.task == Leaving || (s.task != Unborn && s.out.w.phase == Exited))
       case Emit(event) => event == Delivered || event == Errored
       case Notify => s.out.w.phase == Owing
       case GotPing(data) => s.task == Looping(true) && |data| <= 125
       case GotClose(status) =>
         s.task == Looping(true) && (status.Some? ==> ValidStatus(status.value.0, status.value.1))
       case GotViolation(_) => s.task == Looping(true)
       case BeatCheck(now) => s.task.Looping? && now <= s.env.now
       case BeatLock => s.beats.due
       case FlushLock => s.out.w.phase == Flushing
       case FlushBegin => s.task.Looping?
  }

  function DoEnter(c: Setup, s: Link, e: Entry): Link
    requires CanEnter(c, s, e)
  {
    match e
    case Begin =>
      if s.flags.state != Connecting then s.(task := Leaving)
      else
        s.(task := Looping(true), flags := s.flags.(state := Open), out := Do(s.out, Launch),
           beats := s.beats.(alive := s.beats.alive.(seen := s.env.now)),
           past := Logging(s, Opened).(began := s.env.now))
    case Send(op, payload) =>
      if s.flags.state != Open || s.flags.sentClose then s
      else if Fits(s.out.q.buffered, EncodedSize(c, payload), c.limit) then s.(held := SendPush(op, payload))
      else s.(held := SendRecheck(op, payload))
    case AppClose(code, reason) =>
      if s.flags.state != Open then s
      else
        s.(held := ClosePush(ClosePayload(code, reason), false),
           past := s.past.(cause := Asked(code, reason)),
           flags := s.flags.(state := Closing, sentClose := true, deadline := Some(s.env.now + CLOSE_TIMEOUT)))
    case Finish(who) =>
      if s.flags.state == Closed then s
      else
        var known := Saw(s.flags, who);
        var (code, reason) := EndStatus(known);
        s.(flags := s.flags.(state := Closed), env := s.env.(stopDue := true),
           past := Logging(s, Ended(code, reason)).(endHub := s.env.hub, ending := Gone(who, known)))
    case Emit(event) => s.(past := Logging(s, event))
    case Notify => s.(past := Logging(s, Drained), out := Do(s.out, Noticed))
    case GotPing(data) =>
      var past := s.past.(pings := s.past.pings + [data]);
      if !Answering(s.flags) then s.(past := past)
      else if s.out.q.buffered < PONG_LIMIT then s.(past := past, held := PongClear(data, |s.past.pings|))
      else s.(past := past, held := PongDefer(data, |s.past.pings|))
    case GotClose(status) =>
      if s.flags.state == Closed || s.flags.received.Some? then s.(task := Looping(false))
      else
        var echo := if status.Some? then ClosePayload(status.value.0, []) else [];
        s.(task := Looping(false), past := Because(s, Replied),
           flags := Closes(s).(received := Some(if status.Some? then status.value else (1005, []))),
           held := CloseSection(s.flags, echo, c.server))
    case GotViolation(fail) =>
      if s.flags.state == Closed then s.(task := Looping(false))
      else
        s.(task := Looping(false), past := Because(s, Faulted),
           flags := Closes(s).(failed := Some(Parsing.Code(fail))),
           held := CloseSection(s.flags, ClosePayload(Parsing.Code(fail), []), true))
    case BeatCheck(now) =>
      if c.heartbeat.None? || s.flags.state != Open then s
      else
        var verdict := Verdict(c.heartbeat.value, s, now);
        var drop := Drop(now, s.beats.alive.ping, SentAt(s.beats), s.env.written, Signs(s.past));
        s.(beats := s.beats.(
             alive := s.beats.alive.(seen := Heartbeat.Seen(s.beats.alive.seen, s.env.received)),
             due := verdict == Heartbeat.Ping),
           past := if verdict == Heartbeat.Dead then s.past.(drops := s.past.drops + [drop]) else s.past)
    case BeatLock =>
      s.(beats := s.beats.(due := false), held := if s.flags.state == Open then BeatPush else Free)
    case FlushLock => s.(held := FlushTake)
    case FlushBegin =>
      s.(task := if (s.flags.received.None? && s.flags.failed.None?) || s.flags.deadline.None? then Leaving else Draining)
  }

  // ----- Inside a section -----

  predicate CanStep(c: Setup, s: Link, i: Inner) {
    match i
    case Recheck => s.held.SendRecheck?
    case PushSend(key) => s.held.SendPush? && Keyed(c, key)
    case PushClose(key) => s.held.ClosePush? && Keyed(c, key)
    case PushEnd => s.held == FinPush
    case ClearPong => s.held.PongClear?
    case PushPong(key) => s.held.PongPush? && Keyed(c, key)
    case DeferPong => s.held.PongDefer?
    case PushBeat(key) => s.held == BeatPush && Keyed(c, key)
    case TakePong => s.held == FlushTake && s.out.w.phase == Flushing
    case PushFlushed(key) => s.held.FlushPush? && Keyed(c, key) && s.out.w.phase == Flushing
  }

  /** What a step inside a section does to the queue and the writer. */
  function Effect(c: Setup, s: Link, i: Inner): (a: Act)
    requires CanStep(c, s, i)
    ensures Ready(s.out, a)
  {
    match i
    case Recheck =>
      var len := EncodedSize(c, s.held.payload);
      if Fits(s.out.q.buffered, len, c.limit) then Nop else SetDrain(len)
    case PushSend(key) => Push(Pushed(FrameOf(s.held.op, s.held.payload, key), App))
    case PushClose(key) => Push(Pushed(FrameOf(CLOSE, s.held.payload, key), Final))
    case PushEnd => PushFin
    case ClearPong => SetPong(None)
    case PushPong(key) => Push(Pushed(FrameOf(PONG, s.held.data, key), Reply))
    case DeferPong => SetPong(Some(s.held.data))
    case PushBeat(key) => PushProbe(Pushed(FrameOf(PING, c.token, key), Probe))
    case TakePong => if Answering(s.flags) && s.out.q.pong.Some? then SetPong(None) else SkipPong
    case PushFlushed(key) => PushDeferred(Pushed(FrameOf(PONG, s.held.data, key), Deferred))
  }

  function DoStep(c: Setup, s: Link, i: Inner): Link
    requires CanStep(c, s, i)
  {
    var t :=
      match i
      case Recheck =>
        var len := EncodedSize(c, s.held.payload);
        if Fits(s.out.q.buffered, len, c.limit) then s.(held := SendPush(s.held.op, s.held.payload))
        else s.(held := Free, past := s.past.(notices := s.past.notices + [Refused(len)]))
      case PushSend(_) =>
        s.(held := Free, past := s.past.(largest := Max(s.past.largest, EncodedSize(c, s.held.payload))))
      case PushClose(_) => s.(held := if s.held.fin then FinPush else Free)
      case PushEnd => s.(held := Free, past := s.past.(deferred := None))
      case ClearPong => s.(held := PongPush(s.held.data, s.held.ping), past := s.past.(deferred := None))
      case PushPong(_) => s.(held := Free, past := s.past.(answered := s.past.answered + [s.held.ping]))
      case DeferPong => s.(held := Free, past := s.past.(deferred := Some(s.held.ping)))
      case PushBeat(_) =>
        s.(held := Free,
           beats := s.beats.(alive := s.beats.alive.(ping := Some(Heartbeat.Probe(s.env.now, |s.out.log|)))))
      case TakePong =>
        var ping := if s.past.deferred.Some? then s.past.deferred.value else 0;
        s.(past := s.past.(deferred := None),
           held := if Answering(s.flags) && s.out.q.pong.Some? then FlushPush(s.out.q.pong.value, ping) else Free)
      case PushFlushed(_) => s.(held := Free, past := s.past.(answered := s.past.answered + [s.held.ping]));
    t.(out := Do(s.out, Effect(c, s, i)))
  }

  // ----- The writer -----

  function Job(c: Setup, s: Link, w: Work): Act {
    match w
    case TakeBatch => Swap
    case WriteBytes(n) => Write(n)
    case Account => Progress(c.limit, s.env.written)
    case ItemDone => Outbound.Finish
    case TransportShut => Shut
    case WriterGone => Exit
    case StopWriter => Stop
  }

  predicate CanWork(c: Setup, s: Link, w: Work) {
    && Ready(s.out, Job(c, s, w))
    && (w.StopWriter? ==> s.env.stopDue)
    && (w.WriterGone? ==> s.out.w.phase != Owing && s.held != FlushTake && !s.held.FlushPush?)
  }

  function DoWork(c: Setup, s: Link, w: Work): Link
    requires CanWork(c, s, w)
  {
    var t :=
      match w
      case WriteBytes(_) => s.(env := s.env.(written := s.env.now))
      case Account =>
        if Progressed(s.out.q, s.out.w.wrote, c.limit).1
        then s.(past := s.past.(notices := s.past.notices + [Freed])) else s
      case ItemDone =>
        if s.out.w.batch[0].Beat?
        then s.(beats := s.beats.(sent := s.beats.sent[s.out.w.batch[0].probe := s.out.w.stamp])) else s
      case StopWriter => s.(env := s.env.(stopDue := false, stopped := true), past := s.past.(deferred := None))
      case _ => s;
    t.(out := Do(s.out, Job(c, s, w)))
  }

  // ----- Without a lock -----

  predicate CanHappen(s: Link, w: World) {
    match w
    case ReadDone => s.task.Looping?
    case FlushDone => s.task == Draining && (s.out.q.done || (s.out.q.buffered == 0 && !s.out.q.shutdown))
    case FlushTimeout => s.task == Draining && s.flags.deadline.Some? && s.env.now >= s.flags.deadline.value
    case FlushStopped => s.task == Draining && s.env.stopped
    case Tick(now) => s.env.now <= now
    case _ => true
  }

  function Happen(s: Link, w: World): Link
    requires CanHappen(s, w)
  {
    match w
    case HubDrops => s.(env := s.env.(hub := false))
    case ReadDone =>
      s.(beats := s.beats.(alive := s.beats.alive.(seen := s.env.now)), past := s.past.(heard := s.past.heard + {s.env.now}))
    case FlushDone => s.(task := Leaving, env := s.env.(flushed := !s.out.q.done))
    case FlushTimeout => s.(task := Leaving)
    case FlushStopped => s.(task := Leaving)
    case Tick(now) => s.(env := s.env.(now := now))
    case TransportIn =>
      s.(env := s.env.(received := Some(s.env.now)), past := s.past.(heard := s.past.heard + {s.env.now}))
    case TransportOut => s.(env := s.env.(written := s.env.now))
  }

  // ----- Executions -----

  predicate Enabled(c: Setup, s: Link, a: Action) {
    match a
    case Enter(e) => CanEnter(c, s, e)
    case Inside(i) => CanStep(c, s, i)
    case Working(w) => CanWork(c, s, w)
    case Around(w) => CanHappen(s, w)
  }

  function Next(c: Setup, s: Link, a: Action): Link
    requires Enabled(c, s, a)
  {
    match a
    case Enter(e) => DoEnter(c, s, e)
    case Inside(i) => DoStep(c, s, i)
    case Working(w) => DoWork(c, s, w)
    case Around(w) => Happen(s, w)
  }

  /** Where a list of actions leads from the start, if each can happen in its turn. */
  function After(c: Setup, run: seq<Action>): Option<Link> {
    if run == [] then Some(Init())
    else
      var s := After(c, run[..|run| - 1]);
      if s.Some? && Enabled(c, s.value, run[|run| - 1]) then Some(Next(c, s.value, run[|run| - 1])) else None
  }
}
