/** The heartbeat: when a quiet peer is pinged and when a silent one is dropped. */
module Heartbeat {
  import opened Basics

  datatype Action = Wait | Ping | Dead

  /** Time elapsed since an instant, zero if that lies ahead. */
  function Since(now: nat, past: nat): nat {
    if now >= past then now - past else 0
  }

  function Decide(interval: nat, now: nat, last: nat, ping: Option<nat>): Action {
    if ping.Some? && last <= ping.value then
      if Since(now, ping.value) >= interval then Dead else Wait
    else if Since(now, last) >= interval then Ping
    else Wait
  }

  /** A queued ping; `id` names the cell its transmission time is put in. */
  datatype Probe = Probe(queued: nat, id: nat)

  /** The reader's view of the peer. */
  datatype Alive = Alive(seen: nat, ping: Option<Probe>)

  function Seen(seen: nat, received: Option<nat>): nat {
    if received.Some? then Max(seen, received.value) else seen
  }

  /** One run of the check: `sent` is the outstanding ping's transmission time. */
  function Check(interval: nat, now: nat, alive: Alive, received: Option<nat>, sent: Option<nat>, written: nat): Action {
    var seen := Seen(alive.seen, received);
    if alive.ping.Some? && sent.None? then
      if Since(now, Max(Max(seen, written), alive.ping.value.queued)) < interval then Wait else Dead
    else Decide(interval, now, seen, if alive.ping.Some? then sent else None)
  }

  /** When the reader arranges to be woken for the next check. */
  function Deadline(interval: nat, alive: Alive, received: Option<nat>, sent: Option<nat>, written: nat): nat {
    var seen := Seen(alive.seen, received);
    var last :=
      if alive.ping.None? then seen
      else if sent.None? then Max(Max(seen, written), alive.ping.value.queued)
      else if seen <= sent.value then sent.value
      else seen;
    last + interval
  }

  /** A ping is outstanding: still unsent, or sent with nothing heard since. */
  predicate Unanswered(alive: Alive, received: Option<nat>, sent: Option<nat>) {
    alive.ping.Some? && (sent.None? || Seen(alive.seen, received) <= sent.value)
  }

  /**
    * The check acts exactly from its deadline on: no tick is early, wasted or
    * missed. It then drops the peer if a ping is outstanding, else it pings.
    */
  lemma ActsAtDeadline(interval: nat, now: nat, alive: Alive, received: Option<nat>, sent: Option<nat>, written: nat)
    requires interval > 0
    ensures Check(interval, now, alive, received, sent, written)
         == if now < Deadline(interval, alive, received, sent, written) then Wait
            else if Unanswered(alive, received, sent) then Dead
            else Ping
  {
  }
}
