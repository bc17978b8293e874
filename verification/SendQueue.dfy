/** The outbound queue of a connection: joined data, heartbeat barriers and the final shutdown. */
module SendQueue {
  import opened Basics
  import opened Framing

  datatype Item = Data(bytes: Bytes) | Beat(bytes: Bytes, probe: nat) | Shutdown

  /** Pieces below this size share an item. */
  const JOIN: nat := 16 * 1024

  datatype Queue = Queue(
    items: seq<Item>,
    done: bool,
    shutdown: bool,
    drain: Option<nat>,
    pong: Option<Bytes>,
    buffered: nat)

  const Empty := Queue([], false, false, None, None, 0)

  function BytesOf(item: Item): Bytes {
    if item.Shutdown? then [] else item.bytes
  }

  /** The bytes the items stand for, in order. */
  function Content(items: seq<Item>): Bytes {
    if items == [] then [] else BytesOf(items[0]) + Content(items[1..])
  }

  /** Whether `len` more bytes are admitted: always into an empty buffer. */
  predicate Fits(buffered: nat, len: nat, limit: nat) {
    buffered == 0 || buffered + len <= limit
  }

  function Joined(items: seq<Item>, data: Bytes): seq<Item> {
    var n := |items|;
    if n > 0 && items[n - 1].Data? && |items[n - 1].bytes| < JOIN && |data| < JOIN
    then items[..n - 1] + [Data(items[n - 1].bytes + data)]
    else items + [Data(data)]
  }

  /** A piece shares the last item if and only if that is data and both are shorter than 16 KiB. */
  lemma JoinsExactly(items: seq<Item>, data: Bytes)
    ensures |Joined(items, data)| == |items|
            <==> items != [] && items[|items| - 1].Data? && |items[|items| - 1].bytes| < 16_384 && |data| < 16_384
    ensures |Joined(items, data)| == |items| || Joined(items, data) == items + [Data(data)]
  {
  }

  /** The effect of queueing an encoded frame. */
  function WithData(q: Queue, data: Bytes): Queue {
    if q.done then q else q.(items := Joined(q.items, data), buffered := q.buffered + |data|)
  }

  function WithBeat(q: Queue, data: Bytes, probe: nat): Queue {
    if q.done then q else q.(items := q.items + [Beat(data, probe)], buffered := q.buffered + |data|)
  }

  function WithShutdown(q: Queue): Queue {
    if q.done then q else q.(items := q.items + [Shutdown], shutdown := true, pong := None)
  }

  function Stopped(q: Queue): Queue {
    q.(items := [], done := true, shutdown := false, pong := None)
  }

  /** The counter's subtraction, which would wrap around below zero. */
  function Less(buffered: nat, n: nat): nat {
    if n <= buffered then buffered - n else (buffered - n) % 0x1_0000_0000_0000_0000
  }

  /** `n` bytes were written; a refused sender is due a notice once its length fits. */
  function Progressed(q: Queue, n: nat, limit: nat): (r: (Queue, bool)) {
    var left := Less(q.buffered, n);
    var due := q.drain.Some? && Fits(left, q.drain.value, limit);
    (q.(buffered := left, drain := if due then None else q.drain), due)
  }

  lemma {:induction false} ContentAppend(items: seq<Item>, item: Item)
    ensures Content(items + [item]) == Content(items) + BytesOf(item)
  {
    if items == [] {
      assert items + [item] == [item];
      assert Content([item]) == BytesOf(item) + Content([]);
    } else {
      assert (items + [item])[1..] == items[1..] + [item];
      ContentAppend(items[1..], item);
    }
  }

  /** Joining small pieces changes nothing about the bytes to be written. */
  lemma JoinedContent(items: seq<Item>, data: Bytes)
    ensures Content(Joined(items, data)) == Content(items) + data
  {
    ContentAppend(items, Data(data));
    var n := |items|;
    if n > 0 && items[n - 1].Data? {
      assert items == items[..n - 1] + [items[n - 1]];
      ContentAppend(items[..n - 1], items[n - 1]);
      ContentAppend(items[..n - 1], Data(items[n - 1].bytes + data));
    }
  }

  /** The queue object; every method runs under the queue lock. */
  class OutQueue {
    var items: seq<Item>
    var done: bool
    var shutdown: bool
    var drain: Option<nat>
    var pong: Option<Bytes>
    var buffered: nat
    const limit: nat
    const big: bool

    ghost function View(): Queue
      reads this
    {
      Queue(items, done, shutdown, drain, pong, buffered)
    }

    constructor (limit: nat, big: bool)
      ensures View() == Empty && this.limit == limit
    {
      items, done, shutdown, drain, pong, buffered := [], false, false, None, None, 0;
      this.limit, this.big := limit, big;
    }

    /** Queues a frame: a small one is encoded straight into the last item. */
    method PushFrame(op: Nibble, payload: Bytes, key: Option<Key>)
      modifies this
      ensures View() == WithData(old(View()), Encode(Frame(true, op, key, payload)))
    {
      hide Encode;
      ghost var f := Frame(true, op, key, payload);
      EncodedLength(f);
      var len := EncodedLen(|payload|, key.Some?);
      if len >= JOIN {
        var data := EncodeInto([], op, payload, key, big);
        assert data == Encode(f);
        Enqueue(Data(data));
        return;
      }
      if done {
        return;
      }
      var n := |items|;
      if n > 0 && items[n - 1].Data? && |items[n - 1].bytes| < JOIN {
        var last := EncodeInto(items[n - 1].bytes, op, payload, key, big);
        items := items[..n - 1] + [Data(last)];
      } else {
        var data := EncodeInto([], op, payload, key, big);
        assert data == Encode(f);
        items := items + [Data(data)];
      }
      buffered := buffered + len;
    }

    method Enqueue(item: Item)
      modifies this
      ensures View() == match item
                        case Data(data) => if data == [] then old(View()) else WithData(old(View()), data)
                        case Beat(data, probe) => WithBeat(old(View()), data, probe)
                        case Shutdown => WithShutdown(old(View()))
    {
      if done {
        return;
      }
      match item {
        case Data(data) =>
          if data == [] {
            return;
          }
          buffered := buffered + |data|;
          var n := |items|;
          if n > 0 && items[n - 1].Data? && |data| < JOIN && |items[n - 1].bytes| < JOIN {
            items := items[..n - 1] + [Data(items[n - 1].bytes + data)];
          } else {
            items := items + [item];
          }
        case Beat(data, _) =>
          buffered := buffered + |data|;
          items := items + [item];
        case Shutdown =>
          pong := None;
          shutdown := true;
          items := items + [item];
      }
    }

    method StopWriter()
      modifies this
      ensures View() == Stopped(old(View()))
    {
      done := true;
      items := [];
      pong := None;
      shutdown := false;
    }

    /** The writer takes everything queued; `waiting` tells whether a pong is deferred. */
    method TakeBatch() returns (batch: seq<Item>, waiting: bool)
      requires !done
      modifies this`items
      ensures batch == old(items) && items == [] && waiting == pong.Some?
    {
      batch, items := items, [];
      waiting := pong.Some?;
    }

    /** The second, locked look at the limit: a refusal is registered for a notice. */
    method Recheck(len: nat) returns (ok: bool)
      modifies this`drain
      ensures ok == Fits(buffered, len, limit)
      ensures !ok <==> buffered > 0 && buffered + len > limit
      ensures drain == if ok then old(drain) else Some(len)
    {
      ok := buffered == 0 || buffered + len <= limit;
      if !ok {
        drain := Some(len);
      }
    }

    method Progress(n: nat) returns (due: bool)
      modifies this`buffered, this`drain
      ensures (View(), due) == Progressed(old(View()), n, limit)
      ensures n <= old(buffered) ==> buffered == old(buffered) - n
      ensures due <==> old(drain).Some? && (buffered == 0 || buffered + old(drain).value <= limit)
      ensures drain == if due then None else old(drain)
    {
      buffered := Less(buffered, n);
      due := drain.Some? && (buffered == 0 || buffered + drain.value <= limit);
      if due {
        drain := None;
      }
    }
  }
}
