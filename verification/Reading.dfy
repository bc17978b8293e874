/** The incremental reader: a compacting buffer with a cursor, unmasked in place. */
module Reading {
  import opened Basics
  import opened Framing
  import opened Parsing
  import opened Assembly
  import opened Decoding
  import Utf8

  /** A decoded frame's header and where its payload lies in the buffer. */
  datatype Taken = Wait | Fault(fail: Fail) | Took(fin: bool, op: Nibble, start: nat, end: nat)

  class Reader {
    var buf: Bytes
    var pos: nat
    const config: Config
    const big: bool
    var partial: Option<Partial>

    ghost predicate Valid()
      reads this
    {
      pos <= |buf| && Formed(partial)
    }

    /** The bytes not yet decoded. */
    ghost function Rest(): Bytes
      reads this
      requires Valid()
    {
      buf[pos..]
    }

    constructor (server: bool, max: nat, big: bool)
      ensures Valid() && Rest() == [] && partial == None && config == Config(server, max)
    {
      buf, pos, config, partial := [], 0, Config(server, max), None;
      this.big := big;
    }

    /** Compacts the buffer; decoding goes on where it was. */
    method Input()
      requires Valid()
      modifies this`buf, this`pos
      ensures Valid() && pos == 0 && buf == old(Rest())
    {
      if pos > 0 {
        buf := buf[pos..];
        pos := 0;
      }
    }

    method Push(data: Bytes)
      requires Valid()
      modifies this`buf, this`pos
      ensures Valid() && Rest() == old(Rest()) + data
    {
      Input();
      buf := buf + data;
    }

    /**
      * The buffer after a frame was looked for: untouched unless one was taken,
      * and then only its payload changed, to the unmasked bytes.
      */
    ghost predicate TookAs(r: Taken, parsed: Parsed, before: Bytes, at: nat)
      reads this
      requires at <= |before| == |buf|
    {
      match parsed
      case More => r == Wait && buf == before && pos == at
      case Bad(fail) => r == Fault(fail) && buf == before && pos == at
      case Got(f, size) =>
        && r.Took? && r.fin == f.fin && r.op == f.op
        && at <= r.start <= r.end == pos == at + size <= |buf|
        && buf[r.start..r.end] == f.payload
        && buf[..r.start] == before[..r.start] && buf[pos..] == before[pos..]
    }

    /** Takes one frame: unmasks its payload where it lies and moves behind it. */
    method TakeFrame() returns (r: Taken)
      requires Valid()
      modifies this`buf, this`pos
      ensures Valid() && |buf| == |old(buf)|
      ensures TookAs(r, Parse(old(Rest()), config, Pending(partial)), old(buf), old(pos))
    {
      hide Mask, FromBigEndian, Opcode;
      var b := buf[pos..];
      if |b| < 2 {
        return Wait;
      }
      var fin, op, masked := b[0] >= 0x80, b[0] % 16, b[1] >= 0x80;
      if b[0] / 16 % 8 != 0 {
        return Fault(ReservedBits);
      }
      if !Opcode(op) {
        return Fault(UnknownOpcode);
      }
      if masked != config.server {
        return Fault(if config.server then UnmaskedClientFrame else MaskedServerFrame);
      }
      if op < CLOSE {
        if op == CONTINUATION && partial.None? {
          return Fault(UnexpectedContinuation);
        } else if (op == TEXT || op == BINARY) && partial.Some? {
          return Fault(ExpectedContinuation);
        }
      }
      assert FirstFault(b, config, Pending(partial)) == None;
      var len, at := b[1] % 128, 2;
      if b[1] % 128 == 126 {
        if |b| < 4 {
          return Wait;
        }
        len, at := FromBigEndian(b[2..4]), 4;
      } else if b[1] % 128 == 127 {
        if |b| < 10 {
          return Wait;
        }
        len, at := FromBigEndian(b[2..10]), 10;
      }
      if (at == 4 && len < 126) || (at == 10 && (len < 65536 || len >= LIMIT)) {
        return Fault(InvalidLength);
      }
      if op >= CLOSE {
        if !fin || len > 125 {
          return Fault(InvalidControl);
        }
      } else {
        var pending := if partial.Some? then |partial.value.data| else 0;
        if len + pending > config.max {
          return Fault(TooBig);
        }
      }
      assert LengthField(b) == Some((len, at)) && LengthFault(b, len, at, config, Pending(partial)) == None;
      r := TakePayload(fin, op, len, at);
    }

    /** The payload behind a checked header, if all of it has arrived. */
    method TakePayload(fin: bool, op: Nibble, len: nat, offset: nat) returns (r: Taken)
      requires Valid() && |Rest()| >= 2 && offset <= |Rest()|
      requires fin == (Rest()[0] >= 0x80) && op == Rest()[0] % 16
      modifies this`buf, this`pos
      ensures Valid() && |buf| == |old(buf)|
      ensures TookAs(r, Payload(old(Rest()), len, offset), old(buf), old(pos))
    {
      hide Mask;
      var b, at := buf[pos..], offset;
      var key: Option<Key> := None;
      if b[1] >= 0x80 {
        if |b| < at + 4 {
          return Wait;
        }
        at := at + 4;
        key := Some(b[at - 4..at]);
      }
      if len > |b| - at {
        return Wait;
      }
      var start, end := pos + at, pos + at + len;
      assert buf[start..end] == b[at..at + len];
      ghost var payload := MaskWith(b[at..at + len], key);
      ghost var before := buf;
      Unmask(start, end, key);
      assert buf[start..end] == payload && buf[..start] == before[..start] && buf[end..] == before[end..];
      pos := end;
      r := Took(fin, op, start, end);
    }

    /** Applies the mask to the bytes of the buffer between two offsets. */
    method Unmask(start: nat, end: nat, key: Option<Key>)
      requires start <= end <= |buf|
      modifies this`buf
      ensures buf == old(buf)[..start] + MaskWith(old(buf)[start..end], key) + old(buf)[end..]
    {
      if key.Some? {
        var whole := buf;
        var slice := new Byte[end - start](i requires 0 <= i < end - start => whole[start + i]);
        assert slice[..] == buf[start..end];
        ApplyMask(slice, key.value, big);
        buf := buf[..start] + slice[..] + buf[end..];
      } else {
        assert buf == buf[..start] + buf[start..end] + buf[end..];
      }
    }

    /** Turns a frame just taken into a message, or keeps it as a fragment. */
    method AssembleFrame(fin: bool, op: Nibble, start: nat, end: nat) returns (r: Out)
      requires Valid() && start <= end <= |buf|
      modifies this`partial
      ensures Valid()
      ensures var f := Framing.Frame(fin, op, None, buf[start..end]);
              match Assemble(old(partial), f)
              case Rejected(fail, p) => r == Error(fail) && partial == p
              case Stored(p) => r == Nothing && partial == p
              case Delivered(msg, p) => r == Message(msg) && partial == p
    {
      var payload := buf[start..end];
      if op == PING {
        return Message(Ping(payload));
      } else if op == PONG {
        return Message(Pong(payload));
      } else if op == CLOSE {
        var status := ReadClose(payload);
        return if status.Accepted? then Message(status.msg) else Error(status.fail);
      }
      if partial.Some? {
        partial := Some(partial.value.(data := partial.value.data + payload));
      } else {
        partial := Some(Partial(op, payload, 0));
      }
      var q := partial.value;
      if q.op == TEXT {
        var check := Utf8.Scan(q.data[q.checked..]);
        if check.Ok? {
          partial := Some(q.(checked := |q.data|));
        } else if check.incomplete && !fin {
          partial := Some(q.(checked := q.checked + check.validUpTo));
        } else {
          return Error(InvalidText);
        }
      }
      if !fin {
        return Nothing;
      }
      var data := partial.value.data;
      r := Message(if partial.value.op == TEXT then Text(data) else Binary(data));
      partial := None;
    }
    
    /** The next complete message; nothing if more input is needed. */
    method NextMessage() returns (r: Out)
      requires Valid()
      modifies this`buf, this`pos, this`partial
      ensures Valid()
      ensures Turn(r, partial, Rest()) == Next(config, old(partial), old(Rest()))
    {
      while true
        invariant Valid()
        invariant Next(config, partial, Rest()) == Next(config, old(partial), old(Rest()))
        decreases |buf| - pos
      {
        ghost var rest, before := Rest(), partial;
        var taken := TakeFrame();
        if taken.Wait? {
          return Nothing;
        } else if taken.Fault? {
          return Error(taken.fail);
        }
        ghost var Got(f, size) := Parse(rest, config, Pending(before));
        assert Rest() == rest[size..];
        var out := AssembleFrame(taken.fin, taken.op, taken.start, taken.end);
        KeyIrrelevant(before, f, taken.fin, taken.op);
        if !out.Nothing? {
          return out;
        }
      }
    }

    /** Every message the buffered bytes hold. */
    method Drain() returns (msgs: seq<Msg>, failed: Option<Fail>)
      requires Valid()
      modifies this`buf, this`pos, this`partial
      ensures Valid()
      ensures Decode(config, old(partial), old(Rest()))
           == Decoded(msgs, if failed.Some? then Failed(failed.value) else Waiting(partial, Rest()))
    {
      hide Next;
      msgs := [];
      while true
        invariant Valid()
        invariant var d := Decode(config, partial, Rest());
                  Decode(config, old(partial), old(Rest())) == Decoded(msgs + d.msgs, d.end)
        decreases |Rest()|
      {
        ghost var before, rest := partial, Rest();
        var r := NextMessage();
        if r.Error? {
          return msgs, Some(r.fail);
        } else if r.Nothing? {
          return msgs, None;
        }
        ghost var d := Decode(config, partial, Rest());
        assert Decode(config, before, rest) == Decoded([r.msg] + d.msgs, d.end);
        assert msgs + ([r.msg] + d.msgs) == msgs + [r.msg] + d.msgs;
        msgs := msgs + [r.msg];
      }
    }

    lemma KeyIrrelevant(p: Option<Partial>, f: Framing.Frame, fin: bool, op: Nibble)
      requires Formed(p) && fin == f.fin && op == f.op
      ensures Assemble(p, Framing.Frame(fin, op, None, f.payload)) == Assemble(p, f)
    {
    }
  }

  /** Feeds a stream chunk by chunk and drains every message: the split cannot be observed. */
  method DecodeChunks(server: bool, max: nat, big: bool, chunks: seq<Bytes>) returns (msgs: seq<Msg>, failed: Option<Fail>)
    ensures var d := Decode(Config(server, max), None, Concat(chunks));
            msgs == d.msgs && failed == if d.end.Failed? then Some(d.end.fail) else None
  {
    hide Decode;
    var reader := new Reader(server, max, big);
    ghost var c := reader.config;
    msgs := [];
    ChunkingIndependent(c, chunks);
    for i := 0 to |chunks|
      invariant reader.Valid() && reader.config == c
      invariant FeedAll(c, chunks[..i]) == Decoded(msgs, Waiting(reader.partial, reader.Rest()))
    {
      assert chunks[..i + 1][..i] == chunks[..i];
      reader.Push(chunks[i]);
      var more, fail := reader.Drain();
      msgs := msgs + more;
      if fail.Some? {
        StopsEarly(c, chunks, i + 1);
        return msgs, fail;
      }
    }
    assert chunks[..|chunks|] == chunks;
    failed := None;
  }

  /** Input behind a violation is never looked at. */
  lemma {:induction false} StopsEarly(c: Config, chunks: seq<Bytes>, i: nat)
    requires i <= |chunks| && FeedAll(c, chunks[..i]).end.Failed?
    ensures FeedAll(c, chunks) == FeedAll(c, chunks[..i])
  {
    if i < |chunks| {
      var n := |chunks| - 1;
      assert chunks[..n][..i] == chunks[..i];
      StopsEarly(c, chunks[..n], i);
    } else {
      assert chunks[..i] == chunks;
    }
  }
}
