/** Assembling frames into messages, with text checked while it arrives. */
module Assembly {
  import opened Basics
  import opened Framing
  import opened Parsing
  import Utf8

  datatype Msg =
    | Text(data: Bytes)
    | Binary(data: Bytes)
    | Ping(data: Bytes)
    | Pong(data: Bytes)
    | Close(status: Option<(nat, Bytes)>)

  /** An unfinished message; `checked` bytes of text are known to be valid. */
  datatype Partial = Partial(op: Nibble, data: Bytes, checked: nat)

  predicate Formed(p: Option<Partial>) {
    p.Some? ==> p.value.checked <= |p.value.data|
  }

  function Pending(p: Option<Partial>): Option<nat> {
    if p.Some? then Some(|p.value.data|) else None
  }

  datatype CloseResult = Accepted(msg: Msg) | Refused(fail: Fail)

  function ReadClose(payload: Bytes): (r: CloseResult)
    ensures r.Accepted? ==> r.msg.Close?
  {
    if payload == [] then Accepted(Close(None))
    else if |payload| == 1 then Refused(InvalidClose)
    else
      var code := FromBigEndian(payload[..2]);
      if !ValidCloseCode(code) then Refused(InvalidCloseCode)
      else if Utf8.Scan(payload[2..]).Err? then Refused(InvalidReason)
      else Accepted(Close(Some((code, payload[2..]))))
  }

  /** What is written into a close frame is read from it. */
  lemma CloseReadsBack(code: nat, reason: Bytes)
    requires ValidCloseCode(code) && Utf8.Valid(reason)
    ensures ReadClose(ClosePayload(code, reason)) == Accepted(Close(Some((code, reason))))
  {
    hide Utf8.Scan, BigEndian, FromBigEndian;
    var p := ClosePayload(code, reason);
    assert p[..2] == BigEndian(code, 2) && p[2..] == reason;
    assert Power256(2) == 0x10000;
    BigEndianDecodes(code, 2);
    Utf8.ScanExact(reason);
  }

  /** Why a payload is refused: it is a lone octet or names no valid code, a violation, or its reason is no text. */
  lemma CloseRefused(payload: Bytes)
    requires ReadClose(payload).Refused?
    ensures Code(ReadClose(payload).fail) == if |payload| >= 2 && ValidCloseCode(FromBigEndian(payload[..2])) then 1007 else 1002
  {
  }

  /** Nothing else is accepted but the empty payload. */
  lemma CloseCanonical(payload: Bytes)
    requires ReadClose(payload).Accepted? && payload != []
    ensures var m := ReadClose(payload).msg;
            && m.status.Some? && ValidCloseCode(m.status.value.0) && Utf8.Valid(m.status.value.1)
            && payload == ClosePayload(m.status.value.0, m.status.value.1)
  {
    hide Utf8.Scan, BigEndian, FromBigEndian;
    BigEndianEncodes(payload[..2]);
    Utf8.ScanExact(payload[2..]);
    assert payload == payload[..2] + payload[2..];
  }

  datatype Assembled =
    | Rejected(fail: Fail, partial: Option<Partial>)
    | Stored(partial: Option<Partial>)
    | Delivered(msg: Msg, partial: Option<Partial>)

  /** The unfinished message with a fragment appended. */
  function Extended(p: Option<Partial>, f: Frame): (q: Partial)
    requires Formed(p)
    ensures q.checked <= |q.data|
  {
    if p.Some? then p.value.(data := p.value.data + f.payload) else Partial(f.op, f.payload, 0)
  }

  /** Resumes the text check behind `checked`; none if the text is refused. */
  function Checked(q: Partial, fin: bool): (r: Option<Partial>)
    requires q.checked <= |q.data|
    ensures r.Some? ==> r.value.checked <= |q.data| && r.value == q.(checked := r.value.checked)
  {
    if q.op != TEXT then Some(q)
    else
      match Utf8.Scan(q.data[q.checked..])
      case Ok => Some(q.(checked := |q.data|))
      case Err(n, incomplete) => if incomplete && !fin then Some(q.(checked := q.checked + n)) else None
  }

  function Assemble(p: Option<Partial>, f: Frame): (r: Assembled)
    requires Formed(p)
    ensures Formed(r.partial)
  {
    if f.op == PING then Delivered(Ping(f.payload), p)
    else if f.op == PONG then Delivered(Pong(f.payload), p)
    else if f.op == CLOSE then
      match ReadClose(f.payload)
      case Accepted(msg) => Delivered(msg, p)
      case Refused(fail) => Rejected(fail, p)
    else
      var q := Extended(p, f);
      match Checked(q, f.fin)
      case None => Rejected(InvalidText, Some(q))
      case Some(q') =>
        if !f.fin then Stored(Some(q'))
        else Delivered(if q'.op == TEXT then Text(q'.data) else Binary(q'.data), None)
  }

  // ----- Text is accepted exactly when it can still become valid -----

  /** The state a reader keeps between fragments of a message of at most `max` bytes. */
  ghost predicate Sound(p: Option<Partial>, max: nat) {
    p.Some? ==>
      var q := p.value;
      && q.checked <= |q.data| <= max
      && (q.op == TEXT || q.op == BINARY)
      && (q.op == TEXT ==> SoundText(q))
  }

  /** The checked part is valid and at most three bytes wait for their continuation. */
  ghost predicate SoundText(q: Partial) {
    && q.checked <= |q.data|
    && Utf8.Valid(q.data[..q.checked])
    && |q.data| - q.checked <= 3
    && Utf8.Extendable(q.data)
  }

  lemma ScanBehind(data: Bytes, checked: nat)
    requires checked <= |data| && Utf8.Valid(data[..checked])
    ensures Utf8.Scan(data) == Utf8.Shift(Utf8.Scan(data[checked..]), checked)
  {
    Utf8.ScanExact(data[..checked]);
    Utf8.ScanResume(data[..checked], data[checked..]);
    assert data == data[..checked] + data[checked..];
  }

  /** One resumed check decides about the whole text so far. */
  lemma CheckedExact(q: Partial, fin: bool)
    requires q.op == TEXT && q.checked <= |q.data| && Utf8.Valid(q.data[..q.checked])
    ensures fin ==> (Checked(q, fin).Some? <==> Utf8.Valid(q.data))
    ensures !fin ==> (Checked(q, fin).Some? <==> Utf8.Extendable(q.data))
    ensures !fin && Checked(q, fin).Some? ==> SoundText(Checked(q, fin).value)
  {
    hide Utf8.Scan, Utf8.Valid, Utf8.Extendable;
    ScanBehind(q.data, q.checked);
    Utf8.ScanExact(q.data);
    assert q.data[..|q.data|] == q.data;
    if Utf8.Scan(q.data).Err? {
      Utf8.ScanErrorExact(q.data);
    } else {
      Utf8.ValidIsExtendable(q.data);
    }
  }

  lemma ExtendedChecked(p: Option<Partial>, f: Frame, max: nat)
    requires Sound(p, max) && Extended(p, f).op == TEXT
    ensures var q := Extended(p, f); Utf8.Valid(q.data[..q.checked])
  {
    var q := Extended(p, f);
    if p.Some? {
      assert q.data[..q.checked] == p.value.data[..q.checked];
    } else {
      assert q.data[..q.checked] == Utf8.EncodeText([]);
    }
  }

  /**
    * A fragment completes the text exactly when the whole text is valid, and an
    * earlier fragment is kept exactly when some continuation would be valid.
    */
  lemma TextExact(p: Option<Partial>, f: Frame, max: nat)
    requires Sound(p, max) && f.op < CLOSE && Extended(p, f).op == TEXT
    ensures var data := Extended(p, f).data; var r := Assemble(p, f);
            && (f.fin && Utf8.Valid(data) ==> r == Delivered(Text(data), None))
            && (f.fin && !Utf8.Valid(data) ==> r.Rejected? && r.fail == InvalidText)
            && (!f.fin && !Utf8.Extendable(data) ==> r.Rejected? && r.fail == InvalidText)
            && (!f.fin && Utf8.Extendable(data) ==>
                  r.Stored? && r.partial.Some? && r.partial.value.op == TEXT
                  && r.partial.value.data == data && SoundText(r.partial.value))
  {
    hide Utf8.Valid, Utf8.Extendable, SoundText, Checked, Utf8.Scan;
    ExtendedChecked(p, f, max);
    CheckedExact(Extended(p, f), f.fin);
  }

  /** Assembling an accepted frame keeps the reader's state sound and messages within the limit. */
  lemma AssembleSound(p: Option<Partial>, f: Frame, c: Config)
    requires Sound(p, c.max) && Acceptable(f, c, Pending(p))
    ensures var r := Assemble(p, f);
            && (!r.Rejected? ==> Sound(r.partial, c.max))
            && (r.Delivered? && (r.msg.Text? || r.msg.Binary?) ==> |r.msg.data| <= c.max)
            && (r.Delivered? && (r.msg.Ping? || r.msg.Pong?) ==> |r.msg.data| <= 125)
  {
    hide Utf8.Valid, Utf8.Extendable, SoundText, Utf8.Scan;
    if f.op < CLOSE && Extended(p, f).op == TEXT {
      TextExact(p, f, c.max);
    }
  }

  // ----- Whole fragmentations, with control frames between the fragments -----

  datatype Run = Run(msgs: seq<Msg>, partial: Option<Partial>, failed: Option<Fail>)

  function RunFrames(p: Option<Partial>, fs: seq<Frame>): Run
    requires Formed(p)
    decreases |fs|
  {
    if fs == [] then Run([], p, None)
    else
      match Assemble(p, fs[0])
      case Rejected(fail, p') => Run([], p', Some(fail))
      case Stored(p') => RunFrames(p', fs[1..])
      case Delivered(msg, p') =>
        var r := RunFrames(p', fs[1..]);
        r.(msgs := [msg] + r.msgs)
  }

  /** A control frame that is not itself a violation. */
  predicate Quiet(f: Frame) {
    f.op == PING || f.op == PONG || (f.op == CLOSE && ReadClose(f.payload).Accepted?)
  }

  /** The message bytes carried by the data frames of a list. */
  function DataOf(fs: seq<Frame>): Bytes {
    if fs == [] then []
    else (if fs[0].op < CLOSE then fs[0].payload else []) + DataOf(fs[1..])
  }

  /** Continuations of one message with control frames between them; `fin` marks the last. */
  predicate Continues(fs: seq<Frame>, fin: bool) {
    && fs != []
    && (if |fs| == 1 then fs[0].op == CONTINUATION && fs[0].fin == fin
        else (Quiet(fs[0]) || (fs[0].op == CONTINUATION && !fs[0].fin)) && Continues(fs[1..], fin))
  }

  lemma HopelessStays(a: Bytes, b: Bytes)
    requires !Utf8.Extendable(a)
    ensures !Utf8.Extendable(a + b) && !Utf8.Valid(a + b)
  {
    forall t: Bytes ensures !Utf8.Valid(a + b + t) {
      assert a + b + t == a + (b + t);
    }
  }

  /** The message of a control frame. */
  function ControlOf(f: Frame): Msg {
    if f.op == PING then Ping(f.payload)
    else if f.op == PONG then Pong(f.payload)
    else Close(if |f.payload| < 2 then None else Some((FromBigEndian(f.payload[..2]), f.payload[2..])))
  }

  /** The messages of the control frames of a list, in order. */
  function ControlsOf(fs: seq<Frame>): seq<Msg> {
    if fs == [] then []
    else (if fs[0].op < CLOSE then [] else [ControlOf(fs[0])]) + ControlsOf(fs[1..])
  }

  function Whole(op: Nibble, data: Bytes): Msg {
    if op == TEXT then Text(data) else Binary(data)
  }

  /** What a list of frames comes to: the control messages, then the message they interrupt, or what there is of it. */
  predicate Outcome(r: Run, controls: seq<Msg>, op: Nibble, data: Bytes, fin: bool, good: bool) {
    if !good then r.failed == Some(InvalidText) && r.msgs <= controls
    else
      && r.failed.None?
      && if fin then r.partial.None? && r.msgs == controls + [Whole(op, data)]
         else r.partial.Some? && r.partial.value.data == data && r.partial.value.op == op && r.msgs == controls
  }

  ghost predicate Good(data: Bytes, fin: bool) {
    if fin then Utf8.Valid(data) else Utf8.Extendable(data)
  }

  /** A harmless control frame in front is delivered and changes nothing else. */
  lemma QuietOutcome(p: Option<Partial>, fs: seq<Frame>, op: Nibble, data: Bytes, fin: bool, good: bool)
    requires Formed(p) && fs != [] && Quiet(fs[0])
    requires Outcome(RunFrames(p, fs[1..]), ControlsOf(fs[1..]), op, data, fin, good)
    ensures Outcome(RunFrames(p, fs), ControlsOf(fs), op, data, fin, good)
    ensures DataOf(fs) == DataOf(fs[1..])
  {
    hide Assemble, Quiet, ControlOf, Whole;
    QuietAssembles(p, fs[0]);
    var r, controls := RunFrames(p, fs[1..]), ControlsOf(fs[1..]);
    assert [ControlOf(fs[0])] + (controls + [Whole(op, data)]) == [ControlOf(fs[0])] + controls + [Whole(op, data)];
  }

  lemma QuietAssembles(p: Option<Partial>, f: Frame)
    requires Formed(p) && Quiet(f)
    ensures f.op >= CLOSE && Assemble(p, f) == Delivered(ControlOf(f), p)
  {
    hide Checked, Extended;
  }

  lemma LastFragment(p: Option<Partial>, fs: seq<Frame>, max: nat)
    requires Sound(p, max) && |fs| == 1 && fs[0].op < CLOSE && Extended(p, fs[0]).op == TEXT
    ensures var data := Extended(p, fs[0]).data;
            Outcome(RunFrames(p, fs), ControlsOf(fs), TEXT, data, fs[0].fin, Good(data, fs[0].fin))
    ensures DataOf(fs) == fs[0].payload
  {
    hide Utf8.Valid, Utf8.Extendable, SoundText, Checked, Extended;
    TextExact(p, fs[0], max);
    assert fs[1..] == [] && ControlsOf(fs) == [];
    assert fs[0].payload + DataOf(fs[1..]) == fs[0].payload;
  }

  lemma {:induction false} ContinuedText(q: Partial, fs: seq<Frame>, fin: bool)
    requires q.op == TEXT && SoundText(q) && Continues(fs, fin)
    ensures var data := q.data + DataOf(fs);
            Outcome(RunFrames(Some(q), fs), ControlsOf(fs), TEXT, data, fin, Good(data, fin))
    decreases |fs|
  {
    hide Utf8.Valid, Utf8.Extendable, Quiet, Assemble, ControlOf;
    var f := fs[0];
    assert Sound(Some(q), |q.data|);
    if |fs| == 1 {
      LastFragment(Some(q), fs, |q.data|);
    } else if Quiet(f) {
      ContinuedText(q, fs[1..], fin);
      QuietOutcome(Some(q), fs, TEXT, q.data + DataOf(fs[1..]), fin, Good(q.data + DataOf(fs[1..]), fin));
    } else {
      TextExact(Some(q), f, |q.data|);
      var data := q.data + f.payload;
      assert q.data + DataOf(fs) == data + DataOf(fs[1..]);
      if Utf8.Extendable(data) {
        ContinuedText(Assemble(Some(q), f).partial.value, fs[1..], fin);
      } else {
        HopelessStays(data, DataOf(fs[1..]));
      }
    }
  }

  /** One message in any number of fragments, with control frames before and between them. */
  predicate Fragments(fs: seq<Frame>, op: Nibble, fin: bool) {
    && fs != []
    && if Quiet(fs[0]) then Fragments(fs[1..], op, fin)
       else
         && fs[0].op == op
         && if |fs| == 1 then fs[0].fin == fin else !fs[0].fin && Continues(fs[1..], fin)
  }

  /**
    * For every fragmentation, the text is delivered if and only if the
    * concatenated payload is valid UTF-8; cut short behind a non-final fragment,
    * it is refused if and only if no continuation could be valid. The control
    * messages come before it, in their order.
    */
  lemma {:induction false} FragmentedText(fs: seq<Frame>, fin: bool)
    requires Fragments(fs, TEXT, fin)
    ensures Outcome(RunFrames(None, fs), ControlsOf(fs), TEXT, DataOf(fs), fin, Good(DataOf(fs), fin))
    decreases |fs|
  {
    hide Utf8.Valid, Utf8.Extendable, Quiet, Assemble, ControlOf;
    var f := fs[0];
    if Quiet(f) {
      FragmentedText(fs[1..], fin);
      QuietOutcome(None, fs, TEXT, DataOf(fs[1..]), fin, Good(DataOf(fs[1..]), fin));
    } else if |fs| == 1 {
      LastFragment(None, fs, 0);
    } else {
      TextExact(None, f, 0);
      if Utf8.Extendable(f.payload) {
        ContinuedText(Assemble(None, f).partial.value, fs[1..], fin);
      } else {
        HopelessStays(f.payload, DataOf(fs[1..]));
      }
    }
  }

  // ----- Binary messages -----

  /** A fragment of a binary message is appended to what is there, and the last one delivers it. */
  lemma BinaryAssembles(p: Option<Partial>, f: Frame)
    requires Formed(p) && f.op < CLOSE
    requires if p.Some? then p.value.op == BINARY else f.op == BINARY
    ensures var data := (if p.Some? then p.value.data else []) + f.payload;
            if f.fin then Assemble(p, f) == Delivered(Binary(data), None)
            else Assemble(p, f).Stored? && Assemble(p, f).partial.Some?
                 && Assemble(p, f).partial.value.data == data && Assemble(p, f).partial.value.op == BINARY
  {
    assert [] + f.payload == f.payload;
  }

  lemma {:induction false} ContinuedBinary(q: Partial, fs: seq<Frame>, fin: bool)
    requires q.op == BINARY && q.checked <= |q.data| && Continues(fs, fin)
    ensures Outcome(RunFrames(Some(q), fs), ControlsOf(fs), BINARY, q.data + DataOf(fs), fin, true)
    decreases |fs|
  {
    hide Quiet, Assemble, ControlOf;
    var f := fs[0];
    if |fs| == 1 {
      BinaryAssembles(Some(q), f);
      assert fs[1..] == [] && f.payload + DataOf(fs[1..]) == f.payload;
    } else if Quiet(f) {
      ContinuedBinary(q, fs[1..], fin);
      QuietOutcome(Some(q), fs, BINARY, q.data + DataOf(fs[1..]), fin, true);
    } else {
      BinaryAssembles(Some(q), f);
      ContinuedBinary(Assemble(Some(q), f).partial.value, fs[1..], fin);
      assert q.data + DataOf(fs) == q.data + f.payload + DataOf(fs[1..]);
    }
  }

  /**
    * Every fragmentation of a binary message is delivered as the concatenation of its
    * fragments, behind the control messages in their order; cut short, that much is kept.
    */
  lemma {:induction false} FragmentedBinary(fs: seq<Frame>, fin: bool)
    requires Fragments(fs, BINARY, fin)
    ensures Outcome(RunFrames(None, fs), ControlsOf(fs), BINARY, DataOf(fs), fin, true)
    decreases |fs|
  {
    hide Quiet, Assemble, ControlOf;
    var f := fs[0];
    if Quiet(f) {
      FragmentedBinary(fs[1..], fin);
      QuietOutcome(None, fs, BINARY, DataOf(fs[1..]), fin, true);
    } else if |fs| == 1 {
      BinaryAssembles(None, f);
      assert fs[1..] == [] && f.payload + DataOf(fs[1..]) == f.payload && [] + f.payload == f.payload;
    } else {
      BinaryAssembles(None, f);
      ContinuedBinary(Assemble(None, f).partial.value, fs[1..], fin);
      assert [] + f.payload == f.payload;
    }
  }
}
