/** Decoding one frame from the front of the input, and why it may be refused. */
module Parsing {
  import opened Basics
  import opened Framing

  /** The protocol violations of the reader. */
  datatype Fail =
    | ReservedBits | UnknownOpcode | UnmaskedClientFrame | MaskedServerFrame
    | UnexpectedContinuation | ExpectedContinuation | InvalidLength | InvalidControl
    | InvalidClose | InvalidCloseCode | TooBig | InvalidText | InvalidReason

  /** The close code sent for a violation. */
  function Code(f: Fail): (code: nat)
    ensures ValidCloseCode(code)
  {
    match f
    case TooBig => 1009
    case InvalidText => 1007
    case InvalidReason => 1007
    case _ => 1002
  }

  /** Too big a message, a text that is none, and every other violation have their own codes. */
  lemma CodeExact(f: Fail)
    ensures Code(f) == 1009 <==> f == TooBig
    ensures Code(f) == 1007 <==> f == InvalidText || f == InvalidReason
    ensures Code(f) == 1009 || Code(f) == 1007 || Code(f) == 1002
  {
  }

  /** The reader's role and message limit. */
  datatype Config = Config(server: bool, max: nat)

  datatype Parsed = More | Bad(fail: Fail) | Got(frame: Frame, size: nat)

  /** The length field and the offset behind it, once it has arrived. */
  function LengthField(b: Bytes): (r: Option<(nat, nat)>)
    requires |b| >= 2
    ensures r.Some? ==> r.value.1 <= |b| && 2 <= r.value.1 <= 10
  {
    var code := b[1] % 128;
    if code == 126 then
      if |b| >= 4 then Some((FromBigEndian(b[2..4]), 4)) else None
    else if code == 127 then
      if |b| >= 10 then Some((FromBigEndian(b[2..10]), 10)) else None
    else Some((code, 2))
  }

  /** Checks on the first two bytes; `pending` is the size of an unfinished message. */
  function FirstFault(b: Bytes, c: Config, pending: Option<nat>): Option<Fail>
    requires |b| >= 2
  {
    var op := b[0] % 16;
    if b[0] / 16 % 8 != 0 then Some(ReservedBits)
    else if !Opcode(op) then Some(UnknownOpcode)
    else if (b[1] >= 0x80) != c.server then Some(if c.server then UnmaskedClientFrame else MaskedServerFrame)
    else if op == CONTINUATION && pending.None? then Some(UnexpectedContinuation)
    else if (op == TEXT || op == BINARY) && pending.Some? then Some(ExpectedContinuation)
    else None
  }

  /** Checks on the declared length, made before any payload is awaited. */
  function LengthFault(b: Bytes, len: nat, at: nat, c: Config, pending: Option<nat>): Option<Fail>
    requires |b| >= 2
  {
    if (at == 4 && len < 126) || (at == 10 && (len < 65536 || len >= LIMIT)) then Some(InvalidLength)
    else if b[0] % 16 >= CLOSE then
      if b[0] < 0x80 || len > 125 then Some(InvalidControl) else None
    else if len + (if pending.Some? then pending.value else 0) > c.max then Some(TooBig)
    else None
  }

  function Payload(b: Bytes, len: nat, at: nat): (r: Parsed)
    requires |b| >= 2 && at <= |b|
    ensures !r.Bad?
  {
    var fin, op := b[0] >= 0x80, b[0] % 16;
    if b[1] >= 0x80 then
      if |b| < at + 4 + len then More
      else
        var key: Key := b[at..at + 4];
        Got(Frame(fin, op, Some(key), Mask(b[at + 4..at + 4 + len], key)), at + 4 + len)
    else if |b| < at + len then More
    else Got(Frame(fin, op, None, b[at..at + len]), at + len)
  }

  function Parse(b: Bytes, c: Config, pending: Option<nat>): Parsed {
    if |b| < 2 then More
    else
      match FirstFault(b, c, pending)
      case Some(f) => Bad(f)
      case None =>
        match LengthField(b)
        case None => More
        case Some((len, at)) =>
          match LengthFault(b, len, at, c, pending)
          case Some(f) => Bad(f)
          case None => Payload(b, len, at)
  }

  // ----- What a frame may look like -----

  /** The rules of sections 5.1 to 5.5 of RFC 6455 a received frame must meet. */
  predicate Acceptable(f: Frame, c: Config, pending: Option<nat>) {
    && Opcode(f.op) && |f.payload| < LIMIT
    && f.key.Some? == c.server
    && (f.op == CONTINUATION ==> pending.Some?)
    && (f.op == TEXT || f.op == BINARY ==> pending.None?)
    && (f.op >= CLOSE ==> f.fin && |f.payload| <= 125)
    && (f.op < CLOSE ==> |f.payload| + (if pending.Some? then pending.value else 0) <= c.max)
  }

  lemma LengthFieldShape(len: nat, masked: bool, b: Bytes)
    requires len < LIMIT && |b| > |LengthBytes(len, masked)|
    requires b[1..1 + |LengthBytes(len, masked)|] == LengthBytes(len, masked)
    ensures (b[1] >= 0x80) == masked
    ensures LengthField(b) == Some((len, if len <= 125 then 2 else if len <= 0xFFFF then 4 else 10))
  {
    hide FromBigEndian, BigEndian;
    var s := LengthBytes(len, masked);
    assert b[1] == b[1..1 + |s|][0] == s[0];
    if 125 < len <= 0xFFFF {
      assert b[2..4] == s[1..];
      assert Power256(2) == 0x10000;
      BigEndianDecodes(len, 2);
    } else if len > 0xFFFF {
      assert b[2..10] == s[1..];
      assert Power256(4) == 0x1_0000_0000;
      assert Power256(8) == 0x1_0000_0000_0000_0000;
      BigEndianDecodes(len, 8);
    }
  }

  lemma HeaderShape(f: Frame, rest: Bytes)
    requires |f.payload| < LIMIT
    ensures var b := Encode(f) + rest; var len := |f.payload|;
            && |b| >= 2
            && b[0] % 16 == f.op && b[0] / 16 % 8 == 0 && (b[0] >= 0x80) == f.fin
            && (b[1] >= 0x80) == f.key.Some?
            && LengthField(b) == Some((len, if len <= 125 then 2 else if len <= 0xFFFF then 4 else 10))
  {
    hide LengthBytes, LengthField, MaskWith;
    var b, len := Encode(f) + rest, |f.payload|;
    var s := LengthBytes(len, f.key.Some?);
    assert b[1..1 + |s|] == s;
    LengthFieldShape(len, f.key.Some?, b);
  }

  /** An acceptable frame at the front of the input is decoded, whatever follows. */
  lemma ParseEncoded(f: Frame, rest: Bytes, c: Config, pending: Option<nat>)
    requires Acceptable(f, c, pending)
    ensures Parse(Encode(f) + rest, c, pending) == Got(f, |Encode(f)|)
  {
    hide Encode, LengthField, Payload;
    HeaderShape(f, rest);
    var b, len := Encode(f) + rest, |f.payload|;
    PayloadEncoded(f, rest, LengthField(b).value.1);
  }

  /** The length field in octets. */
  function FieldSize(len: nat): nat {
    if len <= 125 then 1 else if len <= 0xFFFF then 3 else 9
  }

  lemma FieldSizeIs(len: nat, masked: bool)
    ensures |LengthBytes(len, masked)| == FieldSize(len)
  {
  }

  /** Where the parts of an encoding lie. */
  lemma EncodedParts(f: Frame, rest: Bytes, at: nat)
    requires at == 1 + FieldSize(|f.payload|)
    ensures var b, len := Encode(f) + rest, |f.payload|;
            if f.key.Some?
            then |Encode(f)| == at + 4 + len && b[at..at + 4] == f.key.value
                 && b[at + 4..at + 4 + len] == Mask(f.payload, f.key.value)
            else |Encode(f)| == at + len && b[at..at + len] == f.payload
  {
    hide LengthBytes, Mask, FieldSize;
    FieldSizeIs(|f.payload|, f.key.Some?);
    var lead := [(if f.fin then 0x80 else 0) + f.op] + LengthBytes(|f.payload|, f.key.Some?);
    assert |lead| == at;
    if f.key.Some? {
      assert Encode(f) + rest == lead + f.key.value + Mask(f.payload, f.key.value) + rest;
    } else {
      assert Encode(f) + rest == lead + f.payload + rest;
    }
  }

  lemma PayloadEncoded(f: Frame, rest: Bytes, at: nat)
    requires at == 1 + FieldSize(|f.payload|) && |Encode(f) + rest| >= 2 && at <= |Encode(f) + rest|
    requires var b := Encode(f) + rest; b[0] % 16 == f.op && (b[0] >= 0x80) == f.fin && (b[1] >= 0x80) == f.key.Some?
    ensures Payload(Encode(f) + rest, |f.payload|, at) == Got(f, |Encode(f)|)
  {
    hide Encode, Mask, FieldSize;
    EncodedParts(f, rest, at);
    if f.key.Some? { MaskTwice(f.payload, f.key.value); }
  }

  // ----- Every other frame is refused, and for what -----

  /** The first rule a frame breaks that its first two octets show, in the reader's order. */
  function FirstRule(f: Frame, c: Config, pending: Option<nat>): Option<Fail> {
    if !Opcode(f.op) then Some(UnknownOpcode)
    else if c.server && f.key.None? then Some(UnmaskedClientFrame)
    else if !c.server && f.key.Some? then Some(MaskedServerFrame)
    else if f.op == CONTINUATION && pending.None? then Some(UnexpectedContinuation)
    else if (f.op == TEXT || f.op == BINARY) && pending.Some? then Some(ExpectedContinuation)
    else None
  }

  /** The first rule a frame breaks. */
  function FaultOf(f: Frame, c: Config, pending: Option<nat>): Option<Fail> {
    if FirstRule(f, c, pending).Some? then FirstRule(f, c, pending)
    else if f.op >= CLOSE && !(f.fin && |f.payload| <= 125) then Some(InvalidControl)
    else if f.op < CLOSE && |f.payload| + (if pending.Some? then pending.value else 0) > c.max then Some(TooBig)
    else None
  }

  /** How much of a frame that breaks a rule must arrive for it to be refused: never any of its payload. */
  function Telling(f: Frame, c: Config, pending: Option<nat>): nat {
    if FirstRule(f, c, pending).Some? then 2 else 1 + FieldSize(|f.payload|)
  }

  /** A frame that breaks a rule is refused as soon as the octets that show it have arrived. */
  lemma RefusedEarly(f: Frame, c: Config, pending: Option<nat>, b: Bytes)
    requires |f.payload| < LIMIT && FaultOf(f, c, pending).Some? && Telling(f, c, pending) <= |b|
    requires b[..Telling(f, c, pending)] == Encode(f)[..Telling(f, c, pending)]
    ensures Parse(b, c, pending) == Bad(FaultOf(f, c, pending).value)
  {
    hide LengthField, Encode, FieldSize, Opcode;
    FirstOctets(f);
    var n := Telling(f, c, pending);
    FieldSizeBounds(|f.payload|);
    assert b[0] == b[..n][0] && b[1] == b[..n][1] && Encode(f)[0] == Encode(f)[..n][0] && Encode(f)[1] == Encode(f)[..n][1];
    FirstFaultIs(f, c, pending, b);
    if FirstRule(f, c, pending).None? {
      LengthKnown(f, b);
      LengthFaultIs(f, c, pending, b, n);
    }
  }

  lemma FieldSizeBounds(len: nat)
    ensures 1 <= FieldSize(len) <= 9
  {
  }

  lemma FirstOctets(f: Frame)
    requires |f.payload| < LIMIT
    ensures var b := Encode(f);
            && |b| >= 1 + FieldSize(|f.payload|) >= 2
            && b[0] % 16 == f.op && b[0] / 16 % 8 == 0 && (b[0] >= 0x80) == f.fin
            && (b[1] >= 0x80) == f.key.Some?
  {
    hide Encode, LengthField;
    HeaderShape(f, []);
    assert Encode(f) + [] == Encode(f);
    EncodedParts(f, [], 1 + FieldSize(|f.payload|));
  }

  lemma FirstFaultIs(f: Frame, c: Config, pending: Option<nat>, b: Bytes)
    requires |b| >= 2 && b[0] % 16 == f.op && b[0] / 16 % 8 == 0 && (b[1] >= 0x80) == f.key.Some?
    ensures FirstFault(b, c, pending) == FirstRule(f, c, pending)
  {
    hide Opcode;
  }

  lemma LengthKnown(f: Frame, b: Bytes)
    requires |f.payload| < LIMIT
    requires var n := 1 + FieldSize(|f.payload|); n <= |b| && n <= |Encode(f)| && b[..n] == Encode(f)[..n]
    ensures |b| >= 2 && LengthField(b) == Some((|f.payload|, 1 + FieldSize(|f.payload|)))
  {
    hide LengthField, LengthBytes, MaskWith;
    var s := LengthBytes(|f.payload|, f.key.Some?);
    FieldSizeIs(|f.payload|, f.key.Some?);
    var rest := (if f.key.Some? then f.key.value else []) + MaskWith(f.payload, f.key);
    assert Encode(f) == [(if f.fin then 0x80 else 0) + f.op] + s + rest;
    assert Encode(f)[..1 + |s|][1..] == s;
    assert b[1..1 + |s|] == b[..1 + |s|][1..];
    LengthFieldShape(|f.payload|, f.key.Some?, b);
  }

  lemma LengthFaultIs(f: Frame, c: Config, pending: Option<nat>, b: Bytes, at: nat)
    requires |b| >= 2 && b[0] % 16 == f.op && (b[0] >= 0x80) == f.fin && |f.payload| < LIMIT
    requires at == 1 + FieldSize(|f.payload|) && FirstRule(f, c, pending).None?
    ensures LengthFault(b, |f.payload|, at, c, pending) == FaultOf(f, c, pending)
  {
    hide FirstRule;
  }

  /** Every frame at the front of the input: taken if acceptable, else refused for the first rule it breaks. */
  lemma ParseAnyFrame(f: Frame, rest: Bytes, c: Config, pending: Option<nat>)
    requires |f.payload| < LIMIT
    ensures FaultOf(f, c, pending).None? <==> Acceptable(f, c, pending)
    ensures Parse(Encode(f) + rest, c, pending)
         == if Acceptable(f, c, pending) then Got(f, |Encode(f)|) else Bad(FaultOf(f, c, pending).value)
  {
    hide Parse, Encode;
    if Acceptable(f, c, pending) {
      ParseEncoded(f, rest, c, pending);
    } else {
      FirstOctets(f);
      var n := Telling(f, c, pending);
      assert (Encode(f) + rest)[..n] == Encode(f)[..n];
      RefusedEarly(f, c, pending, Encode(f) + rest);
    }
  }

  /** What is no frame at all: a reserved bit, or a length not in its shortest form. */
  lemma MalformedExact(b: Bytes, c: Config, pending: Option<nat>)
    ensures Parse(b, c, pending) == Bad(ReservedBits) <==> |b| >= 2 && b[0] % 128 >= 16
    ensures Parse(b, c, pending) == Bad(InvalidLength)
            <==> |b| >= 2 && FirstFault(b, c, pending).None? && LongForm(b)
  {
    hide Opcode, Payload, FromBigEndian;
    if |b| >= 4 { TwoOctets(b[2..4]); }
    if |b| >= 10 { EightOctets(b[2..10]); }
  }

  lemma TwoOctets(s: Bytes)
    requires |s| == 2
    ensures FromBigEndian(s) == s[0] as int * 256 + s[1]
  {
    assert s[..1][..0] == [] && FromBigEndian(s[..1]) == s[0];
  }

  lemma {:induction false} Leading(s: Bytes)
    requires s != []
    ensures FromBigEndian(s) == s[0] * Power256(|s| - 1) + FromBigEndian(s[1..])
  {
    if |s| == 1 {
      assert FromBigEndian(s[..0]) == 0;
    } else {
      var n := |s| - 1;
      Leading(s[..n]);
      assert s[..n][1..] == s[1..][..n - 1];
    }
  }

  lemma EightOctets(s: Bytes)
    requires |s| == 8
    ensures FromBigEndian(s) < 65536 <==> s[..6] == [0, 0, 0, 0, 0, 0]
    ensures FromBigEndian(s) >= LIMIT <==> s[0] >= 128
  {
    hide FromBigEndian;
    Leading(s);
    BigEndianEncodes(s[1..]);
    assert Power256(7) == 0x100_0000_0000_0000;
    AllButTwo(s);
    BigEndianEncodes(s[..6]);
    Zeros(6);
    if s[..6] == [0, 0, 0, 0, 0, 0] {
      assert s[..6] == BigEndian(0, 6);
      assert Power256(6) == 0x1_0000_0000_0000;
      BigEndianDecodes(0, 6);
    }
  }

  lemma AllButTwo(s: Bytes)
    requires |s| == 8
    ensures FromBigEndian(s) < 65536 <==> FromBigEndian(s[..6]) == 0
  {
    assert s[..7][..6] == s[..6];
    assert FromBigEndian(s[..7]) == FromBigEndian(s[..6]) * 256 + s[6];
    assert FromBigEndian(s) == FromBigEndian(s[..7]) * 256 + s[7];
  }

  /** A length given in more octets than it takes, or beyond what 63 bits hold. */
  predicate LongForm(b: Bytes)
    requires |b| >= 2
  {
    || (b[1] % 128 == 126 && |b| >= 4 && b[2] == 0 && b[3] < 126)
    || (b[1] % 128 == 127 && |b| >= 10 && (b[2..8] == [0, 0, 0, 0, 0, 0] || b[2] >= 128))
  }

  lemma LengthBytesShape(b: Bytes, len: nat, at: nat)
    requires |b| >= 2 && LengthField(b) == Some((len, at))
    requires at == 4 ==> len >= 126
    requires at == 10 ==> 65536 <= len < LIMIT
    ensures len < LIMIT
    ensures b[1..at] == LengthBytes(len, b[1] >= 0x80)
  {
    if at == 4 {
      BigEndianEncodes(b[2..4]);
      assert Power256(2) == 0x10000;
    } else if at == 10 {
      BigEndianEncodes(b[2..10]);
    }
  }

  lemma PayloadCanonical(b: Bytes, len: nat, at: nat)
    requires |b| >= 2 && 2 <= at <= |b| && Payload(b, len, at).Got?
    requires b[0] / 16 % 8 == 0 && b[1..at] == LengthBytes(len, b[1] >= 0x80)
    ensures var p := Payload(b, len, at);
            |p.frame.payload| == len && p.size <= |b| && b[..p.size] == Encode(p.frame)
  {
    hide Mask, LengthBytes, Encode;
    var Got(f, size) := Payload(b, len, at);
    if f.key.Some? { MaskTwice(b[at + 4..at + 4 + len], f.key.value); }
    EncodedFrom(b, f, len, at, size);
  }

  /** The parts of a frame, put together again. */
  lemma EncodedFrom(b: Bytes, f: Frame, len: nat, at: nat, size: nat)
    requires 2 <= at <= size <= |b| && |f.payload| == len && b[1..at] == LengthBytes(len, f.key.Some?)
    requires b[0] == (if f.fin then 0x80 else 0) + f.op
    requires f.key.Some? ==> size == at + 4 + len && b[at..at + 4] == f.key.value && b[at + 4..size] == Mask(f.payload, f.key.value)
    requires f.key.None? ==> size == at + len && b[at..size] == f.payload
    ensures b[..size] == Encode(f)
  {
    hide Mask, LengthBytes;
    if f.key.Some? {
      assert b[..size] == [b[0]] + b[1..at] + b[at..at + 4] + b[at + 4..size];
    } else {
      assert b[..size] == [b[0]] + b[1..at] + b[at..size];
    }
  }

  /** Whatever is decoded, the bytes consumed are its minimal encoding. */
  lemma ParseCanonical(b: Bytes, c: Config, pending: Option<nat>)
    requires Parse(b, c, pending).Got?
    ensures var p := Parse(b, c, pending);
            Acceptable(p.frame, c, pending) && p.size <= |b| && b[..p.size] == Encode(p.frame)
  {
    hide Mask, LengthBytes, Encode;
    var Some((len, at)) := LengthField(b);
    LengthBytesShape(b, len, at);
    PayloadCanonical(b, len, at);
  }

  lemma PayloadMonotone(b: Bytes, t: Bytes, len: nat, at: nat)
    requires |b| >= 2 && at <= |b| && Payload(b, len, at).Got?
    ensures Payload(b + t, len, at) == Payload(b, len, at)
  {
    hide Mask;
    assert forall i, j | 0 <= i <= j <= |b| :: (b + t)[i..j] == b[i..j];
  }

  lemma LengthFieldMonotone(b: Bytes, t: Bytes)
    requires |b| >= 2 && LengthField(b).Some?
    ensures LengthField(b + t) == LengthField(b)
  {
    hide FromBigEndian;
    assert forall i, j | 0 <= i <= j <= |b| :: (b + t)[i..j] == b[i..j];
  }

  /** More input never changes a verdict. */
  lemma ParseMonotone(b: Bytes, t: Bytes, c: Config, pending: Option<nat>)
    requires !Parse(b, c, pending).More?
    ensures Parse(b + t, c, pending) == Parse(b, c, pending)
  {
    hide Payload, LengthField;
    assert FirstFault(b + t, c, pending) == FirstFault(b, c, pending);
    if FirstFault(b, c, pending).None? {
      LengthFieldMonotone(b, t);
      var Some((len, at)) := LengthField(b);
      if LengthFault(b, len, at, c, pending).None? {
        PayloadMonotone(b, t, len, at);
      }
    }
  }

  /** A waiting reader holds less than one header and one admissible payload. */
  lemma MoreIsBounded(b: Bytes, c: Config, pending: Option<nat>)
    requires Parse(b, c, pending).More?
    requires pending.Some? ==> pending.value <= c.max
    ensures |b| < 14 + Max(c.max - (if pending.Some? then pending.value else 0), 125)
  {
  }

  lemma EmptyWaits(c: Config, pending: Option<nat>)
    ensures Parse([], c, pending).More?
  {
  }
}
