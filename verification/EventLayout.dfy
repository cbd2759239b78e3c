/** The bytes of `snd_seq_event_t`, position by position: an independent picture of the struct, in plain
    numbers, that the codec is held against in both directions. */
module EventLayout {
  import opened Base
  import opened Bytes
  import opened RealTime
  import opened EventCodec
  import opened EventRoundTrip

  /** The four bytes of an `unsigned int`, least significant first. */
  function Le32(x: int): seq<int> {
    [x % 256, x / 256 % 256, x / 65536 % 256, x / 16777216]
  }

  /** The four bytes of a `signed int`. */
  function Signed32(x: int): seq<int> {
    Le32(if x < 0 then x + 4294967296 else x)
  }

  /** The flags of a struct: stamp in bit 0, mode in bit 1, length in bit 2, the others as they are. */
  function WireFlags(e: Event): int
    requires e.flags.Some?
  {
    var f := e.flags.value;
    f / 8 * 8
    + (if e.fields.ExternalFields? then 4 else f / 4 % 2 * 4)
    + (if e.relative == Some(true) then 2 else if e.relative == Some(false) then 0 else f / 2 % 2 * 2)
    + (if e.time.Some? then 1 else if e.tick.Some? then 0 else f % 2)
  }

  /** Bytes 0 to 15. */
  function WireHeader(e: Event, flags: int, args: Args): seq<int>
    requires e.eventType.Some?
  {
    [e.eventType.value, flags, e.tag, WireQueueId(e, args)] + WireStamp(e) + WireSource(e, args) + WireDest(e, args)
  }

  function WireQueueId(e: Event, args: Args): int {
    if args.queue.QueueId? then args.queue.id else if e.queueId.Some? then e.queueId.value else 253
  }

  function WireStamp(e: Event): seq<int> {
    if e.time.Some? then Le32(e.time.value.seconds) + Le32(e.time.value.nanoseconds)
    else if e.tick.Some? then Le32(e.tick.value) + [0, 0, 0, 0]
    else [0, 0, 0, 0, 0, 0, 0, 0]
  }

  function WireSource(e: Event, args: Args): seq<int> {
    if args.port.Some? then [0, args.port.value]
    else if e.source.Some? then [e.source.value.client, e.source.value.port]
    else [0, 0]
  }

  function WireDest(e: Event, args: Args): seq<int> {
    if args.dest.Some? then [args.dest.value.client, args.dest.value.port]
    else if e.dest.Some? then [e.dest.value.client, e.dest.value.port]
    else [254, 0]
  }

  /** The raw data as twelve bytes. */
  function WireRaw(e: Event): (r: seq<int>)
    ensures |r| == 12
  {
    var data: seq<int> := e.rawData.GetOr([]);
    if |data| < 12 then data + seq(12 - |data|, _ => 0) else data[..12]
  }

  /** Bytes 16 to 27, by type number; what the class does not write is raw data. */
  function WireData(t: int, f: Fields, raw: seq<int>, place: seq<byte> -> Pointer): seq<int>
    requires |raw| == 12
  {
    if t in {0, 1} && f.ResultFields? then
      Signed32(f.event) + Signed32(f.result) + raw[8..]
    else if t == 5 && f.FullNoteFields? then
      [f.channel, f.note, f.velocity, f.offVelocity] + Le32(f.duration) + raw[8..]
    else if t in {6, 7, 8} && f.NoteFields? then
      [f.channel, f.note, f.velocity] + raw[3..]
    else if t in {10, 14, 15, 16} && f.ControlFields? then
      [f.channel] + raw[1..4] + Le32(f.param) + Signed32(f.value)
    else if t in {11, 12, 13, 20, 21, 23, 24} && f.ParamFields? then
      [f.channel] + raw[1..8] + Signed32(f.value)
    else if t in {30, 31, 32, 36, 37} && f.QueueFields? then
      WireQueue(f.queue, raw) + raw[4..]
    else if t == 33 && f.TickPositionFields? then
      WireQueue(f.queue, raw) + Le32(f.tick) + raw[8..]
    else if t == 34 && f.TimePositionFields? then
      WireQueue(f.queue, raw) + Le32(f.time.seconds) + Le32(f.time.nanoseconds)
    else if t == 35 && f.TempoFields? then
      WireQueue(f.queue, raw) + Signed32(f.midiTempo) + raw[8..]
    else if t == 38 && f.SkewFields? then
      WireQueue(f.queue, raw) + Le32(f.skew) + Le32(f.base)
    else if t == 39 && f.SyncPositionFields? then
      WireQueue(f.queue, raw) + Le32(f.position) + raw[8..]
    else if t in {60, 61, 62, 63, 64, 65} && f.AddrFields? then
      [f.addr.client, f.addr.port] + raw[2..]
    else if t in {66, 67} && f.ConnectFields? then
      [f.sender.client, f.sender.port, f.dest.client, f.dest.port] + raw[4..]
    else if t in {130, 131, 135, 136, 137, 138, 139} && f.ExternalFields? then
      Le32(|f.data|) + place(f.data)
    else
      raw
  }

  /** The control queue in front of three unused bytes. */
  function WireQueue(queue: Option<int>, raw: seq<int>): seq<int>
    requires |raw| == 12
  {
    [if queue.Some? then queue.value else raw[0]] + raw[1..4]
  }

  function Wire(e: Event, args: Args, place: seq<byte> -> Pointer): seq<int>
    requires e.flags.Some? && e.eventType.Some?
  {
    WireHeader(e, WireFlags(e), args) + WireData(e.eventType.value, e.fields, WireRaw(e), place)
  }

  /* ---------- Encoding ---------- */

  lemma PutIsLe32(s: seq<byte>, at: nat, x: int)
    requires at + 4 <= |s| && IsU32(x)
    ensures PutU32(s, at, x) == s[..at] + Le32(x) + s[at + 4..]
  {
    assert x / 256 / 256 == x / 65536 && x / 65536 / 256 == x / 16777216;
  }

  lemma SignedIsUnsigned(x: int)
    requires IsI32(x)
    ensures IsU32(ToUnsigned(x)) && Signed32(x) == Le32(ToUnsigned(x))
  {
    SignedUnsigned(x);
  }

  lemma StampedIsWire(e: Event)
    requires e.flags.Some? && !(e.time.Some? && e.tick.Some?)
    ensures var f := StampedFlags(e, e.flags.value);
            WireFlags(e) == if e.fields.ExternalFields? then SetBit(f, 4, true) else f
  {
    BitwiseWire(e.flags.value, e.time.Some?, e.tick.Some?, e.relative, e.fields.ExternalFields?);
  }

  lemma FourParts(f: int)
    ensures f == FromBits(f / 8, f / 4 % 2, f / 2 % 2, f % 2)
  {
    Bits(f);
    EighthOf(f / 4 / 2, Bit(f, 4), Bit(f, 2), Bit(f, 1));
  }

  lemma BitwiseWire(f: int, real_: bool, tick: bool, relative: Option<bool>, external: bool)
    requires !(real_ && tick)
    ensures var f1 := if real_ then SetBit(f, 1, true) else f;
            var f2 := if tick then SetBit(f1, 1, false) else f1;
            var f3 := if relative.Some? then SetBit(f2, 2, relative.value) else f2;
            (if external then SetBit(f3, 4, true) else f3)
            == f / 8 * 8
               + (if external then 4 else f / 4 % 2 * 4)
               + (if relative == Some(true) then 2 else if relative == Some(false) then 0 else f / 2 % 2 * 2)
               + (if real_ then 1 else if tick then 0 else f % 2)
  {
    var q, length, mode, stamp := f / 8, f / 4 % 2, f / 2 % 2, f % 2;
    FourParts(f);
    hide SetBit, Bit;
    var stamp1 := if real_ then 1 else if tick then 0 else stamp;
    var mode1 := if relative.Some? then (if relative.value then 1 else 0) else mode;
    SetBitIs(q, length, mode, stamp, real_);
    SetBitIs(q, length, mode, stamp1, relative == Some(true));
    SetBitIs(q, length, mode1, stamp1, true);
  }

  lemma Le32OfGet(s: seq<byte>, at: nat)
    requires at + 4 <= |s|
    ensures s[at..at + 4] == Le32(GetU32(s, at))
  {
    Joined(s[at + 2], s[at + 3]);
    Joined(s[at + 1], Join(s[at + 2], s[at + 3]));
    Joined(s[at], Join(s[at + 1], Join(s[at + 2], s[at + 3])));
    var x := GetU32(s, at);
    assert x / 256 / 256 == x / 65536 && x / 65536 / 256 == x / 16777216;
  }

  /** The header as the base class leaves it. */
  lemma BaseIsWire(e: Event, args: Args)
    requires e.eventType.Some? && EncodeBase(e, ZERO, args).Success?
    ensures e.flags.Some? && !(e.time.Some? && e.tick.Some?)
    ensures var b := EncodeBase(e, ZERO, args).value;
            && b[1] == StampedFlags(e, e.flags.value)
            && b[..16] == WireHeader(e, b[1], args)
            && b[16..] == WireRaw(e)
  {
    var b := EncodeBase(e, ZERO, args).value;
    HeaderWritten(e, args);
    RawDataWritten(e, args);
    assert Padded(e.rawData) == WireRaw(e);
    hide EncodeBase, StampedFlags, WireHeader, WireRaw;
    HeaderIsWire(b, e, args);
  }

  lemma HeaderIsWire(b: Struct, e: Event, args: Args)
    requires Header(b, e, args)
    ensures b[..16] == WireHeader(e, b[1], args)
  {
    StampIsWire(b, e, args);
    assert WireQueueId(e, args) == b[3];
    assert WireSource(e, args) == b[12..14] && WireDest(e, args) == b[14..16];
    hide *;
    FourPieces(b);
    assert WireHeader(e, b[1], args) == [b[0], b[1], b[2], b[3]] + b[4..12] + b[12..14] + b[14..16] by {
      HeaderPieces(b, e, args);
    }
  }

  lemma HeaderPieces(b: Struct, e: Event, args: Args)
    requires e.eventType == Some(b[0]) && e.tag == b[2] && WireQueueId(e, args) == b[3]
    requires WireStamp(e) == b[4..12] && WireSource(e, args) == b[12..14] && WireDest(e, args) == b[14..16]
    ensures WireHeader(e, b[1], args) == [b[0], b[1], b[2], b[3]] + b[4..12] + b[12..14] + b[14..16]
  {}

  lemma FourPieces(b: Struct)
    ensures b[..16] == [b[0], b[1], b[2], b[3]] + b[4..12] + b[12..14] + b[14..16]
  {}

  lemma HeaderFlags(e: Event, args: Args, f: int, g: int)
    requires e.eventType.Some?
    ensures WireHeader(e, f, args)[1 := g] == WireHeader(e, g, args)
  {}

  lemma StampIsWire(b: Struct, e: Event, args: Args)
    requires Header(b, e, args)
    ensures b[4..12] == WireStamp(e)
  {
    Le32OfGet(b, 4);
    Le32OfGet(b, 8);
    ZeroWord();
    assert b[4..12] == b[4..8] + b[8..12];
  }

  lemma ZeroWord()
    ensures Le32(0) == [0, 0, 0, 0]
  {}

  /** The fields of each class, over the raw data. */
  lemma SmallFieldsAreWire(t: int, f: Fields, b: Struct, place: seq<byte> -> Pointer)
    requires KindOf(t) in {Generic, Plain, Note, QueueControl, Addr, Connect}
    requires ClassFields(KindOf(t), f) && EncodeFields(f, b, place).Success?
    ensures EncodeFields(f, b, place).value[16..] == WireData(t, f, b[16..], place)
  {}

  /** One number, or two in a row, written into the data. */
  lemma OneWord(s: Struct, at: nat, x: int)
    requires 16 <= at <= 24 && IsU32(x)
    ensures PutU32(s, at, x)[16..] == s[16..at] + Le32(x) + s[at + 4..]
  {
    PutIsLe32(s, at, x);
  }

  lemma TwoWords(s: Struct, at: nat, x: int, y: int)
    requires 16 <= at <= 20 && IsU32(x) && IsU32(y)
    ensures PutU32(PutU32(s, at, x), at + 4, y)[16..] == s[16..at] + Le32(x) + Le32(y) + s[at + 8..]
  {
    hide Le32, PutU32;
    var s1 := PutU32(s, at, x);
    PutIsLe32(s, at, x);
    PutIsLe32(s1, at + 4, y);
    assert s1[16..at + 4] == s[16..at] + Le32(x) && s1[at + 8..] == s[at + 8..];
  }

  lemma NumbersAreWire(t: int, f: Fields, b: Struct, place: seq<byte> -> Pointer)
    requires KindOf(t) in {Kind.Result, FullNote, Control, Param}
    requires ClassFields(KindOf(t), f) && EncodeFields(f, b, place).Success?
    ensures EncodeFields(f, b, place).value[16..] == WireData(t, f, b[16..], place)
  {
    hide PutU32, Le32;
    match KindOf(t)
    case Result =>
      SignedIsUnsigned(f.event);
      SignedIsUnsigned(f.result);
      TwoWords(b, 16, ToUnsigned(f.event), ToUnsigned(f.result));
    case FullNote =>
      OneWord(b[17 := f.note][16 := f.channel][18 := f.velocity][19 := f.offVelocity], 20, f.duration);
    case Control =>
      SignedIsUnsigned(f.value);
      TwoWords(b[16 := f.channel], 20, f.param, ToUnsigned(f.value));
    case Param =>
      SignedIsUnsigned(f.value);
      OneWord(b[16 := f.channel], 24, ToUnsigned(f.value));
  }

  lemma QueueNumberIsWire(t: int, f: Fields, b: Struct, place: seq<byte> -> Pointer)
    requires KindOf(t) in {TickPosition, Tempo, SyncPosition}
    requires ClassFields(KindOf(t), f) && EncodeFields(f, b, place).Success?
    ensures EncodeFields(f, b, place).value[16..] == WireData(t, f, b[16..], place)
  {
    hide PutU32, Le32;
    var s1 := if f.queue.Some? then b[16 := f.queue.value] else b;
    QueueIsWire(f.queue, b);
    match KindOf(t)
    case TickPosition => OneWord(s1, 20, f.tick);
    case Tempo =>
      SignedIsUnsigned(f.midiTempo);
      OneWord(s1, 20, ToUnsigned(f.midiTempo));
    case SyncPosition => OneWord(s1, 20, f.position);
  }

  lemma QueuePairIsWire(t: int, f: Fields, b: Struct, place: seq<byte> -> Pointer)
    requires KindOf(t) in {TimePosition, Skew}
    requires ClassFields(KindOf(t), f) && EncodeFields(f, b, place).Success?
    ensures EncodeFields(f, b, place).value[16..] == WireData(t, f, b[16..], place)
  {
    hide PutU32, Le32;
    var s1 := if f.queue.Some? then b[16 := f.queue.value] else b;
    QueueIsWire(f.queue, b);
    if f.TimePositionFields? {
      TwoWords(s1, 20, f.time.seconds, f.time.nanoseconds);
    } else {
      TwoWords(s1, 20, f.skew, f.base);
    }
  }

  lemma QueueIsWire(queue: Option<int>, b: Struct)
    requires queue.Some? ==> IsByte(queue.value)
    ensures var s := if queue.Some? then b[16 := queue.value] else b;
            s[16..20] == WireQueue(queue, b[16..]) && s[24..] == b[16..][8..]
  {}

  lemma ExternalIsWire(t: int, f: Fields, b: Struct, place: seq<byte> -> Pointer)
    requires KindOf(t) == External && f.ExternalFields? && EncodeFields(f, b, place).Success?
    ensures EncodeFields(f, b, place).value[16..] == WireData(t, f, b[16..], place)
  {
    hide PutU32;
    PutIsLe32(b[1 := SetBit(b[1], 4, true)], 16, |f.data|);
  }

  lemma FieldsAreWire(t: int, f: Fields, b: Struct, place: seq<byte> -> Pointer)
    requires ClassFields(KindOf(t), f) && EncodeFields(f, b, place).Success?
    ensures EncodeFields(f, b, place).value[16..] == WireData(t, f, b[16..], place)
  {
    hide EncodeFields, WireData;
    KindOfFields(KindOf(t), f);
    if KindOf(t) in {Generic, Plain, Note, QueueControl, Addr, Connect} {
      SmallFieldsAreWire(t, f, b, place);
    } else if KindOf(t) in {Kind.Result, FullNote, Control, Param} {
      NumbersAreWire(t, f, b, place);
    } else if KindOf(t) == External {
      ExternalIsWire(t, f, b, place);
    } else if KindOf(t) in {TimePosition, Skew} {
      QueuePairIsWire(t, f, b, place);
    } else {
      QueueNumberIsWire(t, f, b, place);
    }
  }

  /** Every in-range event is encoded to exactly the 28 bytes of the layout. */
  lemma EncodedAsLaidOut(e: Event, args: Args, place: seq<byte> -> Pointer)
    requires Constructed(e) && InRange(e, args)
    ensures Encode(e, ZERO, args, place).Success?
    ensures e.flags.Some? && Encode(e, ZERO, args, place).value == Wire(e, args, place)
  {
    var t := e.eventType.value;
    EncodesIff(e, ZERO, args, place);
    var b := EncodeBase(e, ZERO, args).value;
    var r := Encode(e, ZERO, args, place).value;
    BaseIsWire(e, args);
    StampedIsWire(e);
    FieldsFrame(e.fields, b, place);
    FieldsAreWire(t, e.fields, b, place);
    hide EncodeBase, EncodeFields, WireData, WireHeader, StampedFlags;
    HeaderFlags(e, args, b[1], r[1]);
    assert r[..16] == b[..16][1 := r[1]];
    assert r == r[..16] + r[16..];
  }

  /** The types that have no class of their own, and are handled by `Event` itself. */
  lemma TypesWithoutClass(t: int)
    ensures KindOf(t) == Generic <==>
              t !in {0, 1, 5, 6, 7, 8, 10, 11, 12, 13, 14, 15, 16, 20, 21, 23, 24, 30, 31, 32, 33, 34, 35, 36, 37, 38, 39,
                     40, 41, 42, 50, 51, 60, 61, 62, 63, 64, 65, 66, 67, 130, 131, 135, 136, 137, 138, 139}
  {}

  /* ---------- Decoding ---------- */

  /** The number in four bytes, least significant first. */
  function Word(s: Struct, at: nat): int
    requires at + 4 <= 28
  {
    var b0: int, b1: int, b2: int, b3: int := s[at], s[at + 1], s[at + 2], s[at + 3];
    b0 + 256 * b1 + 65536 * b2 + 16777216 * b3
  }

  function SignedWord(s: Struct, at: nat): int
    requires at + 4 <= 28
  {
    if s[at + 3] >= 128 then Word(s, at) - 4294967296 else Word(s, at)
  }

  /** A time with the total that seconds and nanoseconds in the struct make up. */
  predicate TimeAt(t: Time, s: Struct, at: nat)
    requires at + 8 <= 28
  {
    && 0 <= t.nanoseconds < 1000000000
    && t.seconds * 1000000000 + t.nanoseconds == Word(s, at) * 1000000000 + Word(s, at + 4)
  }

  /** The note constructors refuse numbers out of range; nothing else is refused. */
  predicate Refused(s: Struct) {
    5 <= s[0] <= 8 && (s[16] >= 16 || s[17] >= 128 || s[18] >= 128 || (s[0] == 5 && s[19] >= 128))
  }

  predicate FieldsLaidOut(f: Fields, s: Struct, memory: Memory) {
    var t, q := s[0], Some(s[16]);
    if t in {0, 1} then f == ResultFields(SignedWord(s, 16), SignedWord(s, 20))
    else if t == 5 then f == FullNoteFields(s[17], s[16], s[18], s[19], Word(s, 20))
    else if t in {6, 7, 8} then f == NoteFields(s[17], s[16], s[18])
    else if t in {10, 14, 15, 16} then f == ControlFields(s[16], Word(s, 20), SignedWord(s, 24))
    else if t in {11, 12, 13, 20, 21, 23, 24} then f == ParamFields(s[16], SignedWord(s, 24))
    else if t in {30, 31, 32, 36, 37} then f == QueueFields(q)
    else if t == 33 then f == TickPositionFields(q, Word(s, 20))
    else if t == 34 then f.TimePositionFields? && f.queue == q && TimeAt(f.time, s, 20)
    else if t == 35 then f == TempoFields(q, SignedWord(s, 20))
    else if t == 38 then f == SkewFields(q, Word(s, 20), Word(s, 24))
    else if t == 39 then f == SyncPositionFields(q, Word(s, 20))
    else if t in {60, 61, 62, 63, 64, 65} then f == AddrFields(Address(s[16], s[17]))
    else if t in {66, 67} then f == ConnectFields(Address(s[16], s[17]), Address(s[18], s[19]))
    else if t in {130, 131, 135, 136, 137, 138, 139} then f == ExternalFields(memory(s[20..28], Word(s, 16)))
    else f == NoFields
  }

  lemma GetIsWord(s: Struct, at: nat)
    requires at + 4 <= 28
    ensures GetU32(s, at) == Word(s, at)
    ensures GetSigned(s, at) == SignedWord(s, at)
  {}

  lemma DecodedFieldsLaidOut(s: Struct, memory: Memory)
    ensures var r := DecodeFields(KindOf(s[0]), s, memory);
            && (r.Success? <==> !Refused(s))
            && (r.Success? ==> FieldsLaidOut(r.value, s, memory))
  {
    GetIsWord(s, 16);
    GetIsWord(s, 20);
    GetIsWord(s, 24);
    hide GetU32, GetSigned;
    assert s[20..28] == s[20..];
  }

  /** Every struct is decoded as the layout says. */
  lemma DecodedAsLaidOut(s: Struct, memory: Memory)
    ensures Decode(s, memory).Success? <==> !Refused(s)
    ensures Decode(s, memory).Success? ==>
              var e := Decode(s, memory).value;
              && e.eventType == Some(s[0]) && e.flags == Some(s[1]) && e.tag == s[2] && e.queueId == Some(s[3])
              && (if s[1] % 2 == 1 then e.time.Some? && TimeAt(e.time.value, s, 4) && e.tick == None
                  else e.time == None && e.tick == Some(Word(s, 4)))
              && e.relative == Some(s[1] / 2 % 2 == 1)
              && e.source == Some(Address(s[12], s[13])) && e.dest == Some(Address(s[14], s[15]))
              && e.rawData == Some(s[16..28])
              && FieldsLaidOut(e.fields, s, memory)
  {
    DecodedFieldsLaidOut(s, memory);
    GetIsWord(s, 4);
    GetIsWord(s, 8);
    hide DecodeFields, FieldsLaidOut, GetU32;
    assert s[16..28] == s[16..];
  }
}
