/** Events and the 28 byte `snd_seq_event_t`, little-endian with a packed data union:

      0 type   1 flags   2 tag   3 queue   4..11 time   12,13 source   14,15 dest   16..27 data

    `_to_alsa` of the base class writes the header and copies the raw data; the specialised classes
    then overwrite the parts of the data they know. `_from_alsa` reads the other way. */
module EventCodec {
  import opened Base
  import opened Bytes
  import opened RealTime

  const SIZE := 28
  const TYPE := 0
  const FLAGS := 1
  const TAG := 2
  const QUEUE := 3
  const TIME := 4
  const SOURCE := 12
  const DEST := 14
  const DATA := 16
  const PARAM := 20

  const QUEUE_DIRECT := 253
  const ADDRESS_SUBSCRIBERS := 254

  type Struct = s: seq<byte> | |s| == SIZE witness seq(SIZE, _ => 0)

  /** A fresh struct. */
  const ZERO: Struct := seq(SIZE, _ => 0)

  /** The eight bytes of a C pointer. */
  type Pointer = p: seq<byte> | |p| == 8 witness seq(8, _ => 0)

  datatype Address = Address(client: int, port: int)

  /** The shapes of the event classes. `Generic` stands for types without a class of their own, which
      are handled by `Event`; `Plain` for classes that add no field. */
  datatype Kind = Generic | Plain | Result | Note | FullNote | Control | Param | QueueControl
                | TickPosition | TimePosition | Tempo | Skew | SyncPosition | Addr | Connect | External

  /** `Event._specialized`, by type number. */
  function KindOf(eventType: int): Kind {
    if eventType in {0, 1} then Kind.Result
    else if eventType == 5 then FullNote
    else if 6 <= eventType <= 8 then Note
    else if eventType in {10, 14, 15, 16} then Control
    else if eventType in {11, 12, 13, 20, 21, 23, 24} then Param
    else if eventType in {30, 31, 32, 36, 37} then QueueControl
    else if eventType == 33 then TickPosition
    else if eventType == 34 then TimePosition
    else if eventType == 35 then Tempo
    else if eventType == 38 then Skew
    else if eventType == 39 then SyncPosition
    else if eventType in {40, 41, 42, 50, 51} then Plain
    else if 60 <= eventType <= 65 then Addr
    else if eventType in {66, 67} then Connect
    else if eventType in {130, 131} || 135 <= eventType <= 139 then External
    else Generic
  }

  /** The attributes a specialised class adds. */
  datatype Fields =
    | NoFields
    | ResultFields(event: int, result: int)
    | NoteFields(note: int, channel: int, velocity: int)
    | FullNoteFields(note: int, channel: int, velocity: int, offVelocity: int, duration: int)
    | ControlFields(channel: int, param: int, value: int)
    | ParamFields(channel: int, value: int)
    | QueueFields(queue: Option<int>)
    | TickPositionFields(queue: Option<int>, tick: int)
    | TimePositionFields(queue: Option<int>, time: Time)
    | TempoFields(queue: Option<int>, midiTempo: int)
    | SkewFields(queue: Option<int>, skew: int, base: int)
    | SyncPositionFields(queue: Option<int>, position: int)
    | AddrFields(addr: Address)
    | ConnectFields(sender: Address, dest: Address)
    | ExternalFields(data: seq<byte>)

  /** `flags` is None for an event constructed with `flags=None`, which leaves the attribute unset. */
  datatype Event = Event(
    eventType: Option<int>, flags: Option<int>, tag: int, queueId: Option<int>,
    time: Option<Time>, tick: Option<int>, source: Option<Address>, dest: Option<Address>,
    relative: Option<bool>, rawData: Option<seq<byte>>, fields: Fields)

  datatype Error = OverflowError | AssertionError | AttributeError | TypeError | ValueError

  /** The `queue` argument: absent, an id, or a `Queue` object that is closed and has no id. */
  datatype QueueArg = NoQueue | QueueId(id: int) | ClosedQueue

  datatype Args = Args(queue: QueueArg, port: Option<int>, dest: Option<Address>)

  const NO_ARGS := Args(NoQueue, None, None)

  /* ---------- Struct fields ---------- */

  type Written = Base.Result<Struct, Error>

  /** Assignment to an `unsigned char` field. */
  function Put8(s: Struct, at: nat, v: int): Written
    requires at < SIZE
  {
    if 0 <= v < 256 then Success(s[at := v]) else Failure(OverflowError)
  }

  /** Assignment to an `unsigned int` field. */
  function Put32(s: Struct, at: nat, v: int): Written
    requires at + 4 <= SIZE
  {
    if IsU32(v) then Success(PutU32(s, at, v)) else Failure(OverflowError)
  }

  /** Assignment to a `signed int` field. */
  function PutSigned(s: Struct, at: nat, v: int): Written
    requires at + 4 <= SIZE
  {
    if IsI32(v) then Success(PutU32(s, at, ToUnsigned(v))) else Failure(OverflowError)
  }

  function Put8Opt(s: Struct, at: nat, v: Option<int>): Written
    requires at < SIZE
  {
    if v.Some? then Put8(s, at, v.value) else Success(s)
  }

  function PutAddress(s: Struct, at: nat, a: Address): Written
    requires at + 2 <= SIZE
  {
    var s1 :- Put8(s, at, a.client);
    Put8(s1, at + 1, a.port)
  }

  function PutTime(s: Struct, at: nat, t: Time): Written
    requires at + 8 <= SIZE
  {
    var s1 :- Put32(s, at, t.seconds);
    Put32(s1, at + 4, t.nanoseconds)
  }

  function GetSigned(s: Struct, at: nat): int
    requires at + 4 <= SIZE
  {
    ToSigned(GetU32(s, at))
  }

  function GetAddress(s: Struct, at: nat): Address
    requires at + 2 <= SIZE
  {
    Address(s[at], s[at + 1])
  }

  /** `RealTime(tv_sec, tv_nsec)`, which normalises and cannot fail on unsigned fields. */
  function GetTime(s: Struct, at: nat): (t: Time)
    requires at + 8 <= SIZE
    ensures t.Valid() && t.Total() == GetU32(s, at) * BILLION + GetU32(s, at + 4)
  {
    MakeKeepsTotal(GetU32(s, at), GetU32(s, at + 4));
    Make(GetU32(s, at), GetU32(s, at + 4)).value
  }

  /* ---------- Encoding ---------- */

  function Bit(flags: int, weight: int): int
    requires weight > 0
  {
    flags / weight % 2
  }

  /** `flags & ~weight | (weight if on else 0)`. */
  function SetBit(flags: int, weight: int, on: bool): int
    requires weight > 0
  {
    flags - Bit(flags, weight) * weight + if on then weight else 0
  }

  /** The flags the base class stores: stamp bit 1, mode bit 2. */
  function StampedFlags(e: Event, flags: int): int {
    var f1 := if e.time.Some? then SetBit(flags, 1, true) else flags;
    var f2 := if e.tick.Some? then SetBit(f1, 1, false) else f1;
    if e.relative.Some? then SetBit(f2, 2, e.relative.value) else f2
  }

  function PutQueue(s: Struct, e: Event, queue: QueueArg): Written {
    match queue
    case QueueId(id) => Put8(s, QUEUE, id)
    case ClosedQueue => Failure(TypeError)
    case NoQueue => Put8(s, QUEUE, if e.queueId.Some? then e.queueId.value else QUEUE_DIRECT)
  }

  function PutStamp(s: Struct, e: Event): Written {
    if e.time.Some? && e.tick.Some? then Failure(AssertionError)
    else if e.time.Some? then PutTime(s, TIME, e.time.value)
    else if e.tick.Some? then Put32(s, TIME, e.tick.value)
    else Success(s)
  }

  function PutSource(s: Struct, e: Event, port: Option<int>): Written {
    if port.Some? then Put8(s, SOURCE + 1, port.value)
    else if e.source.Some? then PutAddress(s, SOURCE, e.source.value)
    else Success(s)
  }

  function PutDest(s: Struct, e: Event, dest: Option<Address>): Written {
    if dest.Some? then PutAddress(s, DEST, dest.value)
    else if e.dest.Some? then PutAddress(s, DEST, e.dest.value)
    else Put8(s, DEST, ADDRESS_SUBSCRIBERS)
  }

  /** At most twelve bytes of raw data, the rest of the data as it was. */
  function PutRaw(s: Struct, raw: Option<seq<byte>>): Struct {
    if raw.None? then s
    else
      var n := if |raw.value| < 12 then |raw.value| else 12;
      s[..DATA] + raw.value[..n] + s[DATA + n..]
  }

  /** `Event._to_alsa` as far as the timestamp. */
  function EncodeFront(e: Event, s: Struct, args: Args): Written {
    var s1 :- Put8Opt(s, TYPE, e.eventType);
    if e.flags.None? then Failure(AttributeError)
    else
      var s2 :- Put8(s1, TAG, e.tag);
      var s3 :- PutQueue(s2, e, args.queue);
      PutStamp(s3, e)
  }

  /** The rest of it: addresses, raw data and, last, the flags. */
  function EncodeBack(e: Event, s: Struct, args: Args): Written
    requires e.flags.Some?
  {
    var s1 :- PutSource(s, e, args.port);
    var s2 :- PutDest(s1, e, args.dest);
    Put8(PutRaw(s2, e.rawData), FLAGS, StampedFlags(e, e.flags.value))
  }

  /** `Event._to_alsa`. */
  function EncodeBase(e: Event, s: Struct, args: Args): Written {
    var s1 :- EncodeFront(e, s, args);
    EncodeBack(e, s1, args)
  }

  function PutNote(s: Struct, note: int, channel: int, velocity: int): Written {
    var s1 :- Put8(s, DATA + 1, note);
    var s2 :- Put8(s1, DATA, channel);
    Put8(s2, DATA + 2, velocity)
  }

  function PutExternal(s: Struct, data: seq<byte>, p: Pointer): Written {
    var s1 :- Put8(s, FLAGS, SetBit(s[FLAGS], 4, true));
    var s2 :- Put32(s1, DATA, |data|);
    Success(s2[..PARAM] + p)
  }

  /** What the `_to_alsa` of the specialised classes write over the base. `place` is where
      `ffi.from_buffer` finds the payload of an external event. */
  function EncodeFields(f: Fields, s: Struct, place: seq<byte> -> Pointer): Written {
    match f
    case NoFields => Success(s)
    case ResultFields(event, result) =>
      var s1 :- PutSigned(s, DATA, event);
      PutSigned(s1, DATA + 4, result)
    case NoteFields(note, channel, velocity) => PutNote(s, note, channel, velocity)
    case FullNoteFields(note, channel, velocity, offVelocity, duration) =>
      var s1 :- PutNote(s, note, channel, velocity);
      var s2 :- Put8(s1, DATA + 3, offVelocity);
      Put32(s2, DATA + 4, duration)
    case ControlFields(channel, param, value) =>
      var s1 :- Put8(s, DATA, channel);
      var s2 :- Put32(s1, DATA + 4, param);
      PutSigned(s2, DATA + 8, value)
    case ParamFields(channel, value) =>
      var s1 :- Put8(s, DATA, channel);
      PutSigned(s1, DATA + 8, value)
    case QueueFields(queue) => Put8Opt(s, DATA, queue)
    case TickPositionFields(queue, tick) =>
      var s1 :- Put8Opt(s, DATA, queue);
      Put32(s1, PARAM, tick)
    case TimePositionFields(queue, time) =>
      var s1 :- Put8Opt(s, DATA, queue);
      PutTime(s1, PARAM, time)
    case TempoFields(queue, midiTempo) =>
      var s1 :- Put8Opt(s, DATA, queue);
      PutSigned(s1, PARAM, midiTempo)
    case SkewFields(queue, skew, base) =>
      var s1 :- Put8Opt(s, DATA, queue);
      var s2 :- Put32(s1, PARAM, skew);
      Put32(s2, PARAM + 4, base)
    case SyncPositionFields(queue, position) =>
      var s1 :- Put8Opt(s, DATA, queue);
      Put32(s1, PARAM, position)
    case AddrFields(addr) => PutAddress(s, DATA, addr)
    case ConnectFields(sender, dest) =>
      var s1 :- PutAddress(s, DATA, sender);
      PutAddress(s1, DATA + 2, dest)
    case ExternalFields(data) => PutExternal(s, data, place(data))
  }

  /** `_to_alsa` of the class of the event. */
  function Encode(e: Event, s: Struct, args: Args, place: seq<byte> -> Pointer): Written {
    var s1 :- EncodeBase(e, s, args);
    EncodeFields(e.fields, s1, place)
  }

  /* ---------- Decoding ---------- */

  type Memory = (Pointer, int) -> seq<byte>

  /** `_ensure_4bit` and `_ensure_7bit` in the note constructors. */
  predicate NoteInRange(note: int, channel: int, velocity: int) {
    0 <= note < 0x80 && 0 <= channel < 0x10 && 0 <= velocity < 0x80
  }

  function DecodeFields(kind: Kind, s: Struct, memory: Memory): Base.Result<Fields, Error> {
    match kind
    case Generic => Success(NoFields)
    case Plain => Success(NoFields)
    case Result => Success(ResultFields(GetSigned(s, DATA), GetSigned(s, DATA + 4)))
    case Note =>
      if NoteInRange(s[DATA + 1], s[DATA], s[DATA + 2])
      then Success(NoteFields(s[DATA + 1], s[DATA], s[DATA + 2])) else Failure(ValueError)
    case FullNote =>
      if NoteInRange(s[DATA + 1], s[DATA], s[DATA + 2]) && s[DATA + 3] < 0x80
      then Success(FullNoteFields(s[DATA + 1], s[DATA], s[DATA + 2], s[DATA + 3], GetU32(s, DATA + 4)))
      else Failure(ValueError)
    case Control => Success(ControlFields(s[DATA], GetU32(s, DATA + 4), GetSigned(s, DATA + 8)))
    case Param => Success(ParamFields(s[DATA], GetSigned(s, DATA + 8)))
    case QueueControl => Success(QueueFields(Some(s[DATA])))
    case TickPosition => Success(TickPositionFields(Some(s[DATA]), GetU32(s, PARAM)))
    case TimePosition => Success(TimePositionFields(Some(s[DATA]), GetTime(s, PARAM)))
    case Tempo => Success(TempoFields(Some(s[DATA]), GetSigned(s, PARAM)))
    case Skew => Success(SkewFields(Some(s[DATA]), GetU32(s, PARAM), GetU32(s, PARAM + 4)))
    case SyncPosition => Success(SyncPositionFields(Some(s[DATA]), GetU32(s, PARAM)))
    case Addr => Success(AddrFields(GetAddress(s, DATA)))
    case Connect => Success(ConnectFields(GetAddress(s, DATA), GetAddress(s, DATA + 2)))
    case External => Success(ExternalFields(memory(s[PARAM..], GetU32(s, DATA))))
  }

  /** `_from_alsa` of the class registered for the type in the struct. */
  function Decode(s: Struct, memory: Memory): Base.Result<Event, Error> {
    var fields :- DecodeFields(KindOf(s[TYPE]), s, memory);
    var isReal := Bit(s[FLAGS], 1) == 1;
    Success(Event(Some(s[TYPE]), Some(s[FLAGS]), s[TAG], Some(s[QUEUE]),
                  if isReal then Some(GetTime(s, TIME)) else None,
                  if isReal then None else Some(GetU32(s, TIME)),
                  Some(GetAddress(s, SOURCE)), Some(GetAddress(s, DEST)),
                  Some(Bit(s[FLAGS], 2) == 1), Some(s[DATA..]), fields))
  }

  /* ---------- Struct to event and back ---------- */

  /** What writing a timestamp that was read at `at` leaves there: the normalised time. */
  function Renormalised(s: Struct, at: nat): (r: Struct)
    requires at + 8 <= SIZE
    requires IsU32(GetTime(s, at).seconds)
  {
    PutU32(PutU32(s, at, GetTime(s, at).seconds), at + 4, GetTime(s, at).nanoseconds)
  }

  /** Carrying the nanoseconds over does not push the seconds out of 32 bits. */
  predicate TimeFits(s: Struct, at: nat)
    requires at + 8 <= SIZE
  {
    GetU32(s, at) + GetU32(s, at + 4) / BILLION < U32_LIMIT
  }

  predicate StampFits(s: Struct) {
    Bit(s[FLAGS], 1) == 1 ==> TimeFits(s, TIME)
  }

  predicate Encodable(s: Struct) {
    && StampFits(s)
    && (KindOf(s[TYPE]) == TimePosition ==> TimeFits(s, PARAM))
  }

  /** The header the round trip leaves: a normalised time, or a tick with an empty upper half. */
  function CanonicalStamp(s: Struct): Struct
    requires StampFits(s)
  {
    if Bit(s[FLAGS], 1) == 1 then Renormalised(s, TIME) else PutU32(s, TIME + 4, 0)
  }

  function CanonicalFields(s: Struct, c: Struct, memory: Memory, place: seq<byte> -> Pointer): Struct
    requires Encodable(s)
  {
    if KindOf(s[TYPE]) == TimePosition then
      PutU32(PutU32(c, PARAM, GetTime(s, PARAM).seconds), PARAM + 4, GetTime(s, PARAM).nanoseconds)
    else if KindOf(s[TYPE]) == External then
      c[FLAGS := SetBit(s[FLAGS], 4, true)][..PARAM] + place(memory(s[PARAM..], GetU32(s, DATA)))
    else c
  }

  lemma TimeFitsIff(s: Struct, at: nat)
    requires at + 8 <= SIZE
    ensures TimeFits(s, at) <==> IsU32(GetTime(s, at).seconds)
    ensures GetU32(s, at + 4) < BILLION ==> GetTime(s, at) == Time(GetU32(s, at), GetU32(s, at + 4))
    ensures GetU32(s, at + 4) >= BILLION ==> GetTime(s, at).nanoseconds != GetU32(s, at + 4)
  {}

  /** Rewriting a bit with its own value changes nothing. */
  lemma SetBitSame(flags: byte)
    ensures SetBit(flags, 1, Bit(flags, 1) == 1) == flags
    ensures SetBit(flags, 2, Bit(flags, 2) == 1) == flags
    ensures 0 <= SetBit(flags, 4, true) < 256
    ensures SetBit(flags, 4, true) == flags <==> Bit(flags, 4) == 1
  {}

  /** The payload a pointer in the struct leads to has the length the struct says. */
  predicate PayloadReadable(s: Struct, memory: Memory) {
    |memory(s[PARAM..], GetU32(s, DATA))| == GetU32(s, DATA)
  }

  predicate SameData(s: Struct, c: Struct) {
    forall k :: DATA <= k < SIZE ==> s[k] == c[k]
  }

  lemma IdentityU32(s: Struct, c: Struct, at: nat)
    requires DATA <= at <= SIZE - 4 && SameData(s, c)
    ensures Put32(c, at, GetU32(s, at)) == Success(c)
    ensures PutSigned(c, at, GetSigned(s, at)) == Success(c)
  {
    PutGetU32(s, c, at);
    SignedUnsigned(GetU32(s, at));
  }

  lemma IdentityByte(s: Struct, c: Struct, at: nat)
    requires DATA <= at < SIZE && SameData(s, c)
    ensures Put8(c, at, s[at]) == Success(c)
  {
    assert c[at := s[at]] == c;
  }

  lemma PlainFieldsRoundTrip(s: Struct, c: Struct, memory: Memory, place: seq<byte> -> Pointer)
    requires SameData(s, c)
    requires DecodeFields(KindOf(s[TYPE]), s, memory).Success?
    requires KindOf(s[TYPE]) !in {TimePosition, External}
    ensures EncodeFields(DecodeFields(KindOf(s[TYPE]), s, memory).value, c, place) == Success(c)
  {
    match KindOf(s[TYPE])
    case Generic =>
    case Plain =>
    case Result => IdentityU32(s, c, DATA); IdentityU32(s, c, DATA + 4);
    case Note => IdentityByte(s, c, DATA + 1); IdentityByte(s, c, DATA); IdentityByte(s, c, DATA + 2);
    case FullNote =>
      IdentityByte(s, c, DATA + 1); IdentityByte(s, c, DATA); IdentityByte(s, c, DATA + 2);
      IdentityByte(s, c, DATA + 3); IdentityU32(s, c, DATA + 4);
    case Control => IdentityByte(s, c, DATA); IdentityU32(s, c, DATA + 4); IdentityU32(s, c, DATA + 8);
    case Param => IdentityByte(s, c, DATA); IdentityU32(s, c, DATA + 8);
    case QueueControl => IdentityByte(s, c, DATA);
    case TickPosition => IdentityByte(s, c, DATA); IdentityU32(s, c, PARAM);
    case Tempo => IdentityByte(s, c, DATA); IdentityU32(s, c, PARAM);
    case Skew => IdentityByte(s, c, DATA); IdentityU32(s, c, PARAM); IdentityU32(s, c, PARAM + 4);
    case SyncPosition => IdentityByte(s, c, DATA); IdentityU32(s, c, PARAM);
    case Addr => IdentityByte(s, c, DATA); IdentityByte(s, c, DATA + 1);
    case Connect =>
      IdentityByte(s, c, DATA); IdentityByte(s, c, DATA + 1);
      IdentityByte(s, c, DATA + 2); IdentityByte(s, c, DATA + 3);
  }

  /** Every field written over the raw data it was read from is already there, save for times that
      need normalising and the pointer and length flag of external data. */
  lemma FieldsRoundTrip(s: Struct, c: Struct, memory: Memory, place: seq<byte> -> Pointer)
    requires SameData(s, c) && c[FLAGS] == s[FLAGS]
    requires StampFits(s)
    requires DecodeFields(KindOf(s[TYPE]), s, memory).Success?
    requires KindOf(s[TYPE]) == External ==> PayloadReadable(s, memory)
    ensures var r := EncodeFields(DecodeFields(KindOf(s[TYPE]), s, memory).value, c, place);
            r == if Encodable(s) then Success(CanonicalFields(s, c, memory, place)) else Failure(OverflowError)
  {
    if KindOf(s[TYPE]) == TimePosition {
      IdentityByte(s, c, DATA);
      TimeFitsIff(s, PARAM);
    } else if KindOf(s[TYPE]) == External {
      SetBitSame(s[FLAGS]);
      IdentityU32(s, c[FLAGS := SetBit(s[FLAGS], 4, true)], DATA);
    } else {
      PlainFieldsRoundTrip(s, c, memory, place);
    }
  }

  lemma BaseRoundTrip(s: Struct, memory: Memory)
    requires Decode(s, memory).Success?
    ensures EncodeBase(Decode(s, memory).value, ZERO, NO_ARGS)
         == if StampFits(s) then Success(CanonicalStamp(s)) else Failure(OverflowError)
  {
    var e := Decode(s, memory).value;
    SetBitSame(s[FLAGS]);
    TimeFitsIff(s, TIME);
    assert StampedFlags(e, s[FLAGS]) == s[FLAGS];
    var r := EncodeBase(e, ZERO, NO_ARGS);
    if StampFits(s) {
      StampWritten(s, e);
      var s4 := PutStamp(ZERO[TYPE := s[TYPE]][TAG := s[TAG]][QUEUE := s[QUEUE]], e).value;
      var s7 := PutRaw(s4[SOURCE := s[SOURCE]][SOURCE + 1 := s[SOURCE + 1]][DEST := s[DEST]][DEST + 1 := s[DEST + 1]], e.rawData);
      assert r == Success(s7[FLAGS := s[FLAGS]]);
      assert s7[FLAGS := s[FLAGS]] == CanonicalStamp(s);
    }
  }

  /** The eight bytes of the timestamp after writing it into a struct that has none. */
  lemma StampWritten(s: Struct, e: Event)
    requires StampFits(s)
    requires e.time == (if Bit(s[FLAGS], 1) == 1 then Some(GetTime(s, TIME)) else None)
    requires e.tick == (if Bit(s[FLAGS], 1) == 1 then None else Some(GetU32(s, TIME)))
    ensures var c := ZERO[TYPE := s[TYPE]][TAG := s[TAG]][QUEUE := s[QUEUE]];
            && PutStamp(c, e).Success?
            && (forall k :: TIME <= k < TIME + 8 ==> PutStamp(c, e).value[k] == CanonicalStamp(s)[k])
            && (forall k :: 0 <= k < SIZE && !(TIME <= k < TIME + 8) ==> PutStamp(c, e).value[k] == c[k])
  {
    TimeFitsIff(s, TIME);
    if Bit(s[FLAGS], 1) == 0 {
      PutGetU32(s, s, TIME);
    }
  }

  /** Decoding any struct through the class of its type and encoding the event into a zeroed struct
      restores all 28 bytes except for the exceptions `CanonicalStamp` and `CanonicalFields` spell
      out. It fails only where normalising a time carries past 32 bits of seconds. */
  lemma StructRoundTrip(s: Struct, memory: Memory, place: seq<byte> -> Pointer)
    requires Decode(s, memory).Success?
    requires KindOf(s[TYPE]) == External ==> PayloadReadable(s, memory)
    ensures Encode(Decode(s, memory).value, ZERO, NO_ARGS, place)
         == if Encodable(s) then Success(CanonicalFields(s, CanonicalStamp(s), memory, place))
            else Failure(OverflowError)
  {
    BaseRoundTrip(s, memory);
    if StampFits(s) {
      FieldsRoundTrip(s, CanonicalStamp(s), memory, place);
    }
  }

  /** A struct without any of the exceptions: an empty upper half behind a tick, normal nanoseconds,
      and external data flagged as such at the place the encoder uses. */
  predicate Regular(s: Struct, memory: Memory, place: seq<byte> -> Pointer) {
    && (if Bit(s[FLAGS], 1) == 1 then GetU32(s, TIME + 4) < BILLION else GetU32(s, TIME + 4) == 0)
    && (KindOf(s[TYPE]) == TimePosition ==> GetU32(s, PARAM + 4) < BILLION)
    && (KindOf(s[TYPE]) == External ==>
          Bit(s[FLAGS], 4) == 1 && s[PARAM..] == place(memory(s[PARAM..], GetU32(s, DATA))))
  }

  lemma SameU32(s: Struct, t: Struct, at: nat)
    requires at + 4 <= SIZE
    requires forall k :: at <= k < at + 4 ==> s[k] == t[k]
    ensures GetU32(s, at) == GetU32(t, at)
  {}

  lemma RenormalisedIff(s: Struct, at: nat)
    requires at + 8 <= SIZE && TimeFits(s, at)
    ensures Renormalised(s, at) == s <==> GetU32(s, at + 4) < BILLION
  {
    TimeFitsIff(s, at);
    var t := GetTime(s, at);
    var s1 := PutU32(s, at, t.seconds);
    GetPutU32(s1, at + 4, t.nanoseconds);
    if GetU32(s, at + 4) < BILLION {
      PutGetU32(s, s, at);
      PutGetU32(s, s, at + 4);
    }
  }

  lemma CanonicalStampIff(s: Struct)
    requires StampFits(s)
    ensures CanonicalStamp(s) == s
            <==> if Bit(s[FLAGS], 1) == 1 then GetU32(s, TIME + 4) < BILLION else GetU32(s, TIME + 4) == 0
    ensures forall k :: 0 <= k < SIZE && !(TIME <= k < TIME + 8) ==> CanonicalStamp(s)[k] == s[k]
  {
    if Bit(s[FLAGS], 1) == 1 {
      TimeFitsIff(s, TIME);
      RenormalisedIff(s, TIME);
    } else {
      GetPutU32(s, TIME + 4, 0);
      PutGetU32(s, s, TIME + 4);
    }
  }

  lemma CanonicalFieldsIff(s: Struct, c: Struct, memory: Memory, place: seq<byte> -> Pointer)
    requires Encodable(s)
    requires forall k :: 0 <= k < SIZE && !(TIME <= k < TIME + 8) ==> c[k] == s[k]
    ensures CanonicalFields(s, c, memory, place) == c <==>
              && (KindOf(s[TYPE]) == TimePosition ==> GetU32(s, PARAM + 4) < BILLION)
              && (KindOf(s[TYPE]) == External ==>
                    Bit(s[FLAGS], 4) == 1 && s[PARAM..] == place(memory(s[PARAM..], GetU32(s, DATA))))
    ensures forall k :: TIME <= k < TIME + 8 ==> CanonicalFields(s, c, memory, place)[k] == c[k]
    ensures forall k :: 0 <= k < SIZE && CanonicalFields(s, c, memory, place)[k] != c[k] ==> k == FLAGS || k >= DATA
  {
    var r := CanonicalFields(s, c, memory, place);
    if KindOf(s[TYPE]) == TimePosition {
      SameU32(s, c, PARAM);
      SameU32(s, c, PARAM + 4);
      TimeFitsIff(s, PARAM);
      RenormalisedIff(c, PARAM);
      assert r == Renormalised(c, PARAM);
    } else if KindOf(s[TYPE]) == External {
      SetBitSame(s[FLAGS]);
      assert c[PARAM..] == s[PARAM..];
      assert r[FLAGS] == SetBit(s[FLAGS], 4, true) && r[PARAM..] == place(memory(s[PARAM..], GetU32(s, DATA)));
      if r[FLAGS] == c[FLAGS] && r[PARAM..] == c[PARAM..] {
        assert c == c[..PARAM] + c[PARAM..];
      }
    }
  }

  /** All 28 bytes come back exactly for the regular structs. */
  lemma StructRestoredIff(s: Struct, memory: Memory, place: seq<byte> -> Pointer)
    requires Decode(s, memory).Success?
    requires KindOf(s[TYPE]) == External ==> PayloadReadable(s, memory)
    ensures Encode(Decode(s, memory).value, ZERO, NO_ARGS, place) == Success(s) <==> Regular(s, memory, place)
  {
    StructRoundTrip(s, memory, place);
    if Encodable(s) {
      var c := CanonicalStamp(s);
      var r := CanonicalFields(s, c, memory, place);
      CanonicalStampIff(s);
      CanonicalFieldsIff(s, c, memory, place);
      if r == s {
        assert forall k :: 0 <= k < SIZE ==> c[k] == s[k];
        assert c == s;
      }
    }
  }

  /** The bytes the round trip may change: the unused upper half behind a tick, a time that is not
      normal, and for external data the flags and the pointer. */
  predicate MayChange(s: Struct, k: nat) {
    || (TIME + 4 <= k < TIME + 8 && Bit(s[FLAGS], 1) != 1)
    || (TIME <= k < TIME + 8 && Bit(s[FLAGS], 1) == 1 && GetU32(s, TIME + 4) >= BILLION)
    || (PARAM <= k && KindOf(s[TYPE]) == TimePosition && GetU32(s, PARAM + 4) >= BILLION)
    || (KindOf(s[TYPE]) == External && (k == FLAGS || PARAM <= k))
  }

  lemma StampExceptions(s: Struct)
    requires StampFits(s)
    ensures forall k :: 0 <= k < SIZE && !MayChange(s, k) ==> CanonicalStamp(s)[k] == s[k]
  {
    CanonicalStampIff(s);
    if Bit(s[FLAGS], 1) != 1 {
      GetPutU32(s, TIME + 4, 0);
    }
  }

  lemma FieldsExceptions(s: Struct, c: Struct, memory: Memory, place: seq<byte> -> Pointer)
    requires Encodable(s)
    requires forall k :: 0 <= k < SIZE && !(TIME <= k < TIME + 8) ==> c[k] == s[k]
    ensures forall k :: 0 <= k < SIZE && !MayChange(s, k) ==> CanonicalFields(s, c, memory, place)[k] == c[k]
  {
    CanonicalFieldsIff(s, c, memory, place);
  }

  /** Every other byte of every struct that can be encoded again is restored. */
  lemma OnlyExceptionsChange(s: Struct, memory: Memory, place: seq<byte> -> Pointer)
    requires Decode(s, memory).Success? && Encodable(s)
    requires KindOf(s[TYPE]) == External ==> PayloadReadable(s, memory)
    ensures var r := Encode(Decode(s, memory).value, ZERO, NO_ARGS, place);
            r.Success? && forall k :: 0 <= k < SIZE && !MayChange(s, k) ==> r.value[k] == s[k]
  {
    StructRoundTrip(s, memory, place);
    CanonicalStampIff(s);
    StampExceptions(s);
    FieldsExceptions(s, CanonicalStamp(s), memory, place);
  }

  /** Whatever the pointer, the payload of external data survives the round trip. */
  lemma PayloadRestored(s: Struct, memory: Memory, place: seq<byte> -> Pointer)
    requires KindOf(s[TYPE]) == External && Encodable(s) && PayloadReadable(s, memory)
    requires var data := memory(s[PARAM..], GetU32(s, DATA)); memory(place(data), |data|) == data
    ensures Decode(s, memory).Success?
    ensures var r := Encode(Decode(s, memory).value, ZERO, NO_ARGS, place);
            && r.Success?
            && Decode(r.value, memory).Success?
            && Decode(r.value, memory).value.fields == Decode(s, memory).value.fields
  {
    StructRoundTrip(s, memory, place);
    var c := CanonicalStamp(s);
    var r := CanonicalFields(s, c, memory, place);
    CanonicalStampIff(s);
    CanonicalFieldsIff(s, c, memory, place);
    SameU32(r, s, DATA);
    assert r[PARAM..] == place(memory(s[PARAM..], GetU32(s, DATA)));
  }
}
