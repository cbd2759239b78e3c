/** From an event to the struct and back. */
module EventRoundTrip {
  import opened Base
  import opened Bytes
  import opened RealTime
  import opened EventCodec

  /** The attributes an event of a class of this kind has, in the ranges its constructor enforces. */
  predicate ClassFields(kind: Kind, f: Fields) {
    match kind
    case Generic => f.NoFields?
    case Plain => f.NoFields?
    case Result => f.ResultFields?
    case Note => f.NoteFields? && NoteInRange(f.note, f.channel, f.velocity)
    case FullNote => f.FullNoteFields? && NoteInRange(f.note, f.channel, f.velocity) && 0 <= f.offVelocity < 0x80
    case Control => f.ControlFields?
    case Param => f.ParamFields?
    case QueueControl => f.QueueFields?
    case TickPosition => f.TickPositionFields?
    case TimePosition => f.TimePositionFields? && f.time.Valid()
    case Tempo => f.TempoFields?
    case Skew => f.SkewFields?
    case SyncPosition => f.SyncPositionFields?
    case Addr => f.AddrFields?
    case Connect => f.ConnectFields?
    case External => f.ExternalFields?
  }

  /** An event of the class registered for its type (or of `Event` itself for a type without one). */
  predicate Constructed(e: Event) {
    && e.eventType.Some?
    && ClassFields(KindOf(e.eventType.value), e.fields)
    && (e.time.Some? ==> e.time.value.Valid())
  }

  /** The first byte of the raw data, which stands in for a control queue that is not set. */
  function RawByte(e: Event): int {
    if e.rawData.Some? && |e.rawData.value| > 0 then e.rawData.value[0] else 0
  }

  /** The attributes as decoding recovers them: all of them, an unset control queue as a number. */
  function Recovered(f: Fields, raw: int): Fields {
    match f
    case QueueFields(q) => QueueFields(Some(q.GetOr(raw)))
    case TickPositionFields(q, tick) => TickPositionFields(Some(q.GetOr(raw)), tick)
    case TimePositionFields(q, time) => TimePositionFields(Some(q.GetOr(raw)), time)
    case TempoFields(q, tempo) => TempoFields(Some(q.GetOr(raw)), tempo)
    case SkewFields(q, skew, base) => SkewFields(Some(q.GetOr(raw)), skew, base)
    case SyncPositionFields(q, position) => SyncPositionFields(Some(q.GetOr(raw)), position)
    case _ => f
  }

  /** The `queue` argument, then the event's own queue, then direct dispatch. */
  function ChosenQueue(e: Event, args: Args): int {
    match args.queue
    case QueueId(id) => id
    case _ => e.queueId.GetOr(QUEUE_DIRECT)
  }

  /** The `port` argument alone, then the event's own source, then zeros. */
  function ChosenSource(e: Event, args: Args): Address {
    if args.port.Some? then Address(0, args.port.value) else e.source.GetOr(Address(0, 0))
  }

  /** The `dest` argument, then the event's own destination, then all subscribers. */
  function ChosenDest(e: Event, args: Args): Address {
    args.dest.GetOr(e.dest.GetOr(Address(ADDRESS_SUBSCRIBERS, 0)))
  }

  /** The time or tick that was set, otherwise zero in the mode the flags ask for. */
  function ChosenTime(e: Event): Option<Time>
    requires e.flags.Some?
  {
    if e.time.Some? then e.time
    else if e.tick.None? && Bit(e.flags.value, 1) == 1 then Some(Time(0, 0))
    else None
  }

  function ChosenTick(e: Event): Option<int>
    requires e.flags.Some?
  {
    if e.tick.Some? then e.tick
    else if e.time.None? && Bit(e.flags.value, 1) == 0 then Some(0)
    else None
  }

  /* ---------- Which events encode ---------- */

  predicate IsByte(v: int) { 0 <= v < 256 }

  predicate AddressFits(a: Address) {
    IsByte(a.client) && IsByte(a.port)
  }

  predicate TimeInRange(t: Time) {
    IsU32(t.seconds) && IsU32(t.nanoseconds)
  }

  /** The attributes every event has, as they come out after the arguments and the defaults, fit the
      header of the struct. */
  predicate HeaderInRange(e: Event, args: Args) {
    && e.flags.Some? && IsByte(e.flags.value)
    && !(e.time.Some? && e.tick.Some?)
    && args.queue != ClosedQueue
    && IsByte(e.eventType.GetOr(0)) && IsByte(e.tag) && IsByte(ChosenQueue(e, args))
    && (e.time.Some? ==> TimeInRange(e.time.value))
    && (e.tick.Some? ==> IsU32(e.tick.value))
    && AddressFits(ChosenSource(e, args)) && AddressFits(ChosenDest(e, args))
  }

  /** The attributes of the class fit the fields of the struct. */
  predicate FieldsInRange(f: Fields) {
    match f
    case NoFields => true
    case ResultFields(event, result) => IsI32(event) && IsI32(result)
    case NoteFields(note, channel, velocity) => IsByte(note) && IsByte(channel) && IsByte(velocity)
    case FullNoteFields(note, channel, velocity, offVelocity, duration) =>
      IsByte(note) && IsByte(channel) && IsByte(velocity) && IsByte(offVelocity) && IsU32(duration)
    case ControlFields(channel, param, value) => IsByte(channel) && IsU32(param) && IsI32(value)
    case ParamFields(channel, value) => IsByte(channel) && IsI32(value)
    case QueueFields(q) => IsByte(q.GetOr(0))
    case TickPositionFields(q, tick) => IsByte(q.GetOr(0)) && IsU32(tick)
    case TimePositionFields(q, time) => IsByte(q.GetOr(0)) && TimeInRange(time)
    case TempoFields(q, tempo) => IsByte(q.GetOr(0)) && IsI32(tempo)
    case SkewFields(q, skew, base) => IsByte(q.GetOr(0)) && IsU32(skew) && IsU32(base)
    case SyncPositionFields(q, position) => IsByte(q.GetOr(0)) && IsU32(position)
    case AddrFields(addr) => AddressFits(addr)
    case ConnectFields(sender, dest) => AddressFits(sender) && AddressFits(dest)
    case ExternalFields(data) => |data| < U32_LIMIT
  }

  predicate InRange(e: Event, args: Args) {
    HeaderInRange(e, args) && FieldsInRange(e.fields)
  }

  /** Setting a bit keeps a number inside or outside the range of a byte. */
  lemma SetBitRange(f: int, on: bool)
    ensures IsByte(SetBit(f, 1, on)) <==> IsByte(f)
    ensures IsByte(SetBit(f, 2, on)) <==> IsByte(f)
    ensures IsByte(SetBit(f, 4, on)) <==> IsByte(f)
  {}

  lemma StampedFlagsRange(e: Event, flags: int)
    ensures IsByte(StampedFlags(e, flags)) <==> IsByte(flags)
  {
    var f1 := if e.time.Some? then SetBit(flags, 1, true) else flags;
    var f2 := if e.tick.Some? then SetBit(f1, 1, false) else f1;
    SetBitRange(flags, true);
    SetBitRange(f1, false);
    SetBitRange(f2, e.relative.GetOr(false));
  }

  lemma BaseEncodesIff(e: Event, s: Struct, args: Args)
    ensures EncodeBase(e, s, args).Success? <==> HeaderInRange(e, args)
  {
    if e.flags.Some? {
      StampedFlagsRange(e, e.flags.value);
    }
  }

  lemma FieldsEncodeIff(f: Fields, s: Struct, place: seq<byte> -> Pointer)
    ensures EncodeFields(f, s, place).Success? <==> FieldsInRange(f)
  {
    SetBitRange(s[FLAGS], true);
  }

  /** An event can be encoded if and only if its flags are set, it does not have both a time and a tick,
      the queue argument is not a closed queue, and everything it has or is given fits its place. */
  lemma EncodesIff(e: Event, s: Struct, args: Args, place: seq<byte> -> Pointer)
    ensures Encode(e, s, args, place).Success? <==> InRange(e, args)
  {
    hide EncodeBase, EncodeFields, HeaderInRange, FieldsInRange;
    BaseEncodesIff(e, s, args);
    if EncodeBase(e, s, args).Success? {
      FieldsEncodeIff(e.fields, EncodeBase(e, s, args).value, place);
    }
  }

  /* ---------- What encoding leaves in the struct ---------- */

  /** The three flag bits the codec handles, in front of the others. */
  function FromBits(q: int, length: int, mode: int, stamp: int): int {
    8 * q + 4 * length + 2 * mode + stamp
  }

  lemma Half(h: int, b: int)
    requires 0 <= b < 2
    ensures (2 * h + b) / 2 == h && (2 * h + b) % 2 == b
  {}

  lemma Quarter(f: int)
    ensures f / 4 == f / 2 / 2
  {
    var k, r := f / 4, f % 4;
    var high, low := r / 2, r % 2;
    assert f == 2 * (2 * k + high) + low;
    Half(2 * k + high, low);
    Half(k, high);
  }

  lemma BitsOf(q: int, length: int, mode: int, stamp: int)
    requires 0 <= length < 2 && 0 <= mode < 2 && 0 <= stamp < 2
    ensures var f := FromBits(q, length, mode, stamp);
            Bit(f, 1) == stamp && Bit(f, 2) == mode && Bit(f, 4) == length
  {
    var f := FromBits(q, length, mode, stamp);
    assert f == 2 * (2 * (2 * q + length) + mode) + stamp;
    Half(2 * (2 * q + length) + mode, stamp);
    Half(2 * q + length, mode);
    Half(q, length);
    Quarter(f);
  }

  lemma Bits(f: int)
    ensures f == FromBits(f / 4 / 2, Bit(f, 4), Bit(f, 2), Bit(f, 1))
  {
    Quarter(f);
  }

  /** Setting one of the three bits leaves the other two alone. */
  lemma SetBitElsewhere(f: int, on: bool)
    ensures var bit := if on then 1 else 0;
            && Bit(SetBit(f, 1, on), 1) == bit && Bit(SetBit(f, 1, on), 2) == Bit(f, 2)
            && Bit(SetBit(f, 2, on), 2) == bit && Bit(SetBit(f, 2, on), 1) == Bit(f, 1)
            && Bit(SetBit(f, 4, on), 4) == bit && Bit(SetBit(f, 4, on), 1) == Bit(f, 1) && Bit(SetBit(f, 4, on), 2) == Bit(f, 2)
  {
    var bit := if on then 1 else 0;
    var q, length, mode, stamp := f / 4 / 2, Bit(f, 4), Bit(f, 2), Bit(f, 1);
    Bits(f);
    assert SetBit(f, 1, on) == FromBits(q, length, mode, bit);
    assert SetBit(f, 2, on) == FromBits(q, length, bit, stamp);
    assert SetBit(f, 4, on) == FromBits(q, bit, mode, stamp);
    BitsOf(q, length, mode, bit);
    BitsOf(q, length, bit, stamp);
    BitsOf(q, bit, mode, stamp);
  }

  lemma FlagBits(e: Event, flags: int)
    requires !(e.time.Some? && e.tick.Some?)
    ensures var f := StampedFlags(e, flags);
            && (Bit(f, 1) == 1 <==> e.time.Some? || (e.tick.None? && Bit(flags, 1) == 1))
            && (Bit(f, 2) == 1 <==> e.relative.GetOr(Bit(flags, 2) == 1))
  {
    var f1 := if e.time.Some? then SetBit(flags, 1, true) else flags;
    var f2 := if e.tick.Some? then SetBit(f1, 1, false) else f1;
    SetBitElsewhere(flags, true);
    SetBitElsewhere(f1, false);
    SetBitElsewhere(f2, e.relative.GetOr(false));
  }

  lemma QueueWritten(s: Struct, e: Event, args: Args)
    requires PutQueue(s, e, args.queue).Success?
    ensures args.queue != ClosedQueue
    ensures var r := PutQueue(s, e, args.queue).value;
            r[QUEUE] == ChosenQueue(e, args) && forall k :: 0 <= k < SIZE && k != QUEUE ==> r[k] == s[k]
  {}

  lemma SourceWritten(s: Struct, e: Event, args: Args)
    requires PutSource(s, e, args.port).Success? && s[SOURCE] == 0 && s[SOURCE + 1] == 0
    ensures var r := PutSource(s, e, args.port).value;
            && GetAddress(r, SOURCE) == ChosenSource(e, args)
            && forall k :: 0 <= k < SIZE && k != SOURCE && k != SOURCE + 1 ==> r[k] == s[k]
  {}

  lemma DestWritten(s: Struct, e: Event, args: Args)
    requires PutDest(s, e, args.dest).Success? && s[DEST] == 0 && s[DEST + 1] == 0
    ensures var r := PutDest(s, e, args.dest).value;
            && GetAddress(r, DEST) == ChosenDest(e, args)
            && forall k :: 0 <= k < SIZE && k != DEST && k != DEST + 1 ==> r[k] == s[k]
  {}

  lemma RawWritten(s: Struct, e: Event)
    requires s[DATA] == 0
    ensures PutRaw(s, e.rawData)[DATA] == RawByte(e)
    ensures forall k :: 0 <= k < DATA ==> PutRaw(s, e.rawData)[k] == s[k]
  {}

  /** Type, tag, queue and timestamp, and zeros behind them. */
  predicate FrontWritten(s: Struct, e: Event, args: Args) {
    && e.eventType.Some?
    && s[TYPE] == e.eventType.value && s[TAG] == e.tag && s[QUEUE] == ChosenQueue(e, args)
    && GetU32(s, TIME) == (if e.time.Some? then e.time.value.seconds else e.tick.GetOr(0))
    && GetU32(s, TIME + 4) == (if e.time.Some? then e.time.value.nanoseconds else 0)
  }

  lemma IdsWritten(e: Event, args: Args) returns (s: Struct)
    requires e.eventType.Some? && EncodeFront(e, ZERO, args).Success?
    ensures e.flags.Some? && args.queue != ClosedQueue
    ensures EncodeFront(e, ZERO, args) == PutStamp(s, e)
    ensures s[TYPE] == e.eventType.value && s[TAG] == e.tag && s[QUEUE] == ChosenQueue(e, args)
    ensures forall k :: TIME <= k < SIZE ==> s[k] == 0
  {
    var s2 := ZERO[TYPE := e.eventType.value][TAG := e.tag];
    assert forall k :: TIME <= k < SIZE ==> s2[k] == ZERO[k] == 0;
    QueueWritten(s2, e, args);
    s := PutQueue(s2, e, args.queue).value;
  }

  lemma FrontSteps(e: Event, args: Args)
    requires e.eventType.Some? && EncodeFront(e, ZERO, args).Success?
    ensures e.flags.Some? && !(e.time.Some? && e.tick.Some?) && args.queue != ClosedQueue
    ensures FrontWritten(EncodeFront(e, ZERO, args).value, e, args)
    ensures forall k :: SOURCE <= k < SIZE ==> EncodeFront(e, ZERO, args).value[k] == 0
  {
    var s := IdsWritten(e, args);
    StampReadBack(s, e);
  }

  lemma FrontKept(s: Struct, t: Struct, e: Event, args: Args)
    requires FrontWritten(s, e, args)
    requires forall k :: 0 <= k < SOURCE && k != FLAGS ==> t[k] == s[k]
    ensures FrontWritten(t, e, args)
  {
    SameU32(t, s, TIME);
    SameU32(t, s, TIME + 4);
  }

  predicate Header(b: Struct, e: Event, args: Args) {
    && e.flags.Some? && !(e.time.Some? && e.tick.Some?) && args.queue != ClosedQueue
    && FrontWritten(b, e, args)
    && b[FLAGS] == StampedFlags(e, e.flags.value)
    && GetAddress(b, SOURCE) == ChosenSource(e, args)
    && GetAddress(b, DEST) == ChosenDest(e, args)
    && b[DATA] == RawByte(e)
  }

  lemma BackSteps(e: Event, args: Args, s: Struct)
    requires e.flags.Some? && EncodeBack(e, s, args).Success?
    requires forall k :: SOURCE <= k < SIZE ==> s[k] == 0
    ensures var b := EncodeBack(e, s, args).value;
            && b[FLAGS] == StampedFlags(e, e.flags.value)
            && GetAddress(b, SOURCE) == ChosenSource(e, args)
            && GetAddress(b, DEST) == ChosenDest(e, args)
            && b[DATA] == RawByte(e)
            && forall k :: 0 <= k < SOURCE && k != FLAGS ==> b[k] == s[k]
  {
    var s1 := PutSource(s, e, args.port).value;
    var s2 := PutDest(s1, e, args.dest).value;
    SourceWritten(s, e, args);
    DestWritten(s1, e, args);
    RawWritten(s2, e);
  }

  /** What the base class leaves in the struct. */
  lemma HeaderWritten(e: Event, args: Args)
    requires e.eventType.Some? && EncodeBase(e, ZERO, args).Success?
    ensures Header(EncodeBase(e, ZERO, args).value, e, args)
  {
    var s := EncodeFront(e, ZERO, args).value;
    FrontSteps(e, args);
    BackSteps(e, args, s);
    FrontKept(s, EncodeBack(e, s, args).value, e, args);
  }

  lemma StampReadBack(s: Struct, e: Event)
    requires PutStamp(s, e).Success?
    requires forall k :: TIME <= k < TIME + 8 ==> s[k] == 0
    ensures var r := PutStamp(s, e).value;
            && GetU32(r, TIME) == (if e.time.Some? then e.time.value.seconds else e.tick.GetOr(0))
            && GetU32(r, TIME + 4) == (if e.time.Some? then e.time.value.nanoseconds else 0)
            && forall k :: 0 <= k < SIZE && !(TIME <= k < TIME + 8) ==> r[k] == s[k]
  {
    var r := PutStamp(s, e).value;
    if e.time.Some? {
      var s1 := PutU32(s, TIME, e.time.value.seconds);
      GetPutU32(s, TIME, e.time.value.seconds);
      GetPutU32(s1, TIME + 4, e.time.value.nanoseconds);
      SameU32(r, s1, TIME);
    } else if e.tick.Some? {
      GetPutU32(s, TIME, e.tick.value);
      SameU32(r, s, TIME + 4);
    }
  }

  /** The specialised classes write to the data, and to the length bit of the flags. */
  lemma FieldsFrame(f: Fields, b: Struct, place: seq<byte> -> Pointer)
    requires EncodeFields(f, b, place).Success?
    ensures var r := EncodeFields(f, b, place).value;
            && (forall k :: 0 <= k < DATA && k != FLAGS ==> r[k] == b[k])
            && r[FLAGS] == if f.ExternalFields? then SetBit(b[FLAGS], 4, true) else b[FLAGS]
  {}

  lemma ReadBack32(s: Struct, at: nat, v: int)
    requires at + 4 <= SIZE
    ensures Put32(s, at, v).Success? ==>
              && GetU32(Put32(s, at, v).value, at) == v
              && forall k :: 0 <= k < SIZE && !(at <= k < at + 4) ==> Put32(s, at, v).value[k] == s[k]
    ensures PutSigned(s, at, v).Success? ==>
              && GetSigned(PutSigned(s, at, v).value, at) == v
              && forall k :: 0 <= k < SIZE && !(at <= k < at + 4) ==> PutSigned(s, at, v).value[k] == s[k]
  {
    SignedUnsigned(v);
    if IsU32(v) { GetPutU32(s, at, v); }
    if IsI32(v) { GetPutU32(s, at, ToUnsigned(v)); }
  }

  lemma SimpleFieldsReadBack(kind: Kind, f: Fields, b: Struct, memory: Memory, place: seq<byte> -> Pointer)
    requires kind in {Generic, Plain, Note, QueueControl, Addr, Connect}
    requires ClassFields(kind, f) && EncodeFields(f, b, place).Success?
    ensures DecodeFields(kind, EncodeFields(f, b, place).value, memory) == Success(Recovered(f, b[DATA]))
  {}

  lemma ExternalReadBack(f: Fields, b: Struct, memory: Memory, place: seq<byte> -> Pointer)
    requires f.ExternalFields? && EncodeFields(f, b, place).Success?
    requires memory(place(f.data), |f.data|) == f.data
    ensures DecodeFields(External, EncodeFields(f, b, place).value, memory) == Success(f)
    ensures EncodeFields(f, b, place).value[PARAM..] == place(f.data)
    ensures GetU32(EncodeFields(f, b, place).value, DATA) == |f.data|
  {
    var s1 := b[FLAGS := SetBit(b[FLAGS], 4, true)];
    ReadBack32(s1, DATA, |f.data|);
    var s2 := PutU32(s1, DATA, |f.data|);
    var r := EncodeFields(f, b, place).value;
    assert r == s2[..PARAM] + place(f.data);
    SameU32(r, s2, DATA);
    assert r[PARAM..] == place(f.data);
  }

  lemma NumericFieldsReadBack(kind: Kind, f: Fields, b: Struct, memory: Memory, place: seq<byte> -> Pointer)
    requires kind in {Kind.Result, FullNote, Control, Param}
    requires ClassFields(kind, f) && EncodeFields(f, b, place).Success?
    ensures DecodeFields(kind, EncodeFields(f, b, place).value, memory) == Success(f)
  {
    var r := EncodeFields(f, b, place).value;
    match kind
    case Result =>
      var s1 := PutSigned(b, DATA, f.event).value;
      ReadBack32(b, DATA, f.event);
      ReadBack32(s1, DATA + 4, f.result);
      SameU32(r, s1, DATA);
    case FullNote =>
      var s2 := Put8(PutNote(b, f.note, f.channel, f.velocity).value, DATA + 3, f.offVelocity).value;
      ReadBack32(s2, DATA + 4, f.duration);
    case Control =>
      var s1 := b[DATA := f.channel];
      var s2 := Put32(s1, DATA + 4, f.param).value;
      ReadBack32(s1, DATA + 4, f.param);
      ReadBack32(s2, DATA + 8, f.value);
      SameU32(r, s2, DATA + 4);
    case Param =>
      ReadBack32(b[DATA := f.channel], DATA + 8, f.value);
  }

  lemma QueueFieldsReadBack(kind: Kind, f: Fields, b: Struct, memory: Memory, place: seq<byte> -> Pointer)
    requires kind in {TickPosition, TimePosition, Tempo, Skew, SyncPosition}
    requires ClassFields(kind, f) && EncodeFields(f, b, place).Success?
    ensures DecodeFields(kind, EncodeFields(f, b, place).value, memory) == Success(Recovered(f, b[DATA]))
    ensures kind == TimePosition ==>
              GetU32(EncodeFields(f, b, place).value, PARAM + 4) == f.time.nanoseconds
  {
    var r := EncodeFields(f, b, place).value;
    var s1 := Put8Opt(b, DATA, f.queue).value;
    match kind
    case TickPosition => ReadBack32(s1, PARAM, f.tick);
    case TimePosition =>
      var s2 := Put32(s1, PARAM, f.time.seconds).value;
      ReadBack32(s1, PARAM, f.time.seconds);
      ReadBack32(s2, PARAM + 4, f.time.nanoseconds);
      SameU32(r, s2, PARAM);
      TimeFitsIff(r, PARAM);
    case Tempo => ReadBack32(s1, PARAM, f.midiTempo);
    case Skew =>
      var s2 := Put32(s1, PARAM, f.skew).value;
      ReadBack32(s1, PARAM, f.skew);
      ReadBack32(s2, PARAM + 4, f.base);
      SameU32(r, s2, PARAM);
    case SyncPosition => ReadBack32(s1, PARAM, f.position);
  }

  lemma FieldsReadBack(kind: Kind, f: Fields, b: Struct, memory: Memory, place: seq<byte> -> Pointer)
    requires ClassFields(kind, f) && EncodeFields(f, b, place).Success?
    requires f.ExternalFields? ==> memory(place(f.data), |f.data|) == f.data
    ensures DecodeFields(kind, EncodeFields(f, b, place).value, memory) == Success(Recovered(f, b[DATA]))
  {
    if kind in {Generic, Plain, Note, QueueControl, Addr, Connect} {
      SimpleFieldsReadBack(kind, f, b, memory, place);
    } else if kind == External {
      ExternalReadBack(f, b, memory, place);
    } else if kind in {Kind.Result, FullNote, Control, Param} {
      NumericFieldsReadBack(kind, f, b, memory, place);
    } else {
      QueueFieldsReadBack(kind, f, b, memory, place);
    }
  }

  lemma AttributesRecovered(e: Event, args: Args, memory: Memory, place: seq<byte> -> Pointer)
    requires Constructed(e) && Encode(e, ZERO, args, place).Success?
    requires e.fields.ExternalFields? ==> memory(place(e.fields.data), |e.fields.data|) == e.fields.data
    ensures e.flags.Some?
    ensures var r := Decode(Encode(e, ZERO, args, place).value, memory);
            && r.Success?
            && r.value.eventType == e.eventType
            && r.value.tag == e.tag
            && r.value.fields == Recovered(e.fields, RawByte(e))
            && r.value.queueId == Some(ChosenQueue(e, args))
            && r.value.source == Some(ChosenSource(e, args))
            && r.value.dest == Some(ChosenDest(e, args))
            && r.value.time == ChosenTime(e)
            && r.value.tick == ChosenTick(e)
            && r.value.relative == Some(e.relative.GetOr(Bit(e.flags.value, 2) == 1))
  {
    var b := EncodeBase(e, ZERO, args).value;
    var s := Encode(e, ZERO, args, place).value;
    HeaderWritten(e, args);
    FieldsFrame(e.fields, b, place);
    FieldsReadBack(KindOf(e.eventType.value), e.fields, b, memory, place);
    FlagBits(e, e.flags.value);
    SetBitElsewhere(b[FLAGS], true);
    SameU32(s, b, TIME);
    SameU32(s, b, TIME + 4);
    if Bit(s[FLAGS], 1) == 1 {
      TimeFitsIff(s, TIME);
    }
  }

  /** The raw data as the twelve bytes of the struct hold it: cut at twelve, or filled up with zeros. */
  function Padded(raw: Option<seq<byte>>): seq<byte> {
    var data := raw.GetOr([]);
    if |data| >= 12 then data[..12] else data + seq(12 - |data|, _ => 0)
  }

  lemma RawPadded(s: Struct, raw: Option<seq<byte>>)
    requires forall k :: DATA <= k < SIZE ==> s[k] == 0
    ensures PutRaw(s, raw)[DATA..] == Padded(raw)
  {}

  lemma RawDataWritten(e: Event, args: Args)
    requires e.eventType.Some? && EncodeBase(e, ZERO, args).Success?
    ensures EncodeBase(e, ZERO, args).value[DATA..] == Padded(e.rawData)
  {
    var s := EncodeFront(e, ZERO, args).value;
    FrontSteps(e, args);
    var s1 := PutSource(s, e, args.port).value;
    var s2 := PutDest(s1, e, args.dest).value;
    SourceWritten(s, e, args);
    DestWritten(s1, e, args);
    RawPadded(s2, e.rawData);
    assert EncodeBase(e, ZERO, args).value == PutRaw(s2, e.rawData)[FLAGS := StampedFlags(e, e.flags.value)];
    assert EncodeBase(e, ZERO, args).value[DATA..] == PutRaw(s2, e.rawData)[DATA..];
  }

  /** Stamping and flagging change the bits for stamp, mode and length and no other. */
  lemma SetBitAbove(f: int, on: bool)
    ensures SetBit(f, 1, on) / 8 == f / 8 && Bit(SetBit(f, 1, on), 4) == Bit(f, 4)
    ensures SetBit(f, 2, on) / 8 == f / 8 && Bit(SetBit(f, 2, on), 4) == Bit(f, 4)
    ensures SetBit(f, 4, on) / 8 == f / 8 && Bit(SetBit(f, 4, on), 4) == if on then 1 else 0
  {
    var q, length, mode, stamp := f / 4 / 2, Bit(f, 4), Bit(f, 2), Bit(f, 1);
    var bit := if on then 1 else 0;
    Bits(f);
    SetBitIs(q, length, mode, stamp, on);
    hide FromBits, Bit, SetBit;
    BitsOf(q, length, mode, bit);
    BitsOf(q, length, bit, stamp);
    BitsOf(q, bit, mode, stamp);
    EighthOf(q, length, mode, stamp);
    EighthOf(q, length, mode, bit);
    EighthOf(q, length, bit, stamp);
    EighthOf(q, bit, mode, stamp);
  }

  lemma SetBitIs(q: int, length: int, mode: int, stamp: int, on: bool)
    requires 0 <= length < 2 && 0 <= mode < 2 && 0 <= stamp < 2
    ensures var f, bit := FromBits(q, length, mode, stamp), if on then 1 else 0;
            && SetBit(f, 1, on) == FromBits(q, length, mode, bit)
            && SetBit(f, 2, on) == FromBits(q, length, bit, stamp)
            && SetBit(f, 4, on) == FromBits(q, bit, mode, stamp)
  {
    BitsOf(q, length, mode, stamp);
  }

  lemma EighthOf(q: int, length: int, mode: int, stamp: int)
    requires 0 <= length < 2 && 0 <= mode < 2 && 0 <= stamp < 2
    ensures FromBits(q, length, mode, stamp) / 8 == q
  {}

  lemma StampedFlagsAbove(e: Event, flags: int)
    ensures StampedFlags(e, flags) / 8 == flags / 8
    ensures Bit(StampedFlags(e, flags), 4) == Bit(flags, 4)
  {
    var f1 := if e.time.Some? then SetBit(flags, 1, true) else flags;
    var f2 := if e.tick.Some? then SetBit(f1, 1, false) else f1;
    SetBitAbove(flags, true);
    SetBitAbove(f1, false);
    SetBitAbove(f2, e.relative.GetOr(false));
  }

  lemma RestRecovered(e: Event, args: Args, memory: Memory, place: seq<byte> -> Pointer)
    requires Constructed(e) && Encode(e, ZERO, args, place).Success?
    requires Decode(Encode(e, ZERO, args, place).value, memory).Success?
    ensures e.flags.Some?
    ensures var r := Decode(Encode(e, ZERO, args, place).value, memory).value;
            && (e.fields.NoFields? ==> r.rawData == Some(Padded(e.rawData)))
            && r.flags.Some?
            && r.flags.value / 8 == e.flags.value / 8
            && Bit(r.flags.value, 4) == if e.fields.ExternalFields? then 1 else Bit(e.flags.value, 4)
  {
    var b := EncodeBase(e, ZERO, args).value;
    HeaderWritten(e, args);
    RawDataWritten(e, args);
    FieldsFrame(e.fields, b, place);
    StampedFlagsAbove(e, e.flags.value);
    SetBitAbove(b[FLAGS], true);
  }

  /** Every event in range is encoded and recovered: type, tag, every attribute of its class, mode and
      time, with the defaults filled in and the arguments taking precedence over the event. So are the
      other flag bits, and the raw data of an event whose class has no attributes of its own. */
  lemma EventRecovered(e: Event, args: Args, memory: Memory, place: seq<byte> -> Pointer)
    requires Constructed(e) && InRange(e, args)
    requires e.fields.ExternalFields? ==> memory(place(e.fields.data), |e.fields.data|) == e.fields.data
    ensures Encode(e, ZERO, args, place).Success?
    ensures var r := Decode(Encode(e, ZERO, args, place).value, memory);
            && r.Success?
            && r.value.eventType == e.eventType
            && r.value.tag == e.tag
            && r.value.fields == Recovered(e.fields, RawByte(e))
            && r.value.queueId == Some(ChosenQueue(e, args))
            && r.value.source == Some(ChosenSource(e, args))
            && r.value.dest == Some(ChosenDest(e, args))
            && r.value.time == ChosenTime(e)
            && r.value.tick == ChosenTick(e)
            && r.value.relative == Some(e.relative.GetOr(Bit(e.flags.value, 2) == 1))
            && (e.fields.NoFields? ==> r.value.rawData == Some(Padded(e.rawData)))
            && r.value.flags.Some?
            && r.value.flags.value / 8 == e.flags.value / 8
            && Bit(r.value.flags.value, 4) == if e.fields.ExternalFields? then 1 else Bit(e.flags.value, 4)
  {
    hide Encode, Decode, FieldsInRange, ClassFields, Recovered, Padded;
    EncodesIff(e, ZERO, args, place);
    AttributesRecovered(e, args, memory, place);
    RestRecovered(e, args, memory, place);
  }

  /** The struct of an event has none of the exceptions, external data aside. */
  lemma EncodedIsRegular(e: Event, args: Args, memory: Memory, place: seq<byte> -> Pointer)
    requires Constructed(e) && InRange(e, args)
    requires e.fields.ExternalFields? ==> memory(place(e.fields.data), |e.fields.data|) == e.fields.data
    ensures Encode(e, ZERO, args, place).Success?
    ensures Regular(Encode(e, ZERO, args, place).value, memory, place)
    ensures Encode(e, ZERO, args, place).value[TYPE] == e.eventType.value
  {
    hide Encode, Regular, InRange, ClassFields;
    EncodesIff(e, ZERO, args, place);
    RegularIfEncoded(e, args, memory, place);
  }

  lemma RegularIfEncoded(e: Event, args: Args, memory: Memory, place: seq<byte> -> Pointer)
    requires Constructed(e) && Encode(e, ZERO, args, place).Success?
    requires e.fields.ExternalFields? ==> memory(place(e.fields.data), |e.fields.data|) == e.fields.data
    ensures Regular(Encode(e, ZERO, args, place).value, memory, place)
    ensures Encode(e, ZERO, args, place).value[TYPE] == e.eventType.value
  {
    var b := EncodeBase(e, ZERO, args).value;
    var s := Encode(e, ZERO, args, place).value;
    var kind := KindOf(e.eventType.value);
    HeaderWritten(e, args);
    FieldsFrame(e.fields, b, place);
    FlagBits(e, e.flags.value);
    SetBitElsewhere(b[FLAGS], true);
    SameU32(s, b, TIME + 4);
    if kind == TimePosition {
      QueueFieldsReadBack(kind, e.fields, b, memory, place);
    } else if kind == External {
      ExternalReadBack(e.fields, b, memory, place);
    }
  }

  /** External data in a regular struct: only the pointer changes. */
  lemma ExternalStable(s: Struct, data: seq<byte>, memory: Memory, place: seq<byte> -> Pointer, place2: seq<byte> -> Pointer)
    requires KindOf(s[TYPE]) == External && Regular(s, memory, place)
    requires GetU32(s, DATA) == |data| && memory(s[PARAM..], GetU32(s, DATA)) == data
    ensures Decode(s, memory).Success?
    ensures Encode(Decode(s, memory).value, ZERO, NO_ARGS, place2) == Success(s[..PARAM] + place2(data))
  {
    RegularStamp(s, memory, place);
    RegularExternal(s, memory, place);
    StructRoundTrip(s, memory, place2);
    assert CanonicalFields(s, s, memory, place2) == s[..PARAM] + place2(data);
  }

  lemma RegularStamp(s: Struct, memory: Memory, place: seq<byte> -> Pointer)
    requires Regular(s, memory, place)
    ensures StampFits(s) && CanonicalStamp(s) == s
  {
    TimeFitsIff(s, TIME);
    CanonicalStampIff(s);
  }

  lemma RegularExternal(s: Struct, memory: Memory, place: seq<byte> -> Pointer)
    requires KindOf(s[TYPE]) == External && Regular(s, memory, place)
    ensures s[FLAGS := SetBit(s[FLAGS], 4, true)] == s
    ensures Decode(s, memory).Success?
  {
    SetBitSame(s[FLAGS]);
  }

  lemma PayloadWritten(e: Event, args: Args, memory: Memory, place: seq<byte> -> Pointer)
    requires Constructed(e) && e.fields.ExternalFields? && Encode(e, ZERO, args, place).Success?
    requires memory(place(e.fields.data), |e.fields.data|) == e.fields.data
    ensures var s := Encode(e, ZERO, args, place).value;
            && GetU32(s, DATA) == |e.fields.data| && memory(s[PARAM..], GetU32(s, DATA)) == e.fields.data
  {
    ExternalReadBack(e.fields, EncodeBase(e, ZERO, args).value, memory, place);
  }

  lemma RecoverySucceeds(e: Event, args: Args, memory: Memory, place: seq<byte> -> Pointer)
    requires Constructed(e) && !e.fields.ExternalFields? && Encode(e, ZERO, args, place).Success?
    ensures Decode(Encode(e, ZERO, args, place).value, memory).Success?
  {
    AttributesRecovered(e, args, memory, place);
  }

  lemma KindOfFields(kind: Kind, f: Fields)
    requires ClassFields(kind, f)
    ensures kind == External <==> f.ExternalFields?
  {}

  /** Encoding is stable: the struct of the decoded event is the struct of the event, up to where the
      payload of external data lies in memory. */
  lemma EncodeDecodeEncode(e: Event, args: Args, memory: Memory, place: seq<byte> -> Pointer, place2: seq<byte> -> Pointer)
    requires Constructed(e) && InRange(e, args)
    requires e.fields.ExternalFields? ==> memory(place(e.fields.data), |e.fields.data|) == e.fields.data
    ensures Encode(e, ZERO, args, place).Success?
    ensures Decode(Encode(e, ZERO, args, place).value, memory).Success?
    ensures var s := Encode(e, ZERO, args, place).value;
            var s2 := Encode(Decode(s, memory).value, ZERO, NO_ARGS, place2);
            s2 == Success(if e.fields.ExternalFields? then s[..PARAM] + place2(e.fields.data) else s)
  {
    EncodesIff(e, ZERO, args, place);
    var s := Encode(e, ZERO, args, place).value;
    RegularIfEncoded(e, args, memory, place);
    KindOfFields(KindOf(s[TYPE]), e.fields);
    if e.fields.ExternalFields? {
      PayloadWritten(e, args, memory, place);
      ExternalStable(s, e.fields.data, memory, place, place2);
    } else {
      RecoverySucceeds(e, args, memory, place);
      RegularStable(s, memory, place, place2);
    }
  }

  lemma RegularStable(s: Struct, memory: Memory, place: seq<byte> -> Pointer, place2: seq<byte> -> Pointer)
    requires KindOf(s[TYPE]) != External && Regular(s, memory, place) && Decode(s, memory).Success?
    ensures Encode(Decode(s, memory).value, ZERO, NO_ARGS, place2) == Success(s)
  {
    StructRestoredIff(s, memory, place2);
  }
}
