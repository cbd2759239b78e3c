/** `_to_alsa` in place: the struct is an array of 28 bytes that the base class fills and the
    specialised classes overwrite, and `ok` is false where Python raises. A struct that was being
    written when an exception came is thrown away, so nothing is said about it. */
module EventStruct {
  import opened Base
  import opened Bytes
  import opened RealTime
  import opened EventCodec
  import opened EventRoundTrip
  import opened EventLayout

  method Write8(a: array<byte>, at: nat, v: int) returns (ok: bool)
    requires a.Length == SIZE && at < SIZE
    modifies a
    ensures var r := Put8(old(a[..]), at, v); ok == r.Success? && (ok ==> a[..] == r.value)
  {
    ok := 0 <= v < 256;
    if ok {
      a[at] := v;
    }
  }

  method Write8Opt(a: array<byte>, at: nat, v: Option<int>) returns (ok: bool)
    requires a.Length == SIZE && at < SIZE
    modifies a
    ensures var r := Put8Opt(old(a[..]), at, v); ok == r.Success? && (ok ==> a[..] == r.value)
  {
    ok := true;
    if v.Some? {
      ok := Write8(a, at, v.value);
    }
  }

  /** The four bytes of a C integer, least significant first. */
  method WriteWord(a: array<byte>, at: nat, v: int)
    requires a.Length == SIZE && at + 4 <= SIZE && IsU32(v)
    modifies a
    ensures a[..] == PutU32(old(a[..]), at, v)
  {
    var rest := v;
    a[at] := rest % 0x100;
    rest := rest / 0x100;
    a[at + 1] := rest % 0x100;
    rest := rest / 0x100;
    a[at + 2] := rest % 0x100;
    a[at + 3] := rest / 0x100;
  }

  method Write32(a: array<byte>, at: nat, v: int) returns (ok: bool)
    requires a.Length == SIZE && at + 4 <= SIZE
    modifies a
    ensures var r := Put32(old(a[..]), at, v); ok == r.Success? && (ok ==> a[..] == r.value)
  {
    ok := IsU32(v);
    if ok {
      WriteWord(a, at, v);
    }
  }

  method WriteSigned(a: array<byte>, at: nat, v: int) returns (ok: bool)
    requires a.Length == SIZE && at + 4 <= SIZE
    modifies a
    ensures var r := PutSigned(old(a[..]), at, v); ok == r.Success? && (ok ==> a[..] == r.value)
  {
    ok := IsI32(v);
    if ok {
      WriteWord(a, at, ToUnsigned(v));
    }
  }

  method WriteAddress(a: array<byte>, at: nat, addr: Address) returns (ok: bool)
    requires a.Length == SIZE && at + 2 <= SIZE
    modifies a
    ensures var r := PutAddress(old(a[..]), at, addr); ok == r.Success? && (ok ==> a[..] == r.value)
  {
    ok := Write8(a, at, addr.client);
    if ok {
      ok := Write8(a, at + 1, addr.port);
    }
  }

  method WriteTime(a: array<byte>, at: nat, t: Time) returns (ok: bool)
    requires a.Length == SIZE && at + 8 <= SIZE
    modifies a
    ensures var r := PutTime(old(a[..]), at, t); ok == r.Success? && (ok ==> a[..] == r.value)
  {
    ok := Write32(a, at, t.seconds);
    if ok {
      ok := Write32(a, at + 4, t.nanoseconds);
    }
  }

  /** Type, tag, queue and timestamp, with the flags as computed so far. */
  method WriteFront(e: Event, a: array<byte>, args: Args) returns (ok: bool, flags: int)
    requires a.Length == SIZE
    modifies a
    ensures var r := EncodeFront(e, old(a[..]), args); ok == r.Success? && (ok ==> a[..] == r.value)
    ensures ok ==> e.flags.Some? && flags == StampedFlags(e, e.flags.value)
  {
    flags := 0;
    ok := Write8Opt(a, TYPE, e.eventType);
    if !ok || e.flags.None? {
      return false, 0;
    }
    flags := e.flags.value;
    ok := Write8(a, TAG, e.tag);
    if !ok { return; }
    match args.queue {
      case QueueId(id) => ok := Write8(a, QUEUE, id);
      case ClosedQueue => ok := false;
      case NoQueue => ok := Write8(a, QUEUE, e.queueId.GetOr(QUEUE_DIRECT));
    }
    if !ok || (e.time.Some? && e.tick.Some?) {
      return false, flags;
    }
    if e.time.Some? {
      ok := WriteTime(a, TIME, e.time.value);
      flags := SetBit(flags, 1, true);
    }
    if e.tick.Some? {
      ok := Write32(a, TIME, e.tick.value);
      flags := SetBit(flags, 1, false);
    }
    if e.relative.Some? {
      flags := SetBit(flags, 2, e.relative.value);
    }
  }

  /** The copy into the data buffer, of twelve bytes at most. */
  method WriteRaw(a: array<byte>, raw: Option<seq<byte>>)
    requires a.Length == SIZE
    modifies a
    ensures a[..] == PutRaw(old(a[..]), raw)
  {
    if raw.Some? {
      var n := if |raw.value| < 12 then |raw.value| else 12;
      for i := 0 to n
        invariant forall k :: 0 <= k < i ==> a[DATA + k] == raw.value[k]
        invariant forall k :: 0 <= k < SIZE && !(DATA <= k < DATA + i) ==> a[k] == old(a[k])
      {
        a[DATA + i] := raw.value[i];
      }
      assert a[..] == PutRaw(old(a[..]), raw);
    }
  }

  method WriteBack(e: Event, a: array<byte>, args: Args, flags: int) returns (ok: bool)
    requires a.Length == SIZE && e.flags.Some? && flags == StampedFlags(e, e.flags.value)
    modifies a
    ensures var r := EncodeBack(e, old(a[..]), args); ok == r.Success? && (ok ==> a[..] == r.value)
  {
    ok := true;
    if args.port.Some? {
      ok := Write8(a, SOURCE + 1, args.port.value);
    } else if e.source.Some? {
      ok := WriteAddress(a, SOURCE, e.source.value);
    }
    if !ok { return; }
    if args.dest.Some? {
      ok := WriteAddress(a, DEST, args.dest.value);
    } else if e.dest.Some? {
      ok := WriteAddress(a, DEST, e.dest.value);
    } else {
      ok := Write8(a, DEST, ADDRESS_SUBSCRIBERS);
    }
    if !ok { return; }
    WriteRaw(a, e.rawData);
    ok := Write8(a, FLAGS, flags);
  }

  method WriteNote(a: array<byte>, note: int, channel: int, velocity: int) returns (ok: bool)
    requires a.Length == SIZE
    modifies a
    ensures var r := PutNote(old(a[..]), note, channel, velocity); ok == r.Success? && (ok ==> a[..] == r.value)
  {
    ok := Write8(a, DATA + 1, note);
    if ok { ok := Write8(a, DATA, channel); }
    if ok { ok := Write8(a, DATA + 2, velocity); }
  }

  method WriteExternal(a: array<byte>, data: seq<byte>, p: Pointer) returns (ok: bool)
    requires a.Length == SIZE
    modifies a
    ensures var r := PutExternal(old(a[..]), data, p); ok == r.Success? && (ok ==> a[..] == r.value)
  {
    ok := Write8(a, FLAGS, SetBit(a[FLAGS], 4, true));
    if ok { ok := Write32(a, DATA, |data|); }
    if ok {
      ghost var before := a[..];
      for i := 0 to 8
        invariant forall k :: 0 <= k < i ==> a[PARAM + k] == p[k]
        invariant forall k :: 0 <= k < PARAM ==> a[k] == before[k]
      {
        a[PARAM + i] := p[i];
      }
      assert a[..] == before[..PARAM] + p;
    }
  }

  /** The overrides of the specialised classes. */
  method WriteFields(f: Fields, a: array<byte>, place: seq<byte> -> Pointer) returns (ok: bool)
    requires a.Length == SIZE
    modifies a
    ensures var r := EncodeFields(f, old(a[..]), place); ok == r.Success? && (ok ==> a[..] == r.value)
  {
    match f
    case NoFields => ok := true;
    case ResultFields(event, result) =>
      ok := WriteSigned(a, DATA, event);
      if ok { ok := WriteSigned(a, DATA + 4, result); }
    case NoteFields(note, channel, velocity) => ok := WriteNote(a, note, channel, velocity);
    case FullNoteFields(note, channel, velocity, offVelocity, duration) =>
      ok := WriteNote(a, note, channel, velocity);
      if ok { ok := Write8(a, DATA + 3, offVelocity); }
      if ok { ok := Write32(a, DATA + 4, duration); }
    case ControlFields(channel, param, value) =>
      ok := Write8(a, DATA, channel);
      if ok { ok := Write32(a, DATA + 4, param); }
      if ok { ok := WriteSigned(a, DATA + 8, value); }
    case ParamFields(channel, value) =>
      ok := Write8(a, DATA, channel);
      if ok { ok := WriteSigned(a, DATA + 8, value); }
    case QueueFields(queue) => ok := Write8Opt(a, DATA, queue);
    case TickPositionFields(queue, tick) =>
      ok := Write8Opt(a, DATA, queue);
      if ok { ok := Write32(a, PARAM, tick); }
    case TimePositionFields(queue, time) =>
      ok := Write8Opt(a, DATA, queue);
      if ok { ok := WriteTime(a, PARAM, time); }
    case TempoFields(queue, midiTempo) =>
      ok := Write8Opt(a, DATA, queue);
      if ok { ok := WriteSigned(a, PARAM, midiTempo); }
    case SkewFields(queue, skew, base) =>
      ok := Write8Opt(a, DATA, queue);
      if ok { ok := Write32(a, PARAM, skew); }
      if ok { ok := Write32(a, PARAM + 4, base); }
    case SyncPositionFields(queue, position) =>
      ok := Write8Opt(a, DATA, queue);
      if ok { ok := Write32(a, PARAM, position); }
    case AddrFields(addr) => ok := WriteAddress(a, DATA, addr);
    case ConnectFields(sender, dest) =>
      ok := WriteAddress(a, DATA, sender);
      if ok { ok := WriteAddress(a, DATA + 2, dest); }
    case ExternalFields(data) => ok := WriteExternal(a, data, place(data));
  }

  lemma EncodeSteps(e: Event, s: Struct, args: Args, place: seq<byte> -> Pointer)
    ensures var front := EncodeFront(e, s, args);
            Encode(e, s, args, place) ==
            if front.Failure? then Failure(front.error)
            else if e.flags.None? then Failure(AttributeError)
            else
              var back := EncodeBack(e, front.value, args);
              if back.Failure? then Failure(back.error) else EncodeFields(e.fields, back.value, place)
  {}

  /** `_to_alsa` of the class of the event: it succeeds exactly when `Encode` does, and leaves that
      struct. A zeroed array takes every event in range, and holds the bytes of the layout then. */
  method ToAlsa(e: Event, a: array<byte>, args: Args, place: seq<byte> -> Pointer) returns (ok: bool)
    requires a.Length == SIZE
    modifies a
    ensures var r := Encode(e, old(a[..]), args, place); ok == r.Success? && (ok ==> a[..] == r.value)
    ensures old(a[..]) == ZERO && Constructed(e) && InRange(e, args) ==>
              ok && e.flags.Some? && a[..] == Wire(e, args, place)
  {
    if a[..] == ZERO && Constructed(e) && InRange(e, args) {
      EncodedAsLaidOut(e, args, place);
    }
    hide Encode, EncodeBase, EncodeFields, Wire;
    EncodeSteps(e, a[..], args, place);
    var flags;
    ok, flags := WriteFront(e, a, args);
    if ok { ok := WriteBack(e, a, args, flags); }
    if ok { ok := WriteFields(e.fields, a, place); }
  }
}
