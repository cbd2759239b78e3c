/** The Standard MIDI File writer: variable-length quantities and track chunks. */
module TrackWriter {
  import opened Base
  import opened Bytes

  /** The bytes in front of the last: seven bits each, top bit set. */
  function Leading(value: nat): seq<byte> {
    if value == 0 then [] else Leading(value / 0x80) + [0x80 + value % 0x80]
  }

  function Vlq(value: nat): seq<byte> {
    Leading(value / 0x80) + [value % 0x80]
  }

  /** `vlq`: the shifting loop. It needs a value that is not negative, see `NegativeNeverEnds`. */
  method WriteVlq(value0: nat) returns (bts: seq<byte>)
    ensures bts == Vlq(value0)
  {
    var value: nat := value0;
    bts := [value % 0x80];
    value := value / 0x80;
    while value != 0
      invariant Leading(value) + bts == Vlq(value0)
      decreases value
    {
      assert Leading(value / 0x80) + [0x80 + value % 0x80] + bts == Leading(value / 0x80) + ([0x80 + value % 0x80] + bts);
      bts := [0x80 + value % 0x80] + bts;
      value := value / 0x80;
    }
    assert Leading(0) + bts == bts;
  }

  function Shifted(value: int, n: nat): int {
    if n == 0 then value else Shifted(value, n - 1) / 0x80
  }

  /** Shifting reaches zero exactly for values that are not negative; the loop never ends for others. */
  lemma {:induction false} NegativeNeverEnds(value: int, n: nat)
    ensures value < 0 ==> Shifted(value, n) < 0
    ensures value >= 0 ==> 0 <= Shifted(value, n) <= value
    ensures 0 <= value <= n ==> Shifted(value, n) == 0
  {
    if n > 0 {
      NegativeNeverEnds(value, n - 1);
      ShiftedBelow(value, n);
    }
  }

  lemma {:induction false} ShiftedBelow(value: int, n: nat)
    ensures value >= 0 ==> 0 <= Shifted(value, n) && (Shifted(value, n) == 0 || Shifted(value, n) <= value - n)
  {
    if n > 0 {
      ShiftedBelow(value, n - 1);
    }
  }

  /* ---------- Reading quantities ---------- */

  /** The shape of a quantity: the top bit on every byte but the last. */
  ghost predicate WellShaped(s: seq<byte>) {
    s != [] && s[|s| - 1] < 0x80 && forall i :: 0 <= i < |s| - 1 ==> s[i] >= 0x80
  }

  /** The standard decoder: seven bits a byte, up to the first byte without the top bit. */
  function Read(acc: nat, s: seq<byte>): Option<(nat, seq<byte>)>
    decreases |s|
  {
    if s == [] then None
    else
      var acc1 := acc * 0x80 + s[0] % 0x80;
      if s[0] < 0x80 then Some((acc1, s[1..])) else Read(acc1, s[1..])
  }

  lemma {:induction false} LeadingShape(value: nat)
    ensures forall i :: 0 <= i < |Leading(value)| ==> Leading(value)[i] >= 0x80
  {
    if value != 0 {
      LeadingShape(value / 0x80);
    }
  }

  lemma {:induction false} ReadLeading(value: nat, rest: seq<byte>)
    ensures Read(0, Leading(value) + rest) == Read(value, rest)
  {
    if value == 0 {
      assert Leading(value) + rest == rest;
    } else {
      var b: byte := 0x80 + value % 0x80;
      assert Leading(value) + rest == Leading(value / 0x80) + ([b] + rest);
      ReadLeading(value / 0x80, [b] + rest);
      assert ([b] + rest)[1..] == rest;
    }
  }

  /** A quantity is well shaped and is read back, whatever follows it. */
  lemma VlqReadBack(value: nat, rest: seq<byte>)
    ensures WellShaped(Vlq(value))
    ensures Read(0, Vlq(value) + rest) == Some((value, rest))
  {
    LeadingShape(value / 0x80);
    var last: seq<byte> := [value % 0x80];
    ReadLeading(value / 0x80, last + rest);
    assert Vlq(value) + rest == Leading(value / 0x80) + (last + rest);
    ReadLast(value / 0x80, value % 0x80, rest);
  }

  lemma ReadLast(acc: nat, last: byte, rest: seq<byte>)
    requires last < 0x80
    ensures Read(acc, [last] + rest) == Some((acc * 0x80 + last, rest))
  {
    assert ([last] + rest)[1..] == rest;
  }

  function Power(n: nat): nat {
    if n == 0 then 1 else 0x80 * Power(n - 1)
  }

  lemma {:induction false} LeadingBound(value: nat, n: nat)
    requires value < Power(n)
    ensures |Leading(value)| <= n
  {
    if value != 0 {
      assert n > 0;
      LeadingBound(value / 0x80, n - 1);
    }
  }

  lemma {:induction false} ReadBound(acc: nat, s: seq<byte>, n: nat)
    requires WellShaped(s) && acc < Power(n)
    ensures Read(acc, s).Some? && Read(acc, s).value.0 < Power(n + |s|)
    decreases |s|
  {
    var acc1 := acc * 0x80 + s[0] % 0x80;
    assert acc1 < Power(n + 1);
    if |s| > 1 {
      ReadBound(acc1, s[1..], n + 1);
    }
  }

  /** No well shaped encoding of a value is shorter. */
  lemma VlqShortest(value: nat, s: seq<byte>)
    requires WellShaped(s) && Read(0, s).Some? && Read(0, s).value.0 == value
    ensures |Vlq(value)| <= |s|
  {
    ReadBound(0, s, 0);
    assert Power(|s|) == 0x80 * Power(|s| - 1);
    LeadingBound(value / 0x80, |s| - 1);
  }

  /** No quantity is the beginning of another. */
  lemma VlqPrefixFree(v: nat, w: nat)
    requires Vlq(v) <= Vlq(w)
    ensures v == w
  {
    var rest := Vlq(w)[|Vlq(v)|..];
    assert Vlq(w) == Vlq(v) + rest && Vlq(w) + [] == Vlq(w);
    VlqReadBack(v, rest);
    VlqReadBack(w, []);
  }

  function Concat(values: seq<nat>): seq<byte> {
    if values == [] then [] else Vlq(values[0]) + Concat(values[1..])
  }

  /** A run of quantities stands for one list of values only. */
  lemma {:induction false} ConcatUnique(v: seq<nat>, w: seq<nat>)
    requires Concat(v) == Concat(w)
    ensures v == w
  {
    if v != [] && w != [] {
      VlqReadBack(v[0], Concat(v[1..]));
      VlqReadBack(w[0], Concat(w[1..]));
      ConcatUnique(v[1..], w[1..]);
      assert v == [v[0]] + v[1..] && w == [w[0]] + w[1..];
    } else {
      assert v != [] ==> Concat(v) != [];
      assert w != [] ==> Concat(w) != [];
    }
  }

  /* ---------- Track chunks ---------- */

  datatype Event = Event(time: nat, bytes: seq<byte>)

  const END_OF_TRACK: seq<byte> := [0xff, 0x2f, 0x00]
  const TRACK_TAG: seq<byte> := ['M' as int, 'T' as int, 'r' as int, 'k' as int]

  /** `len(data).to_bytes(4, byteorder='big')`. */
  function BigEndian(n: int): seq<byte>
    requires IsU32(n)
  {
    var n1 := n / 0x100;
    var n2 := n1 / 0x100;
    [n2 / 0x100, n2 % 0x100, n1 % 0x100, n % 0x100]
  }

  function FromBigEndian(s: seq<byte>): int
    requires |s| == 4
  {
    Join(s[3], Join(s[2], Join(s[1], s[0])))
  }

  function TrackData(events: seq<Event>): seq<byte> {
    if events == [] then [0] + END_OF_TRACK
    else Vlq(events[0].time) + events[0].bytes + TrackData(events[1..])
  }

  datatype Error = OverflowError

  /** The chunk `write_track` writes, unless its length does not fit. */
  function Track(events: seq<Event>): Result<seq<byte>, Error> {
    var data := TrackData(events);
    if IsU32(|data|) then Success(TRACK_TAG + BigEndian(|data|) + data) else Failure(OverflowError)
  }

  function Front(events: seq<Event>): seq<byte> {
    if events == [] then []
    else Front(events[..|events| - 1]) + Vlq(events[|events| - 1].time) + events[|events| - 1].bytes
  }

  lemma {:induction false} FrontIsData(events: seq<Event>, tail: seq<Event>)
    ensures Front(events) + TrackData(tail) == TrackData(events + tail)
  {
    hide Vlq;
    if events == [] {
      assert events + tail == tail;
    } else {
      var n := |events| - 1;
      var delta, bytes, data := Vlq(events[n].time), events[n].bytes, TrackData(tail);
      FrontIsData(events[..n], [events[n]] + tail);
      assert events[..n] + ([events[n]] + tail) == events + tail;
      assert ([events[n]] + tail)[1..] == tail;
      assert TrackData([events[n]] + tail) == delta + bytes + data;
      assert Front(events[..n]) + (delta + bytes + data) == (Front(events[..n]) + delta + bytes) + data;
    }
  }

  /** `write_track`. */
  method WriteTrack(events: seq<Event>) returns (r: Result<seq<byte>, Error>)
    ensures r == Track(events)
  {
    var data: seq<byte> := [];
    for i := 0 to |events|
      invariant data == Front(events[..i])
    {
      var delta := WriteVlq(events[i].time);
      data := data + delta;
      data := data + events[i].bytes;
      assert events[..i + 1][..i] == events[..i];
    }
    assert events[..|events|] == events && events + [] == events;
    FrontIsData(events, []);
    data := data + [0x00, 0xff, 0x2f, 0x00];
    assert data == TrackData(events);
    if |data| >= U32_LIMIT {
      return Failure(OverflowError);
    }
    return Success(TRACK_TAG + BigEndian(|data|) + data);
  }

  /** The chunk byte by byte, as the file format has it: "MTrk", the length of what follows most significant
      byte first, for each event the delta time and the message, and delta time zero in front of the end
      of the track FF 2F 00. It is not written if its length needs more than 32 bits. */
  lemma TrackLaidOut(events: seq<Event>)
    ensures Track(events).Success? <==> |Front(events)| + 4 < 4294967296
    ensures Track(events).Success? ==>
              var s := Track(events).value;
              && |s| == 8 + |Front(events)| + 4
              && s[..4] == [77, 84, 114, 107]
              && 16777216 * (s[4] as int) + 65536 * (s[5] as int) + 256 * (s[6] as int) + (s[7] as int) == |s| - 8
              && s[8..] == Front(events) + [0, 255, 47, 0]
  {
    FrontIsData(events, []);
    assert events + [] == events;
    var data := TrackData(events);
    assert data == Front(events) + [0, 255, 47, 0];
    if IsU32(|data|) {
      BigEndianDigits(|data|);
      var s := Track(events).value;
      assert s[..4] == [77, 84, 114, 107] && s[4..8] == BigEndian(|data|) && s[8..] == data;
      assert s[4] == s[4..8][0] && s[5] == s[4..8][1] && s[6] == s[4..8][2] && s[7] == s[4..8][3];
    }
  }

  lemma BigEndianDigits(n: int)
    requires IsU32(n)
    ensures var b := BigEndian(n);
            16777216 * (b[0] as int) + 65536 * (b[1] as int) + 256 * (b[2] as int) + (b[3] as int) == n
  {}

  /** How many bytes the MIDI message at the front of `s` takes, zero for none. */
  type MessageSize = seq<byte> -> nat

  /** The size function recognises the end of a track, and each message of the events, whatever
      follows; no event is itself the end of a track. */
  ghost predicate Recognises(size: MessageSize, events: seq<Event>) {
    && (forall rest :: size(END_OF_TRACK + rest) == 3)
    && (forall e, rest :: e in events ==> size(e.bytes + rest) == |e.bytes| && e.bytes != [] && e.bytes != END_OF_TRACK)
  }

  /** Reading the data of a track: delta time and message in turn, to the end of the track. */
  function ReadData(size: MessageSize, s: seq<byte>): Option<seq<Event>>
    decreases |s|
  {
    var delta := Read(0, s);
    if delta.None? then None
    else
      var (time, s1) := delta.value;
      var n := size(s1);
      if n == 0 || n > |s1| || |s1| >= |s| then None
      else if s1[..n] == END_OF_TRACK then (if n == |s1| then Some([]) else None)
      else
        var tail := ReadData(size, s1[n..]);
        if tail.None? then None else Some([Event(time, s1[..n])] + tail.value)
  }

  function ReadTrack(size: MessageSize, s: seq<byte>): Option<seq<Event>> {
    if |s| >= 8 && s[..4] == TRACK_TAG && FromBigEndian(s[4..8]) == |s| - 8 then ReadData(size, s[8..]) else None
  }

  lemma {:induction false} DataReadBack(size: MessageSize, events: seq<Event>)
    requires Recognises(size, events)
    ensures ReadData(size, TrackData(events)) == Some(events)
  {
    if events == [] {
      var data: seq<byte> := [0] + END_OF_TRACK;
      assert data[1..] == END_OF_TRACK && END_OF_TRACK + [] == END_OF_TRACK;
      assert END_OF_TRACK[..3] == END_OF_TRACK;
      assert Read(0, data) == Some((0, END_OF_TRACK));
    } else {
      var e, tail := events[0], TrackData(events[1..]);
      assert TrackData(events) == Vlq(e.time) + (e.bytes + tail);
      VlqReadBack(e.time, e.bytes + tail);
      assert (e.bytes + tail)[..|e.bytes|] == e.bytes && (e.bytes + tail)[|e.bytes|..] == tail;
      assert e in events;
      DataReadBack(size, events[1..]);
      assert [e] + events[1..] == events;
    }
  }

  /** The events of a written track are read back: the tag and the length are right, the delta times
      and messages come back in order, and the end of the track is where it was written. */
  lemma TrackReadBack(size: MessageSize, events: seq<Event>)
    requires Recognises(size, events) && Track(events).Success?
    ensures ReadTrack(size, Track(events).value) == Some(events)
  {
    var data := TrackData(events);
    var s := Track(events).value;
    var n := |data|;
    assert s[..4] == TRACK_TAG && s[4..8] == BigEndian(n) && s[8..] == data;
    DataReadBack(size, events);
  }
}
