/** Tempo arithmetic: `Queue.set_tempo`, `QueueTempo` and the tempo event. Floats are reals here. */
module Tempo {
  import opened Base

  const MICROSECONDS: real := 60000000.0
  const SKEW_BASE := 0x1_0000

  /** `QueueTempo`. */
  datatype QueueTempo = QueueTempo(tempo: int, ppq: int, skew: Option<int>, skewBase: Option<int>)

  /** The kernel's `snd_seq_queue_tempo_t`. A fresh one is zeroed. */
  datatype KernelTempo = KernelTempo(tempo: int, ppq: int, skew: int, skewBase: int)

  /** The `tempo` argument of `set_tempo`. */
  datatype TempoArg = NoTempo | Micros(tempo: int) | Full(value: QueueTempo)

  datatype Error = ValueError | DivisionByZero

  /** `int(60000000 // bpm)`. */
  function FloorTempo(bpm: real): int
    requires bpm != 0.0
  {
    (MICROSECONDS / bpm).Floor
  }

  /** `round(60000000.0 / bpm)`, halves to even. */
  function RoundTempo(bpm: real): int
    requires bpm != 0.0
  {
    RoundHalfEven(MICROSECONDS / bpm)
  }

  function RoundHalfEven(x: real): int {
    var f := x.Floor;
    var d := x - f as real;
    if d < 0.5 then f else if d > 0.5 then f + 1 else if f % 2 == 0 then f else f + 1
  }

  /** The `bpm` property. */
  function Bpm(tempo: int): real
    requires tempo != 0
  {
    MICROSECONDS / tempo as real
  }

  /** What `set_tempo` asks for, argument by argument: an explicit argument first, then the field of the
      `QueueTempo`, then the default. */
  function Request(tempo: TempoArg, ppq: Option<int>, skew: Option<int>, skewBase: Option<int>, bpm: Option<real>)
    : Result<QueueTempo, Error>
  {
    match (bpm, tempo)
    case (Some(b), NoTempo) =>
      if b == 0.0 then Failure(DivisionByZero)
      else Success(QueueTempo(FloorTempo(b), ppq.GetOr(96), skew, skewBase))
    case (Some(_), _) => Failure(ValueError)
    case (None, NoTempo) => Failure(ValueError)
    case (None, Micros(t)) => Success(QueueTempo(t, ppq.GetOr(96), skew, skewBase))
    case (None, Full(v)) =>
      Success(QueueTempo(v.tempo, ppq.GetOr(v.ppq),
                         if skew.Some? then skew else v.skew, if skewBase.Some? then skewBase else v.skewBase))
  }

  /** The struct sent for a request: a skew of zero is not set, and a skew without a base gets the only
      base that is allowed. */
  function Sent(q: QueueTempo): KernelTempo {
    var skew := q.skew.GetOr(0);
    var base := q.skewBase.GetOr(0);
    KernelTempo(q.tempo, q.ppq, skew, if skew != 0 && base == 0 then SKEW_BASE else base)
  }

  /** What `set_tempo` sends to the kernel, or the error it raises. */
  function Setting(tempo: TempoArg, ppq: Option<int>, skew: Option<int>, skewBase: Option<int>, bpm: Option<real>)
    : Result<KernelTempo, Error>
  {
    var q :- Request(tempo, ppq, skew, skewBase, bpm);
    Success(Sent(q))
  }

  /** `set_tempo` up to the kernel call. */
  method SetTempo(tempo0: TempoArg, ppq0: Option<int>, skew0: Option<int>, skewBase0: Option<int>, bpm: Option<real>)
    returns (r: Result<KernelTempo, Error>)
    ensures r == Setting(tempo0, ppq0, skew0, skewBase0, bpm)
    ensures bpm.Some? && tempo0.NoTempo? && 0.0 < bpm.value < 60000000.0 ==>
              && r.Success? && r.value.tempo >= 1
              && var played := 60000000.0 / r.value.tempo as real;
                 bpm.value <= played < bpm.value + bpm.value * bpm.value / (60000000.0 - bpm.value)
  {
    if bpm.Some? && 0.0 < bpm.value < 60000000.0 {
      FloorTempoBound(bpm.value);
    }
    var tempo := 0;
    var ppq, skew, skewBase := ppq0, skew0, skewBase0;
    if bpm.Some? {
      if tempo0 != NoTempo {
        return Failure(ValueError);
      }
      if bpm.value == 0.0 {
        return Failure(DivisionByZero);
      }
      tempo := (MICROSECONDS / bpm.value).Floor;
    } else {
      match tempo0 {
        case NoTempo => return Failure(ValueError);
        case Micros(t) => tempo := t;
        case Full(v) =>
          if ppq.None? { ppq := Some(v.ppq); }
          if skew.None? { skew := v.skew; }
          if skewBase.None? { skewBase := v.skewBase; }
          tempo := v.tempo;
      }
    }
    if ppq.None? { ppq := Some(96); }
    var q := KernelTempo(tempo, ppq.value, 0, 0);
    if skew.Some? && skew.value != 0 {
      q := q.(skew := skew.value);
      if skewBase.None? || skewBase.value == 0 { skewBase := Some(SKEW_BASE); }
    }
    if skewBase.Some? && skewBase.value != 0 {
      q := q.(skewBase := skewBase.value);
    }
    return Success(q);
  }

  /** `QueueTempo._from_alsa`. */
  function Got(k: KernelTempo): QueueTempo {
    QueueTempo(k.tempo, k.ppq, Some(k.skew), Some(k.skewBase))
  }

  /** Setting a tempo with the fields filled in as reading does, or by hand, sends exactly it unless there
      is a skew with a base of zero. */
  lemma SetGotRestoresIff(k: KernelTempo)
    ensures var r := Request(Full(Got(k)), None, None, None, None);
            r.Success? && (Sent(r.value) == k <==> k.skew == 0 || k.skewBase != 0)
  {}

  /** When `set_tempo` raises: unless exactly one of tempo and bpm is given, and for a bpm of zero. */
  lemma SettingRaisesIff(tempo: TempoArg, ppq: Option<int>, skew: Option<int>, skewBase: Option<int>, bpm: Option<real>)
    ensures var r := Setting(tempo, ppq, skew, skewBase, bpm);
            && (r == Failure(ValueError) <==> (bpm.Some? <==> !tempo.NoTempo?))
            && (r == Failure(DivisionByZero) <==> tempo.NoTempo? && bpm == Some(0.0))
            && (r.Failure? ==> r.error in {ValueError, DivisionByZero})
  {}

  /** The struct `set_tempo` sends. Explicit arguments override the fields of a `QueueTempo`; ppq defaults
      to 96; a skew without a base gets 65536; the tempo for a bpm is the whole number of microseconds at
      or below 60000000 / bpm, which plays at least as fast as asked, and faster by less than
      bpm * bpm / (60000000 - bpm). */
  lemma SettingMeans(tempo: TempoArg, ppq: Option<int>, skew: Option<int>, skewBase: Option<int>, bpm: Option<real>)
    requires Setting(tempo, ppq, skew, skewBase, bpm).Success?
    ensures var k := Setting(tempo, ppq, skew, skewBase, bpm).value;
            && (tempo.Micros? ==> k.tempo == tempo.tempo)
            && (tempo.Full? ==> k.tempo == tempo.value.tempo)
            && (bpm.Some? ==> k.tempo as real <= 60000000.0 / bpm.value < k.tempo as real + 1.0)
            && (bpm.Some? && 0.0 < bpm.value < 60000000.0 ==>
                  && k.tempo >= 1
                  && bpm.value <= 60000000.0 / k.tempo as real < bpm.value + bpm.value * bpm.value / (60000000.0 - bpm.value))
    ensures var k := Setting(tempo, ppq, skew, skewBase, bpm).value;
            && (ppq.Some? ==> k.ppq == ppq.value)
            && (ppq.None? ==> k.ppq == if tempo.Full? then tempo.value.ppq else 96)
            && (skew.Some? ==> k.skew == skew.value)
            && (skew.None? && tempo.Full? && tempo.value.skew.Some? ==> k.skew == tempo.value.skew.value)
            && (skew.None? && (tempo.Full? ==> tempo.value.skew.None?) ==> k.skew == 0)
            && (skewBase.Some? && skewBase.value != 0 ==> k.skewBase == skewBase.value)
            && (skewBase.None? && tempo.Full? && tempo.value.skewBase.Some? && tempo.value.skewBase.value != 0 ==>
                  k.skewBase == tempo.value.skewBase.value)
            && (skewBase == Some(0) || (skewBase.None? && (tempo.Full? ==> tempo.value.skewBase in {None, Some(0)})) ==>
                  k.skewBase == if k.skew != 0 then 65536 else 0)
  {
    if bpm.Some? && 0.0 < bpm.value < 60000000.0 {
      FloorTempoBound(bpm.value);
    }
  }

  /** The constructor of `SetQueueTempoEvent`, as far as the tempo. */
  function EventTempo(midiTempo: Option<int>, bpm: Option<real>): Result<int, Error> {
    if midiTempo.Some? && bpm.Some? then Failure(ValueError)
    else if midiTempo.Some? then Success(midiTempo.value)
    else if bpm.None? then Failure(ValueError)
    else if bpm.value == 0.0 then Failure(DivisionByZero)
    else Success(RoundTempo(bpm.value))
  }

  /** A tempo event needs exactly one of tempo and bpm. From a bpm it gets the nearest whole number of
      microseconds, the even one of two. */
  lemma EventTempoMeans(midiTempo: Option<int>, bpm: Option<real>)
    ensures var r := EventTempo(midiTempo, bpm);
            && (r == Failure(ValueError) <==> (midiTempo.Some? <==> bpm.Some?))
            && (r == Failure(DivisionByZero) <==> midiTempo.None? && bpm == Some(0.0))
            && (midiTempo.Some? && bpm.None? ==> r == Success(midiTempo.value))
            && (midiTempo.None? && bpm.Some? && bpm.value != 0.0 ==>
                  && r.Success?
                  && var t := r.value as real;
                     var exact := 60000000.0 / bpm.value;
                     && exact - 0.5 <= t <= exact + 0.5
                     && (t == exact + 0.5 || t == exact - 0.5 ==> r.value % 2 == 0))
  {}

  lemma DivideMonotone(a: real, x: real, y: real)
    requires a > 0.0 && 0.0 < x <= y
    ensures a / y <= a / x
    ensures x < y ==> a / y < a / x
  {
    var u, v := a / x, a / y;
    assert u * x == a && v * y == a;
    assert v > 0.0 by { Factor(v, y); }
    assert (u - v) * x == v * (y - x);
    Factor(u - v, x);
  }

  /** The sign of a factor. */
  lemma Factor(p: real, x: real)
    requires x > 0.0
    ensures p * x > 0.0 <==> p > 0.0
    ensures p * x >= 0.0 <==> p >= 0.0
  {}

  /** From bpm to tempo and back: the tempo set for `bpm` plays at least as fast as asked, and faster by
      less than bpm * bpm / (60000000 - bpm). */
  lemma FloorTempoBound(bpm: real)
    requires 0.0 < bpm < MICROSECONDS
    ensures FloorTempo(bpm) >= 1
    ensures bpm <= Bpm(FloorTempo(bpm)) < bpm + bpm * bpm / (MICROSECONDS - bpm)
  {
    var x := MICROSECONDS / bpm;
    var t := FloorTempo(bpm) as real;
    assert x * bpm == MICROSECONDS;
    DivideMonotone(MICROSECONDS, bpm, MICROSECONDS);
    assert x > 1.0;
    assert t >= 1.0;
    DivideMonotone(MICROSECONDS, t, x);
    assert MICROSECONDS / x == bpm;
    DivideMonotone(MICROSECONDS, x - 1.0, t);
    var gap := bpm * bpm / (MICROSECONDS - bpm);
    assert gap * (MICROSECONDS - bpm) == bpm * bpm;
    assert (x - 1.0) * bpm == MICROSECONDS - bpm;
    assert (bpm + gap) * (MICROSECONDS - bpm) == MICROSECONDS * bpm;
    assert (bpm + gap) * ((x - 1.0) * bpm) == MICROSECONDS * bpm;
    assert ((bpm + gap) * (x - 1.0)) * bpm == MICROSECONDS * bpm;
    assert (bpm + gap) * (x - 1.0) == MICROSECONDS;
    assert MICROSECONDS / (x - 1.0) == bpm + gap;
  }

  /** The tempo event rounds: its tempo is within half a microsecond of the exact one. */
  lemma RoundTempoBound(bpm: real)
    requires bpm > 0.0
    ensures var exact := MICROSECONDS / bpm;
            exact - 0.5 <= RoundTempo(bpm) as real <= exact + 0.5
  {}

  /** A tempo is recovered from its own bpm, by rounding and by flooring. */
  lemma TempoRecovered(tempo: int)
    requires tempo > 0
    ensures Bpm(tempo) != 0.0
    ensures FloorTempo(Bpm(tempo)) == tempo && RoundTempo(Bpm(tempo)) == tempo
  {
    var b := Bpm(tempo);
    assert b * tempo as real == MICROSECONDS;
    assert MICROSECONDS / b == tempo as real;
  }
}
