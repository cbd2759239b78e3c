/** `RealTime`: seconds and nanoseconds. */
module RealTime {
  import opened Base
  import opened Decimal

  const BILLION := 1000000000

  datatype Time = Time(seconds: int, nanoseconds: int) {
    /** What every constructed value satisfies. */
    predicate Valid() {
      0 <= seconds && 0 <= nanoseconds < BILLION
    }

    function Total(): int {
      seconds * BILLION + nanoseconds
    }

    /** `__lt__`, the order of the (seconds, nanoseconds) tuples. */
    predicate Less(other: Time) {
      seconds < other.seconds || (seconds == other.seconds && nanoseconds < other.nanoseconds)
    }
  }

  datatype Error = NegativeTime

  /** The constructor on integers. Python's `//` and `%` agree with Dafny's for a positive divisor. */
  function Make(seconds: int, nanoseconds: int): Result<Time, Error> {
    var t := if nanoseconds >= BILLION
             then Time(seconds + nanoseconds / BILLION, nanoseconds % BILLION)
             else Time(seconds, nanoseconds);
    if t.seconds < 0 || t.nanoseconds < 0 then Failure(NegativeTime) else Success(t)
  }

  /** The constructor on a `RealTime` and further nanoseconds. */
  function Shift(t: Time, nanoseconds: int): Result<Time, Error> {
    Make(t.seconds, t.nanoseconds + nanoseconds)
  }

  /** Construction either raises or keeps the total; it raises exactly for negative nanoseconds and for
      totals below zero, so seconds may be negative when the nanoseconds make up for them. */
  lemma MakeKeepsTotal(seconds: int, nanoseconds: int)
    ensures Make(seconds, nanoseconds).Failure?
            <==> nanoseconds < 0 || seconds * BILLION + nanoseconds < 0
    ensures Make(seconds, nanoseconds).Success? ==>
              var t := Make(seconds, nanoseconds).value;
              t.Valid() && t.Total() == seconds * BILLION + nanoseconds
  {}

  lemma ShiftKeepsTotal(t: Time, nanoseconds: int)
    requires t.Valid()
    ensures Shift(t, nanoseconds).Failure? <==> t.nanoseconds + nanoseconds < 0
    ensures Shift(t, nanoseconds).Success? ==>
              Shift(t, nanoseconds).value.Valid() && Shift(t, nanoseconds).value.Total() == t.Total() + nanoseconds
  {
    MakeKeepsTotal(t.seconds, t.nanoseconds + nanoseconds);
  }

  /** Construction in plain numbers: a normal value is kept as it is, and a nanosecond is the
      thousand millionth part of a second. */
  lemma NanosecondsCarry(seconds: int, nanoseconds: int)
    ensures var r := Make(seconds, nanoseconds);
            && (r.Success? ==>
                  && 0 <= r.value.nanoseconds < 1000000000 && 0 <= r.value.seconds
                  && r.value.seconds * 1000000000 + r.value.nanoseconds == seconds * 1000000000 + nanoseconds)
            && (0 <= seconds && 0 <= nanoseconds < 1000000000 ==> r == Success(Time(seconds, nanoseconds)))
  {
    MakeKeepsTotal(seconds, nanoseconds);
  }

  /** On constructed values the tuple order and tuple equality are those of the total. */
  lemma OrderIsTotalOrder(t: Time, u: Time)
    requires t.Valid() && u.Valid()
    ensures t.Less(u) <==> t.Total() < u.Total()
    ensures t == u <==> t.Total() == u.Total()
    ensures t.Total() == t.seconds * 1000000000 + t.nanoseconds
  {}

  /** `__str__`: seconds, a point, and the nanoseconds as nine digits. */
  function Str(t: Time): string
    requires t.Valid()
  {
    Digits(t.seconds) + "." + ZeroFill(Digits(t.nanoseconds), 9)
  }

  lemma StrReadBack(t: Time)
    requires t.Valid()
    ensures |Str(t)| == |Digits(t.seconds)| + 10
    ensures var n := |Str(t)| - 10;
            && Str(t)[n] == '.'
            && Value(Str(t)[..n]) == t.seconds && Value(Str(t)[n + 1..]) == t.nanoseconds
  {
    assert Pow10(9) == BILLION;
    DigitsLength(t.nanoseconds, 9);
    DigitsValue(t.seconds);
    DigitsValue(t.nanoseconds);
    ZeroFillValue(Digits(t.nanoseconds), 9);
    var n := |Str(t)| - 10;
    assert Str(t)[..n] == Digits(t.seconds) && Str(t)[n + 1..] == ZeroFill(Digits(t.nanoseconds), 9);
  }

  /** The fraction always has nine digits, and no two times have the same text. */
  lemma StrInjective(t: Time, u: Time)
    requires t.Valid() && u.Valid()
    ensures |Str(t)| == |Digits(t.seconds)| + 10
    ensures var n := |Str(t)| - 10;
            && Str(t)[n] == '.'
            && Value(Str(t)[..n]) == t.seconds && Value(Str(t)[n + 1..]) == t.nanoseconds
    ensures Str(t) == Str(u) <==> t == u
  {
    StrReadBack(t);
    assert Pow10(9) == BILLION;
    DigitsLength(t.nanoseconds, 9);
    if Str(t) == Str(u) {
      SplitAtLast('.', Digits(t.seconds), ZeroFill(Digits(t.nanoseconds), 9),
                  Digits(u.seconds), ZeroFill(Digits(u.nanoseconds), 9));
      DigitsValue(t.seconds);
      DigitsValue(u.seconds);
      ZeroFillValue(Digits(t.nanoseconds), 9);
      ZeroFillValue(Digits(u.nanoseconds), 9);
      DigitsValue(t.nanoseconds);
      DigitsValue(u.nanoseconds);
    }
  }
}
