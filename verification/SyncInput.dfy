/** `SequencerClient.event_input`: poll and retry until an event, an error or the deadline. */
module SyncInput {
  import opened Base
  import opened Kernel

  /** One turn of the loop: what arrives before the attempt, how the attempt goes, and the reading of
      the monotonic clock after it. */
  datatype Round<+E> = Round(arrivals: seq<E>, k: ValidOracle, clock: int)

  /** `OutOfRounds`: the call is still polling when the script ends. */
  datatype Outcome<+E> =
    | Returned(event: E)
    | ReturnedNone
    | RaisedAlsaError(code: int)
    | RaisedException
    | OutOfRounds

  function Arrivals<E>(script: seq<Round<E>>): seq<E> {
    if script == [] then [] else Arrivals(script[..|script| - 1]) + script[|script| - 1].arrivals
  }

  /** `if timeout:` holds neither for None nor for zero. */
  function Deadline(timeout: Option<int>, now: int): Option<int> {
    if timeout.Some? && timeout.value != 0 then Some(now + timeout.value) else None
  }

  predicate Expired(until: Option<int>, clock: int) {
    until.Some? && until.value - clock <= 0
  }

  /** The attempt of round `i` found nothing to read. */
  predicate Blocked<E>(fifo: seq<E>, script: seq<Round<E>>, i: nat)
    requires i < |script|
  {
    Attempt(fifo + Arrivals(script[..i + 1]), script[i].k).0.WouldBlock()
  }

  /** The first `n` rounds found nothing to read and came before the deadline. */
  ghost predicate Polled<E>(fifo0: seq<E>, script: seq<Round<E>>, until: Option<int>, n: nat)
    requires n <= |script|
  {
    forall i :: 0 <= i < n ==> Blocked(fifo0, script, i) && !Expired(until, script[i].clock)
  }

  /** What an outcome after `used` rounds says about the FIFO left behind: an event is exactly the head
      of all that arrived; None and a fault leave everything; a failure to decode costs the head. */
  ghost predicate Explains<E>(fifo0: seq<E>, script: seq<Round<E>>, until: Option<int>,
                              outcome: Outcome<E>, fifo: seq<E>, used: nat)
    requires used <= |script| && (used == 0 ==> outcome.OutOfRounds?)
  {
    var all := fifo0 + Arrivals(script[..used]);
    match outcome
    case Returned(e) => all == [e] + fifo
    case ReturnedNone =>
      fifo == all && Blocked(fifo0, script, used - 1) && Expired(until, script[used - 1].clock)
    case RaisedAlsaError(code) =>
      && code < 0 && code != EAGAIN
      && (if script[used - 1].k.fault == Some(code) then fifo == all else all != [] && fifo == all[1..])
    case RaisedException => all != [] && fifo == all[1..]
    case OutOfRounds => fifo == all && used == |script| && Polled(fifo0, script, until, used)
  }

  /** The end of a call whose last attempt did not block. */
  function Ending<E>(reply: Reply<E>): Outcome<E> {
    match reply
    case EventReply(e) => Returned(e)
    case ErrorReply(code) => RaisedAlsaError(code)
    case ExceptionReply => RaisedException
  }

  lemma NextArrivals<E>(script: seq<Round<E>>, n: nat)
    requires n < |script|
    ensures Arrivals(script[..n + 1]) == Arrivals(script[..n]) + script[n].arrivals
  {
    assert script[..n + 1][..n] == script[..n];
  }

  lemma AttemptExplained<E>(fifo0: seq<E>, script: seq<Round<E>>, until: Option<int>, n: nat)
    requires n < |script|
    ensures var (reply, rest, _) := Attempt(fifo0 + Arrivals(script[..n + 1]), script[n].k);
            !reply.WouldBlock() ==> Explains(fifo0, script, until, Ending(reply), rest, n + 1)
  {
    var all := fifo0 + Arrivals(script[..n + 1]);
    var (reply, rest, event) := Attempt(all, script[n].k);
    if event.Some? {
      assert all[1..] == rest;
    }
  }

  /** Where a call ends: its outcome, the FIFO it leaves, and the rounds it took. */
  datatype Ended<+E> = Ended(outcome: Outcome<E>, fifo: seq<E>, used: nat)

  /** The call as a function of the script. */
  function InputRun<E>(fifo: seq<E>, script: seq<Round<E>>, until: Option<int>): Ended<E>
    decreases |script|
  {
    if script == [] then Ended(OutOfRounds, fifo, 0)
    else
      var round := script[0];
      var all := fifo + round.arrivals;
      var (reply, rest, _) := Attempt(all, round.k);
      if !reply.WouldBlock() then Ended(Ending(reply), rest, 1)
      else if Expired(until, round.clock) then Ended(ReturnedNone, all, 1)
      else Later(1, InputRun(all, script[1..], until))
  }

  function Later<E>(n: nat, e: Ended<E>): Ended<E> {
    e.(used := e.used + n)
  }

  /** A call that has gone through `used` rounds and continues with `fifo`. */
  ghost predicate Polling<E(!new)>(fifo0: seq<E>, script: seq<Round<E>>, until: Option<int>, fifo: seq<E>, used: nat) {
    && used <= |script|
    && fifo == fifo0 + Arrivals(script[..used])
    && Polled(fifo0, script, until, used)
    && InputRun(fifo0, script, until) == Later(used, InputRun(fifo, script[used..], until))
  }

  lemma PollingStarts<E(!new)>(fifo0: seq<E>, script: seq<Round<E>>, until: Option<int>)
    ensures Polling(fifo0, script, until, fifo0, 0)
  {
    assert Arrivals(script[..0]) == [] && script[0..] == script;
  }

  /** One more round ends the call as the function says, or polls on. */
  lemma NextRound<E(!new)>(fifo0: seq<E>, script: seq<Round<E>>, until: Option<int>, fifo: seq<E>, used: nat)
    requires used < |script| && Polling(fifo0, script, until, fifo, used)
    ensures var round := script[used];
            var all := fifo + round.arrivals;
            var (reply, rest, _) := Attempt(all, round.k);
            && all == fifo0 + Arrivals(script[..used + 1])
            && (!reply.WouldBlock() ==> InputRun(fifo0, script, until) == Ended(Ending(reply), rest, used + 1))
            && (reply.WouldBlock() && Expired(until, round.clock) ==>
                  InputRun(fifo0, script, until) == Ended(ReturnedNone, all, used + 1))
            && (reply.WouldBlock() && !Expired(until, round.clock) ==> Polling(fifo0, script, until, all, used + 1))
  {
    NextArrivals(script, used);
    AppendAssociates(fifo0, Arrivals(script[..used]), script[used].arrivals);
    assert script[used..][1..] == script[used + 1..];
  }

  /** What the function says of the outcome, the FIFO and the rounds before it. */
  lemma InputRunExplained<E(!new)>(fifo0: seq<E>, script: seq<Round<E>>, until: Option<int>, fifo: seq<E>, used: nat)
    requires Polling(fifo0, script, until, fifo, used)
    ensures var r := InputRun(fifo0, script, until);
            && r.used <= |script| && (r.used == 0 ==> r.outcome.OutOfRounds?)
            && Polled(fifo0, script, until, if r.used == 0 then 0 else r.used - 1)
            && Explains(fifo0, script, until, r.outcome, r.fifo, r.used)
    decreases |script| - used
  {
    hide InputRun, Arrivals;
    if used < |script| {
      var all := fifo + script[used].arrivals;
      NextRound(fifo0, script, until, fifo, used);
      AttemptExplained(fifo0, script, until, used);
      if Attempt(all, script[used].k).0.WouldBlock() && !Expired(until, script[used].clock) {
        InputRunExplained(fifo0, script, until, all, used + 1);
      }
    } else {
      ScriptEnds(fifo0, script, until, fifo);
    }
  }

  lemma ScriptEnds<E(!new)>(fifo0: seq<E>, script: seq<Round<E>>, until: Option<int>, fifo: seq<E>)
    requires Polling(fifo0, script, until, fifo, |script|)
    ensures InputRun(fifo0, script, until) == Ended(OutOfRounds, fifo, |script|)
  {}

  /** For any arrivals and clock readings the call returns exactly the oldest event, or raises, or
      returns None with nothing consumed. None comes only from an attempt that found nothing and a
      clock reading at or past the deadline, and it comes from the first such reading. */
  method EventInput<E(!new)>(fifo0: seq<E>, script: seq<Round<E>>, timeout: Option<int>, now: int)
    returns (outcome: Outcome<E>, fifo: seq<E>, used: nat)
    ensures Ended(outcome, fifo, used) == InputRun(fifo0, script, Deadline(timeout, now))
    ensures used <= |script| && (used == 0 ==> outcome.OutOfRounds?)
    ensures Polled(fifo0, script, Deadline(timeout, now), if used == 0 then 0 else used - 1)
    ensures Explains(fifo0, script, Deadline(timeout, now), outcome, fifo, used)
  {
    hide InputRun, Arrivals, Explains, Polled;
    var until := if timeout.Some? && timeout.value != 0 then Some(now + timeout.value) else None;
    PollingStarts(fifo0, script, until);
    InputRunExplained(fifo0, script, until, fifo0, 0);
    fifo, used := fifo0, 0;
    while used < |script|
      invariant Polling(fifo0, script, until, fifo, used)
    {
      NextRound(fifo0, script, until, fifo, used);
      fifo := fifo + script[used].arrivals;
      var (reply, rest, _) := Attempt(fifo, script[used].k);
      used := used + 1;
      if !reply.WouldBlock() {
        return Ending(reply), rest, used;
      }
      if until.Some? && until.value - script[used - 1].clock <= 0 {
        return ReturnedNone, fifo, used;
      }
    }
    ScriptEnds(fifo0, script, until, fifo);
    outcome := OutOfRounds;
  }

  /** Nothing can be read: the sequencer says so, or no event has arrived that was not taken. */
  predicate NothingToRead<E>(fifo0: seq<E>, script: seq<Round<E>>, i: nat)
    requires i < |script|
  {
    var k := script[i].k;
    k.fault == Some(-11) || (k.fault.None? && |fifo0 + Arrivals(script[..i + 1])| == 0)
  }

  /** The rounds before `i` found nothing and came before the deadline. */
  ghost predicate ReachesRound<E(!new)>(fifo0: seq<E>, script: seq<Round<E>>, until: Option<int>, i: nat) {
    && i < |script|
    && forall j :: 0 <= j < i ==> NothingToRead(fifo0, script, j) && (until.Some? ==> script[j].clock < until.value)
  }

  /** What the call does in the round it reaches, from the arrivals and what the library answers: an event
      that can be read and decoded is returned, codes and exceptions are raised as they are, and only a
      round with nothing to read can end in None. */
  lemma RoundDecides<E(!new)>(fifo0: seq<E>, script: seq<Round<E>>, until: Option<int>, i: nat)
    requires ReachesRound(fifo0, script, until, i)
    ensures var r := InputRun(fifo0, script, until);
            var all := fifo0 + Arrivals(script[..i + 1]);
            var k := script[i].k;
            && (k.fault.Some? && k.fault.value != -11 ==> r == Ended(RaisedAlsaError(k.fault.value), all, i + 1))
            && (k.fault.None? && |all| > 0 ==>
                  match k.decoding
                  case Decoded => r == Ended(Returned(all[0]), all[1..], i + 1)
                  case DecodeError(code) => r == Ended(RaisedAlsaError(code), all[1..], i + 1)
                  case DecodeRaises => r == Ended(RaisedException, all[1..], i + 1))
            && (NothingToRead(fifo0, script, i) && until.Some? && script[i].clock >= until.value ==>
                  r == Ended(ReturnedNone, all, i + 1))
  {
    PollingStarts(fifo0, script, until);
    PollingReaches(fifo0, script, until, fifo0, 0, i);
    hide InputRun, Arrivals;
    var fifo := fifo0 + Arrivals(script[..i]);
    NextRound(fifo0, script, until, fifo, i);
  }

  lemma NothingBlocks<E(!new)>(fifo0: seq<E>, script: seq<Round<E>>, i: nat)
    requires i < |script|
    ensures NothingToRead(fifo0, script, i) <==> Blocked(fifo0, script, i)
  {}

  lemma {:induction false} PollingReaches<E(!new)>(fifo0: seq<E>, script: seq<Round<E>>, until: Option<int>, fifo: seq<E>, used: nat, i: nat)
    requires ReachesRound(fifo0, script, until, i) && used <= i && Polling(fifo0, script, until, fifo, used)
    ensures Polling(fifo0, script, until, fifo0 + Arrivals(script[..i]), i)
    decreases i - used
  {
    hide InputRun, Arrivals;
    if used < i {
      NothingBlocks(fifo0, script, used);
      NextRound(fifo0, script, until, fifo, used);
      PollingReaches(fifo0, script, until, fifo + script[used].arrivals, used + 1, i);
    }
  }

  /** What the library and the clock must have done in a round for the call to end in it like this. */
  predicate Causes<E>(round: Round<E>, until: Option<int>, outcome: Outcome<E>) {
    var k := round.k;
    match outcome
    case Returned(_) => k.fault.None? && k.decoding.Decoded?
    case ReturnedNone => until.Some? && round.clock >= until.value
    case RaisedAlsaError(code) => k.fault == Some(code) || (k.fault.None? && k.decoding == DecodeError(code))
    case RaisedException => k.fault.None? && k.decoding.DecodeRaises?
    case OutOfRounds => false
  }

  /** Each ending has its cause in the round the call ended in. */
  lemma {:induction false} EndingHasCause<E(!new)>(fifo: seq<E>, script: seq<Round<E>>, until: Option<int>)
    ensures var r := InputRun(fifo, script, until);
            && r.used <= |script|
            && (r.outcome.OutOfRounds? || (r.used > 0 && Causes(script[r.used - 1], until, r.outcome)))
    decreases |script|
  {
    if script != [] {
      var all := fifo + script[0].arrivals;
      if Attempt(all, script[0].k).0.WouldBlock() && !Expired(until, script[0].clock) {
        EndingHasCause(all, script[1..], until);
        var r := InputRun(all, script[1..], until);
        if r.used > 0 {
          assert script[1..][r.used - 1] == script[r.used];
        }
      }
    }
  }

  lemma {:induction false} NoDeadlineNoNone<E>(fifo: seq<E>, script: seq<Round<E>>)
    ensures !InputRun(fifo, script, None).outcome.ReturnedNone?
    decreases |script|
  {
    if script != [] {
      NoDeadlineNoNone(fifo + script[0].arrivals, script[1..]);
    }
  }

  predicate TimesOut<E>(fifo0: seq<E>, script: seq<Round<E>>, timeout: Option<int>, now: int) {
    InputRun(fifo0, script, Deadline(timeout, now)).outcome.ReturnedNone?
  }

  /** The call can return None, for some arrivals, oracles and clock readings, if and only if a timeout
      is given that is not zero. Like no timeout at all, a timeout of zero waits for ever. */
  lemma TimesOutIff<E(!new)>(fifo0: seq<E>, timeout: Option<int>, now: int)
    ensures (exists script :: TimesOut(fifo0, script, timeout, now)) <==> timeout.Some? && timeout.value != 0
  {
    if timeout.Some? && timeout.value != 0 {
      var script := [Round([], Oracle(Some(EAGAIN), Decoded), now + timeout.value)];
      assert Expired(Deadline(timeout, now), script[0].clock);
      assert TimesOut(fifo0, script, timeout, now);
    } else {
      forall script
        ensures !TimesOut(fifo0, script, timeout, now)
      {
        NoDeadlineNoNone(fifo0, script);
      }
    }
  }

  /** A clock reading that is at least the timeout after the start. */
  ghost predicate Reached<E>(script: seq<Round<E>>, timeout: int, now: int) {
    exists i :: 0 <= i < |script| && script[i].clock - now >= timeout
  }

  ghost predicate Quiet<E(!new)>(script: seq<Round<E>>) {
    forall i :: 0 <= i < |script| ==> script[i].arrivals == [] && script[i].k.fault.None?
  }

  lemma ReachedLater<E>(script: seq<Round<E>>, timeout: int, now: int)
    requires script != []
    ensures Reached(script, timeout, now) <==> script[0].clock - now >= timeout || Reached(script[1..], timeout, now)
  {
    if Reached(script[1..], timeout, now) {
      var i :| 0 <= i < |script[1..]| && script[1..][i].clock - now >= timeout;
      assert script[i + 1].clock - now >= timeout;
    }
    if i :| 0 < i < |script| && script[i].clock - now >= timeout {
      assert script[1..][i - 1].clock - now >= timeout;
    }
  }

  lemma TailOfFront<E>(script: seq<Round<E>>, n: nat)
    requires 0 < n <= |script|
    ensures script[..n][1..] == script[1..][..n - 1]
  {}

  /** With nothing to read and nothing arriving, the call returns None at the first clock reading that
      is at least the timeout after the start, and polls on until then. */
  lemma {:induction false} SilentCallTimesOut<E(!new)>(script: seq<Round<E>>, timeout: int, now: int)
    requires timeout != 0 && Quiet(script)
    ensures var r := InputRun([], script, Deadline(Some(timeout), now));
            && r.used <= |script|
            && (r.outcome.ReturnedNone? <==> Reached(script, timeout, now))
            && (r.outcome.ReturnedNone? ==>
                  r.used > 0 && Reached(script[..r.used], timeout, now) && !Reached(script[..r.used - 1], timeout, now))
  {
    if script != [] {
      var rest := script[1..];
      SilentCallTimesOut(rest, timeout, now);
      ReachedLater(script, timeout, now);
      var r := InputRun([], rest, Deadline(Some(timeout), now));
      if script[0].clock - now >= timeout {
        assert script[..1][0].clock - now >= timeout;
      } else {
        assert InputRun([], script, Deadline(Some(timeout), now)) == Later(1, r);
        if r.outcome.ReturnedNone? {
          hide InputRun, Reached;
          TailOfFront(script, r.used + 1);
          TailOfFront(script, r.used);
          ReachedLater(script[..r.used + 1], timeout, now);
          ReachedLater(script[..r.used], timeout, now);
        }
      }
    }
  }
}
