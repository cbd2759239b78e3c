/** The two wait loops around an output function, and the plain loop of the base class.

    The output function is arbitrary: from its state, the remainder of the previous attempt and the
    answer of the ALSA call it makes, it computes a new state and a reply, or raises. The answers
    come from a tape; a run stops as `Waiting` where the tape ends. */
module OutputWait {
  import opened Base
  import opened Kernel

  datatype Reply<+St, +R> =
    | Replied(st: St, result: int, remainder: Option<R>)
    | Raised(st: St)

  type Func<!St, !R> = (St, Option<R>, int) -> Reply<St, R>

  datatype Outcome = Returned(result: int) | RaisedAlsaError(code: int) | RaisedException | Waiting

  /** Where a run ends: the state and remainder after the last attempt, and the attempts made. */
  datatype Run<+St, +R> = Run(st: St, remainder: Option<R>, outcome: Outcome, used: nat)

  /** `_check_alsa_error(result)` and `return result`. */
  function Check(result: int): Outcome {
    if result < 0 then RaisedAlsaError(result) else Returned(result)
  }

  /** The loop of `SequencerClientBase.event_output`: the first negative result is raised. */
  function BaseRun<St, R>(f: Func<St, R>, st: St, rem: Option<R>, tape: seq<int>): Run<St, R>
    decreases |tape|
  {
    if tape == [] then Run(st, rem, Waiting, 0)
    else
      match f(st, rem, tape[0])
      case Raised(st1) => Run(st1, rem, RaisedException, 1)
      case Replied(st1, result, rem1) =>
        if result < 0 || rem1.None? then Run(st1, rem1, Check(result), 1)
        else Later(1, BaseRun(f, st1, rem1, tape[1..]))
  }

  function Later<St, R>(n: nat, run: Run<St, R>): Run<St, R> {
    run.(used := run.used + n)
  }

  /** The loop of `SequencerClient._event_output_wait`: the result counts only once nothing remains,
      and EAGAIN then starts over. */
  function SyncRun<St, R>(f: Func<St, R>, st: St, rem: Option<R>, tape: seq<int>): Run<St, R>
    decreases |tape|
  {
    if tape == [] then Run(st, rem, Waiting, 0)
    else
      match f(st, rem, tape[0])
      case Raised(st1) => Run(st1, rem, RaisedException, 1)
      case Replied(st1, result, rem1) =>
        if result != EAGAIN && rem1.None? then Run(st1, rem1, Check(result), 1)
        else Later(1, SyncRun(f, st1, rem1, tape[1..]))
  }

  /** `SequencerClientBase.event_output`. */
  method EventOutput<St, R>(f: Func<St, R>, st0: St, tape: seq<int>)
    returns (st: St, remainder: Option<R>, outcome: Outcome, used: nat)
    ensures Run(st, remainder, outcome, used) == BaseRun(f, st0, None, tape)
  {
    st, remainder, used := st0, None, 0;
    while used < |tape|
      invariant used <= |tape|
      invariant BaseRun(f, st0, None, tape) == Later(used, BaseRun(f, st, remainder, tape[used..]))
    {
      var reply := f(st, remainder, tape[used]);
      assert tape[used..][1..] == tape[used + 1..];
      used := used + 1;
      match reply {
        case Raised(st1) =>
          st, outcome := st1, RaisedException;
          return;
        case Replied(st1, result, rem1) =>
          st, remainder := st1, rem1;
          if result < 0 {
            outcome := RaisedAlsaError(result);
            return;
          }
          if remainder.None? {
            outcome := Returned(result);
            return;
          }
      }
    }
    outcome := Waiting;
  }

  /** `SequencerClient._event_output_wait`, called without a timeout as its callers do. */
  method EventOutputWait<St, R>(f: Func<St, R>, st0: St, tape: seq<int>)
    returns (st: St, remainder: Option<R>, outcome: Outcome, used: nat)
    ensures Run(st, remainder, outcome, used) == SyncRun(f, st0, None, tape)
  {
    st, remainder, used := st0, None, 0;
    while used < |tape|
      invariant used <= |tape|
      invariant SyncRun(f, st0, None, tape) == Later(used, SyncRun(f, st, remainder, tape[used..]))
    {
      var reply := f(st, remainder, tape[used]);
      assert tape[used..][1..] == tape[used + 1..];
      used := used + 1;
      match reply {
        case Raised(st1) =>
          st, outcome := st1, RaisedException;
          return;
        case Replied(st1, result, rem1) =>
          st, remainder := st1, rem1;
          if result != EAGAIN && remainder.None? {
            outcome := Check(result);
            return;
          }
      }
    }
    outcome := Waiting;
  }

  /* ---------- The callback based wait ---------- */

  /** The future of the coroutine. */
  datatype Future = Pending | SetResult(result: int) | SetException

  /** The closure of `AsyncSequencerClient._event_output_wait`: its nonlocal `remainder`, its future,
      and whether its callback is registered with the loop. */
  datatype Closure<+St, +R> = Closure(st: St, remainder: Option<R>, fut: Future, registered: bool)

  /** The coroutine up to its `await`: finished at once, or suspended with a registered callback. */
  datatype Coroutine<+St, +R> = Finished(st: St, remainder: Option<R>, outcome: Outcome) | Suspended(closure: Closure<St, R>)

  function Start<St, R>(f: Func<St, R>, st: St, answer: int): Coroutine<St, R> {
    match f(st, None, answer)
    case Raised(st1) => Finished(st1, None, RaisedException)
    case Replied(st1, result, rem1) =>
      if result != EAGAIN && rem1.None? then Finished(st1, rem1, Check(result))
      else Suspended(Closure(st1, rem1, Pending, true))
  }

  /** One run of `writer_cb`. */
  function WriterCallback<St, R>(f: Func<St, R>, c: Closure<St, R>, answer: int): Closure<St, R> {
    if c.fut != Pending then c
    else
      match f(c.st, c.remainder, answer)
      case Raised(st1) => c.(st := st1, fut := SetException, registered := c.remainder.Some?)
      case Replied(st1, result, rem1) =>
        if result != EAGAIN && rem1.None? then
          Closure(st1, rem1, SetResult(result), false)
        else
          Closure(st1, rem1, Pending, c.registered)
  }

  /** The callback runs once for each answer left on the tape, also after the future is done. */
  function Callbacks<St, R>(f: Func<St, R>, c: Closure<St, R>, tape: seq<int>): Closure<St, R> {
    if tape == [] then c else WriterCallback(f, Callbacks(f, c, tape[..|tape| - 1]), tape[|tape| - 1])
  }

  /** What `await fut` and the check behind it come to. */
  function Awaited(fut: Future): Outcome {
    match fut
    case Pending => Waiting
    case SetResult(result) => Check(result)
    case SetException => RaisedException
  }

  /** The coroutine driven by the loop to the end of the tape. */
  function AsyncRun<St, R>(f: Func<St, R>, st: St, tape: seq<int>): (St, Option<R>, Outcome)
    requires tape != []
  {
    match Start(f, st, tape[0])
    case Finished(st1, rem1, outcome) => (st1, rem1, outcome)
    case Suspended(c) =>
      var c1 := Callbacks(f, c, tape[1..]);
      (c1.st, c1.remainder, Awaited(c1.fut))
  }

  lemma {:induction false} CallbacksFront<St, R>(f: Func<St, R>, c: Closure<St, R>, answer: int, tape: seq<int>)
    ensures Callbacks(f, c, [answer] + tape) == Callbacks(f, WriterCallback(f, c, answer), tape)
  {
    var all := [answer] + tape;
    if tape == [] {
      assert all[..0] == [];
    } else {
      assert all[..|all| - 1] == [answer] + tape[..|tape| - 1];
      CallbacksFront(f, c, answer, tape[..|tape| - 1]);
    }
  }

  lemma {:induction false} DoneStaysDone<St, R>(f: Func<St, R>, c: Closure<St, R>, tape: seq<int>)
    requires c.fut != Pending
    ensures Callbacks(f, c, tape) == c
  {
    if tape != [] {
      DoneStaysDone(f, c, tape[..|tape| - 1]);
    }
  }

  lemma {:induction false} CallbacksAreSync<St, R>(f: Func<St, R>, c: Closure<St, R>, tape: seq<int>)
    requires c.fut == Pending && c.registered
    ensures var c1 := Callbacks(f, c, tape);
            var run := SyncRun(f, c.st, c.remainder, tape);
            && c1.st == run.st && c1.remainder == run.remainder && Awaited(c1.fut) == run.outcome
            && (c1.registered <==> run.outcome.Waiting? || (run.outcome.RaisedException? && run.remainder.Some?))
    decreases |tape|
  {
    if tape != [] {
      assert tape == [tape[0]] + tape[1..];
      CallbacksFront(f, c, tape[0], tape[1..]);
      var c1 := WriterCallback(f, c, tape[0]);
      if c1.fut == Pending {
        CallbacksAreSync(f, c1, tape[1..]);
      } else {
        DoneStaysDone(f, c1, tape[1..]);
      }
    }
  }

  /** For every output function and every sequence of kernel answers the callback based wait reaches
      the same state (hence the same submissions in the same order), the same remainder and the same
      result or error as the blocking wait. */
  lemma AsyncRefinesSync<St, R>(f: Func<St, R>, st: St, tape: seq<int>)
    requires tape != []
    ensures var run := SyncRun(f, st, None, tape);
            AsyncRun(f, st, tape) == (run.st, run.remainder, run.outcome)
  {
    match Start(f, st, tape[0])
    case Finished(_, _, _) =>
    case Suspended(c) => CallbacksAreSync(f, c, tape[1..]);
  }

  /** `AsyncSequencerClient._event_output_wait`, with the loop running its callback. */
  class OutputWaiter<St, R> {
    var st: St
    var remainder: Option<R>
    var fut: Future
    var registered: bool

    constructor (st: St, remainder: Option<R>)
      ensures this.st == st && this.remainder == remainder && fut == Pending && registered
    {
      this.st, this.remainder, fut, registered := st, remainder, Pending, true;
    }

    function View(): Closure<St, R>
      reads this
    {
      Closure(st, remainder, fut, registered)
    }

    /** `writer_cb`. */
    method WriterCb(f: Func<St, R>, answer: int)
      modifies this
      ensures View() == WriterCallback(f, old(View()), answer)
    {
      if fut != Pending {
        return;
      }
      match f(st, remainder, answer)
      case Raised(st1) =>
        st, fut := st1, SetException;
        registered := remainder.Some?;
      case Replied(st1, result, rem1) =>
        st, remainder := st1, rem1;
        if result != EAGAIN && remainder.None? {
          registered := false;
          fut := SetResult(result);
        }
    }
  }

  method EventOutputWaitAsync<St, R>(f: Func<St, R>, st0: St, tape: seq<int>)
    returns (st: St, remainder: Option<R>, outcome: Outcome)
    requires tape != []
    ensures (st, remainder, outcome) == AsyncRun(f, st0, tape)
  {
    match f(st0, None, tape[0])
    case Raised(st1) => return st1, None, RaisedException;
    case Replied(st1, result, rem1) =>
      if result != EAGAIN && rem1.None? {
        return st1, rem1, Check(result);
      }
      var waiter := new OutputWaiter(st1, rem1);
      ghost var c := waiter.View();
      var i := 1;
      while i < |tape|
        invariant 1 <= i <= |tape|
        invariant waiter.View() == Callbacks(f, c, tape[1..i])
      {
        assert tape[1..i + 1][..|tape[1..i + 1]| - 1] == tape[1..i];
        waiter.WriterCb(f, tape[i]);
        i := i + 1;
      }
      assert tape[1..i] == tape[1..];
      return waiter.st, waiter.remainder, Awaited(waiter.fut);
  }

  /* ---------- The base loop against the wait loops ---------- */

  lemma {:induction false} SyncUses<St, R>(f: Func<St, R>, st: St, rem: Option<R>, tape: seq<int>)
    ensures var run := SyncRun(f, st, rem, tape);
            && run.used <= |tape|
            && (tape != [] ==> run.used > 0)
            && (run.outcome == Waiting ==> run.used == |tape|)
    decreases |tape|
  {
    if tape != [] {
      var reply := f(st, rem, tape[0]);
      if reply.Replied? { SyncUses(f, reply.st, reply.remainder, tape[1..]); }
    }
  }

  /** The base loop raises an error the wait loops go on from. */
  predicate WaitGoesOn<St, R>(run: Run<St, R>) {
    run.outcome.RaisedAlsaError? && (run.remainder.Some? || run.outcome.code == EAGAIN)
  }

  /** The plain loop and the wait loops agree on a tape exactly when the plain loop does not end with
      an error in the middle of an event, nor with EAGAIN at its end: the wait loops retry the
      latter, and ignore the former. In particular they agree when no answer is negative. */
  lemma {:induction false} BaseAgreesIff<St, R>(f: Func<St, R>, st: St, rem: Option<R>, tape: seq<int>)
    ensures BaseRun(f, st, rem, tape) == SyncRun(f, st, rem, tape) <==> !WaitGoesOn(BaseRun(f, st, rem, tape))
    ensures WaitGoesOn(BaseRun(f, st, rem, tape)) ==>
              var run := SyncRun(f, st, rem, tape);
              run.outcome.Waiting? || run.used > BaseRun(f, st, rem, tape).used
    decreases |tape|
  {
    if tape != [] {
      match f(st, rem, tape[0])
      case Raised(_) =>
      case Replied(st1, result, rem1) =>
        if result < 0 {
          SyncUses(f, st1, rem1, tape[1..]);
        } else {
          BaseAgreesIff(f, st1, rem1, tape[1..]);
        }
    }
  }

  /** Functions whose result is the answer of the ALSA call they make. */
  ghost predicate Transparent<St(!new), R(!new)>(f: Func<St, R>) {
    forall st, rem, answer :: f(st, rem, answer).Replied? ==> f(st, rem, answer).result == answer
  }

  lemma {:induction false} NoNegativeAnswerAgrees<St(!new), R(!new)>(f: Func<St, R>, st: St, rem: Option<R>, tape: seq<int>)
    requires Transparent(f)
    requires forall i :: 0 <= i < |tape| ==> tape[i] >= 0
    ensures BaseRun(f, st, rem, tape) == SyncRun(f, st, rem, tape)
    ensures !BaseRun(f, st, rem, tape).outcome.RaisedAlsaError?
    decreases |tape|
  {
    if tape != [] {
      match f(st, rem, tape[0])
      case Raised(_) =>
      case Replied(st1, _, rem1) => NoNegativeAnswerAgrees(f, st1, rem1, tape[1..]);
    }
  }
}
