/** The output calls of the shared event loop are the closures of `OutputWait`: `AsyncClient` keeps of
    the remainder only whether there is one, and that is all its steps need. */
module AsyncOutput {
  import opened Base
  import opened Kernel
  import AsyncClient
  import OutputWait
  import ByteOutput
  import opened Bytes

  /** What an attempt of the output function looks like to the shared loop. */
  function OracleOf<St, R>(reply: OutputWait.Reply<St, R>): AsyncClient.OutputOracle {
    match reply
    case Raised(_) => AsyncClient.Raises
    case Replied(_, result, remainder) => AsyncClient.Replied(result, remainder.Some?)
  }

  /** What the caller of the coroutine sees of an outcome. */
  function Seen<E>(outcome: OutputWait.Outcome): AsyncClient.Outcome<E> {
    match outcome
    case Returned(n) => AsyncClient.GotNumber(n)
    case RaisedAlsaError(code) => AsyncClient.RaisedAlsaError(code)
    case _ => AsyncClient.RaisedException
  }

  /** A call in the loop and the closure it belongs to. */
  predicate Represents<E(==), St, R>(call: AsyncClient.Call<E>, c: OutputWait.Closure<St, R>) {
    && call.kind == AsyncClient.Output
    && call.more == c.remainder.Some?
    && match c.fut
       case Pending => call.status == AsyncClient.Pending
       case SetResult(result) => call.status == AsyncClient.Done(AsyncClient.OutputReply(result))
       case SetException => call.status == AsyncClient.Done(AsyncClient.OutputException)
  }

  /** Suspending a call in the loop is starting its closure, which is then the one registered. */
  lemma StartsTogether<E(!new), St, R>(s: AsyncClient.State<E>, timed: bool, f: OutputWait.Func<St, R>, st: St, answer: int)
    ensures var o := OracleOf(f(st, None, answer));
            var t := AsyncClient.Step(s, AsyncClient.CallOutput(timed, o));
            match OutputWait.Start(f, st, answer)
            case Suspended(c) => Represents(t.calls[|s.calls|], c) && t.slot == Some(|s.calls|)
            case Finished(_, _, outcome) =>
              && t.slot == s.slot
              && t.calls[|s.calls|].status == AsyncClient.Returned(Seen(outcome))
  {}

  /** The loop running the callback in its slot is the closure running its callback: both make an
      attempt or neither does, their futures and remainders stay in step, and the callback stays in the
      slot exactly while the closure counts as registered. */
  lemma CallbacksTogether<E(!new), St, R>(s: AsyncClient.State<E>, u: nat, k: ValidOracle,
                                          f: OutputWait.Func<St, R>, c: OutputWait.Closure<St, R>, answer: int)
    requires s.slot == Some(u) && u < |s.calls| && c.registered && Represents(s.calls[u], c)
    ensures var o := OracleOf(f(c.st, c.remainder, answer));
            var t := AsyncClient.Step(s, AsyncClient.RunCallback(k, o));
            var c1 := OutputWait.WriterCallback(f, c, answer);
            && Represents(t.calls[u], c1)
            && (t.slot == Some(u) <==> c1.registered)
            && t.attempts == s.attempts + (if c.fut == OutputWait.Pending then [u] else [])
            && t.fifo == s.fifo && t.taken == s.taken
  {}

  /* ---------- A waiting call among other steps of the client ---------- */

  /** What happens while an output call waits: its own callback runs, another output call is made that
      finishes at once, output outside the event loop (such as `event_output_buffer`) leaves the client in
      the state `after`, or the loop makes any other step. The first argument of the output functions is
      the state all output of the client shares, the MIDI encoder among it. */
  datatype Turn<E, !St, !R> =
    | Callback(k: ValidOracle, answer: int)
    | OtherOutput(timed: bool, g: OutputWait.Func<St, R>, answer: int)
    | OutsideLoop(after: St)
    | Elsewhere(action: AsyncClient.Action<E>)

  /** The shared output state others leave. */
  function Left<E, St, R>(st: St, turn: Turn<E, St, R>): St {
    match turn
    case OtherOutput(_, g, answer) => g(st, None, answer).st
    case OutsideLoop(after) => after
    case _ => st
  }

  /** The step of the loop a turn is, if it is one. */
  function ActionOf<E, St, R>(f: OutputWait.Func<St, R>, c: OutputWait.Closure<St, R>, turn: Turn<E, St, R>)
    : Option<AsyncClient.Action<E>>
  {
    match turn
    case Callback(k, answer) => Some(AsyncClient.RunCallback(k, OracleOf(f(c.st, c.remainder, answer))))
    case OtherOutput(timed, g, answer) => Some(AsyncClient.CallOutput(timed, OracleOf(g(c.st, None, answer))))
    case OutsideLoop(_) => None
    case Elsewhere(action) => Some(action)
  }

  /** A turn as the loop sees it, and as the closure of the waiting call sees it. */
  function LoopTurn<E, St, R>(s: AsyncClient.State<E>, f: OutputWait.Func<St, R>, c: OutputWait.Closure<St, R>, turn: Turn<E, St, R>)
    : AsyncClient.State<E>
  {
    match ActionOf(f, c, turn)
    case None => s
    case Some(a) => AsyncClient.Step(s, a)
  }

  function ClosureTurn<E, St, R>(f: OutputWait.Func<St, R>, c: OutputWait.Closure<St, R>, turn: Turn<E, St, R>): OutputWait.Closure<St, R> {
    match turn
    case Callback(_, answer) => OutputWait.WriterCallback(f, c, answer)
    case _ => c.(st := Left(c.st, turn))
  }

  function LoopTurns<E, St, R>(s: AsyncClient.State<E>, f: OutputWait.Func<St, R>, c: OutputWait.Closure<St, R>, turns: seq<Turn<E, St, R>>)
    : AsyncClient.State<E>
    decreases |turns|
  {
    if |turns| == 0 then s
    else LoopTurns(LoopTurn(s, f, c, turns[0]), f, ClosureTurn(f, c, turns[0]), turns[1..])
  }

  function ClosureTurns<E, St, R>(f: OutputWait.Func<St, R>, c: OutputWait.Closure<St, R>, turns: seq<Turn<E, St, R>>)
    : OutputWait.Closure<St, R>
    decreases |turns|
  {
    if |turns| == 0 then c else ClosureTurns(f, ClosureTurn(f, c, turns[0]), turns[1..])
  }

  /** Anything may happen except that another call suspends. (Resuming the call itself comes last.) */
  ghost predicate Admissible<E(!new), St, R>(s: AsyncClient.State<E>, u: nat, f: OutputWait.Func<St, R>,
                                             c: OutputWait.Closure<St, R>, turn: Turn<E, St, R>)
  {
    && (turn.OtherOutput? ==> !AsyncClient.Suspends(s, ActionOf(f, c, turn).value))
    && (turn.Elsewhere? ==>
          && !turn.action.RunCallback? && !turn.action.CallOutput?
          && turn.action != AsyncClient.Resume(u)
          && !AsyncClient.Suspends(s, turn.action))
  }

  ghost predicate AllAdmissible<E(!new), St, R>(s: AsyncClient.State<E>, u: nat, f: OutputWait.Func<St, R>,
                                                c: OutputWait.Closure<St, R>, turns: seq<Turn<E, St, R>>)
    decreases |turns|
  {
    |turns| == 0
    || (Admissible(s, u, f, c, turns[0])
        && AllAdmissible(LoopTurn(s, f, c, turns[0]), u, f, ClosureTurn(f, c, turns[0]), turns[1..]))
  }

  /** A call without a timeout, the only one that has a callback in the slot. */
  ghost predicate Current<E(!new), St, R>(s: AsyncClient.State<E>, u: nat, c: OutputWait.Closure<St, R>) {
    && u < |s.calls| && Represents(s.calls[u], c) && !s.calls[u].timed
    && s.slot == (if c.registered then Some(u) else None)
    && (c.fut == OutputWait.Pending ==> c.registered)
  }

  lemma OtherStepKeepsCurrent<E(!new), St, R>(s: AsyncClient.State<E>, u: nat, c: OutputWait.Closure<St, R>, a: AsyncClient.Action<E>)
    requires Current(s, u, c)
    requires !a.RunCallback? && !AsyncClient.Suspends(s, a) && a != AsyncClient.Resume(u)
    ensures Current(AsyncClient.Step(s, a), u, c)
  {}

  lemma CallbackKeepsCurrent<E(!new), St, R>(s: AsyncClient.State<E>, u: nat, k: ValidOracle,
                                             f: OutputWait.Func<St, R>, c: OutputWait.Closure<St, R>, answer: int)
    requires Current(s, u, c)
    ensures var o := OracleOf(f(c.st, c.remainder, answer));
            Current(AsyncClient.Step(s, AsyncClient.RunCallback(k, o)), u, OutputWait.WriterCallback(f, c, answer))
  {
    if c.registered {
      CallbacksTogether(s, u, k, f, c, answer);
    }
  }

  lemma TurnKeepsCurrent<E(!new), St, R>(s: AsyncClient.State<E>, u: nat, f: OutputWait.Func<St, R>,
                                         c: OutputWait.Closure<St, R>, turn: Turn<E, St, R>)
    requires Current(s, u, c) && Admissible(s, u, f, c, turn)
    ensures Current(LoopTurn(s, f, c, turn), u, ClosureTurn(f, c, turn))
  {
    match turn
    case Callback(k, answer) => CallbackKeepsCurrent(s, u, k, f, c, answer);
    case OtherOutput(_, _, _) => OtherStepKeepsCurrent(s, u, c, ActionOf(f, c, turn).value);
    case OutsideLoop(_) =>
    case Elsewhere(action) => OtherStepKeepsCurrent(s, u, c, action);
  }

  lemma {:induction false} TurnsTogether<E(!new), St, R>(s: AsyncClient.State<E>, u: nat, f: OutputWait.Func<St, R>,
                                         c: OutputWait.Closure<St, R>, turns: seq<Turn<E, St, R>>)
    requires Current(s, u, c) && AllAdmissible(s, u, f, c, turns)
    ensures Current(LoopTurns(s, f, c, turns), u, ClosureTurns(f, c, turns))
    decreases |turns|
  {
    if |turns| > 0 {
      hide Current, Admissible, LoopTurn, ClosureTurn;
      TurnKeepsCurrent(s, u, f, c, turns[0]);
      TurnsTogether(LoopTurn(s, f, c, turns[0]), u, f, ClosureTurn(f, c, turns[0]), turns[1..]);
    }
  }

  /** The reference: the blocking wait from an attempt that left `rem`, with others changing the shared
      output state between its attempts. Without others it is `SyncRun`. */
  function SharedRun<E, St, R>(f: OutputWait.Func<St, R>, st: St, rem: Option<R>, turns: seq<Turn<E, St, R>>): OutputWait.Run<St, R>
    decreases |turns|
  {
    if |turns| == 0 then OutputWait.Run(st, rem, OutputWait.Waiting, 0)
    else if turns[0].Callback? then
      match f(st, rem, turns[0].answer)
      case Raised(st1) => OutputWait.Run(st1, rem, OutputWait.RaisedException, 1)
      case Replied(st1, result, rem1) =>
        if result != EAGAIN && rem1.None? then OutputWait.Run(st1, rem1, OutputWait.Check(result), 1)
        else OutputWait.Later(1, SharedRun(f, st1, rem1, turns[1..]))
    else SharedRun(f, Left(st, turns[0]), rem, turns[1..])
  }

  lemma {:induction false} ClosureIsShared<E, St, R>(f: OutputWait.Func<St, R>, c: OutputWait.Closure<St, R>, turns: seq<Turn<E, St, R>>)
    requires c.fut == OutputWait.Pending
    ensures var c1 := ClosureTurns(f, c, turns);
            var run := SharedRun(f, c.st, c.remainder, turns);
            OutputWait.Awaited(c1.fut) == run.outcome && c1.remainder == run.remainder
    decreases |turns|
  {
    if |turns| > 0 {
      var c1 := ClosureTurn(f, c, turns[0]);
      if c1.fut == OutputWait.Pending {
        ClosureIsShared(f, c1, turns[1..]);
      } else {
        DoneStaysDone(f, c1, turns[1..]);
      }
    }
  }

  lemma {:induction false} DoneStaysDone<E, St, R>(f: OutputWait.Func<St, R>, c: OutputWait.Closure<St, R>, turns: seq<Turn<E, St, R>>)
    requires c.fut != OutputWait.Pending
    ensures var c1 := ClosureTurns(f, c, turns); c1.fut == c.fut && c1.remainder == c.remainder
    decreases |turns|
  {
    if |turns| > 0 {
      DoneStaysDone(f, ClosureTurn(f, c, turns[0]), turns[1..]);
    }
  }

  /** What an outcome looks like in the loop: the call still waits, or has returned it to its caller. */
  ghost predicate Shows<E(!new)>(s: AsyncClient.State<E>, u: nat, outcome: OutputWait.Outcome) {
    && u < |s.calls|
    && if outcome.Waiting? then AsyncClient.PendingCall(s, u) else s.calls[u].status == AsyncClient.Returned(Seen(outcome))
  }

  /** An output call that suspends, from any state of the client, and is then served by the loop among
      anything but other suspending calls, waits, returns or raises as the blocking wait does with the
      same answers and the same interference with the shared output state. */
  lemma LoopRefinesSync<E(!new), St, R>(s: AsyncClient.State<E>, f: OutputWait.Func<St, R>, st: St, answer: int,
                                        c: OutputWait.Closure<St, R>, turns: seq<Turn<E, St, R>>)
    requires OutputWait.Start(f, st, answer) == OutputWait.Suspended(c)
    requires var called := AsyncClient.Step(s, AsyncClient.CallOutput(false, OracleOf(f(st, None, answer))));
             AllAdmissible(called, |s.calls|, f, c, turns)
    ensures var called := AsyncClient.Step(s, AsyncClient.CallOutput(false, OracleOf(f(st, None, answer))));
            var t := AsyncClient.Step(LoopTurns(called, f, c, turns), AsyncClient.Resume(|s.calls|));
            Shows(t, |s.calls|, SharedRun(f, c.st, c.remainder, turns).outcome)
  {
    var called := AsyncClient.Step(s, AsyncClient.CallOutput(false, OracleOf(f(st, None, answer))));
    StartsTogether(s, false, f, st, answer);
    hide SharedRun, LoopTurns, ClosureTurns, AllAdmissible;
    TurnsTogether(called, |s.calls|, f, c, turns);
    ClosureIsShared(f, c, turns);
  }

  /* ---------- When others do not disturb ---------- */

  /** The answers the callback gets. */
  function Answers<E, St, R>(turns: seq<Turn<E, St, R>>): seq<int> {
    if |turns| == 0 then []
    else (if turns[0].Callback? then [turns[0].answer] else []) + Answers(turns[1..])
  }

  predicate SameReply<St, R(==), K(==)>(key: St -> K, a: OutputWait.Reply<St, R>, b: OutputWait.Reply<St, R>) {
    && key(a.st) == key(b.st)
    && a.Raised? == b.Raised?
    && (a.Replied? ==> a.result == b.result && a.remainder == b.remainder)
  }

  /** Of the shared state the output function only looks at `key`. */
  ghost predicate LooksAt<St(!new), R(!new), K>(key: St -> K, f: OutputWait.Func<St, R>) {
    forall st, st', rem, answer :: key(st) == key(st') ==> SameReply(key, f(st, rem, answer), f(st', rem, answer))
  }

  /** While the call waits, others leave `key` as they found it. */
  ghost predicate KeepsKey<E, St, R, K>(key: St -> K, f: OutputWait.Func<St, R>, c: OutputWait.Closure<St, R>, turns: seq<Turn<E, St, R>>)
    decreases |turns|
  {
    |turns| == 0
    || ((c.fut == OutputWait.Pending && !turns[0].Callback? ==> key(Left(c.st, turns[0])) == key(c.st))
        && KeepsKey(key, f, ClosureTurn(f, c, turns[0]), turns[1..]))
  }

  /** Two closures the call cannot tell apart. */
  predicate Alike<St, R(==), K(==)>(key: St -> K, c: OutputWait.Closure<St, R>, d: OutputWait.Closure<St, R>) {
    && c.fut == d.fut && c.remainder == d.remainder && c.registered == d.registered
    && (c.fut == OutputWait.Pending ==> key(c.st) == key(d.st))
  }

  lemma CallbackKeepsAlike<St(!new), R(!new), K>(key: St -> K, f: OutputWait.Func<St, R>, c: OutputWait.Closure<St, R>,
                                                d: OutputWait.Closure<St, R>, answer: int)
    requires LooksAt(key, f) && Alike(key, c, d)
    ensures Alike(key, OutputWait.WriterCallback(f, c, answer), OutputWait.WriterCallback(f, d, answer))
  {
    if c.fut == OutputWait.Pending {
      assert SameReply(key, f(c.st, c.remainder, answer), f(d.st, c.remainder, answer));
    }
  }

  lemma {:induction false} Undisturbed<E(!new), St(!new), R(!new), K>(key: St -> K, f: OutputWait.Func<St, R>, c: OutputWait.Closure<St, R>,
                                       d: OutputWait.Closure<St, R>, turns: seq<Turn<E, St, R>>)
    requires LooksAt(key, f) && Alike(key, c, d) && KeepsKey(key, f, c, turns)
    ensures Alike(key, ClosureTurns(f, c, turns), OutputWait.Callbacks(f, d, Answers(turns)))
    decreases |turns|
  {
    if |turns| > 0 {
      var turn, rest := turns[0], turns[1..];
      var c1 := ClosureTurn(f, c, turn);
      if turn.Callback? {
        var d1 := OutputWait.WriterCallback(f, d, turn.answer);
        CallbackKeepsAlike(key, f, c, d, turn.answer);
        OutputWait.CallbacksFront(f, d, turn.answer, Answers(rest));
        Undisturbed(key, f, c1, d1, rest);
      } else {
        assert Answers(turns) == Answers(rest);
        Undisturbed(key, f, c1, d, rest);
      }
    }
  }

  /** If others keep whatever the output function looks at, the call ends as the undisturbed blocking
      wait does with the same answers. */
  lemma UndisturbedLoopRefinesSync<E(!new), St(!new), R(!new), K>(s: AsyncClient.State<E>, key: St -> K, f: OutputWait.Func<St, R>, st: St, answer: int,
                                        c: OutputWait.Closure<St, R>, turns: seq<Turn<E, St, R>>)
    requires OutputWait.Start(f, st, answer) == OutputWait.Suspended(c)
    requires var called := AsyncClient.Step(s, AsyncClient.CallOutput(false, OracleOf(f(st, None, answer))));
             AllAdmissible(called, |s.calls|, f, c, turns)
    requires LooksAt(key, f) && KeepsKey(key, f, c, turns)
    ensures var called := AsyncClient.Step(s, AsyncClient.CallOutput(false, OracleOf(f(st, None, answer))));
            var t := AsyncClient.Step(LoopTurns(called, f, c, turns), AsyncClient.Resume(|s.calls|));
            Shows(t, |s.calls|, OutputWait.SyncRun(f, st, None, [answer] + Answers(turns)).outcome)
  {
    var tape := [answer] + Answers(turns);
    assert tape[1..] == Answers(turns);
    OutputWait.AsyncRefinesSync(f, st, tape);
    hide AllAdmissible, SharedRun, LoopTurns, ClosureTurns, LooksAt, KeepsKey, OutputWait.SyncRun, OutputWait.Callbacks;
    LoopRefinesSync(s, f, st, answer, c, turns);
    ClosureIsShared(f, c, turns);
    Undisturbed(key, f, c, c, turns);
  }

  /** An event that is not a byte stream is never disturbed. */
  lemma StructOutputUndisturbed<E(!new), S(!new), H(!new), V(!new)>(s: AsyncClient.State<E>, header: H, event: V, o: ByteOutput.Output<S, H, V>, answer: int,
      c: OutputWait.Closure<ByteOutput.Output<S, H, V>, seq<byte>>, turns: seq<Turn<E, ByteOutput.Output<S, H, V>, seq<byte>>>)
    requires var f := ByteOutput.StructFunc<S, H, V>(header, event);
             && OutputWait.Start(f, o, answer) == OutputWait.Suspended(c)
             && AllAdmissible(AsyncClient.Step(s, AsyncClient.CallOutput(false, OracleOf(f(o, None, answer)))), |s.calls|, f, c, turns)
    ensures var f := ByteOutput.StructFunc<S, H, V>(header, event);
            var called := AsyncClient.Step(s, AsyncClient.CallOutput(false, OracleOf(f(o, None, answer))));
            var t := AsyncClient.Step(LoopTurns(called, f, c, turns), AsyncClient.Resume(|s.calls|));
            Shows(t, |s.calls|, OutputWait.SyncRun(f, o, None, [answer] + Answers(turns)).outcome)
  {
    var f := ByteOutput.StructFunc<S, H, V>(header, event);
    var key := (o: ByteOutput.Output<S, H, V>) => ();
    KeyOfNothingKept(key, f, c, turns);
    hide AllAdmissible, LoopTurns, OutputWait.SyncRun;
    UndisturbedLoopRefinesSync(s, key, f, o, answer, c, turns);
  }

  lemma {:induction false} KeyOfNothingKept<E(!new), St(!new), R(!new)>(key: St -> (), f: OutputWait.Func<St, R>, c: OutputWait.Closure<St, R>, turns: seq<Turn<E, St, R>>)
    ensures KeepsKey(key, f, c, turns)
    decreases |turns|
  {
    if |turns| > 0 {
      KeyOfNothingKept(key, f, ClosureTurn(f, c, turns[0]), turns[1..]);
    }
  }

  function ParserOf<S, H, V>(o: ByteOutput.Output<S, H, V>): S { o.parser }

  /** A byte event is not disturbed by others that leave the parser as they found it. */
  lemma ByteOutputUndisturbed<E(!new), S(!new), H(!new), V(!new)>(s: AsyncClient.State<E>, step: ByteOutput.Encoder<S, V>, header: H, midiBytes: seq<byte>,
      o: ByteOutput.Output<S, H, V>, answer: int,
      c: OutputWait.Closure<ByteOutput.Output<S, H, V>, seq<byte>>, turns: seq<Turn<E, ByteOutput.Output<S, H, V>, seq<byte>>>)
    requires var f := ByteOutput.BytesFunc(step, header, midiBytes);
             && OutputWait.Start(f, o, answer) == OutputWait.Suspended(c)
             && AllAdmissible(AsyncClient.Step(s, AsyncClient.CallOutput(false, OracleOf(f(o, None, answer)))), |s.calls|, f, c, turns)
             && KeepsKey(ParserOf, f, c, turns)
    ensures var f := ByteOutput.BytesFunc(step, header, midiBytes);
            var called := AsyncClient.Step(s, AsyncClient.CallOutput(false, OracleOf(f(o, None, answer))));
            var t := AsyncClient.Step(LoopTurns(called, f, c, turns), AsyncClient.Resume(|s.calls|));
            Shows(t, |s.calls|, OutputWait.SyncRun(f, o, None, [answer] + Answers(turns)).outcome)
  {
    var f := ByteOutput.BytesFunc(step, header, midiBytes);
    hide AllAdmissible, KeepsKey, LoopTurns, OutputWait.SyncRun, ByteOutput.Encode;
    UndisturbedLoopRefinesSync(s, ParserOf, f, o, answer, c, turns);
  }

  /* ---------- Byte events in the event loop ---------- */

  /** Made while nothing is there to be read, an output call of a byte event is still waiting on every
      continuation without an arrival if and only if its first answer was EAGAIN or its bytes take more
      than one encoder call. So every byte event of two messages hangs, whatever ALSA answers. */
  lemma ByteEventHangsIff<E(!new), S, H, V>(s: AsyncClient.State<E>, step: ByteOutput.Encoder<S, V>, header: H, midiBytes: seq<byte>,
                                            o: ByteOutput.Output<S, H, V>, answer: int, actions: seq<AsyncClient.Action<E>>)
    requires s.fifo == [] && AsyncClient.Arrivals(actions) == []
    ensures var reply := ByteOutput.Chunk(step, header, midiBytes, o, None, answer);
            var t := AsyncClient.LoopRun(AsyncClient.Step(s, AsyncClient.CallOutput(false, OracleOf(reply))), actions);
            AsyncClient.PendingCall(t, |s.calls|)
            <==> answer == EAGAIN || ByteOutput.Chunks(step, o.parser, midiBytes) > 1
    ensures |ByteOutput.Fold(step, o.parser, midiBytes).1| > 1 ==> ByteOutput.Chunks(step, o.parser, midiBytes) > 1
  {
    var reply := ByteOutput.Chunk(step, header, midiBytes, o, None, answer);
    var a: AsyncClient.Action<E> := AsyncClient.CallOutput(false, OracleOf(reply));
    var called := AsyncClient.Step(s, a);
    ByteOutput.ByteEventSuspendsIff(step, header, midiBytes, o, answer);
    if AsyncClient.PendingCall(called, |s.calls|) {
      AsyncClient.OutputWaitNeedsInput(called, |s.calls|, actions);
    } else {
      var done := AsyncClient.LoopRunIsRun(called, actions);
      SettledStays(called, |s.calls|, done);
    }
  }

  lemma {:induction false} SettledStays<E(!new)>(s: AsyncClient.State<E>, u: nat, actions: seq<AsyncClient.Action<E>>)
    requires AsyncClient.Settled(s, u)
    ensures AsyncClient.Settled(AsyncClient.Run(s, actions), u)
    decreases |actions|
  {
    if actions != [] {
      AsyncClient.StepCall(s, actions[0], u);
      SettledStays(AsyncClient.Step(s, actions[0]), u, actions[1..]);
    }
  }
}
