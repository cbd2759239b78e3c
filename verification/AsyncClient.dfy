/** The event loop side of `AsyncSequencerClient`: `event_input` and `_event_output_wait` as atomic
    steps that share one reader slot.

    asyncio runs one piece of code at a time, so a coroutine up to its `await`, one run of a
    callback, a timeout and the resumption of a coroutine are atomic. A behaviour is any sequence
    of such steps; a step that is not enabled leaves the state alone. */
module AsyncClient {
  import opened Base
  import opened Kernel

  type CallId = nat

  datatype Kind = Input | Output

  /** What a future was completed with. */
  datatype FutureValue<+E> =
    | InputReply(reply: Reply<E>)
    | OutputReply(result: int)
    | OutputException

  /** What the caller of the coroutine sees. */
  datatype Outcome<+E> =
    | GotEvent(event: E)
    | GotNumber(number: int)
    | TimedOut
    | RaisedAlsaError(code: int)
    | RaisedException

  /** `_check_alsa_error` and the return statement behind each `await`. */
  function Finish<E>(v: FutureValue<E>): Outcome<E> {
    match v
    case InputReply(EventReply(e)) => GotEvent(e)
    case InputReply(ErrorReply(code)) => RaisedAlsaError(code)
    case InputReply(ExceptionReply) => RaisedException
    case OutputReply(result) => if result < 0 then RaisedAlsaError(result) else GotNumber(result)
    case OutputException => RaisedException
  }

  datatype Status<+E> =
    | Pending                      // the future is not done, the coroutine is suspended on it
    | Done(value: FutureValue<E>)  // the future is done, the coroutine has not been resumed
    | Returned(outcome: Outcome<E>)

  /** `more` is "`remainder` is not None", which only output calls use. */
  datatype Call<+E> = Call(kind: Kind, timed: bool, more: bool, status: Status<E>) {
    function Settlement(): Option<Outcome<E>> {
      match status
      case Pending => None
      case Done(v) => Some(Finish(v))
      case Returned(o) => Some(o)
    }
  }

  datatype Taking<+E> = Taking(call: CallId, event: E)

  /** `calls`, indexed by call id, holds every call ever made. The last four fields are history. */
  datatype State<+E> = State(
    fifo: seq<E>,
    slot: Option<CallId>,
    calls: seq<Call<E>>,
    arrived: seq<E>,
    taken: seq<Taking<E>>,
    attempts: seq<CallId>,
    completions: seq<CallId>)

  /** What one run of the output function comes to. */
  datatype OutputOracle = Replied(result: int, more: bool) | Raises

  datatype Action<+E> =
    | Arrive(event: E)
    | CallInput(timed: bool, k: ValidOracle)
    | CallOutput(timed: bool, o: OutputOracle)
    | RunCallback(k: ValidOracle, o: OutputOracle)
    | Timeout(call: CallId)
    | Resume(call: CallId)

  function Init<E>(): State<E> {
    State([], None, [], [], [], [], [])
  }

  function TakeBy<E>(c: CallId, event: Option<E>): seq<Taking<E>> {
    if event.Some? then [Taking(c, event.value)] else []
  }

  function StartInput<E>(s: State<E>, timed: bool, k: ValidOracle): State<E> {
    var c := |s.calls|;
    var (reply, fifo, event) := Attempt(s.fifo, k);
    if reply.WouldBlock() then
      s.(calls := s.calls + [Call(Input, timed, false, Pending)], slot := Some(c))
    else
      s.(fifo := fifo,
         taken := s.taken + TakeBy(c, event),
         calls := s.calls + [Call(Input, timed, false, Returned(Finish(InputReply(reply))))])
  }

  function StartOutput<E>(s: State<E>, timed: bool, o: OutputOracle): State<E> {
    var c := |s.calls|;
    var s1 := s.(attempts := s.attempts + [c]);
    if o.Raises? then
      s1.(calls := s.calls + [Call(Output, timed, false, Returned(RaisedException))])
    else if o.result != EAGAIN && !o.more then
      s1.(calls := s.calls + [Call(Output, timed, false, Returned(Finish(OutputReply(o.result))))])
    else
      s1.(calls := s.calls + [Call(Output, timed, o.more, Pending)], slot := Some(c))
  }

  /** `fut.set_result` or `fut.set_exception`. */
  function Complete<E>(s: State<E>, c: CallId, v: FutureValue<E>): State<E>
    requires c < |s.calls|
  {
    s.(calls := s.calls[c := s.calls[c].(status := Done(v))], completions := s.completions + [c])
  }

  /** `reader_cb` of call `c`. */
  function ReaderCallback<E>(s: State<E>, c: CallId, k: ValidOracle): State<E>
    requires c < |s.calls|
  {
    if !s.calls[c].status.Pending? then s
    else
      var (reply, fifo, event) := Attempt(s.fifo, k);
      if reply.WouldBlock() then s
      else
        Complete(s.(fifo := fifo, taken := s.taken + TakeBy(c, event), slot := None),
                 c, InputReply(reply))
  }

  /** `writer_cb` of call `c`. */
  function WriterCallback<E>(s: State<E>, c: CallId, o: OutputOracle): State<E>
    requires c < |s.calls|
  {
    if !s.calls[c].status.Pending? then s
    else
      var s1 := s.(attempts := s.attempts + [c]);
      if o.Raises? then
        Complete(if s.calls[c].more then s1 else s1.(slot := None), c, OutputException)
      else
        var s2 := s1.(calls := s.calls[c := s.calls[c].(more := o.more)]);
        if o.result != EAGAIN && !o.more then
          Complete(s2.(slot := None), c, OutputReply(o.result))
        else
          s2
  }

  function Step<E>(s: State<E>, a: Action<E>): State<E> {
    match a
    case Arrive(e) => s.(fifo := s.fifo + [e], arrived := s.arrived + [e])
    case CallInput(timed, k) => StartInput(s, timed, k)
    case CallOutput(timed, o) => StartOutput(s, timed, o)
    case RunCallback(k, o) =>
      if s.slot.None? || s.slot.value >= |s.calls| then s
      else if s.calls[s.slot.value].kind.Input? then ReaderCallback(s, s.slot.value, k)
      else WriterCallback(s, s.slot.value, o)
    case Timeout(c) =>
      if c < |s.calls| && s.calls[c].timed && s.calls[c].status.Pending? then
        s.(calls := s.calls[c := s.calls[c].(status := Returned(TimedOut))])
      else s
    case Resume(c) =>
      if c < |s.calls| && s.calls[c].status.Done? then
        s.(calls := s.calls[c := s.calls[c].(status := Returned(Finish(s.calls[c].status.value)))])
      else s
  }

  function Run<E>(s: State<E>, actions: seq<Action<E>>): State<E>
    decreases |actions|
  {
    if actions == [] then s else Run(Step(s, actions[0]), actions[1..])
  }

  /* ---------- Conservation, over every interleaving ---------- */

  function Events<E>(taken: seq<Taking<E>>): seq<E> {
    seq(|taken|, i requires 0 <= i < |taken| => taken[i].event)
  }

  ghost predicate Distinct(ids: seq<CallId>) {
    forall i, j :: 0 <= i < j < |ids| ==> ids[i] != ids[j]
  }

  /** The outcome an input call may have that consumed `event`: the event itself or a failure to
      decode it, never a timeout. */
  predicate Owns<E(==)>(call: Call<E>, event: E) {
    && call.kind.Input?
    && call.Settlement().Some?
    && match call.Settlement().value
       case GotEvent(e) => e == event
       case RaisedAlsaError(code) => code < 0 && code != EAGAIN
       case RaisedException => true
       case _ => false
  }

  /** Nothing is lost or duplicated: what arrived is what was taken, in order, and then the FIFO. */
  ghost predicate Conserved<E>(s: State<E>) {
    s.arrived == Events(s.taken) + s.fifo
  }

  /** Each taking belongs to one settled input call, and to no two. */
  ghost predicate TakingsOwned<E(!new)>(s: State<E>) {
    && (forall i :: 0 <= i < |s.taken| ==>
          s.taken[i].call < |s.calls| && Owns(s.calls[s.taken[i].call], s.taken[i].event))
    && (forall i, j :: 0 <= i < j < |s.taken| ==> s.taken[i].call != s.taken[j].call)
  }

  /** A call that hands out an event has taken that event from the FIFO. */
  ghost predicate DeliveriesTaken<E(!new)>(s: State<E>) {
    forall c :: 0 <= c < |s.calls| && s.calls[c].Settlement().Some? && s.calls[c].Settlement().value.GotEvent?
      ==> Taking(c, s.calls[c].Settlement().value.event) in s.taken
  }

  ghost predicate CompletedOnce<E>(s: State<E>) {
    && Distinct(s.completions)
    && (forall i :: 0 <= i < |s.completions| ==>
          s.completions[i] < |s.calls| && !s.calls[s.completions[i]].status.Pending?)
  }

  ghost predicate SlotKnown<E>(s: State<E>) {
    s.slot.Some? ==> s.slot.value < |s.calls|
  }

  ghost predicate Inv<E(!new)>(s: State<E>) {
    Conserved(s) && TakingsOwned(s) && DeliveriesTaken(s) && CompletedOnce(s) && SlotKnown(s)
  }

  lemma EventsAppend<E>(taken: seq<Taking<E>>, more: seq<Taking<E>>)
    ensures Events(taken + more) == Events(taken) + Events(more)
  {}

  /** Settling one more call, which may have taken the FIFO head, keeps everything. */
  lemma TakeKeepsConserved<E>(s: State<E>, c: CallId, k: ValidOracle)
    requires Conserved(s)
    ensures var (_, fifo, event) := Attempt(s.fifo, k);
            s.arrived == Events(s.taken + TakeBy(c, event)) + fifo
  {
    var (reply, fifo, event) := Attempt(s.fifo, k);
    EventsAppend(s.taken, TakeBy(c, event));
    if event.Some? {
      assert Events(TakeBy(c, event)) == [event.value];
      assert Events(s.taken) + [event.value] + fifo == Events(s.taken) + s.fifo;
    } else {
      assert Events(TakeBy(c, event)) == [];
    }
  }

  lemma StepKeepsConserved<E>(s: State<E>, a: Action<E>)
    requires Conserved(s)
    ensures Conserved(Step(s, a))
  {
    match a
    case Arrive(e) =>
      assert Events(s.taken) + (s.fifo + [e]) == s.arrived + [e];
    case CallInput(timed, k) => TakeKeepsConserved(s, |s.calls|, k);
    case RunCallback(k, o) =>
      if s.slot.Some? { TakeKeepsConserved(s, s.slot.value, k); }
    case _ =>
  }

  /** The call whose code an action runs. */
  function Actor<E>(s: State<E>, a: Action<E>): Option<CallId> {
    if StartsCall(a) then Some(|s.calls|)
    else if a.RunCallback? && s.slot.Some? && PendingCall(s, s.slot.value) then s.slot
    else None
  }

  /** `after` adds nothing to `before`, or one entry of the actor. */
  predicate ExtendedBy(before: seq<CallId>, after: seq<CallId>, actor: Option<CallId>) {
    after == before || (actor.Some? && after == before + [actor.value])
  }

  /** What any step may change: the records of the actor, and the status of a call that times out or
      is resumed. */
  lemma StepFrame<E(!new)>(s: State<E>, a: Action<E>)
    ensures var t := Step(s, a);
            && t.arrived == s.arrived + (if a.Arrive? then [a.event] else [])
            && |t.calls| == |s.calls| + (if StartsCall(a) then 1 else 0)
            && t.slot in {s.slot, None, Some(|s.calls|)}
            && (t.slot == Some(|s.calls|) && t.slot != s.slot ==> StartsCall(a))
            && ExtendedBy(s.attempts, t.attempts, Actor(s, a))
            && ExtendedBy(s.completions, t.completions, Actor(s, a))
            && (t.completions != s.completions ==>
                  Actor(s, a).value < |s.calls| && PendingCall(s, Actor(s, a).value) && !PendingCall(t, Actor(s, a).value))
            && (forall x :: x in t.taken ==> x in s.taken || Actor(s, a) == Some(x.call))
  {}

  lemma StepCall<E(!new)>(s: State<E>, a: Action<E>, c: CallId)
    requires c < |s.calls|
    ensures var t := Step(s, a);
            && |s.calls| <= |t.calls|
            && t.calls[c].kind == s.calls[c].kind && t.calls[c].timed == s.calls[c].timed
            && (s.calls[c].Settlement().Some? ==> t.calls[c].Settlement() == s.calls[c].Settlement())
            && (Actor(s, a) != Some(c) ==>
                  && (PendingCall(s, c) ==> t.calls[c].status in {Pending, Returned(TimedOut)})
                  && (PendingCall(s, c) && !s.calls[c].timed ==> PendingCall(t, c)))
  {}

  lemma NotExtended(before: seq<CallId>, after: seq<CallId>, actor: Option<CallId>, c: CallId)
    requires ExtendedBy(before, after, actor) && actor != Some(c)
    ensures multiset(after)[c] == multiset(before)[c]
  {}

  /** Calls that settle later, and calls made later, leave the owners of earlier takings alone. */
  lemma TakingsSurvive<E(!new)>(s: State<E>, t: State<E>)
    requires TakingsOwned(s)
    requires |s.calls| <= |t.calls|
    requires forall c :: 0 <= c < |s.calls| ==>
               && t.calls[c].kind == s.calls[c].kind
               && (s.calls[c].Settlement().Some? ==> t.calls[c].Settlement() == s.calls[c].Settlement())
    ensures TakingsOwned(t.(taken := s.taken))
  {}

  lemma OneMoreTaking<E(!new)>(s: State<E>, c: CallId, event: Option<E>)
    requires TakingsOwned(s)
    requires c < |s.calls|
    requires event.Some? ==> Owns(s.calls[c], event.value)
    requires event.Some? ==> forall i :: 0 <= i < |s.taken| ==> s.taken[i].call != c
    ensures TakingsOwned(s.(taken := s.taken + TakeBy(c, event)))
  {}

  /** What a step takes, if it takes anything, goes to the actor, which it settles with that event or
      with a failure to decode it. */
  lemma StepTakes<E(!new)>(s: State<E>, a: Action<E>) returns (event: Option<E>)
    ensures event.Some? ==> Actor(s, a).Some? && !Settled(s, Actor(s, a).value)
    ensures var t := Step(s, a);
            && t.taken == s.taken + (if event.Some? then [Taking(Actor(s, a).value, event.value)] else [])
            && (event.Some? ==> Actor(s, a).value < |t.calls| && Owns(t.calls[Actor(s, a).value], event.value))
  {
    event := None;
    match a
    case CallInput(_, k) => event := Attempt(s.fifo, k).2;
    case RunCallback(k, _) =>
      if Actor(s, a).Some? && s.slot.value < |s.calls| && s.calls[s.slot.value].kind.Input? {
        event := Attempt(s.fifo, k).2;
      }
    case _ =>
  }

  predicate Settled<E>(s: State<E>, c: CallId) {
    c < |s.calls| && s.calls[c].Settlement().Some?
  }

  lemma StepKeepsTakings<E(!new)>(s: State<E>, a: Action<E>)
    requires TakingsOwned(s)
    ensures TakingsOwned(Step(s, a))
  {
    var t := Step(s, a);
    forall c | 0 <= c < |s.calls|
      ensures c < |t.calls| && t.calls[c].kind == s.calls[c].kind
      ensures s.calls[c].Settlement().Some? ==> t.calls[c].Settlement() == s.calls[c].Settlement()
    {
      StepCall(s, a, c);
    }
    StepFrame(s, a);
    TakingsSurvive(s, t);
    var event := StepTakes(s, a);
    if event.Some? {
      OneMoreTaking(t.(taken := s.taken), Actor(s, a).value, event);
      assert t == t.(taken := s.taken).(taken := s.taken + TakeBy(Actor(s, a).value, event));
    } else {
      assert t == t.(taken := s.taken);
    }
  }

  /** Whatever a step delivers it has taken. */
  lemma StepDelivers<E(!new)>(s: State<E>, a: Action<E>, c: CallId)
    requires c < |Step(s, a).calls| && !Settled(s, c)
    ensures var t := Step(s, a);
            t.calls[c].Settlement().Some? && t.calls[c].Settlement().value.GotEvent?
            ==> Taking(c, t.calls[c].Settlement().value.event) in t.taken
  {}

  lemma StepKeepsDeliveries<E(!new)>(s: State<E>, a: Action<E>)
    requires DeliveriesTaken(s)
    ensures DeliveriesTaken(Step(s, a))
  {
    var t := Step(s, a);
    var event := StepTakes(s, a);
    forall c | 0 <= c < |t.calls| && t.calls[c].Settlement().Some? && t.calls[c].Settlement().value.GotEvent?
      ensures Taking(c, t.calls[c].Settlement().value.event) in t.taken
    {
      if Settled(s, c) {
        StepCall(s, a, c);
      } else {
        StepDelivers(s, a, c);
      }
    }
  }

  lemma StepKeepsSlot<E(!new)>(s: State<E>, a: Action<E>)
    requires SlotKnown(s)
    ensures SlotKnown(Step(s, a))
  {
    StepFrame(s, a);
  }

  lemma StepKeepsCompletions<E(!new)>(s: State<E>, a: Action<E>)
    requires CompletedOnce(s)
    ensures CompletedOnce(Step(s, a))
  {
    var t := Step(s, a);
    StepFrame(s, a);
    forall i | 0 <= i < |t.completions|
      ensures t.completions[i] < |t.calls| && !t.calls[t.completions[i]].status.Pending?
    {
      if i < |s.completions| {
        StepCall(s, a, s.completions[i]);
      }
    }
  }

  lemma StepKeepsInv<E(!new)>(s: State<E>, a: Action<E>)
    requires Inv(s)
    ensures Inv(Step(s, a))
  {
    StepKeepsConserved(s, a);
    StepKeepsTakings(s, a);
    StepKeepsDeliveries(s, a);
    StepKeepsCompletions(s, a);
    StepKeepsSlot(s, a);
  }

  lemma {:induction false} RunKeepsInv<E(!new)>(s: State<E>, actions: seq<Action<E>>)
    requires Inv(s)
    ensures Inv(Run(s, actions))
    decreases |actions|
  {
    if actions != [] {
      StepKeepsInv(s, actions[0]);
      RunKeepsInv(Step(s, actions[0]), actions[1..]);
    }
  }

  function Arrivals<E>(actions: seq<Action<E>>): seq<E> {
    if actions == [] then []
    else (if actions[0].Arrive? then [actions[0].event] else []) + Arrivals(actions[1..])
  }

  lemma {:induction false} ArrivalsRecorded<E(!new)>(s: State<E>, actions: seq<Action<E>>)
    ensures Run(s, actions).arrived == s.arrived + Arrivals(actions)
    decreases |actions|
  {
    if actions != [] {
      var head := if actions[0].Arrive? then [actions[0].event] else [];
      StepFrame(s, actions[0]);
      ArrivalsRecorded(Step(s, actions[0]), actions[1..]);
      assert s.arrived + (head + Arrivals(actions[1..])) == (s.arrived + head) + Arrivals(actions[1..]);
    }
  }

  /** The number of events call `c` took off the FIFO. */
  function TakenBy<E>(taken: seq<Taking<E>>, c: CallId): nat {
    if taken == [] then 0 else TakenBy(taken[..|taken| - 1], c) + if taken[|taken| - 1].call == c then 1 else 0
  }

  lemma {:induction false} TakenByBound<E(!new)>(taken: seq<Taking<E>>, c: CallId)
    requires forall i, j :: 0 <= i < j < |taken| ==> taken[i].call != taken[j].call
    ensures TakenBy(taken, c) <= 1
    ensures TakenBy(taken, c) == 1 <==> exists i :: 0 <= i < |taken| && taken[i].call == c
  {
    if taken != [] {
      var n := |taken| - 1;
      TakenByBound(taken[..n], c);
      if exists i :: 0 <= i < n && taken[..n][i].call == c {
        var i :| 0 <= i < n && taken[..n][i].call == c;
        assert taken[i].call == c && taken[n].call != c;
      } else {
        assert forall i :: 0 <= i < n ==> taken[i].call == taken[..n][i].call != c;
      }
    }
  }

  /** Every interleaving conserves events: the arrivals are exactly the events taken by calls, in
      order, followed by what is still in the FIFO; no call takes two, a timed out call takes none, a
      call that returns an event took that very event, and no future is completed twice. */
  lemma Conservation<E(!new)>(actions: seq<Action<E>>, c: CallId)
    ensures var s := Run(Init<E>(), actions);
            && Arrivals(actions) == Events(s.taken) + s.fifo
            && TakenBy(s.taken, c) <= 1
            && multiset(s.completions)[c] <= 1
            && (c < |s.calls| && s.calls[c].Settlement() in {None, Some(TimedOut)} ==> TakenBy(s.taken, c) == 0)
            && (c < |s.calls| && s.calls[c].kind.Output? ==> TakenBy(s.taken, c) == 0)
            && (c < |s.calls| && s.calls[c].Settlement().Some? && s.calls[c].Settlement().value.GotEvent?
                ==> Taking(c, s.calls[c].Settlement().value.event) in s.taken)
  {
    var s := Run(Init<E>(), actions);
    assert Events(Init<E>().taken) == [];
    RunKeepsInv(Init<E>(), actions);
    ArrivalsRecorded(Init<E>(), actions);
    TakenByBound(s.taken, c);
    DistinctCount(s.completions, c);
  }

  lemma {:induction false} DistinctCount(ids: seq<CallId>, c: CallId)
    requires Distinct(ids)
    ensures multiset(ids)[c] <= 1
  {
    if ids != [] {
      var n := |ids| - 1;
      assert ids == ids[..n] + [ids[n]];
      DistinctCount(ids[..n], c);
      if ids[n] == c {
        assert c !in ids[..n];
      }
    }
  }

  /* ---------- Wakeups ---------- */

  predicate PendingCall<E>(s: State<E>, c: CallId) {
    c < |s.calls| && s.calls[c].status.Pending?
  }

  /** No wait is outstanding. */
  ghost predicate Idle<E>(s: State<E>) {
    forall c :: 0 <= c < |s.calls| ==> !PendingCall(s, c)
  }

  /** Whoever waits has its own callback in the reader slot. */
  ghost predicate NoLostWakeup<E>(s: State<E>) {
    forall c :: 0 <= c < |s.calls| && PendingCall(s, c) ==> s.slot == Some(c)
  }

  predicate StartsCall<E>(a: Action<E>) { a.CallInput? || a.CallOutput? }

  /** The action is a call whose first attempt cannot finish it. */
  predicate Suspends<E>(s: State<E>, a: Action<E>) {
    match a
    case CallInput(_, k) => Attempt(s.fifo, k).0.WouldBlock()
    case CallOutput(_, o) => o.Replied? && (o.result == EAGAIN || o.more)
    case _ => false
  }

  /** At most one wait is outstanding at a time. Calls that finish at once may be made meanwhile. */
  ghost predicate Sequential<E>(s: State<E>, actions: seq<Action<E>>)
    decreases |actions|
  {
    actions == [] ||
    ((Suspends(s, actions[0]) ==> Idle(s)) && Sequential(Step(s, actions[0]), actions[1..]))
  }

  /** One step loses a wakeup exactly when it suspends a call while another wait is outstanding. */
  lemma WakeupKeptIff<E(!new)>(s: State<E>, a: Action<E>)
    requires NoLostWakeup(s)
    ensures NoLostWakeup(Step(s, a)) <==> (Suspends(s, a) ==> Idle(s))
  {
    var t := Step(s, a);
    if Suspends(s, a) {
      assert t.slot == Some(|s.calls|);
      if Idle(s) {
        assert forall c :: 0 <= c < |s.calls| ==> t.calls[c] == s.calls[c] && !PendingCall(s, c);
      } else {
        var c :| 0 <= c < |s.calls| && PendingCall(s, c);
        assert PendingCall(t, c);
      }
    } else {
      forall c | 0 <= c < |t.calls| && PendingCall(t, c)
        ensures t.slot == Some(c)
      {
        assert c < |s.calls|;
        assert PendingCall(s, c);
      }
    }
  }

  lemma RunAfterFirst<E>(s: State<E>, actions: seq<Action<E>>, n: nat)
    requires 0 < n <= |actions|
    ensures Run(s, actions[..n]) == Run(Step(s, actions[0]), actions[1..][..n - 1])
  {
    assert actions[..n][1..] == actions[1..][..n - 1];
  }

  /** No state along the run has lost a wakeup if and only if no call along it suspends while another
      wait is outstanding. */
  lemma {:induction false} WakeupsKeptIff<E(!new)>(s: State<E>, actions: seq<Action<E>>)
    requires NoLostWakeup(s)
    ensures (forall n :: 0 <= n <= |actions| ==> NoLostWakeup(Run(s, actions[..n]))) <==> Sequential(s, actions)
    decreases |actions|
  {
    if actions == [] {
      assert actions[..0] == [];
    } else {
      var t, rest := Step(s, actions[0]), actions[1..];
      WakeupKeptIff(s, actions[0]);
      RunAfterFirst(s, actions, 1);
      if NoLostWakeup(t) {
        WakeupsKeptIff(t, rest);
        forall n | 0 < n <= |actions|
          ensures Run(s, actions[..n]) == Run(t, rest[..n - 1])
        {
          RunAfterFirst(s, actions, n);
        }
        if forall n :: 0 <= n <= |actions| ==> NoLostWakeup(Run(s, actions[..n])) {
          forall m | 0 <= m <= |rest|
            ensures NoLostWakeup(Run(t, rest[..m]))
          {
            assert NoLostWakeup(Run(s, actions[..m + 1]));
          }
        }
      } else {
        assert Run(s, actions[..1]) == t;
      }
    }
  }

  /** The loss can be reached: an input call that has to wait, then an output call that has to wait.
      The input call is never completed, whatever arrives and whatever callbacks run. */
  lemma OverlappingWaitsLoseTheFirst<E(!new)>(k: ValidOracle, o: OutputOracle, actions: seq<Action<E>>)
    requires k.fault.None? && o.Replied? && (o.result == EAGAIN || o.more)
    ensures var calls := [CallInput(false, k), CallOutput(false, o)];
            var s := Run(Init<E>(), calls);
            && !Sequential(Init<E>(), calls)
            && !NoLostWakeup(s)
            && PendingCall(s, 0) && PendingCall(Run(s, actions), 0)
  {
    var first, second: Action<E> := CallInput(false, k), CallOutput(false, o);
    var calls := [first, second];
    var s1 := Step(Init<E>(), first);
    var s := Step(s1, second);
    assert calls[1..] == [second] && calls[1..][1..] == [];
    assert Run(Init<E>(), calls) == Run(s1, [second]) == s;
    assert PendingCall(s1, 0) && PendingCall(s, 0) && s.slot == Some(1);
    assert Suspends(s1, second) && !Sequential(s1, calls[1..]);
    OrphanNeverCompletes(s, 0, actions);
  }

  /** Used one wait at a time, the client never loses a wakeup, whatever timeouts, stale callbacks
      and faults come in between. */
  lemma {:induction false} SequentialKeepsWakeup<E(!new)>(s: State<E>, actions: seq<Action<E>>)
    requires NoLostWakeup(s) && Sequential(s, actions)
    ensures NoLostWakeup(Run(s, actions))
    decreases |actions|
  {
    if actions != [] {
      WakeupKeptIff(s, actions[0]);
      SequentialKeepsWakeup(Step(s, actions[0]), actions[1..]);
    }
  }

  /** Under sequential use a suspended `event_input` gets the oldest event not yet taken from the
      first fault-free run of the callback the loop has registered. */
  lemma SequentialDelivery<E(!new)>(actions: seq<Action<E>>, c: CallId, k: ValidOracle, o: OutputOracle)
    requires Sequential(Init<E>(), actions)
    requires var s := Run(Init<E>(), actions);
             PendingCall(s, c) && s.calls[c].kind.Input? && s.fifo != []
    requires k.fault.None? && k.decoding.Decoded?
    ensures var s := Run(Init<E>(), actions);
            var t := Step(Step(s, RunCallback(k, o)), Resume(c));
            && |s.taken| < |Arrivals(actions)|
            && t.calls[c].status == Returned(GotEvent(Arrivals(actions)[|s.taken|]))
            && t.slot == None
  {
    SequentialKeepsWakeup(Init<E>(), actions);
    Conservation(actions, c);
    var s := Run(Init<E>(), actions);
    assert Arrivals(actions)[|s.taken|] == s.fifo[0];
  }

  /** What an attempt at the oldest event not yet taken comes to, for the call that makes it. */
  ghost predicate InputOutcome<E(!new)>(o: Outcome<E>, oldest: E, k: ValidOracle) {
    match k.fault
    case Some(code) => o == RaisedAlsaError(code)
    case None =>
      match k.decoding
      case Decoded => o == GotEvent(oldest)
      case DecodeError(code) => o == RaisedAlsaError(code)
      case DecodeRaises => o == RaisedException
  }

  /** A call of `event_input` in any reachable state: it suspends with its own callback in the slot if there
      is nothing to read; otherwise it ends at once, with the oldest event not yet taken if that can be
      decoded, with the code or exception of the library if not. */
  lemma ImmediateInput<E(!new)>(actions: seq<Action<E>>, timed: bool, k: ValidOracle)
    ensures var s := Run(Init<E>(), actions);
            var t := Step(s, CallInput(timed, k));
            var c := |s.calls|;
            && |t.calls| == c + 1 && t.calls[..c] == s.calls
            && t.calls[c].kind.Input? && t.calls[c].timed == timed && !t.calls[c].more
            && (k.fault == Some(-11) || (k.fault.None? && s.fifo == []) ==>
                  t.calls[c].status == Pending && t.slot == Some(c) && t.fifo == s.fifo)
            && (k.fault.Some? && k.fault.value != -11 ==>
                  t.calls[c].status == Returned(RaisedAlsaError(k.fault.value)) && t.slot == s.slot && t.fifo == s.fifo)
            && (k.fault.None? && s.fifo != [] ==>
                  && |s.taken| < |Arrivals(actions)|
                  && t.calls[c].status.Returned?
                  && InputOutcome(t.calls[c].status.outcome, Arrivals(actions)[|s.taken|], k)
                  && t.slot == s.slot && t.fifo == s.fifo[1..])
  {
    var s := Run(Init<E>(), actions);
    Conservation(actions, |s.calls|);
    if s.fifo != [] {
      assert Arrivals(actions)[|s.taken|] == s.fifo[0];
    }
  }

  /** A run of the registered callback of an input call that waits, in any reachable state: with nothing to
      read it changes nothing; otherwise the call, once resumed, ends like one made at that moment, and
      nothing is registered any more. */
  lemma SuspendedInput<E(!new)>(actions: seq<Action<E>>, c: CallId, k: ValidOracle, o: OutputOracle)
    requires var s := Run(Init<E>(), actions);
             PendingCall(s, c) && s.calls[c].kind.Input? && s.slot == Some(c)
    ensures var s := Run(Init<E>(), actions);
            var called := Step(s, RunCallback(k, o));
            var t := Step(called, Resume(c));
            && (k.fault == Some(-11) || (k.fault.None? && s.fifo == []) ==> called == s)
            && (k.fault.Some? && k.fault.value != -11 ==>
                  t.calls[c].status == Returned(RaisedAlsaError(k.fault.value)) && t.slot == None && t.fifo == s.fifo)
            && (k.fault.None? && s.fifo != [] ==>
                  && |s.taken| < |Arrivals(actions)|
                  && t.calls[c].status.Returned?
                  && InputOutcome(t.calls[c].status.outcome, Arrivals(actions)[|s.taken|], k)
                  && t.slot == None && t.fifo == s.fifo[1..])
  {
    var s := Run(Init<E>(), actions);
    Conservation(actions, c);
    if s.fifo != [] {
      assert Arrivals(actions)[|s.taken|] == s.fifo[0];
    }
  }

  /** An output call in any state, by what its first attempt comes to. */
  lemma ImmediateOutput<E(!new)>(s: State<E>, timed: bool, o: OutputOracle)
    ensures var t := Step(s, CallOutput(timed, o));
            var c := |s.calls|;
            && |t.calls| == c + 1 && t.calls[..c] == s.calls && t.attempts == s.attempts + [c]
            && t.calls[c].kind.Output? && t.calls[c].timed == timed && t.fifo == s.fifo && t.taken == s.taken
            && t.calls[c].more == (o.Replied? && o.more)
            && (o.Raises? ==> t.calls[c].status == Returned(RaisedException) && t.slot == s.slot)
            && (o.Replied? && o.result != -11 && !o.more ==>
                  t.calls[c].status == Returned(if o.result >= 0 then GotNumber(o.result) else RaisedAlsaError(o.result))
                  && t.slot == s.slot)
            && (o.Replied? && (o.result == -11 || o.more) ==> t.calls[c].status == Pending && t.slot == Some(c))
  {}

  /** A run of the registered callback of an output call that waits: one more attempt, which ends the call
      once it is resumed, or leaves it waiting with what remains. If the attempt raises, the callback stays
      registered when something had remained before it. */
  lemma SuspendedOutput<E(!new)>(s: State<E>, c: CallId, k: ValidOracle, o: OutputOracle)
    requires PendingCall(s, c) && s.calls[c].kind.Output? && s.slot == Some(c)
    ensures var called := Step(s, RunCallback(k, o));
            var t := Step(called, Resume(c));
            && t.attempts == s.attempts + [c] && t.fifo == s.fifo && t.taken == s.taken && |t.calls| == |s.calls|
            && (o.Replied? && o.result != -11 && !o.more ==>
                  t.calls[c].status == Returned(if o.result >= 0 then GotNumber(o.result) else RaisedAlsaError(o.result))
                  && t.slot == None)
            && (o.Replied? && (o.result == -11 || o.more) ==>
                  t.calls[c].status == Pending && t.calls[c].more == o.more && t.slot == Some(c))
            && (o.Raises? ==>
                  t.calls[c].status == Returned(RaisedException) && t.slot == if s.calls[c].more then Some(c) else None)
  {}

  /** A wait with a timeout that expires ends as None at once; a wait without one, a call that is done and
      a call that has returned are not affected. The reader slot is left as it is. */
  lemma TimeoutExpires<E(!new)>(s: State<E>, c: CallId)
    requires c < |s.calls|
    ensures var t := Step(s, Timeout(c));
            && (s.calls[c].timed && PendingCall(s, c) ==>
                  t.calls[c].status == Returned(TimedOut) && t == s.(calls := t.calls)
                  && forall d :: 0 <= d < |s.calls| && d != c ==> t.calls[d] == s.calls[d])
            && (!s.calls[c].timed || !PendingCall(s, c) ==> t == s)
  {}

  /** What happens to a call whose callback was replaced in the slot, on every continuation: it is
      never completed. Without a timeout it stays suspended. */
  lemma OrphanNeverCompletes<E(!new)>(s: State<E>, c: CallId, actions: seq<Action<E>>)
    requires SlotKnown(s) && PendingCall(s, c) && s.slot != Some(c)
    ensures var t := Run(s, actions);
            && c < |t.calls|
            && t.slot != Some(c)
            && t.calls[c].status in {Pending, Returned(TimedOut)}
            && (!s.calls[c].timed ==> PendingCall(t, c))
            && multiset(t.completions)[c] == multiset(s.completions)[c]
  {
    SettledOrOrphaned(s, c, actions);
  }

  /** A call that is settled, or whose callback is not in the slot, takes part in nothing further. */
  ghost predicate Inert<E>(s: State<E>, c: CallId) {
    && SlotKnown(s)
    && c < |s.calls|
    && (PendingCall(s, c) ==> s.slot != Some(c))
  }

  /** `t` is a later state in which call `c` did nothing but time out or be resumed. */
  ghost predicate Untouched<E(!new)>(s: State<E>, t: State<E>, c: CallId) {
    && c < |s.calls| && c < |t.calls|
    && (s.slot != Some(c) ==> t.slot != Some(c))
    && t.calls[c].timed == s.calls[c].timed
    && (s.calls[c].Settlement().Some? ==> t.calls[c].Settlement() == s.calls[c].Settlement())
    && (PendingCall(s, c) ==> t.calls[c].status in {Pending, Returned(TimedOut)})
    && (PendingCall(s, c) && !s.calls[c].timed ==> PendingCall(t, c))
    && multiset(t.attempts)[c] == multiset(s.attempts)[c]
    && multiset(t.completions)[c] == multiset(s.completions)[c]
    && (forall x :: x in t.taken && x.call == c ==> x in s.taken)
  }

  lemma InertStep<E(!new)>(s: State<E>, c: CallId, a: Action<E>)
    requires Inert(s, c)
    ensures Inert(Step(s, a), c) && Untouched(s, Step(s, a), c)
  {
    StepFrame(s, a);
    StepCall(s, a, c);
    NotExtended(s.attempts, Step(s, a).attempts, Actor(s, a), c);
    NotExtended(s.completions, Step(s, a).completions, Actor(s, a), c);
  }

  lemma {:induction false} SettledOrOrphaned<E(!new)>(s: State<E>, c: CallId, actions: seq<Action<E>>)
    requires Inert(s, c)
    ensures Inert(Run(s, actions), c) && Untouched(s, Run(s, actions), c)
    decreases |actions|
  {
    if actions != [] {
      InertStep(s, c, actions[0]);
      SettledOrOrphaned(Step(s, actions[0]), c, actions[1..]);
    }
  }

  /** A timed out wait may leave its callback in the slot. On every continuation that stale callback
      consumes no event, submits nothing and completes nothing. */
  lemma StaleCallbackIsInert<E(!new)>(s: State<E>, c: CallId, actions: seq<Action<E>>)
    requires SlotKnown(s) && c < |s.calls| && !PendingCall(s, c)
    ensures Untouched(s, Run(s, actions), c)
  {
    SettledOrOrphaned(s, c, actions);
  }

  /* ---------- The output wait is registered as a reader ---------- */

  /** The loop runs the registered callback only when the descriptor is readable. */
  function LoopStep<E>(s: State<E>, a: Action<E>): State<E> {
    if a.RunCallback? && s.fifo == [] then s else Step(s, a)
  }

  function LoopRun<E>(s: State<E>, actions: seq<Action<E>>): State<E>
    decreases |actions|
  {
    if actions == [] then s else LoopRun(LoopStep(s, actions[0]), actions[1..])
  }

  lemma NoArrivalsNoEvents<E(!new)>(s: State<E>, a: Action<E>)
    requires s.fifo == [] && !a.Arrive?
    ensures LoopStep(s, a).fifo == []
  {}

  lemma ReturnedStays<E(!new)>(s: State<E>, a: Action<E>, c: CallId)
    requires c < |s.calls| && s.calls[c].status.Returned?
    ensures c < |Step(s, a).calls| && Step(s, a).calls[c].status == s.calls[c].status
  {}

  /** A suspended output call is not woken by the kernel accepting output again: as long as no event
      arrives for the client, no behaviour of the loop attempts it again or completes it. */
  lemma {:induction false} OutputWaitNeedsInput<E(!new)>(s: State<E>, c: CallId, actions: seq<Action<E>>)
    requires s.fifo == [] && PendingCall(s, c)
    requires Arrivals(actions) == []
    ensures var t := LoopRun(s, actions);
            && c < |t.calls|
            && t.calls[c].status in {Pending, Returned(TimedOut)}
            && (!s.calls[c].timed ==> PendingCall(t, c))
            && multiset(t.attempts)[c] == multiset(s.attempts)[c]
            && multiset(t.completions)[c] == multiset(s.completions)[c]
    decreases |actions|
  {
    if actions != [] {
      var t := LoopStep(s, actions[0]);
      if t != s {
        StepFrame(s, actions[0]);
        StepCall(s, actions[0], c);
        NotExtended(s.attempts, t.attempts, Actor(s, actions[0]), c);
        NotExtended(s.completions, t.completions, Actor(s, actions[0]), c);
      }
      NoArrivalsNoEvents(s, actions[0]);
      if PendingCall(t, c) {
        OutputWaitNeedsInput(t, c, actions[1..]);
      } else {
        TimedOutStays(t, c, actions[1..]);
      }
    }
  }

  lemma {:induction false} TimedOutStays<E(!new)>(s: State<E>, c: CallId, actions: seq<Action<E>>)
    requires c < |s.calls| && s.calls[c].status == Returned(TimedOut)
    ensures var t := LoopRun(s, actions);
            && c < |t.calls|
            && t.calls[c].status == Returned(TimedOut)
            && multiset(t.attempts)[c] == multiset(s.attempts)[c]
            && multiset(t.completions)[c] == multiset(s.completions)[c]
    decreases |actions|
  {
    if actions != [] {
      StepFrame(s, actions[0]);
      StepCall(s, actions[0], c);
      NotExtended(s.attempts, Step(s, actions[0]).attempts, Actor(s, actions[0]), c);
      NotExtended(s.completions, Step(s, actions[0]).completions, Actor(s, actions[0]), c);
      ReturnedStays(s, actions[0], c);
      TimedOutStays(LoopStep(s, actions[0]), c, actions[1..]);
    }
  }

  /** Whatever the loop does is a run. */
  lemma {:induction false} LoopRunIsRun<E>(s: State<E>, actions: seq<Action<E>>) returns (done: seq<Action<E>>)
    ensures LoopRun(s, actions) == Run(s, done)
    decreases |actions|
  {
    if actions == [] {
      done := [];
    } else {
      var rest := LoopRunIsRun(LoopStep(s, actions[0]), actions[1..]);
      if LoopStep(s, actions[0]) == s {
        done := rest;
      } else {
        done := [actions[0]] + rest;
        assert done[1..] == rest;
      }
    }
  }

  /** On this continuation call `c` is attempted again or completed. */
  ghost predicate Served<E(!new)>(s: State<E>, c: CallId, actions: seq<Action<E>>) {
    var t := LoopRun(s, actions);
    multiset(t.attempts)[c] > multiset(s.attempts)[c] || multiset(t.completions)[c] > multiset(s.completions)[c]
  }

  /** A run of the callback in the slot serves the call it belongs to, and the loop makes that run only
      for a readable descriptor. */
  lemma CallbackServes<E(!new)>(s: State<E>, c: CallId, k: ValidOracle, o: OutputOracle)
    requires PendingCall(s, c) && s.slot == Some(c) && s.fifo != [] && k.fault.None?
    ensures Served(s, c, [RunCallback(k, o)])
  {
    var a: Action<E> := RunCallback(k, o);
    var t := Step(s, a);
    assert [a][1..] == [];
    assert LoopRun(s, [a]) == t;
    assert t.attempts == s.attempts + [c] || t.completions == s.completions + [c];
  }

  /** Without an arrival a suspended call is attempted again or completed on some continuation if and
      only if its callback is in the slot and an event is already waiting. For an output call that
      means: how much output the kernel would accept plays no part. */
  lemma ServedWithoutArrivalIff<E(!new)>(s: State<E>, c: CallId)
    requires SlotKnown(s) && PendingCall(s, c)
    ensures (exists actions :: Arrivals(actions) == [] && Served(s, c, actions)) <==> s.slot == Some(c) && s.fifo != []
    ensures NoLostWakeup(s) ==>
              ((exists actions :: Arrivals(actions) == [] && Served(s, c, actions)) <==> s.fifo != [])
  {
    if s.slot == Some(c) && s.fifo != [] {
      var a: Action<E> := RunCallback(Oracle(None, Decoded), Raises);
      CallbackServes(s, c, a.k, a.o);
      assert [a][1..] == [];
      assert Arrivals([a]) == [];
    }
    forall actions | Arrivals(actions) == [] && Served(s, c, actions)
      ensures s.slot == Some(c) && s.fifo != []
    {
      if s.fifo == [] {
        OutputWaitNeedsInput(s, c, actions);
      } else if s.slot != Some(c) {
        var done := LoopRunIsRun(s, actions);
        SettledOrOrphaned(s, c, done);
      }
    }
  }

  /** An output call from the initial state that has to wait is attempted once and then hangs, on
      every continuation on which no event arrives. */
  lemma SuspendedOutputHangs<E(!new)>(o: OutputOracle, actions: seq<Action<E>>)
    requires o.Replied? && (o.result == EAGAIN || o.more)
    requires Arrivals(actions) == []
    ensures var t := LoopRun(Init<E>(), [CallOutput(false, o)] + actions);
            PendingCall(t, 0) && multiset(t.attempts)[0] == 1
  {
    var a: Action<E> := CallOutput(false, o);
    var s := Step(Init<E>(), a);
    assert ([a] + actions)[1..] == actions;
    assert s.attempts == [0];
    OutputWaitNeedsInput(s, 0, actions);
  }

  /* ---------- The client object ---------- */

  /** The client, its event loop registration and the kernel FIFO. Every method is one atomic step
      and does to the fields what `Step` says. The ghost fields are the history. */
  class AsyncSequencerClient<E> {
    var fifo: seq<E>
    var slot: Option<CallId>
    var calls: seq<Call<E>>
    ghost var arrived: seq<E>
    ghost var taken: seq<Taking<E>>
    ghost var attempts: seq<CallId>
    ghost var completions: seq<CallId>

    ghost function View(): State<E>
      reads this
    {
      State(fifo, slot, calls, arrived, taken, attempts, completions)
    }

    constructor ()
      ensures View() == Init()
    {
      fifo, slot, calls := [], None, [];
      arrived, taken, attempts, completions := [], [], [], [];
    }

    method KernelArrival(e: E)
      modifies this
      ensures View() == Step(old(View()), Arrive(e))
    {
      fifo := fifo + [e];
      arrived := arrived + [e];
    }

    /** `_event_input`, run by call `c`. */
    method AttemptInput(c: CallId, k: ValidOracle) returns (reply: Reply<E>)
      modifies this`fifo, this`taken
      ensures var (r, rest, event) := Attempt(old(fifo), k);
              reply == r && fifo == rest && taken == old(taken) + TakeBy(c, event)
    {
      if k.fault.Some? {
        return ErrorReply(k.fault.value);
      }
      if |fifo| == 0 {
        return ErrorReply(EAGAIN);
      }
      var event := fifo[0];
      fifo := fifo[1..];
      taken := taken + [Taking(c, event)];
      match k.decoding
      case Decoded => return EventReply(event);
      case DecodeError(code) => return ErrorReply(code);
      case DecodeRaises => return ExceptionReply;
    }

    /** `event_input` up to its `await`, or to its end when it does not wait. */
    method EventInput(timed: bool, k: ValidOracle) returns (c: CallId)
      modifies this
      ensures c == |old(calls)| && View() == Step(old(View()), CallInput(timed, k))
    {
      c := |calls|;
      var reply := AttemptInput(c, k);
      if !reply.WouldBlock() {
        calls := calls + [Call(Input, timed, false, Returned(Finish(InputReply(reply))))];
        return;
      }
      calls := calls + [Call(Input, timed, false, Pending)];
      slot := Some(c);
    }

    /** `_event_output_wait` up to its `await`, or to its end when it does not wait. */
    method EventOutputWait(timed: bool, o: OutputOracle) returns (c: CallId)
      modifies this
      ensures c == |old(calls)| && View() == Step(old(View()), CallOutput(timed, o))
    {
      c := |calls|;
      attempts := attempts + [c];
      if o.Raises? {
        calls := calls + [Call(Output, timed, false, Returned(RaisedException))];
        return;
      }
      if o.result != EAGAIN && !o.more {
        calls := calls + [Call(Output, timed, false, Returned(Finish(OutputReply(o.result))))];
        return;
      }
      calls := calls + [Call(Output, timed, o.more, Pending)];
      slot := Some(c);
    }

    /** `fut.set_result` or `fut.set_exception` of call `c`. */
    method SetFuture(c: CallId, v: FutureValue<E>)
      requires c < |calls| && PendingCall(View(), c)
      modifies this`calls, this`completions
      ensures View() == Complete(old(View()), c, v)
    {
      calls := calls[c := calls[c].(status := Done(v))];
      completions := completions + [c];
    }

    /** `reader_cb`. */
    method ReaderCb(c: CallId, k: ValidOracle)
      requires slot == Some(c) && c < |calls|
      modifies this
      ensures View() == ReaderCallback(old(View()), c, k)
    {
      if !calls[c].status.Pending? {
        return;
      }
      var reply := AttemptInput(c, k);
      if !reply.WouldBlock() {
        slot := None;
        SetFuture(c, InputReply(reply));
      }
    }

    /** `writer_cb`. When `func` raises, the reader is removed only if nothing remained to be sent
        before the attempt. */
    method WriterCb(c: CallId, o: OutputOracle)
      requires slot == Some(c) && c < |calls|
      modifies this
      ensures View() == WriterCallback(old(View()), c, o)
    {
      if !calls[c].status.Pending? {
        return;
      }
      attempts := attempts + [c];
      if o.Raises? {
        if !calls[c].more {
          slot := None;
        }
        SetFuture(c, OutputException);
        return;
      }
      calls := calls[c := calls[c].(more := o.more)];
      if o.result != EAGAIN && !o.more {
        slot := None;
        SetFuture(c, OutputReply(o.result));
      }
    }

    /** The event loop runs the registered callback. */
    method RunRegistered(k: ValidOracle, o: OutputOracle)
      requires SlotKnown(View())
      modifies this
      ensures View() == Step(old(View()), RunCallback(k, o))
    {
      match slot
      case None =>
      case Some(c) =>
        if calls[c].kind.Input? {
          ReaderCb(c, k);
        } else {
          WriterCb(c, o);
        }
    }

    /** `asyncio.wait_for` gives up on call `c`. */
    method Expire(c: CallId)
      modifies this
      ensures View() == Step(old(View()), Timeout(c))
    {
      if c < |calls| && calls[c].timed && calls[c].status.Pending? {
        calls := calls[c := calls[c].(status := Returned(TimedOut))];
      }
    }

    /** The coroutine of call `c` continues after its `await`. */
    method Continue(c: CallId)
      modifies this
      ensures View() == Step(old(View()), Resume(c))
    {
      if c < |calls| && calls[c].status.Done? {
        calls := calls[c := calls[c].(status := Returned(Finish(calls[c].status.value)))];
      }
    }
  }
}
