/** Output of MIDI byte streams: `_prepare_event`, `_event_output` and the loops around them.

    The MIDI encoder of libasound is an arbitrary step from a parser state and a byte to a new state
    and possibly a finished ALSA event. One call of it stops behind the byte that finishes an event. */
module ByteOutput {
  import opened Base
  import opened Bytes
  import opened Kernel
  import opened OutputWait

  type Encoder<!S, !E> = (S, byte) -> (S, Option<E>)

  /** `snd_midi_event_encode`: the parser state, the bytes processed, and the event, where None
      stands for an event of type NONE. */
  datatype Encoded<+S, +E> = Encoded(state: S, processed: nat, event: Option<E>)

  function Encode<S, E>(step: Encoder<S, E>, s: S, bytes: seq<byte>): (r: Encoded<S, E>)
    ensures r.processed <= |bytes|
    ensures bytes != [] ==> r.processed > 0
    ensures r.event.None? ==> r.processed == |bytes|
  {
    if bytes == [] then Encoded(s, 0, None)
    else
      var (s1, event) := step(s, bytes[0]);
      if event.Some? then Encoded(s1, 1, event)
      else
        var r := Encode(step, s1, bytes[1..]);
        r.(processed := r.processed + 1)
  }

  /** The reference: the whole byte stream folded through the encoder. */
  function Fold<S, E>(step: Encoder<S, E>, s: S, bytes: seq<byte>): (S, seq<E>) {
    if bytes == [] then (s, [])
    else
      var (s1, event) := step(s, bytes[0]);
      var (s2, events) := Fold(step, s1, bytes[1..]);
      (s2, Prepend(event, events))
  }

  function Prepend<T>(first: Option<T>, rest: seq<T>): seq<T> {
    if first.Some? then [first.value] + rest else rest
  }

  /** An event handed to `snd_seq_event_output` under the header of the output call, and the answer. */
  datatype Submission<+H, +E> = Submission(header: H, event: E, answer: int)

  datatype Output<+S, +H, +E> = Output(parser: S, log: seq<Submission<H, E>>)

  /** The bytes the next encoder call starts from. */
  function Todo(midiBytes: seq<byte>, remainder: Option<seq<byte>>): seq<byte> {
    if remainder.None? then midiBytes else remainder.value
  }

  /** `_event_output` for a `MidiBytesEvent`. The remainder carries the bytes still to be encoded; the
      struct in it keeps the header of the first call. */
  function Chunk<S, H, E>(step: Encoder<S, E>, header: H, midiBytes: seq<byte>, o: Output<S, H, E>,
                          remainder: Option<seq<byte>>, answer: int): OutputWait.Reply<Output<S, H, E>, seq<byte>>
  {
    var bytes := Todo(midiBytes, remainder);
    var r := Encode(step, o.parser, bytes);
    var log := if r.event.None? then o.log else o.log + [Submission(header, r.event.value, answer)];
    Replied(Output(r.state, log), answer,
            if r.processed < |bytes| then Some(bytes[r.processed..]) else None)
  }

  function BytesFunc<S, H, E>(step: Encoder<S, E>, header: H, midiBytes: seq<byte>)
    : Func<Output<S, H, E>, seq<byte>>
  {
    (o: Output<S, H, E>, remainder: Option<seq<byte>>, answer: int) =>
      Chunk(step, header, midiBytes, o, remainder, answer)
  }

  /** `_event_output` for any other event: always the same struct, never a remainder. */
  function StructFunc<S, H, E>(header: H, event: E): Func<Output<S, H, E>, seq<byte>> {
    (o: Output<S, H, E>, remainder: Option<seq<byte>>, answer: int) =>
      Replied(Output(o.parser, o.log + [Submission(header, event, answer)]), answer, None)
  }

  /* ---------- The fold and its chunks ---------- */

  lemma {:induction false} FoldAppend<S, E>(step: Encoder<S, E>, s: S, b1: seq<byte>, b2: seq<byte>)
    ensures var (s1, e1) := Fold(step, s, b1);
            var (s2, e2) := Fold(step, s1, b2);
            Fold(step, s, b1 + b2) == (s2, e1 + e2)
  {
    if b1 == [] {
      assert b1 + b2 == b2;
      assert [] + Fold(step, s, b2).1 == Fold(step, s, b2).1;
    } else {
      var (s0, event) := step(s, b1[0]);
      FoldAppend(step, s0, b1[1..], b2);
      assert (b1 + b2)[1..] == b1[1..] + b2;
      var (s1, e1) := Fold(step, s0, b1[1..]);
      PrependAppend(event, e1, Fold(step, s1, b2).1);
    }
  }

  lemma PrependAppend<T>(first: Option<T>, a: seq<T>, b: seq<T>)
    ensures Prepend(first, a + b) == Prepend(first, a) + b
  {}

  /** One call of the encoder is the fold of the bytes it processed. */
  lemma {:induction false} EncodeIsFold<S, E>(step: Encoder<S, E>, s: S, bytes: seq<byte>)
    ensures var r := Encode(step, s, bytes);
            Fold(step, s, bytes[..r.processed]) == (r.state, Prepend(r.event, []))
  {
    if bytes != [] {
      var (s1, event) := step(s, bytes[0]);
      var r := Encode(step, s, bytes);
      assert bytes[..r.processed][1..] == bytes[1..][..r.processed - 1];
      if event.None? {
        EncodeIsFold(step, s1, bytes[1..]);
      } else {
        assert bytes[..1][1..] == [];
      }
    }
  }

  lemma ChunkThenRest<S, E>(step: Encoder<S, E>, s: S, bytes: seq<byte>)
    ensures var r := Encode(step, s, bytes);
            var (s2, events) := Fold(step, r.state, bytes[r.processed..]);
            Fold(step, s, bytes) == (s2, Prepend(r.event, events))
  {
    var r := Encode(step, s, bytes);
    EncodeIsFold(step, s, bytes);
    FoldAppend(step, s, bytes[..r.processed], bytes[r.processed..]);
    assert Prepend(r.event, []) + Fold(step, r.state, bytes[r.processed..]).1
        == Prepend(r.event, Fold(step, r.state, bytes[r.processed..]).1);
    assert bytes[..r.processed] + bytes[r.processed..] == bytes;
  }

  /** The number of encoder calls it takes to get through `bytes`. */
  function Chunks<S, E>(step: Encoder<S, E>, s: S, bytes: seq<byte>): (n: nat)
    ensures 0 < n
    ensures n <= |bytes| || n == 1
    decreases |bytes|
  {
    var r := Encode(step, s, bytes);
    if r.processed < |bytes| then 1 + Chunks(step, r.state, bytes[r.processed..]) else 1
  }

  /** Every encoder call but the last finishes an event. */
  lemma {:induction false} ChunksAndEvents<S, E>(step: Encoder<S, E>, s: S, bytes: seq<byte>)
    ensures Chunks(step, s, bytes) - 1 <= |Fold(step, s, bytes).1| <= Chunks(step, s, bytes)
    decreases |bytes|
  {
    var r := Encode(step, s, bytes);
    ChunkThenRest(step, s, bytes);
    if r.processed < |bytes| {
      ChunksAndEvents(step, r.state, bytes[r.processed..]);
    } else {
      assert bytes[r.processed..] == [];
    }
  }

  /** Events paired in order with the answers they got. */
  function Answered<H, E>(header: H, events: seq<E>, answers: seq<int>): (r: seq<Submission<H, E>>)
    requires |events| <= |answers|
  {
    seq(|events|, i requires 0 <= i < |events| => Submission(header, events[i], answers[i]))
  }

  lemma AnsweredCons<H, E>(header: H, first: Option<E>, events: seq<E>, answer: int, answers: seq<int>)
    requires |events| <= |answers|
    requires first.None? ==> events == []
    ensures Answered(header, Prepend(first, events), [answer] + answers)
            == Prepend(if first.Some? then Some(Submission(header, first.value, answer)) else None,
                       Answered(header, events, answers))
  {}

  /* ---------- One pass of the wait loops over a byte event ---------- */

  /** The state after one pass over `bytes`, the chunks answered by `answers`. */
  function Pass<S, H, E>(step: Encoder<S, E>, header: H, o: Output<S, H, E>, bytes: seq<byte>, answers: seq<int>): Output<S, H, E>
    requires |Fold(step, o.parser, bytes).1| <= |answers|
  {
    var (s, events) := Fold(step, o.parser, bytes);
    Output(s, o.log + Answered(header, events, answers))
  }

  lemma SyncStep<S, H, E>(step: Encoder<S, E>, header: H, midiBytes: seq<byte>, o: Output<S, H, E>,
                          remainder: Option<seq<byte>>, tape: seq<int>)
    requires tape != []
    ensures var f := BytesFunc(step, header, midiBytes);
            var reply := Chunk(step, header, midiBytes, o, remainder, tape[0]);
            SyncRun(f, o, remainder, tape) ==
            if tape[0] != EAGAIN && reply.remainder.None? then Run(reply.st, None, Check(tape[0]), 1)
            else Later(1, SyncRun(f, reply.st, reply.remainder, tape[1..]))
  {}

  lemma LastChunkPass<S, H, E>(step: Encoder<S, E>, header: H, o: Output<S, H, E>, bytes: seq<byte>, answer: int)
    requires Encode(step, o.parser, bytes).processed == |bytes|
    ensures |Fold(step, o.parser, bytes).1| <= 1
    ensures Pass(step, header, o, bytes, [answer]) == Chunk(step, header, bytes, o, None, answer).st
  {
    var r := Encode(step, o.parser, bytes);
    ChunkThenRest(step, o.parser, bytes);
    assert bytes[r.processed..] == [];
    if r.event.None? {
      assert o.log + Answered(header, [], [answer]) == o.log;
    } else {
      assert Answered(header, [r.event.value], [answer]) == [Submission(header, r.event.value, answer)];
    }
  }

  lemma FirstChunkPass<S, H, E>(step: Encoder<S, E>, header: H, o: Output<S, H, E>, bytes: seq<byte>, answer: int, answers: seq<int>)
    requires var r := Encode(step, o.parser, bytes);
             r.processed < |bytes| && |Fold(step, r.state, bytes[r.processed..]).1| <= |answers|
    ensures |Fold(step, o.parser, bytes).1| <= 1 + |answers|
    ensures var r := Encode(step, o.parser, bytes);
            Pass(step, header, o, bytes, [answer] + answers)
            == Pass(step, header, Chunk(step, header, bytes, o, None, answer).st, bytes[r.processed..], answers)
  {
    var r := Encode(step, o.parser, bytes);
    var events := Fold(step, r.state, bytes[r.processed..]).1;
    ChunkThenRest(step, o.parser, bytes);
    AnsweredCons(header, r.event, events, answer, answers);
    var first := Submission(header, r.event.value, answer);
    assert o.log + ([first] + Answered(header, events, answers)) == (o.log + [first]) + Answered(header, events, answers);
  }

  /** How a pass of `n` chunks shows in a run: the last answer ends it, unless it is EAGAIN and the run
      goes on as `again`. */
  predicate PassRun<St(==), R(==)>(run: Run<St, R>, n: nat, o1: St, last: int, again: Run<St, R>) {
    run == if last == EAGAIN then Later(n, again) else Run(o1, None, Check(last), n)
  }

  /** What a wait loop does with what is left of a byte event, on a tape that gets it through one pass:
      all events of the fold are submitted once, in order, under the header of the call; answers in the
      middle are ignored; the last answer decides, and EAGAIN there sends the whole event again from
      the parser state the pass left. */
  ghost predicate Passes<S, H, E>(step: Encoder<S, E>, header: H, midiBytes: seq<byte>, o: Output<S, H, E>,
                            remainder: Option<seq<byte>>, tape: seq<int>)
  {
    var f := BytesFunc<S, H, E>(step, header, midiBytes);
    var bytes := Todo(midiBytes, remainder);
    var n := Chunks(step, o.parser, bytes);
    n <= |tape| ==>
      && |Fold(step, o.parser, bytes).1| <= n
      && var o1 := Pass(step, header, o, bytes, tape[..n]);
         PassRun(SyncRun(f, o, remainder, tape), n, o1, tape[n - 1], SyncRun(f, o1, None, tape[n..]))
  }

  lemma LastPasses<S, H, E>(step: Encoder<S, E>, header: H, midiBytes: seq<byte>, o: Output<S, H, E>,
                            remainder: Option<seq<byte>>, tape: seq<int>)
    requires tape != []
    requires var bytes := Todo(midiBytes, remainder); Encode(step, o.parser, bytes).processed == |bytes|
    ensures Passes(step, header, midiBytes, o, remainder, tape)
  {
    SyncStep(step, header, midiBytes, o, remainder, tape);
    LastChunkPass(step, header, o, Todo(midiBytes, remainder), tape[0]);
    assert tape[..1] == [tape[0]];
  }

  lemma MorePasses<S, H, E>(step: Encoder<S, E>, header: H, midiBytes: seq<byte>, o: Output<S, H, E>,
                            remainder: Option<seq<byte>>, tape: seq<int>)
    requires tape != []
    requires var bytes := Todo(midiBytes, remainder); Encode(step, o.parser, bytes).processed < |bytes|
    requires var reply := Chunk(step, header, midiBytes, o, remainder, tape[0]);
             Passes(step, header, midiBytes, reply.st, reply.remainder, tape[1..])
    ensures Passes(step, header, midiBytes, o, remainder, tape)
  {
    var f := BytesFunc<S, H, E>(step, header, midiBytes);
    var bytes := Todo(midiBytes, remainder);
    var n := Chunks(step, o.parser, bytes);
    if n <= |tape| {
      var r := Encode(step, o.parser, bytes);
      var rest, answers := bytes[r.processed..], tape[1..][..n - 1];
      var o' := Chunk(step, header, midiBytes, o, remainder, tape[0]).st;
      SyncStep(step, header, midiBytes, o, remainder, tape);
      FirstChunkPass(step, header, o, bytes, tape[0], answers);
      TapeSlices(tape, n);
      var o1 := Pass(step, header, o', rest, answers);
      PassLater(SyncRun(f, o', Some(rest), tape[1..]), n - 1, o1, tape[n - 1], SyncRun(f, o1, None, tape[n..]));
    }
  }

  lemma PassLater<St, R>(run: Run<St, R>, n: nat, o1: St, last: int, again: Run<St, R>)
    requires PassRun(run, n, o1, last, again)
    ensures PassRun(Later(1, run), n + 1, o1, last, again)
  {}

  lemma TapeSlices(tape: seq<int>, n: nat)
    requires 2 <= n <= |tape|
    ensures tape[..n] == [tape[0]] + tape[1..][..n - 1]
    ensures tape[1..][n - 1..] == tape[n..]
    ensures tape[1..][n - 2] == tape[n - 1]
  {}

  /** Every run of a wait loop over a byte event, from any remainder, goes that way. */
  lemma {:induction false} WaitPass<S, H, E>(step: Encoder<S, E>, header: H, midiBytes: seq<byte>, o: Output<S, H, E>,
                           remainder: Option<seq<byte>>, tape: seq<int>)
    ensures Passes(step, header, midiBytes, o, remainder, tape)
    decreases |Todo(midiBytes, remainder)|
  {
    var bytes := Todo(midiBytes, remainder);
    var r := Encode(step, o.parser, bytes);
    if tape != [] {
      if r.processed < |bytes| {
        var o' := Chunk(step, header, midiBytes, o, remainder, tape[0]).st;
        WaitPass(step, header, midiBytes, o', Some(bytes[r.processed..]), tape[1..]);
        MorePasses(step, header, midiBytes, o, remainder, tape);
      } else {
        LastPasses(step, header, midiBytes, o, remainder, tape);
      }
    }
  }

  /** The submissions ALSA accepted. */
  function Accepted<H, E>(log: seq<Submission<H, E>>): seq<E> {
    if log == [] then []
    else Accepted(log[..|log| - 1]) + if log[|log| - 1].answer >= 0 then [log[|log| - 1].event] else []
  }

  lemma {:induction false} AcceptedAppend<H, E>(a: seq<Submission<H, E>>, b: seq<Submission<H, E>>)
    ensures Accepted(a + b) == Accepted(a) + Accepted(b)
  {
    if b == [] {
      assert a + b == a;
    } else {
      assert (a + b)[..|a + b| - 1] == a + b[..|b| - 1];
      AcceptedAppend(a, b[..|b| - 1]);
    }
  }

  lemma {:induction false} AcceptedAnswered<H, E>(header: H, events: seq<E>, answers: seq<int>)
    requires |events| <= |answers|
    ensures |Accepted(Answered(header, events, answers))| <= |events|
    ensures (forall i :: 0 <= i < |events| ==> answers[i] >= 0)
            <==> Accepted(Answered(header, events, answers)) == events
    ensures (forall i :: 0 <= i < |events| ==> answers[i] >= 0)
            <==> |Accepted(Answered(header, events, answers))| == |events|
  {
    if events != [] {
      var n := |events| - 1;
      var log := Answered(header, events, answers);
      assert log[..n] == Answered(header, events[..n], answers);
      AcceptedAnswered(header, events[..n], answers);
      assert events == events[..n] + [events[n]];
    }
  }

  lemma PassAccepted<S, H, E>(step: Encoder<S, E>, header: H, o: Output<S, H, E>, bytes: seq<byte>, tape: seq<int>, n: nat)
    requires |Fold(step, o.parser, bytes).1| <= n <= |tape|
    ensures var o1 := Pass(step, header, o, bytes, tape[..n]);
            var (s, events) := Fold(step, o.parser, bytes);
            && o1.parser == s
            && (Accepted(o1.log) == Accepted(o.log) + events <==> forall i :: 0 <= i < |events| ==> tape[i] >= 0)
  {
    var events := Fold(step, o.parser, bytes).1;
    AcceptedAppend(o.log, Answered(header, events, tape[..n]));
    AcceptedAnswered(header, events, tape[..n]);
    assert forall i :: 0 <= i < |events| ==> tape[..n][i] == tape[i];
  }

  lemma WaitDecided<S, H, E>(step: Encoder<S, E>, header: H, midiBytes: seq<byte>, o: Output<S, H, E>, tape: seq<int>, n: nat)
    requires n == Chunks(step, o.parser, midiBytes) <= |tape| && tape[n - 1] != EAGAIN
    ensures |Fold(step, o.parser, midiBytes).1| <= n
    ensures SyncRun(BytesFunc(step, header, midiBytes), o, None, tape)
         == Run(Pass(step, header, o, midiBytes, tape[..n]), None, Check(tape[n - 1]), n)
  {
    hide SyncRun, BytesFunc, Fold, Chunks;
    WaitPass(step, header, midiBytes, o, None, tape);
  }

  /** When a byte event gets through a wait loop exactly once: if and only if what the first pass kept and
      what later passes deliver make up its events. If later passes deliver nothing (there are none unless
      the first ends with EAGAIN), that is if and only if no event got a negative answer; if no event did,
      it is if and only if later passes deliver nothing. */
  lemma WaitExactlyOnceIff<S, H, E>(step: Encoder<S, E>, header: H, midiBytes: seq<byte>, o: Output<S, H, E>, tape: seq<int>)
    requires Chunks(step, o.parser, midiBytes) <= |tape|
    ensures var n := Chunks(step, o.parser, midiBytes);
            var run := SyncRun(BytesFunc(step, header, midiBytes), o, None, tape);
            var (s, events) := Fold(step, o.parser, midiBytes);
            var later := if tape[n - 1] == EAGAIN then Delivered(step, s, midiBytes, tape[n..]) else [];
            && |events| <= |tape|
            && (tape[n - 1] != EAGAIN ==> run.st.parser == s)
            && (Accepted(run.st.log) == Accepted(o.log) + events <==> Kept(events, tape) + later == events)
            && (later == [] ==>
                  (Accepted(run.st.log) == Accepted(o.log) + events <==> forall i :: 0 <= i < |events| ==> tape[i] >= 0))
            && ((forall i :: 0 <= i < |events| ==> tape[i] >= 0) ==>
                  (Accepted(run.st.log) == Accepted(o.log) + events <==> later == []))
  {
    hide SyncRun, Encode, Fold, Accepted, Kept;
    var n := Chunks(step, o.parser, midiBytes);
    var (s, events) := Fold(step, o.parser, midiBytes);
    ChunksAndEvents(step, o.parser, midiBytes);
    DeliveredOverAllPasses(step, header, midiBytes, o, tape);
    if tape[n - 1] != EAGAIN {
      WaitDecided(step, header, midiBytes, o, tape, n);
    }
    var later := if tape[n - 1] == EAGAIN then Delivered(step, s, midiBytes, tape[n..]) else [];
    KeptAllIff(events, tape);
    AddedExactly(Accepted(o.log), Kept(events, tape), later, events);
  }

  lemma KeptAllIff<E>(events: seq<E>, answers: seq<int>)
    requires |events| <= |answers|
    ensures Kept(events, answers) == events <==> forall i :: 0 <= i < |events| ==> answers[i] >= 0
  {
    hide *;
    AcceptedAnswered(0, events, answers);
    AcceptedIsKept(0, events, answers);
  }

  lemma AddedExactly<E>(before: seq<E>, kept: seq<E>, later: seq<E>, events: seq<E>)
    ensures before + (kept + later) == before + events <==> kept + later == events
    ensures later == [] ==> (before + (kept + later) == before + events <==> kept == events)
    ensures kept == events ==> (before + (kept + later) == before + events <==> later == [])
  {
    assert (before + (kept + later))[|before|..] == kept + later;
    assert (before + events)[|before|..] == events;
  }

  /* ---------- Delivery over all passes ---------- */

  /** The events ALSA accepted out of `events`, answered one by one. */
  function Kept<E>(events: seq<E>, answers: seq<int>): seq<E>
    requires |events| <= |answers|
  {
    if events == [] then []
    else
      var n := |events| - 1;
      Kept(events[..n], answers) + if answers[n] >= 0 then [events[n]] else []
  }

  lemma {:induction false} AcceptedIsKept<H, E>(header: H, events: seq<E>, answers: seq<int>)
    requires |events| <= |answers|
    ensures Accepted(Answered(header, events, answers)) == Kept(events, answers)
  {
    if events != [] {
      var n := |events| - 1;
      assert Answered(header, events, answers)[..n] == Answered(header, events[..n], answers);
      AcceptedIsKept(header, events[..n], answers);
    }
  }

  /** What a wait loop delivers of a byte event, over all its passes: of each pass the events that got
      no negative answer, and another pass from the parser state reached for each EAGAIN at the end of
      one. A tape that ends in the middle of a pass has answered the first events of it. */
  function Delivered<S, E>(step: Encoder<S, E>, s: S, bytes: seq<byte>, tape: seq<int>): seq<E>
    decreases |tape|
  {
    ChunksAndEvents(step, s, bytes);
    var n := Chunks(step, s, bytes);
    var (s1, events) := Fold(step, s, bytes);
    if |tape| < n then Kept(events[..|tape|], tape)
    else Kept(events, tape) + if tape[n - 1] == EAGAIN then Delivered(step, s1, bytes, tape[n..]) else []
  }

  /** A tape that ends inside a pass: every chunk it answered was an event of the fold. */
  ghost predicate CutShort<S, H, E>(step: Encoder<S, E>, header: H, midiBytes: seq<byte>, o: Output<S, H, E>,
                              remainder: Option<seq<byte>>, tape: seq<int>)
  {
    var events := Fold(step, o.parser, Todo(midiBytes, remainder)).1;
    var run := SyncRun(BytesFunc(step, header, midiBytes), o, remainder, tape);
    && |tape| <= |events|
    && run.st.log == o.log + Answered(header, events[..|tape|], tape)
    && run.outcome == Waiting && run.used == |tape|
  }

  lemma CutShortStep<S, H, E>(step: Encoder<S, E>, header: H, midiBytes: seq<byte>, o: Output<S, H, E>,
                              remainder: Option<seq<byte>>, tape: seq<int>)
    requires tape != []
    requires var bytes := Todo(midiBytes, remainder); Encode(step, o.parser, bytes).processed < |bytes|
    requires var reply := Chunk(step, header, midiBytes, o, remainder, tape[0]);
             CutShort(step, header, midiBytes, reply.st, reply.remainder, tape[1..])
    ensures CutShort(step, header, midiBytes, o, remainder, tape)
  {
    var bytes := Todo(midiBytes, remainder);
    var r := Encode(step, o.parser, bytes);
    var first, rest := r.event.value, Fold(step, r.state, bytes[r.processed..]).1;
    var events := Fold(step, o.parser, bytes).1;
    ChunkThenRest(step, o.parser, bytes);
    SyncStep(step, header, midiBytes, o, remainder, tape);
    hide SyncRun, Encode, Fold;
    assert events[..|tape|] == [first] + rest[..|tape| - 1];
    AnsweredAppend(header, first, rest[..|tape| - 1], tape);
    var submitted := Submission(header, first, tape[0]);
    AppendAssociates(o.log, [submitted], Answered(header, rest[..|tape| - 1], tape[1..]));
  }

  lemma AnsweredAppend<H, E>(header: H, first: E, events: seq<E>, tape: seq<int>)
    requires |events| < |tape|
    ensures Answered(header, [first] + events, tape) == [Submission(header, first, tape[0])] + Answered(header, events, tape[1..])
  {}

  lemma {:induction false} TapeInsideAPass<S, H, E>(step: Encoder<S, E>, header: H, midiBytes: seq<byte>, o: Output<S, H, E>,
                                   remainder: Option<seq<byte>>, tape: seq<int>)
    requires |tape| < Chunks(step, o.parser, Todo(midiBytes, remainder))
    ensures CutShort(step, header, midiBytes, o, remainder, tape)
    decreases |tape|
  {
    if tape == [] {
      assert o.log + Answered(header, Fold(step, o.parser, Todo(midiBytes, remainder)).1[..0], []) == o.log;
    } else {
      var reply := Chunk(step, header, midiBytes, o, remainder, tape[0]);
      TapeInsideAPass(step, header, midiBytes, reply.st, reply.remainder, tape[1..]);
      CutShortStep(step, header, midiBytes, o, remainder, tape);
    }
  }

  /** For every tape: what ALSA has accepted at the end of a run of either wait loop is what it had
      accepted before and what the passes delivered. */
  lemma {:induction false} DeliveredOverAllPasses<S, H, E>(step: Encoder<S, E>, header: H, midiBytes: seq<byte>, o: Output<S, H, E>, tape: seq<int>)
    ensures Accepted(SyncRun(BytesFunc(step, header, midiBytes), o, None, tape).st.log)
         == Accepted(o.log) + Delivered(step, o.parser, midiBytes, tape)
    decreases |tape|
  {
    var n := Chunks(step, o.parser, midiBytes);
    if |tape| < n {
      DeliveredInsideAPass(step, header, midiBytes, o, tape);
    } else {
      PassDelivers(step, header, midiBytes, o, tape, n);
      if tape[n - 1] == EAGAIN {
        var o1 := Pass(step, header, o, midiBytes, tape[..n]);
        DeliveredOverAllPasses(step, header, midiBytes, o1, tape[n..]);
        AnotherPass(step, header, midiBytes, o, tape, n);
      } else {
        LastPass(step, header, midiBytes, o, tape, n);
      }
    }
  }

  lemma DeliveredInsideAPass<S, H, E>(step: Encoder<S, E>, header: H, midiBytes: seq<byte>, o: Output<S, H, E>, tape: seq<int>)
    requires |tape| < Chunks(step, o.parser, midiBytes)
    ensures Accepted(SyncRun(BytesFunc(step, header, midiBytes), o, None, tape).st.log)
         == Accepted(o.log) + Delivered(step, o.parser, midiBytes, tape)
  {
    hide SyncRun, Encode, Fold, Chunks, Accepted;
    TapeInsideAPass(step, header, midiBytes, o, None, tape);
    var events := Fold(step, o.parser, midiBytes).1[..|tape|];
    AcceptedAppend(o.log, Answered(header, events, tape));
    AcceptedIsKept(header, events, tape);
  }

  lemma PassDelivers<S, H, E>(step: Encoder<S, E>, header: H, midiBytes: seq<byte>, o: Output<S, H, E>, tape: seq<int>, n: nat)
    requires n == Chunks(step, o.parser, midiBytes) <= |tape|
    ensures |Fold(step, o.parser, midiBytes).1| <= n
    ensures var o1 := Pass(step, header, o, midiBytes, tape[..n]);
            && o1.parser == Fold(step, o.parser, midiBytes).0
            && Accepted(o1.log) == Accepted(o.log) + Kept(Fold(step, o.parser, midiBytes).1, tape)
  {
    hide Encode, Fold, Chunks, Accepted;
    ChunksAndEvents(step, o.parser, midiBytes);
    var events := Fold(step, o.parser, midiBytes).1;
    assert Answered(header, events, tape[..n]) == Answered(header, events, tape);
    AcceptedAppend(o.log, Answered(header, events, tape));
    AcceptedIsKept(header, events, tape);
  }

  lemma AnotherPass<S, H, E>(step: Encoder<S, E>, header: H, midiBytes: seq<byte>, o: Output<S, H, E>, tape: seq<int>, n: nat)
    requires n == Chunks(step, o.parser, midiBytes) <= |tape| && tape[n - 1] == EAGAIN
    requires |Fold(step, o.parser, midiBytes).1| <= n
    requires var o1 := Pass(step, header, o, midiBytes, tape[..n]);
             && Accepted(o1.log) == Accepted(o.log) + Kept(Fold(step, o.parser, midiBytes).1, tape)
             && Accepted(SyncRun(BytesFunc(step, header, midiBytes), o1, None, tape[n..]).st.log)
                == Accepted(o1.log) + Delivered(step, o1.parser, midiBytes, tape[n..])
    ensures Accepted(SyncRun(BytesFunc(step, header, midiBytes), o, None, tape).st.log)
         == Accepted(o.log) + Delivered(step, o.parser, midiBytes, tape)
  {
    hide SyncRun, Encode, Fold, Chunks, Accepted, Kept;
    WaitPass(step, header, midiBytes, o, None, tape);
    var (s1, events) := Fold(step, o.parser, midiBytes);
    AppendAssociates(Accepted(o.log), Kept(events, tape), Delivered(step, s1, midiBytes, tape[n..]));
  }

  lemma LastPass<S, H, E>(step: Encoder<S, E>, header: H, midiBytes: seq<byte>, o: Output<S, H, E>, tape: seq<int>, n: nat)
    requires n == Chunks(step, o.parser, midiBytes) <= |tape| && tape[n - 1] != EAGAIN
    requires |Fold(step, o.parser, midiBytes).1| <= n
    requires Accepted(Pass(step, header, o, midiBytes, tape[..n]).log)
          == Accepted(o.log) + Kept(Fold(step, o.parser, midiBytes).1, tape)
    ensures Accepted(SyncRun(BytesFunc(step, header, midiBytes), o, None, tape).st.log)
         == Accepted(o.log) + Delivered(step, o.parser, midiBytes, tape)
  {
    hide SyncRun, Encode, Fold, Chunks, Accepted, Kept;
    WaitDecided(step, header, midiBytes, o, tape, n);
    assert Kept(Fold(step, o.parser, midiBytes).1, tape) + [] == Kept(Fold(step, o.parser, midiBytes).1, tape);
  }

  /** The coroutine has to wait exactly if the first answer is EAGAIN or the bytes take more than one
      encoder call; in particular it waits with any stream of two events, whatever the answer. */
  lemma ByteEventSuspendsIff<S, H, E>(step: Encoder<S, E>, header: H, midiBytes: seq<byte>, o: Output<S, H, E>, answer: int)
    ensures Start(BytesFunc(step, header, midiBytes), o, answer).Suspended?
            <==> answer == EAGAIN || Chunks(step, o.parser, midiBytes) > 1
    ensures |Fold(step, o.parser, midiBytes).1| > 1 ==> Chunks(step, o.parser, midiBytes) > 1
  {
    ChunksAndEvents(step, o.parser, midiBytes);
  }

  /** The callback based wait delivers the same. */
  lemma AsyncDeliversTheSame<S, H, E>(step: Encoder<S, E>, header: H, midiBytes: seq<byte>, o: Output<S, H, E>, tape: seq<int>)
    requires tape != []
    ensures Accepted(AsyncRun(BytesFunc(step, header, midiBytes), o, tape).0.log)
         == Accepted(o.log) + Delivered(step, o.parser, midiBytes, tape)
  {
    hide *;
    AsyncRefinesSync(BytesFunc<S, H, E>(step, header, midiBytes), o, tape);
    DeliveredOverAllPasses(step, header, midiBytes, o, tape);
  }

  /* ---------- The plain loop: conservation and chunk invariance ---------- */

  lemma {:induction false} FirstAnswersAgree<St, R>(f: Func<St, R>, st: St, rem: Option<R>, tape: seq<int>, n: nat)
    requires n <= |tape|
    requires BaseRun(f, st, rem, tape[..n]).outcome != Waiting
    ensures BaseRun(f, st, rem, tape) == BaseRun(f, st, rem, tape[..n])
    decreases n
  {
    if n > 0 {
      var reply := f(st, rem, tape[0]);
      assert tape[..n][1..] == tape[1..][..n - 1];
      if reply.Replied? && reply.result >= 0 && reply.remainder.Some? {
        FirstAnswersAgree(f, reply.st, reply.remainder, tape[1..], n - 1);
      }
    }
  }

  /** `event_output` of a byte event, as a run of the plain loop. */
  function Send<S, H, E>(step: Encoder<S, E>, header: H, midiBytes: seq<byte>, o: Output<S, H, E>, tape: seq<int>)
    : Run<Output<S, H, E>, seq<byte>>
  {
    BaseRun(BytesFunc(step, header, midiBytes), o, None, tape)
  }

  /** `event_output` of a byte event with no negative answer submits exactly the fold of its bytes
      from the saved parser state, each byte encoded once and in order, and returns the last answer. */
  lemma OutputConserves<S(!new), H(!new), E(!new)>(step: Encoder<S, E>, header: H, midiBytes: seq<byte>, o: Output<S, H, E>, tape: seq<int>)
    requires var n := Chunks(step, o.parser, midiBytes);
             n <= |tape| && forall i :: 0 <= i < n ==> tape[i] >= 0
    ensures var n := Chunks(step, o.parser, midiBytes);
            var run := Send(step, header, midiBytes, o, tape);
            && |Fold(step, o.parser, midiBytes).1| <= n
            && run == Run(Pass(step, header, o, midiBytes, tape[..n]), None, Returned(tape[n - 1]), n)
            && Accepted(run.st.log) == Accepted(o.log) + Fold(step, o.parser, midiBytes).1
  {
    hide *;
    var n := Chunks(step, o.parser, midiBytes);
    SendDecided(step, header, midiBytes, o, tape, n);
    PassAccepted(step, header, o, midiBytes, tape, n);
  }

  lemma SendDecided<S(!new), H(!new), E(!new)>(step: Encoder<S, E>, header: H, midiBytes: seq<byte>, o: Output<S, H, E>, tape: seq<int>, n: nat)
    requires n == Chunks(step, o.parser, midiBytes) <= |tape|
    requires forall i :: 0 <= i < n ==> tape[i] >= 0
    ensures |Fold(step, o.parser, midiBytes).1| <= n
    ensures Send(step, header, midiBytes, o, tape)
         == Run(Pass(step, header, o, midiBytes, tape[..n]), None, Returned(tape[n - 1]), n)
  {
    var f := BytesFunc<S, H, E>(step, header, midiBytes);
    assert tape[..n][..n] == tape[..n];
    WaitDecided(step, header, midiBytes, o, tape[..n], n);
    BytesTransparent<S, H, E>(step, header, midiBytes);
    NoNegativeAnswerAgrees(f, o, None, tape[..n]);
    FirstAnswersAgree(f, o, None, tape, n);
  }

  lemma BytesTransparent<S(!new), H(!new), E(!new)>(step: Encoder<S, E>, header: H, midiBytes: seq<byte>)
    ensures Transparent(BytesFunc<S, H, E>(step, header, midiBytes))
  {}

  ghost predicate NoNegative(tape: seq<int>) {
    forall i :: 0 <= i < |tape| ==> tape[i] >= 0
  }

  /** The same in terms of the fold alone: with one answer per byte to spare the call always ends. */
  lemma OutputSummary<S(!new), H(!new), E(!new)>(step: Encoder<S, E>, header: H, midiBytes: seq<byte>, o: Output<S, H, E>, tape: seq<int>)
    requires |midiBytes| < |tape| && NoNegative(tape)
    ensures var run := Send(step, header, midiBytes, o, tape);
            && run.outcome.Returned?
            && run.st.parser == Fold(step, o.parser, midiBytes).0
            && Accepted(run.st.log) == Accepted(o.log) + Fold(step, o.parser, midiBytes).1
  {
    OutputConserves(step, header, midiBytes, o, tape);
  }

  /** Sending b1 and then b2 submits the same events and leaves the same parser state as sending
      b1 + b2, wherever the stream is cut. */
  lemma ChunkInvariance<S(!new), H(!new), E(!new)>(step: Encoder<S, E>, header: H, b1: seq<byte>, b2: seq<byte>, o: Output<S, H, E>,
                                 t1: seq<int>, t2: seq<int>, t12: seq<int>)
    requires NoNegative(t1) && NoNegative(t2) && NoNegative(t12)
    requires |b1| < |t1| && |b2| < |t2| && |b1| + |b2| < |t12|
    ensures var r1 := Send(step, header, b1, o, t1);
            var r2 := Send(step, header, b2, r1.st, t2);
            var r12 := Send(step, header, b1 + b2, o, t12);
            && r1.outcome.Returned? && r2.outcome.Returned? && r12.outcome.Returned?
            && r2.st.parser == r12.st.parser
            && Accepted(r2.st.log) == Accepted(r12.st.log)
  {
    var o1 := Send(step, header, b1, o, t1).st;
    OutputSummary(step, header, b1, o, t1);
    OutputSummary(step, header, b2, o1, t2);
    OutputSummary(step, header, b1 + b2, o, t12);
    FoldAppend(step, o.parser, b1, b2);
    AppendAssociates(Accepted(o.log), Fold(step, o.parser, b1).1, Fold(step, o1.parser, b2).1);
  }

  /* ---------- The client object ---------- */

  lemma BaseStep<S, H, E>(step: Encoder<S, E>, header: H, midiBytes: seq<byte>, o: Output<S, H, E>,
                          remainder: Option<seq<byte>>, tape: seq<int>)
    requires tape != []
    ensures var f := BytesFunc(step, header, midiBytes);
            var reply := Chunk(step, header, midiBytes, o, remainder, tape[0]);
            BaseRun(f, o, remainder, tape) ==
            if tape[0] < 0 || reply.remainder.None? then Run(reply.st, reply.remainder, Check(tape[0]), 1)
            else Later(1, BaseRun(f, reply.st, reply.remainder, tape[1..]))
  {}

  /** A run of the plain loop that has used `used` answers and goes on from `o` and `remainder`. */
  ghost predicate Underway<S, H, E>(run: Run<Output<S, H, E>, seq<byte>>, step: Encoder<S, E>, header: H, midiBytes: seq<byte>,
                                    tape: seq<int>, used: nat, o: Output<S, H, E>, remainder: Option<seq<byte>>)
  {
    used <= |tape| && run == Later(used, BaseRun(BytesFunc(step, header, midiBytes), o, remainder, tape[used..]))
  }

  lemma UnderwayStep<S, H, E>(run: Run<Output<S, H, E>, seq<byte>>, step: Encoder<S, E>, header: H, midiBytes: seq<byte>,
                              tape: seq<int>, used: nat, o: Output<S, H, E>, remainder: Option<seq<byte>>)
    requires used < |tape| && Underway(run, step, header, midiBytes, tape, used, o, remainder)
    ensures var reply := Chunk(step, header, midiBytes, o, remainder, tape[used]);
            if tape[used] < 0 || reply.remainder.None?
            then run == Run(reply.st, reply.remainder, Check(tape[used]), used + 1)
            else Underway(run, step, header, midiBytes, tape, used + 1, reply.st, reply.remainder)
  {
    BaseStep(step, header, midiBytes, o, remainder, tape[used..]);
    assert tape[used..][1..] == tape[used + 1..];
  }

  lemma UnderwayEnds<S, H, E>(run: Run<Output<S, H, E>, seq<byte>>, step: Encoder<S, E>, header: H, midiBytes: seq<byte>,
                              tape: seq<int>, o: Output<S, H, E>, remainder: Option<seq<byte>>)
    requires Underway(run, step, header, midiBytes, tape, |tape|, o, remainder)
    ensures run == Run(o, remainder, Waiting, |tape|)
  {}

  /** The outcome without the check of the code, if the last attempt made no submission. */
  function Unchecked(outcome: Outcome, noSubmission: bool): Outcome {
    if noSubmission && outcome.RaisedAlsaError? then Returned(outcome.code) else outcome
  }

  lemma UncheckedCode(code: int)
    ensures Unchecked(Check(code), true) == Returned(code)
  {}

  /** The part of the client that output changes: the saved MIDI parser and what went to ALSA. */
  class OutputClient<!S, !H, !E> {
    const step: Encoder<S, E>
    var parser: S
    var log: seq<Submission<H, E>>

    constructor (step: Encoder<S, E>, parser: S)
      ensures this.step == step && View() == Output(parser, [])
    {
      this.step, this.parser, log := step, parser, [];
    }

    function View(): Output<S, H, E>
      reads this
    {
      Output(parser, log)
    }

    /** The encoder, one byte at a time, up to the byte that finishes an event. */
    method EncodeBytes(bytes: seq<byte>) returns (processed: nat, event: Option<E>)
      modifies this`parser
      ensures Encoded(parser, processed, event) == Encode(step, old(parser), bytes)
    {
      processed, event := 0, None;
      while processed < |bytes| && event.None?
        invariant processed <= |bytes|
        invariant event.Some? ==> Encoded(parser, processed, event) == Encode(step, old(parser), bytes)
        invariant event.None? ==>
                    var r := Encode(step, parser, bytes[processed..]);
                    r.(processed := processed + r.processed) == Encode(step, old(parser), bytes)
      {
        assert bytes[processed..][1..] == bytes[processed + 1..];
        var (state, e) := step(parser, bytes[processed]);
        parser, event, processed := state, e, processed + 1;
      }
      assert event.None? ==> bytes[processed..] == [];
    }

    /** `_prepare_event` and `_event_output`. */
    method EventOutputOnce(header: H, midiBytes: seq<byte>, remainder: Option<seq<byte>>, answer: int)
      returns (rest: Option<seq<byte>>, event: Option<E>)
      modifies this
      ensures Replied(View(), answer, rest) == Chunk(step, header, midiBytes, old(View()), remainder, answer)
      ensures |log| == |old(log)| + if event.Some? then 1 else 0
      ensures event.None? ==> rest.None?
    {
      var bytes := if remainder.None? then midiBytes else remainder.value;
      var processed;
      processed, event := EncodeBytes(bytes);
      if event.Some? {
        log := log + [Submission(header, event.value, answer)];
      }
      rest := if processed < |bytes| then Some(bytes[processed..]) else None;
    }

    /** `event_output`. */
    method EventOutput(header: H, midiBytes: seq<byte>, tape: seq<int>) returns (outcome: Outcome, used: nat)
      modifies this
      ensures var run := Send(step, header, midiBytes, old(View()), tape);
              View() == run.st && outcome == run.outcome && used == run.used
    {
      hide BaseRun, Encode, BytesFunc;
      ghost var run := Send(step, header, midiBytes, View(), tape);
      var remainder: Option<seq<byte>> := None;
      used := 0;
      while used < |tape|
        invariant Underway(run, step, header, midiBytes, tape, used, View(), remainder)
      {
        UnderwayStep(run, step, header, midiBytes, tape, used, View(), remainder);
        var result, event := tape[used], None;
        remainder, event := EventOutputOnce(header, midiBytes, remainder, result);
        used := used + 1;
        if result < 0 {
          return RaisedAlsaError(result), used;
        }
        if remainder.None? {
          return Returned(result), used;
        }
      }
      UnderwayEnds(run, step, header, midiBytes, tape, View(), remainder);
      outcome := Waiting;
    }

    /** `event_output_buffer`: as `event_output`, except that a last chunk without an event returns the
        buffer size unchecked. Such a chunk is the attempt that left no submission. */
    method EventOutputBuffer(header: H, midiBytes: seq<byte>, tape: seq<int>) returns (outcome: Outcome, used: nat)
      modifies this
      ensures var run := Send(step, header, midiBytes, old(View()), tape);
              && View() == run.st && used == run.used
              && outcome == Unchecked(run.outcome, |log| < |old(log)| + used)
    {
      hide BaseRun, Encode, BytesFunc;
      ghost var run := Send(step, header, midiBytes, View(), tape);
      var remainder: Option<seq<byte>> := None;
      used := 0;
      while used < |tape|
        invariant Underway(run, step, header, midiBytes, tape, used, View(), remainder)
        invariant |log| == |old(log)| + used
      {
        UnderwayStep(run, step, header, midiBytes, tape, used, View(), remainder);
        var result, event := tape[used], None;
        remainder, event := EventOutputOnce(header, midiBytes, remainder, result);
        used := used + 1;
        if event.None? {
          UncheckedCode(result);
          return Returned(result), used;
        }
        if result < 0 {
          return RaisedAlsaError(result), used;
        }
        if remainder.None? {
          return Returned(result), used;
        }
      }
      UnderwayEnds(run, step, header, midiBytes, tape, View(), remainder);
      outcome := Waiting;
    }
  }

  /** `_event_output_direct`, which forgets the remainder of an attempt that had an event. */
  function DirectFunc<S, H, E>(step: Encoder<S, E>, header: H, midiBytes: seq<byte>)
    : Func<Output<S, H, E>, seq<byte>>
  {
    (o: Output<S, H, E>, remainder: Option<seq<byte>>, answer: int) =>
      Chunk(step, header, midiBytes, o, remainder, answer).(remainder := None)
  }

  /** The direct form makes one submission at most, the first event of the stream, so it delivers the
      whole stream exactly when there is no second event, and none at all if the answer is negative. */
  lemma DirectSendsFirstEventOnly<S, H, E>(step: Encoder<S, E>, header: H, midiBytes: seq<byte>, o: Output<S, H, E>, tape: seq<int>)
    requires tape != []
    ensures var run := BaseRun(DirectFunc(step, header, midiBytes), o, None, tape);
            var events := Fold(step, o.parser, midiBytes).1;
            && run.outcome == Check(tape[0]) && run.used == 1
            && run.st.parser == Encode(step, o.parser, midiBytes).state
            && Accepted(run.st.log) == Accepted(o.log) + (if events == [] || tape[0] < 0 then [] else [events[0]])
            && (Accepted(run.st.log) == Accepted(o.log) + events <==> |events| <= if tape[0] < 0 then 0 else 1)
            && (tape[0] != EAGAIN ==> run == SyncRun(DirectFunc(step, header, midiBytes), o, None, tape))
  {
    var r := Encode(step, o.parser, midiBytes);
    var events := Fold(step, o.parser, midiBytes).1;
    ChunkThenRest(step, o.parser, midiBytes);
    if r.event.None? {
      assert midiBytes[r.processed..] == [];
    } else {
      var last := [Submission(header, r.event.value, tape[0])];
      AcceptedAppend(o.log, last);
      assert Accepted(last) == if tape[0] < 0 then [] else [r.event.value] by { assert Accepted(last[..0]) == []; }
    }
    assert |Accepted(o.log) + events| == |Accepted(o.log)| + |events|;
  }

  /** The parser state after so many encoder calls, each from the front of the bytes. */
  function DirectParser<S, E>(step: Encoder<S, E>, s: S, midiBytes: seq<byte>, retries: nat): S {
    if retries == 0 then s else DirectParser(step, Encode(step, s, midiBytes).state, midiBytes, retries - 1)
  }

  /** Each EAGAIN makes the waits encode all the bytes again, from the parser state the attempt left. What
      is delivered is the first event of the stream as it is read from the last of those states. */
  lemma {:induction false} DirectAfterRetries<S, H, E>(step: Encoder<S, E>, header: H, midiBytes: seq<byte>, o: Output<S, H, E>,
                                      retries: nat, answer: int, rest: seq<int>)
    requires answer != EAGAIN
    ensures var run := SyncRun(DirectFunc(step, header, midiBytes), o, None, seq(retries, _ => EAGAIN) + ([answer] + rest));
            var s := DirectParser(step, o.parser, midiBytes, retries);
            var events := Fold(step, s, midiBytes).1;
            && run.outcome == Check(answer) && run.used == retries + 1
            && run.st.parser == Encode(step, s, midiBytes).state
            && Accepted(run.st.log) == Accepted(o.log) + (if events == [] || answer < 0 then [] else [events[0]])
    decreases retries
  {
    hide SyncRun, BaseRun, Encode, Fold, Accepted, DirectFunc;
    var tape := seq(retries, _ => EAGAIN) + ([answer] + rest);
    if retries == 0 {
      assert tape == [answer] + rest;
      DirectSendsFirstEventOnly(step, header, midiBytes, o, tape);
    } else {
      var o1 := Chunk(step, header, midiBytes, o, None, EAGAIN).st;
      RejectedAttempt(step, header, midiBytes, o);
      DirectAfterRetries(step, header, midiBytes, o1, retries - 1, answer, rest);
      DirectRetry(step, header, midiBytes, o, tape);
      assert tape[1..] == seq(retries - 1, _ => EAGAIN) + ([answer] + rest);
    }
  }

  /** A byte event that takes one encoder call from each parser state its retries reach. */
  ghost predicate OneCallEach<S(!new), E(!new)>(step: Encoder<S, E>, s: S, midiBytes: seq<byte>, retries: nat) {
    forall i :: 0 <= i <= retries ==> Chunks(step, DirectParser(step, s, midiBytes, i), midiBytes) == 1
  }

  /** The ordinary retry of a byte event of one message: after any number of EAGAIN answers the event read
      from the parser state then reached is accepted exactly once, or not at all if that answer is an
      error. */
  lemma {:induction false} OneMessageAcceptedOnce<S(!new), H, E(!new)>(step: Encoder<S, E>, header: H, midiBytes: seq<byte>, o: Output<S, H, E>,
                                          retries: nat, answer: int, rest: seq<int>)
    requires answer != EAGAIN && OneCallEach(step, o.parser, midiBytes, retries)
    ensures var run := SyncRun(BytesFunc(step, header, midiBytes), o, None, seq(retries, _ => EAGAIN) + ([answer] + rest));
            var s := DirectParser(step, o.parser, midiBytes, retries);
            var events := Fold(step, s, midiBytes).1;
            && |events| <= 1
            && run.outcome == Check(answer) && run.used == retries + 1
            && run.st.parser == Fold(step, s, midiBytes).0
            && Accepted(run.st.log) == Accepted(o.log) + if answer >= 0 then events else []
    decreases retries
  {
    hide SyncRun, Encode, Fold, Accepted, BytesFunc, Chunks;
    var tape := seq(retries, _ => EAGAIN) + ([answer] + rest);
    assert Chunks(step, DirectParser(step, o.parser, midiBytes, 0), midiBytes) == 1;
    if retries == 0 {
      assert tape == [answer] + rest;
      OneMessageDecided(step, header, midiBytes, o, tape);
    } else {
      var o1 := Chunk(step, header, midiBytes, o, None, EAGAIN).st;
      RejectedAttempt(step, header, midiBytes, o);
      forall i | 0 <= i <= retries - 1
        ensures Chunks(step, DirectParser(step, o1.parser, midiBytes, i), midiBytes) == 1
      {
        assert Chunks(step, DirectParser(step, o.parser, midiBytes, i + 1), midiBytes) == 1;
      }
      OneMessageAcceptedOnce(step, header, midiBytes, o1, retries - 1, answer, rest);
      OneMessageRetry(step, header, midiBytes, o, tape);
      assert tape[1..] == seq(retries - 1, _ => EAGAIN) + ([answer] + rest);
    }
  }

  lemma OneMessageDecided<S, H, E>(step: Encoder<S, E>, header: H, midiBytes: seq<byte>, o: Output<S, H, E>, tape: seq<int>)
    requires Chunks(step, o.parser, midiBytes) == 1 && tape != [] && tape[0] != EAGAIN
    ensures var run := SyncRun(BytesFunc(step, header, midiBytes), o, None, tape);
            var (s, events) := Fold(step, o.parser, midiBytes);
            && |events| <= 1
            && run.outcome == Check(tape[0]) && run.used == 1 && run.st.parser == s
            && Accepted(run.st.log) == Accepted(o.log) + if tape[0] >= 0 then events else []
  {
    hide SyncRun, Encode, Fold, Accepted, Kept, BytesFunc;
    var events := Fold(step, o.parser, midiBytes).1;
    WaitDecided(step, header, midiBytes, o, tape, 1);
    PassDelivers(step, header, midiBytes, o, tape, 1);
    KeptOfOne(events, tape);
  }

  lemma KeptOfOne<E>(events: seq<E>, answers: seq<int>)
    requires |events| <= 1 <= |answers|
    ensures Kept(events, answers) == if answers[0] >= 0 then events else []
  {}

  lemma OneMessageRetry<S, H, E>(step: Encoder<S, E>, header: H, midiBytes: seq<byte>, o: Output<S, H, E>, tape: seq<int>)
    requires Chunks(step, o.parser, midiBytes) == 1 && tape != [] && tape[0] == EAGAIN
    ensures var f := BytesFunc<S, H, E>(step, header, midiBytes);
            SyncRun(f, o, None, tape)
            == Later(1, SyncRun(f, Chunk(step, header, midiBytes, o, None, EAGAIN).st, None, tape[1..]))
  {
    SyncStep(step, header, midiBytes, o, None, tape);
  }

  lemma RejectedAttempt<S, H, E>(step: Encoder<S, E>, header: H, midiBytes: seq<byte>, o: Output<S, H, E>)
    ensures var o1 := Chunk(step, header, midiBytes, o, None, EAGAIN).st;
            Accepted(o1.log) == Accepted(o.log) && o1.parser == Encode(step, o.parser, midiBytes).state
  {
    var r := Encode(step, o.parser, midiBytes);
    if r.event.Some? {
      var last := [Submission(header, r.event.value, EAGAIN)];
      AcceptedAppend(o.log, last);
      assert Accepted(last) == [] by { assert Accepted(last[..0]) == []; }
    }
  }

  lemma DirectRetry<S, H, E>(step: Encoder<S, E>, header: H, midiBytes: seq<byte>, o: Output<S, H, E>, tape: seq<int>)
    requires tape != [] && tape[0] == EAGAIN
    ensures var f := DirectFunc<S, H, E>(step, header, midiBytes);
            SyncRun(f, o, None, tape)
            == Later(1, SyncRun(f, Chunk(step, header, midiBytes, o, None, EAGAIN).st, None, tape[1..]))
  {
    hide Encode;
  }

  /* ---------- Events that are not byte streams ---------- */

  /** After any number of EAGAIN answers an ordinary event is decided by the first other answer:
      every attempt submits the same struct, and the event is accepted exactly once or not at all. */
  lemma {:induction false} StructExactlyOnce<S, H, E>(header: H, event: E, o: Output<S, H, E>, retries: nat, answer: int, rest: seq<int>)
    requires answer != EAGAIN
    ensures var tape := seq(retries, _ => EAGAIN) + [answer] + rest;
            SyncRun(StructFunc(header, event), o, None, tape) ==
            Run(Output(o.parser, o.log + seq(retries, _ => Submission(header, event, EAGAIN))
                                       + [Submission(header, event, answer)]),
                None, Check(answer), retries + 1)
    decreases retries
  {
    var f := StructFunc<S, H, E>(header, event);
    var tape := seq(retries, _ => EAGAIN) + [answer] + rest;
    if retries == 0 {
      assert tape == [answer] + rest;
      assert o.log + seq(0, _ => Submission(header, event, EAGAIN)) == o.log;
    } else {
      assert tape[1..] == seq(retries - 1, _ => EAGAIN) + [answer] + rest;
      var o1 := Output(o.parser, o.log + [Submission(header, event, EAGAIN)]);
      StructExactlyOnce(header, event, o1, retries - 1, answer, rest);
      assert [Submission(header, event, EAGAIN)] + seq(retries - 1, _ => Submission(header, event, EAGAIN))
          == seq(retries, _ => Submission(header, event, EAGAIN));
      assert o1.log + seq(retries - 1, _ => Submission(header, event, EAGAIN))
          == o.log + seq(retries, _ => Submission(header, event, EAGAIN));
    }
  }

  lemma {:induction false} RejectedRetries<H, E>(header: H, event: E, retries: nat)
    ensures Accepted(seq(retries, _ => Submission(header, event, EAGAIN))) == []
  {
    var log := seq(retries, _ => Submission(header, event, EAGAIN));
    if retries > 0 {
      assert log[..retries - 1] == seq(retries - 1, _ => Submission(header, event, EAGAIN));
      RejectedRetries(header, event, retries - 1);
    }
  }

  lemma StructAcceptedOnce<S, H, E>(header: H, event: E, o: Output<S, H, E>, retries: nat, answer: int, rest: seq<int>)
    requires answer != EAGAIN
    ensures var run := SyncRun(StructFunc(header, event), o, None, seq(retries, _ => EAGAIN) + [answer] + rest);
            Accepted(run.st.log) == Accepted(o.log) + if answer >= 0 then [event] else []
  {
    StructExactlyOnce(header, event, o, retries, answer, rest);
    var again := seq(retries, _ => Submission(header, event, EAGAIN));
    var last := [Submission(header, event, answer)];
    AcceptedAppend(o.log + again, last);
    AcceptedAppend(o.log, again);
    RejectedRetries(header, event, retries);
    assert last[..0] == [];
  }

  /** The callback based wait makes the same attempts with the same result. */
  lemma StructExactlyOnceAsync<S, H, E>(header: H, event: E, o: Output<S, H, E>, retries: nat, answer: int, rest: seq<int>)
    requires answer != EAGAIN
    ensures var tape := seq(retries, _ => EAGAIN) + [answer] + rest;
            var (o1, remainder, outcome) := AsyncRun(StructFunc(header, event), o, tape);
            && o1 == Output(o.parser, o.log + seq(retries, _ => Submission(header, event, EAGAIN))
                                            + [Submission(header, event, answer)])
            && remainder == None && outcome == Check(answer)
            && Accepted(o1.log) == Accepted(o.log) + if answer >= 0 then [event] else []
  {
    hide SyncRun, AsyncRun, Accepted;
    var tape := seq(retries, _ => EAGAIN) + [answer] + rest;
    AsyncRefinesSync(StructFunc<S, H, E>(header, event), o, tape);
    StructExactlyOnce(header, event, o, retries, answer, rest);
    StructAcceptedOnce(header, event, o, retries, answer, rest);
  }

  /* ---------- Where exactly-once fails ---------- */

  /** An encoder for which every byte is an event. */
  function ByteIsEvent(s: int, b: byte): (int, Option<int>) { (s, Some(b)) }

  /** Two bytes, hence two chunks: what one pass over them does. */
  lemma TwoByteEvents(log: seq<Submission<int, int>>, a: int, b: int, rest: seq<int>)
    ensures var f := BytesFunc<int, int, int>(ByteIsEvent, 0, [1, 2]);
            var log1 := log + [Submission(0, 1, a)] + [Submission(0, 2, b)];
            && SyncRun(f, Output(0, log), None, [a, b] + rest) ==
               (if b == EAGAIN then Later(2, SyncRun(f, Output(0, log1), None, rest))
                else Run(Output(0, log1), None, Check(b), 2))
            && Accepted(log1) == Accepted(log) + (if a >= 0 then [1] else []) + (if b >= 0 then [2] else [])
  {
    var tape := [a, b] + rest;
    assert Chunks(ByteIsEvent, 0, [1, 2]) == 2 by { assert [1, 2][1..] == [2]; }
    assert Fold(ByteIsEvent, 0, [1, 2]) == (0, [1, 2]) by {
      assert [1, 2][1..] == [2];
      assert Fold(ByteIsEvent, 0, [2][1..]) == (0, []);
      assert Prepend(Some(1), Prepend(Some(2), [])) == [1, 2];
    }
    WaitPass(ByteIsEvent, 0, [1, 2], Output(0, log), None, tape);
    var log1 := log + [Submission(0, 1, a)] + [Submission(0, 2, b)];
    assert log + Answered(0, [1, 2], tape[..2]) == log1;
    assert tape[2..] == rest;
    assert log1[..|log1| - 1] == log + [Submission(0, 1, a)];
    assert log1[..|log1| - 1][..|log|] == log;
  }

  /** Any negative answer in the middle of a two event stream loses the first event although the call
      returns normally. */
  lemma ErrorInTheMiddleLoses(a: int, b: int)
    requires a < 0 <= b
    ensures var run := SyncRun(BytesFunc<int, int, int>(ByteIsEvent, 0, [1, 2]), Output(0, []), None, [a, b]);
            run.outcome == Returned(b) && Accepted(run.st.log) == [2]
  {
    TwoByteEvents([], a, b, []);
    assert [a, b] + [] == [a, b];
  }

  /** EAGAIN at the end of the stream sends the first event twice. */
  lemma EagainAtTheEndRepeats(a: int, c: int, d: int)
    requires a >= 0 && c >= 0 && d >= 0
    ensures var run := SyncRun(BytesFunc<int, int, int>(ByteIsEvent, 0, [1, 2]), Output(0, []), None, [a, EAGAIN] + [c, d]);
            run.outcome == Returned(d) && Accepted(run.st.log) == [1, 1, 2]
  {
    var log := [] + [Submission(0, 1, a)] + [Submission(0, 2, EAGAIN)];
    TwoByteEvents([], a, EAGAIN, [c, d]);
    TwoByteEvents(log, c, d, []);
    assert [c, d] + [] == [c, d];
    assert Accepted(log) == [1];
  }

  /** The callback based wait loses and repeats the same events. */
  lemma AsyncLosesAndRepeats(a: int, b: int, c: int, d: int)
    ensures var f := BytesFunc<int, int, int>(ByteIsEvent, 0, [1, 2]);
            && (a < 0 <= b ==>
                  var (o, _, outcome) := AsyncRun(f, Output(0, []), [a, b]);
                  outcome == Returned(b) && Accepted(o.log) == [2])
            && (a >= 0 && c >= 0 && d >= 0 ==>
                  var (o, _, outcome) := AsyncRun(f, Output(0, []), [a, EAGAIN] + [c, d]);
                  outcome == Returned(d) && Accepted(o.log) == [1, 1, 2])
  {
    hide *;
    var f := BytesFunc<int, int, int>(ByteIsEvent, 0, [1, 2]);
    AsyncRefinesSync(f, Output(0, []), [a, b]);
    AsyncRefinesSync(f, Output(0, []), [a, EAGAIN] + [c, d]);
    if a < 0 <= b { ErrorInTheMiddleLoses(a, b); }
    if a >= 0 && c >= 0 && d >= 0 { EagainAtTheEndRepeats(a, c, d); }
  }
}
