/** The MIDI encoder belongs to the client, so an output call of another task moves the parser state
    between two attempts of a byte event. When does that show in what the event's own call does? */
module SharedParser {
  import opened Base
  import opened Bytes
  import opened Kernel
  import opened OutputWait
  import opened ByteOutput
  import AsyncClient
  import opened AsyncOutput

  /** The same outcome after the same number of attempts, and the same submissions so far. */
  predicate SameRun<S(==), H(==), E(==)>(a: Run<Output<S, H, E>, seq<byte>>, b: Run<Output<S, H, E>, seq<byte>>) {
    a.outcome == b.outcome && a.used == b.used && a.st.log == b.st.log
  }

  /** No answers tell the two states apart: from either, what is left of the byte event is submitted
      alike. */
  ghost predicate Indistinguishable<S(!new), H, E(!new)>(step: Encoder<S, E>, header: H, midiBytes: seq<byte>, remainder: Option<seq<byte>>,
                                            o: Output<S, H, E>, p: Output<S, H, E>)
  {
    var f := BytesFunc<S, H, E>(step, header, midiBytes);
    forall tape :: SameRun(SyncRun(f, o, remainder, tape), SyncRun(f, p, remainder, tape))
  }

  /** The pass over what is left and `retries` more passes over all the bytes: the last of them folds to
      the same events in the same number of encoder calls from either parser state. */
  ghost predicate PassAgrees<S, E>(step: Encoder<S, E>, s: S, t: S, midiBytes: seq<byte>, remainder: Option<seq<byte>>, retries: nat)
    decreases retries
  {
    var bytes := Todo(midiBytes, remainder);
    if retries == 0 then
      && Fold(step, s, bytes).1 == Fold(step, t, bytes).1
      && Chunks(step, s, bytes) == Chunks(step, t, bytes)
    else
      PassAgrees(step, Fold(step, s, bytes).0, Fold(step, t, bytes).0, midiBytes, None, retries - 1)
  }

  ghost predicate AllPassesAgree<S(!new), E(!new)>(step: Encoder<S, E>, s: S, t: S, midiBytes: seq<byte>, remainder: Option<seq<byte>>) {
    forall retries: nat :: PassAgrees(step, s, t, midiBytes, remainder, retries)
  }

  lemma AgreeAfterPass<S(!new), E(!new)>(step: Encoder<S, E>, s: S, t: S, midiBytes: seq<byte>, remainder: Option<seq<byte>>)
    requires AllPassesAgree(step, s, t, midiBytes, remainder)
    ensures var bytes := Todo(midiBytes, remainder);
            && Fold(step, s, bytes).1 == Fold(step, t, bytes).1
            && Chunks(step, s, bytes) == Chunks(step, t, bytes)
            && AllPassesAgree(step, Fold(step, s, bytes).0, Fold(step, t, bytes).0, midiBytes, None)
  {
    hide Fold, Chunks;
    var bytes := Todo(midiBytes, remainder);
    assert PassAgrees(step, s, t, midiBytes, remainder, 0);
    forall retries: nat
      ensures PassAgrees(step, Fold(step, s, bytes).0, Fold(step, t, bytes).0, midiBytes, None, retries)
    {
      assert PassAgrees(step, s, t, midiBytes, remainder, retries + 1);
    }
  }

  /** The submissions and the end of one pass that the tape gets through. */
  lemma OnePass<S, H, E>(step: Encoder<S, E>, header: H, midiBytes: seq<byte>, remainder: Option<seq<byte>>, o: Output<S, H, E>, tape: seq<int>)
    returns (o1: Output<S, H, E>)
    requires Chunks(step, o.parser, Todo(midiBytes, remainder)) <= |tape|
    ensures var f := BytesFunc<S, H, E>(step, header, midiBytes);
            var bytes := Todo(midiBytes, remainder);
            var n := Chunks(step, o.parser, bytes);
            var (s, events) := Fold(step, o.parser, bytes);
            && |events| <= n
            && o1 == Output(s, o.log + Answered(header, events, tape))
            && SyncRun(f, o, remainder, tape) ==
               if tape[n - 1] == EAGAIN then Later(n, SyncRun(f, o1, None, tape[n..]))
               else Run(o1, None, Check(tape[n - 1]), n)
  {
    hide SyncRun, Fold, Chunks, BytesFunc;
    var bytes := Todo(midiBytes, remainder);
    var n := Chunks(step, o.parser, bytes);
    WaitPass(step, header, midiBytes, o, remainder, tape);
    o1 := Pass(step, header, o, bytes, tape[..n]);
    assert Answered(header, Fold(step, o.parser, bytes).1, tape[..n]) == Answered(header, Fold(step, o.parser, bytes).1, tape);
  }

  lemma {:induction false} AgreementSuffices<S(!new), H, E(!new)>(step: Encoder<S, E>, header: H, midiBytes: seq<byte>, remainder: Option<seq<byte>>,
                                     o: Output<S, H, E>, p: Output<S, H, E>, tape: seq<int>)
    requires o.log == p.log && AllPassesAgree(step, o.parser, p.parser, midiBytes, remainder)
    ensures var f := BytesFunc<S, H, E>(step, header, midiBytes);
            SameRun(SyncRun(f, o, remainder, tape), SyncRun(f, p, remainder, tape))
    decreases |tape|
  {
    hide SyncRun, Fold, Chunks, BytesFunc, AllPassesAgree;
    var n := Chunks(step, o.parser, Todo(midiBytes, remainder));
    AgreeAfterPass(step, o.parser, p.parser, midiBytes, remainder);
    if |tape| < n {
      TapeInsideAPass(step, header, midiBytes, o, remainder, tape);
      TapeInsideAPass(step, header, midiBytes, p, remainder, tape);
    } else {
      var o1 := OnePass(step, header, midiBytes, remainder, o, tape);
      var p1 := OnePass(step, header, midiBytes, remainder, p, tape);
      if tape[n - 1] == EAGAIN {
        AgreementSuffices(step, header, midiBytes, None, o1, p1, tape[n..]);
      }
    }
  }

  lemma AnsweredInjective<H, E>(header: H, a: seq<E>, b: seq<E>, answers: seq<int>)
    requires |a| <= |answers| && |b| <= |answers| && Answered(header, a, answers) == Answered(header, b, answers)
    ensures a == b
  {
    assert |Answered(header, a, answers)| == |a| && |Answered(header, b, answers)| == |b|;
    forall i | 0 <= i < |a|
      ensures a[i] == b[i]
    {
      assert Answered(header, a, answers)[i].event == a[i] && Answered(header, b, answers)[i].event == b[i];
    }
  }

  lemma CancelPrefix<T>(before: seq<T>, a: seq<T>, b: seq<T>)
    requires before + a == before + b
    ensures a == b
  {
    assert (before + a)[|before|..] == a && (before + b)[|before|..] == b;
  }

  lemma FirstPassAgrees<S(!new), H, E(!new)>(step: Encoder<S, E>, header: H, midiBytes: seq<byte>, remainder: Option<seq<byte>>,
                                  o: Output<S, H, E>, p: Output<S, H, E>)
    requires o.log == p.log && Indistinguishable(step, header, midiBytes, remainder, o, p)
    ensures PassAgrees(step, o.parser, p.parser, midiBytes, remainder, 0)
  {
    hide SyncRun, Fold, Chunks, BytesFunc;
    var bytes := Todo(midiBytes, remainder);
    var n, m := Chunks(step, o.parser, bytes), Chunks(step, p.parser, bytes);
    var tape := seq(n + m, _ => 0);
    var o1 := OnePass(step, header, midiBytes, remainder, o, tape);
    var p1 := OnePass(step, header, midiBytes, remainder, p, tape);
    var f := BytesFunc<S, H, E>(step, header, midiBytes);
    assert SameRun(SyncRun(f, o, remainder, tape), SyncRun(f, p, remainder, tape));
    var a, b := Fold(step, o.parser, bytes).1, Fold(step, p.parser, bytes).1;
    CancelPrefix(o.log, Answered(header, a, tape), Answered(header, b, tape));
    AnsweredInjective(header, a, b, tape);
  }

  /** A retry brings both runs to the next pass, still without a difference. */
  lemma StillIndistinguishable<S(!new), H, E(!new)>(step: Encoder<S, E>, header: H, midiBytes: seq<byte>, remainder: Option<seq<byte>>,
                                      o: Output<S, H, E>, p: Output<S, H, E>)
    returns (o1: Output<S, H, E>, p1: Output<S, H, E>)
    requires o.log == p.log && Indistinguishable(step, header, midiBytes, remainder, o, p)
    ensures var bytes := Todo(midiBytes, remainder);
            o1.parser == Fold(step, o.parser, bytes).0 && p1.parser == Fold(step, p.parser, bytes).0
    ensures o1.log == p1.log && Indistinguishable(step, header, midiBytes, None, o1, p1)
  {
    hide SyncRun, Fold, Chunks, BytesFunc;
    FirstPassAgrees(step, header, midiBytes, remainder, o, p);
    var n := Chunks(step, o.parser, Todo(midiBytes, remainder));
    var retry := seq(n, _ => EAGAIN);
    o1 := OnePass(step, header, midiBytes, remainder, o, retry);
    p1 := OnePass(step, header, midiBytes, remainder, p, retry);
    var f := BytesFunc<S, H, E>(step, header, midiBytes);
    forall tape: seq<int>
      ensures SameRun(SyncRun(f, o1, None, tape), SyncRun(f, p1, None, tape))
    {
      var o2 := OnePass(step, header, midiBytes, remainder, o, retry + tape);
      var p2 := OnePass(step, header, midiBytes, remainder, p, retry + tape);
      AnsweredPrefix(header, Fold(step, o.parser, Todo(midiBytes, remainder)).1, retry, tape);
      assert (retry + tape)[n..] == tape;
      assert SameRun(SyncRun(f, o, remainder, retry + tape), SyncRun(f, p, remainder, retry + tape));
    }
  }

  lemma AnsweredPrefix<H, E>(header: H, events: seq<E>, answers: seq<int>, more: seq<int>)
    requires |events| <= |answers|
    ensures Answered(header, events, answers + more) == Answered(header, events, answers)
  {}

  lemma {:induction false} AgreementNeeded<S(!new), H, E(!new)>(step: Encoder<S, E>, header: H, midiBytes: seq<byte>, remainder: Option<seq<byte>>,
                                   o: Output<S, H, E>, p: Output<S, H, E>, retries: nat)
    requires o.log == p.log && Indistinguishable(step, header, midiBytes, remainder, o, p)
    ensures PassAgrees(step, o.parser, p.parser, midiBytes, remainder, retries)
    decreases retries
  {
    if retries == 0 {
      FirstPassAgrees(step, header, midiBytes, remainder, o, p);
    } else {
      var o1, p1 := StillIndistinguishable(step, header, midiBytes, remainder, o, p);
      AgreementNeeded(step, header, midiBytes, None, o1, p1, retries - 1);
    }
  }

  /** What a byte event has submitted before, and what others have, plays no part in its run. */
  lemma {:induction false} LogPlaysNoPart<S, H, E>(step: Encoder<S, E>, header: H, midiBytes: seq<byte>, remainder: Option<seq<byte>>,
                                  o: Output<S, H, E>, tape: seq<int>)
    ensures var f := BytesFunc<S, H, E>(step, header, midiBytes);
            var own := SyncRun(f, Output(o.parser, []), remainder, tape);
            SyncRun(f, o, remainder, tape) == own.(st := Output(own.st.parser, o.log + own.st.log))
    decreases |tape|
  {
    if tape == [] {
      assert o.log + [] == o.log;
    } else {
      var f := BytesFunc<S, H, E>(step, header, midiBytes);
      var bare: Output<S, H, E> := Output(o.parser, []);
      var a := Chunk(step, header, midiBytes, o, remainder, tape[0]);
      var b := Chunk(step, header, midiBytes, bare, remainder, tape[0]);
      SyncStep(step, header, midiBytes, o, remainder, tape);
      SyncStep(step, header, midiBytes, bare, remainder, tape);
      hide SyncRun, Encode;
      assert a.st.log == o.log + b.st.log && a.st.parser == b.st.parser && a.remainder == b.remainder;
      LogPlaysNoPart(step, header, midiBytes, a.remainder, a.st, tape[1..]);
      LogPlaysNoPart(step, header, midiBytes, a.remainder, b.st, tape[1..]);
      AppendAssociates(o.log, b.st.log, SyncRun(f, Output(a.st.parser, []), a.remainder, tape[1..]).st.log);
    }
  }

  /** The run of what is left of a byte event, as far as it is its own. */
  function OwnRun<S, H, E>(step: Encoder<S, E>, header: H, midiBytes: seq<byte>, remainder: Option<seq<byte>>, s: S, tape: seq<int>)
    : Run<Output<S, H, E>, seq<byte>>
  {
    SyncRun(BytesFunc(step, header, midiBytes), Output(s, []), remainder, tape)
  }

  /** Others that leave the parser in state `t` instead of `s` go unnoticed by a byte event, whatever ALSA
      answers from there on, if and only if what is left of it, and then all of it once for each retry,
      folds from either state to the same events in the same number of encoder calls. */
  lemma DisturbanceUnnoticedIff<S(!new), H, E(!new)>(step: Encoder<S, E>, header: H, midiBytes: seq<byte>, remainder: Option<seq<byte>>, s: S, t: S)
    ensures (forall tape :: SameRun(OwnRun(step, header, midiBytes, remainder, s, tape), OwnRun(step, header, midiBytes, remainder, t, tape)))
            <==> AllPassesAgree(step, s, t, midiBytes, remainder)
  {
    hide SyncRun, BytesFunc, PassAgrees;
    var o: Output<S, H, E>, p: Output<S, H, E> := Output(s, []), Output(t, []);
    if AllPassesAgree(step, s, t, midiBytes, remainder) {
      forall tape: seq<int>
        ensures SameRun(OwnRun(step, header, midiBytes, remainder, s, tape), OwnRun(step, header, midiBytes, remainder, t, tape))
      {
        AgreementSuffices(step, header, midiBytes, remainder, o, p, tape);
      }
    }
    if forall tape :: SameRun(OwnRun(step, header, midiBytes, remainder, s, tape), OwnRun(step, header, midiBytes, remainder, t, tape)) {
      OwnRunsTellNothing(step, header, midiBytes, remainder, s, t);
      forall retries: nat
        ensures PassAgrees(step, s, t, midiBytes, remainder, retries)
      {
        AgreementNeeded(step, header, midiBytes, remainder, o, p, retries);
      }
    }
  }

  lemma OwnRunsTellNothing<S(!new), H, E(!new)>(step: Encoder<S, E>, header: H, midiBytes: seq<byte>, remainder: Option<seq<byte>>, s: S, t: S)
    requires forall tape :: SameRun<S, H, E>(OwnRun(step, header, midiBytes, remainder, s, tape), OwnRun(step, header, midiBytes, remainder, t, tape))
    ensures Indistinguishable<S, H, E>(step, header, midiBytes, remainder, Output(s, []), Output(t, []))
  {
    hide SyncRun, BytesFunc;
    var f := BytesFunc<S, H, E>(step, header, midiBytes);
    forall tape: seq<int>
      ensures SameRun(SyncRun(f, Output(s, []), remainder, tape), SyncRun(f, Output(t, []), remainder, tape))
    {
      assert SameRun(OwnRun(step, header, midiBytes, remainder, s, tape), OwnRun(step, header, midiBytes, remainder, t, tape));
    }
  }

  /* ---------- In the event loop ---------- */

  type ByteTurn<E, !S, !H, !V> = Turn<E, Output<S, H, V>, seq<byte>>

  /** Turns in which the callback runs and nobody else touches the output. */
  predicate Quiet<E, S, H, V>(turns: seq<ByteTurn<E, S, H, V>>) {
    forall i :: 0 <= i < |turns| ==> turns[i].Callback? || turns[i].Elsewhere?
  }

  lemma {:induction false} QuietTurnsAreSync<E, S, H, V>(f: Func<Output<S, H, V>, seq<byte>>, o: Output<S, H, V>, remainder: Option<seq<byte>>,
                                    turns: seq<ByteTurn<E, S, H, V>>)
    requires Quiet(turns)
    ensures SharedRun(f, o, remainder, turns) == SyncRun(f, o, remainder, Answers(turns))
    decreases |turns|
  {
    if |turns| > 0 {
      var rest := turns[1..];
      if turns[0].Callback? {
        assert Answers(turns) == [turns[0].answer] + Answers(rest);
        var reply := f(o, remainder, turns[0].answer);
        if reply.Replied? {
          QuietTurnsAreSync(f, reply.st, reply.remainder, rest);
        }
      } else {
        assert Answers(turns) == Answers(rest);
        QuietTurnsAreSync(f, o, remainder, rest);
      }
    }
  }

  function Served<E, S, H, V>(tape: seq<int>): (turns: seq<ByteTurn<E, S, H, V>>)
    ensures |turns| == |tape| && Quiet(turns)
  {
    seq(|tape|, i requires 0 <= i < |tape| => Callback(Oracle(None, Decoded), tape[i]))
  }

  lemma {:induction false} ServedAnswers<E, S, H, V>(tape: seq<int>)
    ensures Answers(Served<E, S, H, V>(tape)) == tape
  {
    if tape != [] {
      assert Served<E, S, H, V>(tape)[1..] == Served<E, S, H, V>(tape[1..]);
      ServedAnswers<E, S, H, V>(tape[1..]);
    }
  }

  /** Two runs from different logs that end alike and add the same submissions. */
  ghost predicate AddsTheSame<S, H(!new), E(!new)>(a: Run<Output<S, H, E>, seq<byte>>, before: seq<Submission<H, E>>,
                                       b: Run<Output<S, H, E>, seq<byte>>, before': seq<Submission<H, E>>)
  {
    && a.outcome == b.outcome && a.used == b.used
    && exists own :: a.st.log == before + own && b.st.log == before' + own
  }

  /** The run of a waiting byte event when others make the turn `d` first, against its run without it. */
  ghost predicate Unnoticed<E(!new), S, H(!new), V(!new)>(step: Encoder<S, V>, header: H, midiBytes: seq<byte>, remainder: Option<seq<byte>>,
                                         o: Output<S, H, V>, d: ByteTurn<E, S, H, V>, turns: seq<ByteTurn<E, S, H, V>>)
  {
    var f := BytesFunc<S, H, V>(step, header, midiBytes);
    AddsTheSame(SharedRun(f, o, remainder, turns), o.log, SharedRun(f, o, remainder, [d] + turns), Left(o, d).log)
  }

  lemma UnnoticedMeans<E(!new), S(!new), H(!new), V(!new)>(step: Encoder<S, V>, header: H, midiBytes: seq<byte>, remainder: Option<seq<byte>>,
                                         o: Output<S, H, V>, d: ByteTurn<E, S, H, V>, turns: seq<ByteTurn<E, S, H, V>>)
    requires !d.Callback? && Quiet(turns)
    ensures Unnoticed(step, header, midiBytes, remainder, o, d, turns)
            <==> SameRun(OwnRun(step, header, midiBytes, remainder, o.parser, Answers(turns)),
                         OwnRun(step, header, midiBytes, remainder, Left(o, d).parser, Answers(turns)))
  {
    var f := BytesFunc<S, H, V>(step, header, midiBytes);
    var p, tape := Left(o, d), Answers(turns);
    assert ([d] + turns)[1..] == turns;
    assert SharedRun(f, o, remainder, [d] + turns) == SharedRun(f, p, remainder, turns);
    hide SharedRun, SyncRun, BytesFunc, Quiet;
    QuietTurnsAreSync(f, o, remainder, turns);
    QuietTurnsAreSync(f, p, remainder, turns);
    LogPlaysNoPart(step, header, midiBytes, remainder, o, tape);
    LogPlaysNoPart(step, header, midiBytes, remainder, p, tape);
    var a := OwnRun(step, header, midiBytes, remainder, o.parser, tape).st.log;
    var b := OwnRun(step, header, midiBytes, remainder, p.parser, tape).st.log;
    if own :| o.log + a == o.log + own && p.log + b == p.log + own {
      CancelPrefix(o.log, a, own);
      CancelPrefix(p.log, b, own);
    }
  }

  /** The waiting byte event does not notice a turn of others, however the loop serves it after that, if and
      only if what is left of it, and all of it in each retry, folds to the same events in the same number
      of encoder calls from the parser state the others found and from the one they left. */
  lemma OthersUnnoticedIff<E(!new), S(!new), H(!new), V(!new)>(step: Encoder<S, V>, header: H, midiBytes: seq<byte>, remainder: Option<seq<byte>>,
                                         o: Output<S, H, V>, d: ByteTurn<E, S, H, V>)
    requires !d.Callback?
    ensures (forall turns | Quiet(turns) :: Unnoticed(step, header, midiBytes, remainder, o, d, turns))
            <==> AllPassesAgree(step, o.parser, Left(o, d).parser, midiBytes, remainder)
  {
    hide OwnRun, AllPassesAgree, Unnoticed, SameRun, Left, Quiet;
    var s, t := o.parser, Left(o, d).parser;
    DisturbanceUnnoticedIff(step, header, midiBytes, remainder, s, t);
    if AllPassesAgree(step, s, t, midiBytes, remainder) {
      forall turns: seq<ByteTurn<E, S, H, V>> | Quiet(turns)
        ensures Unnoticed(step, header, midiBytes, remainder, o, d, turns)
      {
        UnnoticedMeans(step, header, midiBytes, remainder, o, d, turns);
        assert SameRun(OwnRun(step, header, midiBytes, remainder, s, Answers(turns)), OwnRun(step, header, midiBytes, remainder, t, Answers(turns)));
      }
    }
    if forall turns: seq<ByteTurn<E, S, H, V>> | Quiet(turns) :: Unnoticed(step, header, midiBytes, remainder, o, d, turns) {
      forall tape: seq<int>
        ensures SameRun(OwnRun(step, header, midiBytes, remainder, s, tape), OwnRun(step, header, midiBytes, remainder, t, tape))
      {
        var turns := Served<E, S, H, V>(tape);
        ServedAnswers<E, S, H, V>(tape);
        UnnoticedMeans(step, header, midiBytes, remainder, o, d, turns);
      }
    }
  }

  /* ---------- It does show ---------- */

  /** An encoder for which every byte is an event until byte 9 comes, and none after it. */
  function UntilNine(s: int, b: byte): (int, Option<int>) {
    if s == 0 && b != 9 then (0, Some(b)) else (1, None)
  }

  lemma UntilNineFacts()
    ensures Encode(UntilNine, 0, [1, 2, 3]) == Encoded(0, 1, Some(1))
    ensures Encode(UntilNine, 0, [2, 3]) == Encoded(0, 1, Some(2))
    ensures Encode(UntilNine, 0, [3]) == Encoded(0, 1, Some(3))
    ensures Encode(UntilNine, 0, [9]) == Encoded(1, 1, None)
    ensures Encode(UntilNine, 1, [2, 3]) == Encoded(1, 2, None)
  {
    assert [9][1..] == [] && [2, 3][1..] == [3] && [3][1..] == [];
    assert Encode(UntilNine, 1, [3]) == Encoded(1, 1, None);
  }

  /** Three bytes, three events. After the first one another call sends byte 9 and finishes at once. The
      callback of the first call then consumes the other two bytes without an event, and the call returns
      normally; undisturbed it would have sent all three. */
  lemma OthersSwallowEvents<E(!new)>(s: AsyncClient.State<E>, k: ValidOracle)
    ensures var f, g := BytesFunc<int, int, int>(UntilNine, 0, [1, 2, 3]), BytesFunc<int, int, int>(UntilNine, 0, [9]);
            var o: Output<int, int, int> := Output(0, [Submission(0, 1, 4)]);
            var c: Closure<Output<int, int, int>, seq<byte>> := Closure(o, Some([2, 3]), Pending, true);
            var turns: seq<ByteTurn<E, int, int, int>> := [OtherOutput(false, g, 0), Callback(k, 5)];
            var called := AsyncClient.Step(s, AsyncClient.CallOutput(false, OracleOf(f(Output(0, []), None, 4))));
            && Start(f, Output(0, []), 4) == Suspended(c)
            && AllAdmissible(called, |s.calls|, f, c, turns)
            && Shows(AsyncClient.Step(LoopTurns(called, f, c, turns), AsyncClient.Resume(|s.calls|)), |s.calls|, Returned(5))
            && SharedRun(f, c.st, c.remainder, turns).st == Output(1, [Submission(0, 1, 4)])
            && SyncRun(f, Output(0, []), None, [4, 5, 7]).outcome == Returned(7)
            && SyncRun(f, Output(0, []), None, [4, 5, 7]).st.log == [Submission(0, 1, 4), Submission(0, 2, 5), Submission(0, 3, 7)]
  {
    var f, g := BytesFunc<int, int, int>(UntilNine, 0, [1, 2, 3]), BytesFunc<int, int, int>(UntilNine, 0, [9]);
    var o0: Output<int, int, int>, o: Output<int, int, int> := Output(0, []), Output(0, [Submission(0, 1, 4)]);
    var c: Closure<Output<int, int, int>, seq<byte>> := Closure(o, Some([2, 3]), Pending, true);
    var turns: seq<ByteTurn<E, int, int, int>> := [OtherOutput(false, g, 0), Callback(k, 5)];
    ThreeAttempts();
    hide BytesFunc;
    var called := AsyncClient.Step(s, AsyncClient.CallOutput(false, OracleOf(f(o0, None, 4))));
    OthersTurn(called, |s.calls|, f, g, c, k);
    assert SharedRun(f, o, c.remainder, turns) == Run(Output(1, o.log), None, Returned(5), 1);
    LoopRefinesSync(s, f, o0, 4, c, turns);
    ThreeEvents();
  }

  lemma ThreeAttempts()
    ensures var f, g := BytesFunc<int, int, int>(UntilNine, 0, [1, 2, 3]), BytesFunc<int, int, int>(UntilNine, 0, [9]);
            var log := [Submission(0, 1, 4)];
            && f(Output(0, []), None, 4) == Replied(Output(0, log), 4, Some([2, 3]))
            && g(Output(0, log), None, 0) == Replied(Output(1, log), 0, None)
            && f(Output(1, log), Some([2, 3]), 5) == Replied(Output(1, log), 5, None)
  {
    UntilNineFacts();
    hide Encode;
    var log: seq<Submission<int, int>> := [];
    assert log + [Submission(0, 1, 4)] == [Submission(0, 1, 4)];
    assert [1, 2, 3][1..] == [2, 3];
  }

  lemma OthersTurn<E(!new)>(s: AsyncClient.State<E>, u: nat, f: Func<Output<int, int, int>, seq<byte>>, g: Func<Output<int, int, int>, seq<byte>>,
                            c: Closure<Output<int, int, int>, seq<byte>>, k: ValidOracle)
    requires g(c.st, None, 0) == Replied(Output(1, c.st.log), 0, None)
    requires f(Output(1, c.st.log), c.remainder, 5) == Replied(Output(1, c.st.log), 5, None)
    ensures var turns: seq<ByteTurn<E, int, int, int>> := [OtherOutput(false, g, 0), Callback(k, 5)];
            && AllAdmissible(s, u, f, c, turns)
            && SharedRun(f, c.st, c.remainder, turns) == Run(Output(1, c.st.log), None, Returned(5), 1)
  {
    var first, second: ByteTurn<E, int, int, int> := OtherOutput(false, g, 0), Callback(k, 5);
    assert [first, second][1..] == [second] && [second][1..] == [];
    var s1, c1 := LoopTurn(s, f, c, first), ClosureTurn(f, c, first);
    assert AllAdmissible(s1, u, f, c1, [second]);
    assert SharedRun(f, Left(c.st, first), c.remainder, [second]) == Run(Output(1, c.st.log), None, Returned(5), 1);
  }

  lemma ThreeEvents()
    ensures var run := SyncRun(BytesFunc<int, int, int>(UntilNine, 0, [1, 2, 3]), Output(0, []), None, [4, 5, 7]);
            && run.outcome == Returned(7)
            && run.st.log == [Submission(0, 1, 4), Submission(0, 2, 5), Submission(0, 3, 7)]
  {
    var f := BytesFunc<int, int, int>(UntilNine, 0, [1, 2, 3]);
    var log1 := [Submission(0, 1, 4)];
    var log2 := log1 + [Submission(0, 2, 5)];
    UntilNineFacts();
    assert [1, 2, 3][1..] == [2, 3] && [2, 3][1..] == [3];
    assert [4, 5, 7][1..] == [5, 7] && [5, 7][1..] == [7];
    SyncStep(UntilNine, 0, [1, 2, 3], Output(0, []), None, [4, 5, 7]);
    SyncStep(UntilNine, 0, [1, 2, 3], Output(0, log1), Some([2, 3]), [5, 7]);
    SyncStep(UntilNine, 0, [1, 2, 3], Output(0, log2), Some([3]), [7]);
  }
}
