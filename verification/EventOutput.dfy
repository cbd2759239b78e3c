/** Output of events that are not byte streams: each attempt encodes the event again, into a fresh struct. */
module EventOutput {
  import opened Base
  import opened Bytes
  import opened Kernel
  import opened EventCodec
  import opened EventRoundTrip
  import OutputWait
  import ByteOutput

  type Sent<!S, !H> = ByteOutput.Output<S, H, Struct>

  /** `_prepare_event` and `_event_output` for such an event. Where encoding raises, nothing is submitted. */
  function EventFunc<S, H>(header: H, e: Event, args: Args, place: seq<byte> -> Pointer): OutputWait.Func<Sent<S, H>, seq<byte>> {
    (o: Sent<S, H>, remainder: Option<seq<byte>>, answer: int) =>
      match Encode(e, ZERO, args, place)
      case Failure(_) => OutputWait.Raised(o)
      case Success(s) => OutputWait.Replied(o.(log := o.log + [ByteOutput.Submission(header, s, answer)]), answer, None)
  }

  /** Encoding again on each attempt is as good as encoding once. */
  lemma {:induction false} EncodedOnce<S(!new), H(!new)>(header: H, e: Event, args: Args, place: seq<byte> -> Pointer, s: Struct,
                                         o: Sent<S, H>, rem: Option<seq<byte>>, tape: seq<int>)
    requires Encode(e, ZERO, args, place) == Success(s)
    ensures OutputWait.SyncRun(EventFunc<S, H>(header, e, args, place), o, rem, tape)
         == OutputWait.SyncRun(ByteOutput.StructFunc<S, H, Struct>(header, s), o, rem, tape)
    decreases |tape|
  {
    hide Encode;
    if tape != [] {
      var o1 := o.(log := o.log + [ByteOutput.Submission(header, s, tape[0])]);
      assert EventFunc<S, H>(header, e, args, place)(o, rem, tape[0]) == OutputWait.Replied(o1, tape[0], None);
      EncodedOnce(header, e, args, place, s, o1, None, tape[1..]);
    }
  }

  /** After any number of EAGAIN answers, an event in range is decided by the first other answer, and every
      attempt has submitted the struct the codec gives for it. An event out of range raises at the first
      attempt with nothing submitted. Both waits do the same. */
  lemma EventSentOnce<S(!new), H(!new)>(header: H, e: Event, args: Args, place: seq<byte> -> Pointer, o: Sent<S, H>,
                                        retries: nat, answer: int, rest: seq<int>)
    requires answer != EAGAIN
    ensures var f := EventFunc<S, H>(header, e, args, place);
            var tape := seq(retries, _ => EAGAIN) + [answer] + rest;
            var run := OutputWait.SyncRun(f, o, None, tape);
            && OutputWait.AsyncRun(f, o, tape) == (run.st, run.remainder, run.outcome)
            && (Encode(e, ZERO, args, place).Success? <==> InRange(e, args))
            && (!InRange(e, args) ==> run == OutputWait.Run(o, None, OutputWait.RaisedException, 1))
            && (InRange(e, args) ==>
                  var s := Encode(e, ZERO, args, place).value;
                  && run.outcome == OutputWait.Check(answer) && run.used == retries + 1
                  && run.st == o.(log := o.log + seq(retries, _ => ByteOutput.Submission(header, s, EAGAIN))
                                              + [ByteOutput.Submission(header, s, answer)])
                  && ByteOutput.Accepted(run.st.log) == ByteOutput.Accepted(o.log) + if answer >= 0 then [s] else [])
  {
    hide Encode, InRange, ByteOutput.Accepted, OutputWait.AsyncRun;
    var f := EventFunc<S, H>(header, e, args, place);
    var tape := seq(retries, _ => EAGAIN) + [answer] + rest;
    EncodesIff(e, ZERO, args, place);
    OutputWait.AsyncRefinesSync(f, o, tape);
    if InRange(e, args) {
      var s := Encode(e, ZERO, args, place).value;
      EncodedOnce(header, e, args, place, s, o, None, tape);
      hide OutputWait.SyncRun;
      ByteOutput.StructExactlyOnce(header, s, o, retries, answer, rest);
      ByteOutput.StructAcceptedOnce(header, s, o, retries, answer, rest);
    }
  }

  /** From the call to the receiver: the one struct ALSA accepts of an event in range decodes to an event of
      the same type and attributes, sent to the destination that was chosen. */
  lemma AcceptedEventDecodes<S(!new), H(!new)>(header: H, e: Event, args: Args, memory: Memory, place: seq<byte> -> Pointer, o: Sent<S, H>,
                                               retries: nat, answer: int, rest: seq<int>)
    requires answer >= 0 && Constructed(e) && InRange(e, args)
    requires e.fields.ExternalFields? ==> memory(place(e.fields.data), |e.fields.data|) == e.fields.data
    ensures var run := OutputWait.SyncRun(EventFunc<S, H>(header, e, args, place), o, None, seq(retries, _ => EAGAIN) + [answer] + rest);
            var accepted := ByteOutput.Accepted(run.st.log);
            && |accepted| == |ByteOutput.Accepted(o.log)| + 1
            && var r := Decode(accepted[|accepted| - 1], memory);
               && r.Success?
               && r.value.eventType == e.eventType
               && r.value.fields == Recovered(e.fields, RawByte(e))
               && r.value.source == Some(ChosenSource(e, args))
               && r.value.dest == Some(ChosenDest(e, args))
  {
    hide Encode, Decode, InRange, Constructed, Recovered, ByteOutput.Accepted, OutputWait.SyncRun, EventFunc;
    EventSentOnce(header, e, args, place, o, retries, answer, rest);
    EventRecovered(e, args, memory, place);
  }
}
