/** The ALSA side of one non-blocking input attempt.

    The kernel FIFO is a sequence of events. Everything libasound decides on its own (a fault, the
    fate of the decoding of the event it hands out) is an argument of the attempt, so that a
    statement about all oracles is a statement about all behaviours of the library. */
module Kernel {
  import opened Base

  /** Negated `errno.EAGAIN`, the answer of a non-blocking call that would have to wait. */
  const EAGAIN: int := -11

  /** What decoding the struct of a consumed event comes to: a Python event, a negative code of the
      MIDI decoder, or an exception raised by an event constructor. */
  datatype Decoding = Decoded | DecodeError(code: int) | DecodeRaises

  datatype Oracle = Oracle(fault: Option<int>, decoding: Decoding) {
    /** Faults are negative, and a decoder failure is never EAGAIN. */
    predicate Valid() {
      && (fault.Some? ==> fault.value < 0)
      && (decoding.DecodeError? ==> decoding.code < 0 && decoding.code != EAGAIN)
    }
  }

  type ValidOracle = o: Oracle | o.Valid() witness Oracle(None, Decoded)

  /** The value `_event_input` hands back: an event, a negative code, or an exception. */
  datatype Reply<+E> = EventReply(event: E) | ErrorReply(code: int) | ExceptionReply {
    predicate WouldBlock() {
      this == ErrorReply(EAGAIN)
    }
  }

  /** `_event_input`: the reply, the FIFO left behind, and the event removed from it, if any. */
  function Attempt<E>(fifo: seq<E>, k: ValidOracle): (r: (Reply<E>, seq<E>, Option<E>))
    ensures r.2.None? ==> r.1 == fifo && r.0.ErrorReply? && r.0.code < 0
    ensures r.2.Some? ==> fifo == [r.2.value] + r.1 && !r.0.WouldBlock()
    ensures r.0.EventReply? ==> r.2 == Some(r.0.event)
    ensures r.0.ErrorReply? ==> r.0.code < 0
  {
    if k.fault.Some? then (ErrorReply(k.fault.value), fifo, None)
    else if fifo == [] then (ErrorReply(EAGAIN), fifo, None)
    else
      var reply :=
        match k.decoding
        case Decoded => EventReply(fifo[0])
        case DecodeError(code) => ErrorReply(code)
        case DecodeRaises => ExceptionReply;
      (reply, fifo[1..], Some(fifo[0]))
  }
}
