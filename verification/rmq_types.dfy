/**
 The value types shared by the channel lifecycle: the three-valued channel
 state, the two lifecycle events, the opaque broker channel handle, and the
 outcomes of the broker-client calls that the channel makes.
 */
module RmqTypes {
  import opened Wrappers

  /** RMQState: exactly one value per channel at any time. */
  datatype ChannelState = Disconnected | Connected | ClosePending

  /** RMQChannelEvent. */
  datatype Event = OpenEvent | CloseCompletedEvent

  /** An opaque broker-side channel, identified by its channel number. */
  datatype Handle = Handle(number: nat)

  /** What a listener can observe of the channel it is handed during a callback. */
  datatype View = View(state: ChannelState, handle: Option<Handle>)

  /** One call of notifyRMQChannelListeners: the event and what listeners see meanwhile. */
  datatype Notice = Notice(event: Event, seen: View)

  /** Outcome of Connection.createChannel(). */
  datatype CreateResult =
    | Created(handle: Handle)   // a channel was returned
    | CreatedNull               // null was returned
    | CreateThrows              // an IOException was thrown

  /** The cause carried by an IOException thrown from Channel.close(). */
  datatype Cause =
    | ShutdownSignalCause       // the cause is a ShutdownSignalException
    | OtherCause                // any other cause, null included

  /** Outcome of Channel.close(). */
  datatype CloseResult =
    | CloseOk
    | CloseThrowsIO(cause: Cause)
    | CloseThrowsUnchecked      // an exception the IOException handler does not catch

  /** The ShutdownSignalException handed to shutdownCompleted, possibly null. */
  datatype Signal =
    | NoSignal
    | Signal(initiatedByApplication: bool)

  /** An exception that leaves open, close or shutdownCompleted. */
  datatype Error =
    | CreateIOError
    | CloseIOError(cause: Cause)
    | CloseUncheckedError
    | NullHandleError           // NullPointerException from dereferencing a null channel

  /** Number of notices in `ns` that carry event `e`. */
  function CountEvent(ns: seq<Notice>, e: Event): nat
  {
    if ns == [] then 0
    else (if ns[0].event == e then 1 else 0) + CountEvent(ns[1..], e)
  }

  lemma {:induction false} CountEventAppend(a: seq<Notice>, b: seq<Notice>, e: Event)
    ensures CountEvent(a + b, e) == CountEvent(a, e) + CountEvent(b, e)
  {
    if a == [] {
      assert a + b == b;
    } else {
      assert (a + b)[1..] == a[1..] + b;
      CountEventAppend(a[1..], b, e);
    }
  }
}
