/**
 AbstractRMQChannel: the per-channel lifecycle state machine. Each operation
 is one atomic step from a channel value to a Step recording the channel
 afterwards, the notifications made during the step (in order) and the
 exception that leaves the operation, if any. The broker-client calls the
 operation makes are passed in as their outcomes.
 */
module RmqChannel {
  import opened Wrappers
  import opened RmqTypes
  import opened ListenerSet

  /** The mutable fields of one channel instance: state, channel and listeners. */
  datatype Rmq = Rmq(state: ChannelState, handle: Option<Handle>, listeners: seq<Listener>)

  datatype Step = Step(after: Rmq, notices: seq<Notice>, error: Option<Error>)

  /** A freshly constructed channel: disconnected, no handle, no listeners. */
  function Init(): Rmq
  {
    Rmq(Disconnected, None, [])
  }

  /** What a listener handed this channel observes. */
  function ViewOf(c: Rmq): View
  {
    View(c.state, c.handle)
  }

  /**
   The invariant of every channel value between operations: a disconnected
   channel holds no handle, a close-pending one holds one, and the listener
   collection has set semantics. A connected channel may hold either.
   */
  predicate Valid(c: Rmq)
  {
    && (c.state == Disconnected ==> c.handle.None?)
    && (c.state == ClosePending ==> c.handle.Some?)
    && Distinct(c.listeners)
  }

  /** The handle stored by open, null when createChannel returned null. */
  function Returned(create: CreateResult): Option<Handle>
    requires !create.CreateThrows?
  {
    if create.Created? then Some(create.handle) else None
  }

  /** isOpen: decided by the state field alone, whatever the handle. */
  function IsOpen(c: Rmq): (b: bool)
    ensures b <==> c.state == Connected
  {
    c.state == Connected
  }

  /** open(connection), with `create` the outcome of connection.createChannel(). */
  function Open(c: Rmq, create: CreateResult): (r: Step)
    ensures r.after.listeners == c.listeners
    ensures Valid(c) ==> Valid(r.after)
    // not disconnected: a no-op
    ensures c.state != Disconnected ==> r == Step(c, [], None)
    // createChannel throws: nothing changes and the IOException propagates
    ensures c.state == Disconnected && create.CreateThrows? ==>
              r == Step(c, [], Some(CreateIOError))
    // otherwise the channel is open and holds what createChannel returned
    ensures c.state == Disconnected && !create.CreateThrows? ==>
              && IsOpen(r.after)
              && r.after.handle == Returned(create)
              && r.error.None?
    // a real handle: one OPEN, seen while the state is still DISCONNECTED
    ensures c.state == Disconnected && create.Created? ==>
              r.notices == [Notice(OpenEvent, View(Disconnected, Some(create.handle)))]
    // a null handle: connected, but nobody is told
    ensures c.state == Disconnected && create.CreatedNull? ==>
              r.notices == [] && r.after.handle.None? && IsOpen(r.after)
    ensures CountEvent(r.notices, CloseCompletedEvent) == 0
  {
    if c.state == Disconnected then
      if create.CreateThrows? then
        Step(c, [], Some(CreateIOError))
      else
        var stored := c.(handle := Returned(create));
        var notices := if stored.handle.Some? then [Notice(OpenEvent, ViewOf(stored))] else [];
        Step(stored.(state := Connected), notices, None)
    else
      Step(c, [], None)
  }

  /** close(), with `result` the outcome of channel.close() when it is called. */
  function Close(c: Rmq, result: CloseResult): (r: Step)
    ensures r.after.listeners == c.listeners
    ensures Valid(c) ==> Valid(r.after)
    ensures CountEvent(r.notices, OpenEvent) == 0
    // not connected, or connected without a handle: a no-op
    ensures c.state != Connected || c.handle.None? ==> r == Step(c, [], None)
    // channel.close() succeeds: pending, handle kept, nothing emitted
    ensures c.state == Connected && c.handle.Some? && result.CloseOk? ==>
              r == Step(c.(state := ClosePending), [], None)
    // IOException not caused by a shutdown signal: disconnected, handle
    // cleared, exactly one CLOSE_COMPLETED (seen before the handle is
    // cleared) and the exception rethrown
    ensures c.state == Connected && c.handle.Some? && result == CloseThrowsIO(OtherCause) ==>
              && r.after == c.(state := Disconnected, handle := None)
              && r.notices == [Notice(CloseCompletedEvent, View(Disconnected, c.handle))]
              && CountEvent(r.notices, CloseCompletedEvent) == 1
              && r.error == Some(CloseIOError(OtherCause))
    // IOException caused by a shutdown signal: still pending, handle kept,
    // nothing emitted, the exception rethrown
    ensures c.state == Connected && c.handle.Some? && result == CloseThrowsIO(ShutdownSignalCause) ==>
              r == Step(c.(state := ClosePending), [], Some(CloseIOError(ShutdownSignalCause)))
    // an exception the handler does not catch leaves the channel pending too
    ensures c.state == Connected && c.handle.Some? && result.CloseThrowsUnchecked? ==>
              r == Step(c.(state := ClosePending), [], Some(CloseUncheckedError))
    // only the non-shutdown IOException path announces completion
    ensures CountEvent(r.notices, CloseCompletedEvent) == 1 <==>
              c.state == Connected && c.handle.Some? && result == CloseThrowsIO(OtherCause)
  {
    if c.state == Connected then
      if c.handle.Some? then
        var pending := c.(state := ClosePending);
        match result
        case CloseOk => Step(pending, [], None)
        case CloseThrowsIO(cause) =>
          if cause != ShutdownSignalCause then
            var down := pending.(state := Disconnected);
            var notices := [Notice(CloseCompletedEvent, ViewOf(down))];
            assert cause.OtherCause?;
            Step(down.(handle := None), notices, Some(CloseIOError(cause)))
          else
            Step(pending, [], Some(CloseIOError(cause)))
        case CloseThrowsUnchecked => Step(pending, [], Some(CloseUncheckedError))
      else
        Step(c, [], None)
    else
      Step(c, [], None)
  }

  /**
   shutdownCompleted(signal) with the warning's channel-number lookup made
   only when there is a channel to ask: from any state and for any signal the
   channel ends disconnected with no handle, exactly one CLOSE_COMPLETED is
   emitted (seen with the handle not yet cleared) and nothing is thrown.
   */
  function ShutdownCompleted(c: Rmq, signal: Signal): (r: Step)
    ensures r.after == Rmq(Disconnected, None, c.listeners)
    ensures r.notices == [Notice(CloseCompletedEvent, View(Disconnected, c.handle))]
    ensures CountEvent(r.notices, CloseCompletedEvent) == 1
    ensures CountEvent(r.notices, OpenEvent) == 0
    ensures r.error.None?
    ensures Valid(c) ==> Valid(r.after)
  {
    var down := c.(state := Disconnected);
    var notices := [Notice(CloseCompletedEvent, ViewOf(down))];
    Step(down.(handle := None), notices, None)
  }

  /**
   shutdownCompleted(signal) as written: when the signal is present and not
   application-initiated the warning asks the channel for its number first, so
   a null channel makes it throw before anything is updated. In every other
   case it behaves as ShutdownCompleted.
   */
  function ShutdownCompletedAsWritten(c: Rmq, signal: Signal): (r: Step)
    ensures r.error.Some? <==>
              signal.Signal? && !signal.initiatedByApplication && c.handle.None?
    ensures r.error.Some? ==> r == Step(c, [], Some(NullHandleError))
    ensures r.error.None? ==> r == ShutdownCompleted(c, signal)
    ensures Valid(c) ==> Valid(r.after)
  {
    if signal.Signal? && !signal.initiatedByApplication && c.handle.None? then
      Step(c, [], Some(NullHandleError))
    else
      var down := c.(state := Disconnected);
      var notices := [Notice(CloseCompletedEvent, ViewOf(down))];
      Step(down.(handle := None), notices, None)
  }

  /** addRMQChannelListener: only the listener collection changes, as a set insert. */
  function AddListener(c: Rmq, l: Listener): (r: Rmq)
    ensures r.state == c.state && r.handle == c.handle
    ensures forall x :: x in r.listeners <==> x in c.listeners || x == l
    ensures l in c.listeners ==> r == c
    ensures Valid(c) ==> Valid(r)
  {
    c.(listeners := Insert(c.listeners, l))
  }

  /** removeRMQChannelListener: only the listener collection changes, as a set delete. */
  function RemoveListener(c: Rmq, l: Listener): (r: Rmq)
    ensures r.state == c.state && r.handle == c.handle
    ensures forall x :: x in r.listeners <==> x in c.listeners && x != l
    ensures l !in c.listeners ==> r == c
    ensures Valid(c) ==> Valid(r)
  {
    c.(listeners := Delete(c.listeners, l))
  }
}
