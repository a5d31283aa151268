/**
 Sequences of channel operations. Caller-driven open/close, broker-driven
 shutdown callbacks and listener registration are each one atomic step; an
 interleaving of the caller and broker threads is one sequence of steps.
 */
module Traces {
  import opened Wrappers
  import opened RmqTypes
  import opened ListenerSet
  import opened RmqChannel

  datatype Op =
    | OpenOp(create: CreateResult)
    | CloseOp(close: CloseResult)
    | ShutdownOp(signal: Signal)
    | AddOp(added: Listener)
    | RemoveOp(removed: Listener)

  /**
   Which shutdownCompleted a run uses: the code as written, or the one whose
   warning does not need the channel. Every property below that names a
   build holds for both.
   */
  datatype Build = AsWritten | Corrected

  function Shutdown(b: Build, c: Rmq, signal: Signal): Step
  {
    match b
    case AsWritten => ShutdownCompletedAsWritten(c, signal)
    case Corrected => ShutdownCompleted(c, signal)
  }

  /** One operation on one channel. */
  function Apply(b: Build, c: Rmq, op: Op): Step
  {
    match op
    case OpenOp(create) => Open(c, create)
    case CloseOp(result) => Close(c, result)
    case ShutdownOp(signal) => Shutdown(b, c, signal)
    case AddOp(l) => Step(AddListener(c, l), [], None)
    case RemoveOp(l) => Step(RemoveListener(c, l), [], None)
  }

  /** What a sequence of operations leaves behind and emits. */
  datatype Trace = Trace(final: Rmq, notices: seq<Notice>, calls: seq<Call>, errors: seq<Error>)

  /** Runs `ops` in order; `calls` are the listener callbacks made along the way. */
  function Run(b: Build, c: Rmq, ops: seq<Op>): Trace
    decreases |ops|
  {
    if ops == [] then Trace(c, [], [], [])
    else
      var s := Apply(b, c, ops[0]);
      var rest := Run(b, s.after, ops[1..]);
      Trace(rest.final,
            s.notices + rest.notices,
            NotifyAll(c.listeners, s.notices) + rest.calls,
            Raised(s) + rest.errors)
  }

  /** The exception a step lets out, as a sequence of at most one. */
  function Raised(s: Step): seq<Error>
  {
    if s.error.Some? then [s.error.value] else []
  }

  /** Running one operation. */
  lemma RunOne(b: Build, c: Rmq, op: Op)
    ensures var s := Apply(b, c, op);
            Run(b, c, [op]) == Trace(s.after, s.notices, NotifyAll(c.listeners, s.notices), Raised(s))
  {
    var s := Apply(b, c, op);
    assert [op][1..] == [];
    assert s.notices + [] == s.notices;
    assert NotifyAll(c.listeners, s.notices) + [] == NotifyAll(c.listeners, s.notices);
    assert Raised(s) + [] == Raised(s);
  }

  /** Running one operation and then the rest. */
  lemma RunCons(b: Build, c: Rmq, op: Op, ops: seq<Op>)
    ensures var s := Apply(b, c, op);
            var t := Run(b, s.after, ops);
            Run(b, c, [op] + ops)
              == Trace(t.final, s.notices + t.notices, NotifyAll(c.listeners, s.notices) + t.calls, Raised(s) + t.errors)
  {
    assert ([op] + ops)[0] == op;
    assert ([op] + ops)[1..] == ops;
  }

  /** Every operation sequence keeps the channel invariant. */
  lemma {:induction false} RunPreservesValid(b: Build, c: Rmq, ops: seq<Op>)
    requires Valid(c)
    ensures Valid(Run(b, c, ops).final)
    decreases |ops|
  {
    if ops != [] {
      var s := Apply(b, c, ops[0]);
      assert Valid(s.after) by {
        match ops[0]
        case OpenOp(create) =>
        case CloseOp(result) =>
        case ShutdownOp(signal) =>
          assert Valid(ShutdownCompletedAsWritten(c, signal).after);
        case AddOp(l) =>
        case RemoveOp(l) =>
      }
      RunPreservesValid(b, s.after, ops[1..]);
    }
  }

  /**
   In every channel reachable from a fresh one, DISCONNECTED means no handle,
   CLOSE_PENDING means a handle, and no listener is registered twice.
   */
  lemma ReachableHandleInvariant(b: Build, ops: seq<Op>)
    ensures var c := Run(b, Init(), ops).final;
            && (c.state == Disconnected ==> c.handle.None?)
            && (c.state == ClosePending ==> c.handle.Some?)
            && Distinct(c.listeners)
  {
    RunPreservesValid(b, Init(), ops);
  }

  /** The edge case: a fresh channel can be open while holding no handle. */
  lemma OpenWithoutHandleReachable(b: Build)
    ensures exists ops :: var c := Run(b, Init(), ops).final; IsOpen(c) && c.handle.None?
  {
    var ops := [OpenOp(CreatedNull)];
    assert Run(b, Init(), ops).final == Rmq(Connected, None, []);
  }

  function DisconnectedCount(c: Rmq): nat
  {
    if c.state == Disconnected then 1 else 0
  }

  /**
   OPEN notices never outrun CLOSE_COMPLETED notices: counting a disconnected
   channel as one pending OPEN, a run never adds more OPENs than it adds
   CLOSE_COMPLETEDs. From a fresh channel, OPEN is emitted at most once more
   than CLOSE_COMPLETED.
   */
  lemma {:induction false} OpensBoundedByCloses(b: Build, c: Rmq, ops: seq<Op>)
    ensures var t := Run(b, c, ops);
            CountEvent(t.notices, OpenEvent) + DisconnectedCount(t.final)
              <= CountEvent(t.notices, CloseCompletedEvent) + DisconnectedCount(c)
    decreases |ops|
  {
    if ops != [] {
      var s := Apply(b, c, ops[0]);
      var rest := Run(b, s.after, ops[1..]);
      OpensBoundedByCloses(b, s.after, ops[1..]);
      CountEventAppend(s.notices, rest.notices, OpenEvent);
      CountEventAppend(s.notices, rest.notices, CloseCompletedEvent);
      assert CountEvent(s.notices, OpenEvent) + DisconnectedCount(s.after)
               <= CountEvent(s.notices, CloseCompletedEvent) + DisconnectedCount(c) by {
        match ops[0]
        case OpenOp(create) =>
          if c.state == Disconnected && create.Created? {
            assert CountEvent(s.notices, OpenEvent) == 1;
          }
        case CloseOp(result) =>
        case ShutdownOp(signal) =>
        case AddOp(l) =>
        case RemoveOp(l) =>
      }
    }
  }

  /** `open` twice in a row: the second call changes nothing and emits nothing. */
  lemma OpenTwice(b: Build, c: Rmq, first: CreateResult, second: CreateResult)
    requires c.state == Disconnected && !first.CreateThrows?
    ensures var t := Run(b, c, [OpenOp(first), OpenOp(second)]);
            && t.final == Open(c, first).after
            && t.notices == Open(c, first).notices
            && CountEvent(t.notices, OpenEvent) <= 1
            && t.errors == []
  {
    var s := Open(c, first);
    RunCons(b, c, OpenOp(first), [OpenOp(second)]);
    RunOne(b, s.after, OpenOp(second));
    assert s.notices + [] == s.notices;
  }

  /**
   A clean close followed by the broker's shutdown callback: one
   CLOSE_COMPLETED in all, delivered once to each registered listener, and the
   channel ends disconnected with no handle and no exception raised.
   */
  lemma CleanCloseCompletesOnce(b: Build, c: Rmq, signal: Signal, l: Listener)
    requires Valid(c) && c.state == Connected && c.handle.Some?
    ensures var t := Run(b, c, [CloseOp(CloseOk), ShutdownOp(signal)]);
            && t.final == Rmq(Disconnected, None, c.listeners)
            && CountEvent(t.notices, CloseCompletedEvent) == 1
            && CountEvent(t.notices, OpenEvent) == 0
            && CallsTo(t.calls, l, OnCloseCompleted) == (if l in c.listeners then 1 else 0)
            && t.errors == []
  {
    var s1 := Close(c, CloseOk);
    var s2 := ShutdownCompleted(s1.after, signal);
    assert Shutdown(b, s1.after, signal) == s2;
    RunCons(b, c, CloseOp(CloseOk), [ShutdownOp(signal)]);
    RunOne(b, s1.after, ShutdownOp(signal));
    assert [] + s2.notices == s2.notices;
    assert NotifyAll(c.listeners, []) + NotifyAll(c.listeners, s2.notices) == NotifyAll(c.listeners, s2.notices);
    NotifyAllPerListener(c.listeners, s2.notices, l, CloseCompletedEvent);
  }

  /**
   A close that fails because the broker is already shutting the channel down
   is finished by the shutdown callback: again exactly one CLOSE_COMPLETED,
   and the caller sees the one rethrown exception.
   */
  lemma ShutdownSignalCloseCompletesOnce(b: Build, c: Rmq, signal: Signal)
    requires Valid(c) && c.state == Connected && c.handle.Some?
    ensures var t := Run(b, c, [CloseOp(CloseThrowsIO(ShutdownSignalCause)), ShutdownOp(signal)]);
            && t.final == Rmq(Disconnected, None, c.listeners)
            && CountEvent(t.notices, CloseCompletedEvent) == 1
            && t.errors == [CloseIOError(ShutdownSignalCause)]
  {
    var s1 := Close(c, CloseThrowsIO(ShutdownSignalCause));
    var s2 := ShutdownCompleted(s1.after, signal);
    assert Shutdown(b, s1.after, signal) == s2;
    RunCons(b, c, CloseOp(CloseThrowsIO(ShutdownSignalCause)), [ShutdownOp(signal)]);
    RunOne(b, s1.after, ShutdownOp(signal));
    assert [] + s2.notices == s2.notices;
  }

  /**
   A close that fails for another reason already announces completion and
   clears the handle. A later shutdown callback for the same channel then
   announces completion a second time, except in the code as written with a
   broker-initiated signal: that callback throws on the null channel, so the
   channel stays disconnected, completion is announced once and the caller
   and the broker thread each see an exception.
   */
  lemma FailedCloseThenShutdown(b: Build, c: Rmq, signal: Signal)
    requires Valid(c) && c.state == Connected && c.handle.Some?
    ensures var t := Run(b, c, [CloseOp(CloseThrowsIO(OtherCause)), ShutdownOp(signal)]);
            var throws := b == AsWritten && signal.Signal? && !signal.initiatedByApplication;
            && t.final == Rmq(Disconnected, None, c.listeners)
            && CountEvent(t.notices, CloseCompletedEvent) == (if throws then 1 else 2)
            && t.errors == if throws then [CloseIOError(OtherCause), NullHandleError]
                           else [CloseIOError(OtherCause)]
  {
    var s1 := Close(c, CloseThrowsIO(OtherCause));
    var s2 := Shutdown(b, s1.after, signal);
    RunCons(b, c, CloseOp(CloseThrowsIO(OtherCause)), [ShutdownOp(signal)]);
    RunOne(b, s1.after, ShutdownOp(signal));
    CountEventAppend(s1.notices, s2.notices, CloseCompletedEvent);
  }

  /** The run of LateListenerGetsNextNotice, step by step. */
  lemma LateListenerRun(b: Build, c: Rmq, l: Listener, h: Handle)
    requires Valid(c) && c.state == Disconnected && l !in c.listeners
    ensures var t := Run(b, c, [OpenOp(Created(h)), AddOp(l), CloseOp(CloseThrowsIO(OtherCause))]);
            var opening := Notice(OpenEvent, View(Disconnected, Some(h)));
            var closing := Notice(CloseCompletedEvent, View(Disconnected, Some(h)));
            && t.notices == [opening] + [closing]
            && t.calls == NotifyAll(c.listeners, [opening]) + NotifyAll(c.listeners + [l], [closing])
  {
    var close := CloseOp(CloseThrowsIO(OtherCause));
    var s1 := Open(c, Created(h));
    var c2 := AddListener(s1.after, l);
    var s3 := Close(c2, CloseThrowsIO(OtherCause));
    assert c2 == Rmq(Connected, Some(h), c.listeners + [l]);
    RunOne(b, c2, close);
    RunCons(b, s1.after, AddOp(l), [close]);
    assert [] + s3.notices == s3.notices;
    assert NotifyAll(s1.after.listeners, []) + NotifyAll(c2.listeners, s3.notices) == NotifyAll(c2.listeners, s3.notices);
    RunCons(b, c, OpenOp(Created(h)), [AddOp(l), close]);
  }

  /**
   Copy-on-write fan-out: a listener registered after a notification has gone
   out receives nothing from it, and receives the next one. Here a fresh
   open's OPEN goes out, the listener joins, and a failing close's
   CLOSE_COMPLETED follows.
   */
  lemma LateListenerGetsNextNotice(b: Build, c: Rmq, l: Listener, h: Handle)
    requires Valid(c) && c.state == Disconnected && l !in c.listeners
    ensures var t := Run(b, c, [OpenOp(Created(h)), AddOp(l), CloseOp(CloseThrowsIO(OtherCause))]);
            && CountEvent(t.notices, OpenEvent) == 1
            && CountEvent(t.notices, CloseCompletedEvent) == 1
            && CallsTo(t.calls, l, OnOpen) == 0
            && CallsTo(t.calls, l, OnCloseCompleted) == 1
  {
    LateListenerRun(b, c, l, h);
    var opening := Notice(OpenEvent, View(Disconnected, Some(h)));
    var closing := Notice(CloseCompletedEvent, View(Disconnected, Some(h)));
    var ls := c.listeners + [l];
    assert Distinct(ls) by {
      assert ls == Insert(c.listeners, l);
    }
    CountEventAppend([opening], [closing], OpenEvent);
    CountEventAppend([opening], [closing], CloseCompletedEvent);
    NotifyAllPerListener(c.listeners, [opening], l, OpenEvent);
    NotifyAllPerListener(c.listeners, [opening], l, CloseCompletedEvent);
    NotifyAllPerListener(ls, [closing], l, OpenEvent);
    NotifyAllPerListener(ls, [closing], l, CloseCompletedEvent);
    CallsToAppend(NotifyAll(c.listeners, [opening]), NotifyAll(ls, [closing]), l, OnOpen);
    CallsToAppend(NotifyAll(c.listeners, [opening]), NotifyAll(ls, [closing]), l, OnCloseCompleted);
  }

  /**
   The shutdown callback as written, reached from a fresh channel: open, then a
   close failing with a non-shutdown IOException clears the handle; a
   following broker-initiated shutdown callback then throws on the null channel
   and emits nothing, where the corrected callback finalizes and notifies.
   */
  lemma ShutdownAfterFailedCloseThrows(h: Handle)
    ensures var c := Run(AsWritten, Init(), [OpenOp(Created(h)), CloseOp(CloseThrowsIO(OtherCause))]).final;
            && c == Rmq(Disconnected, None, [])
            && ShutdownCompletedAsWritten(c, Signal(false)).error == Some(NullHandleError)
            && ShutdownCompletedAsWritten(c, Signal(false)).notices == []
            && ShutdownCompleted(c, Signal(false)).error.None?
            && CountEvent(ShutdownCompleted(c, Signal(false)).notices, CloseCompletedEvent) == 1
  {
    var s1 := Open(Init(), Created(h));
    RunCons(AsWritten, Init(), OpenOp(Created(h)), [CloseOp(CloseThrowsIO(OtherCause))]);
    RunOne(AsWritten, s1.after, CloseOp(CloseThrowsIO(OtherCause)));
  }
}
