/**
 The listener registry of a channel: a copy-on-write array set of
 RMQChannelListener, modelled as a duplicate-free sequence kept in insertion
 order (the order in which such a set iterates), and the fan-out that
 notifyRMQChannelListeners performs over it.
 */
module ListenerSet {
  import opened RmqTypes

  datatype Listener = Listener(id: nat)

  /** The two callbacks of RMQChannelListener. */
  datatype Callback = OnOpen | OnCloseCompleted

  /** One callback invocation on one listener, with the channel as the listener sees it. */
  datatype Call = Call(listener: Listener, callback: Callback, seen: View)

  /** Set semantics: no listener occurs twice. */
  predicate Distinct(ls: seq<Listener>)
  {
    forall i, j :: 0 <= i < j < |ls| ==> ls[i] != ls[j]
  }

  /** The callback that an event is dispatched to. */
  function CallbackFor(e: Event): Callback
  {
    match e
    case CloseCompletedEvent => OnCloseCompleted
    case OpenEvent => OnOpen
  }

  /** add: a no-op when the listener is present, otherwise it joins at the end. */
  function Insert(ls: seq<Listener>, l: Listener): (r: seq<Listener>)
    ensures forall x :: x in r <==> x in ls || x == l
    ensures Distinct(ls) ==> Distinct(r)
    ensures l in ls ==> r == ls
    ensures l !in ls ==> |r| == |ls| + 1 && r[..|ls|] == ls
  {
    if l in ls then ls else ls + [l]
  }

  /** remove: drops the listener; the others keep their order. */
  function Delete(ls: seq<Listener>, l: Listener): (r: seq<Listener>)
    ensures forall x :: x in r <==> x in ls && x != l
    ensures l !in ls ==> r == ls
    ensures Distinct(ls) ==> Distinct(r)
    ensures Distinct(ls) && l in ls ==> |r| == |ls| - 1
    ensures |r| <= |ls|
  {
    if ls == [] then []
    else if ls[0] == l then Delete(ls[1..], l)
    else
      var rest := Delete(ls[1..], l);
      assert Distinct(ls) ==> ls[0] !in ls[1..] && ls[0] !in rest;
      [ls[0]] + rest
  }

  /** Position of a listener in the collection. */
  function IndexOf(ls: seq<Listener>, l: Listener): (k: nat)
    requires l in ls
    ensures k < |ls| && ls[k] == l
  {
    if ls[0] == l then 0 else 1 + IndexOf(ls[1..], l)
  }

  /** Removing a registered listener cuts it out at its position; the others keep their order. */
  lemma {:induction false} DeleteKeepsOrder(ls: seq<Listener>, l: Listener)
    requires Distinct(ls) && l in ls
    ensures Delete(ls, l) == ls[..IndexOf(ls, l)] + ls[IndexOf(ls, l) + 1..]
  {
    if ls[0] == l {
      assert l !in ls[1..];
    } else {
      var k := IndexOf(ls[1..], l);
      assert Distinct(ls[1..]);
      DeleteKeepsOrder(ls[1..], l);
      assert ls[..k + 1] == [ls[0]] + ls[1..][..k];
      assert ls[k + 2..] == ls[1..][k + 1..];
    }
  }

  /** notifyRMQChannelListeners: one matching callback per listener, in iteration order. */
  function Notify(ls: seq<Listener>, n: Notice): (r: seq<Call>)
    ensures |r| == |ls|
    ensures forall i :: 0 <= i < |r| ==>
              r[i].listener == ls[i] && r[i].callback == CallbackFor(n.event) && r[i].seen == n.seen
  {
    if ls == [] then []
    else [Call(ls[0], CallbackFor(n.event), n.seen)] + Notify(ls[1..], n)
  }

  /** The calls made by a sequence of notifications to the same listener collection. */
  function NotifyAll(ls: seq<Listener>, ns: seq<Notice>): seq<Call>
  {
    if ns == [] then [] else Notify(ls, ns[0]) + NotifyAll(ls, ns[1..])
  }

  /** Number of calls of callback `cb` received by listener `l`. */
  function CallsTo(calls: seq<Call>, l: Listener, cb: Callback): nat
  {
    if calls == [] then 0
    else (if calls[0].listener == l && calls[0].callback == cb then 1 else 0) + CallsTo(calls[1..], l, cb)
  }

  lemma {:induction false} CallsToAppend(a: seq<Call>, b: seq<Call>, l: Listener, cb: Callback)
    ensures CallsTo(a + b, l, cb) == CallsTo(a, l, cb) + CallsTo(b, l, cb)
  {
    if a == [] {
      assert a + b == b;
    } else {
      assert (a + b)[1..] == a[1..] + b;
      CallsToAppend(a[1..], b, l, cb);
    }
  }

  /**
   A notification reaches each listener of the (duplicate-free) collection
   exactly once, with the callback matching the event, and reaches nobody else
   and with no other callback.
   */
  lemma {:induction false} NotifyExactlyOnce(ls: seq<Listener>, n: Notice, l: Listener, cb: Callback)
    requires Distinct(ls)
    ensures CallsTo(Notify(ls, n), l, cb) == if l in ls && cb == CallbackFor(n.event) then 1 else 0
  {
    if ls != [] {
      var r := Notify(ls, n);
      assert r[1..] == Notify(ls[1..], n);
      assert Distinct(ls[1..]);
      NotifyExactlyOnce(ls[1..], n, l, cb);
      assert ls[0] !in ls[1..];
      assert l in ls <==> l == ls[0] || l in ls[1..];
    }
  }

  /**
   Over several notifications, each registered listener receives one callback
   per notice of the matching event, and an unregistered one receives none.
   */
  lemma {:induction false} NotifyAllPerListener(ls: seq<Listener>, ns: seq<Notice>, l: Listener, e: Event)
    requires Distinct(ls)
    ensures CallsTo(NotifyAll(ls, ns), l, CallbackFor(e)) == if l in ls then CountEvent(ns, e) else 0
  {
    if ns != [] {
      CallsToAppend(Notify(ls, ns[0]), NotifyAll(ls, ns[1..]), l, CallbackFor(e));
      NotifyExactlyOnce(ls, ns[0], l, CallbackFor(e));
      NotifyAllPerListener(ls, ns[1..], l, e);
      assert CallbackFor(ns[0].event) == CallbackFor(e) <==> ns[0].event == e;
    }
  }
}
