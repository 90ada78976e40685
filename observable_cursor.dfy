/**
 * `ObservableCursor`: one live query over a document store, shared by any
 * number of subscribers. The cursor keeps the current result list, replays it
 * to late subscribers, coalesces the initial burst of `addedAt` callbacks into
 * one broadcast, and stops the live query when the last subscriber leaves.
 *
 * Every notification the cursor sends — to the count channel or to a
 * subscriber — is recorded, in order, in one delivery trace.
 */
module Cursor {

  import opened Js
  import opened ListModel
  import Utils

  /** A subscriber: RxJS creates a fresh Subscriber object per subscription. */
  type ObserverId = nat

  /** A live-query handle returned by the store's `observe`. */
  type HandleId = nat

  /** A notification on one channel. */
  datatype Event<P> = Next(value: P) | Complete

  /** One delivery: to the count channel, or to one subscriber. */
  datatype Delivery<T> =
    | ToCount(countEvent: Event<nat>)
    | ToObserver(id: ObserverId, event: Event<seq<T>>)

  /** The same event delivered to each observer, in registration order. */
  function ToEach<T>(observers: seq<ObserverId>, e: Event<seq<T>>): (r: seq<Delivery<T>>)
    ensures |r| == |observers|
  {
    if observers == [] then []
    else ToEach(observers[..|observers| - 1], e) + [ToObserver(observers[|observers| - 1], e)]
  }

  /** `_runNext(data)` as deliveries: the length of the result list to the
      count channel, then `data` to every observer in registration order. */
  function Broadcast<T>(observers: seq<ObserverId>, count: nat, data: seq<T>): seq<Delivery<T>> {
    [ToCount(Next(count))] + ToEach(observers, Next(data))
  }

  /** `_runComplete()` as deliveries. */
  function CompleteAll<T>(observers: seq<ObserverId>): seq<Delivery<T>> {
    [ToCount(Complete)] + ToEach(observers, Complete)
  }

  /** What one subscriber has been sent, in order. */
  function LogOf<T>(trace: seq<Delivery<T>>, id: ObserverId): seq<Event<seq<T>>> {
    if trace == [] then []
    else
      var last := trace[|trace| - 1];
      LogOf(trace[..|trace| - 1], id) + (if last.ToObserver? && last.id == id then [last.event] else [])
  }

  /** What the count channel has been sent, in order. */
  function CountLog<T>(trace: seq<Delivery<T>>): seq<Event<nat>> {
    if trace == [] then []
    else
      var last := trace[|trace| - 1];
      CountLog(trace[..|trace| - 1]) + (if last.ToCount? then [last.countEvent] else [])
  }

  /** What a subscriber acts on: RxJS ignores everything sent after `complete`. */
  function Observed<P>(log: seq<Event<P>>): seq<Event<P>> {
    if log == [] then []
    else if log[0].Complete? then [Complete]
    else [log[0]] + Observed(log[1..])
  }

  /** Every subscriber the trace mentions has an identity below `n`. */
  predicate SentOnlyBelow<T>(trace: seq<Delivery<T>>, n: ObserverId) {
    forall i :: 0 <= i < |trace| && trace[i].ToObserver? ==> trace[i].id < n
  }

  /** A subscriber that did not exist yet has been sent nothing. */
  lemma {:induction false} LogOfUnsent<T>(trace: seq<Delivery<T>>, n: ObserverId)
    requires SentOnlyBelow(trace, n)
    ensures LogOf(trace, n) == []
    decreases |trace|
  {
    if trace != [] {
      LogOfUnsent(trace[..|trace| - 1], n);
    }
  }

  predicate Distinct(s: seq<ObserverId>) {
    forall i, j :: 0 <= i < j < |s| ==> s[i] != s[j]
  }

  lemma {:induction false} LogOfAppend<T>(a: seq<Delivery<T>>, b: seq<Delivery<T>>, id: ObserverId)
    ensures LogOf(a + b, id) == LogOf(a, id) + LogOf(b, id)
    decreases |b|
  {
    if b == [] {
      assert a + b == a;
    } else {
      assert (a + b)[..|a + b| - 1] == a + b[..|b| - 1];
      LogOfAppend(a, b[..|b| - 1], id);
    }
  }

  lemma {:induction false} CountLogAppend<T>(a: seq<Delivery<T>>, b: seq<Delivery<T>>)
    ensures CountLog(a + b) == CountLog(a) + CountLog(b)
    decreases |b|
  {
    if b == [] {
      assert a + b == a;
    } else {
      assert (a + b)[..|a + b| - 1] == a + b[..|b| - 1];
      CountLogAppend(a, b[..|b| - 1]);
    }
  }

  /** Deliveries to observers say nothing to the count channel. */
  lemma {:induction false} CountLogToEach<T>(observers: seq<ObserverId>, e: Event<seq<T>>)
    ensures CountLog(ToEach(observers, e)) == []
    decreases |observers|
  {
    if observers != [] {
      var init := observers[..|observers| - 1];
      CountLogToEach(init, e);
      CountLogAppend(ToEach(init, e), [ToObserver(observers[|observers| - 1], e)]);
    }
  }

  /** Fan-out order: the i-th delivery goes to the i-th registered observer. */
  lemma {:induction false} ToEachAt<T>(observers: seq<ObserverId>, e: Event<seq<T>>, i: nat)
    requires i < |observers|
    ensures |ToEach(observers, e)| == |observers|
    ensures ToEach(observers, e)[i] == ToObserver(observers[i], e)
    decreases |observers|
  {
    var init := observers[..|observers| - 1];
    if i < |init| {
      ToEachAt(init, e, i);
    } else if init != [] {
      ToEachAt(init, e, 0);
    }
  }

  /** Fan-out reach: with distinct observers, each registered observer gets
      the event exactly once and nobody else gets it. */
  lemma {:induction false} LogOfToEach<T>(observers: seq<ObserverId>, e: Event<seq<T>>, id: ObserverId)
    requires Distinct(observers)
    ensures LogOf(ToEach(observers, e), id) == if id in observers then [e] else []
    decreases |observers|
  {
    if observers != [] {
      var init := observers[..|observers| - 1];
      var last := observers[|observers| - 1];
      assert observers == init + [last];
      LogOfToEach(init, e, id);
      LogOfAppend(ToEach(init, e), [ToObserver(last, e)], id);
      assert LogOf([ToObserver(last, e)], id) == LogOf([], id) + (if last == id then [e] else []);
      if id == last {
        assert id !in init;
      }
    }
  }

  /** A broadcast sends the count once and `data` once to each registered
      observer. */
  lemma BroadcastReaches<T>(observers: seq<ObserverId>, count: nat, data: seq<T>, id: ObserverId)
    requires Distinct(observers)
    ensures CountLog(Broadcast(observers, count, data)) == [Next(count)]
    ensures LogOf(Broadcast(observers, count, data), id) == if id in observers then [Next(data)] else []
  {
    var head: seq<Delivery<T>> := [ToCount(Next(count))];
    CountLogAppend(head, ToEach(observers, Next(data)));
    CountLogToEach(observers, Next(data));
    assert CountLog(head) == CountLog(head[..0]) + [Next(count)];
    LogOfAppend(head, ToEach(observers, Next(data)), id);
    assert LogOf(head, id) == LogOf(head[..0], id);
    LogOfToEach(observers, Next(data), id);
  }

  /** Stopping completes the count channel once and each registered observer
      once. */
  lemma CompleteAllReaches<T>(observers: seq<ObserverId>, id: ObserverId)
    requires Distinct(observers)
    ensures CountLog(CompleteAll<T>(observers)) == [Complete]
    ensures LogOf(CompleteAll<T>(observers), id) == if id in observers then [Complete] else []
  {
    var head: seq<Delivery<T>> := [ToCount(Complete)];
    CountLogAppend(head, ToEach<T>(observers, Complete));
    CountLogToEach<T>(observers, Complete);
    assert CountLog(head) == CountLog(head[..0]) + [Complete];
    LogOfAppend(head, ToEach<T>(observers, Complete), id);
    assert LogOf(head, id) == LogOf(head[..0], id);
    LogOfToEach<T>(observers, Complete, id);
  }

  /** Once a log holds `Complete`, nothing appended to it is observed. */
  lemma {:induction false} ObservedAfterComplete<P>(log: seq<Event<P>>, more: seq<Event<P>>)
    requires Complete in log
    ensures Observed(log + more) == Observed(log)
  {
    if !log[0].Complete? {
      assert (log + more)[1..] == log[1..] + more;
      ObservedAfterComplete(log[1..], more);
    }
  }

  class ObservableCursor<T> {
    /** `_data`: the current result list. */
    var data: seq<T>
    /** `_observers`: the registry, in subscription order. */
    var observers: seq<ObserverId>
    /** `_observers` and `_cursor` have been set to null by `dispose()`. */
    var disposed: bool
    /** `_cursor` is set. */
    var hasCursor: bool
    /** `_hCursor`: the live-query handle, if any. */
    var handle: Option<HandleId>
    /** `_init`: the first coalesced broadcast has happened. */
    var init: bool
    /** A call of the zero-delay debounced handler is scheduled. */
    var pending: bool
    /** Every delivery made so far, in order. */
    var trace: seq<Delivery<T>>
    /** The identity the next subscriber receives. */
    var nextObserver: ObserverId
    /** How many live-query handles `observe` has returned. */
    var handlesCreated: nat
    /** The handles whose `stop()` has been called, in order. */
    var stopped: seq<HandleId>
    /** The store's changes applied since the last `stop()`. */
    ghost var history: seq<Change<T>>

    ghost predicate Valid()
      reads this
    {
      && Replay(history) == Some(data)
      && Distinct(observers)
      && (forall i :: 0 <= i < |observers| ==> observers[i] < nextObserver)
      && SentOnlyBelow(trace, nextObserver)
      && (handle.Some? ==> handle.value + 1 == handlesCreated)
      && (forall i :: 0 <= i < |stopped| ==> stopped[i] < handlesCreated)
      && (handle.Some? ==> forall i :: 0 <= i < |stopped| ==> stopped[i] < handle.value)
      && (forall i, j :: 0 <= i < j < |stopped| ==> stopped[i] < stopped[j])
    }

    /** `ObservableCursor.create(cursor)`: cold, with no live query yet. */
    constructor ()
      ensures Valid()
      ensures data == [] && observers == [] && handle == None && trace == []
      ensures !init && !pending && !disposed && hasCursor
      ensures handlesCreated == 0 && stopped == []
    {
      data := [];
      observers := [];
      disposed := false;
      hasCursor := true;
      handle := None;
      init := false;
      pending := false;
      trace := [];
      nextObserver := 0;
      handlesCreated := 0;
      stopped := [];
      history := [];
    }

    /**
     * The subscribe function: replay the current list if initialised,
     * register the new subscriber, and start the live query if none runs.
     * The returned identity stands for the teardown, see Unsubscribe.
     */
    method Subscribe() returns (id: ObserverId)
      requires Valid() && !disposed
      modifies this
      ensures Valid()
      ensures id == old(nextObserver) && id !in old(observers)
      ensures trace == old(trace) + (if init then [ToObserver(id, Next(data))] else [])
      ensures observers == old(observers) + [id]
      ensures old(handle).Some? ==> handle == old(handle) && handlesCreated == old(handlesCreated)
      ensures old(handle).None? ==> handle == Some(old(handlesCreated)) && handlesCreated == old(handlesCreated) + 1
      ensures data == old(data) && history == old(history) && stopped == old(stopped)
      ensures init == old(init) && pending == old(pending) && disposed == old(disposed) && hasCursor == old(hasCursor)
    {
      id := nextObserver;
      nextObserver := nextObserver + 1;
      if init {
        trace := trace + [ToObserver(id, Next(data))];
      }
      observers := observers + [id];
      if handle.None? {
        handle := Some(handlesCreated);
        handlesCreated := handlesCreated + 1;
      }
    }

    /** The teardown returned by the subscribe function: `removeObserver`
        with `stop()` as the "on empty" hook. */
    method Unsubscribe(id: ObserverId)
      requires Valid() && !disposed
      modifies this
      ensures Valid()
      ensures observers == Utils.Removed(old(observers), id)
      ensures observers != [] ==>
        && trace == old(trace) && data == old(data) && history == old(history)
        && handle == old(handle) && stopped == old(stopped)
      ensures observers == [] ==>
        && trace == old(trace) + CompleteAll([])
        && data == [] && history == [] && handle == None
        && stopped == old(stopped) + (if old(handle).Some? then [old(handle).value] else [])
      ensures init == old(init) && pending == old(pending) && handlesCreated == old(handlesCreated)
      ensures disposed == old(disposed) && hasCursor == old(hasCursor) && nextObserver == old(nextObserver)
    {
      var remaining, onEmpty := Utils.RemoveObserver(observers, id, true);
      RemovedKeepsDistinct(observers, id);
      observers := remaining;
      if onEmpty {
        Stop();
      }
    }

    /** `stop()`: complete the count channel and every observer, stop the
        live query if there is one, and clear the result list. The registry
        and `_init` are left as they are. */
    method Stop()
      requires Valid() && !disposed
      modifies this
      ensures Valid()
      ensures trace == old(trace) + CompleteAll(observers)
      ensures stopped == old(stopped) + (if old(handle).Some? then [old(handle).value] else [])
      ensures data == [] && history == [] && handle == None
      ensures observers == old(observers) && init == old(init) && pending == old(pending)
      ensures handlesCreated == old(handlesCreated) && nextObserver == old(nextObserver)
      ensures disposed == old(disposed) && hasCursor == old(hasCursor)
    {
      RunComplete();
      if handle.Some? {
        stopped := stopped + [handle.value];
      }
      data := [];
      handle := None;
      history := [];
    }

    /** `dispose()`: drop the registry and the store cursor, nothing else. */
    method Dispose()
      requires Valid()
      modifies this
      ensures Valid()
      ensures disposed && !hasCursor && observers == []
      ensures data == old(data) && history == old(history) && handle == old(handle) && trace == old(trace)
      ensures init == old(init) && pending == old(pending) && stopped == old(stopped)
      ensures handlesCreated == old(handlesCreated) && nextObserver == old(nextObserver)
    {
      observers := [];
      disposed := true;
      hasCursor := false;
    }

    /** `_runComplete()`. */
    method RunComplete()
      requires Valid() && !disposed
      modifies this`trace
      ensures Valid()
      ensures trace == old(trace) + CompleteAll(observers)
    {
      trace := trace + [ToCount(Complete)];
      var i := 0;
      while i < |observers|
        invariant 0 <= i <= |observers|
        invariant trace == old(trace) + [ToCount(Complete)] + ToEach(observers[..i], Complete)
        invariant SentOnlyBelow(trace, nextObserver)
      {
        assert observers[..i + 1][..i] == observers[..i];
        trace := trace + [ToObserver(observers[i], Complete)];
        i := i + 1;
      }
      assert observers[..i] == observers;
    }

    /** `_runNext(d)`: the count channel gets the length of the result list,
        every observer gets `d`. */
    method RunNext(d: seq<T>)
      requires Valid() && !disposed
      modifies this`trace
      ensures Valid()
      ensures trace == old(trace) + Broadcast(observers, |data|, d)
    {
      trace := trace + [ToCount(Next(|data|))];
      var i := 0;
      while i < |observers|
        invariant 0 <= i <= |observers|
        invariant trace == old(trace) + [ToCount(Next(|data|))] + ToEach(observers[..i], Next(d))
        invariant SentOnlyBelow(trace, nextObserver)
      {
        assert observers[..i + 1][..i] == observers[..i];
        trace := trace + [ToObserver(observers[i], Next(d))];
        i := i + 1;
      }
      assert observers[..i] == observers;
    }

    /** `_handleChange()`: broadcast the current result list. */
    method HandleChange()
      requires Valid() && !disposed
      modifies this`trace
      ensures Valid()
      ensures trace == old(trace) + Broadcast(observers, |data|, data)
    {
      RunNext(data);
    }

    /** The debounced handler runs: one broadcast, then `_init` is set. */
    method FireDebounce()
      requires Valid() && !disposed && pending
      modifies this
      ensures Valid()
      ensures trace == old(trace) + Broadcast(observers, |data|, data)
      ensures init && !pending
      ensures data == old(data) && history == old(history) && observers == old(observers)
      ensures handle == old(handle) && stopped == old(stopped) && handlesCreated == old(handlesCreated)
      ensures disposed == old(disposed) && hasCursor == old(hasCursor) && nextObserver == old(nextObserver)
    {
      HandleChange();
      init := true;
      pending := false;
    }

    /** `_addedAt(doc, at, before)`: insert `doc` at `at`; before the first
        broadcast only schedule the debounced one, afterwards broadcast now. */
    method AddedAt(doc: T, at: nat)
      requires Valid() && (init ==> !disposed)
      requires at <= |data|
      modifies this
      ensures Valid()
      ensures data == Insert(old(data), at, doc)
      ensures history == old(history) + [ListModel.AddedAt(doc, at)]
      ensures old(init) ==> trace == old(trace) + Broadcast(observers, |data|, data) && pending == old(pending)
      ensures !old(init) ==> trace == old(trace) && pending
      ensures observers == old(observers) && init == old(init) && handle == old(handle) && stopped == old(stopped)
      ensures handlesCreated == old(handlesCreated) && nextObserver == old(nextObserver)
      ensures disposed == old(disposed) && hasCursor == old(hasCursor)
    {
      SpliceInsert(data, at, doc);
      ReplaySnoc(history, ListModel.AddedAt(doc, at), data);
      data := Splice(data, at, 0, [doc]);
      history := history + [ListModel.AddedAt(doc, at)];
      if !init {
        pending := true;
        return;
      }
      HandleChange();
    }

    /** `_changedAt(doc, old, at)`: replace position `at`, broadcast now. */
    method ChangedAt(doc: T, at: nat)
      requires Valid() && !disposed
      requires at < |data|
      modifies this
      ensures Valid()
      ensures data == old(data)[at := doc]
      ensures history == old(history) + [ListModel.ChangedAt(doc, at)]
      ensures trace == old(trace) + Broadcast(observers, |data|, data)
      ensures observers == old(observers) && init == old(init) && pending == old(pending)
      ensures handle == old(handle) && stopped == old(stopped) && handlesCreated == old(handlesCreated)
      ensures disposed == old(disposed) && hasCursor == old(hasCursor) && nextObserver == old(nextObserver)
    {
      ReplaySnoc(history, ListModel.ChangedAt(doc, at), data);
      data := data[at := doc];
      history := history + [ListModel.ChangedAt(doc, at)];
      HandleChange();
    }

    /** `_removedAt(doc, at)`: delete position `at`, broadcast now. */
    method RemovedAt(at: nat)
      requires Valid() && !disposed
      requires at < |data|
      modifies this
      ensures Valid()
      ensures data == Delete(old(data), at)
      ensures history == old(history) + [ListModel.RemovedAt(at)]
      ensures trace == old(trace) + Broadcast(observers, |data|, data)
      ensures observers == old(observers) && init == old(init) && pending == old(pending)
      ensures handle == old(handle) && stopped == old(stopped) && handlesCreated == old(handlesCreated)
      ensures disposed == old(disposed) && hasCursor == old(hasCursor) && nextObserver == old(nextObserver)
    {
      SpliceDelete(data, at);
      ReplaySnoc(history, ListModel.RemovedAt(at), data);
      data := Splice(data, at, 1, []);
      history := history + [ListModel.RemovedAt(at)];
      HandleChange();
    }

    /** `_movedTo(doc, fromIndex, toIndex)`: delete at `from`, insert `doc`
        at `to`, broadcast now. */
    method MovedTo(doc: T, from: nat, to: nat)
      requires Valid() && !disposed
      requires from < |data| && to < |data|
      modifies this
      ensures Valid()
      ensures data == Insert(Delete(old(data), from), to, doc)
      ensures history == old(history) + [ListModel.MovedTo(doc, from, to)]
      ensures trace == old(trace) + Broadcast(observers, |data|, data)
      ensures observers == old(observers) && init == old(init) && pending == old(pending)
      ensures handle == old(handle) && stopped == old(stopped) && handlesCreated == old(handlesCreated)
      ensures disposed == old(disposed) && hasCursor == old(hasCursor) && nextObserver == old(nextObserver)
    {
      ReplaySnoc(history, ListModel.MovedTo(doc, from, to), data);
      SpliceDelete(data, from);
      data := Splice(data, from, 1, []);
      SpliceInsert(data, to, doc);
      data := Splice(data, to, 0, [doc]);
      history := history + [ListModel.MovedTo(doc, from, to)];
      HandleChange();
    }
  }

  /** A burst of `addedAt` callbacks before the first broadcast sends nothing;
      the debounce timer then sends one broadcast carrying the whole burst. */
  method BurstOfAdds<T>(c: ObservableCursor<T>, a: T, b: T, d: T)
    requires c.Valid() && !c.disposed && !c.init && c.data == []
    modifies c
    ensures c.Valid() && c.init && !c.pending
    ensures c.data == [a, b, d]
    ensures c.trace == old(c.trace) + Broadcast(c.observers, 3, [a, b, d])
  {
    c.AddedAt(a, 0);
    c.AddedAt(b, 1);
    c.AddedAt(d, 2);
    c.FireDebounce();
  }

  /** After the first broadcast, a new subscriber is sent the current list
      once, and then each later change like everyone else. */
  method LateSubscriber<T>(c: ObservableCursor<T>, doc: T, at: nat) returns (id: ObserverId)
    requires c.Valid() && !c.disposed && c.init && at < |c.data|
    modifies c
    ensures c.Valid()
    ensures id in c.observers
    ensures LogOf(c.trace, id) == [Next(old(c.data)), Next(old(c.data)[at := doc])]
  {
    LogOfUnsent(c.trace, c.nextObserver);
    ghost var t0 := c.trace;
    id := c.Subscribe();
    ghost var t1 := c.trace;
    LogOfAppend(t0, [ToObserver(id, Next(old(c.data)))], id);
    assert LogOf([ToObserver(id, Next(old(c.data)))], id) == LogOf([], id) + [Next(old(c.data))];
    c.ChangedAt(doc, at);
    LogOfAppend(t1, Broadcast(c.observers, |c.data|, c.data), id);
    BroadcastReaches(c.observers, |c.data|, c.data, id);
  }

  /** A second `stop()` stops no handle and changes nothing a subscriber
      acts on: every registered observer and the count channel were already
      completed by the first. */
  method StopTwice<T>(c: ObservableCursor<T>, id: ObserverId)
    requires c.Valid() && !c.disposed
    modifies c
    ensures c.Valid()
    ensures c.stopped == old(c.stopped) + (if old(c.handle).Some? then [old(c.handle).value] else [])
    ensures c.data == [] && c.handle == None && c.observers == old(c.observers)
    ensures Observed(CountLog(c.trace)) == Observed(CountLog(old(c.trace)) + [Complete])
    ensures id in c.observers ==> Observed(LogOf(c.trace, id)) == Observed(LogOf(old(c.trace), id) + [Complete])
  {
    ghost var t0 := c.trace;
    c.Stop();
    ghost var t1 := c.trace;
    c.Stop();
    CompleteAllReaches<T>(c.observers, id);
    CountLogAppend(t0, CompleteAll<T>(c.observers));
    CountLogAppend(t1, CompleteAll<T>(c.observers));
    ObservedAfterComplete(CountLog(t1), [Complete]);
    if id in c.observers {
      LogOfAppend(t0, CompleteAll<T>(c.observers), id);
      LogOfAppend(t1, CompleteAll<T>(c.observers), id);
      ObservedAfterComplete(LogOf(t1, id), [Complete]);
    }
  }

  /** Unsubscribing the only subscriber stops the live query: its handle is
      stopped, the count channel is completed and the result list cleared. */
  method UnsubscribeLast<T>(c: ObservableCursor<T>, id: ObserverId)
    requires c.Valid() && !c.disposed && c.observers == [id]
    modifies c
    ensures c.Valid() && c.observers == [] && c.handle == None && c.data == []
    ensures c.stopped == old(c.stopped) + (if old(c.handle).Some? then [old(c.handle).value] else [])
    ensures CountLog(c.trace) == CountLog(old(c.trace)) + [Complete]
  {
    ghost var t0 := c.trace;
    Utils.RemovedPresent(c.observers, id, 0);
    c.Unsubscribe(id);
    CompleteAllReaches<T>([], id);
    CountLogAppend(t0, CompleteAll<T>([]));
  }

  /** Unsubscribing one of two subscribers leaves the live query running:
      the handle, the stopped handles and the trace are untouched, and only
      the other subscriber stays registered. */
  method UnsubscribeOneOfTwo<T>(c: ObservableCursor<T>, id: ObserverId)
    requires c.Valid() && !c.disposed && |c.observers| == 2 && id in c.observers
    modifies c
    ensures c.Valid()
    ensures c.handle == old(c.handle) && c.stopped == old(c.stopped) && c.trace == old(c.trace)
    ensures c.data == old(c.data)
    ensures c.observers == [if old(c.observers)[0] == id then old(c.observers)[1] else old(c.observers)[0]]
  {
    var i: nat := IndexOf(c.observers, id);
    Utils.RemovedPresent(c.observers, id, i);
    c.Unsubscribe(id);
  }

  /** Removing from a registry of distinct identities keeps it distinct and
      introduces no identity. */
  lemma RemovedKeepsDistinct(s: seq<ObserverId>, x: ObserverId)
    requires Distinct(s)
    ensures Distinct(Utils.Removed(s, x))
    ensures forall i :: 0 <= i < |Utils.Removed(s, x)| ==> Utils.Removed(s, x)[i] in s
  {
    var r := Utils.Removed(s, x);
    if x in s {
      var i: nat := IndexOf(s, x);
      Utils.RemovedPresent(s, x, i);
      DeleteAt(s, i);
      assert r == Delete(s, i);
      forall a, b | 0 <= a < b < |r|
        ensures r[a] != r[b]
      {
        var a' := if a < i then a else a + 1;
        var b' := if b < i then b else b + 1;
        assert r[a] == s[a'] && r[b] == s[b'] && a' < b';
      }
      forall k | 0 <= k < |r|
        ensures r[k] in s
      {
        var k' := if k < i then k else k + 1;
        assert r[k] == s[k'];
      }
    } else {
      Utils.RemovedAbsent(s, x);
      forall k | 0 <= k < |r|
        ensures r[k] in s
      {
        assert r[k] == s[k];
      }
    }
  }
}
