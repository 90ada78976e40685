/**
 * Helpers shared by the observable adapters: removing a subscriber from an
 * observer registry with an "on empty" hook, and recognising the callback
 * arguments a subscription call accepts.
 */
module Utils {

  import opened Js
  import opened ListModel

  /** The callback names a callbacks object may carry. */
  const SubscribeEvents: seq<string> := ["onReady", "onError", "onStop"]

  /** The sequence without the first occurrence of `x` (unchanged when there
      is none). */
  function RemoveFirst<X(==)>(s: seq<X>, x: X): seq<X> {
    if s == [] then []
    else if s[0] == x then s[1..]
    else [s[0]] + RemoveFirst(s[1..], x)
  }

  /** The registry after removing `x`: its first occurrence when it is there;
      otherwise the last entry, because `indexOf` yields -1 and `splice(-1, 1)`
      drops the last element (an empty registry stays empty). */
  function Removed<X(==)>(s: seq<X>, x: X): seq<X> {
    if x in s then RemoveFirst(s, x)
    else if s == [] then []
    else s[..|s| - 1]
  }

  /**
   * `removeObserver(observers, observer, onEmpty)`. The array the caller
   * passes is edited in place; here its new contents are returned in
   * `remaining`, and `onEmptyCalled` says whether the hook ran.
   */
  method RemoveObserver<X(==)>(observers: seq<X>, observer: X, hasOnEmpty: bool)
    returns (remaining: seq<X>, onEmptyCalled: bool)
    ensures remaining == Removed(observers, observer)
    ensures onEmptyCalled <==> remaining == [] && hasOnEmpty
  {
    var index := IndexOf(observers, observer);
    if index == -1 {
      remaining := Splice(observers, index, 1, []);
      SpliceMinusOne(observers);
      RemovedAbsent(observers, observer);
    } else {
      var i: nat := index;
      remaining := Splice(observers, i, 1, []);
      SpliceDelete(observers, i);
      RemovedPresent(observers, observer, i);
    }
    onEmptyCalled := |remaining| == 0 && hasOnEmpty;
  }

  /** A present observer: its first occurrence goes, the length drops by one,
      and every other entry keeps its relative order. */
  lemma {:induction false} RemovedPresent<X>(s: seq<X>, x: X, i: nat)
    requires i < |s| && s[i] == x && x !in s[..i]
    ensures Removed(s, x) == s[..i] + s[i + 1..]
    ensures |Removed(s, x)| == |s| - 1
  {
    assert x in s;
    if i > 0 {
      assert s[0] == s[..i][0];
      assert s[1..][i - 1] == x && s[1..][..i - 1] == s[..i][1..];
      RemovedPresent(s[1..], x, i - 1);
      assert s[..i] + s[i + 1..] == [s[0]] + (s[1..][..i - 1] + s[1..][i..]);
    }
  }

  /** An absent observer: the last entry of a non-empty registry is dropped
      instead, and an empty registry stays empty. */
  lemma RemovedAbsent<X>(s: seq<X>, x: X)
    requires x !in s
    ensures s == [] ==> Removed(s, x) == []
    ensures s != [] ==> Removed(s, x) == s[..|s| - 1] && |Removed(s, x)| == |s| - 1
  {
  }

  /** Removal never adds entries: whatever remains was in the registry, and
      exactly one entry goes unless the registry was already empty. */
  lemma RemovedSubset<X>(s: seq<X>, x: X)
    ensures multiset(Removed(s, x)) <= multiset(s)
    ensures |Removed(s, x)| == if s == [] then 0 else |s| - 1
  {
    if x in s {
      var i: nat := IndexOf(s, x);
      RemovedPresent(s, x, i);
      MultisetDelete(s, i);
    } else if s != [] {
      RemovedAbsent(s, x);
      MultisetDelete(s, |s| - 1);
    }
  }

  /** `_.isFunction(v)`. */
  predicate IsFunction(v: Value) {
    v.Fn?
  }

  /** `events.some(e => _.isFunction(callbacks[e]))` for a callbacks value
      that is not nullish. */
  function SomeIsFunction(callbacks: Value, events: seq<string>): (r: bool)
    requires !Nullish(callbacks)
    ensures r <==> exists i :: 0 <= i < |events| && IsFunction(Get(callbacks, events[i]))
  {
    if events == [] then false
    else IsFunction(Get(callbacks, events[0])) || SomeIsFunction(callbacks, events[1..])
  }

  /**
   * `isCallbacksObject(callbacks)`: `callbacks && SubscribeEvents.some(...)`.
   * A falsy argument is returned itself (that is what `&&` yields), so the
   * result is a JavaScript value rather than a boolean.
   */
  function IsCallbacksObject(callbacks: Value): (r: Value)
    ensures Truthy(r) <==> (Truthy(callbacks) &&
      (IsFunction(Get(callbacks, "onReady")) || IsFunction(Get(callbacks, "onError")) || IsFunction(Get(callbacks, "onStop"))))
    ensures !Truthy(callbacks) ==> r == callbacks
    ensures Truthy(callbacks) ==> r.Bool?
  {
    if !Truthy(callbacks) then callbacks
    else
      var r := SomeIsFunction(callbacks, SubscribeEvents);
      assert SubscribeEvents[0] == "onReady" && SubscribeEvents[1] == "onError" && SubscribeEvents[2] == "onStop";
      Bool(r)
  }

  /** `isMeteorCallbacks(callbacks)`: `_.isFunction(callbacks) || isCallbacksObject(callbacks)`. */
  function IsMeteorCallbacks(callbacks: Value): (r: Value)
    ensures Truthy(r) <==> IsFunction(callbacks) || Truthy(IsCallbacksObject(callbacks))
    ensures IsFunction(callbacks) ==> r == Bool(true)
    ensures !IsFunction(callbacks) ==> r == IsCallbacksObject(callbacks)
  {
    if IsFunction(callbacks) then Bool(true) else IsCallbacksObject(callbacks)
  }
}
