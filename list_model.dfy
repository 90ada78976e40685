/**
 * The reference model of a live query's result set: a plain ordered list and
 * the four positional changes a live-query engine reports against it, defined
 * with sequence slicing only (no JavaScript array semantics).
 */
module ListModel {

  import opened Js

  /** One change reported by the live-query engine. */
  datatype Change<T> =
    | AddedAt(doc: T, at: nat)
    | ChangedAt(doc: T, at: nat)
    | RemovedAt(at: nat)
    | MovedTo(doc: T, from: nat, to: nat)

  /** The engine only reports positions that exist in the current list. */
  predicate Applicable<T>(s: seq<T>, c: Change<T>) {
    match c
    case AddedAt(_, at) => at <= |s|
    case ChangedAt(_, at) => at < |s|
    case RemovedAt(at) => at < |s|
    case MovedTo(_, from, to) => from < |s| && to < |s|
  }

  function Insert<T>(s: seq<T>, at: nat, x: T): seq<T>
    requires at <= |s|
  {
    s[..at] + [x] + s[at..]
  }

  function Delete<T>(s: seq<T>, at: nat): seq<T>
    requires at < |s|
  {
    s[..at] + s[at + 1..]
  }

  function Apply<T>(s: seq<T>, c: Change<T>): seq<T>
    requires Applicable(s, c)
  {
    match c
    case AddedAt(doc, at) => Insert(s, at, doc)
    case ChangedAt(doc, at) => s[at := doc]
    case RemovedAt(at) => Delete(s, at)
    case MovedTo(doc, from, to) => Insert(Delete(s, from), to, doc)
  }

  /** The list obtained by applying `cs` in order to the empty list, or None
      when some change refers to a position that does not exist. */
  function Replay<T>(cs: seq<Change<T>>): Option<seq<T>> {
    if cs == [] then Some([])
    else
      var prev := Replay(cs[..|cs| - 1]);
      var c := cs[|cs| - 1];
      if prev.Some? && Applicable(prev.value, c) then Some(Apply(prev.value, c)) else None
  }

  /** Replaying one more change extends the previous replay by that change. */
  lemma ReplaySnoc<T>(cs: seq<Change<T>>, c: Change<T>, s: seq<T>)
    requires Replay(cs) == Some(s) && Applicable(s, c)
    ensures Replay(cs + [c]) == Some(Apply(s, c))
  {
    assert (cs + [c])[..|cs + [c]| - 1] == cs;
  }

  /** What each change does to the length of the list. */
  lemma ApplyLength<T>(s: seq<T>, c: Change<T>)
    requires Applicable(s, c)
    ensures c.AddedAt? ==> |Apply(s, c)| == |s| + 1
    ensures c.ChangedAt? ==> |Apply(s, c)| == |s|
    ensures c.RemovedAt? ==> |Apply(s, c)| == |s| - 1
    ensures c.MovedTo? ==> |Apply(s, c)| == |s|
  {
  }

  /** Inserting places `x` at `at` and shifts the tail one place right. */
  lemma InsertAt<T>(s: seq<T>, at: nat, x: T)
    requires at <= |s|
    ensures |Insert(s, at, x)| == |s| + 1
    ensures Insert(s, at, x)[at] == x
    ensures forall i :: 0 <= i < at ==> Insert(s, at, x)[i] == s[i]
    ensures forall i :: at < i <= |s| ==> Insert(s, at, x)[i] == s[i - 1]
  {
  }

  /** Deleting drops position `at` and shifts the tail one place left. */
  lemma DeleteAt<T>(s: seq<T>, at: nat)
    requires at < |s|
    ensures |Delete(s, at)| == |s| - 1
    ensures forall i :: 0 <= i < at ==> Delete(s, at)[i] == s[i]
    ensures forall i :: at <= i < |s| - 1 ==> Delete(s, at)[i] == s[i + 1]
  {
  }

  /** Insert and Delete at the same position undo each other. */
  lemma DeleteInsert<T>(s: seq<T>, at: nat, x: T)
    requires at <= |s|
    ensures Delete(Insert(s, at, x), at) == s
  {
    assert Insert(s, at, x)[..at] == s[..at];
    assert Insert(s, at, x)[at + 1..] == s[at..];
  }

  lemma {:induction false} MultisetDelete<T>(s: seq<T>, at: nat)
    requires at < |s|
    ensures multiset(Delete(s, at)) + multiset{s[at]} == multiset(s)
  {
    assert s == s[..at] + [s[at]] + s[at + 1..];
    calc {
      multiset(s);
      multiset(s[..at] + [s[at]] + s[at + 1..]);
      multiset(s[..at]) + multiset{s[at]} + multiset(s[at + 1..]);
      multiset(Delete(s, at)) + multiset{s[at]};
    }
  }

  lemma MultisetInsert<T>(s: seq<T>, at: nat, x: T)
    requires at <= |s|
    ensures multiset(Insert(s, at, x)) == multiset(s) + multiset{x}
  {
    assert s == s[..at] + s[at..];
  }

  /** A move of the element that is at `from` only reorders the list: the
      length and the multiset of documents are unchanged. */
  lemma MovePermutes<T>(s: seq<T>, from: nat, to: nat)
    requires from < |s| && to < |s|
    ensures |Apply(s, MovedTo(s[from], from, to))| == |s|
    ensures multiset(Apply(s, MovedTo(s[from], from, to))) == multiset(s)
  {
    MultisetDelete(s, from);
    MultisetInsert(Delete(s, from), to, s[from]);
  }

  /** The moved document ends up at `to` and the others keep their order. */
  lemma MoveLandsAt<T>(s: seq<T>, doc: T, from: nat, to: nat)
    requires from < |s| && to < |s|
    ensures Apply(s, MovedTo(doc, from, to))[to] == doc
    ensures Delete(Apply(s, MovedTo(doc, from, to)), to) == Delete(s, from)
  {
    DeleteInsert(Delete(s, from), to, doc);
  }
}
