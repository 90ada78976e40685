/**
 * The fragment of JavaScript's value and array semantics that the rest of the
 * model relies on: truthiness, own-property lookup, and the Array.prototype
 * operations `splice`, `indexOf` and `concat`.
 */
module Js {

  datatype Option<+T> = None | Some(value: T)

  /** The only exception the modelled code can raise: reading a property of
      `null` or `undefined`. */
  datatype JsError = TypeError

  /** The outcome of evaluating an expression that may throw. */
  datatype Result<+T> = Ok(value: T) | Thrown(error: JsError)

  /** A JavaScript value. Numbers are integers (no NaN, no -0, no fractions);
      functions carry their own properties like any other object. */
  datatype Value =
    | Undefined
    | Null
    | Bool(b: bool)
    | Num(n: int)
    | Str(s: string)
    | Arr(elems: seq<Value>)
    | Obj(props: map<string, Value>)
    | Fn(fnProps: map<string, Value>)

  /** ToBoolean: undefined, null, false, 0 and "" are falsy, everything else truthy. */
  predicate Truthy(v: Value) {
    match v
    case Undefined => false
    case Null => false
    case Bool(b) => b
    case Num(n) => n != 0
    case Str(s) => s != ""
    case _ => true
  }

  predicate Nullish(v: Value) {
    v.Undefined? || v.Null?
  }

  predicate IsDigit(c: char) {
    '0' <= c <= '9'
  }

  function DigitsValue(k: string): nat
    requires forall i :: 0 <= i < |k| ==> IsDigit(k[i])
  {
    if k == [] then 0
    else
      assert IsDigit(k[|k| - 1]);
      DigitsValue(k[..|k| - 1]) * 10 + (k[|k| - 1] as int - '0' as int)
  }

  /** The array index a property key denotes, if it is a canonical decimal
      numeral ("0", "17", but not "017" or "-1"). */
  function ParseIndex(k: string): (r: Option<nat>)
    ensures r.Some? ==> k != [] && (k[0] == '0' ==> k == "0")
  {
    if k != [] && (forall i :: 0 <= i < |k| ==> IsDigit(k[i])) && (k[0] != '0' || k == "0")
    then Some(DigitsValue(k))
    else None
  }

  /** `v[key]` for a value that is not null or undefined: own properties of
      objects and functions, `length` and indices of arrays and strings;
      every other key reads as `undefined`. */
  function Get(v: Value, key: string): Value
    requires !Nullish(v)
  {
    match v
    case Obj(props) => if key in props then props[key] else Undefined
    case Fn(props) => if key in props then props[key] else Undefined
    case Arr(elems) =>
      var i := ParseIndex(key);
      if key == "length" then Num(|elems|)
      else if i.Some? && i.value < |elems| then elems[i.value]
      else Undefined
    case Str(s) =>
      var i := ParseIndex(key);
      if key == "length" then Num(|s|)
      else if i.Some? && i.value < |s| then Str([s[i.value]])
      else Undefined
    case _ => Undefined
  }

  /** `v[key]` for any value: throws a TypeError on null and undefined. */
  function Access(v: Value, key: string): (r: Result<Value>)
    ensures r.Thrown? <==> Nullish(v)
  {
    if Nullish(v) then Thrown(TypeError) else Ok(Get(v, key))
  }

  /** The position `splice` starts at: a negative start counts from the end
      and is clamped to 0, a start past the end is clamped to the length. */
  function SpliceStart(len: nat, start: int): (k: nat)
    ensures k <= len
    ensures 0 <= start <= len ==> k == start
    ensures -(len as int) <= start < 0 ==> k == len + start
  {
    if start < 0 then (if len + start < 0 then 0 else len + start)
    else if start > len then len
    else start
  }

  /** The contents of `s` after `s.splice(start, deleteCount, ...items)`. */
  function Splice<T>(s: seq<T>, start: int, deleteCount: int, items: seq<T>): (r: seq<T>)
    ensures SpliceStart(|s|, start) + |items| <= |r| <= |s| + |items|
    ensures r[..SpliceStart(|s|, start)] == s[..SpliceStart(|s|, start)]
    ensures r[SpliceStart(|s|, start)..SpliceStart(|s|, start) + |items|] == items
    ensures var k := SpliceStart(|s|, start);
            var d := if deleteCount < 0 then 0 else if deleteCount > |s| - k then |s| - k else deleteCount;
            |r| == |s| + |items| - d && r[k + |items|..] == s[k + d..]
  {
    var k := SpliceStart(|s|, start);
    var d := if deleteCount < 0 then 0 else if deleteCount > |s| - k then |s| - k else deleteCount;
    s[..k] + items + s[k + d..]
  }

  /** `s.indexOf(x)`: the first position holding `x`, or -1. */
  function IndexOf<T(==)>(s: seq<T>, x: T): (i: int)
    ensures i == -1 <==> x !in s
    ensures i != -1 ==> 0 <= i < |s| && s[i] == x && x !in s[..i]
  {
    if s == [] then -1
    else if s[0] == x then 0
    else
      var j := IndexOf(s[1..], x);
      if j == -1 then -1 else j + 1
  }

  /** `acc.concat(x)`: an array argument is spread, any other value is
      appended as a single element. */
  function Concat(acc: seq<Value>, x: Value): (r: seq<Value>)
    ensures |acc| <= |r| && r[..|acc|] == acc
    ensures x.Arr? ==> r[|acc|..] == x.elems
    ensures !x.Arr? ==> r[|acc|..] == [x]
  {
    if x.Arr? then acc + x.elems else acc + [x]
  }

  /** Inserting one item at an in-range position. */
  lemma SpliceInsert<T>(s: seq<T>, at: nat, x: T)
    requires at <= |s|
    ensures Splice(s, at, 0, [x]) == s[..at] + [x] + s[at..]
    ensures |Splice(s, at, 0, [x])| == |s| + 1
  {
  }

  /** Deleting one item at an in-range position. */
  lemma SpliceDelete<T>(s: seq<T>, at: nat)
    requires at < |s|
    ensures Splice(s, at, 1, []) == s[..at] + s[at + 1..]
    ensures |Splice(s, at, 1, [])| == |s| - 1
  {
  }

  /** `splice(-1, 1)` drops the last element of a non-empty array and leaves
      an empty array empty. */
  lemma SpliceMinusOne<T>(s: seq<T>)
    ensures s == [] ==> Splice(s, -1, 1, []) == []
    ensures s != [] ==> Splice(s, -1, 1, []) == s[..|s| - 1]
  {
  }
}
