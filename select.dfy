/**
 * The `select(field)` operator: each value passing through the stream is
 * replaced by its `field` — element-wise for arrays, flattened one level when
 * the first element's field is itself an array.
 */
module Select {

  import opened Js

  /** `xs.map(doc => doc[field])`: the first null or undefined element throws. */
  function Pluck(xs: seq<Value>, field: string): (r: Result<seq<Value>>)
    ensures r.Ok? <==> forall i :: 0 <= i < |xs| ==> !Nullish(xs[i])
    ensures r.Ok? ==> |r.value| == |xs|
    ensures r.Ok? ==> forall i :: 0 <= i < |xs| ==> r.value[i] == Get(xs[i], field)
  {
    if xs == [] then Ok([])
    else
      match Access(xs[0], field)
      case Thrown(e) => Thrown(e)
      case Ok(v) =>
        match Pluck(xs[1..], field)
        case Thrown(e) => Thrown(e)
        case Ok(rest) =>
          assert forall i :: 1 <= i < |xs| ==> xs[i] == xs[1..][i - 1];
          Ok([v] + rest)
  }

  /** `fields.reduce((result, f) => result.concat(f), acc)`. */
  function ConcatAll(acc: seq<Value>, fields: seq<Value>): seq<Value>
    decreases |fields|
  {
    if fields == [] then acc else ConcatAll(Concat(acc, fields[0]), fields[1..])
  }

  /** What one value contributes to a one-level flattening. */
  function Spread(x: Value): seq<Value> {
    if x.Arr? then x.elems else [x]
  }

  /** One-level flattening, defined element by element from the front. */
  function Flatten(fields: seq<Value>): seq<Value> {
    if fields == [] then [] else Spread(fields[0]) + Flatten(fields[1..])
  }

  /** The left fold of `concat` is the one-level flattening of its inputs,
      appended to the initial accumulator. */
  lemma {:induction false} ConcatAllFlattens(acc: seq<Value>, fields: seq<Value>)
    ensures ConcatAll(acc, fields) == acc + Flatten(fields)
    decreases |fields|
  {
    if fields != [] {
      ConcatAllFlattens(Concat(acc, fields[0]), fields[1..]);
      assert Concat(acc, fields[0]) == acc + Spread(fields[0]);
    }
  }

  /** The first element decides: it exists, is truthy, and its field is an array. */
  predicate FlattensOn(xs: seq<Value>, field: string) {
    |xs| > 0 && Truthy(xs[0]) && Get(xs[0], field).Arr?
  }

  /** `SelectSubscriber._next(value)`: the value forwarded downstream, or the
      TypeError the projection throws. */
  function SelectValue(value: Value, field: string): (r: Result<Value>)
    ensures r.Thrown? <==> value.Arr? && exists i :: 0 <= i < |value.elems| && Nullish(value.elems[i])
    ensures value.Arr? && r.Ok? ==> r.value.Arr?
  {
    if Truthy(value) && value.Arr? then
      var xs := value.elems;
      var value0 := if |xs| > 0 then xs[0] else Undefined;
      if Truthy(value0) && Get(value0, field).Arr? then
        match Pluck(xs, field)
        case Ok(fields) => Ok(Arr(ConcatAll([], fields)))
        case Thrown(e) => Thrown(e)
      else
        match Pluck(xs, field)
        case Ok(fields) => Ok(Arr(fields))
        case Thrown(e) => Thrown(e)
    else
      Ok(if Truthy(value) then Get(value, field) else value)
  }

  /** The field of every element, when no element is null or undefined. */
  function Fields(xs: seq<Value>, field: string): (r: seq<Value>)
    requires forall i :: 0 <= i < |xs| ==> !Nullish(xs[i])
    ensures |r| == |xs|
  {
    seq(|xs|, i requires 0 <= i < |xs| => Get(xs[i], field))
  }

  /** Flatten branch: the per-element fields concatenated one level. A later
      element whose field is not an array contributes itself as one element. */
  lemma SelectFlattens(xs: seq<Value>, field: string)
    requires FlattensOn(xs, field)
    requires forall i :: 0 <= i < |xs| ==> !Nullish(xs[i])
    ensures SelectValue(Arr(xs), field) == Ok(Arr(Flatten(Fields(xs, field))))
  {
    assert Pluck(xs, field).value == Fields(xs, field);
    ConcatAllFlattens([], Fields(xs, field));
    assert [] + Flatten(Fields(xs, field)) == Flatten(Fields(xs, field));
  }

  /** Map branch: one projected field per element, in order. */
  lemma SelectMaps(xs: seq<Value>, field: string)
    requires !FlattensOn(xs, field)
    requires forall i :: 0 <= i < |xs| ==> !Nullish(xs[i])
    ensures SelectValue(Arr(xs), field) == Ok(Arr(Fields(xs, field)))
    ensures |SelectValue(Arr(xs), field).value.elems| == |xs|
  {
    assert Pluck(xs, field).value == Fields(xs, field);
  }

  /** The empty array maps to the empty array. */
  lemma SelectEmpty(field: string)
    ensures SelectValue(Arr([]), field) == Ok(Arr([]))
  {
  }

  /** A value that is not an array: `value && value[field]`, so a falsy value
      is forwarded itself and a truthy one gives its field. */
  lemma SelectSingle(value: Value, field: string)
    requires !value.Arr?
    ensures !Truthy(value) ==> SelectValue(value, field) == Ok(value)
    ensures Truthy(value) ==> SelectValue(value, field) == Ok(Get(value, field))
  {
  }

  /** `[{a: [1, 2]}, {a: [3]}]` selects to `[1, 2, 3]`. */
  lemma SelectFlattenExample()
    ensures SelectValue(Arr([Obj(map["a" := Arr([Num(1), Num(2)])]), Obj(map["a" := Arr([Num(3)])])]), "a")
            == Ok(Arr([Num(1), Num(2), Num(3)]))
  {
    var xs := [Obj(map["a" := Arr([Num(1), Num(2)])]), Obj(map["a" := Arr([Num(3)])])];
    SelectFlattens(xs, "a");
    var fs := [Arr([Num(1), Num(2)]), Arr([Num(3)])];
    assert Fields(xs, "a") == fs;
    assert fs[1..][1..] == [];
    assert Flatten(fs[1..]) == [Num(3)];
    assert Flatten(fs) == [Num(1), Num(2)] + [Num(3)] == [Num(1), Num(2), Num(3)];
  }

  /** `[{a: [1]}, {a: 2}]` selects to `[1, 2]`: only the first element decides
      to flatten, and `concat` appends the later non-array field as one element. */
  lemma SelectMixedExample()
    ensures SelectValue(Arr([Obj(map["a" := Arr([Num(1)])]), Obj(map["a" := Num(2)])]), "a")
            == Ok(Arr([Num(1), Num(2)]))
  {
    var xs := [Obj(map["a" := Arr([Num(1)])]), Obj(map["a" := Num(2)])];
    SelectFlattens(xs, "a");
    var fs := [Arr([Num(1)]), Num(2)];
    assert Fields(xs, "a") == fs;
    assert fs[1..][1..] == [];
    assert Flatten(fs[1..]) == [Num(2)];
    assert Flatten(fs) == [Num(1)] + [Num(2)] == [Num(1), Num(2)];
  }

  /** `[{a: 1}, {a: 2}]` selects to `[1, 2]`. */
  lemma SelectMapExample()
    ensures SelectValue(Arr([Obj(map["a" := Num(1)]), Obj(map["a" := Num(2)])]), "a")
            == Ok(Arr([Num(1), Num(2)]))
  {
    var xs := [Obj(map["a" := Num(1)]), Obj(map["a" := Num(2)])];
    SelectMaps(xs, "a");
    assert Fields(xs, "a") == [Num(1), Num(2)];
  }

  /** `{a: 5}` selects to `5`, and `null` is forwarded as `null`. */
  lemma SelectSingleExamples()
    ensures SelectValue(Obj(map["a" := Num(5)]), "a") == Ok(Num(5))
    ensures SelectValue(Null, "a") == Ok(Null)
  {
  }

  /** An array holding `null` throws when its field is read. */
  lemma SelectNullElementExample()
    ensures SelectValue(Arr([Obj(map["a" := Num(1)]), Null]), "a") == Thrown(TypeError)
  {
    var xs := [Obj(map["a" := Num(1)]), Null];
    assert Nullish(xs[1]);
  }

  /** A notification travelling down an observable stream. */
  datatype Notification = Next(value: Value) | Error(err: Value) | Complete

  /** The subscriber's handling of one notification: `_next` projects,
      `_error` and `_complete` forward unchanged. */
  function SelectNotification(field: string, n: Notification): (r: Result<Notification>)
    ensures !n.Next? ==> r == Ok(n)
    ensures n.Next? ==> (r.Ok? <==> SelectValue(n.value, field).Ok?)
    ensures n.Next? && r.Ok? ==> r.value == Next(SelectValue(n.value, field).value)
  {
    match n
    case Next(v) =>
      (match SelectValue(v, field)
       case Ok(u) => Ok(Next(u))
       case Thrown(e) => Thrown(e))
    case Error(err) => Ok(Error(err))
    case Complete => Ok(Complete)
  }

  /** The notifications the subscriber passes downstream for an input stream;
      a projection that throws ends the delivery with that exception. */
  function SelectStream(field: string, ns: seq<Notification>): (r: Result<seq<Notification>>)
    ensures r.Ok? ==> |r.value| == |ns|
    ensures r.Ok? ==> forall i :: 0 <= i < |ns| ==> (r.value[i].Next? <==> ns[i].Next?)
    ensures r.Ok? ==> forall i :: 0 <= i < |ns| && !ns[i].Next? ==> r.value[i] == ns[i]
    ensures r.Ok? <==> forall i :: 0 <= i < |ns| && ns[i].Next? ==> SelectValue(ns[i].value, field).Ok?
    ensures r.Ok? ==> forall i :: 0 <= i < |ns| && ns[i].Next? ==> r.value[i] == Next(SelectValue(ns[i].value, field).value)
  {
    if ns == [] then Ok([])
    else
      match SelectNotification(field, ns[0])
      case Thrown(e) => Thrown(e)
      case Ok(m) =>
        match SelectStream(field, ns[1..])
        case Thrown(e) =>
          assert forall i :: 1 <= i < |ns| ==> ns[i] == ns[1..][i - 1];
          Thrown(e)
        case Ok(rest) =>
          assert forall i :: 1 <= i < |ns| ==> ns[i] == ns[1..][i - 1];
          Ok([m] + rest)
  }
}
