/** Call arguments as the gate sees them, and Python's two notions of "same scalar". */
module Values {
  import opened Basics
  import opened Canon

  /** What a call argument holds at its leaves; `Float` is a finite one. */
  datatype Scalar =
    | Str(text: Text) | Int(n: int) | Bool(b: bool) | Float(r: real) | Infinity(negative: bool) | NaN | Null

  /** A JSON argument value. */
  datatype Value = Leaf(scalar: Scalar) | Items(items: seq<Value>) | Fields(fields: seq<Field>)
  datatype Field = Field(name: Text, value: Value)

  type Args = map<Text, Value>

  /** The number Python compares: `True` is 1 and `False` is 0. */
  function Number(s: Scalar): Option<real> {
    match s
    case Int(n) => Some(n as real)
    case Bool(b) => Some(if b then 1.0 else 0.0)
    case Float(r) => Some(r)
    case _ => None
  }

  /**
   Python's `==`. It identifies `True`, `1` and `1.0`, which are three different JSON
   values; the datatype's own equality is `_vid`, which keeps them apart.
   */
  predicate PyEq(a: Scalar, b: Scalar) {
    if Number(a).Some? then Number(a) == Number(b)
    else a == b && a != NaN
  }

  /** `scalar in members`. */
  predicate In(s: Scalar, members: seq<Scalar>) {
    exists m :: m in members && PyEq(s, m)
  }

  /** `_is_number`: finite and not a bool. */
  predicate IsNumber(s: Scalar) {
    s.Int? || s.Float?
  }

  /** `_flatten_scalars`: every scalar inside a value, dict keys included. */
  function Flatten(v: Value): seq<Scalar>
    decreases v, 1
  {
    match v
    case Leaf(s) => [s]
    case Items(items) => FlattenItems(items)
    case Fields(fields) => FlattenFields(fields)
  }

  function FlattenItems(items: seq<Value>): seq<Scalar>
    decreases items, 0
  {
    if items == [] then [] else Flatten(items[0]) + FlattenItems(items[1..])
  }

  function FlattenFields(fields: seq<Field>): seq<Scalar>
    decreases fields, 0
  {
    if fields == [] then []
    else [Str(fields[0].name)] + Flatten(fields[0].value) + FlattenFields(fields[1..])
  }

  /** A scalar occurs in a value: as a leaf, a key, or inside some component. */
  ghost predicate Occurs(s: Scalar, v: Value)
    decreases v
  {
    match v
    case Leaf(x) => s == x
    case Items(items) => exists i :: 0 <= i < |items| && Occurs(s, items[i])
    case Fields(fields) =>
      exists i :: 0 <= i < |fields| && (s == Str(fields[i].name) || Occurs(s, fields[i].value))
  }

  /** Flattening misses nothing, at any depth, and invents nothing. */
  lemma {:induction false} FlattenComplete(v: Value, s: Scalar)
    ensures s in Flatten(v) <==> Occurs(s, v)
    decreases v, 1
  {
    match v
    case Leaf(_) =>
    case Items(items) => FlattenItemsComplete(items, s);
    case Fields(fields) => FlattenFieldsComplete(fields, s);
  }

  lemma {:induction false} FlattenItemsComplete(items: seq<Value>, s: Scalar)
    ensures s in FlattenItems(items) <==> exists i :: 0 <= i < |items| && Occurs(s, items[i])
    decreases items, 0
  {
    if items != [] {
      FlattenComplete(items[0], s);
      FlattenItemsComplete(items[1..], s);
      assert forall i :: 0 <= i < |items[1..]| ==> items[1..][i] == items[i + 1];
      assert forall i :: 1 <= i < |items| ==> items[i] == items[1..][i - 1];
    }
  }

  lemma {:induction false} FlattenFieldsComplete(fields: seq<Field>, s: Scalar)
    ensures s in FlattenFields(fields) <==>
            exists i :: 0 <= i < |fields| && (s == Str(fields[i].name) || Occurs(s, fields[i].value))
    decreases fields, 0
  {
    if fields != [] {
      FlattenComplete(fields[0].value, s);
      FlattenFieldsComplete(fields[1..], s);
      assert forall i :: 0 <= i < |fields[1..]| ==> fields[1..][i] == fields[i + 1];
      assert forall i :: 1 <= i < |fields| ==> fields[i] == fields[1..][i - 1];
    }
  }
}
