/**
 * Configuration documents as trees, the paths into them, and the two overlays of
 * packages/config/src/merge.ts written as functions of values.
 */
module ConfigTree {
  import opened Wrappers

  /** A parsed document: null, any other scalar, a list, or a mapping. */
  datatype Value =
    | Null
    | Scalar(text: string)
    | List(items: seq<Value>)
    | Map(fields: map<string, Value>)

  type Fields = map<string, Value>

  /** One step of a path into a document: a mapping key or a list index. */
  datatype Step = Key(name: string) | Index(at: nat)

  type Path = seq<Step>

  function Lookup(fields: Fields, key: string): Option<Value> {
    if key in fields then Some(fields[key]) else None
  }

  lemma {:induction false} SameLookups(a: Fields, b: Fields)
    requires forall k :: Lookup(a, k) == Lookup(b, k)
    ensures a == b
  {
    assert forall k :: (k in a <==> Lookup(a, k).Some?) && (k in b <==> Lookup(b, k).Some?);
    assert forall k | k in a :: Lookup(a, k).value == a[k] && Lookup(b, k).value == b[k];
  }

  function Child(node: Value, step: Step): Option<Value> {
    match (node, step)
    case (Map(fields), Key(k)) => Lookup(fields, k)
    case (List(items), Index(i)) => if i < |items| then Some(items[i]) else None
    case _ => None
  }

  /** What `node` holds at `path`. */
  function At(node: Value, path: Path): Option<Value> {
    if path == [] then Some(node)
    else
      match Child(node, path[0])
      case None => None
      case Some(next) => At(next, path[1..])
  }

  lemma {:induction false} AtAppend(node: Value, front: Path, rest: Path)
    ensures At(node, front + rest) ==
            match At(node, front) { case None => None case Some(next) => At(next, rest) }
  {
    if front == [] {
      assert front + rest == rest;
    } else {
      assert (front + rest)[1..] == front[1..] + rest;
      match Child(node, front[0]) {
        case None =>
        case Some(next) => AtAppend(next, front[1..], rest);
      }
    }
  }

  lemma {:induction false} AtOne(node: Value, step: Step)
    ensures At(node, [step]) == Child(node, step)
  {
    assert [step][1..] == [];
  }

  /** The mapping an overlay lands on: what is there when it is one, the empty mapping otherwise. */
  function FieldsOrEmpty(current: Option<Value>): Fields {
    if current.Some? && current.value.Map? then current.value.fields else map[]
  }

  /** The section overlay: recursive wherever both sides hold a mapping, else the patch's value. */
  function OverlayValue(current: Option<Value>, patch: Value): Value
    decreases patch
  {
    if patch.Map? && current.Some? && current.value.Map? then
      var target := current.value.fields;
      Map(map k | k in target.Keys + patch.fields.Keys ::
            if k in patch.fields then OverlayValue(Lookup(target, k), patch.fields[k]) else target[k])
    else patch
  }

  function OverlaySection(target: Fields, patch: Fields): Fields {
    OverlayValue(Some(Map(target)), Map(patch)).fields
  }

  /** The named-entry overlay: the patch's immediate fields replace the target's. */
  function OverlayEntry(target: Fields, patch: Fields): Fields {
    target + patch
  }
}
