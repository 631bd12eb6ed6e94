/**
 * packages/config/src/merge.ts: documents folded under the merge classes of their top-level keys.
 */
module Merge {
  import opened ConfigTree
  import opened Wrappers

  datatype KeyClass = Replace | Named | Section | Computed | Separate | Unknown

  datatype Layer = Layer(source: string, value: Fields)

  /** The unknown-key warning, by the file and the key it names. */
  datatype Warning = Warning(source: string, key: string)

  /** One inherited name of a named-entry key, overlaid with the layer's entry of that name. */
  function MergeNamedEntry(current: Option<Value>, entry: Value): Value {
    if entry.Map? && current.Some? && current.value.Map?
    then Map(OverlayEntry(current.value.fields, entry.fields))
    else entry
  }

  function MergeNamed(existing: Fields, incoming: Fields): Fields {
    map name | name in existing.Keys + incoming.Keys ::
      if name in incoming then MergeNamedEntry(Lookup(existing, name), incoming[name]) else existing[name]
  }

  /** What a top-level key holds after one layer that states it as `incoming`. */
  function MergeKey(kind: KeyClass, current: Option<Value>, incoming: Value): Option<Value> {
    match kind
    case Replace => if incoming.Null? then current else Some(incoming)
    case Named => if incoming.Map? then Some(Map(MergeNamed(FieldsOrEmpty(current), incoming.fields))) else current
    case Section =>
      if incoming.Null? then current
      else if !incoming.Map? then Some(incoming)
      else Some(Map(OverlaySection(FieldsOrEmpty(current), incoming.fields)))
    case Computed => current
    case Separate => current
    case Unknown => current
  }

  function MergedKey(classify: string -> KeyClass, value: Fields, doc: Fields, key: string): Option<Value> {
    if key in doc then MergeKey(classify(key), Lookup(value, key), doc[key]) else Lookup(value, key)
  }

  /** The merged value after one more layer. */
  function MergeLayer(classify: string -> KeyClass, value: Fields, doc: Fields): Fields {
    map key | key in value.Keys + doc.Keys && MergedKey(classify, value, doc, key).Some? ::
      MergedKey(classify, value, doc, key).value
  }

  function LayerWarnings(classify: string -> KeyClass, layer: Layer): set<Warning> {
    set key | key in layer.value && classify(key).Unknown? :: Warning(layer.source, key)
  }

  /** Layers folded in order, later winning. */
  function MergeFrom(classify: string -> KeyClass, value: Fields, docs: seq<Fields>): Fields
    decreases docs
  {
    if docs == [] then value else MergeFrom(classify, MergeLayer(classify, value, docs[0]), docs[1..])
  }

  function MergeDocs(classify: string -> KeyClass, docs: seq<Fields>): Fields {
    MergeFrom(classify, map[], docs)
  }

  function DocsOf(layers: seq<Layer>): seq<Fields> {
    seq(|layers|, i requires 0 <= i < |layers| => layers[i].value)
  }

  lemma {:induction false} MergeSnoc(classify: string -> KeyClass, value: Fields, docs: seq<Fields>, doc: Fields)
    ensures MergeFrom(classify, value, docs + [doc]) == MergeLayer(classify, MergeFrom(classify, value, docs), doc)
    decreases docs
  {
    if docs == [] {
      assert docs + [doc] == [doc];
    } else {
      assert (docs + [doc])[1..] == docs[1..] + [doc];
      MergeSnoc(classify, MergeLayer(classify, value, docs[0]), docs[1..], doc);
    }
  }

  lemma {:induction false} MergeLayerAt(classify: string -> KeyClass, value: Fields, doc: Fields, key: string)
    ensures Lookup(MergeLayer(classify, value, doc), key) == MergedKey(classify, value, doc, key)
  {
  }

  /** `overlaySection` as it runs: field by field into the target. */
  method OverlaySectionInto(target: Fields, patch: Fields) returns (out: Fields)
    ensures out == OverlaySection(target, patch)
    decreases Map(patch)
  {
    out := target;
    var todo := patch.Keys;
    while todo != {}
      invariant todo <= patch.Keys
      invariant out.Keys == target.Keys + (patch.Keys - todo)
      invariant forall k :: k in out ==>
        out[k] == (if k in patch && k !in todo then OverlayValue(Lookup(target, k), patch[k]) else target[k])
    {
      var key :| key in todo;
      var incoming := patch[key];
      if incoming.Map? && key in out && out[key].Map? {
        assert incoming < Map(patch);
        var deeper := OverlaySectionInto(out[key].fields, incoming.fields);
        out := out[key := Map(deeper)];
      } else {
        out := out[key := incoming];
      }
      todo := todo - {key};
    }
  }

  method MergeNamedInto(existing: Fields, incoming: Fields) returns (out: Fields)
    ensures out == MergeNamed(existing, incoming)
  {
    out := existing;
    var todo := incoming.Keys;
    while todo != {}
      invariant todo <= incoming.Keys
      invariant out.Keys == existing.Keys + (incoming.Keys - todo)
      invariant forall k :: k in out ==>
        out[k] ==
          (if k in incoming && k !in todo then MergeNamedEntry(Lookup(existing, k), incoming[k]) else existing[k])
    {
      var name :| name in todo;
      var entry := incoming[name];
      if entry.Map? && name in out && out[name].Map? {
        out := out[name := Map(OverlayEntry(out[name].fields, entry.fields))];
      } else {
        out := out[name := entry];
      }
      todo := todo - {name};
    }
  }

  method MergeOneLayer(classify: string -> KeyClass, before: Fields, layer: Layer)
    returns (value: Fields, warnings: set<Warning>)
    ensures value == MergeLayer(classify, before, layer.value)
    ensures warnings == LayerWarnings(classify, layer)
  {
    var doc := layer.value;
    value, warnings := before, {};
    var todo := doc.Keys;
    while todo != {}
      invariant todo <= doc.Keys
      invariant forall k ::
                  Lookup(value, k) == (if k in todo then Lookup(before, k) else MergedKey(classify, before, doc, k))
      invariant warnings == set k | k in doc && k !in todo && classify(k).Unknown? :: Warning(layer.source, k)
    {
      var key :| key in todo;
      assert Lookup(value, key) == Lookup(before, key);
      var incoming := doc[key];
      match classify(key) {
        case Replace =>
          if !incoming.Null? { value := value[key := incoming]; }
        case Named =>
          if incoming.Map? {
            var entries := MergeNamedInto(FieldsOrEmpty(Lookup(value, key)), incoming.fields);
            value := value[key := Map(entries)];
          }
        case Section =>
          if incoming.Null? {
          } else if !incoming.Map? {
            value := value[key := incoming];
          } else {
            var section := OverlaySectionInto(FieldsOrEmpty(Lookup(value, key)), incoming.fields);
            value := value[key := Map(section)];
          }
        case Computed =>
        case Separate =>
        case Unknown =>
          warnings := warnings + {Warning(layer.source, key)};
      }
      todo := todo - {key};
    }
    forall k ensures Lookup(value, k) == Lookup(MergeLayer(classify, before, doc), k) {
      MergeLayerAt(classify, before, doc, k);
    }
    SameLookups(value, MergeLayer(classify, before, doc));
  }

  method MergeLayers(classify: string -> KeyClass, layers: seq<Layer>)
    returns (value: Fields, warnings: seq<set<Warning>>)
    ensures value == MergeDocs(classify, DocsOf(layers))
    ensures |warnings| == |layers|
    ensures forall i :: 0 <= i < |layers| ==> warnings[i] == LayerWarnings(classify, layers[i])
  {
    value, warnings := map[], [];
    for n := 0 to |layers|
      invariant value == MergeDocs(classify, DocsOf(layers[..n]))
      invariant |warnings| == n
      invariant forall i :: 0 <= i < n ==> warnings[i] == LayerWarnings(classify, layers[i])
    {
      assert DocsOf(layers[..n+1]) == DocsOf(layers[..n]) + [layers[n].value];
      MergeSnoc(classify, map[], DocsOf(layers[..n]), layers[n].value);
      var found: set<Warning>;
      value, found := MergeOneLayer(classify, value, layers[n]);
      warnings := warnings + [found];
    }
    assert layers[..|layers|] == layers;
  }
}
