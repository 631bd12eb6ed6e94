/**
 * `mergeLayers` of packages/config/src/merge.ts over documents that keep the order of their keys. It forgets to the
 * merge of plain values.
 */
module OrderedMerge {
  import opened ConfigTree
  import opened Merge
  import opened OrderedOverlay
  import opened Wrappers

  type Doc = seq<Pair>

  /** `overlayEntry`: the patch's fields, one after another, onto the target's. */
  function EntryPairs(target: Doc, patch: Doc): Doc {
    if patch == [] then target
    else
      var last := patch[|patch| - 1];
      SetPair(EntryPairs(target, patch[..|patch| - 1]), last.key, last.value)
  }

  /** The mapping that is under the key, or the empty one. */
  function PairsOrEmpty(value: Doc, key: string): Doc {
    var i := Find(value, key);
    if i < |value| && IsMap(value[i].value) then value[i].value.pairs else []
  }

  function NamedAt(existing: Doc, name: string, entry: Ordered): Ordered {
    var i := Find(existing, name);
    if IsMap(entry) && i < |existing| && IsMap(existing[i].value)
    then Branch(Mapping, EntryPairs(existing[i].value.pairs, entry.pairs)) else entry
  }

  function NamedPairs(existing: Doc, incoming: Doc): Doc {
    if incoming == [] then existing
    else
      var front, last := NamedPairs(existing, incoming[..|incoming| - 1]), incoming[|incoming| - 1];
      SetPair(front, last.key, NamedAt(front, last.key, last.value))
  }

  /** What a mapping becomes that a layer states again as another. */
  function Onto(kind: KeyClass, current: Doc, incoming: Doc): Doc {
    if kind.Named? then NamedPairs(current, incoming) else OverlayPairs(current, incoming)
  }

  /** One key of a layer. */
  function KeyPairs(kind: KeyClass, value: Doc, key: string, incoming: Ordered): Doc {
    if (kind.Named? || kind.Section?) && IsMap(incoming) then
      SetPair(value, key, Branch(Mapping, Onto(kind, PairsOrEmpty(value, key), incoming.pairs)))
    else if (kind.Replace? || kind.Section?) && incoming != Atom(Null) then SetPair(value, key, incoming)
    else value
  }

  function LayerPairs(classify: string -> KeyClass, value: Doc, layer: Doc): Doc {
    if layer == [] then value
    else
      var last := layer[|layer| - 1];
      KeyPairs(classify(last.key), LayerPairs(classify, value, layer[..|layer| - 1]), last.key, last.value)
  }

  function MergedPairs(classify: string -> KeyClass, layers: seq<Doc>): Doc {
    if layers == [] then []
    else LayerPairs(classify, MergedPairs(classify, layers[..|layers| - 1]), layers[|layers| - 1])
  }

  // ---- forgetting the order ----------------------------------------------------------------

  ghost predicate Proper(doc: Doc) {
    DistinctKeys(doc) && WellFormedPairs(doc)
  }

  lemma {:induction false} EntryProper(target: Doc, patch: Doc)
    requires Proper(target) && WellFormedPairs(patch)
    ensures Proper(EntryPairs(target, patch))
  {
    if patch != [] {
      var before, last := patch[..|patch| - 1], patch[|patch| - 1];
      EntryProper(target, before);
      SetPairWellFormed(EntryPairs(target, before), last.key, last.value);
    }
  }

  lemma {:induction false} OverlayEntrySnoc(a: Fields, b: Fields, key: string, value: Value)
    ensures OverlayEntry(a, b[key := value]) == OverlayEntry(a, b)[key := value]
  {
    assert (a + b)[key := value] == a + b[key := value];
  }

  lemma {:induction false} EntryForgets(target: Doc, patch: Doc)
    requires Proper(target) && WellFormedPairs(patch)
    ensures PlainFields(EntryPairs(target, patch)) == OverlayEntry(PlainFields(target), PlainFields(patch))
  {
    if patch == [] {
      assert PlainFields(target) + map[] == PlainFields(target);
    } else {
      var before, last := patch[..|patch| - 1], patch[|patch| - 1];
      EntryForgets(target, before);
      EntryProper(target, before);
      SetPairPlain(EntryPairs(target, before), last.key, last.value);
      OverlayEntrySnoc(PlainFields(target), PlainFields(before), last.key, Plain(last.value));
    }
  }

  lemma {:induction false} NamedAtForgets(existing: Doc, name: string, entry: Ordered)
    requires Proper(existing) && WellFormed(entry)
    ensures WellFormed(NamedAt(existing, name, entry))
    ensures Plain(NamedAt(existing, name, entry)) ==
            MergeNamedEntry(Lookup(PlainFields(existing), name), Plain(entry))
  {
    PlainFieldsAt(existing, name);
    var i := Find(existing, name);
    if i < |existing| {
      var current := existing[i].value;
      assert WellFormed(current);
      if IsMap(current) && IsMap(entry) {
        EntryProper(current.pairs, entry.pairs);
        EntryForgets(current.pairs, entry.pairs);
      }
    }
  }

  lemma {:induction false} MergeNamedSnoc(existing: Fields, incoming: Fields, name: string, entry: Value)
    requires name !in incoming
    ensures Lookup(MergeNamed(existing, incoming), name) == Lookup(existing, name)
    ensures MergeNamed(existing, incoming[name := entry]) ==
            MergeNamed(existing, incoming)[name := MergeNamedEntry(Lookup(existing, name), entry)]
  {
    var a := MergeNamed(existing, incoming[name := entry]);
    var b := MergeNamed(existing, incoming)[name := MergeNamedEntry(Lookup(existing, name), entry)];
    assert a.Keys == b.Keys;
    assert forall k | k in a :: a[k] == b[k];
  }

  lemma {:induction false} LastIsNew(pairs: Doc)
    requires DistinctKeys(pairs) && pairs != []
    ensures pairs[|pairs| - 1].key !in PlainFields(pairs[..|pairs| - 1])
  {
    var before, key := pairs[..|pairs| - 1], pairs[|pairs| - 1].key;
    PlainFieldsAt(before, key);
    assert forall i :: 0 <= i < |before| ==> before[i].key != key;
  }

  lemma {:induction false} NamedForgets(existing: Doc, incoming: Doc)
    requires Proper(existing) && Proper(incoming)
    ensures Proper(NamedPairs(existing, incoming))
    ensures PlainFields(NamedPairs(existing, incoming)) == MergeNamed(PlainFields(existing), PlainFields(incoming))
  {
    if incoming == [] {
      assert MergeNamed(PlainFields(existing), map[]) == PlainFields(existing);
    } else {
      var before, last := incoming[..|incoming| - 1], incoming[|incoming| - 1];
      NamedForgets(existing, before);
      var front := NamedPairs(existing, before);
      NamedAtForgets(front, last.key, last.value);
      SetPairWellFormed(front, last.key, NamedAt(front, last.key, last.value));
      SetPairPlain(front, last.key, NamedAt(front, last.key, last.value));
      LastIsNew(incoming);
      MergeNamedSnoc(PlainFields(existing), PlainFields(before), last.key, Plain(last.value));
    }
  }

  lemma {:induction false} PairsOrEmptyForgets(value: Doc, key: string)
    requires Proper(value)
    ensures Proper(PairsOrEmpty(value, key))
    ensures PlainFields(PairsOrEmpty(value, key)) == FieldsOrEmpty(Lookup(PlainFields(value), key))
  {
    PlainFieldsAt(value, key);
    var i := Find(value, key);
    if i < |value| {
      assert WellFormed(value[i].value);
    }
  }

  /** A mapping stated again as another, under either class. */
  lemma {:induction false} OntoForgets(kind: KeyClass, current: Doc, incoming: Doc)
    requires Proper(current) && Proper(incoming)
    ensures Proper(Onto(kind, current, incoming))
    ensures PlainFields(Onto(kind, current, incoming)) ==
            if kind.Named? then MergeNamed(PlainFields(current), PlainFields(incoming))
            else OverlaySection(PlainFields(current), PlainFields(incoming))
  {
    if kind.Named? {
      NamedForgets(current, incoming);
    } else {
      OverlayWellFormed(current, incoming);
      OverlayForgets(current, incoming);
    }
  }

  lemma {:induction false} MappingForgets(kind: KeyClass, value: Doc, key: string, incoming: Doc)
    requires Proper(value) && Proper(incoming) && (kind.Named? || kind.Section?)
    ensures var doc := Branch(Mapping, Onto(kind, PairsOrEmpty(value, key), incoming));
            && WellFormed(doc)
            && MergeKey(kind, Lookup(PlainFields(value), key), Map(PlainFields(incoming))) == Some(Plain(doc))
  {
    PairsOrEmptyForgets(value, key);
    OntoForgets(kind, PairsOrEmpty(value, key), incoming);
  }

  lemma {:induction false} SetForgets(value: Doc, key: string, doc: Ordered, k: string)
    requires Proper(value) && WellFormed(doc)
    ensures Proper(SetPair(value, key, doc))
    ensures Lookup(PlainFields(SetPair(value, key, doc)), k) ==
            if k == key then Some(Plain(doc)) else Lookup(PlainFields(value), k)
  {
    SetPairWellFormed(value, key, doc);
    SetPairPlain(value, key, doc);
  }

  lemma {:induction false} KeyForgets(kind: KeyClass, value: Doc, key: string, incoming: Ordered, k: string)
    requires Proper(value) && WellFormed(incoming)
    ensures Proper(KeyPairs(kind, value, key, incoming))
    ensures var plain := PlainFields(value);
            Lookup(PlainFields(KeyPairs(kind, value, key, incoming)), k) ==
            if k == key then MergeKey(kind, Lookup(plain, key), Plain(incoming)) else Lookup(plain, k)
  {
    if (kind.Named? || kind.Section?) && IsMap(incoming) {
      MappingForgets(kind, value, key, incoming.pairs);
      SetForgets(value, key, Branch(Mapping, Onto(kind, PairsOrEmpty(value, key), incoming.pairs)), k);
    } else if (kind.Replace? || kind.Section?) && incoming != Atom(Null) {
      SetForgets(value, key, incoming, k);
    }
  }

  /** Forgetting the order, one layer is the layer over plain values. */
  lemma {:induction false} LayerForgets(classify: string -> KeyClass, value: Doc, layer: Doc)
    requires Proper(value) && Proper(layer)
    ensures Proper(LayerPairs(classify, value, layer))
    ensures PlainFields(LayerPairs(classify, value, layer)) ==
            MergeLayer(classify, PlainFields(value), PlainFields(layer))
  {
    var plain, doc := PlainFields(value), PlainFields(layer);
    if layer == [] {
      assert MergeLayer(classify, plain, map[]) == plain;
    } else {
      var before, last := layer[..|layer| - 1], layer[|layer| - 1];
      LayerForgets(classify, value, before);
      LastIsNew(layer);
      var front, out := LayerPairs(classify, value, before), LayerPairs(classify, value, layer);
      forall k ensures Lookup(PlainFields(out), k) == Lookup(MergeLayer(classify, plain, doc), k) {
        KeyForgets(classify(last.key), front, last.key, last.value, k);
        MergeLayerAt(classify, plain, PlainFields(before), k);
        MergeLayerAt(classify, plain, doc, k);
      }
      KeyForgets(classify(last.key), front, last.key, last.value, last.key);
      SameLookups(PlainFields(out), MergeLayer(classify, plain, doc));
    }
  }

  function PlainDocs(layers: seq<Doc>): seq<Fields> {
    seq(|layers|, i requires 0 <= i < |layers| => PlainFields(layers[i]))
  }

  lemma {:induction false} PlainDocsSnoc(layers: seq<Doc>)
    requires layers != []
    ensures PlainDocs(layers) == PlainDocs(layers[..|layers| - 1]) + [PlainFields(layers[|layers| - 1])]
  {
  }

  lemma {:induction false} MergeOneMore(classify: string -> KeyClass, value: Doc, docs: seq<Fields>, layer: Doc)
    requires Proper(value) && Proper(layer) && PlainFields(value) == MergeDocs(classify, docs)
    ensures Proper(LayerPairs(classify, value, layer))
    ensures PlainFields(LayerPairs(classify, value, layer)) == MergeDocs(classify, docs + [PlainFields(layer)])
  {
    LayerForgets(classify, value, layer);
    MergeSnoc(classify, map[], docs, PlainFields(layer));
  }

  /** Forgetting the order, the fold of the layers is the merge of plain values. */
  lemma {:induction false} MergeForgets(classify: string -> KeyClass, layers: seq<Doc>)
    requires forall i :: 0 <= i < |layers| ==> Proper(layers[i])
    ensures Proper(MergedPairs(classify, layers))
    ensures PlainFields(MergedPairs(classify, layers)) == MergeDocs(classify, PlainDocs(layers))
  {
    if layers != [] {
      var before := layers[..|layers| - 1];
      MergeForgets(classify, before);
      PlainDocsSnoc(layers);
      MergeOneMore(classify, MergedPairs(classify, before), PlainDocs(before), layers[|layers| - 1]);
    }
  }
}
