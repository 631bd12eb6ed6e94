/**
 * What the merge of packages/config/src/merge.ts means, key by key: over one layer and over any fold of them, and the
 * order in which the merged value holds its keys.
 */
module MergeLaws {
  import opened ConfigTree
  import opened Merge
  import opened OrderedMerge
  import opened OrderedOverlay
  import opened OverlayLaws
  import opened Wrappers

  // ---- one layer ---------------------------------------------------------------------------

  /** The layer says something of the key, its class being one that files may state. */
  predicate Contributes(kind: KeyClass, incoming: Value) {
    match kind
    case Replace => !incoming.Null?
    case Section => !incoming.Null?
    case Named => incoming.Map?
    case _ => false
  }

  /** Where the layer says nothing the key is as it was. */
  lemma {:induction false} LayerLeaves(classify: string -> KeyClass, value: Fields, doc: Fields, key: string)
    requires key in doc ==> !Contributes(classify(key), doc[key])
    ensures Lookup(MergeLayer(classify, value, doc), key) == Lookup(value, key)
  {
    MergeLayerAt(classify, value, doc, key);
  }

  /** A replaced key, and a section stated as anything but a mapping, is the layer's value whole. */
  lemma {:induction false} LayerReplaces(classify: string -> KeyClass, value: Fields, doc: Fields, key: string)
    requires key in doc && Contributes(classify(key), doc[key])
    requires classify(key).Replace? || (classify(key).Section? && !doc[key].Map?)
    ensures Lookup(MergeLayer(classify, value, doc), key) == Some(doc[key])
  {
    MergeLayerAt(classify, value, doc, key);
  }

  /** The value was none, or no mapping, where a mapping is stated: it is read as an empty one. */
  function MappingAt(value: Fields, key: string): Value {
    if key in value && value[key].Map? then value[key] else Map(map[])
  }

  /** A section's mapping is overlaid: each path the layer touches takes what it says, and every other stays. */
  lemma {:induction false} LayerOverlays(classify: string -> KeyClass, value: Fields, doc: Fields, key: string,
      path: Path)
    requires key in doc && doc[key].Map? && classify(key).Section? && KeyPath(path)
    ensures var merged := MergeLayer(classify, value, doc);
            && key in merged && merged[key].Map?
            && (!Touches(doc[key], path) ==> At(merged[key], path) == At(MappingAt(value, key), path))
            && (At(doc[key], path).Some? && !At(doc[key], path).value.Map? ==>
                  At(merged[key], path) == At(doc[key], path))
            && (Touches(doc[key], path) && At(doc[key], path).None? ==> At(merged[key], path) == None)
  {
    MergeLayerAt(classify, value, doc, key);
    OverlayAtPath(MappingAt(value, key), doc[key], path);
    OverlaidIsMapping(MappingAt(value, key).fields, doc[key].fields);
  }

  lemma {:induction false} OverlaidIsMapping(target: Fields, patch: Fields)
    ensures Map(OverlaySection(target, patch)) == OverlayValue(Some(Map(target)), Map(patch))
  {
  }

  /** A named entry onto one that was there: its immediate fields whole, the rest inherited; else it stands alone. */
  ghost predicate EntryMerged(inherited: Option<Value>, entry: Value, merged: Value) {
    if entry.Map? && inherited.Some? && inherited.value.Map? then
      && merged.Map?
      && forall f :: Lookup(merged.fields, f) ==
           if f in entry.fields then Some(entry.fields[f]) else Lookup(inherited.value.fields, f)
    else merged == entry
  }

  lemma {:induction false} LayerNames(classify: string -> KeyClass, value: Fields, doc: Fields, key: string,
      name: string)
    requires key in doc && doc[key].Map? && classify(key).Named?
    ensures var merged := MergeLayer(classify, value, doc);
            var inherited := Lookup(MappingAt(value, key).fields, name);
            && key in merged && merged[key].Map?
            && if name in doc[key].fields
               then name in merged[key].fields
                    && EntryMerged(inherited, doc[key].fields[name], merged[key].fields[name])
               else Lookup(merged[key].fields, name) == inherited
  {
    MergeLayerAt(classify, value, doc, key);
  }

  lemma {:induction false} LayerWarns(classify: string -> KeyClass, layer: Layer, source: string, key: string)
    ensures Warning(source, key) in LayerWarnings(classify, layer) <==>
            source == layer.source && key in layer.value && classify(key) == Unknown
  {
  }

  // ---- any number of layers ----------------------------------------------------------------

  lemma {:induction false} MergedOneMore(classify: string -> KeyClass, docs: seq<Fields>)
    requires docs != []
    ensures MergeDocs(classify, docs) ==
            MergeLayer(classify, MergeDocs(classify, docs[..|docs| - 1]), docs[|docs| - 1])
  {
    MergeSnoc(classify, map[], docs[..|docs| - 1], docs[|docs| - 1]);
    assert docs[..|docs| - 1] + [docs[|docs| - 1]] == docs;
  }

  /** No document of the fold contributes to the key, from one on. */
  predicate SilentFrom(classify: string -> KeyClass, docs: seq<Fields>, i: nat, key: string) {
    forall j :: i <= j < |docs| && key in docs[j] ==> !Contributes(classify(key), docs[j][key])
  }

  /** A key is merged exactly when a document contributes to it, so none of the other classes ever is. */
  lemma {:induction false} MergedIff(classify: string -> KeyClass, docs: seq<Fields>, key: string)
    ensures key in MergeDocs(classify, docs) <==> !SilentFrom(classify, docs, 0, key)
  {
    if docs != [] {
      var front := docs[..|docs| - 1];
      MergedIff(classify, front, key);
      MergedOneMore(classify, docs);
      MergeLayerAt(classify, MergeDocs(classify, front), docs[|docs| - 1], key);
      assert docs == front + [docs[|docs| - 1]];
      SilentSnoc(classify, front, docs[|docs| - 1], 0, key);
    }
  }

  lemma {:induction false} SilentSnoc(classify: string -> KeyClass, docs: seq<Fields>, doc: Fields, i: nat,
      key: string)
    requires i <= |docs|
    ensures SilentFrom(classify, docs + [doc], i, key) <==>
            SilentFrom(classify, docs, i, key) && (key in doc ==> !Contributes(classify(key), doc[key]))
  {
    var all := docs + [doc];
    assert all[|docs|] == doc && forall j :: 0 <= j < |docs| ==> all[j] == docs[j];
  }

  /** A replaced key holds what the last document to state it says. */
  lemma {:induction false} LastReplaces(classify: string -> KeyClass, docs: seq<Fields>, i: nat, key: string)
    requires i < |docs| && key in docs[i] && Contributes(classify(key), docs[i][key])
    requires classify(key).Replace? || (classify(key).Section? && !docs[i][key].Map?)
    requires SilentFrom(classify, docs, i + 1, key)
    ensures Lookup(MergeDocs(classify, docs), key) == Some(docs[i][key])
    decreases |docs|
  {
    var front, last := docs[..|docs| - 1], docs[|docs| - 1];
    MergedOneMore(classify, docs);
    if i == |docs| - 1 {
      LayerReplaces(classify, MergeDocs(classify, front), last, key);
    } else {
      assert docs == front + [last];
      SilentSnoc(classify, front, last, i + 1, key);
      LastReplaces(classify, front, i, key);
      LayerLeaves(classify, MergeDocs(classify, front), last, key);
    }
  }

  // ---- the order of keys -------------------------------------------------------------------

  /** The keys a layer contributes to, in its order. */
  function ContributedKeys(classify: string -> KeyClass, layer: Doc): seq<string> {
    if layer == [] then []
    else
      var front, last := ContributedKeys(classify, layer[..|layer| - 1]), layer[|layer| - 1];
      if Contributes(classify(last.key), Plain(last.value)) then front + [last.key] else front
  }

  lemma {:induction false} ContributedAreKeys(classify: string -> KeyClass, layer: Doc, key: string)
    ensures key in ContributedKeys(classify, layer) ==> key in Keys(layer)
  {
    if layer != [] {
      ContributedAreKeys(classify, layer[..|layer| - 1], key);
      KeysSnoc(layer[..|layer| - 1], layer[|layer| - 1]);
      assert layer[..|layer| - 1] + [layer[|layer| - 1]] == layer;
    }
  }

  lemma {:induction false} NewKeysSnoc(keys: seq<string>, more: seq<string>, last: string)
    ensures NewKeys(keys, more + [last]) ==
            if last in keys then NewKeys(keys, more) else NewKeys(keys, more) + [last]
  {
    assert (more + [last])[..|more|] == more;
  }

  lemma {:induction false} KeyPairsKeys(kind: KeyClass, value: Doc, key: string, incoming: Ordered)
    requires WellFormed(incoming)
    ensures Keys(KeyPairs(kind, value, key, incoming)) ==
            if Contributes(kind, Plain(incoming)) && key !in Keys(value) then Keys(value) + [key] else Keys(value)
  {
    if (kind.Named? || kind.Section?) && IsMap(incoming) {
      SetPairKeys(value, key, Branch(Mapping, Onto(kind, PairsOrEmpty(value, key), incoming.pairs)));
    } else if (kind.Replace? || kind.Section?) && incoming != Atom(Null) {
      SetPairKeys(value, key, incoming);
    }
  }

  /** One key more, at the end unless it is there. */
  lemma {:induction false} OneKeyMore(keys: seq<string>, more: seq<string>, last: string)
    requires last !in more
    ensures var all := keys + NewKeys(keys, more);
            (if last in all then all else all + [last]) == keys + NewKeys(keys, more + [last])
  {
    NewKeysAreOfBoth(keys, more, last);
    NewKeysSnoc(keys, more, last);
  }

  /** A layer leaves the merged keys where they are, and those it adds follow in its own order. */
  lemma {:induction false} LayerKeepsOrder(classify: string -> KeyClass, value: Doc, layer: Doc)
    requires Proper(layer)
    ensures Keys(LayerPairs(classify, value, layer)) ==
            Keys(value) + NewKeys(Keys(value), ContributedKeys(classify, layer))
  {
    if layer != [] {
      var before, last := layer[..|layer| - 1], layer[|layer| - 1];
      LayerKeepsOrder(classify, value, before);
      KeyPairsKeys(classify(last.key), LayerPairs(classify, value, before), last.key, last.value);
      LastKeyIsNew(layer);
      ContributedAreKeys(classify, before, last.key);
      OneKeyMore(Keys(value), ContributedKeys(classify, before), last.key);
    }
  }

  lemma {:induction false} KeysFront(pairs: Doc)
    requires pairs != []
    ensures Keys(pairs) == Keys(pairs[..|pairs| - 1]) + [pairs[|pairs| - 1].key]
  {
    assert pairs[..|pairs| - 1] + [pairs[|pairs| - 1]] == pairs;
    KeysSnoc(pairs[..|pairs| - 1], pairs[|pairs| - 1]);
  }

  /** One pair more, set by its key onto what the pairs before it came to. */
  lemma {:induction false} SetOneMore(target: Doc, front: Doc, patch: Doc, value: Ordered)
    requires DistinctKeys(patch) && patch != []
    requires Keys(front) == Keys(target) + NewKeys(Keys(target), Keys(patch[..|patch| - 1]))
    ensures Keys(SetPair(front, patch[|patch| - 1].key, value)) == Keys(target) + NewKeys(Keys(target), Keys(patch))
  {
    var before, key := patch[..|patch| - 1], patch[|patch| - 1].key;
    SetPairKeys(front, key, value);
    KeysFront(patch);
    NewKeysSnoc(Keys(target), Keys(before), key);
    NewKeysAreOfBoth(Keys(target), Keys(before), key);
    LastKeyIsNew(patch);
  }

  /** So do the entries of a named key, and the fields of an entry. */
  lemma {:induction false} NamesKeepOrder(existing: Doc, incoming: Doc)
    requires DistinctKeys(incoming)
    ensures Keys(NamedPairs(existing, incoming)) == Keys(existing) + NewKeys(Keys(existing), Keys(incoming))
  {
    if incoming != [] {
      var before, last := incoming[..|incoming| - 1], incoming[|incoming| - 1];
      NamesKeepOrder(existing, before);
      var front := NamedPairs(existing, before);
      SetOneMore(existing, front, incoming, NamedAt(front, last.key, last.value));
    }
  }

  lemma {:induction false} FieldsKeepOrder(target: Doc, patch: Doc)
    requires DistinctKeys(patch)
    ensures Keys(EntryPairs(target, patch)) == Keys(target) + NewKeys(Keys(target), Keys(patch))
  {
    if patch != [] {
      FieldsKeepOrder(target, patch[..|patch| - 1]);
      SetOneMore(target, EntryPairs(target, patch[..|patch| - 1]), patch, patch[|patch| - 1].value);
    }
  }
}
