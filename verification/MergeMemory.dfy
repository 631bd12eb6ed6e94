/**
 * `mergeLayers` of packages/config/src/merge.ts as it runs: one new mapping written in place, layer after layer. Every
 * layer stands as it was, and what comes out shares no object with any of them.
 */
module MergeMemory {
  import opened ConfigTree
  import opened Merge
  import opened OrderedMerge
  import opened OrderedOverlay
  import opened OverlayMemory
  import opened Wrappers

  // ---- mappings built anew -----------------------------------------------------------------

  /** A mapping out of new objects, and nothing that was there written. */
  ghost predicate Built(was: Nodes, least: nat, nodes: Nodes, id: nat, doc: Doc) {
    HoldsMap(nodes, id, doc) && From(OwnedByMap(nodes, id, doc), least) && Agree(was, nodes, was.Keys)
  }

  function WithEmpty(was: Nodes, id: nat): Nodes {
    was[id := Node(Mapping, [])]
  }

  lemma {:induction false} EmptyHolds(was: Nodes, id: nat)
    ensures HoldsMap(WithEmpty(was, id), id, []) && OwnedByMap(WithEmpty(was, id), id, []) == {id}
  {
  }

  /** What an empty mapping becomes is built anew. */
  lemma {:induction false} BecameIsBuilt(was: Nodes, id: nat, least: nat, nodes: Nodes, doc: Doc)
    requires Below(was, id) && id < least
    requires Became(WithEmpty(was, id), least, nodes, id, [], doc)
    ensures Built(was, id, nodes, id, doc)
  {
    EmptyHolds(was, id);
    forall k | k in was ensures k in nodes && nodes[k] == was[k] {
      assert k in WithEmpty(was, id).Keys - {id};
    }
  }

  /** A mapping that stood before an empty one was made stands beside it. */
  lemma {:induction false} StandsBeside(was: Nodes, id: nat, cell: Cell, doc: Ordered)
    requires Below(was, id) && Reads(was, cell, doc)
    ensures Reads(WithEmpty(was, id), cell, doc) && id !in Owned(WithEmpty(was, id), cell, doc)
    ensures Owned(WithEmpty(was, id), cell, doc) == Owned(was, cell, doc)
  {
    OwnedExists(was, cell, doc);
    ReadAgain(was, WithEmpty(was, id), cell, doc);
  }

  /** The new mapping, set under a key of the merged one. */
  lemma {:induction false} BuiltIsSet(was: Nodes, least: nat, nodes: Nodes, value: nat, pairs: Doc, key: string,
      id: nat, doc: Doc)
    requires HoldsMap(was, value, pairs) && Below(was, least) && Built(was, least, nodes, id, doc)
    ensures value in nodes && nodes[value] == was[value]
    ensures var after := nodes[value := Node(Mapping, SetSlot(nodes[value].slots, key, Ref(id)))];
            Became(was, least, after, value, pairs, SetPair(pairs, key, Branch(Mapping, doc)))
  {
    SetBecame(was, least, nodes, value, pairs, key, Ref(id), Branch(Mapping, doc));
  }

  // ---- one key -----------------------------------------------------------------------------

  /** `overlayEntry`. */
  method OverlayEntryInto(m: Memory, target: nat, patch: nat, ghost pairs: Doc, ghost stated: Doc)
    requires m.Valid() && HoldsMap(m.nodes, target, pairs) && ReadsMap(m.nodes, patch, stated)
    requires OwnedByMap(m.nodes, target, pairs) !! OwnedByMap(m.nodes, patch, stated)
    modifies m
    ensures m.Valid() && m.next >= old(m.next)
    ensures Became(old(m.nodes), old(m.next), m.nodes, target, pairs, EntryPairs(pairs, stated))
  {
    ghost var was, first := m.nodes, m.next;
    var items := m.nodes[patch].slots;
    var i := 0;
    assert SlotsRead(m.nodes, items, stated);
    assert stated[..0] == [];
    while i < |items|
      invariant i <= |items| == |stated| && m.Valid() && m.next >= first
      invariant Became(was, first, m.nodes, target, pairs, EntryPairs(pairs, stated[..i]))
    {
      ghost var before, least, front := m.nodes, m.next, EntryPairs(pairs, stated[..i]);
      PatchStands(was, first, m.nodes, target, pairs, front, items, stated, i);
      m.SetCopy(target, items[i].key, items[i].cell, front, stated[i].value);
      assert stated[..i + 1][..i] == stated[..i];
      BecameTwice(was, first, before, least, m.nodes, target, pairs, front, EntryPairs(pairs, stated[..i + 1]));
      i := i + 1;
    }
    assert stated[..i] == stated;
  }

  /** One named entry of a layer. */
  method MergeEntry(m: Memory, existing: nat, name: string, entry: Cell, ghost pairs: Doc, ghost doc: Ordered)
    requires m.Valid() && HoldsMap(m.nodes, existing, pairs) && Reads(m.nodes, entry, doc)
    requires Owned(m.nodes, entry, doc) !! OwnedByMap(m.nodes, existing, pairs)
    modifies m
    ensures m.Valid() && m.next >= old(m.next)
    ensures Became(old(m.nodes), old(m.next), m.nodes, existing, pairs, SetPair(pairs, name, NamedAt(pairs, name, doc)))
  {
    var slots := m.nodes[existing].slots;
    SameFind(m.nodes, slots, pairs, name);
    var i := FindSlot(slots, name);
    if i < |slots| {
      SlotHolds(m.nodes, slots, pairs, i);
    }
    if i < |slots| && PointsToMap(m.nodes, slots[i].cell) && PointsToMap(m.nodes, entry) {
      ghost var was, least, inner := m.nodes, m.next, pairs[i].value.pairs;
      OverlayEntryInto(m, slots[i].cell.id, entry.id, inner, doc.pairs);
      NestedBecame(was, least, m.nodes, existing, pairs, i, slots[i].cell.id, inner, EntryPairs(inner, doc.pairs));
    } else {
      m.SetCopy(existing, name, entry, pairs, doc);
    }
  }

  method MergeEntries(m: Memory, existing: nat, incoming: nat, ghost pairs: Doc, ghost stated: Doc)
    requires m.Valid() && HoldsMap(m.nodes, existing, pairs) && ReadsMap(m.nodes, incoming, stated)
    requires OwnedByMap(m.nodes, existing, pairs) !! OwnedByMap(m.nodes, incoming, stated)
    modifies m
    ensures m.Valid() && m.next >= old(m.next)
    ensures Became(old(m.nodes), old(m.next), m.nodes, existing, pairs, NamedPairs(pairs, stated))
  {
    ghost var was, first := m.nodes, m.next;
    var items := m.nodes[incoming].slots;
    var i := 0;
    assert SlotsRead(m.nodes, items, stated);
    assert stated[..0] == [];
    while i < |items|
      invariant i <= |items| == |stated| && m.Valid() && m.next >= first
      invariant Became(was, first, m.nodes, existing, pairs, NamedPairs(pairs, stated[..i]))
    {
      ghost var before, least, front := m.nodes, m.next, NamedPairs(pairs, stated[..i]);
      PatchStands(was, first, m.nodes, existing, pairs, front, items, stated, i);
      MergeEntry(m, existing, items[i].key, items[i].cell, front, stated[i].value);
      assert stated[..i + 1][..i] == stated[..i];
      BecameTwice(was, first, before, least, m.nodes, existing, pairs, front, NamedPairs(pairs, stated[..i + 1]));
      i := i + 1;
    }
    assert stated[..i] == stated;
  }

  /** The loop of the named class, or the overlay of the section class. */
  method MergeOnto(m: Memory, kind: KeyClass, current: nat, incoming: nat, ghost pairs: Doc, ghost stated: Doc)
    requires m.Valid() && HoldsMap(m.nodes, current, pairs) && ReadsMap(m.nodes, incoming, stated)
    requires OwnedByMap(m.nodes, current, pairs) !! OwnedByMap(m.nodes, incoming, stated)
    modifies m
    ensures m.Valid() && m.next >= old(m.next)
    ensures Became(old(m.nodes), old(m.next), m.nodes, current, pairs, Onto(kind, pairs, stated))
  {
    if kind.Named? {
      MergeEntries(m, current, incoming, pairs, stated);
    } else {
      m.OverlaySection(current, incoming, pairs, stated);
    }
  }

  /** A mapping onto the one that is under the key, in place. */
  method MergeExisting(m: Memory, kind: KeyClass, value: nat, i: nat, incoming: nat, ghost pairs: Doc,
      ghost stated: Doc)
    requires m.Valid() && HoldsMap(m.nodes, value, pairs) && ReadsMap(m.nodes, incoming, stated)
    requires OwnedByMap(m.nodes, incoming, stated) !! OwnedByMap(m.nodes, value, pairs)
    requires i < |pairs| == |m.nodes[value].slots| && PointsToMap(m.nodes, m.nodes[value].slots[i].cell)
    requires i == Find(pairs, pairs[i].key) && IsMap(pairs[i].value)
    modifies m
    ensures m.Valid() && m.next >= old(m.next)
    ensures Became(old(m.nodes), old(m.next), m.nodes, value, pairs,
                   pairs[i := Pair(pairs[i].key, Branch(Mapping, Onto(kind, pairs[i].value.pairs, stated)))])
  {
    ghost var was, least, inner := m.nodes, m.next, pairs[i].value.pairs;
    var slots := m.nodes[value].slots;
    var key, current := slots[i].key, slots[i].cell.id;
    SlotHolds(m.nodes, slots, pairs, i);
    SameFind(m.nodes, slots, pairs, key);
    MergeOnto(m, kind, current, incoming, inner, stated);
    NestedBecame(was, least, m.nodes, value, pairs, i, current, inner, Onto(kind, inner, stated));
    assert value !in OwnedByMap(was, current, inner);
    assert m.nodes[value] == was[value] && SetSlot(slots, key, Ref(current)) == slots;
    ghost var reached := m.nodes;
    m.Put(value, key, Ref(current));
    assert m.nodes == reached;
  }

  /** A mapping onto a new one, that is then set under the key. */
  method MergeAnew(m: Memory, kind: KeyClass, value: nat, key: string, incoming: nat, ghost pairs: Doc,
      ghost stated: Doc)
    requires m.Valid() && HoldsMap(m.nodes, value, pairs) && ReadsMap(m.nodes, incoming, stated)
    modifies m
    ensures m.Valid() && m.next >= old(m.next)
    ensures Became(old(m.nodes), old(m.next), m.nodes, value, pairs,
                   SetPair(pairs, key, Branch(Mapping, Onto(kind, [], stated))))
  {
    ghost var was, least := m.nodes, m.next;
    StandsBeside(was, least, Ref(incoming), Branch(Mapping, stated));
    EmptyHolds(was, least);
    var current := m.Allocate(Mapping, []);
    MergeOnto(m, kind, current, incoming, [], stated);
    BecameIsBuilt(was, current, current + 1, m.nodes, Onto(kind, [], stated));
    BuiltIsSet(was, least, m.nodes, value, pairs, key, current, Onto(kind, [], stated));
    m.Put(value, key, Ref(current));
  }

  method MergeMapping(m: Memory, kind: KeyClass, value: nat, key: string, incoming: nat, ghost pairs: Doc,
      ghost stated: Doc)
    requires m.Valid() && HoldsMap(m.nodes, value, pairs) && ReadsMap(m.nodes, incoming, stated)
    requires OwnedByMap(m.nodes, incoming, stated) !! OwnedByMap(m.nodes, value, pairs)
    modifies m
    ensures m.Valid() && m.next >= old(m.next)
    ensures Became(old(m.nodes), old(m.next), m.nodes, value, pairs,
                   SetPair(pairs, key, Branch(Mapping, Onto(kind, PairsOrEmpty(pairs, key), stated))))
  {
    var slots := m.nodes[value].slots;
    SameFind(m.nodes, slots, pairs, key);
    var i := FindSlot(slots, key);
    if i < |slots| {
      SlotHolds(m.nodes, slots, pairs, i);
    }
    if i < |slots| && PointsToMap(m.nodes, slots[i].cell) {
      MergeExisting(m, kind, value, i, incoming, pairs, stated);
    } else {
      MergeAnew(m, kind, value, key, incoming, pairs, stated);
    }
  }

  /** One key of a layer. */
  method MergeKeyInto(m: Memory, kind: KeyClass, value: nat, key: string, incoming: Cell, ghost pairs: Doc,
      ghost doc: Ordered)
    requires m.Valid() && HoldsMap(m.nodes, value, pairs) && Reads(m.nodes, incoming, doc)
    requires Owned(m.nodes, incoming, doc) !! OwnedByMap(m.nodes, value, pairs)
    modifies m
    ensures m.Valid() && m.next >= old(m.next)
    ensures Became(old(m.nodes), old(m.next), m.nodes, value, pairs, KeyPairs(kind, pairs, key, doc))
  {
    match kind {
      case Replace =>
        if incoming != Leaf(Null) { m.SetCopy(value, key, incoming, pairs, doc); }
      case Named =>
        if PointsToMap(m.nodes, incoming) { MergeMapping(m, kind, value, key, incoming.id, pairs, doc.pairs); }
      case Section =>
        if incoming == Leaf(Null) {
        } else if !PointsToMap(m.nodes, incoming) {
          m.SetCopy(value, key, incoming, pairs, doc);
        } else {
          MergeMapping(m, kind, value, key, incoming.id, pairs, doc.pairs);
        }
      case Computed =>
      case Separate =>
      case Unknown =>
    }
  }

  // ---- the fold ----------------------------------------------------------------------------

  method MergeLayerInto(m: Memory, classify: string -> KeyClass, value: nat, layer: nat, ghost pairs: Doc,
      ghost stated: Doc)
    requires m.Valid() && HoldsMap(m.nodes, value, pairs) && ReadsMap(m.nodes, layer, stated)
    requires OwnedByMap(m.nodes, value, pairs) !! OwnedByMap(m.nodes, layer, stated)
    modifies m
    ensures m.Valid() && m.next >= old(m.next)
    ensures Became(old(m.nodes), old(m.next), m.nodes, value, pairs, LayerPairs(classify, pairs, stated))
  {
    ghost var was, first := m.nodes, m.next;
    var items := m.nodes[layer].slots;
    var i := 0;
    assert SlotsRead(m.nodes, items, stated);
    assert stated[..0] == [];
    while i < |items|
      invariant i <= |items| == |stated| && m.Valid() && m.next >= first
      invariant Became(was, first, m.nodes, value, pairs, LayerPairs(classify, pairs, stated[..i]))
    {
      ghost var before, least, front := m.nodes, m.next, LayerPairs(classify, pairs, stated[..i]);
      PatchStands(was, first, m.nodes, value, pairs, front, items, stated, i);
      MergeKeyInto(m, classify(items[i].key), value, items[i].key, items[i].cell, front, stated[i].value);
      assert stated[..i + 1][..i] == stated[..i];
      BecameTwice(was, first, before, least, m.nodes, value, pairs, front,
        LayerPairs(classify, pairs, stated[..i + 1]));
      i := i + 1;
    }
    assert stated[..i] == stated;
  }

  ghost predicate LayersRead(nodes: Nodes, layers: seq<nat>, docs: seq<Doc>) {
    |layers| == |docs| && forall i :: 0 <= i < |layers| ==> ReadsMap(nodes, layers[i], docs[i])
  }

  /**
   * `mergeLayers`. Out comes a mapping of new objects that is the fold of the layers; everything that was in memory,
   * every layer with it, is as it was.
   */
  method MergeLayersInto(m: Memory, classify: string -> KeyClass, layers: seq<nat>, ghost docs: seq<Doc>)
    returns (value: nat)
    requires m.Valid() && LayersRead(m.nodes, layers, docs)
    modifies m
    ensures m.Valid()
    ensures Built(old(m.nodes), old(m.next), m.nodes, value, MergedPairs(classify, docs))
  {
    ghost var was, least := m.nodes, m.next;
    EmptyHolds(was, least);
    value := m.Allocate(Mapping, []);
    ghost var first := m.nodes;
    var n := 0;
    assert docs[..0] == [];
    while n < |layers|
      invariant n <= |layers| && m.Valid() && m.next > least
      invariant Became(first, least + 1, m.nodes, value, [], MergedPairs(classify, docs[..n]))
    {
      ghost var before, next, front := m.nodes, m.next, MergedPairs(classify, docs[..n]);
      StandsBeside(was, least, Ref(layers[n]), Branch(Mapping, docs[n]));
      SharesNothing(first, least + 1, m.nodes, value, [], front, Ref(layers[n]), Branch(Mapping, docs[n]));
      MergeLayerInto(m, classify, value, layers[n], front, docs[n]);
      assert docs[..n + 1][..n] == docs[..n];
      BecameTwice(first, least + 1, before, next, m.nodes, value, [], front, MergedPairs(classify, docs[..n + 1]));
      n := n + 1;
    }
    assert docs[..n] == docs;
    BecameIsBuilt(was, least, least + 1, m.nodes, MergedPairs(classify, docs));
  }

  /** A layer after the merge: the document it was, out of objects the merged value does not hold. */
  lemma {:induction false} LayersStand(was: Nodes, least: nat, nodes: Nodes, value: nat, merged: Doc,
      layers: seq<nat>, docs: seq<Doc>)
    requires Built(was, least, nodes, value, merged) && Below(was, least) && LayersRead(was, layers, docs)
    ensures LayersRead(nodes, layers, docs)
    ensures forall i :: 0 <= i < |layers| ==> OwnedByMap(nodes, layers[i], docs[i]) !! OwnedByMap(nodes, value, merged)
  {
    forall i | 0 <= i < |layers|
      ensures ReadsMap(nodes, layers[i], docs[i])
      ensures OwnedByMap(nodes, layers[i], docs[i]) !! OwnedByMap(nodes, value, merged)
    {
      OwnedExists(was, Ref(layers[i]), Branch(Mapping, docs[i]));
      ReadAgain(was, nodes, Ref(layers[i]), Branch(Mapping, docs[i]));
    }
  }
}
