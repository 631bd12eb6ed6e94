/**
 * `overlaySection` of packages/config/src/merge.ts as it runs: mappings and lists are objects in a memory, written in
 * place. The overlay copies what it takes from the patch, so the two documents share no object and the patch is never
 * written.
 */
module OverlayMemory {
  import opened ConfigTree
  import opened OrderedOverlay
  import opened Wrappers

  /** What a pair holds: an atom, or a reference to a mapping or a list. */
  datatype Cell = Leaf(value: Value) | Ref(id: nat)

  datatype Slot = Slot(key: string, cell: Cell)

  datatype Node = Node(kind: Kind, slots: seq<Slot>)

  type Nodes = map<nat, Node>

  // ---- a document in memory ----------------------------------------------------------------

  /** The objects that make up `doc` where `cell` stands for it. */
  ghost function Owned(nodes: Nodes, cell: Cell, doc: Ordered): set<nat>
    decreases doc, 0
  {
    if cell.Ref? && cell.id in nodes && doc.Branch? then
      {cell.id} + OwnedBySlots(nodes, nodes[cell.id].slots, doc.pairs)
    else {}
  }

  ghost function OwnedBySlots(nodes: Nodes, slots: seq<Slot>, pairs: seq<Pair>): set<nat>
    decreases pairs, 0
  {
    if slots == [] || pairs == [] then {}
    else
      OwnedBySlots(nodes, slots[..|slots| - 1], pairs[..|pairs| - 1]) +
      Owned(nodes, slots[|slots| - 1].cell, pairs[|pairs| - 1].value)
  }

  /** `cell` stands for `doc`, and no two places of it hold the same object. */
  ghost predicate Holds(nodes: Nodes, cell: Cell, doc: Ordered)
    decreases doc, 0
  {
    match doc
    case Atom(v) => cell == Leaf(v)
    case Branch(kind, pairs) =>
      && cell.Ref? && cell.id in nodes && nodes[cell.id].kind == kind
      && SlotsHold(nodes, nodes[cell.id].slots, pairs)
      && cell.id !in OwnedBySlots(nodes, nodes[cell.id].slots, pairs)
  }

  ghost predicate SlotsHold(nodes: Nodes, slots: seq<Slot>, pairs: seq<Pair>)
    decreases pairs, 0
  {
    && |slots| == |pairs|
    && (pairs != [] ==>
          var m := |pairs| - 1;
          && slots[m].key == pairs[m].key
          && SlotsHold(nodes, slots[..m], pairs[..m])
          && Holds(nodes, slots[m].cell, pairs[m].value)
          && OwnedBySlots(nodes, slots[..m], pairs[..m]) !! Owned(nodes, slots[m].cell, pairs[m].value))
  }

  /** `cell` reads as `doc`, wherever the same object is met twice. */
  ghost predicate Reads(nodes: Nodes, cell: Cell, doc: Ordered)
    decreases doc, 0
  {
    match doc
    case Atom(v) => cell == Leaf(v)
    case Branch(kind, pairs) =>
      cell.Ref? && cell.id in nodes && nodes[cell.id].kind == kind && SlotsRead(nodes, nodes[cell.id].slots, pairs)
  }

  ghost predicate SlotsRead(nodes: Nodes, slots: seq<Slot>, pairs: seq<Pair>)
    decreases pairs, 0
  {
    && |slots| == |pairs|
    && (pairs != [] ==>
          var m := |pairs| - 1;
          && slots[m].key == pairs[m].key
          && SlotsRead(nodes, slots[..m], pairs[..m])
          && Reads(nodes, slots[m].cell, pairs[m].value))
  }

  ghost predicate Agree(a: Nodes, b: Nodes, ids: set<nat>) {
    forall id :: id in ids && id in a ==> id in b && b[id] == a[id]
  }

  lemma {:induction false} OwnedExists(nodes: Nodes, cell: Cell, doc: Ordered)
    ensures Owned(nodes, cell, doc) <= nodes.Keys
    decreases doc, 0
  {
    if cell.Ref? && cell.id in nodes && doc.Branch? {
      OwnedBySlotsExists(nodes, nodes[cell.id].slots, doc.pairs);
    }
  }

  lemma {:induction false} OwnedBySlotsExists(nodes: Nodes, slots: seq<Slot>, pairs: seq<Pair>)
    ensures OwnedBySlots(nodes, slots, pairs) <= nodes.Keys
    decreases pairs, 0
  {
    if slots != [] && pairs != [] {
      OwnedBySlotsExists(nodes, slots[..|slots| - 1], pairs[..|pairs| - 1]);
      OwnedExists(nodes, slots[|slots| - 1].cell, pairs[|pairs| - 1].value);
    }
  }

  /** A document stands as long as its own objects do. */
  lemma {:induction false} Frame(a: Nodes, b: Nodes, cell: Cell, doc: Ordered)
    requires Holds(a, cell, doc) && Agree(a, b, Owned(a, cell, doc))
    ensures Holds(b, cell, doc) && Owned(b, cell, doc) == Owned(a, cell, doc)
    decreases doc, 0
  {
    if doc.Branch? {
      assert cell.id in Owned(a, cell, doc);
      FrameSlots(a, b, a[cell.id].slots, doc.pairs);
    }
  }

  lemma {:induction false} FrameSlots(a: Nodes, b: Nodes, slots: seq<Slot>, pairs: seq<Pair>)
    requires SlotsHold(a, slots, pairs) && Agree(a, b, OwnedBySlots(a, slots, pairs))
    ensures SlotsHold(b, slots, pairs) && OwnedBySlots(b, slots, pairs) == OwnedBySlots(a, slots, pairs)
    decreases pairs, 0
  {
    if pairs != [] {
      var m := |pairs| - 1;
      FrameSlots(a, b, slots[..m], pairs[..m]);
      Frame(a, b, slots[m].cell, pairs[m].value);
    }
  }

  /** A document reads the same as long as its objects are the same. */
  lemma {:induction false} ReadAgain(a: Nodes, b: Nodes, cell: Cell, doc: Ordered)
    requires Reads(a, cell, doc) && Agree(a, b, Owned(a, cell, doc))
    ensures Reads(b, cell, doc) && Owned(b, cell, doc) == Owned(a, cell, doc)
    decreases doc, 0
  {
    if doc.Branch? {
      assert cell.id in Owned(a, cell, doc);
      ReadSlotsAgain(a, b, a[cell.id].slots, doc.pairs);
    }
  }

  lemma {:induction false} ReadSlotsAgain(a: Nodes, b: Nodes, slots: seq<Slot>, pairs: seq<Pair>)
    requires SlotsRead(a, slots, pairs) && Agree(a, b, OwnedBySlots(a, slots, pairs))
    ensures SlotsRead(b, slots, pairs) && OwnedBySlots(b, slots, pairs) == OwnedBySlots(a, slots, pairs)
    decreases pairs, 0
  {
    if pairs != [] {
      var m := |pairs| - 1;
      ReadSlotsAgain(a, b, slots[..m], pairs[..m]);
      ReadAgain(a, b, slots[m].cell, pairs[m].value);
    }
  }

  lemma {:induction false} SlotReads(nodes: Nodes, slots: seq<Slot>, pairs: seq<Pair>, j: nat)
    requires SlotsRead(nodes, slots, pairs) && j < |pairs|
    ensures slots[j].key == pairs[j].key && Reads(nodes, slots[j].cell, pairs[j].value)
    ensures Owned(nodes, slots[j].cell, pairs[j].value) <= OwnedBySlots(nodes, slots, pairs)
  {
    if j < |pairs| - 1 {
      SlotReads(nodes, slots[..|pairs| - 1], pairs[..|pairs| - 1], j);
    }
  }

  lemma {:induction false} SlotHolds(nodes: Nodes, slots: seq<Slot>, pairs: seq<Pair>, j: nat)
    requires SlotsHold(nodes, slots, pairs) && j < |pairs|
    ensures slots[j].key == pairs[j].key && Holds(nodes, slots[j].cell, pairs[j].value)
    ensures Owned(nodes, slots[j].cell, pairs[j].value) <= OwnedBySlots(nodes, slots, pairs)
  {
    if j < |pairs| - 1 {
      SlotHolds(nodes, slots[..|pairs| - 1], pairs[..|pairs| - 1], j);
    }
  }

  lemma {:induction false} LastSlot(nodes: Nodes, slots: seq<Slot>, pairs: seq<Pair>)
    requires |slots| == |pairs| > 0 && slots[|pairs| - 1].key == pairs[|pairs| - 1].key
    requires SlotsHold(nodes, slots[..|pairs| - 1], pairs[..|pairs| - 1])
    requires Holds(nodes, slots[|pairs| - 1].cell, pairs[|pairs| - 1].value)
    requires OwnedBySlots(nodes, slots[..|pairs| - 1], pairs[..|pairs| - 1]) !!
             Owned(nodes, slots[|pairs| - 1].cell, pairs[|pairs| - 1].value)
    ensures SlotsHold(nodes, slots, pairs)
    ensures OwnedBySlots(nodes, slots, pairs) ==
            OwnedBySlots(nodes, slots[..|pairs| - 1], pairs[..|pairs| - 1]) +
            Owned(nodes, slots[|pairs| - 1].cell, pairs[|pairs| - 1].value)
  {
  }

  lemma {:induction false} SlotAppended(a: Nodes, b: Nodes, slots: seq<Slot>, pairs: seq<Pair>, key: string,
      cell: Cell, doc: Ordered)
    requires SlotsHold(a, slots, pairs) && Agree(a, b, OwnedBySlots(a, slots, pairs))
    requires Holds(b, cell, doc) && Owned(b, cell, doc) !! OwnedBySlots(a, slots, pairs)
    ensures SlotsHold(b, slots + [Slot(key, cell)], pairs + [Pair(key, doc)])
    ensures OwnedBySlots(b, slots + [Slot(key, cell)], pairs + [Pair(key, doc)]) ==
            OwnedBySlots(a, slots, pairs) + Owned(b, cell, doc)
  {
    var slots', pairs' := slots + [Slot(key, cell)], pairs + [Pair(key, doc)];
    FrameSlots(a, b, slots, pairs);
    assert slots'[..|slots|] == slots && pairs'[..|pairs|] == pairs;
    LastSlot(b, slots', pairs');
  }

  /** The last slot's own objects, apart from the others'. */
  lemma {:induction false} LastApart(nodes: Nodes, slots: seq<Slot>, pairs: seq<Pair>)
    requires SlotsHold(nodes, slots, pairs) && pairs != []
    ensures var m := |pairs| - 1;
            OwnedBySlots(nodes, slots, pairs) - Owned(nodes, slots[m].cell, pairs[m].value) ==
              OwnedBySlots(nodes, slots[..m], pairs[..m])
  {
  }

  lemma {:induction false} EarlierApart(nodes: Nodes, slots: seq<Slot>, pairs: seq<Pair>, j: nat)
    requires SlotsHold(nodes, slots, pairs) && j < |pairs| - 1
    ensures var m, mine := |pairs| - 1, Owned(nodes, slots[j].cell, pairs[j].value);
            && mine <= OwnedBySlots(nodes, slots[..m], pairs[..m])
            && mine !! Owned(nodes, slots[m].cell, pairs[m].value)
            && OwnedBySlots(nodes, slots, pairs) - mine ==
                 OwnedBySlots(nodes, slots[..m], pairs[..m]) - mine + Owned(nodes, slots[m].cell, pairs[m].value)
  {
    SlotHolds(nodes, slots[..|pairs| - 1], pairs[..|pairs| - 1], j);
  }

  lemma {:induction false} LastReplaced(a: Nodes, b: Nodes, slots: seq<Slot>, pairs: seq<Pair>, cell: Cell,
      doc: Ordered)
    requires SlotsHold(a, slots, pairs) && pairs != []
    requires var m := |pairs| - 1;
             Agree(a, b, OwnedBySlots(a, slots[..m], pairs[..m]))
             && Owned(b, cell, doc) !! OwnedBySlots(a, slots[..m], pairs[..m])
    requires Holds(b, cell, doc)
    ensures var m := |pairs| - 1;
            var slots', pairs' := slots[m := Slot(slots[m].key, cell)], pairs[m := Pair(pairs[m].key, doc)];
            SlotsHold(b, slots', pairs')
              && OwnedBySlots(b, slots', pairs') == OwnedBySlots(a, slots[..m], pairs[..m]) + Owned(b, cell, doc)
  {
    var m := |pairs| - 1;
    SlotAppended(a, b, slots[..m], pairs[..m], slots[m].key, cell, doc);
    assert slots[..m] + [Slot(slots[m].key, cell)] == slots[m := Slot(slots[m].key, cell)];
    assert pairs[..m] + [Pair(slots[m].key, doc)] == pairs[m := Pair(pairs[m].key, doc)];
  }

  /** What the slots before the last hold has changed; the last stands. */
  lemma {:induction false} LastStands(a: Nodes, b: Nodes, slots: seq<Slot>, slots': seq<Slot>, pairs: seq<Pair>,
      pairs': seq<Pair>)
    requires SlotsHold(a, slots, pairs) && |slots'| == |pairs'| == |pairs| > 0
    requires var m := |pairs| - 1;
             slots'[m] == slots[m] && pairs'[m] == pairs[m] && SlotsHold(b, slots'[..m], pairs'[..m])
    requires var last := Owned(a, slots[|pairs| - 1].cell, pairs[|pairs| - 1].value);
             Agree(a, b, last) && last !! OwnedBySlots(b, slots'[..|pairs| - 1], pairs'[..|pairs| - 1])
    ensures var m := |pairs| - 1;
            && SlotsHold(b, slots', pairs')
            && OwnedBySlots(b, slots', pairs') ==
                 OwnedBySlots(b, slots'[..m], pairs'[..m]) + Owned(a, slots[m].cell, pairs[m].value)
  {
    Frame(a, b, slots[|pairs| - 1].cell, pairs[|pairs| - 1].value);
  }

  /** What the replacing of one slot needs: it is made of objects none of the others own. */
  ghost predicate CanReplace(a: Nodes, b: Nodes, slots: seq<Slot>, pairs: seq<Pair>, j: nat, cell: Cell, doc: Ordered)
    requires j < |pairs| == |slots|
  {
    && Agree(a, b, OwnedBySlots(a, slots, pairs) - Owned(a, slots[j].cell, pairs[j].value))
    && Holds(b, cell, doc)
    && Owned(b, cell, doc) !! OwnedBySlots(a, slots, pairs) - Owned(a, slots[j].cell, pairs[j].value)
  }

  /** One slot, as replaced. */
  function WithCell(slots: seq<Slot>, j: nat, cell: Cell): seq<Slot>
    requires j < |slots|
  {
    slots[j := Slot(slots[j].key, cell)]
  }

  function WithValue(pairs: seq<Pair>, j: nat, doc: Ordered): seq<Pair>
    requires j < |pairs|
  {
    pairs[j := Pair(pairs[j].key, doc)]
  }

  lemma {:induction false} EarlierReplaced(a: Nodes, b: Nodes, slots: seq<Slot>, pairs: seq<Pair>, j: nat, cell: Cell,
      doc: Ordered)
    requires SlotsHold(a, slots, pairs) && j < |pairs| - 1 && CanReplace(a, b, slots, pairs, j, cell, doc)
    requires var m := |pairs| - 1;
             && SlotsHold(b, WithCell(slots[..m], j, cell), WithValue(pairs[..m], j, doc))
             && OwnedBySlots(b, WithCell(slots[..m], j, cell), WithValue(pairs[..m], j, doc)) ==
                  OwnedBySlots(a, slots[..m], pairs[..m]) - Owned(a, slots[j].cell, pairs[j].value) +
                  Owned(b, cell, doc)
    ensures SlotsHold(b, WithCell(slots, j, cell), WithValue(pairs, j, doc))
    ensures OwnedBySlots(b, WithCell(slots, j, cell), WithValue(pairs, j, doc)) ==
            OwnedBySlots(a, slots, pairs) - Owned(a, slots[j].cell, pairs[j].value) + Owned(b, cell, doc)
  {
    var m := |pairs| - 1;
    var slots', pairs' := WithCell(slots, j, cell), WithValue(pairs, j, doc);
    EarlierCanReplace(a, b, slots, pairs, j, cell, doc);
    assert slots'[..m] == WithCell(slots[..m], j, cell);
    assert pairs'[..m] == WithValue(pairs[..m], j, doc);
    LastStands(a, b, slots, slots', pairs, pairs');
  }

  /** One slot holds something else, made of objects none of the others own. */
  lemma {:induction false} SlotReplaced(a: Nodes, b: Nodes, slots: seq<Slot>, pairs: seq<Pair>, j: nat, cell: Cell,
      doc: Ordered)
    requires SlotsHold(a, slots, pairs) && j < |pairs| && CanReplace(a, b, slots, pairs, j, cell, doc)
    ensures SlotsHold(b, WithCell(slots, j, cell), WithValue(pairs, j, doc))
    ensures OwnedBySlots(b, WithCell(slots, j, cell), WithValue(pairs, j, doc)) ==
            OwnedBySlots(a, slots, pairs) - Owned(a, slots[j].cell, pairs[j].value) + Owned(b, cell, doc)
  {
    var m := |pairs| - 1;
    if j == m {
      LastApart(a, slots, pairs);
      LastReplaced(a, b, slots, pairs, cell, doc);
    } else {
      EarlierCanReplace(a, b, slots, pairs, j, cell, doc);
      SlotReplaced(a, b, slots[..m], pairs[..m], j, cell, doc);
      EarlierReplaced(a, b, slots, pairs, j, cell, doc);
    }
  }

  /** It needs as much of the slots before the last; the last stands, apart from them and from what is put in. */
  lemma {:induction false} EarlierCanReplace(a: Nodes, b: Nodes, slots: seq<Slot>, pairs: seq<Pair>, j: nat,
      cell: Cell, doc: Ordered)
    requires SlotsHold(a, slots, pairs) && j < |pairs| - 1 && CanReplace(a, b, slots, pairs, j, cell, doc)
    ensures var m, mine := |pairs| - 1, Owned(a, slots[j].cell, pairs[j].value);
            var others, last := OwnedBySlots(a, slots[..m], pairs[..m]) - mine, Owned(a, slots[m].cell, pairs[m].value);
            && CanReplace(a, b, slots[..m], pairs[..m], j, cell, doc)
            && Agree(a, b, last) && last !! others + Owned(b, cell, doc)
            && OwnedBySlots(a, slots, pairs) - mine + Owned(b, cell, doc) == others + Owned(b, cell, doc) + last
  {
    EarlierApart(a, slots, pairs, j);
  }

  // ---- the adapter's steps -----------------------------------------------------------------

  function FindSlot(slots: seq<Slot>, key: string): (i: nat)
    ensures i <= |slots| && (i < |slots| ==> slots[i].key == key)
    ensures forall j :: 0 <= j < i ==> slots[j].key != key
  {
    if slots == [] || slots[0].key == key then 0 else 1 + FindSlot(slots[1..], key)
  }

  lemma {:induction false} SameFind(nodes: Nodes, slots: seq<Slot>, pairs: seq<Pair>, key: string)
    requires SlotsHold(nodes, slots, pairs)
    ensures FindSlot(slots, key) == Find(pairs, key)
  {
    forall j | 0 <= j < |pairs| ensures slots[j].key == pairs[j].key {
      SlotHolds(nodes, slots, pairs, j);
    }
  }

  function SetSlot(slots: seq<Slot>, key: string, cell: Cell): seq<Slot> {
    var i := FindSlot(slots, key);
    if i < |slots| then slots[i := Slot(key, cell)] else slots + [Slot(key, cell)]
  }

  predicate PointsToMap(nodes: Nodes, cell: Cell) {
    cell.Ref? && cell.id in nodes && nodes[cell.id].kind.Mapping?
  }

  /** The objects of a mapping that `id` stands for. */
  ghost function OwnedByMap(nodes: Nodes, id: nat, pairs: seq<Pair>): set<nat> {
    Owned(nodes, Ref(id), Branch(Mapping, pairs))
  }

  ghost predicate HoldsMap(nodes: Nodes, id: nat, pairs: seq<Pair>) {
    Holds(nodes, Ref(id), Branch(Mapping, pairs))
  }

  ghost predicate ReadsMap(nodes: Nodes, id: nat, pairs: seq<Pair>) {
    Reads(nodes, Ref(id), Branch(Mapping, pairs))
  }

  /** `set`: the cell, made of objects the mapping does not own, under the key. */
  ghost predicate SetUnder(a: Nodes, b: Nodes, id: nat, pairs: seq<Pair>, key: string, cell: Cell, doc: Ordered) {
    && HoldsMap(a, id, pairs) && id in b && b[id] == Node(Mapping, SetSlot(a[id].slots, key, cell))
    && Agree(a, b, OwnedByMap(a, id, pairs) - {id})
    && Holds(b, cell, doc) && Owned(b, cell, doc) !! OwnedByMap(a, id, pairs)
  }

  lemma {:induction false} SetInPlace(a: Nodes, b: Nodes, id: nat, pairs: seq<Pair>, key: string, cell: Cell,
      doc: Ordered)
    requires SetUnder(a, b, id, pairs, key, cell, doc) && Find(pairs, key) < |pairs|
    ensures HoldsMap(b, id, SetPair(pairs, key, doc))
    ensures OwnedByMap(b, id, SetPair(pairs, key, doc)) <= OwnedByMap(a, id, pairs) + Owned(b, cell, doc)
  {
    SameFind(a, a[id].slots, pairs, key);
    SlotReplaced(a, b, a[id].slots, pairs, Find(pairs, key), cell, doc);
  }

  lemma {:induction false} SetLast(a: Nodes, b: Nodes, id: nat, pairs: seq<Pair>, key: string, cell: Cell, doc: Ordered)
    requires SetUnder(a, b, id, pairs, key, cell, doc) && Find(pairs, key) == |pairs|
    ensures HoldsMap(b, id, SetPair(pairs, key, doc))
    ensures OwnedByMap(b, id, SetPair(pairs, key, doc)) <= OwnedByMap(a, id, pairs) + Owned(b, cell, doc)
  {
    SameFind(a, a[id].slots, pairs, key);
    SlotAppended(a, b, a[id].slots, pairs, key, cell, doc);
  }

  /** The mapping nested under a key became another document in place. */
  lemma {:induction false} NestedHolds(a: Nodes, b: Nodes, id: nat, pairs: seq<Pair>, i: nat, doc: Ordered)
    requires HoldsMap(a, id, pairs) && i < |pairs| == |a[id].slots|
    requires var cell := a[id].slots[i].cell;
             && Agree(a, b, OwnedByMap(a, id, pairs) - Owned(a, cell, pairs[i].value))
             && Holds(b, cell, doc)
                  && Owned(b, cell, doc) !! (OwnedByMap(a, id, pairs) - Owned(a, cell, pairs[i].value))
    ensures HoldsMap(b, id, pairs[i := Pair(pairs[i].key, doc)])
    ensures OwnedByMap(b, id, pairs[i := Pair(pairs[i].key, doc)]) <=
            OwnedByMap(a, id, pairs) + Owned(b, a[id].slots[i].cell, doc)
  {
    var slots := a[id].slots;
    SlotHolds(a, slots, pairs, i);
    assert id in OwnedByMap(a, id, pairs) - Owned(a, slots[i].cell, pairs[i].value);
    SlotReplaced(a, b, slots, pairs, i, slots[i].cell, doc);
    assert slots[i := Slot(slots[i].key, slots[i].cell)] == slots;
  }

  ghost predicate From(ids: set<nat>, least: nat) {
    forall id :: id in ids ==> id >= least
  }

  /** Part of a copy: it stands, out of new objects, and none that was there is changed. */
  ghost predicate Copied(was: Nodes, least: nat, nodes: Nodes, slots: seq<Slot>, pairs: seq<Pair>) {
    Agree(was, nodes, was.Keys) && SlotsHold(nodes, slots, pairs) && From(OwnedBySlots(nodes, slots, pairs), least)
  }

  lemma {:induction false} CopiedOneMore(was: Nodes, least: nat, before: Nodes, next: nat, nodes: Nodes,
      slots: seq<Slot>, pairs: seq<Pair>, one: Slot, p: Pair)
    requires Copied(was, least, before, slots, pairs) && least <= next && forall id :: id in before ==> id < next
    requires Agree(before, nodes, before.Keys) && one.key == p.key
    requires Holds(nodes, one.cell, p.value) && From(Owned(nodes, one.cell, p.value), next)
    ensures Copied(was, least, nodes, slots + [one], pairs + [p])
  {
    OwnedBySlotsExists(before, slots, pairs);
    SlotAppended(before, nodes, slots, pairs, one.key, one.cell, p.value);
  }

  /** What was there still stands after copying. */
  lemma {:induction false} SourceStands(was: Nodes, nodes: Nodes, slots: seq<Slot>, pairs: seq<Pair>, i: nat)
    requires SlotsRead(was, slots, pairs) && i < |pairs| && Agree(was, nodes, was.Keys)
    ensures slots[i].key == pairs[i].key && Reads(nodes, slots[i].cell, pairs[i].value)
  {
    SlotReads(was, slots, pairs, i);
    OwnedExists(was, slots[i].cell, pairs[i].value);
    ReadAgain(was, nodes, slots[i].cell, pairs[i].value);
  }

  lemma {:induction false} CopyAllocated(was: Nodes, least: nat, nodes: Nodes, id: nat, kind: Kind, slots: seq<Slot>,
      pairs: seq<Pair>)
    requires Copied(was, least, nodes, slots, pairs) && least <= id && id !in nodes
    ensures var after := nodes[id := Node(kind, slots)];
            && Holds(after, Ref(id), Branch(kind, pairs)) && From(Owned(after, Ref(id), Branch(kind, pairs)), least)
            && Agree(was, after, was.Keys)
  {
    var after := nodes[id := Node(kind, slots)];
    OwnedBySlotsExists(nodes, slots, pairs);
    FrameSlots(nodes, after, slots, pairs);
  }

  // ---- the overlay, one pair after another -------------------------------------------------

  ghost predicate Below(nodes: Nodes, least: nat) {
    forall id :: id in nodes ==> id < least
  }

  ghost predicate OwnOrNew(ids: set<nat>, own: set<nat>, least: nat) {
    forall id :: id in ids ==> id in own || id >= least
  }

  /** The mapping became another: out of its own objects and new ones, nothing else written. */
  ghost predicate Became(was: Nodes, least: nat, nodes: Nodes, id: nat, before: seq<Pair>, after: seq<Pair>) {
    && HoldsMap(nodes, id, after)
    && OwnOrNew(OwnedByMap(nodes, id, after), OwnedByMap(was, id, before), least)
    && Agree(was, nodes, was.Keys - OwnedByMap(was, id, before))
  }

  lemma {:induction false} BecameTwice(a: Nodes, x: nat, b: Nodes, y: nat, c: Nodes, id: nat, one: seq<Pair>,
      two: seq<Pair>, three: seq<Pair>)
    requires Became(a, x, b, id, one, two) && Became(b, y, c, id, two, three)
    requires Below(a, x) && x <= y
    ensures Became(a, x, c, id, one, three)
  {
    forall k | k in a.Keys - OwnedByMap(a, id, one) ensures k in c && c[k] == a[k] {
      assert k in b && b[k] == a[k] && k !in OwnedByMap(b, id, two);
    }
  }

  lemma {:induction false} OverlayOneMore(pairs: seq<Pair>, stated: seq<Pair>, i: nat)
    requires i < |stated|
    ensures var front, one := OverlayPairs(pairs, stated[..i]), stated[i];
            OverlayPairs(pairs, stated[..i + 1]) == SetPair(front, one.key, OverlayAt(front, one.key, one.value))
  {
    assert stated[..i + 1][..i] == stated[..i];
  }

  /** The patch stands through it all, apart from the target. */
  lemma {:induction false} PatchStands(was: Nodes, least: nat, nodes: Nodes, id: nat, before: seq<Pair>,
      after: seq<Pair>, slots: seq<Slot>, patch: seq<Pair>, i: nat)
    requires Became(was, least, nodes, id, before, after) && Below(was, least)
    requires SlotsRead(was, slots, patch) && i < |patch|
    requires OwnedBySlots(was, slots, patch) !! OwnedByMap(was, id, before)
    ensures slots[i].key == patch[i].key && Reads(nodes, slots[i].cell, patch[i].value)
    ensures Owned(nodes, slots[i].cell, patch[i].value) !! OwnedByMap(nodes, id, after)
  {
    SlotReads(was, slots, patch, i);
    OwnedExists(was, slots[i].cell, patch[i].value);
    ReadAgain(was, nodes, slots[i].cell, patch[i].value);
  }

  /** No layer is changed, and the overlaid mapping shares no object with it. */
  lemma {:induction false} SharesNothing(was: Nodes, least: nat, nodes: Nodes, id: nat, before: seq<Pair>,
      after: seq<Pair>, layer: Cell, doc: Ordered)
    requires Became(was, least, nodes, id, before, after) && Below(was, least)
    requires Reads(was, layer, doc) && Owned(was, layer, doc) !! OwnedByMap(was, id, before)
    ensures Reads(nodes, layer, doc) && Agree(was, nodes, Owned(was, layer, doc))
    ensures Owned(nodes, layer, doc) !! OwnedByMap(nodes, id, after)
  {
    OwnedExists(was, layer, doc);
    ReadAgain(was, nodes, layer, doc);
  }

  lemma {:induction false} NestedBecame(was: Nodes, least: nat, nodes: Nodes, id: nat, pairs: seq<Pair>, i: nat,
      child: nat, before: seq<Pair>, after: seq<Pair>)
    requires HoldsMap(was, id, pairs) && Below(was, least) && i < |pairs| == |was[id].slots|
    requires was[id].slots[i].cell == Ref(child) && pairs[i].value == Branch(Mapping, before)
    requires Became(was, least, nodes, child, before, after)
    ensures Became(was, least, nodes, id, pairs, pairs[i := Pair(pairs[i].key, Branch(Mapping, after))])
  {
    SlotHolds(was, was[id].slots, pairs, i);
    OwnedExists(was, Ref(id), Branch(Mapping, pairs));
    var mine, inner := OwnedByMap(was, id, pairs), OwnedByMap(was, child, before);
    assert inner <= mine;
    assert OwnedByMap(nodes, child, after) !! mine - inner;
    NestedHolds(was, nodes, id, pairs, i, Branch(Mapping, after));
  }

  lemma {:induction false} SetBecame(was: Nodes, least: nat, copied: Nodes, id: nat, pairs: seq<Pair>, key: string,
      copy: Cell, doc: Ordered)
    requires HoldsMap(was, id, pairs) && Below(was, least)
    requires Agree(was, copied, was.Keys) && Holds(copied, copy, doc) && From(Owned(copied, copy, doc), least)
    ensures Became(was, least, copied[id := Node(Mapping, SetSlot(was[id].slots, key, copy))], id, pairs,
                   SetPair(pairs, key, doc))
  {
    var nodes := copied[id := Node(Mapping, SetSlot(was[id].slots, key, copy))];
    OwnedExists(was, Ref(id), Branch(Mapping, pairs));
    assert id in was && id < least;
    Frame(copied, nodes, copy, doc);
    assert SetUnder(was, nodes, id, pairs, key, copy, doc);
    if Find(pairs, key) < |pairs| {
      SetInPlace(was, nodes, id, pairs, key, copy, doc);
    } else {
      SetLast(was, nodes, id, pairs, key, copy, doc);
    }
    assert id in OwnedByMap(was, id, pairs);
  }

  // ---- the memory --------------------------------------------------------------------------

  class Memory {
    var nodes: Nodes
    var next: nat

    ghost predicate Valid()
      reads this
    {
      forall id :: id in nodes ==> id < next
    }

    method Allocate(kind: Kind, slots: seq<Slot>) returns (id: nat)
      requires Valid()
      modifies this
      ensures Valid() && id == old(next) && next == id + 1 && nodes == old(nodes)[id := Node(kind, slots)]
    {
      id := next;
      nodes := nodes[id := Node(kind, slots)];
      next := next + 1;
    }

    /** `clone`: the same document out of new objects; none that was there is written. */
    method Clone(cell: Cell, ghost doc: Ordered) returns (copy: Cell)
      requires Valid() && Reads(nodes, cell, doc)
      modifies this
      ensures Valid() && next >= old(next) && Agree(old(nodes), nodes, old(nodes).Keys)
      ensures Holds(nodes, copy, doc) && From(Owned(nodes, copy, doc), old(next))
      decreases doc
    {
      if cell.Leaf? { return cell; }
      var node := nodes[cell.id];
      ghost var pairs := doc.pairs;
      var slots: seq<Slot> := [];
      var i := 0;
      assert pairs[..0] == [];
      while i < |node.slots|
        invariant i <= |node.slots| == |pairs| && Valid() && next >= old(next)
        invariant Copied(old(nodes), old(next), nodes, slots, pairs[..i])
      {
        SourceStands(old(nodes), nodes, node.slots, pairs, i);
        ghost var before, least := nodes, next;
        var one := Clone(node.slots[i].cell, pairs[i].value);
        CopiedOneMore(old(nodes), old(next), before, least, nodes, slots, pairs[..i], Slot(node.slots[i].key, one),
          pairs[i]);
        assert pairs[..i] + [pairs[i]] == pairs[..i + 1];
        slots := slots + [Slot(node.slots[i].key, one)];
        i := i + 1;
      }
      assert pairs[..i] == pairs;
      CopyAllocated(old(nodes), old(next), nodes, next, node.kind, slots, pairs);
      var id := Allocate(node.kind, slots);
      copy := Ref(id);
    }

    method Put(id: nat, key: string, cell: Cell)
      requires id in nodes && nodes[id].kind.Mapping?
      modifies this
      ensures nodes == old(nodes)[id := Node(Mapping, SetSlot(old(nodes)[id].slots, key, cell))] && next == old(next)
    {
      nodes := nodes[id := Node(Mapping, SetSlot(nodes[id].slots, key, cell))];
    }

    /** A copy of what the patch holds, under the key. */
    method SetCopy(target: nat, key: string, incoming: Cell, ghost pairs: seq<Pair>, ghost doc: Ordered)
      requires Valid() && HoldsMap(nodes, target, pairs) && Reads(nodes, incoming, doc)
      modifies this
      ensures Valid() && next >= old(next)
      ensures Became(old(nodes), old(next), nodes, target, pairs, SetPair(pairs, key, doc))
    {
      ghost var was, least := nodes, next;
      OwnedExists(was, Ref(target), Branch(Mapping, pairs));
      var copy := Clone(incoming, doc);
      SetBecame(was, least, nodes, target, pairs, key, copy, doc);
      Put(target, key, copy);
    }

    /** One pair of the patch. */
    method OverlayPair(target: nat, key: string, incoming: Cell, ghost pairs: seq<Pair>, ghost doc: Ordered)
      requires Valid() && HoldsMap(nodes, target, pairs) && Reads(nodes, incoming, doc)
      requires Owned(nodes, incoming, doc) !! OwnedByMap(nodes, target, pairs)
      modifies this
      ensures Valid() && next >= old(next)
      ensures Became(old(nodes), old(next), nodes, target, pairs, SetPair(pairs, key, OverlayAt(pairs, key, doc)))
      decreases doc, 1
    {
      var slots := nodes[target].slots;
      SameFind(nodes, slots, pairs, key);
      var i := FindSlot(slots, key);
      if i < |slots| {
        SlotHolds(nodes, slots, pairs, i);
      }
      if i < |slots| && PointsToMap(nodes, slots[i].cell) && PointsToMap(nodes, incoming) {
        ghost var was, least, inner := nodes, next, pairs[i].value.pairs;
        OverlaySection(slots[i].cell.id, incoming.id, inner, doc.pairs);
        NestedBecame(was, least, nodes, target, pairs, i, slots[i].cell.id, inner, OverlayPairs(inner, doc.pairs));
      } else {
        SetCopy(target, key, incoming, pairs, doc);
      }
    }

    /**
     * `overlaySection`. The target becomes the overlay of the two documents, out of its own objects and new ones; the
     * patch, and everything else that was in memory, is as it was.
     */
    method OverlaySection(target: nat, patch: nat, ghost pairs: seq<Pair>, ghost stated: seq<Pair>)
      requires Valid() && HoldsMap(nodes, target, pairs) && ReadsMap(nodes, patch, stated)
      requires OwnedByMap(nodes, target, pairs) !! OwnedByMap(nodes, patch, stated)
      modifies this
      ensures Valid() && next >= old(next)
      ensures Became(old(nodes), old(next), nodes, target, pairs, OverlayPairs(pairs, stated))
      ensures ReadsMap(nodes, patch, stated)
      ensures OwnedByMap(nodes, target, OverlayPairs(pairs, stated)) !! OwnedByMap(nodes, patch, stated)
      decreases stated, 0
    {
      ghost var was, first := nodes, next;
      var items := nodes[patch].slots;
      var i := 0;
      assert SlotsRead(nodes, items, stated);
      assert stated[..0] == [];
      while i < |items|
        invariant i <= |items| == |stated| && Valid() && next >= first
        invariant Became(was, first, nodes, target, pairs, OverlayPairs(pairs, stated[..i]))
      {
        ghost var before, least, front := nodes, next, OverlayPairs(pairs, stated[..i]);
        PatchStands(was, first, nodes, target, pairs, front, items, stated, i);
        OverlayPair(target, items[i].key, items[i].cell, front, stated[i].value);
        OverlayOneMore(pairs, stated, i);
        BecameTwice(was, first, before, least, nodes, target, pairs, front, OverlayPairs(pairs, stated[..i + 1]));
        i := i + 1;
      }
      assert stated[..i] == stated;
      SharesNothing(was, first, nodes, target, pairs, OverlayPairs(pairs, stated), Ref(patch), Branch(Mapping, stated));
    }
  }
}
