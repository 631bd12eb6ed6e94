/**
 * The section overlay over documents that keep the order of their keys: what packages/config/src/writers.ts runs on a
 * YAML document tree. It keeps that order, and forgets to the overlay over plain values.
 */
module OrderedOverlay {
  import opened ConfigTree
  import opened Wrappers

  datatype Kind = Mapping | Listing

  /** A document in order: a mapping's pairs, or a list's items, whose keys are not read. An atom is neither. */
  datatype Ordered = Atom(value: Value) | Branch(kind: Kind, pairs: seq<Pair>)

  datatype Pair = Pair(key: string, value: Ordered)

  predicate IsMap(doc: Ordered) {
    doc.Branch? && doc.kind.Mapping?
  }

  function Find(pairs: seq<Pair>, key: string): (i: nat)
    ensures i <= |pairs| && (i < |pairs| ==> pairs[i].key == key)
    ensures forall j :: 0 <= j < i ==> pairs[j].key != key
  {
    if pairs == [] || pairs[0].key == key then 0 else 1 + Find(pairs[1..], key)
  }

  /** A pair set by key: in its own place when it is there, last when it is not. */
  function SetPair(pairs: seq<Pair>, key: string, value: Ordered): seq<Pair> {
    var i := Find(pairs, key);
    if i < |pairs| then pairs[i := Pair(key, value)] else pairs + [Pair(key, value)]
  }

  /** What a key holds after the overlay: the two overlaid where both are mappings, else what the patch says. */
  function OverlayAt(target: seq<Pair>, key: string, incoming: Ordered): Ordered
    decreases incoming, 1
  {
    var i := Find(target, key);
    if i < |target| && IsMap(target[i].value) && IsMap(incoming)
    then Branch(Mapping, OverlayPairs(target[i].value.pairs, incoming.pairs)) else incoming
  }

  /** The patch's pairs, one after another, onto the target's. */
  function OverlayPairs(target: seq<Pair>, patch: seq<Pair>): seq<Pair>
    decreases patch, 0
  {
    if patch == [] then target
    else
      var front, last := OverlayPairs(target, patch[..|patch| - 1]), patch[|patch| - 1];
      SetPair(front, last.key, OverlayAt(front, last.key, last.value))
  }

  // ---- order -------------------------------------------------------------------------------

  function Keys(pairs: seq<Pair>): seq<string> {
    seq(|pairs|, i requires 0 <= i < |pairs| => pairs[i].key)
  }

  /** The keys of `more` that `keys` lacks, in their own order. */
  function NewKeys(keys: seq<string>, more: seq<string>): seq<string> {
    if more == [] then []
    else
      var front, last := NewKeys(keys, more[..|more| - 1]), more[|more| - 1];
      if last in keys then front else front + [last]
  }

  ghost predicate DistinctKeys(pairs: seq<Pair>) {
    forall i, j :: 0 <= i < j < |pairs| ==> pairs[i].key != pairs[j].key
  }

  lemma {:induction false} NewKeysAreOfBoth(keys: seq<string>, more: seq<string>, key: string)
    ensures key in NewKeys(keys, more) <==> key in more && key !in keys
  {
    if more != [] {
      NewKeysAreOfBoth(keys, more[..|more| - 1], key);
      assert more == more[..|more| - 1] + [more[|more| - 1]];
    }
  }

  lemma {:induction false} KeysSnoc(pairs: seq<Pair>, p: Pair)
    ensures Keys(pairs + [p]) == Keys(pairs) + [p.key]
  {
  }

  lemma {:induction false} FoundIffKey(pairs: seq<Pair>, key: string)
    ensures Find(pairs, key) < |pairs| <==> key in Keys(pairs)
  {
    var i := Find(pairs, key);
    assert i < |pairs| ==> Keys(pairs)[i] == key;
    assert forall j :: 0 <= j < |pairs| ==> Keys(pairs)[j] == pairs[j].key;
  }

  lemma {:induction false} SetPairKeys(pairs: seq<Pair>, key: string, value: Ordered)
    ensures Keys(SetPair(pairs, key, value)) == if key in Keys(pairs) then Keys(pairs) else Keys(pairs) + [key]
  {
    FoundIffKey(pairs, key);
    if Find(pairs, key) < |pairs| {
      assert Keys(SetPair(pairs, key, value)) == Keys(pairs);
    } else {
      KeysSnoc(pairs, Pair(key, value));
    }
  }

  lemma {:induction false} LastKeyIsNew(pairs: seq<Pair>)
    requires DistinctKeys(pairs) && pairs != []
    ensures pairs[|pairs| - 1].key !in Keys(pairs[..|pairs| - 1])
  {
    var before, last := pairs[..|pairs| - 1], pairs[|pairs| - 1];
    assert forall i :: 0 <= i < |before| ==> Keys(before)[i] == pairs[i].key && pairs[i].key != last.key;
  }

  /** The overlay keeps the target's keys where they are and appends the patch's new ones in the patch's order. */
  lemma {:induction false} OverlayKeepsOrder(target: seq<Pair>, patch: seq<Pair>)
    requires DistinctKeys(patch)
    ensures Keys(OverlayPairs(target, patch)) == Keys(target) + NewKeys(Keys(target), Keys(patch))
  {
    if patch != [] {
      var before, last := patch[..|patch| - 1], patch[|patch| - 1];
      OverlayKeepsOrder(target, before);
      var front := OverlayPairs(target, before);
      SetPairKeys(front, last.key, OverlayAt(front, last.key, last.value));
      assert Keys(patch)[..|patch| - 1] == Keys(before);
      NewKeysAreOfBoth(Keys(target), Keys(before), last.key);
      LastKeyIsNew(patch);
    }
  }

  // ---- forgetting the order ----------------------------------------------------------------

  ghost predicate WellFormed(doc: Ordered) {
    match doc
    case Atom(v) => v.Null? || v.Scalar?
    case Branch(kind, pairs) => (kind.Mapping? ==> DistinctKeys(pairs)) && WellFormedPairs(pairs)
  }

  ghost predicate WellFormedPairs(pairs: seq<Pair>) {
    forall i :: 0 <= i < |pairs| ==> WellFormed(pairs[i].value)
  }

  /** The document as a plain value. */
  function Plain(doc: Ordered): Value
    decreases doc
  {
    match doc
    case Atom(v) => v
    case Branch(Listing, pairs) => List(seq(|pairs|, i requires 0 <= i < |pairs| => Plain(pairs[i].value)))
    case Branch(Mapping, pairs) => Map(PlainFields(pairs))
  }

  function PlainFields(pairs: seq<Pair>): Fields
    decreases pairs
  {
    if pairs == [] then map[]
    else PlainFields(pairs[..|pairs| - 1])[pairs[|pairs| - 1].key := Plain(pairs[|pairs| - 1].value)]
  }

  lemma {:induction false} PlainFieldsAt(pairs: seq<Pair>, key: string)
    requires DistinctKeys(pairs)
    ensures var i := Find(pairs, key);
            Lookup(PlainFields(pairs), key) == if i < |pairs| then Some(Plain(pairs[i].value)) else None
  {
    if pairs != [] {
      var before, last := pairs[..|pairs| - 1], pairs[|pairs| - 1];
      PlainFieldsAt(before, key);
      var i, j := Find(pairs, key), Find(before, key);
      if last.key == key {
        assert pairs[|pairs| - 1].key == key;
        assert i == |pairs| - 1;
      } else if j < |before| {
        assert pairs[j].key == key && i == j;
      } else {
        assert forall k :: 0 <= k < |before| ==> before[k].key != key && pairs[k] == before[k];
        assert i == |pairs|;
      }
    }
  }

  lemma {:induction false} SetPairWellFormed(pairs: seq<Pair>, key: string, value: Ordered)
    requires DistinctKeys(pairs) && WellFormedPairs(pairs) && WellFormed(value)
    ensures DistinctKeys(SetPair(pairs, key, value)) && WellFormedPairs(SetPair(pairs, key, value))
  {
  }

  lemma {:induction false} SetPairPlain(pairs: seq<Pair>, key: string, value: Ordered)
    requires DistinctKeys(pairs) && WellFormedPairs(pairs) && WellFormed(value)
    ensures PlainFields(SetPair(pairs, key, value)) == PlainFields(pairs)[key := Plain(value)]
  {
    var out := SetPair(pairs, key, value);
    SetPairWellFormed(pairs, key, value);
    forall k
      ensures Lookup(PlainFields(out), k) == if k == key then Some(Plain(value)) else Lookup(PlainFields(pairs), k)
    {
      PlainFieldsAt(out, k);
      PlainFieldsAt(pairs, k);
      FindAfterSet(pairs, key, value, k);
    }
    SameLookups(PlainFields(out), PlainFields(pairs)[key := Plain(value)]);
  }

  lemma {:induction false} FindAfterSet(pairs: seq<Pair>, key: string, value: Ordered, k: string)
    requires DistinctKeys(pairs)
    ensures var out, i := SetPair(pairs, key, value), Find(SetPair(pairs, key, value), k);
            if k == key then i < |out| && out[i].value == value
            else (i < |out| <==> Find(pairs, k) < |pairs|) && (i < |out| ==> i == Find(pairs, k) && out[i] == pairs[i])
  {
    var out := SetPair(pairs, key, value);
    var at := Find(pairs, key);
    assert out[at] == Pair(key, value);
    assert forall j :: 0 <= j < |pairs| && j != at ==> out[j] == pairs[j];
    var i, was := Find(out, k), Find(pairs, k);
    if k != key && was < |pairs| {
      assert out[was] == pairs[was];
    }
    if k != key && i < |out| {
      assert i != at && pairs[i] == out[i];
    }
  }

  lemma {:induction false} OverlayWellFormed(target: seq<Pair>, patch: seq<Pair>)
    requires DistinctKeys(target) && WellFormedPairs(target) && WellFormedPairs(patch)
    ensures DistinctKeys(OverlayPairs(target, patch)) && WellFormedPairs(OverlayPairs(target, patch))
    decreases patch, 0
  {
    if patch != [] {
      var before, last := patch[..|patch| - 1], patch[|patch| - 1];
      OverlayWellFormed(target, before);
      var front := OverlayPairs(target, before);
      OverlayAtWellFormed(front, last.key, last.value);
      SetPairWellFormed(front, last.key, OverlayAt(front, last.key, last.value));
    }
  }

  lemma {:induction false} OverlayAtWellFormed(target: seq<Pair>, key: string, incoming: Ordered)
    requires DistinctKeys(target) && WellFormedPairs(target) && WellFormed(incoming)
    ensures WellFormed(OverlayAt(target, key, incoming))
    decreases incoming, 1
  {
    var i := Find(target, key);
    if i < |target| && IsMap(target[i].value) && IsMap(incoming) {
      assert WellFormed(target[i].value);
      OverlayWellFormed(target[i].value.pairs, incoming.pairs);
    }
  }

  lemma {:induction false} OverlaySnoc(target: Fields, patch: Fields, key: string, value: Value)
    requires key !in patch
    ensures Lookup(OverlaySection(target, patch), key) == Lookup(target, key)
    ensures OverlaySection(target, patch[key := value]) ==
            OverlaySection(target, patch)[key := OverlayValue(Lookup(target, key), value)]
  {
    var more := patch[key := value];
    var a, b := OverlaySection(target, more),
      OverlaySection(target, patch)[key := OverlayValue(Lookup(target, key), value)];
    assert a.Keys == b.Keys;
    assert forall k | k in a :: a[k] == b[k];
  }

  /** Forgetting the order, it is the overlay over plain values. */
  lemma {:induction false} OverlayForgets(target: seq<Pair>, patch: seq<Pair>)
    requires DistinctKeys(target) && WellFormedPairs(target) && DistinctKeys(patch) && WellFormedPairs(patch)
    ensures PlainFields(OverlayPairs(target, patch)) == OverlaySection(PlainFields(target), PlainFields(patch))
    decreases patch, 0
  {
    if patch == [] {
      assert OverlaySection(PlainFields(target), map[]) == PlainFields(target);
    } else {
      var before, last := patch[..|patch| - 1], patch[|patch| - 1];
      OverlayForgets(target, before);
      var front := OverlayPairs(target, before);
      OverlayWellFormed(target, before);
      OverlayAtForgets(front, last.key, last.value);
      OverlayAtWellFormed(front, last.key, last.value);
      SetPairPlain(front, last.key, OverlayAt(front, last.key, last.value));
      PlainFieldsAt(before, last.key);
      assert last.key !in PlainFields(before) by {
        assert forall i :: 0 <= i < |before| ==> before[i].key != last.key;
      }
      OverlaySnoc(PlainFields(target), PlainFields(before), last.key, Plain(last.value));
    }
  }

  lemma {:induction false} OverlayAtForgets(target: seq<Pair>, key: string, incoming: Ordered)
    requires DistinctKeys(target) && WellFormedPairs(target) && WellFormed(incoming)
    ensures Plain(OverlayAt(target, key, incoming)) == OverlayValue(Lookup(PlainFields(target), key), Plain(incoming))
    decreases incoming, 1
  {
    PlainFieldsAt(target, key);
    var i := Find(target, key);
    if i < |target| {
      var current := target[i].value;
      assert WellFormed(current);
      if IsMap(current) && IsMap(incoming) {
        OverlayForgets(current.pairs, incoming.pairs);
      }
    }
  }
}
