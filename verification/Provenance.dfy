/**
 * packages/config/src/load.ts: which of the scope documents a merged value came from, found without merging at the
 * path. Paths are sequences of steps; a length counts steps, and None stands for the source's -1.
 */
module Provenance {
  import opened ConfigTree
  import opened Merge
  import opened Wrappers

  /** How many steps of `path` the tree below `node` can follow. */
  function Depth(node: Value, path: Path): (n: nat)
    ensures n <= |path|
    ensures n == |path| <==> At(node, path).Some?
  {
    if path == [] then 0
    else
      match Child(node, path[0])
      case None => 0
      case Some(next) => 1 + Depth(next, path[1..])
  }

  /** The document has a say at the path: its top-level key is there and not null, as the merge passes over a null. */
  predicate StatesTop(doc: Fields, path: Path) {
    path != [] && path[0].Key? && path[0].name in doc && !doc[path[0].name].Null?
  }

  function Stated(doc: Fields, path: Path): Option<nat> {
    if StatesTop(doc, path) then Some(Depth(Map(doc), path)) else None
  }

  /** The document holds a value at `path` that the merge can see. */
  predicate Holds(doc: Fields, path: Path) {
    StatesTop(doc, path) && At(Map(doc), path).Some?
  }

  /** Within a section: how many further steps until the incoming value, or what it lands on, is no mapping. */
  function SectionReplaced(node: Value, current: Option<Value>, rest: Path): Option<nat>
    decreases rest
  {
    if !node.Map? || current.None? || !current.value.Map? then Some(0)
    else if rest == [] || !rest[0].Key? || rest[0].name !in node.fields then None
    else
      var k := rest[0].name;
      match SectionReplaced(node.fields[k], Lookup(current.value.fields, k), rest[1..])
      case None => None
      case Some(n) => Some(n + 1)
  }

  function NamedReplaced(value: Value, below: Fields, rest: Path): Option<nat> {
    if !value.Map? || rest == [] || !rest[0].Key? || rest[0].name !in value.fields then None
    else
      var name := rest[0].name;
      var entry := value.fields[name];
      if !entry.Map? || name !in below || !below[name].Map? then Some(1)
      else if |rest| < 2 || !rest[1].Key? || rest[1].name !in entry.fields then None
      else Some(2)
  }

  /** The length of the prefix at which `doc`, merged over `below`, replaces the value wholesale. */
  function Replaced(classify: string -> KeyClass, below: Fields, doc: Fields, path: Path): Option<nat> {
    if path == [] || !path[0].Key? || path[0].name !in doc then None
    else
      var top := path[0].name;
      var value := doc[top];
      var under := FieldsOrEmpty(Lookup(below, top));
      var beneath :=
        match classify(top)
        case Replace => if value.Null? then None else Some(0)
        case Named => NamedReplaced(value, under, path[1..])
        case Section => if value.Null? then None else SectionReplaced(value, Some(Map(under)), path[1..])
        case Computed => None
        case Separate => None
        case Unknown => None;
      match beneath
      case None => None
      case Some(n) => Some(n + 1)
  }

  /** What a fold of layers leaves: only keys that contribute, none of them null, each named key a mapping. */
  ghost predicate MergedShape(classify: string -> KeyClass, value: Fields) {
    forall k :: k in value ==>
      && !value[k].Null?
      && (classify(k).Replace? || classify(k).Section? || (classify(k).Named? && value[k].Map?))
  }

  lemma {:induction false} MergeLayerShape(classify: string -> KeyClass, value: Fields, doc: Fields)
    requires MergedShape(classify, value)
    ensures MergedShape(classify, MergeLayer(classify, value, doc))
  {
    var merged := MergeLayer(classify, value, doc);
    forall k | k in merged
      ensures !merged[k].Null?
      ensures classify(k).Replace? || classify(k).Section? || (classify(k).Named? && merged[k].Map?)
    {
      assert MergedKey(classify, value, doc, k) == Some(merged[k]);
    }
  }

  lemma {:induction false} SectionMirror(node: Value, current: Value, rest: Path)
    ensures var merged := OverlayValue(Some(current), node);
            match SectionReplaced(node, Some(current), rest)
            case Some(n) => n <= |rest| && At(node, rest[..n]).Some? && At(merged, rest[..n]) == At(node, rest[..n])
            case None => (At(merged, rest).Some? && !At(merged, rest).value.Map? ==>
                            At(current, rest) == At(merged, rest) && At(node, rest).None?)
    decreases rest
  {
    if !node.Map? || !current.Map? {
      assert rest[..0] == [];
    } else if rest == [] || !rest[0].Key? || rest[0].name !in node.fields {
    } else {
      var k := rest[0].name;
      if k in current.fields {
        SectionMirror(node.fields[k], current.fields[k], rest[1..]);
      } else {
        assert rest[1..][..0] == [];
      }
      var inner := SectionReplaced(node.fields[k], Lookup(current.fields, k), rest[1..]);
      if inner.Some? {
        assert rest[..inner.value + 1][1..] == rest[1..][..inner.value];
      }
    }
  }

  lemma {:induction false} NamedMirror(value: Value, under: Fields, rest: Path)
    requires value.Map?
    ensures var merged := Map(MergeNamed(under, value.fields));
            match NamedReplaced(value, under, rest)
            case Some(n) => n <= |rest| && At(value, rest[..n]).Some? && At(merged, rest[..n]) == At(value, rest[..n])
            case None => (At(merged, rest).Some? && !At(merged, rest).value.Map? ==>
                            At(Map(under), rest) == At(merged, rest) && At(value, rest).None?)
  {
    if rest == [] || !rest[0].Key? || rest[0].name !in value.fields {
      return;
    }
    var name := rest[0].name;
    var entry := value.fields[name];
    var deeper := rest[1..];
    if !entry.Map? || name !in under || !under[name].Map? {
      assert rest[..1] == [rest[0]];
      assert rest[..1][1..] == [];
    } else if deeper == [] || !deeper[0].Key? || deeper[0].name !in entry.fields {
    } else {
      assert rest[..2][1..] == [deeper[0]];
      AtOne(entry, deeper[0]);
      AtOne(Map(OverlayEntry(under[name].fields, entry.fields)), deeper[0]);
      var merged := Map(MergeNamed(under, value.fields));
      assert Child(merged, rest[0]) == Some(Map(OverlayEntry(under[name].fields, entry.fields)));
      assert At(merged, rest[..2]) == At(Map(OverlayEntry(under[name].fields, entry.fields)), [deeper[0]]);
      assert At(value, rest[..2]) == At(entry, [deeper[0]]);
    }
  }

  /** What one layer over a merged value says of a path, by where the document took over. */
  ghost predicate Mirrors(below: Fields, doc: Fields, merged: Fields, path: Path, replaced: Option<nat>) {
    match replaced
    case Some(n) =>
      n <= |path| && StatesTop(doc, path) && At(Map(merged), path[..n]).Some?
        && At(Map(merged), path[..n]) == At(Map(doc), path[..n])
    case None =>
      At(Map(merged), path).Some? && !At(Map(merged), path).value.Map? ==>
        At(Map(below), path) == At(Map(merged), path) && !Holds(doc, path)
  }

  /** A path into a list, or through a key no mapping here has, leads nowhere in a mapping. */
  lemma {:induction false} NotUnderAName(value: Value, merged: Value, rest: Path)
    requires !value.Map? && merged.Map? && rest != [] && At(value, rest).Some?
    ensures At(merged, rest).None?
  {
    assert Child(value, rest[0]).Some?;
    assert rest[0].Index?;
  }

  lemma {:induction false} NamedLayer(classify: string -> KeyClass, below: Fields, doc: Fields, path: Path)
    requires MergedShape(classify, below) && path != [] && path[0].Key? && path[0].name in doc
    requires classify(path[0].name).Named?
    ensures Mirrors(below, doc, MergeLayer(classify, below, doc), path, Replaced(classify, below, doc, path))
  {
    var top, rest := path[0].name, path[1..];
    var merged, value, under := MergeLayer(classify, below, doc), doc[top], FieldsOrEmpty(Lookup(below, top));
    assert Lookup(merged, top) == MergedKey(classify, below, doc, top);
    if !value.Map? {
      if rest != [] && top in below && Holds(doc, path) {
        NotUnderAName(value, merged[top], rest);
      }
    } else {
      NamedMirror(value, under, rest);
      var inner := NamedReplaced(value, under, rest);
      if inner.Some? {
        assert path[..inner.value + 1][1..] == rest[..inner.value];
      }
    }
  }

  lemma {:induction false} SectionLayer(classify: string -> KeyClass, below: Fields, doc: Fields, path: Path)
    requires MergedShape(classify, below) && path != [] && path[0].Key? && path[0].name in doc
    requires classify(path[0].name).Section?
    ensures Mirrors(below, doc, MergeLayer(classify, below, doc), path, Replaced(classify, below, doc, path))
  {
    var top, rest := path[0].name, path[1..];
    var merged, value, under := MergeLayer(classify, below, doc), doc[top], FieldsOrEmpty(Lookup(below, top));
    assert Lookup(merged, top) == MergedKey(classify, below, doc, top);
    if !value.Null? {
      SectionMirror(value, Map(under), rest);
      var inner := SectionReplaced(value, Some(Map(under)), rest);
      if inner.Some? {
        assert path[..inner.value + 1][1..] == rest[..inner.value];
      }
    }
  }

  /** One layer over an already merged value: the prefix is where the document took over, None where it did not. */
  lemma {:induction false} ReplacedMirrorsLayer(classify: string -> KeyClass, below: Fields, doc: Fields, path: Path)
    requires MergedShape(classify, below)
    ensures Mirrors(below, doc, MergeLayer(classify, below, doc), path, Replaced(classify, below, doc, path))
  {
    if path != [] && path[0].Key? {
      var top := path[0].name;
      assert Lookup(MergeLayer(classify, below, doc), top) == MergedKey(classify, below, doc, top);
      if top in doc {
        if classify(top).Replace? {
          assert path[..1][1..] == [];
        } else if classify(top).Named? {
          NamedLayer(classify, below, doc, path);
        } else if classify(top).Section? {
          SectionLayer(classify, below, doc, path);
        }
      }
    }
  }

  /** A merged value that is no mapping is the document's where it took over, and what was below where it did not. */
  lemma {:induction false} TakenOver(below: Fields, doc: Fields, merged: Fields, path: Path, replaced: Option<nat>)
    requires Mirrors(below, doc, merged, path, replaced)
    requires At(Map(merged), path).Some? && !At(Map(merged), path).value.Map?
    ensures if replaced.Some? then StatesTop(doc, path) && At(Map(doc), path) == At(Map(merged), path)
            else At(Map(below), path) == At(Map(merged), path) && !Holds(doc, path)
  {
    if replaced.Some? {
      var n := replaced.value;
      AtAppend(Map(merged), path[..n], path[n..]);
      AtAppend(Map(doc), path[..n], path[n..]);
      assert path[..n] + path[n..] == path;
    }
  }

  lemma {:induction false} MergedBelowItself(classify: string -> KeyClass, below: Fields, k: string)
    ensures MergedKey(classify, map[], below, k).Some? ==> Lookup(below, k) == MergedKey(classify, map[], below, k)
  {
    if k in below {
      var v := below[k];
      if v.Map? {
        assert MergeNamed(map[], v.fields) == v.fields;
        assert forall f :: f in v.fields ==> OverlayValue(Lookup(map[], f), v.fields[f]) == v.fields[f];
        assert OverlaySection(map[], v.fields) == v.fields;
      }
    }
  }

  /**
   * `replacedPrefixLength` mirrors `mergeLayers([below, doc])` for every `below`: everything at and beneath the prefix
   * it answers is the document's, and where it answers none a merged value that is no mapping is the one `below` held.
   */
  lemma {:induction false} ReplacedMirrorsMerge(classify: string -> KeyClass, below: Fields, doc: Fields, path: Path,
      rest: Path)
    ensures var merged := Map(MergeDocs(classify, [below, doc]));
            match Replaced(classify, below, doc, path)
            case Some(n) =>
              n <= |path| && At(merged, path[..n]).Some?
              && At(merged, path[..n] + rest) == At(Map(doc), path[..n] + rest)
            case None =>
              At(merged, path).Some? && !At(merged, path).value.Map? ==> At(Map(below), path) == At(merged, path)
  {
    var first := MergeLayer(classify, map[], below);
    var merged := MergeLayer(classify, first, doc);
    assert [below, doc][1..] == [doc] && [doc][1..] == [];
    assert MergeDocs(classify, [below, doc]) == MergeFrom(classify, first, [doc]) == merged;
    MergeLayerShape(classify, map[], below);
    ReplacedMirrorsLayer(classify, first, doc, path);
    if path == [] || !path[0].Key? {
      return;
    }
    var top := path[0].name;
    MergedBelowItself(classify, below, top);
    assert Lookup(first, top) == MergedKey(classify, map[], below, top);
    if top in doc && classify(top) in {Named, Section} {
      assert FieldsOrEmpty(Lookup(first, top)) == FieldsOrEmpty(Lookup(below, top));
    }
    assert Replaced(classify, first, doc, path) == Replaced(classify, below, doc, path);
    match Replaced(classify, below, doc, path) {
      case Some(n) =>
        AtAppend(Map(merged), path[..n], rest);
        AtAppend(Map(doc), path[..n], rest);
      case None =>
    }
  }

  /** Merging what is already merged, alone, gives it back. */
  lemma {:induction false} MergedAgain(classify: string -> KeyClass, below: Fields)
    requires MergedShape(classify, below)
    ensures MergeLayer(classify, map[], below) == below
  {
    var again := MergeLayer(classify, map[], below);
    forall k | k in below ensures MergedKey(classify, map[], below, k) == Some(below[k]) {
      MergedBelowItself(classify, below, k);
    }
    assert again.Keys == below.Keys;
    assert forall k | k in again :: again[k] == below[k];
  }

  /** So the search may merge what it has with one document more, from nothing, and not lose a value. */
  lemma {:induction false} RemergeIsOneLayer(classify: string -> KeyClass, below: Fields, doc: Fields)
    requires MergedShape(classify, below)
    ensures MergeDocs(classify, [below, doc]) == MergeLayer(classify, below, doc)
  {
    MergedAgain(classify, below);
    assert [below, doc][1..] == [doc] && [doc][1..] == [];
    assert MergeDocs(classify, [below, doc]) == MergeFrom(classify, MergeLayer(classify, map[], below), [doc]);
  }

  /** The search's state after some documents: the file named so far, the length it states, what they merge to. */
  datatype Search = Search(best: Option<nat>, bestLength: Option<nat>, below: Fields)

  const NoneYet := Search(None, None, map[])

  predicate Takes(classify: string -> KeyClass, s: Search, doc: Fields, path: Path) {
    var length := Stated(doc, path);
    || Replaced(classify, s.below, doc, path).Some?
    || (length.Some? && (s.bestLength.None? || length.value >= s.bestLength.value))
  }

  function SearchStep(classify: string -> KeyClass, s: Search, doc: Option<Fields>, at: nat, path: Path): Search {
    match doc
    case None => s
    case Some(fields) =>
      var next := MergeLayer(classify, s.below, fields);
      if Takes(classify, s, fields, path) then Search(Some(at), Stated(fields, path), next) else s.(below := next)
  }

  /** The search over the first `n` candidate documents. */
  function SearchUpTo(classify: string -> KeyClass, docs: seq<Option<Fields>>, n: nat, path: Path): Search
    requires n <= |docs|
  {
    if n == 0 then NoneYet else SearchStep(classify, SearchUpTo(classify, docs, n - 1, path), docs[n - 1], n - 1, path)
  }

  function StatingFileOf(classify: string -> KeyClass, docs: seq<Option<Fields>>, path: Path): Option<nat> {
    SearchUpTo(classify, docs, |docs|, path).best
  }

  /** The documents that exist, in merge order. */
  function Present(docs: seq<Option<Fields>>): seq<Fields> {
    if docs == [] then []
    else
      var front := Present(docs[..|docs| - 1]);
      match docs[|docs| - 1]
      case None => front
      case Some(doc) => front + [doc]
  }

  /** Document `i` holds exactly `value` at `path`, and no later one holds anything there. */
  ghost predicate LastHolder(docs: seq<Option<Fields>>, path: Path, i: nat, value: Value) {
    && i < |docs| && docs[i].Some?
    && At(Map(docs[i].value), path) == Some(value)
    && forall j :: i < j < |docs| && docs[j].Some? ==> !Holds(docs[j].value, path)
  }

  /**
   * The search stands, after these documents, where the merge does: its candidate is the last holder of the merged
   * value.
   */
  ghost predicate Following(classify: string -> KeyClass, docs: seq<Option<Fields>>, s: Search, path: Path) {
    && s.below == MergeDocs(classify, Present(docs))
    && MergedShape(classify, s.below)
    && (s.best.None? <==> s.bestLength.None?)
    && FollowsValue(docs, s, path, At(Map(s.below), path))
  }

  ghost predicate FollowsValue(docs: seq<Option<Fields>>, s: Search, path: Path, merged: Option<Value>) {
    merged.Some? && !merged.value.Map? ==>
      s.best.Some? && s.bestLength == Some(|path|) && LastHolder(docs, path, s.best.value, merged.value)
  }

  lemma {:induction false} StillLastHolder(docs: seq<Option<Fields>>, doc: Option<Fields>, path: Path, i: nat,
      value: Value)
    requires LastHolder(docs, path, i, value) && (doc.Some? ==> !Holds(doc.value, path))
    ensures LastHolder(docs + [doc], path, i, value)
  {
  }

  lemma {:induction false} StepFollowsValue(classify: string -> KeyClass, docs: seq<Option<Fields>>, doc: Fields,
      s: Search, path: Path)
    requires Following(classify, docs, s, path)
    ensures var after := SearchStep(classify, s, Some(doc), |docs|, path);
            FollowsValue(docs + [Some(doc)], after, path, At(Map(after.below), path))
  {
    var merged := MergeLayer(classify, s.below, doc);
    var replaced := Replaced(classify, s.below, doc, path);
    ReplacedMirrorsLayer(classify, s.below, doc, path);
    if At(Map(merged), path).Some? && !At(Map(merged), path).value.Map? {
      TakenOver(s.below, doc, merged, path, replaced);
      if replaced.None? {
        StillLastHolder(docs, Some(doc), path, s.best.value, At(Map(merged), path).value);
      }
    }
  }

  lemma {:induction false} StepFollows(classify: string -> KeyClass, docs: seq<Option<Fields>>, doc: Option<Fields>,
      s: Search, path: Path)
    requires Following(classify, docs, s, path)
    ensures Following(classify, docs + [doc], SearchStep(classify, s, doc, |docs|, path), path)
  {
    assert (docs + [doc])[..|docs|] == docs;
    if doc.None? {
      if s.best.Some? && At(Map(s.below), path).Some? && !At(Map(s.below), path).value.Map? {
        StillLastHolder(docs, None, path, s.best.value, At(Map(s.below), path).value);
      }
    } else {
      MergeSnoc(classify, map[], Present(docs), doc.value);
      MergeLayerShape(classify, s.below, doc.value);
      StepFollowsValue(classify, docs, doc.value, s, path);
    }
  }

  lemma {:induction false} SearchFollowsTheMerge(classify: string -> KeyClass, docs: seq<Option<Fields>>, n: nat,
      path: Path)
    requires n <= |docs|
    ensures Following(classify, docs[..n], SearchUpTo(classify, docs, n, path), path)
    decreases n
  {
    if n > 0 {
      SearchFollowsTheMerge(classify, docs, n - 1, path);
      assert docs[..n] == docs[..n - 1] + [docs[n - 1]];
      StepFollows(classify, docs[..n - 1], docs[n - 1], SearchUpTo(classify, docs, n - 1, path), path);
    }
  }

  /**
   * For every run of scope documents and every path whose merged value is not a mapping, the search names the last
   * document that holds anything there, and that document holds exactly the merged value.
   */
  lemma {:induction false} StatingFileHoldsTheMergedValue(classify: string -> KeyClass, docs: seq<Option<Fields>>,
      path: Path)
    ensures var merged := At(Map(MergeDocs(classify, Present(docs))), path);
            merged.Some? && !merged.value.Map? ==>
              var file := StatingFileOf(classify, docs, path);
              file.Some? && LastHolder(docs, path, file.value, merged.value)
  {
    SearchFollowsTheMerge(classify, docs, |docs|, path);
    assert docs[..|docs|] == docs;
  }

  /** How far a document follows a path: to every prefix up to its depth, and to none beyond. */
  lemma {:induction false} DepthIs(node: Value, path: Path, m: nat)
    requires m <= |path|
    ensures At(node, path[..m]).Some? <==> m <= Depth(node, path)
    decreases path
  {
    if m > 0 {
      assert path[..m][0] == path[0] && path[..m][1..] == path[1..][..m - 1];
      match Child(node, path[0]) {
        case None =>
        case Some(next) => DepthIs(next, path[1..], m - 1);
      }
    }
  }

  /** The document named states the path's top-level key, and every later one that does follows the path less far. */
  lemma {:induction false} NoLaterAsFar(classify: string -> KeyClass, docs: seq<Option<Fields>>, n: nat, path: Path)
    requires n <= |docs|
    ensures var s := SearchUpTo(classify, docs, n, path);
            s.best.Some? ==>
              && s.best.value < n && docs[s.best.value].Some?
              && s.bestLength == Stated(docs[s.best.value].value, path)
              && forall j :: s.best.value < j < n && docs[j].Some? && StatesTop(docs[j].value, path) ==>
                   Depth(Map(docs[j].value), path) < Depth(Map(docs[s.best.value].value), path)
    decreases n
  {
    if n > 0 {
      NoLaterAsFar(classify, docs, n - 1, path);
      NoFileMeansNoneStates(classify, docs, n - 1, path);
    }
  }

  /** No file is named exactly when no document states the path's top-level key. */
  lemma {:induction false} NoFileMeansNoneStates(classify: string -> KeyClass, docs: seq<Option<Fields>>, n: nat,
      path: Path)
    requires n <= |docs|
    ensures var s := SearchUpTo(classify, docs, n, path);
            && (s.best.None? <==> s.bestLength.None?)
            && (s.best.None? <==> forall i :: 0 <= i < n && docs[i].Some? ==> !StatesTop(docs[i].value, path))
            && (s.best.Some? ==>
                  s.best.value < n && docs[s.best.value].Some? && StatesTop(docs[s.best.value].value, path))
    decreases n
  {
    if n > 0 {
      NoFileMeansNoneStates(classify, docs, n - 1, path);
    }
  }

  /** `statedPrefixLength`, one step at a time down the document. */
  method StatedPrefixLength(doc: Option<Fields>, path: Path) returns (matched: Option<nat>)
    ensures matched == (if doc.Some? then Stated(doc.value, path) else None)
  {
    matched := None;
    if doc.None? || path == [] {
      return;
    }
    var node, rest := Map(doc.value), path;
    var depth := 0;
    while rest != []
      invariant depth <= |path| && rest == path[depth..]
      invariant depth == 0 ==> node == Map(doc.value) && matched == None
      invariant depth > 0 ==> StatesTop(doc.value, path) && matched == Some(depth)
      invariant Depth(Map(doc.value), path) == depth + Depth(node, rest)
      decreases |rest|
    {
      var value := Child(node, rest[0]);
      if value.None? || (depth == 0 && value.value.Null?) {
        return;
      }
      depth := depth + 1;
      matched := Some(depth);
      node, rest := value.value, rest[1..];
    }
  }

  /** `replacedPrefixLength`; the section class walks both trees in step. */
  method ReplacedPrefixLength(classify: string -> KeyClass, below: Fields, doc: Option<Fields>, path: Path)
    returns (prefix: Option<nat>)
    ensures prefix == (if doc.Some? then Replaced(classify, below, doc.value, path) else None)
  {
    if doc.None? || path == [] || !path[0].Key? || path[0].name !in doc.value {
      return None;
    }
    var top := path[0].name;
    var value := doc.value[top];
    match classify(top) {
      case Replace => return if value.Null? then None else Some(1);
      case Named =>
        if !value.Map? || |path| < 2 || !path[1].Key? || path[1].name !in value.fields {
          return None;
        }
        var entry := value.fields[path[1].name];
        var inherited := FieldsOrEmpty(Lookup(below, top));
        if !entry.Map? || path[1].name !in inherited || !inherited[path[1].name].Map? {
          return Some(2);
        }
        return if |path| > 2 && path[2].Key? && path[2].name in entry.fields then Some(3) else None;
      case Section =>
        if value.Null? {
          return None;
        }
        var node := value;
        var current := Some(Map(FieldsOrEmpty(Lookup(below, top))));
        var steps, rest := 1, path[1..];
        ghost var whole := SectionReplaced(node, current, rest);
        while node.Map? && current.Some? && current.value.Map?
          invariant 1 <= steps <= |path| && rest == path[steps..]
          invariant whole == (match SectionReplaced(node, current, rest)
                              case None => None
                              case Some(n) => Some(n + steps - 1))
          decreases |rest|
        {
          if rest == [] || !rest[0].Key? || rest[0].name !in node.fields {
            return None;
          }
          var k := rest[0].name;
          node, current := node.fields[k], Lookup(current.value.fields, k);
          steps, rest := steps + 1, rest[1..];
        }
        return Some(steps);
      case Computed => return None;
      case Separate => return None;
      case Unknown => return None;
    }
  }

  /** `statingFileOf`: the candidates in merge order, the merge of those before each kept alongside. */
  method FindStatingFile(classify: string -> KeyClass, docs: seq<Option<Fields>>, path: Path)
    returns (best: Option<nat>)
    ensures best == StatingFileOf(classify, docs, path)
    ensures best.None? <==> forall i :: 0 <= i < |docs| && docs[i].Some? ==> !StatesTop(docs[i].value, path)
    ensures var merged := At(Map(MergeDocs(classify, Present(docs))), path);
            merged.Some? && !merged.value.Map? ==> best.Some? && LastHolder(docs, path, best.value, merged.value)
  {
    best := None;
    var bestLength: Option<nat>, below: Fields := None, map[];
    for i := 0 to |docs|
      invariant SearchUpTo(classify, docs, i, path) == Search(best, bestLength, below)
    {
      if docs[i].Some? {
        var doc := docs[i].value;
        var length := StatedPrefixLength(Some(doc), path);
        var prefix := ReplacedPrefixLength(classify, below, Some(doc), path);
        if prefix.Some? || (length.Some? && (bestLength.None? || length.value >= bestLength.value)) {
          best, bestLength := Some(i), length;
        }
        var layers := [Layer("below", below), Layer("doc", doc)];
        var merged, _ := MergeLayers(classify, layers);
        assert DocsOf(layers) == [below, doc];
        SearchFollowsTheMerge(classify, docs, i, path);
        RemergeIsOneLayer(classify, below, doc);
        below := merged;
      }
    }
    NoFileMeansNoneStates(classify, docs, |docs|, path);
    StatingFileHoldsTheMergedValue(classify, docs, path);
  }
}
