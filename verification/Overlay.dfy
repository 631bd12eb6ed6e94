/**
 * What the section overlay of packages/config/src/merge.ts means, path by path, and the laws it keeps.
 */
module OverlayLaws {
  import opened ConfigTree
  import opened Wrappers

  ghost predicate KeyPath(path: Path) {
    forall i :: 0 <= i < |path| ==> path[i].Key?
  }

  /** The patch says something about `path`: it holds a value there, or a non-mapping on the way to it. */
  predicate Touches(patch: Value, path: Path)
    decreases path
  {
    patch.Map? && path != [] ==>
      path[0].Key? && path[0].name in patch.fields && Touches(patch.fields[path[0].name], path[1..])
  }

  lemma {:induction false} KeyPathIntoNonMapping(node: Value, path: Path)
    requires KeyPath(path) && path != [] && !node.Map?
    ensures At(node, path) == None
  {
    assert path[0].Key?;
  }

  /** An untouched path keeps the target's value, a stated one takes the patch's, overlaid where both hold a mapping. */
  lemma {:induction false} OverlayAtPath(current: Value, patch: Value, path: Path)
    requires KeyPath(path)
    ensures !Touches(patch, path) ==> At(OverlayValue(Some(current), patch), path) == At(current, path)
    ensures At(patch, path).Some? ==>
              At(OverlayValue(Some(current), patch), path) ==
                Some(OverlayValue(At(current, path), At(patch, path).value))
    ensures Touches(patch, path) && At(patch, path).None? ==> At(OverlayValue(Some(current), patch), path) == None
    decreases path
  {
    if path == [] {
      return;
    }
    if !patch.Map? {
      KeyPathIntoNonMapping(patch, path);
    } else if !current.Map? {
      KeyPathIntoNonMapping(current, path);
      OverlayNothing(patch, path);
    } else {
      var k := path[0].name;
      var rest := path[1..];
      assert KeyPath(rest);
      if k in patch.fields {
        if k in current.fields {
          OverlayAtPath(current.fields[k], patch.fields[k], rest);
        } else {
          OverlayNothing(patch.fields[k], rest);
        }
      }
    }
  }

  lemma {:induction false} OverlayNothing(patch: Value, path: Path)
    requires KeyPath(path)
    ensures At(patch, path).Some? ==> Touches(patch, path)
    decreases path
  {
    if path != [] && patch.Map? && path[0].name in patch.fields {
      assert KeyPath(path[1..]);
      OverlayNothing(patch.fields[path[0].name], path[1..]);
    } else if path != [] && !patch.Map? {
      KeyPathIntoNonMapping(patch, path);
    }
  }

  lemma {:induction false} OverlaySelf(value: Value)
    ensures OverlayValue(Some(value), value) == value
  {
    if value.Map? {
      forall k | k in value.fields ensures OverlayValue(Lookup(value.fields, k), value.fields[k]) == value.fields[k] {
        OverlaySelf(value.fields[k]);
      }
    }
  }

  /** Overlaying the same patch twice is overlaying it once. */
  lemma {:induction false} OverlayIdempotent(current: Option<Value>, patch: Value)
    ensures OverlayValue(Some(OverlayValue(current, patch)), patch) == OverlayValue(current, patch)
    decreases patch
  {
    if !(patch.Map? && current.Some? && current.value.Map?) {
      OverlaySelf(patch);
      return;
    }
    var once := OverlayValue(current, patch);
    forall k | k in patch.fields
      ensures OverlayValue(Lookup(once.fields, k), patch.fields[k]) == once.fields[k]
    {
      OverlayIdempotent(Lookup(current.value.fields, k), patch.fields[k]);
    }
    var twice := OverlayValue(Some(once), patch);
    assert twice.fields.Keys == once.fields.Keys;
  }
}
