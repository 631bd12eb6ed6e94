/**
 * What the rewrite of packages/agent-tools/src/advertised-schema.ts removes and what it leaves, said of the documents
 * by their keyword positions and the keywords' own spellings.
 */
module SchemaPlaces {
  import opened SchemaRewrite
  import opened Wrappers

  // ---- keyword positions -------------------------------------------------------------------

  const SCHEMA_VALUED: set<string> := {
    "items", "additionalItems", "additionalProperties", "not", "contains", "propertyNames", "if", "then", "else",
    "unevaluatedItems", "unevaluatedProperties", "contentSchema"}
  const SCHEMA_MAPS: set<string> := {
    "properties", "patternProperties", "$defs", "definitions", "dependentSchemas", "dependencies"}
  const SCHEMA_LISTS: set<string> := {"allOf", "anyOf", "oneOf", "prefixItems"}

  /** The keyword's value is a schema, or a list of them. */
  predicate Schemas(key: string, value: Json) {
    key in SCHEMA_VALUED || (key in SCHEMA_LISTS && value.JArray?)
  }

  /** The keyword's value maps names to schemas. */
  predicate Named(key: string, value: Json) {
    key in SCHEMA_MAPS && value.JObject?
  }

  /** Some member at a keyword position of the document, at any depth, is a hit. */
  ghost predicate Somewhere(d: Json, hit: Member -> bool)
    decreases d, 0
  {
    match d
    case JArray(items) => exists i :: 0 <= i < |items| && Somewhere(items[i], hit)
    case JObject(members) => exists i :: 0 <= i < |members| && Touches(members[i], hit)
    case _ => false
  }

  ghost predicate Touches(m: Member, hit: Member -> bool)
    decreases m, 1
  {
    hit(m) || Beneath(m.key, m.value, hit)
  }

  ghost predicate Beneath(key: string, value: Json, hit: Member -> bool)
    decreases value, 1
  {
    if Schemas(key, value) then Somewhere(value, hit)
    else if Named(key, value) then
      exists i :: 0 <= i < |value.members| && Somewhere(value.members[i].value, hit)
    else false
  }

  predicate IsAsync(m: Member) {
    m.key == "$async"
  }

  predicate IsUnread(m: Member, readable: string -> bool) {
    m.key == "pattern" && m.value.JString? && !readable(m.value.text)
  }

  predicate MayRefuseMore(m: Member) {
    m.key in {"not", "oneOf", "if", "maxContains"}
  }

  ghost predicate NamesUnread(m: Member, readable: string -> bool) {
    m.key == "patternProperties" && m.value.JObject?
    && exists i :: 0 <= i < |m.value.members| && !readable(m.value.members[i].key)
  }

  predicate IsRemoved(m: Member, readable: string -> bool) {
    IsAsync(m) || IsUnread(m, readable)
  }

  // ---- what stands in its place ------------------------------------------------------------

  function KeptBefore(members: seq<Member>, i: nat, readable: string -> bool): nat
    requires i <= |members|
  {
    if i == 0 then 0 else KeptBefore(members, i - 1, readable) + (if IsRemoved(members[i - 1], readable) then 0 else 1)
  }

  /** `out` is the document without what is removed: all else stands in its place, under its key. */
  ghost predicate Stripped(d: Json, out: Json, readable: string -> bool)
    decreases d, 0
  {
    match d
    case JArray(items) =>
      out.JArray? && |out.items| == |items|
      && forall i :: 0 <= i < |items| ==> Stripped(items[i], out.items[i], readable)
    case JObject(members) =>
      out.JObject? && |out.members| == KeptBefore(members, |members|, readable)
      && forall i :: 0 <= i < |members| && !IsRemoved(members[i], readable) ==>
           var at := KeptBefore(members, i, readable);
           at < |out.members| && StandsAs(members[i], out.members[at], readable)
    case _ => out == d
  }

  ghost predicate StandsAs(m: Member, to: Member, readable: string -> bool)
    decreases m, 1
  {
    to.key == m.key && ValueStripped(m.key, m.value, to.value, readable)
  }

  ghost predicate ValueStripped(key: string, value: Json, out: Json, readable: string -> bool)
    decreases value, 1
  {
    if Schemas(key, value) then Stripped(value, out, readable)
    else if Named(key, value) then
      out.JObject? && |out.members| == |value.members|
      && forall i :: 0 <= i < |value.members| ==>
           out.members[i].key == value.members[i].key
           && Stripped(value.members[i].value, out.members[i].value, readable)
    else out == value
  }

  // ---- the keywords' spellings -------------------------------------------------------------

  lemma {:induction false} Spellings(key: string)
    ensures HoldsSchema(KeywordOf(key)) <==> key in SCHEMA_VALUED
    ensures HoldsMap(KeywordOf(key)) <==> key in SCHEMA_MAPS
    ensures HoldsList(KeywordOf(key)) <==> key in SCHEMA_LISTS
    ensures NotMonotone(KeywordOf(key)) <==> key in {"not", "oneOf", "if", "maxContains"}
    ensures KeywordOf(key).Async? <==> key == "$async"
    ensures KeywordOf(key).Pattern? <==> key == "pattern"
    ensures KeywordOf(key).PatternProperties? <==> key == "patternProperties"
  {
  }

  lemma {:induction false} DropsRemoved(m: Member, readable: string -> bool)
    ensures Dropped(m, readable) <==> IsRemoved(m, readable)
    ensures Dropped(m, readable) ==> !Schemas(m.key, m.value) && !Named(m.key, m.value)
  {
    Spellings(m.key);
  }

  // ---- what the walk removes, and what it tells --------------------------------------------

  /** The walk of a part tells of the part what it should, by whether each kind of member is in it somewhere. */
  ghost predicate Tells<T>(w: Walked<T>, unread: bool, refuses: bool, names: bool) {
    && (w.unread > 0 <==> unread) && (w.notMonotone.Some? <==> refuses) && (w.stopped.Some? <==> names)
  }

  ghost predicate InList(items: seq<Json>, hit: Member -> bool) {
    exists i :: 0 <= i < |items| && Somewhere(items[i], hit)
  }

  ghost predicate InMap(members: seq<Member>, hit: Member -> bool) {
    exists i :: 0 <= i < |members| && Somewhere(members[i].value, hit)
  }

  ghost predicate InMembers(members: seq<Member>, hit: Member -> bool) {
    exists i :: 0 <= i < |members| && Touches(members[i], hit)
  }

  lemma {:induction false} ListSnoc(items: seq<Json>, last: Json, hit: Member -> bool)
    ensures InList(items + [last], hit) <==> InList(items, hit) || Somewhere(last, hit)
  {
    var all := items + [last];
    assert all[|items|] == last && forall i :: 0 <= i < |items| ==> all[i] == items[i];
  }

  lemma {:induction false} MapSnoc(members: seq<Member>, last: Member, hit: Member -> bool)
    ensures InMap(members + [last], hit) <==> InMap(members, hit) || Somewhere(last.value, hit)
  {
    var all := members + [last];
    assert all[|members|] == last && forall i :: 0 <= i < |members| ==> all[i] == members[i];
  }

  lemma {:induction false} MembersSnoc(members: seq<Member>, last: Member, hit: Member -> bool)
    ensures InMembers(members + [last], hit) <==> InMembers(members, hit) || Touches(last, hit)
  {
    var all := members + [last];
    assert all[|members|] == last && forall i :: 0 <= i < |members| ==> all[i] == members[i];
  }

  lemma {:induction false} UnreadNameSays(members: seq<Member>, readable: string -> bool)
    ensures UnreadName(members, readable).Some? <==>
            exists i :: 0 <= i < |members| && !readable(members[i].key)
  {
    if members != [] {
      UnreadNameSays(members[1..], readable);
      assert forall i :: 0 <= i < |members| - 1 ==> members[1..][i] == members[i + 1];
      if i :| 0 <= i < |members| && !readable(members[i].key) {
        if i > 0 { assert !readable(members[1..][i - 1].key); }
      }
    }
  }

  // ---- nothing removed is left -------------------------------------------------------------

  lemma {:induction false} NodeClean(d: Json, readable: string -> bool, gone: Member -> bool)
    requires forall m :: gone(m) <==> IsRemoved(m, readable)
    ensures !Somewhere(WalkNode(d, readable).out, gone)
    decreases d, 0
  {
    match d {
      case JArray(items) => ListClean(items, readable, gone);
      case JObject(members) => MembersClean(members, readable, gone);
      case _ =>
    }
  }

  lemma {:induction false} ListClean(items: seq<Json>, readable: string -> bool, gone: Member -> bool)
    requires forall m :: gone(m) <==> IsRemoved(m, readable)
    ensures !InList(WalkList(items, readable).out, gone)
    decreases items, 0
  {
    if items != [] {
      var front, last := items[..|items| - 1], items[|items| - 1];
      ListClean(front, readable, gone);
      NodeClean(last, readable, gone);
      ListSnoc(WalkList(front, readable).out, WalkNode(last, readable).out, gone);
    }
  }

  lemma {:induction false} MapClean(members: seq<Member>, readable: string -> bool, gone: Member -> bool)
    requires forall m :: gone(m) <==> IsRemoved(m, readable)
    ensures !InMap(WalkMap(members, readable).out, gone)
    decreases members, 0
  {
    if members != [] {
      var front, last := members[..|members| - 1], members[|members| - 1];
      MapClean(front, readable, gone);
      NodeClean(last.value, readable, gone);
      MapSnoc(WalkMap(front, readable).out, Member(last.key, WalkNode(last.value, readable).out), gone);
    }
  }

  lemma {:induction false} ValueKind(key: string, value: Json, readable: string -> bool)
    ensures var out := WalkValue(KeywordOf(key), value, readable).out;
            && (Schemas(key, out) <==> Schemas(key, value)) && (Named(key, out) <==> Named(key, value))
            && (value.JString? <==> out.JString?) && (value.JString? ==> out == value)
            && (Schemas(key, value) ==> out == WalkNode(value, readable).out)
            && (!Schemas(key, value) && Named(key, value) ==> out == JObject(WalkMap(value.members, readable).out))
            && (!Schemas(key, value) && !Named(key, value) ==> out == value)
  {
    Spellings(key);
  }

  lemma {:induction false} MemberClean(m: Member, readable: string -> bool, gone: Member -> bool)
    requires forall m :: gone(m) <==> IsRemoved(m, readable)
    requires !IsRemoved(m, readable)
    ensures !Touches(Member(m.key, WalkValue(KeywordOf(m.key), m.value, readable).out), gone)
    decreases m, 1
  {
    ValueKind(m.key, m.value, readable);
    if Schemas(m.key, m.value) {
      NodeClean(m.value, readable, gone);
    } else if Named(m.key, m.value) {
      MapClean(m.value.members, readable, gone);
    }
  }

  lemma {:induction false} MembersClean(members: seq<Member>, readable: string -> bool, gone: Member -> bool)
    requires forall m :: gone(m) <==> IsRemoved(m, readable)
    ensures !InMembers(WalkMembers(members, readable).out, gone)
    decreases members, 0
  {
    if members != [] {
      var front, last := members[..|members| - 1], members[|members| - 1];
      MembersClean(front, readable, gone);
      DropsRemoved(last, readable);
      if !IsRemoved(last, readable) {
        MemberClean(last, readable, gone);
        MembersSnoc(WalkMembers(front, readable).out,
                    Member(last.key, WalkValue(KeywordOf(last.key), last.value, readable).out), gone);
      }
    }
  }

  // ---- all else stands in its place --------------------------------------------------------

  /** The members kept stand in order, each as it should. */
  ghost predicate InPlace(members: seq<Member>, out: seq<Member>, readable: string -> bool,
      stands: (Member, Member) -> bool)
  {
    && |out| == KeptBefore(members, |members|, readable)
    && forall i :: 0 <= i < |members| ==> Placed(members, out, i, readable, stands)
  }

  ghost predicate Placed(members: seq<Member>, out: seq<Member>, i: nat, readable: string -> bool,
      stands: (Member, Member) -> bool)
    requires i < |members|
  {
    var at := KeptBefore(members, i, readable);
    !IsRemoved(members[i], readable) ==> at < |out| && stands(members[i], out[at])
  }

  lemma {:induction false} KeptFront(members: seq<Member>, last: Member, i: nat, readable: string -> bool)
    requires i <= |members|
    ensures KeptBefore(members + [last], i, readable) == KeptBefore(members, i, readable)
  {
    if i > 0 {
      KeptFront(members, last, i - 1, readable);
    }
  }

  /** One more member: removed, or kept at the end. */
  lemma {:induction false} InPlaceSnoc(members: seq<Member>, out: seq<Member>, last: Member, more: seq<Member>,
      readable: string -> bool, stands: (Member, Member) -> bool)
    requires InPlace(members, out, readable, stands)
    requires if IsRemoved(last, readable) then more == [] else |more| == 1 && stands(last, more[0])
    ensures InPlace(members + [last], out + more, readable, stands)
  {
    var all := members + [last];
    KeptFront(members, last, |members|, readable);
    forall i | 0 <= i < |all| ensures Placed(all, out + more, i, readable, stands) {
      if i < |members| {
        KeptFront(members, last, i, readable);
        assert Placed(members, out, i, readable, stands);
      }
    }
  }

  lemma {:induction false} NodeStripped(d: Json, readable: string -> bool)
    ensures Stripped(d, WalkNode(d, readable).out, readable)
    decreases d, 0
  {
    match d {
      case JArray(items) => ListStripped(items, readable);
      case JObject(members) =>
        var stands := (m, to) => StandsAs(m, to, readable);
        MembersStripped(members, readable, stands);
        var out := WalkMembers(members, readable).out;
        forall i | 0 <= i < |members| && !IsRemoved(members[i], readable)
          ensures var at := KeptBefore(members, i, readable); at < |out| && StandsAs(members[i], out[at], readable)
        {
          assert Placed(members, out, i, readable, stands);
        }
      case _ =>
    }
  }

  lemma {:induction false} ListStripped(items: seq<Json>, readable: string -> bool)
    ensures var out := WalkList(items, readable).out;
            |out| == |items| && forall i :: 0 <= i < |items| ==> Stripped(items[i], out[i], readable)
    decreases items, 0
  {
    if items != [] {
      ListStripped(items[..|items| - 1], readable);
      NodeStripped(items[|items| - 1], readable);
    }
  }

  lemma {:induction false} MapStripped(members: seq<Member>, readable: string -> bool)
    ensures var out := WalkMap(members, readable).out;
            |out| == |members| && forall i :: 0 <= i < |members| ==>
              out[i].key == members[i].key && Stripped(members[i].value, out[i].value, readable)
    decreases members, 0
  {
    if members != [] {
      MapStripped(members[..|members| - 1], readable);
      NodeStripped(members[|members| - 1].value, readable);
    }
  }

  lemma {:induction false} MemberStripped(m: Member, readable: string -> bool)
    ensures StandsAs(m, Member(m.key, WalkValue(KeywordOf(m.key), m.value, readable).out), readable)
    decreases m, 1
  {
    ValueKind(m.key, m.value, readable);
    if Schemas(m.key, m.value) {
      NodeStripped(m.value, readable);
    } else if Named(m.key, m.value) {
      MapStripped(m.value.members, readable);
    }
  }

  lemma {:induction false} MembersStripped(members: seq<Member>, readable: string -> bool,
      stands: (Member, Member) -> bool)
    requires forall m, to :: stands(m, to) <==> StandsAs(m, to, readable)
    ensures InPlace(members, WalkMembers(members, readable).out, readable, stands)
    decreases members, 0
  {
    if members != [] {
      var front, last := members[..|members| - 1], members[|members| - 1];
      var out := WalkMembers(front, readable).out;
      MembersStripped(front, readable, stands);
      DropsRemoved(last, readable);
      if IsRemoved(last, readable) {
        InPlaceSnoc(front, out, last, [], readable, stands);
        assert out + [] == out;
      } else {
        var kept := Member(last.key, WalkValue(KeywordOf(last.key), last.value, readable).out);
        MemberStripped(last, readable);
        InPlaceSnoc(front, out, last, [kept], readable, stands);
      }
      assert front + [last] == members;
    }
  }

  // ---- what the walk tells -----------------------------------------------------------------

  /** What the walk looks for, as kinds of member. */
  datatype Sought = Sought(unread: Member -> bool, refuses: Member -> bool, names: Member -> bool)

  ghost predicate Seeks(s: Sought, readable: string -> bool) {
    && (forall m :: s.unread(m) <==> IsUnread(m, readable)) && (forall m :: s.refuses(m) <==> MayRefuseMore(m))
    && (forall m :: s.names(m) <==> NamesUnread(m, readable))
  }

  lemma {:induction false} NodeTells(d: Json, readable: string -> bool, s: Sought)
    requires Seeks(s, readable)
    ensures Tells(WalkNode(d, readable), Somewhere(d, s.unread), Somewhere(d, s.refuses), Somewhere(d, s.names))
    decreases d, 0
  {
    match d {
      case JArray(items) => ListTells(items, readable, s);
      case JObject(members) => MembersTell(members, readable, s);
      case _ =>
    }
  }

  lemma {:induction false} ListTells(items: seq<Json>, readable: string -> bool, s: Sought)
    requires Seeks(s, readable)
    ensures Tells(WalkList(items, readable), InList(items, s.unread), InList(items, s.refuses), InList(items, s.names))
    decreases items, 0
  {
    if items != [] {
      var front, last := items[..|items| - 1], items[|items| - 1];
      ListTells(front, readable, s);
      NodeTells(last, readable, s);
      assert front + [last] == items;
      ListSnoc(front, last, s.unread);
      ListSnoc(front, last, s.refuses);
      ListSnoc(front, last, s.names);
    }
  }

  lemma {:induction false} MapTells(members: seq<Member>, readable: string -> bool, s: Sought)
    requires Seeks(s, readable)
    ensures Tells(WalkMap(members, readable), InMap(members, s.unread), InMap(members, s.refuses),
                  InMap(members, s.names))
    decreases members, 0
  {
    if members != [] {
      var front, last := members[..|members| - 1], members[|members| - 1];
      MapTells(front, readable, s);
      NodeTells(last.value, readable, s);
      assert front + [last] == members;
      MapSnoc(front, last, s.unread);
      MapSnoc(front, last, s.refuses);
      MapSnoc(front, last, s.names);
    }
  }

  lemma {:induction false} ValueTells(m: Member, readable: string -> bool, s: Sought)
    requires Seeks(s, readable)
    ensures Tells(WalkValue(KeywordOf(m.key), m.value, readable), Beneath(m.key, m.value, s.unread),
                  Beneath(m.key, m.value, s.refuses), s.names(m) || Beneath(m.key, m.value, s.names))
    decreases m.value, 1
  {
    Spellings(m.key);
    if Schemas(m.key, m.value) {
      NodeTells(m.value, readable, s);
    } else if Named(m.key, m.value) {
      MapTells(m.value.members, readable, s);
      UnreadNameSays(m.value.members, readable);
    }
  }

  lemma {:induction false} MembersTell(members: seq<Member>, readable: string -> bool, s: Sought)
    requires Seeks(s, readable)
    ensures Tells(WalkMembers(members, readable), InMembers(members, s.unread), InMembers(members, s.refuses),
                  InMembers(members, s.names))
    decreases members, 0
  {
    if members != [] {
      var front, last := members[..|members| - 1], members[|members| - 1];
      MembersTell(front, readable, s);
      assert front + [last] == members;
      MembersSnoc(front, last, s.unread);
      MembersSnoc(front, last, s.refuses);
      MembersSnoc(front, last, s.names);
      Spellings(last.key);
      DropsRemoved(last, readable);
      if !IsRemoved(last, readable) {
        ValueTells(last, readable, s);
      }
    }
  }

  // ---- the rewrite and the check -----------------------------------------------------------

  /**
   * The rewrite removes, at every keyword position and at any depth, `$async` and each pattern that cannot be read, and
   * nothing else: whatever is left stands in its place.
   */
  lemma {:induction false} RewriteRemoves(schema: Json, readable: string -> bool)
    ensures !Somewhere(Rewritten(schema, readable), m => IsAsync(m))
    ensures !Somewhere(Rewritten(schema, readable), m => IsUnread(m, readable))
    ensures Stripped(schema, Rewritten(schema, readable), readable)
  {
    var gone := (m: Member) => IsRemoved(m, readable);
    NodeClean(schema, readable, gone);
    FewerHits(Rewritten(schema, readable), m => IsAsync(m), gone);
    FewerHits(Rewritten(schema, readable), m => IsUnread(m, readable), gone);
    NodeStripped(schema, readable);
  }

  lemma {:induction false} FewerHits(d: Json, some: Member -> bool, all: Member -> bool)
    requires forall k :: some(k) ==> all(k)
    ensures Somewhere(d, some) ==> Somewhere(d, all)
    decreases d, 0
  {
    match d {
      case JArray(items) =>
        forall i | 0 <= i < |items| ensures Somewhere(items[i], some) ==> Somewhere(items[i], all) {
          FewerHits(items[i], some, all);
        }
      case JObject(members) =>
        forall i | 0 <= i < |members| ensures Touches(members[i], some) ==> Touches(members[i], all) {
          FewerTouches(members[i], some, all);
        }
      case _ =>
    }
  }

  lemma {:induction false} TouchesIs(m: Member, hit: Member -> bool)
    ensures Touches(m, hit) <==>
            hit(m) || (if Schemas(m.key, m.value) then Somewhere(m.value, hit)
                       else Named(m.key, m.value) && InMap(m.value.members, hit))
  {
  }

  lemma {:induction false} FewerTouches(m: Member, some: Member -> bool, all: Member -> bool)
    requires forall k :: some(k) ==> all(k)
    ensures Touches(m, some) ==> Touches(m, all)
    decreases m, 1
  {
    TouchesIs(m, some);
    TouchesIs(m, all);
    if Schemas(m.key, m.value) {
      FewerHits(m.value, some, all);
    } else if Named(m.key, m.value) && InMap(m.value.members, some) {
      var i :| 0 <= i < |m.value.members| && Somewhere(m.value.members[i].value, some);
      FewerHits(m.value.members[i].value, some, all);
    }
  }

  /**
   * A call is checked unless a `patternProperties` name cannot be read, or some pattern cannot be while one of the
   * keywords that could then refuse more stands anywhere, or the engine does not compile what is left.
   */
  lemma {:induction false} CheckedIff(schema: Json, readable: string -> bool, compiles: Json -> bool)
    ensures var r := Checked(schema, readable, compiles);
            (r.Some? <==>
              && !Somewhere(schema, m => NamesUnread(m, readable))
              && !(Somewhere(schema, m => IsUnread(m, readable)) && Somewhere(schema, m => MayRefuseMore(m)))
              && compiles(Rewritten(schema, readable)))
            && (r.Some? ==> r.value == Rewritten(schema, readable))
  {
    var s := Sought(m => IsUnread(m, readable), m => MayRefuseMore(m), m => NamesUnread(m, readable));
    NodeTells(schema, readable, s);
  }
}
