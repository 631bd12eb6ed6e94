/**
 * packages/agent-tools/src/advertised-schema.ts: a JSON Schema rewritten without the patterns no `u`-flag regular
 * expression reads. What counts as such an expression is given.
 */
module SchemaRewrite {
  import opened Wrappers

  /** A JSON document; an object's members in the order they are enumerated. */
  datatype Json =
    | JNull
    | JBool(truth: bool)
    | JNumber(number: real)
    | JString(text: string)
    | JArray(items: seq<Json>)
    | JObject(members: seq<Member>)

  datatype Member = Member(key: string, value: Json)

  /** The keywords of JSON Schema 2020-12 that the rewrite or the meaning of a schema tells apart. */
  datatype Keyword =
    | AllOf | AnyOf | OneOf | PrefixItems
    | Not | If | Then | Else | Items | Contains | AdditionalProperties | PropertyNames
    | UnevaluatedItems | UnevaluatedProperties
    | Unapplied
    | Properties | PatternProperties | DependentSchemas | Dependencies | Defs | Definitions
    | MinContains | MaxContains | Pattern | Reference | Async
    | Plain(name: string)

  function KeywordOf(key: string): Keyword {
    match key
    case "allOf" => AllOf
    case "anyOf" => AnyOf
    case "oneOf" => OneOf
    case "prefixItems" => PrefixItems
    case "not" => Not
    case "if" => If
    case "then" => Then
    case "else" => Else
    case "items" => Items
    case "contains" => Contains
    case "additionalProperties" => AdditionalProperties
    case "propertyNames" => PropertyNames
    case "unevaluatedItems" => UnevaluatedItems
    case "unevaluatedProperties" => UnevaluatedProperties
    case "additionalItems" => Unapplied
    case "contentSchema" => Unapplied
    case "properties" => Properties
    case "patternProperties" => PatternProperties
    case "dependentSchemas" => DependentSchemas
    case "dependencies" => Dependencies
    case "$defs" => Defs
    case "definitions" => Definitions
    case "minContains" => MinContains
    case "maxContains" => MaxContains
    case "pattern" => Pattern
    case "$ref" => Reference
    case "$async" => Async
    case _ => Plain(key)
  }

  predicate HoldsSchema(k: Keyword) {
    k in {Not, If, Then, Else, Items, Contains, AdditionalProperties, PropertyNames, UnevaluatedItems,
      UnevaluatedProperties, Unapplied}
  }

  predicate HoldsList(k: Keyword) {
    k in {AllOf, AnyOf, OneOf, PrefixItems}
  }

  predicate HoldsMap(k: Keyword) {
    k in {Properties, PatternProperties, DependentSchemas, Dependencies, Defs, Definitions}
  }

  /** Keywords that can refuse more once a constraint beneath them is gone. */
  predicate NotMonotone(k: Keyword) {
    k in {Not, OneOf, If, MaxContains}
  }

  // ---- the walk ----------------------------------------------------------------------------

  /**
   * What walking a part of the document gives: the part rewritten, the patterns dropped, the first keyword that is not
   * monotone, the first name that stops the walk.
   */
  datatype Walked<T> = Walked(out: T, unread: nat, notMonotone: Option<string>, stopped: Option<string>)

  function Wrap<S, T>(w: Walked<S>, out: T): Walked<T> {
    Walked(out, w.unread, w.notMonotone, w.stopped)
  }

  function First<T>(a: Option<T>, b: Option<T>): Option<T> {
    if a.Some? then a else b
  }

  function UnreadName(members: seq<Member>, readable: string -> bool): Option<string> {
    if members == [] then None
    else if !readable(members[0].key) then Some(members[0].key)
    else UnreadName(members[1..], readable)
  }

  predicate Dropped(m: Member, readable: string -> bool) {
    KeywordOf(m.key).Async? || (KeywordOf(m.key).Pattern? && m.value.JString? && !readable(m.value.text))
  }

  /** A document in the place of a schema. */
  function WalkNode(node: Json, readable: string -> bool): Walked<Json>
    decreases node, 0
  {
    match node
    case JArray(items) => var w := WalkList(items, readable); Wrap(w, JArray(w.out))
    case JObject(members) => var w := WalkMembers(members, readable); Wrap(w, JObject(w.out))
    case _ => Walked(node, 0, None, None)
  }

  function WalkList(items: seq<Json>, readable: string -> bool): Walked<seq<Json>>
    decreases items, 0
  {
    if items == [] then Walked([], 0, None, None)
    else
      var before, last := WalkList(items[..|items| - 1], readable), WalkNode(items[|items| - 1], readable);
      Walked(before.out + [last.out], before.unread + last.unread, First(before.notMonotone, last.notMonotone),
        First(before.stopped, last.stopped))
  }

  /** The members of a map from names to schemas: a member's key is a name, whatever it spells. */
  function WalkMap(members: seq<Member>, readable: string -> bool): Walked<seq<Member>>
    decreases members, 0
  {
    if members == [] then Walked([], 0, None, None)
    else
      var m := members[|members| - 1];
      var before, last := WalkMap(members[..|members| - 1], readable), WalkNode(m.value, readable);
      Walked(before.out + [Member(m.key, last.out)], before.unread + last.unread,
        First(before.notMonotone, last.notMonotone), First(before.stopped, last.stopped))
  }

  /** A keyword's value. */
  function WalkValue(k: Keyword, value: Json, readable: string -> bool): Walked<Json>
    decreases value, 1
  {
    if HoldsSchema(k) || (HoldsList(k) && value.JArray?) then WalkNode(value, readable)
    else if HoldsMap(k) && value.JObject? then
      var w := WalkMap(value.members, readable);
      var name := if k.PatternProperties? then UnreadName(value.members, readable) else None;
      Walked(JObject(w.out), w.unread, w.notMonotone, First(name, w.stopped))
    else Walked(value, 0, None, None)
  }

  /** The members of a schema: a member's key is a keyword. */
  function WalkMembers(members: seq<Member>, readable: string -> bool): Walked<seq<Member>>
    decreases members, 0
  {
    if members == [] then Walked([], 0, None, None)
    else
      var before := WalkMembers(members[..|members| - 1], readable);
      var m := members[|members| - 1];
      var k := KeywordOf(m.key);
      var flagged := First(before.notMonotone, if NotMonotone(k) then Some(m.key) else None);
      if Dropped(m, readable) then
        Walked(before.out, before.unread + (if k.Async? then 0 else 1), flagged, before.stopped)
      else
        var last := WalkValue(k, m.value, readable);
        Walked(before.out + [Member(m.key, last.out)], before.unread + last.unread, First(flagged, last.notMonotone),
          First(before.stopped, last.stopped))
  }

  function Rewritten(schema: Json, readable: string -> bool): Json {
    WalkNode(schema, readable).out
  }

  // ---- the walk, step by step --------------------------------------------------------------

  class Walk {
    var unreadPatterns: nat
    var notMonotone: Option<string>

    constructor ()
      ensures unreadPatterns == 0 && notMonotone == None
    {
      unreadPatterns, notMonotone := 0, None;
    }
  }

  lemma {:induction false} ListStops(items: seq<Json>, i: nat, readable: string -> bool)
    requires i <= |items| && WalkList(items[..i], readable).stopped.Some?
    ensures WalkList(items, readable).stopped.Some?
  {
    if i < |items| {
      assert items[..|items| - 1][..i] == items[..i];
      ListStops(items[..|items| - 1], i, readable);
    } else {
      assert items[..i] == items;
    }
  }

  lemma {:induction false} MapStops(members: seq<Member>, i: nat, readable: string -> bool)
    requires i <= |members| && WalkMap(members[..i], readable).stopped.Some?
    ensures WalkMap(members, readable).stopped.Some?
  {
    if i < |members| {
      assert members[..|members| - 1][..i] == members[..i];
      MapStops(members[..|members| - 1], i, readable);
    } else {
      assert members[..i] == members;
    }
  }

  lemma {:induction false} MembersStop(members: seq<Member>, i: nat, readable: string -> bool)
    requires i <= |members| && WalkMembers(members[..i], readable).stopped.Some?
    ensures WalkMembers(members, readable).stopped.Some?
  {
    if i < |members| {
      assert members[..|members| - 1][..i] == members[..i];
      MembersStop(members[..|members| - 1], i, readable);
    } else {
      assert members[..i] == members;
    }
  }

  /** None when a `patternProperties` name stops the walk. */
  method StripNode(node: Json, readable: string -> bool, walk: Walk) returns (r: Option<Json>)
    modifies walk
    ensures var w := WalkNode(node, readable); r == if w.stopped.Some? then None else Some(w.out)
    ensures r.Some? ==> walk.unreadPatterns == old(walk.unreadPatterns) + WalkNode(node, readable).unread
    ensures r.Some? ==> walk.notMonotone == First(old(walk.notMonotone), WalkNode(node, readable).notMonotone)
    decreases node, 0
  {
    match node {
      case JArray(items) =>
        var out := StripList(items, readable, walk);
        r := if out.Some? then Some(JArray(out.value)) else None;
      case JObject(members) =>
        var out := StripMembers(members, readable, walk);
        r := if out.Some? then Some(JObject(out.value)) else None;
      case _ =>
        r := Some(node);
    }
  }

  method StripList(items: seq<Json>, readable: string -> bool, walk: Walk) returns (r: Option<seq<Json>>)
    modifies walk
    ensures var w := WalkList(items, readable); r == if w.stopped.Some? then None else Some(w.out)
    ensures r.Some? ==> walk.unreadPatterns == old(walk.unreadPatterns) + WalkList(items, readable).unread
    ensures r.Some? ==> walk.notMonotone == First(old(walk.notMonotone), WalkList(items, readable).notMonotone)
    decreases items, 0
  {
    var out: seq<Json> := [];
    var i := 0;
    while i < |items|
      invariant i <= |items| && WalkList(items[..i], readable).stopped.None?
      invariant out == WalkList(items[..i], readable).out
      invariant walk.unreadPatterns == old(walk.unreadPatterns) + WalkList(items[..i], readable).unread
      invariant walk.notMonotone == First(old(walk.notMonotone), WalkList(items[..i], readable).notMonotone)
    {
      assert items[..i + 1][..i] == items[..i];
      var one := StripNode(items[i], readable, walk);
      if one.None? {
        ListStops(items, i + 1, readable);
        return None;
      }
      out := out + [one.value];
      i := i + 1;
    }
    assert items[..i] == items;
    r := Some(out);
  }

  method StripMap(members: seq<Member>, readable: string -> bool, walk: Walk) returns (r: Option<seq<Member>>)
    modifies walk
    ensures var w := WalkMap(members, readable); r == if w.stopped.Some? then None else Some(w.out)
    ensures r.Some? ==> walk.unreadPatterns == old(walk.unreadPatterns) + WalkMap(members, readable).unread
    ensures r.Some? ==> walk.notMonotone == First(old(walk.notMonotone), WalkMap(members, readable).notMonotone)
    decreases members, 0
  {
    var out: seq<Member> := [];
    var i := 0;
    while i < |members|
      invariant i <= |members| && WalkMap(members[..i], readable).stopped.None?
      invariant out == WalkMap(members[..i], readable).out
      invariant walk.unreadPatterns == old(walk.unreadPatterns) + WalkMap(members[..i], readable).unread
      invariant walk.notMonotone == First(old(walk.notMonotone), WalkMap(members[..i], readable).notMonotone)
    {
      assert members[..i + 1][..i] == members[..i];
      var one := StripNode(members[i].value, readable, walk);
      if one.None? {
        MapStops(members, i + 1, readable);
        return None;
      }
      out := out + [Member(members[i].key, one.value)];
      i := i + 1;
    }
    assert members[..i] == members;
    r := Some(out);
  }

  method StripValue(k: Keyword, value: Json, readable: string -> bool, walk: Walk) returns (r: Option<Json>)
    modifies walk
    ensures var w := WalkValue(k, value, readable); r == if w.stopped.Some? then None else Some(w.out)
    ensures r.Some? ==> walk.unreadPatterns == old(walk.unreadPatterns) + WalkValue(k, value, readable).unread
    ensures r.Some? ==> walk.notMonotone == First(old(walk.notMonotone), WalkValue(k, value, readable).notMonotone)
    decreases value, 1
  {
    if HoldsSchema(k) || (HoldsList(k) && value.JArray?) {
      r := StripNode(value, readable, walk);
    } else if HoldsMap(k) && value.JObject? {
      if k.PatternProperties? && UnreadName(value.members, readable).Some? { return None; }
      var out := StripMap(value.members, readable, walk);
      r := if out.Some? then Some(JObject(out.value)) else None;
    } else {
      r := Some(value);
    }
  }

  method StripMembers(members: seq<Member>, readable: string -> bool, walk: Walk) returns (r: Option<seq<Member>>)
    modifies walk
    ensures var w := WalkMembers(members, readable); r == if w.stopped.Some? then None else Some(w.out)
    ensures r.Some? ==> walk.unreadPatterns == old(walk.unreadPatterns) + WalkMembers(members, readable).unread
    ensures r.Some? ==> walk.notMonotone == First(old(walk.notMonotone), WalkMembers(members, readable).notMonotone)
    decreases members, 0
  {
    var out: seq<Member> := [];
    var i := 0;
    while i < |members|
      invariant i <= |members| && WalkMembers(members[..i], readable).stopped.None?
      invariant out == WalkMembers(members[..i], readable).out
      invariant walk.unreadPatterns == old(walk.unreadPatterns) + WalkMembers(members[..i], readable).unread
      invariant walk.notMonotone == First(old(walk.notMonotone), WalkMembers(members[..i], readable).notMonotone)
    {
      assert members[..i + 1][..i] == members[..i];
      var k := KeywordOf(members[i].key);
      if NotMonotone(k) && walk.notMonotone.None? { walk.notMonotone := Some(members[i].key); }
      if Dropped(members[i], readable) {
        if !k.Async? { walk.unreadPatterns := walk.unreadPatterns + 1; }
      } else {
        var one := StripValue(k, members[i].value, readable, walk);
        if one.None? {
          MembersStop(members, i + 1, readable);
          return None;
        }
        out := out + [Member(members[i].key, one.value)];
      }
      i := i + 1;
    }
    assert members[..i] == members;
    r := Some(out);
  }

  // ---- the check that is compiled ----------------------------------------------------------

  /** The schema a call is checked against; None when none can be, and any object passes. */
  function Checked(schema: Json, readable: string -> bool, compiles: Json -> bool): Option<Json> {
    var w := WalkNode(schema, readable);
    if w.stopped.Some? || (w.unread > 0 && w.notMonotone.Some?) || !compiles(w.out) then None else Some(w.out)
  }

  method AdvertisedSchemaCheck(schema: Json, readable: string -> bool, compiles: Json -> bool) returns (r: Option<Json>)
    ensures r == Checked(schema, readable, compiles)
  {
    var walk := new Walk();
    var rewritten := StripNode(schema, readable, walk);
    if rewritten.None? || (walk.unreadPatterns > 0 && walk.notMonotone.Some?) { return None; }
    r := if compiles(rewritten.value) then rewritten else None;
  }
}
