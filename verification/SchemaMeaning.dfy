/**
 * What a schema accepts, after sections 10 and 11 of JSON Schema Core 2020-12 and section 6 of JSON Schema Validation
 * 2020-12: the verdict on an instance, with the properties and items of it the schema evaluated. References stay at
 * keyword positions of the same document. Keywords that apply no schema (`type`, `enum`, `required`, ...) are given by
 * `holds`.
 */
module SchemaMeaning {
  import opened SchemaRewrite
  import opened Wrappers

  datatype Verdict = Refused | Accepted(props: set<string>, items: set<nat>)

  const Nothing := Accepted({}, {})

  /** A subschema applied to an instance. */
  type Sub = (Json, Json) -> Verdict

  /** One step from a schema to a schema beneath it. */
  datatype Hop = Under(k: Keyword) | Named(k: Keyword, name: string) | Nth(k: Keyword, index: nat)

  datatype Engine = Engine(
    readable: string -> bool,
    matches: (string, string) -> bool,
    holds: (string, Json, Json) -> bool,
    route: string -> Option<seq<Hop>>)

  function Both(v: Verdict, w: Verdict): Verdict {
    if v.Refused? || w.Refused? then Refused else Accepted(v.props + w.props, v.items + w.items)
  }

  function Either(v: Verdict, w: Verdict): Verdict {
    if v.Refused? then w else if w.Refused? then v else Accepted(v.props + w.props, v.items + w.items)
  }

  // ---- looking into documents --------------------------------------------------------------

  function Lookup(members: seq<Member>, key: string): Option<Json> {
    if members == [] then None
    else
      var before := Lookup(members[..|members| - 1], key);
      if before.Some? then before
      else if members[|members| - 1].key == key then Some(members[|members| - 1].value) else None
  }

  /** The value of a keyword of a schema. */
  function Get(members: seq<Member>, k: Keyword): Option<Json> {
    if members == [] then None
    else
      var before := Get(members[..|members| - 1], k);
      if before.Some? then before
      else if KeywordOf(members[|members| - 1].key) == k then Some(members[|members| - 1].value) else None
  }

  function Keys(members: seq<Member>): set<string> {
    set i | 0 <= i < |members| :: members[i].key
  }

  function Names(inst: Json): set<string> {
    if inst.JObject? then Keys(inst.members) else {}
  }

  function ValueOf(inst: Json, name: string): Json {
    if inst.JObject? && Lookup(inst.members, name).Some? then Lookup(inst.members, name).value else JNull
  }

  function Length(inst: Json): nat {
    if inst.JArray? then |inst.items| else 0
  }

  function ItemAt(inst: Json, i: nat): Json {
    if inst.JArray? && i < |inst.items| then inst.items[i] else JNull
  }

  function Span(from: nat, to: nat): (s: set<nat>)
    ensures forall i :: i in s <==> from <= i < to
  {
    if from >= to then {} else Span(from, to - 1) + {to - 1}
  }

  function Resolve(node: Json, hops: seq<Hop>): Option<Json>
    decreases |hops|
  {
    if hops == [] then Some(node)
    else if !node.JObject? then None
    else match Get(node.members, hops[0].k)
      case None => None
      case Some(value) =>
        match hops[0]
        case Under(k) => if HoldsSchema(k) then Resolve(value, hops[1..]) else None
        case Named(k, name) =>
          if HoldsMap(k) && value.JObject? && Lookup(value.members, name).Some?
            then Resolve(Lookup(value.members, name).value, hops[1..]) else None
        case Nth(k, i) =>
          if HoldsList(k) && value.JArray? && i < |value.items| then Resolve(value.items[i], hops[1..]) else None
  }

  // ---- applicators -------------------------------------------------------------------------

  function AllOfList(list: seq<Json>, inst: Json, sub: Sub): Verdict {
    if list == [] then Nothing else Both(AllOfList(list[..|list| - 1], inst, sub), sub(list[|list| - 1], inst))
  }

  function AnyOfList(list: seq<Json>, inst: Json, sub: Sub): Verdict {
    if list == [] then Refused else Either(AnyOfList(list[..|list| - 1], inst, sub), sub(list[|list| - 1], inst))
  }

  function Matching(list: seq<Json>, inst: Json, sub: Sub): nat {
    if list == [] then 0
    else Matching(list[..|list| - 1], inst, sub) + if sub(list[|list| - 1], inst).Accepted? then 1 else 0
  }

  /** A schema applied to the values of some properties, which it then has evaluated. */
  function NamesUnder(s: Json, names: set<string>, inst: Json, sub: Sub): Verdict {
    if forall name :: name in names ==> sub(s, ValueOf(inst, name)).Accepted? then Accepted(names, {}) else Refused
  }

  function ItemsUnder(s: Json, at: set<nat>, inst: Json, sub: Sub): Verdict {
    if forall i :: i in at ==> sub(s, ItemAt(inst, i)).Accepted? then Accepted({}, at) else Refused
  }

  function PrefixUnder(list: seq<Json>, inst: Json, sub: Sub): Verdict {
    if list == [] then Nothing
    else
      var before, n := PrefixUnder(list[..|list| - 1], inst, sub), |list| - 1;
      if n < Length(inst) then Both(before, ItemsUnder(list[n], {n}, inst, sub)) else before
  }

  function PropertiesUnder(members: seq<Member>, inst: Json, sub: Sub): Verdict {
    if members == [] then Nothing
    else
      var before, m := PropertiesUnder(members[..|members| - 1], inst, sub), members[|members| - 1];
      if m.key in Names(inst) then Both(before, NamesUnder(m.value, {m.key}, inst, sub)) else before
  }

  function NamesMatching(pattern: string, inst: Json, e: Engine): set<string> {
    set name | name in Names(inst) && e.matches(pattern, name)
  }

  function PatternsUnder(members: seq<Member>, inst: Json, sub: Sub, e: Engine): Verdict {
    if members == [] then Nothing
    else
      var before, m := PatternsUnder(members[..|members| - 1], inst, sub, e), members[|members| - 1];
      Both(before, NamesUnder(m.value, NamesMatching(m.key, inst, e), inst, sub))
  }

  predicate NamesPresent(list: seq<Json>, inst: Json) {
    forall i :: 0 <= i < |list| && list[i].JString? ==> list[i].text in Names(inst)
  }

  /** What a property's presence asks of the whole instance: a schema, or in `dependencies` a list of further names. */
  function DependentUnder(members: seq<Member>, inst: Json, sub: Sub, lists: bool): Verdict {
    if members == [] then Nothing
    else
      var before, m := DependentUnder(members[..|members| - 1], inst, sub, lists), members[|members| - 1];
      if m.key !in Names(inst) then before
      else if lists && m.value.JArray? then Both(before, if NamesPresent(m.value.items, inst) then Nothing else Refused)
      else Both(before, sub(m.value, inst))
  }

  /** The properties that `properties` and `patternProperties` govern, by name alone. */
  function Governed(members: seq<Member>, inst: Json, e: Engine): set<string> {
    var named := match Get(members, Properties)
      case Some(JObject(those)) => Keys(those)
      case _ => {};
    var patterned := match Get(members, PatternProperties)
      case Some(JObject(those)) => NamesMatchingSome(those, inst, e)
      case _ => {};
    named + patterned
  }

  function NamesMatchingSome(members: seq<Member>, inst: Json, e: Engine): set<string> {
    if members == [] then {}
      else NamesMatchingSome(members[..|members| - 1], inst, e) + NamesMatching(members[|members| - 1].key, inst, e)
  }

  function PrefixLength(members: seq<Member>): nat {
    match Get(members, PrefixItems) case Some(JArray(list)) => |list| case _ => 0
  }

  function Holding(s: Json, inst: Json, sub: Sub): set<nat> {
    set i | i in Span(0, Length(inst)) && sub(s, ItemAt(inst, i)).Accepted?
  }

  predicate AtLeast(limit: Option<Json>, count: nat) {
    match limit case Some(JNumber(least)) => count as real >= least case _ => count >= 1
  }

  predicate AtMost(limit: Option<Json>, count: nat) {
    match limit case Some(JNumber(most)) => count as real <= most case _ => true
  }

  predicate CountWithin(members: seq<Member>, count: nat) {
    AtLeast(Get(members, MinContains), count) && AtMost(Get(members, MaxContains), count)
  }

  function ContainsUnder(s: Json, members: seq<Member>, inst: Json, sub: Sub): Verdict {
    if !inst.JArray? then Nothing
    else if CountWithin(members, |Holding(s, inst, sub)|) then Accepted({}, Holding(s, inst, sub)) else Refused
  }

  function Branch(members: seq<Member>, k: Keyword, inst: Json, sub: Sub): Verdict {
    match Get(members, k) case Some(s) => sub(s, inst) case None => Nothing
  }

  // ---- keywords ----------------------------------------------------------------------------

  /** The verdict of one keyword among the members of its schema. The unevaluated ones come after all others. */
  function Apply(k: Keyword, value: Json, members: seq<Member>, root: Json, inst: Json, sub: Sub, e: Engine): Verdict {
    match k
    case AllOf => if value.JArray? then AllOfList(value.items, inst, sub) else Nothing
    case AnyOf => if value.JArray? then AnyOfList(value.items, inst, sub) else Nothing
    case OneOf =>
      if !value.JArray? then Nothing
      else if Matching(value.items, inst, sub) == 1 then AnyOfList(value.items, inst, sub) else Refused
    case Not => if sub(value, inst).Refused? then Nothing else Refused
    case If =>
      if sub(value, inst).Accepted? then Both(sub(value, inst), Branch(members, Then, inst, sub))
      else Branch(members, Else, inst, sub)
    case PrefixItems => if value.JArray? then PrefixUnder(value.items, inst, sub) else Nothing
    case Items => ItemsUnder(value, Span(PrefixLength(members), Length(inst)), inst, sub)
    case Contains => ContainsUnder(value, members, inst, sub)
    case AdditionalProperties => NamesUnder(value, Names(inst) - Governed(members, inst, e), inst, sub)
    case PropertyNames =>
      if forall name :: name in Names(inst) ==> sub(value, JString(name)).Accepted? then Nothing else Refused
    case Properties => if value.JObject? then PropertiesUnder(value.members, inst, sub) else Nothing
    case PatternProperties => if value.JObject? then PatternsUnder(value.members, inst, sub, e) else Nothing
    case DependentSchemas => if value.JObject? then DependentUnder(value.members, inst, sub, false) else Nothing
    case Dependencies => if value.JObject? then DependentUnder(value.members, inst, sub, true) else Nothing
    case Pattern => if value.JString? && inst.JString? && !e.matches(value.text, inst.text) then Refused else Nothing
    case Reference => if value.JString? then Referred(value.text, root, inst, sub, e) else Nothing
    case Plain(name) => if e.holds(name, value, inst) then Nothing else Refused
    case _ => Nothing
  }

  function Referred(reference: string, root: Json, inst: Json, sub: Sub, e: Engine): Verdict {
    match e.route(reference)
    case None => Refused
    case Some(hops) => match Resolve(root, hops) case None => Refused case Some(target) => sub(target, inst)
  }

  /** Every keyword of `some` but the unevaluated ones, `members` being the whole schema. */
  function ApplyAll(some: seq<Member>, members: seq<Member>, root: Json, inst: Json, sub: Sub, e: Engine): Verdict {
    if some == [] then Nothing
    else
      var m := some[|some| - 1];
      Both(ApplyAll(some[..|some| - 1], members, root, inst, sub, e),
        Apply(KeywordOf(m.key), m.value, members, root, inst, sub, e))
  }

  function RestOfProperties(members: seq<Member>, done: set<string>, inst: Json, sub: Sub): Verdict {
    match Get(members, UnevaluatedProperties)
    case None => Nothing
    case Some(s) => NamesUnder(s, Names(inst) - done, inst, sub)
  }

  function RestOfItems(members: seq<Member>, done: set<nat>, inst: Json, sub: Sub): Verdict {
    match Get(members, UnevaluatedItems)
    case None => Nothing
    case Some(s) => ItemsUnder(s, Span(0, Length(inst)) - done, inst, sub)
  }

  function ApplyUnevaluated(v: Verdict, members: seq<Member>, inst: Json, sub: Sub): Verdict {
    if v.Refused? then Refused
    else Both(v, Both(RestOfProperties(members, v.props, inst, sub), RestOfItems(members, v.items, inst, sub)))
  }

  function AtNode(root: Json, schema: Json, inst: Json, sub: Sub, e: Engine): Verdict {
    match schema
    case JBool(b) => if b then Nothing else Refused
    case JObject(members) => ApplyUnevaluated(ApplyAll(members, members, root, inst, sub, e), members, inst, sub)
    case _ => Refused
  }

  /** The meaning of a schema, its subschemas followed to depth `n`; beyond it everything is refused. */
  function Evaluate(n: nat, root: Json, schema: Json, inst: Json, e: Engine): Verdict
    decreases n, 0
  {
    if n == 0 then Refused else AtNode(root, schema, inst, Deeper(n - 1, root, e), e)
  }

  function Deeper(n: nat, root: Json, e: Engine): Sub
    decreases n, 1
  {
    (s: Json, i: Json) => Evaluate(n, root, s, i, e)
  }
}
