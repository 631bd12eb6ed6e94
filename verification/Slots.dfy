/**
 * packages/config/src/slots.ts: tier substitution and reasoning synthesis. A name is one of the eight slots, a copy
 * made under one of the two reserved prefixes, or any other model name.
 */
module Slots {
  import opened Walks
  import opened Wrappers

  datatype ModelSlot = Summary | Improvement | Retrospective | Gatekeeper | Small | Medium | Large | Fallback

  const MODEL_SLOTS: seq<ModelSlot> := [Summary, Improvement, Retrospective, Gatekeeper, Small, Medium, Large, Fallback]

  /** The slots whose values are substituted; the tiers are not among them. */
  const REFERENCE_SLOTS: seq<ModelSlot> := [Summary, Improvement, Retrospective, Gatekeeper, Fallback]

  datatype Name = Slot(slot: ModelSlot) | Model(text: string) | StartupCopy(of: ModelSlot) | PersonaCopy(role: string)

  predicate Reserved(name: Name) {
    name.StartupCopy? || name.PersonaCopy?
  }

  predicate IsTier(slot: ModelSlot) {
    slot.Small? || slot.Medium? || slot.Large?
  }

  datatype Level = Auto | Low | Mid | High | Max

  datatype RoleThinking = Default | ProviderDefault | At(level: Level)

  datatype Entry = Entry(rest: string, thinking: Option<Level>, effort: Option<string>)

  datatype Persona = Persona(model: Name, summary: Option<Name>, fallback: Option<Name>, thinking: Option<RoleThinking>)

  /** Every slot holds a name or is unset. */
  type SlotValues = ModelSlot -> Option<Name>

  function With(slots: SlotValues, slot: ModelSlot, value: Option<Name>): SlotValues {
    s => if s == slot then value else slots(s)
  }

  /** An alias registers when its tier's value is set, not empty, and not itself a tier. */
  function Alias(slots: SlotValues, name: Name): Option<Name> {
    if name.Slot? && IsTier(name.slot) then
      var value := slots(name.slot);
      if value.None? || value.value == Model("") || (value.value.Slot? && IsTier(value.value.slot)) then None else value
    else None
  }

  function Substitute(slots: SlotValues, name: Name): Name {
    var alias := Alias(slots, name);
    if alias.Some? then alias.value else name
  }

  function SubstituteIn(slots: SlotValues, value: Option<Name>): Option<Name> {
    if value.None? then None else Some(Substitute(slots, value.value))
  }

  /** An unset fallback takes the small model's value. */
  function Defaulted(slots: SlotValues): SlotValues {
    if slots(Fallback) == None || slots(Fallback) == Some(Model("")) then With(slots, Fallback, slots(Small)) else slots
  }

  type Origins = map<Name, Name>

  /** What leads on from a name: a slot to its value, a recorded copy to its origin. */
  function LinksOf(slots: SlotValues, origins: Origins): Links<Name> {
    map name | name in (set s: ModelSlot :: Slot(s)) + origins.Keys ::
      if name.Slot? then slots(name.slot) else if name in origins then Some(origins[name]) else None
  }

  /** The chain of slots alone. */
  function SlotLinks(slots: SlotValues): Links<Name> {
    LinksOf(slots, map[])
  }

  datatype Resolution = Resolution(base: Option<Name>, chain: seq<Name>, cycle: bool)

  lemma {:induction false} SlotSetGrows(seen: set<Name>)
    requires forall x :: x in seen ==> x.Slot?
    ensures |seen| <= 8
  {
    var all := {Slot(Summary), Slot(Improvement), Slot(Retrospective), Slot(Gatekeeper),
                Slot(Small), Slot(Medium), Slot(Large), Slot(Fallback)};
    forall x | x in seen ensures x in all {
      match x.slot {
        case Summary => case Improvement => case Retrospective => case Gatekeeper =>
        case Small => case Medium => case Large => case Fallback =>
      }
    }
    SubsetSize(seen, all);
  }

  /** `resolveSlotBase`: the base the chain ends at, or a cycle, which is exactly a chain that never ends. */
  method ResolveSlotBase(slots: SlotValues, slot: ModelSlot) returns (r: Resolution)
    ensures r.cycle <==> forall n: nat :: Walk(SlotLinks(slots), Some(Slot(slot)), n) == None
    ensures !r.cycle ==> && |r.chain| >= 1 && Leads(SlotLinks(slots), Some(Slot(slot)), |r.chain|, r.base)
                         && Ends(SlotLinks(slots), Some(Slot(slot)), r.base) && !(r.base.Some? && r.base.value.Slot?)
  {
    ghost var links := SlotLinks(slots);
    var chain, current, seen := [Slot(slot)], slots(slot), {Slot(slot)};
    while current.Some? && current.value.Slot?
      invariant |chain| >= 1 && Leads(links, Some(Slot(slot)), |chain|, current)
      invariant forall x :: x in seen ==> x.Slot?
      invariant Slot(slot) in seen
      invariant forall x :: x in seen ==> links[x] == current || (links[x].Some? && links[x].value in seen)
      decreases 8 - |seen|
    {
      if current.value in seen {
        forall n: nat ensures Walk(links, Some(Slot(slot)), n) == None {
          ClosedNeverEnds(links, seen, Slot(slot), n);
        }
        return Resolution(None, chain + [current.value], true);
      }
      SlotSetGrows(seen + {current.value});
      LeadsOne(links, Some(Slot(slot)), |chain|, current, slots(current.value.slot));
      seen := seen + {current.value};
      chain := chain + [current.value];
      current := slots(current.value.slot);
    }
    LeadsThenWalk(links, Some(Slot(slot)), |chain|, current, 0);
    assert Walk(links, Some(Slot(slot)), |chain|) == Some(current);
    r := Resolution(current, chain, false);
  }

  lemma {:induction false} LeadsOne(links: Links<Name>, from: Option<Name>, k: nat, to: Option<Name>,
      next: Option<Name>)
    requires Leads(links, from, k, to) && to.Some? && to.value in links && links[to.value] == next
    ensures Leads(links, from, k + 1, next)
    decreases k
  {
    if k > 0 {
      LeadsOne(links, links[from.value], k - 1, to, next);
    }
  }

  /** The recorded origins alone. */
  function OriginLinks(origins: Origins): Links<Name> {
    map name | name in origins :: Some(origins[name])
  }

  /** `syntheticOriginOf`: the name the recorded origins end at, which is no copy unless they run in a circle. */
  method SyntheticOriginOf(name: Name, origins: Origins) returns (origin: Name)
    ensures origin !in origins ==> Ends(OriginLinks(origins), Some(name), Some(origin))
    ensures origin in origins ==> forall n: nat :: Walk(OriginLinks(origins), Some(name), n) == None
  {
    ghost var links := OriginLinks(origins);
    origin := name;
    var seen := {origin};
    ghost var hops := 0;
    while origin in origins && origins[origin] !in seen
      invariant origin in seen && name in seen && Leads(links, Some(name), hops, Some(origin))
      invariant forall x :: x in seen ==> x == origin || (x in origins && origins[x] in seen)
      decreases origins.Values - seen
    {
      LeadsOne(links, Some(name), hops, Some(origin), Some(origins[origin]));
      hops := hops + 1;
      origin := origins[origin];
      seen := seen + {origin};
    }
    if origin in origins {
      forall n: nat ensures Walk(links, Some(name), n) == None {
        ClosedNeverEnds(links, seen, name, n);
      }
    } else {
      LeadsThenWalk(links, Some(name), hops, Some(origin), 0);
      assert Walk(links, Some(name), hops) == Some(Some(origin));
    }
  }

  ghost predicate OriginEnds(origins: Origins, name: Name) {
    exists end :: Ends(OriginLinks(origins), Some(name), Some(end)) && end !in origins
  }

  /** From every name the recorded origins lead to one that is no copy. */
  ghost predicate Acyclic(origins: Origins) {
    forall name :: OriginEnds(origins, name)
  }

  // ---- substitution ------------------------------------------------------------------------

  ghost predicate NameReserved(x: Name) { Reserved(x) }

  lemma {:induction false} SubstituteKeepsEnds(slots: SlotValues, slot: ModelSlot, x: Name, end: Option<Name>)
    ensures Ends(SlotLinks(slots), Some(x), end) <==>
            Ends(SlotLinks(With(slots, slot, SubstituteIn(slots, slots(slot)))), Some(x), end)
  {
    var links := SlotLinks(slots);
    var to := SubstituteIn(slots, slots(slot));
    var after := SlotLinks(With(slots, slot, to));
    assert after == links[Slot(slot) := to];
    if slots(slot).Some? && Alias(slots, slots(slot).value).Some? {
      assert Leads(links, Some(Slot(slot)), 2, to) by {
        assert links[Slot(slot)] == slots(slot);
        assert Leads(links, slots(slot), 1, to);
      }
      Reroute(links, Slot(slot), 2, to, Some(x), end);
    } else {
      assert after == links;
    }
  }

  /** The reference slots substituted, all by the aliases registered at the start. */
  function SubstituteAll(slots: SlotValues, n: nat): SlotValues
    requires n <= |REFERENCE_SLOTS|
  {
    if n == 0 then slots
    else
      var front := SubstituteAll(slots, n - 1);
      With(front, REFERENCE_SLOTS[n - 1], SubstituteIn(slots, front(REFERENCE_SLOTS[n - 1])))
  }

  lemma {:induction false} SubstituteAllKeepsEnds(slots: SlotValues, n: nat, x: Name, end: Option<Name>)
    requires n <= |REFERENCE_SLOTS|
    ensures forall s :: IsTier(s) ==> SubstituteAll(slots, n)(s) == slots(s)
    ensures Ends(SlotLinks(slots), Some(x), end) <==> Ends(SlotLinks(SubstituteAll(slots, n)), Some(x), end)
  {
    if n > 0 {
      SubstituteAllKeepsEnds(slots, n - 1, x, end);
      var front := SubstituteAll(slots, n - 1);
      var s := REFERENCE_SLOTS[n - 1];
      assert SubstituteIn(front, front(s)) == SubstituteIn(slots, front(s));
      SubstituteKeepsEnds(front, s, x, end);
    }
  }

  // ---- synthesis ---------------------------------------------------------------------------

  type Models = map<Name, Entry>

  /** What the synthesis is given: the slots after substitution, the configured models, and the levels asked for. */
  datatype Given = Given(
    slots: SlotValues,
    models: Models,
    thinking: ModelSlot -> Option<Level>,
    personas: map<string, Persona>)

  function Reasoned(base: Entry, thinking: RoleThinking): Entry {
    match thinking
    case At(level) => base.(thinking := Some(level))
    case ProviderDefault => base.(thinking := None, effort := None)
    case Default => base
  }

  lemma {:induction false} SlotsDistinct(i: nat)
    requires i < |MODEL_SLOTS|
    ensures forall j :: i < j < |MODEL_SLOTS| ==> MODEL_SLOTS[j] != MODEL_SLOTS[i]
  {
  }

  /** A copy is its origin's entry but for the reasoning its slot or role asked for. */
  ghost predicate CopyOf(given: Given, name: Name, copy: Entry, origin: Entry) {
    match name
    case StartupCopy(s) => given.thinking(s).Some? && copy == origin.(thinking := given.thinking(s))
    case PersonaCopy(r) =>
      && r in given.personas && given.personas[r].thinking.Some? && !given.personas[r].thinking.value.Default?
      && copy == (match given.personas[r].thinking.value
                  case At(level) => Entry(origin.rest, Some(level), origin.effort)
                  case ProviderDefault => Entry(origin.rest, None, None)
                  case Default => origin)
    case _ => false
  }

  ghost predicate NoneReserved(given: Given) {
    && (forall s :: given.slots(s).Some? ==> !Reserved(given.slots(s).value))
    && (forall n :: n in given.models ==> !Reserved(n))
    && (forall r :: r in given.personas ==> !Reserved(given.personas[r].model))
  }

  /** A copy is led to only once its own origin is recorded. */
  ghost predicate OriginNamed(origins: Origins, n: Name) {
    n in origins ==> Reserved(n) && (Reserved(origins[n]) ==> origins[n] in origins)
  }

  ghost predicate SlotNamed(slots: SlotValues, origins: Origins, s: ModelSlot) {
    slots(s).Some? && Reserved(slots(s).value) ==> slots(s).value in origins
  }

  ghost predicate OriginsNamed(slots: SlotValues, origins: Origins) {
    (forall n: Name :: OriginNamed(origins, n)) && (forall s: ModelSlot :: SlotNamed(slots, origins, s))
  }

  /**
   * A configured model is untouched, a recorded copy is its origin's entry re-reasoned, and there is no other model.
   */
  ghost predicate ModelMade(given: Given, models: Models, origins: Origins, n: Name) {
    && (n in models <==> n in given.models || n in origins)
    && (n in given.models && n in models ==> models[n] == given.models[n])
    && (n in origins && n in models ==> origins[n] in models && CopyOf(given, n, models[n], models[origins[n]]))
  }

  ghost predicate CopiesMade(given: Given, models: Models, origins: Origins) {
    forall n: Name :: ModelMade(given, models, origins, n)
  }

  /** What holds between any two copies being made. */
  ghost predicate Sound(given: Given, slots: SlotValues, models: Models, origins: Origins) {
    && SameEnds(SlotLinks(given.slots), LinksOf(slots, origins), NameReserved)
    && Acyclic(origins)
    && OriginsNamed(slots, origins)
    && CopiesMade(given, models, origins)
  }

  lemma {:induction false} SoundAtStart(given: Given)
    requires NoneReserved(given)
    ensures Sound(given, given.slots, given.models, map[])
  {
    forall name: Name ensures OriginEnds(map[], name) {
      assert Walk(OriginLinks(map[]), Some(name), 0) == Some(Some(name));
      assert Ends(OriginLinks(map[]), Some(name), Some(name));
    }
  }

  /** One more recorded copy keeps the origins acyclic. */
  lemma {:induction false} AcyclicWithCopy(origins: Origins, name: Name, origin: Name)
    requires Acyclic(origins) && name !in origins && origin != name
    requires forall n :: n in origins ==> origins[n] != name
    ensures Acyclic(origins[name := origin])
  {
    var after := origins[name := origin];
    forall n: Name ensures OriginEnds(after, n) {
      EndsWithCopy(origins, name, origin, if n == name then origin else n);
      if n == name {
        var end :| Ends(OriginLinks(after), Some(origin), Some(end)) && end !in after;
        var k: nat :| Walk(OriginLinks(after), Some(origin), k) == Some(Some(end));
        assert Walk(OriginLinks(after), Some(name), k + 1) == Some(Some(end));
      }
    }
  }

  lemma {:induction false} EndsWithCopy(origins: Origins, name: Name, origin: Name, from: Name)
    requires OriginEnds(origins, from) && name !in origins && from != name
    requires forall n :: n in origins ==> origins[n] != name
    ensures OriginEnds(origins[name := origin], from)
  {
    var links, more := OriginLinks(origins), OriginLinks(origins[name := origin]);
    var end :| Ends(links, Some(from), Some(end)) && end !in origins;
    var k: nat :| Walk(links, Some(from), k) == Some(Some(end));
    assert more == links[name := Some(origin)];
    AddUnused(links, name, Some(origin), Some(from), k);
    EndIsLedTo(links, Some(from), k, end);
    assert end != name;
    assert Ends(more, Some(from), Some(end));
  }

  /** A walk's end is where it began, or something leads to it. */
  lemma {:induction false} EndIsLedTo(links: Links<Name>, from: Option<Name>, k: nat, end: Name)
    requires Walk(links, from, k) == Some(Some(end))
    ensures from == Some(end) || exists a :: a in links && links[a] == Some(end)
    decreases k
  {
    if from.Some? && from.value in links {
      EndIsLedTo(links, links[from.value], k - 1, end);
    }
  }

  lemma {:induction false} NamesUnused(slots: SlotValues, origins: Origins, name: Name)
    requires OriginsNamed(slots, origins) && Reserved(name) && name !in origins
    ensures Unused(LinksOf(slots, origins), name)
    ensures forall n :: n in origins ==> origins[n] != name
  {
    forall n | n in origins ensures origins[n] != name { assert OriginNamed(origins, n); }
    forall a | a in LinksOf(slots, origins) ensures LinksOf(slots, origins)[a] != Some(name) {
      if a.Slot? { assert SlotNamed(slots, origins, a.slot); }
    }
  }

  /** The slot now leads to the copy and the copy to the base its chain ended at: no walk's end moves. */
  lemma {:induction false} SlotCopyKeepsEnds(slots: SlotValues, origins: Origins, slot: ModelSlot, name: Name, k: nat,
      base: Name,
                                             x: Name, end: Option<Name>)
    requires OriginsNamed(slots, origins) && Reserved(name) && name !in origins && base != name && x != name
    requires k >= 1 && Leads(SlotLinks(slots), Some(Slot(slot)), k, Some(base))
    ensures Ends(LinksOf(slots, origins), Some(x), end) <==>
            Ends(LinksOf(With(slots, slot, Some(name)), origins[name := base]), Some(x), end)
  {
    var links := LinksOf(slots, origins);
    NamesUnused(slots, origins, name);
    LeadsInMore(SlotLinks(slots), links, Some(Slot(slot)), k, Some(base));
    Reroute(links, Slot(slot), k, Some(base), Some(x), end);
    var straight := links[Slot(slot) := Some(base)];
    InsertBetween(straight, Slot(slot), name, Some(x), end);
    assert LinksOf(With(slots, slot, Some(name)), origins[name := base]) == Between(straight, Slot(slot), name);
  }

  lemma {:induction false} SlotCopySameEnds(start: Links<Name>, slots: SlotValues, origins: Origins, slot: ModelSlot,
      k: nat, base: Name)
    requires SameEnds(start, LinksOf(slots, origins), NameReserved)
    requires OriginsNamed(slots, origins) && StartupCopy(slot) !in origins && base != StartupCopy(slot)
    requires k >= 1 && Leads(SlotLinks(slots), Some(Slot(slot)), k, Some(base))
    ensures SameEnds(start, LinksOf(With(slots, slot, Some(StartupCopy(slot))), origins[StartupCopy(slot) := base]),
                     NameReserved)
  {
    var name := StartupCopy(slot);
    var links, more := LinksOf(slots, origins), LinksOf(With(slots, slot, Some(name)), origins[name := base]);
    forall x: Name, end: Option<Name> | !NameReserved(x)
      ensures Ends(start, Some(x), end) <==> Ends(more, Some(x), end)
    {
      SlotCopyKeepsEnds(slots, origins, slot, name, k, base, x, end);
    }
  }

  lemma {:induction false} PersonaCopySameEnds(start: Links<Name>, slots: SlotValues, origins: Origins, role: string,
      base: Name)
    requires SameEnds(start, LinksOf(slots, origins), NameReserved)
    requires OriginsNamed(slots, origins) && PersonaCopy(role) !in origins
    ensures SameEnds(start, LinksOf(slots, origins[PersonaCopy(role) := base]), NameReserved)
  {
    var name := PersonaCopy(role);
    var links, more := LinksOf(slots, origins), LinksOf(slots, origins[name := base]);
    NamesUnused(slots, origins, name);
    assert more == links[name := Some(base)];
    forall x: Name, end: Option<Name> | !NameReserved(x)
      ensures Ends(start, Some(x), end) <==> Ends(more, Some(x), end)
    {
      UnusedKeepsEnds(links, name, Some(base), x, end);
    }
  }

  lemma {:induction false} UnusedKeepsEnds(links: Links<Name>, name: Name, to: Option<Name>, x: Name, end: Option<Name>)
    requires Unused(links, name) && x != name
    ensures Ends(links, Some(x), end) <==> Ends(links[name := to], Some(x), end)
  {
    var more := links[name := to];
    if Ends(links, Some(x), end) {
      var n: nat :| Walk(links, Some(x), n) == Some(end);
      AddUnused(links, name, to, Some(x), n);
      assert Walk(more, Some(x), n) == Some(end);
    }
    if Ends(more, Some(x), end) {
      var n: nat :| Walk(more, Some(x), n) == Some(end);
      AddUnused(links, name, to, Some(x), n);
    }
  }

  lemma {:induction false} CopyMade(given: Given, models: Models, origins: Origins, name: Name, copy: Entry, base: Name)
    requires CopiesMade(given, models, origins) && name !in models && base in models
    requires CopyOf(given, name, copy, models[base])
    ensures CopiesMade(given, models[name := copy], origins[name := base])
  {
    assert ModelMade(given, models, origins, name);
    var more, after := models[name := copy], origins[name := base];
    forall n: Name ensures ModelMade(given, more, after, n) {
      assert ModelMade(given, models, origins, n);
    }
  }

  lemma {:induction false} SlotCopyNamed(slots: SlotValues, origins: Origins, slot: ModelSlot, base: Name)
    requires OriginsNamed(slots, origins) && (Reserved(base) ==> base in origins)
    ensures OriginsNamed(With(slots, slot, Some(StartupCopy(slot))), origins[StartupCopy(slot) := base])
  {
    var name := StartupCopy(slot);
    var with, after := With(slots, slot, Some(name)), origins[name := base];
    forall n: Name ensures OriginNamed(after, n) { assert OriginNamed(origins, n); }
    forall s: ModelSlot ensures SlotNamed(with, after, s) { assert SlotNamed(slots, origins, s); }
  }

  lemma {:induction false} SlotCopySound(given: Given, slots: SlotValues, models: Models, origins: Origins,
      slot: ModelSlot, k: nat, base: Name)
    requires NoneReserved(given) && Sound(given, slots, models, origins) && StartupCopy(slot) !in origins
    requires given.thinking(slot).Some? && base in models
    requires k >= 1 && Leads(SlotLinks(slots), Some(Slot(slot)), k, Some(base))
    ensures var name := StartupCopy(slot);
            Sound(given, With(slots, slot, Some(name)), models[name := models[base].(thinking := given.thinking(slot))],
              origins[name := base])
  {
    var name := StartupCopy(slot);
    assert ModelMade(given, models, origins, name) && ModelMade(given, models, origins, base);
    NamesUnused(slots, origins, name);
    AcyclicWithCopy(origins, name, base);
    SlotCopyNamed(slots, origins, slot, base);
    SlotCopySameEnds(SlotLinks(given.slots), slots, origins, slot, k, base);
    CopyMade(given, models, origins, name, models[base].(thinking := given.thinking(slot)), base);
  }

  lemma {:induction false} PersonaCopySound(given: Given, slots: SlotValues, models: Models, origins: Origins,
      role: string, base: Name)
    requires NoneReserved(given) && Sound(given, slots, models, origins) && PersonaCopy(role) !in origins
    requires role in given.personas && given.personas[role].thinking.Some?
    requires !given.personas[role].thinking.value.Default?
    requires base in models
    ensures var name := PersonaCopy(role);
            Sound(given, slots, models[name := Reasoned(models[base], given.personas[role].thinking.value)],
              origins[name := base])
  {
    var name := PersonaCopy(role);
    assert ModelMade(given, models, origins, name) && ModelMade(given, models, origins, base);
    NamesUnused(slots, origins, name);
    AcyclicWithCopy(origins, name, base);
    var after := origins[name := base];
    forall n: Name ensures OriginNamed(after, n) { assert OriginNamed(origins, n); }
    forall s: ModelSlot ensures SlotNamed(slots, after, s) { assert SlotNamed(slots, origins, s); }
    PersonaCopySameEnds(SlotLinks(given.slots), slots, origins, role, base);
    CopyMade(given, models, origins, name, Reasoned(models[base], given.personas[role].thinking.value), base);
  }

  // ---- which slots get a copy --------------------------------------------------------------

  /** The base a slot's chain ends at is a configured model. */
  ghost predicate EndsConfigured(slots: SlotValues, models: Models, s: ModelSlot) {
    exists base :: base in models && Ends(SlotLinks(slots), Some(Slot(s)), Some(base))
  }

  /** A slot that asks for a level leads to its own copy exactly when its chain ends at a configured model. */
  ghost predicate SlotMade(given: Given, slots: SlotValues, s: ModelSlot) {
    slots(s) ==
      if given.thinking(s).Some? && EndsConfigured(given.slots, given.models, s)
      then Some(StartupCopy(s)) else given.slots(s)
  }

  /** No recorded copy was made of a slot's name. */
  ghost predicate NoSlotOrigin(origins: Origins) {
    forall n :: n in origins ==> !origins[n].Slot?
  }

  lemma {:induction false} SameWalkAmongSlots(slots: SlotValues, origins: Origins, from: Option<Name>, n: nat)
    requires Walk(SlotLinks(slots), from, n) == None
    ensures Walk(LinksOf(slots, origins), from, n) == None
    decreases n
  {
    if n > 0 {
      SameWalkAmongSlots(slots, origins, slots(from.value.slot), n - 1);
    }
  }

  lemma {:induction false} LedToEnds(links: Links<Name>, from: Option<Name>, k: nat, to: Option<Name>,
      end: Option<Name>)
    requires Leads(links, from, k, to) && Ends(links, to, end)
    ensures Ends(links, from, end)
  {
    var n: nat :| Walk(links, to, n) == Some(end);
    LeadsThenWalk(links, from, k, to, n);
    assert Walk(links, from, k + n) == Some(end);
  }

  /** From a copy the recorded origins lead to a configured model. */
  lemma {:induction false} CopyEndsConfigured(given: Given, slots: SlotValues, models: Models, origins: Origins,
      name: Name, n: nat, end: Name)
    requires CopiesMade(given, models, origins) && OriginsNamed(slots, origins) && NoSlotOrigin(origins)
    requires name in models && !name.Slot? && Walk(OriginLinks(origins), Some(name), n) == Some(Some(end))
    ensures end in models && Walk(LinksOf(slots, origins), Some(name), n) == Some(Some(end))
    decreases n
  {
    assert OriginNamed(origins, name) && ModelMade(given, models, origins, name);
    if name in origins {
      CopyEndsConfigured(given, slots, models, origins, origins[name], n - 1, end);
    }
  }

  /** What the slot's chain comes to among the slots and copies so far says what it came to at the start. */
  lemma {:induction false} BaseTells(given: Given, slots: SlotValues, models: Models, origins: Origins,
      slot: ModelSlot, k: nat, base: Name)
    requires NoneReserved(given) && Sound(given, slots, models, origins) && NoSlotOrigin(origins)
    requires k >= 1 && Leads(SlotLinks(slots), Some(Slot(slot)), k, Some(base)) && !base.Slot?
    ensures EndsConfigured(given.slots, given.models, slot) <==> base in models
    ensures base !in models ==> Ends(SlotLinks(given.slots), Some(Slot(slot)), Some(base))
  {
    var links := LinksOf(slots, origins);
    LeadsInMore(SlotLinks(slots), links, Some(Slot(slot)), k, Some(base));
    assert ModelMade(given, models, origins, base) && !NameReserved(Slot(slot));
    var end := base;
    if base in origins {
      assert OriginEnds(origins, base);
      end :| Ends(OriginLinks(origins), Some(base), Some(end)) && end !in origins;
      var n: nat :| Walk(OriginLinks(origins), Some(base), n) == Some(Some(end));
      CopyEndsConfigured(given, slots, models, origins, base, n, end);
    } else {
      assert Walk(links, Some(base), 0) == Some(Some(base));
    }
    assert ModelMade(given, models, origins, end);
    LedToEnds(links, Some(Slot(slot)), k, Some(base), Some(end));
    assert Ends(SlotLinks(given.slots), Some(Slot(slot)), Some(end));
    if EndsConfigured(given.slots, given.models, slot) {
      var other :| other in given.models && Ends(SlotLinks(given.slots), Some(Slot(slot)), Some(other));
      OneEnd(SlotLinks(given.slots), Some(Slot(slot)), Some(end), Some(other));
    }
  }

  lemma {:induction false} NothingTells(given: Given, slots: SlotValues, models: Models, origins: Origins,
      slot: ModelSlot, k: nat)
    requires Sound(given, slots, models, origins)
    requires Leads(SlotLinks(slots), Some(Slot(slot)), k, None)
    ensures Ends(SlotLinks(given.slots), Some(Slot(slot)), None) && !EndsConfigured(given.slots, given.models, slot)
  {
    var links := LinksOf(slots, origins);
    LeadsInMore(SlotLinks(slots), links, Some(Slot(slot)), k, None);
    assert Walk(links, None, 0) == Some(None) && !NameReserved(Slot(slot));
    LedToEnds(links, Some(Slot(slot)), k, None, None);
    if EndsConfigured(given.slots, given.models, slot) {
      var other :| other in given.models && Ends(SlotLinks(given.slots), Some(Slot(slot)), Some(other));
      OneEnd(SlotLinks(given.slots), Some(Slot(slot)), None, Some(other));
    }
  }

  lemma {:induction false} CycleTells(given: Given, slots: SlotValues, models: Models, origins: Origins,
      slot: ModelSlot)
    requires Sound(given, slots, models, origins)
    requires forall n: nat :: Walk(SlotLinks(slots), Some(Slot(slot)), n) == None
    ensures forall end :: !Ends(SlotLinks(given.slots), Some(Slot(slot)), end)
  {
    forall n: nat ensures Walk(LinksOf(slots, origins), Some(Slot(slot)), n) == None {
      SameWalkAmongSlots(slots, origins, Some(Slot(slot)), n);
    }
    assert !NameReserved(Slot(slot));
  }

  /** Substituting the reference slots one after another gives each its own value's substitute, and leaves the tiers. */
  lemma {:induction false} SubstituteAllIs(slots: SlotValues, n: nat, s: ModelSlot)
    requires n <= |REFERENCE_SLOTS|
    ensures SubstituteAll(slots, n)(s) == if s in REFERENCE_SLOTS[..n] then SubstituteIn(slots, slots(s)) else slots(s)
  {
    if n > 0 {
      SubstituteAllIs(slots, n - 1, s);
      assert REFERENCE_SLOTS[..n] == REFERENCE_SLOTS[..n - 1] + [REFERENCE_SLOTS[n - 1]];
      assert REFERENCE_SLOTS[n - 1] !in REFERENCE_SLOTS[..n - 1];
    }
  }

  datatype Warning =
    | Circular(slot: ModelSlot, chain: seq<Name>)
    | ResolvesToNothing(slot: ModelSlot)
    | Unconfigured(slot: ModelSlot, name: Name)
    | RoleUnconfigured(role: string, name: Name)

  /** A slot that asks for a level and gets no copy is warned about, by what became of its chain; no other slot is. */
  ghost predicate SlotWarned(given: Given, links: Links<Name>, warnings: seq<Warning>, s: ModelSlot) {
    var asks := given.thinking(s).Some?;
    && ((exists chain :: Circular(s, chain) in warnings) <==> asks && forall end :: !Ends(links, Some(Slot(s)), end))
    && (ResolvesToNothing(s) in warnings <==> asks && Ends(links, Some(Slot(s)), None))
    && forall name ::
           Unconfigured(s, name) in warnings <==>
           asks && name !in given.models && Ends(links, Some(Slot(s)), Some(name))
  }

  /** Nothing said about the slot yet. */
  ghost predicate Unwarned(warnings: seq<Warning>, s: ModelSlot) {
    forall w :: w in warnings ==> w.RoleUnconfigured? || w.slot != s
  }

  lemma {:induction false} SaidCycle(given: Given, s: ModelSlot, chain: seq<Name>)
    requires given.thinking(s).Some? && forall end :: !Ends(SlotLinks(given.slots), Some(Slot(s)), end)
    ensures SlotWarned(given, SlotLinks(given.slots), [Circular(s, chain)], s)
    ensures !EndsConfigured(given.slots, given.models, s)
  {
    assert Circular(s, chain) in [Circular(s, chain)];
  }

  /** The chain ends at nothing, or at a name no model has. */
  lemma {:induction false} SaidEnd(given: Given, s: ModelSlot, end: Option<Name>)
    requires given.thinking(s).Some? && Ends(SlotLinks(given.slots), Some(Slot(s)), end)
    requires end.Some? ==> end.value !in given.models
    ensures var said := if end.None? then ResolvesToNothing(s) else Unconfigured(s, end.value);
            SlotWarned(given, SlotLinks(given.slots), [said], s)
  {
    OnlyEnd(SlotLinks(given.slots), Some(Slot(s)), end);
  }

  lemma {:induction false} SaidNone(given: Given, s: ModelSlot)
    requires EndsConfigured(given.slots, given.models, s)
    ensures SlotWarned(given, SlotLinks(given.slots), [], s)
  {
    var end :| end in given.models && Ends(SlotLinks(given.slots), Some(Slot(s)), Some(end));
    OnlyEnd(SlotLinks(given.slots), Some(Slot(s)), Some(end));
  }

  lemma {:induction false} OnlyEnd(links: Links<Name>, from: Option<Name>, end: Option<Name>)
    requires Ends(links, from, end)
    ensures forall other :: Ends(links, from, other) <==> other == end
  {
    forall other | Ends(links, from, other) ensures other == end {
      OneEnd(links, from, end, other);
    }
  }

  lemma {:induction false} WarnedStill(given: Given, warnings: seq<Warning>, said: seq<Warning>, s: ModelSlot)
    requires SlotWarned(given, SlotLinks(given.slots), warnings, s) && Unwarned(said, s)
    ensures SlotWarned(given, SlotLinks(given.slots), warnings + said, s)
  {
    forall chain ensures Circular(s, chain) in warnings <==> Circular(s, chain) in warnings + said {}
  }

  lemma {:induction false} WarnedNow(given: Given, warnings: seq<Warning>, said: seq<Warning>, s: ModelSlot)
    requires Unwarned(warnings, s) && SlotWarned(given, SlotLinks(given.slots), said, s)
    ensures SlotWarned(given, SlotLinks(given.slots), warnings + said, s)
  {
    forall chain ensures Circular(s, chain) in said <==> Circular(s, chain) in warnings + said {}
  }

  /** The first `n` slots are made and warned about; the rest are as they were. */
  ghost predicate SlotsDone(given: Given, slots: SlotValues, origins: Origins, warnings: seq<Warning>, n: nat)
    requires n <= |MODEL_SLOTS|
  {
    && (forall x :: x in origins ==> x.StartupCopy?)
    && (forall j :: n <= j < |MODEL_SLOTS| ==> StartupCopy(MODEL_SLOTS[j]) !in origins)
    && (forall j ::
            n <= j < |MODEL_SLOTS| ==>
            slots(MODEL_SLOTS[j]) == given.slots(MODEL_SLOTS[j]) && Unwarned(warnings, MODEL_SLOTS[j]))
    && (forall j :: 0 <= j < n ==>
          SlotMade(given, slots, MODEL_SLOTS[j]) && SlotWarned(given, SlotLinks(given.slots), warnings, MODEL_SLOTS[j]))
  }

  lemma {:induction false} OneSlotMore(given: Given, front: SlotValues, slots: SlotValues, earlier: Origins,
      origins: Origins,
                                       warnings: seq<Warning>, said: seq<Warning>, n: nat)
    requires n < |MODEL_SLOTS| && SlotsDone(given, front, earlier, warnings, n)
    requires SlotMade(given, slots, MODEL_SLOTS[n]) && forall s :: s != MODEL_SLOTS[n] ==> slots(s) == front(s)
    requires forall x :: x in origins ==> x in earlier || x == StartupCopy(MODEL_SLOTS[n])
    requires SlotWarned(given, SlotLinks(given.slots), said, MODEL_SLOTS[n])
             && forall w :: w in said ==> !w.RoleUnconfigured? && w.slot == MODEL_SLOTS[n]
    ensures SlotsDone(given, slots, origins, warnings + said, n + 1)
  {
    SlotsDistinct(n);
    forall j | 0 <= j <= n
      ensures SlotMade(given, slots, MODEL_SLOTS[j])
      ensures SlotWarned(given, SlotLinks(given.slots), warnings + said, MODEL_SLOTS[j])
    {
      if j < n {
        SlotsDistinct(j);
        WarnedStill(given, warnings, said, MODEL_SLOTS[j]);
      } else {
        WarnedNow(given, warnings, said, MODEL_SLOTS[n]);
      }
    }
  }

  lemma {:induction false} EverySlotDone(given: Given, slots: SlotValues, origins: Origins, warnings: seq<Warning>)
    requires SlotsDone(given, slots, origins, warnings, |MODEL_SLOTS|)
    ensures forall s :: SlotMade(given, slots, s) && SlotWarned(given, SlotLinks(given.slots), warnings, s)
  {
    forall s ensures SlotMade(given, slots, s) && SlotWarned(given, SlotLinks(given.slots), warnings, s) {
      var j := SlotIsListed(s);
    }
  }

  lemma {:induction false} SlotIsListed(s: ModelSlot) returns (j: nat)
    ensures j < |MODEL_SLOTS| && MODEL_SLOTS[j] == s
  {
    j := match s case Summary => 0 case Improvement => 1 case Retrospective => 2 case Gatekeeper => 3
                 case Small => 4 case Medium => 5 case Large => 6 case Fallback => 7;
  }

  /** A role's references, each substituted. */
  function SubstitutePersona(slots: SlotValues, p: Persona): Persona {
    p.(model := Substitute(slots, p.model), summary := SubstituteIn(slots, p.summary),
      fallback := SubstituteIn(slots, p.fallback))
  }

  /** The role after its copy is made, where it asks for reasoning and its model is configured. */
  function ResolvedPersona(role: string, p: Persona, configured: bool): Persona {
    if p.thinking.None? then p
    else if p.thinking.value.Default? then p.(thinking := None)
    else if configured then p.(model := PersonaCopy(role))
    else p
  }

  /** A role as its synthesis leaves it, the copy's origin recorded. */
  ghost predicate RoleResolved(given: Given, origins: Origins, role: string, p: Persona) {
    && role in given.personas
    && p == ResolvedPersona(role, given.personas[role], given.personas[role].model in given.models)
    && (p.model == PersonaCopy(role) ==>
          PersonaCopy(role) in origins && origins[PersonaCopy(role)] == given.personas[role].model)
  }

  /** A role that asks for reasoning of a model nobody configured is warned about. */
  function RoleSaid(given: Given, role: string): set<Warning>
    requires role in given.personas
  {
    var p := given.personas[role];
    if p.thinking.Some? && !p.thinking.value.Default? && p.model !in given.models
    then {RoleUnconfigured(role, p.model)} else {}
  }

  ghost predicate RoleWarned(given: Given, warnings: set<Warning>, role: string)
    requires role in given.personas
  {
    forall name :: RoleUnconfigured(role, name) in warnings <==> RoleUnconfigured(role, name) in RoleSaid(given, role)
  }

  /** The roles not in `todo` are resolved and warned about; those in it are as they were. */
  ghost predicate RolesDone(given: Given, personas: map<string, Persona>, origins: Origins, warnings: set<Warning>,
      todo: set<string>)
  {
    && personas.Keys == given.personas.Keys
    && (forall n :: n in origins ==> n.StartupCopy? || (n.PersonaCopy? && n.role !in todo))
    && (forall r :: r in personas && r in todo ==> personas[r] == given.personas[r])
    && (forall r ::
            r in personas && r !in todo ==>
            RoleResolved(given, origins, r, personas[r]) && RoleWarned(given, warnings, r))
    && (forall w :: w in warnings ==> w.RoleUnconfigured? && w.role in given.personas && w.role !in todo)
  }

  lemma {:induction false} OneRoleMore(given: Given, front: map<string, Persona>, personas: map<string, Persona>,
      earlier: Origins, origins: Origins,
                                       warnings: set<Warning>, said: set<Warning>, todo: set<string>, role: string)
    requires RolesDone(given, front, earlier, warnings, todo) && role in todo && role in given.personas
    requires personas ==
             front[role := ResolvedPersona(role, given.personas[role], given.personas[role].model in given.models)]
    requires origins ==
             if personas[role].model == PersonaCopy(role) then earlier[PersonaCopy(role) := given.personas[role].model]
             else earlier
    requires said == RoleSaid(given, role)
    ensures RolesDone(given, personas, origins, warnings + said, todo - {role})
  {
    forall r | r in personas && r !in todo - {role}
      ensures RoleResolved(given, origins, r, personas[r]) && RoleWarned(given, warnings + said, r)
    {
      if r != role {
        assert RoleResolved(given, earlier, r, personas[r]) && RoleWarned(given, warnings, r);
      }
    }
  }

  class SlotDraft {
    var slots: SlotValues
    var slotThinking: ModelSlot -> Option<Level>
    var models: Models
    var personas: map<string, Persona>
    var compressorModel: Name
    var circuitBreakerModel: Name

    constructor (slots: SlotValues, slotThinking: ModelSlot -> Option<Level>, models: Models,
        personas: map<string, Persona>,
                 compressorModel: Name, circuitBreakerModel: Name)
      ensures this.slots == slots && this.slotThinking == slotThinking && this.models == models
      ensures this.personas == personas
      ensures this.compressorModel == compressorModel && this.circuitBreakerModel == circuitBreakerModel
    {
      this.slots, this.slotThinking, this.models, this.personas := slots, slotThinking, models, personas;
      this.compressorModel, this.circuitBreakerModel := compressorModel, circuitBreakerModel;
    }

    /** Every reference field, by the aliases registered at the start; and the roles that named a tier. */
    method SubstituteReferences() returns (tiers: map<string, ModelSlot>)
      modifies this
      ensures slots == SubstituteAll(old(slots), |REFERENCE_SLOTS|)
      ensures slotThinking == old(slotThinking) && models == old(models)
      ensures personas.Keys == old(personas).Keys
      ensures forall r :: r in personas ==> personas[r] == SubstitutePersona(old(slots), old(personas)[r])
      ensures compressorModel == Substitute(old(slots), old(compressorModel))
      ensures circuitBreakerModel == Substitute(old(slots), old(circuitBreakerModel))
      ensures forall r ::
                r in tiers <==> r in personas && old(personas)[r].model.Slot? && IsTier(old(personas)[r].model.slot)
      ensures forall r :: r in tiers ==> Slot(tiers[r]) == old(personas)[r].model
    {
      var aliases, given := slots, personas;
      tiers := map r | r in given && given[r].model.Slot? && IsTier(given[r].model.slot) :: given[r].model.slot;
      for i := 0 to |REFERENCE_SLOTS|
        invariant slots == SubstituteAll(aliases, i)
        invariant slotThinking == old(slotThinking) && models == old(models) && personas == given
        invariant compressorModel == old(compressorModel) && circuitBreakerModel == old(circuitBreakerModel)
      {
        var s := REFERENCE_SLOTS[i];
        slots := With(slots, s, SubstituteIn(aliases, slots(s)));
      }
      var todo := given.Keys;
      while todo != {}
        invariant todo <= given.Keys && personas.Keys == given.Keys
        invariant forall r ::
                    r in personas ==>
                    personas[r] == if r in todo then given[r] else SubstitutePersona(aliases, given[r])
        invariant slots == SubstituteAll(aliases, |REFERENCE_SLOTS|) && slotThinking == old(slotThinking)
        invariant models == old(models)
        invariant compressorModel == old(compressorModel) && circuitBreakerModel == old(circuitBreakerModel)
      {
        var r :| r in todo;
        personas := personas[r := SubstitutePersona(aliases, personas[r])];
        todo := todo - {r};
      }
      compressorModel := Substitute(aliases, compressorModel);
      circuitBreakerModel := Substitute(aliases, circuitBreakerModel);
    }

    /**
     * One slot: its copy made, its origin recorded and the slot led to it, where its chain ends at a configured model.
     */
    method SynthesiseSlot(ghost given: Given, slot: ModelSlot, before: Origins)
      returns (origins: Origins, said: seq<Warning>)
      requires slotThinking == given.thinking
      requires NoneReserved(given) ==>
                 Sound(given, slots, models, before) && NoSlotOrigin(before) && slots(slot) == given.slots(slot)
                   && StartupCopy(slot) !in before
      modifies this`models, this`slots
      ensures forall s :: s != slot ==> slots(s) == old(slots)(s)
      ensures forall n :: n in origins ==> n in before || n == StartupCopy(slot)
      ensures forall w :: w in said ==> !w.RoleUnconfigured? && w.slot == slot
      ensures NoneReserved(given) ==>
                Sound(given, slots, models, origins) && NoSlotOrigin(origins) && SlotMade(given, slots, slot)
                  && SlotWarned(given, SlotLinks(given.slots), said, slot)
    {
      origins, said := before, [];
      if slotThinking(slot).Some? {
        var r := ResolveSlotBase(slots, slot);
        if r.cycle {
          said := [Circular(slot, r.chain)];
          if NoneReserved(given) {
            CycleTells(given, slots, models, origins, slot);
            SaidCycle(given, slot, r.chain);
          }
        } else if r.base.None? {
          said := [ResolvesToNothing(slot)];
          if NoneReserved(given) {
            NothingTells(given, slots, models, origins, slot, |r.chain|);
            SaidEnd(given, slot, None);
          }
        } else {
          var base, name := r.base.value, StartupCopy(slot);
          if NoneReserved(given) { BaseTells(given, slots, models, origins, slot, |r.chain|, base); }
          if base !in models {
            said := [Unconfigured(slot, base)];
            if NoneReserved(given) {
              assert ModelMade(given, models, origins, base);
              SaidEnd(given, slot, Some(base));
            }
          } else {
            if NoneReserved(given) {
              SaidNone(given, slot);
              SlotCopySound(given, slots, models, origins, slot, |r.chain|, base);
            }
            models := models[name := models[base].(thinking := slotThinking(slot))];
            origins := origins[name := base];
            slots := With(slots, slot, Some(name));
          }
        }
      }
    }

    /** One copy for each slot that asks for a level, in the slots' fixed order. */
    method SynthesiseSlots(ghost given: Given) returns (origins: Origins, warnings: seq<Warning>)
      requires given == Given(slots, models, slotThinking, personas)
      modifies this`models, this`slots
      ensures NoneReserved(given) ==> Sound(given, slots, models, origins)
      ensures forall n :: n in origins ==> n.StartupCopy?
      ensures NoneReserved(given) ==>
                forall s :: SlotMade(given, slots, s) && SlotWarned(given, SlotLinks(given.slots), warnings, s)
    {
      origins, warnings := map[], [];
      if NoneReserved(given) { SoundAtStart(given); }
      for i := 0 to |MODEL_SLOTS|
        invariant forall n :: n in origins ==> n.StartupCopy?
        invariant NoneReserved(given) ==>
                    Sound(given, slots, models, origins) && NoSlotOrigin(origins)
                      && SlotsDone(given, slots, origins, warnings, i)
      {
        ghost var front, earlier := slots, origins;
        var said;
        origins, said := SynthesiseSlot(given, MODEL_SLOTS[i], origins);
        if NoneReserved(given) { OneSlotMore(given, front, slots, earlier, origins, warnings, said, i); }
        warnings := warnings + said;
      }
      if NoneReserved(given) { EverySlotDone(given, slots, origins, warnings); }
    }

    /** One role: its copy made and its origin recorded, where it asks for reasoning and its model is configured. */
    method SynthesisePersona(ghost given: Given, role: string, before: Origins)
      returns (origins: Origins, warnings: set<Warning>)
      requires role in personas && role in given.personas
      requires NoneReserved(given) ==>
                 && Sound(given, slots, models, before) && PersonaCopy(role) !in before
                      && personas[role] == given.personas[role]
                 && forall n :: n in before ==> Reserved(n)
      modifies this`models, this`personas
      ensures personas.Keys == old(personas).Keys
      ensures NoneReserved(given) ==>
                && Sound(given, slots, models, origins)
                && personas == old(personas)[role :=
                     ResolvedPersona(role, given.personas[role], given.personas[role].model in given.models)]
                && origins == (if personas[role].model != PersonaCopy(role) then before
                               else before[PersonaCopy(role) := given.personas[role].model])
                && warnings == RoleSaid(given, role)
    {
      origins, warnings := before, {};
      var persona := personas[role];
      if NoneReserved(given) { assert ModelMade(given, models, origins, persona.model) && !Reserved(persona.model); }
      if persona.thinking.Some? {
        if persona.thinking.value.Default? {
          personas := personas[role := persona.(thinking := None)];
        } else if persona.model !in models {
          warnings := {RoleUnconfigured(role, persona.model)};
        } else {
          var name := PersonaCopy(role);
          var origin := SyntheticOriginOf(persona.model, origins);
          if NoneReserved(given) {
            OwnOrigin(origins, persona.model, origin);
            PersonaCopySound(given, slots, models, origins, role, persona.model);
          }
          models := models[name := Reasoned(models[persona.model], persona.thinking.value)];
          origins := origins[name := origin];
          personas := personas[role := persona.(model := name)];
        }
      }
      assert personas == old(personas)[role := personas[role]];
    }

    /** Every role, in turn. */
    method SynthesisePersonas(ghost given: Given, before: Origins) returns (origins: Origins, warnings: set<Warning>)
      requires personas == given.personas
      requires NoneReserved(given) ==> Sound(given, slots, models, before)
      requires forall n :: n in before ==> n.StartupCopy?
      modifies this`models, this`personas
      ensures personas.Keys == given.personas.Keys
      ensures NoneReserved(given) ==>
              Sound(given, slots, models, origins) && RolesDone(given, personas, origins, warnings, {})
    {
      origins, warnings := before, {};
      var todo := personas.Keys;
      while todo != {}
        invariant todo <= given.personas.Keys == personas.Keys
        invariant NoneReserved(given) ==>
                  Sound(given, slots, models, origins) && RolesDone(given, personas, origins, warnings, todo)
      {
        var role :| role in todo;
        ghost var front, earlier := personas, origins;
        var said;
        origins, said := SynthesisePersona(given, role, origins);
        if NoneReserved(given) { OneRoleMore(given, front, personas, earlier, origins, warnings, said, todo, role); }
        warnings := warnings + said;
        todo := todo - {role};
      }
    }

    /**
     * `resolveSlotsAndReasoning`. Where nothing given is named under a reserved prefix: every slot still leads to the
     * base its chain ended at, by its values and the recorded origins, and an endless chain stays endless.
     */
    method ResolveSlotsAndReasoning()
      returns (tiers: map<string, ModelSlot>, origins: Origins, slotWarnings: seq<Warning>, roleWarnings: set<Warning>)
      modifies this
      ensures personas.Keys == old(personas).Keys
      ensures StandsFor(old(slots), old(compressorModel), compressorModel)
      ensures StandsFor(old(slots), old(circuitBreakerModel), circuitBreakerModel)
      ensures forall r ::
                r in tiers <==> r in personas && old(personas)[r].model.Slot? && IsTier(old(personas)[r].model.slot)
      ensures forall r :: r in tiers ==> Slot(tiers[r]) == old(personas)[r].model
      ensures var given := Given(old(slots), old(models), old(slotThinking), old(personas));
              NoneReserved(given) ==>
                && (forall s ::
                        KeepsEnd(given.slots, slots, origins, s) && SlotResolved(given, slots, origins, s)
                        && SlotWarned(given, LinksOf(slots, origins), slotWarnings, s))
                && Acyclic(origins) && CopiesMade(given, models, origins)
                && (forall r :: r in personas ==>
                      RoleOutcome(given.slots, given.models, origins, roleWarnings, r, given.personas[r], personas[r]))
    {
      ghost var start := Given(slots, models, slotThinking, personas);
      slots := Defaulted(slots);
      ghost var asked := Given(slots, models, slotThinking, personas);
      tiers := SubstituteReferences();
      ghost var given := Given(slots, models, slotThinking, personas);
      origins, slotWarnings := SynthesiseSlots(given);
      origins, roleWarnings := SynthesisePersonas(given, origins);
      AliasesAsGiven(start.slots);
      if NoneReserved(start) {
        SubstitutedUnreserved(asked, given);
        SameThinking(given, start, models, origins);
        RolesAsAsked(start.slots, given, start.personas, personas, origins, roleWarnings);
        forall s: ModelSlot
          ensures KeepsEnd(start.slots, slots, origins, s) && SlotResolved(start, slots, origins, s)
          ensures SlotWarned(start, LinksOf(slots, origins), slotWarnings, s)
        {
          BeforeSubstitution(start, given, slots, models, origins, slotWarnings, s);
        }
      }
    }
  }

  // ---- what the whole operation promises, said of what it was given --------------------------

  const TIERS: set<Name> := {Slot(Small), Slot(Medium), Slot(Large)}

  /** What a reference to a name becomes: a tier that names a model of its own stands for that model. */
  ghost predicate StandsFor(slots: SlotValues, name: Name, value: Name) {
    if
      && name in TIERS && slots(name.slot).Some?
      && slots(name.slot).value != Model("") && slots(name.slot).value !in TIERS
    then Some(value) == slots(name.slot) else value == name
  }

  ghost predicate StandForBoth(slots: SlotValues, name: Option<Name>, value: Option<Name>) {
    if name.None? then value.None? else value.Some? && StandsFor(slots, name.value, value.value)
  }

  lemma {:induction false} AliasesAsGiven(slots: SlotValues)
    ensures forall name :: StandsFor(slots, name, Substitute(Defaulted(slots), name))
    ensures forall name :: StandForBoth(slots, name, SubstituteIn(Defaulted(slots), name))
  {
  }

  /** The fallback names nothing. */
  ghost predicate FallbackUnset(slots: SlotValues) {
    slots(Fallback) == None || slots(Fallback) == Some(Model(""))
  }

  /**
   * By the slots' values and the recorded origins, the slot leads where its chain led. But a chain that came by an
   * unset fallback now leads where the small slot's did, unless that came by the fallback too: then there is no end.
   */
  ghost predicate KeepsEnd(start: SlotValues, slots: SlotValues, origins: Origins, s: ModelSlot) {
    var was, now := SlotLinks(start), LinksOf(slots, origins);
    if !(FallbackUnset(start) && Reaches(was, Some(Slot(s)), Slot(Fallback))) then
      forall end :: Ends(was, Some(Slot(s)), end) <==> Ends(now, Some(Slot(s)), end)
    else if !Reaches(was, Some(Slot(Small)), Slot(Fallback)) then
      forall end :: Ends(was, Some(Slot(Small)), end) <==> Ends(now, Some(Slot(s)), end)
    else
      forall end :: !Ends(now, Some(Slot(s)), end)
  }

  /** The slot holds its own copy, or else what was under it, the small slot's value for an unset fallback. */
  ghost predicate SlotResolved(given: Given, slots: SlotValues, origins: Origins, s: ModelSlot) {
    var value := if s.Fallback? && FallbackUnset(given.slots) then given.slots(Small) else given.slots(s);
    if given.thinking(s).Some? &&
       exists base :: base in given.models && Ends(LinksOf(slots, origins), Some(Slot(s)), Some(base))
    then slots(s) == Some(StartupCopy(s))
    else if Slot(s) in TIERS then slots(s) == value
    else StandForBoth(given.slots, value, slots(s))
  }

  /** What becomes of a role: its references substituted, and its copy made or its warning given. */
  ghost predicate RoleOutcome(start: SlotValues, models: Models, origins: Origins, warnings: set<Warning>,
      role: string, before: Persona, after: Persona)
  {
    var asks := before.thinking.Some? && !before.thinking.value.Default?;
    && StandForBoth(start, before.summary, after.summary) && StandForBoth(start, before.fallback, after.fallback)
    && after.thinking == (if asks then before.thinking else None)
    && exists model ::
         && StandsFor(start, before.model, model)
         && (if asks && model in models
             then after.model == PersonaCopy(role) && after.model in origins && origins[after.model] == model
             else after.model == model)
         && forall name :: RoleUnconfigured(role, name) in warnings <==> asks && name == model && name !in models
  }

  lemma {:induction false} RolesAsAsked(start: SlotValues, given: Given, before: map<string, Persona>,
      personas: map<string, Persona>, origins: Origins,
                                        warnings: set<Warning>)
    requires RolesDone(given, personas, origins, warnings, {}) && given.personas.Keys == before.Keys
    requires forall r :: r in before ==> given.personas[r] == SubstitutePersona(Defaulted(start), before[r])
    requires forall r :: r in before ==> !Reserved(given.personas[r].model)
    ensures forall r :: r in personas ==> RoleOutcome(start, given.models, origins, warnings, r, before[r], personas[r])
  {
    AliasesAsGiven(start);
    forall r | r in personas ensures RoleOutcome(start, given.models, origins, warnings, r, before[r], personas[r]) {
      assert RoleResolved(given, origins, r, personas[r]) && RoleWarned(given, warnings, r);
      assert StandsFor(start, before[r].model, given.personas[r].model);
    }
  }

  /** What an unset fallback changes: the chains that come by it. */
  lemma {:induction false} DefaultedEnds(start: SlotValues, slots: SlotValues, origins: Origins, s: ModelSlot)
    requires SlotKeepsEnds(Defaulted(start), slots, origins, s)
    ensures KeepsEnd(start, slots, origins, s)
  {
    var was, links := SlotLinks(start), SlotLinks(Defaulted(start));
    if !FallbackUnset(start) {
      assert links == was;
    } else {
      var to := start(Small);
      assert links == was[Slot(Fallback) := to] && to == was[Slot(Small)];
      forall end: Option<Name>
        ensures !Reaches(was, Some(Slot(s)), Slot(Fallback)) ==>
                  (Ends(was, Some(Slot(s)), end) <==> Ends(links, Some(Slot(s)), end))
        ensures Reaches(was, Some(Slot(s)), Slot(Fallback)) && !Reaches(was, Some(Slot(Small)), Slot(Fallback)) ==>
                  (Ends(was, Some(Slot(Small)), end) <==> Ends(links, Some(Slot(s)), end))
        ensures Reaches(was, Some(Slot(s)), Slot(Fallback)) && Reaches(was, Some(Slot(Small)), Slot(Fallback)) ==>
                  !Ends(links, Some(Slot(s)), end)
      {
        DefaultedEnd(start, s, end);
      }
    }
  }

  lemma {:induction false} AsideEnds(links: Links<Name>, a: Name, to: Option<Name>, x: Option<Name>, end: Option<Name>)
    requires a in links && !Reaches(links, x, a)
    ensures Ends(links, x, end) <==> Ends(links[a := to], x, end)
  {
    if Ends(links, x, end) {
      var n: nat :| Walk(links, x, n) == Some(end);
      RelinkedAside(links, a, to, x, n);
    }
    if Ends(links[a := to], x, end) {
      var n: nat :| Walk(links[a := to], x, n) == Some(end);
      RelinkedAside(links, a, to, x, n);
    }
  }

  lemma {:induction false} DefaultedEnd(start: SlotValues, s: ModelSlot, end: Option<Name>)
    requires FallbackUnset(start)
    ensures var was, links, x := SlotLinks(start), SlotLinks(Defaulted(start)), Some(Slot(s));
            var small, fallback := Some(Slot(Small)), Slot(Fallback);
            && (!Reaches(was, x, fallback) ==> (Ends(was, x, end) <==> Ends(links, x, end)))
            && (Reaches(was, x, fallback) && !Reaches(was, small, fallback) ==>
                  (Ends(was, small, end) <==> Ends(links, x, end)))
            && (Reaches(was, x, fallback) && Reaches(was, small, fallback) ==> !Ends(links, x, end))
  {
    var was, x, small, fallback := SlotLinks(start), Some(Slot(s)), Some(Slot(Small)), Slot(Fallback);
    var to := start(Small);
    var links := was[fallback := to];
    assert links == SlotLinks(Defaulted(start)) && to == was[Slot(Small)];
    if !Reaches(was, x, fallback) {
      AsideEnds(was, fallback, to, x, end);
    } else if !Reaches(was, small, fallback) {
      var k: nat :| Leads(was, x, k, Some(fallback));
      RelinkedAlong(was, fallback, to, x, k, end);
      EndsAlong(links, Some(fallback), end);
      EndsAlong(links, small, end);
      AsideEnds(was, fallback, to, small, end);
    } else {
      forall n: nat ensures Walk(links, x, n) == None {
        RelinkedInCircle(was, fallback, Slot(Small), x, n);
      }
    }
  }

  /** By the slots' values and the recorded origins, the slot still leads where its chain led. */
  ghost predicate SlotKeepsEnds(start: SlotValues, slots: SlotValues, origins: Origins, s: ModelSlot) {
    forall end: Option<Name> ::
        Ends(SlotLinks(start), Some(Slot(s)), end) <==> Ends(LinksOf(slots, origins), Some(Slot(s)), end)
  }

  lemma {:induction false} SubstitutedEnds(start: SlotValues, s: ModelSlot)
    ensures forall end ::
              Ends(SlotLinks(start), Some(Slot(s)), end) <==>
              Ends(SlotLinks(SubstituteAll(start, |REFERENCE_SLOTS|)), Some(Slot(s)), end)
  {
    forall end: Option<Name>
      ensures Ends(SlotLinks(start), Some(Slot(s)), end) <==>
              Ends(SlotLinks(SubstituteAll(start, |REFERENCE_SLOTS|)), Some(Slot(s)), end)
    {
      SubstituteAllKeepsEnds(start, |REFERENCE_SLOTS|, Slot(s), end);
    }
  }

  /** What the synthesis says of the substituted slots, said of the slots as they were given. */
  lemma {:induction false} BeforeSubstitution(start: Given, given: Given, slots: SlotValues, models: Models,
      origins: Origins, warnings: seq<Warning>, s: ModelSlot)
    requires given.slots == SubstituteAll(Defaulted(start.slots), |REFERENCE_SLOTS|) && given.models == start.models
    requires given.thinking == start.thinking
    requires Sound(given, slots, models, origins) && SlotMade(given, slots, s)
    requires SlotWarned(given, SlotLinks(given.slots), warnings, s)
    ensures KeepsEnd(start.slots, slots, origins, s) && SlotResolved(start, slots, origins, s)
    ensures SlotWarned(start, LinksOf(slots, origins), warnings, s)
  {
    assert !NameReserved(Slot(s));
    var now := LinksOf(slots, origins);
    assert forall end :: Ends(SlotLinks(given.slots), Some(Slot(s)), end) <==> Ends(now, Some(Slot(s)), end);
    EndsAsSubstituted(start.slots, slots, origins, s);
    DefaultedEnds(start.slots, slots, origins, s);
    ResolvedAsGiven(start, given, slots, origins, s);
    WarnedAsGiven(start, given, SlotLinks(given.slots), now, warnings, s);
  }

  lemma {:induction false} EndsAsSubstituted(start: SlotValues, slots: SlotValues, origins: Origins, s: ModelSlot)
    requires SlotKeepsEnds(SubstituteAll(Defaulted(start), |REFERENCE_SLOTS|), slots, origins, s)
    ensures SlotKeepsEnds(Defaulted(start), slots, origins, s)
  {
    SubstitutedEnds(Defaulted(start), s);
  }

  lemma {:induction false} WarnedAsGiven(start: Given, given: Given, links: Links<Name>, now: Links<Name>,
      warnings: seq<Warning>, s: ModelSlot)
    requires SlotWarned(given, links, warnings, s) && given.thinking == start.thinking && given.models == start.models
    requires forall end :: Ends(links, Some(Slot(s)), end) <==> Ends(now, Some(Slot(s)), end)
    ensures SlotWarned(start, now, warnings, s)
  {
  }

  lemma {:induction false} ResolvedAsGiven(start: Given, given: Given, slots: SlotValues, origins: Origins,
      s: ModelSlot)
    requires given.slots == SubstituteAll(Defaulted(start.slots), |REFERENCE_SLOTS|) && given.models == start.models
    requires given.thinking == start.thinking && SlotMade(given, slots, s)
    requires forall end ::
               Ends(SlotLinks(given.slots), Some(Slot(s)), end) <==> Ends(LinksOf(slots, origins), Some(Slot(s)), end)
    ensures SlotResolved(start, slots, origins, s)
  {
    SubstituteAllIs(Defaulted(start.slots), |REFERENCE_SLOTS|, s);
    assert REFERENCE_SLOTS[..|REFERENCE_SLOTS|] == REFERENCE_SLOTS;
    AliasesAsGiven(start.slots);
    assert EndsConfigured(given.slots, given.models, s) <==>
           exists base :: base in start.models && Ends(LinksOf(slots, origins), Some(Slot(s)), Some(base));
  }

  /** What a copy is made of is the models, the levels and the roles' reasoning alone. */
  lemma {:induction false} SameThinking(a: Given, b: Given, models: Models, origins: Origins)
    requires CopiesMade(a, models, origins) && a.models == b.models && a.thinking == b.thinking
    requires a.personas.Keys == b.personas.Keys
    requires forall r :: r in a.personas ==> a.personas[r].thinking == b.personas[r].thinking
    ensures CopiesMade(b, models, origins)
  {
    forall n: Name ensures ModelMade(b, models, origins, n) { assert ModelMade(a, models, origins, n); }
  }

  lemma {:induction false} SubstitutedSlotsUnreserved(slots: SlotValues, n: nat)
    requires n <= |REFERENCE_SLOTS| && forall s :: slots(s).Some? ==> !Reserved(slots(s).value)
    ensures forall s :: SubstituteAll(slots, n)(s).Some? ==> !Reserved(SubstituteAll(slots, n)(s).value)
  {
    if n > 0 {
      SubstitutedSlotsUnreserved(slots, n - 1);
    }
  }

  lemma {:induction false} SubstitutedUnreserved(asked: Given, given: Given)
    requires NoneReserved(asked) && given.slots == SubstituteAll(asked.slots, |REFERENCE_SLOTS|)
    requires given.models == asked.models
    requires given.personas.Keys == asked.personas.Keys
    requires forall r :: r in asked.personas ==> given.personas[r] == SubstitutePersona(asked.slots, asked.personas[r])
    ensures NoneReserved(given)
  {
    SubstitutedSlotsUnreserved(asked.slots, |REFERENCE_SLOTS|);
  }

  /** A name that is no copy is its own origin. */
  lemma {:induction false} OwnOrigin(origins: Origins, name: Name, origin: Name)
    requires name !in origins
    requires origin !in origins ==> Ends(OriginLinks(origins), Some(name), Some(origin))
    requires origin in origins ==> forall n: nat :: Walk(OriginLinks(origins), Some(name), n) == None
    ensures origin == name
  {
    assert Walk(OriginLinks(origins), Some(name), 0) == Some(Some(name));
    if origin !in origins {
      OneEnd(OriginLinks(origins), Some(name), Some(name), Some(origin));
    }
  }
}
