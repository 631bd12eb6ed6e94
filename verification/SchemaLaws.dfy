/**
 * The rewrite only widens. With every pattern readable it changes no verdict; with some pattern dropped and no keyword
 * that is not monotone, whatever the schema accepts the rewritten schema accepts, with at least as much evaluated.
 */
module SchemaLaws {
  import opened SchemaRewrite
  import opened SchemaMeaning
  import opened Wrappers

  /** Accepts at least what `v` accepts, with at least as much evaluated. */
  predicate Wider(v: Verdict, w: Verdict) {
    v.Refused? || (w.Accepted? && v.props <= w.props && v.items <= w.items)
  }

  /** How the two verdicts are to compare: the same, or wider. */
  predicate Compares(v: Verdict, w: Verdict, exact: bool) {
    if exact then v == w else Wider(v, w)
  }

  /** When they do: no pattern dropped, or no keyword that is not monotone. */
  predicate Fine<T>(w: Walked<T>, exact: bool) {
    if exact then w.unread == 0 else w.notMonotone.None?
  }

  /** `g` on rewritten schemas compares to `f` on the originals. */
  ghost predicate SubCompares(f: Sub, g: Sub, e: Engine, exact: bool) {
    forall s: Json, i: Json ::
        Fine(WalkNode(s, e.readable), exact) ==> Compares(f(s, i), g(WalkNode(s, e.readable).out, i), exact)
  }

  lemma {:induction false} BothCompares(v: Verdict, w: Verdict, v': Verdict, w': Verdict, exact: bool)
    requires Compares(v, v', exact) && Compares(w, w', exact)
    ensures Compares(Both(v, w), Both(v', w'), exact)
    ensures Compares(Either(v, w), Either(v', w'), exact)
  {
  }

  // ---- the rewrite keeps what the meaning looks up -----------------------------------------

  lemma {:induction false} GetSnoc(members: seq<Member>, m: Member, k: Keyword)
    ensures Get(members + [m], k) ==
            if Get(members, k).Some? then Get(members, k) else if KeywordOf(m.key) == k then Some(m.value) else None
  {
    assert (members + [m])[..|members|] == members;
  }

  lemma {:induction false} GetRewritten(members: seq<Member>, k: Keyword, e: Engine)
    requires !k.Pattern? && !k.Async?
    ensures var found := Get(WalkMembers(members, e.readable).out, k);
            match Get(members, k)
            case None => found == None
            case Some(v) => found == Some(WalkValue(k, v, e.readable).out)
  {
    if members != [] {
      var before, m := members[..|members| - 1], members[|members| - 1];
      GetRewritten(before, k, e);
      if !Dropped(m, e.readable) {
        GetSnoc(WalkMembers(before, e.readable).out,
          Member(m.key, WalkValue(KeywordOf(m.key), m.value, e.readable).out), k);
      }
    }
  }

  lemma {:induction false} GetFine(members: seq<Member>, k: Keyword, e: Engine, exact: bool)
    requires !k.Pattern? && !k.Async? && Fine(WalkMembers(members, e.readable), exact)
    ensures Get(members, k).Some? ==> Fine(WalkValue(k, Get(members, k).value, e.readable), exact)
  {
    if members != [] {
      GetFine(members[..|members| - 1], k, e, exact);
    }
  }

  lemma {:induction false} MonotoneHoldsNone(members: seq<Member>, k: Keyword, e: Engine)
    requires WalkMembers(members, e.readable).notMonotone.None? && NotMonotone(k)
    ensures Get(members, k) == None
  {
    if members != [] {
      MonotoneHoldsNone(members[..|members| - 1], k, e);
    }
  }

  lemma {:induction false} LookupRewritten(members: seq<Member>, key: string, e: Engine, exact: bool)
    ensures var w := WalkMap(members, e.readable);
            match Lookup(members, key)
            case None => Lookup(w.out, key) == None
            case Some(v) =>
              Lookup(w.out, key) == Some(WalkNode(v, e.readable).out)
              && (Fine(w, exact) ==> Fine(WalkNode(v, e.readable), exact))
  {
    if members != [] {
      var before, m := members[..|members| - 1], members[|members| - 1];
      LookupRewritten(before, key, e, exact);
      var out := WalkMap(before, e.readable).out;
      assert (out + [Member(m.key, WalkNode(m.value, e.readable).out)])[..|out|] == out;
    }
  }

  lemma {:induction false} ListRewritten(items: seq<Json>, i: nat, e: Engine, exact: bool)
    requires i < |items|
    ensures |WalkList(items, e.readable).out| == |items|
    ensures WalkList(items, e.readable).out[i] == WalkNode(items[i], e.readable).out
    ensures Fine(WalkList(items, e.readable), exact) ==> Fine(WalkNode(items[i], e.readable), exact)
  {
    var before := items[..|items| - 1];
    ListLength(before, e);
    if i < |before| {
      ListRewritten(before, i, e, exact);
    }
  }

  lemma {:induction false} ListLength(items: seq<Json>, e: Engine)
    ensures |WalkList(items, e.readable).out| == |items|
  {
    if items != [] {
      ListLength(items[..|items| - 1], e);
    }
  }

  lemma {:induction false} ListValue(k: Keyword, items: seq<Json>, e: Engine, exact: bool)
    requires HoldsList(k)
    ensures WalkValue(k, JArray(items), e.readable).out == JArray(WalkList(items, e.readable).out)
    ensures Fine(WalkValue(k, JArray(items), e.readable), exact) == Fine(WalkList(items, e.readable), exact)
  {
  }

  lemma {:induction false} MapValue(k: Keyword, those: seq<Member>, e: Engine, exact: bool)
    requires HoldsMap(k)
    ensures WalkValue(k, JObject(those), e.readable).out == JObject(WalkMap(those, e.readable).out)
    ensures Fine(WalkValue(k, JObject(those), e.readable), exact) == Fine(WalkMap(those, e.readable), exact)
  {
  }

  lemma {:induction false} ResolveRewritten(node: Json, hops: seq<Hop>, e: Engine, exact: bool)
    requires Fine(WalkNode(node, e.readable), exact)
    ensures SameBelow(Resolve(node, hops), Resolve(WalkNode(node, e.readable).out, hops), e, exact)
    decreases |hops|, 3
  {
    if hops != [] && node.JObject? {
      var k := hops[0].k;
      if (hops[0].Under? && HoldsSchema(k)) || (hops[0].Named? && HoldsMap(k)) || (hops[0].Nth? && HoldsList(k)) {
        GetRewritten(node.members, k, e);
        GetFine(node.members, k, e, exact);
        if Get(node.members, k).Some? {
          HopRewritten(Get(node.members, k).value, hops, e, exact);
        }
      }
    }
  }

  /** What `Resolve` makes of a keyword's value, by the first hop. */
  function HopFrom(value: Json, hops: seq<Hop>): Option<Json>
    requires hops != []
  {
    match hops[0]
    case Under(k) => if HoldsSchema(k) then Resolve(value, hops[1..]) else None
    case Named(k, name) =>
      if HoldsMap(k) && value.JObject? && Lookup(value.members, name).Some?
        then Resolve(Lookup(value.members, name).value, hops[1..]) else None
    case Nth(k, i) =>
      if HoldsList(k) && value.JArray? && i < |value.items| then Resolve(value.items[i], hops[1..]) else None
  }

  lemma {:induction false} HopRewritten(value: Json, hops: seq<Hop>, e: Engine, exact: bool)
    requires hops != [] && Fine(WalkValue(hops[0].k, value, e.readable), exact)
    ensures SameBelow(HopFrom(value, hops), HopFrom(WalkValue(hops[0].k, value, e.readable).out, hops), e, exact)
    decreases |hops|, 2
  {
    var k := hops[0].k;
    match hops[0] {
      case Under(_) => if HoldsSchema(k) { ResolveRewritten(value, hops[1..], e, exact); }
      case Named(_, name) =>
        if HoldsMap(k) && value.JObject? {
          assert value == JObject(value.members);
          MapValue(k, value.members, e, exact);
          NamedRewritten(value.members, name, hops[1..], e, exact);
        }
      case Nth(_, i) =>
        if HoldsList(k) && value.JArray? {
          assert value == JArray(value.items);
          ListValue(k, value.items, e, exact);
          NthRewritten(value.items, i, hops[1..], e, exact);
        }
    }
  }

  lemma {:induction false} NamedRewritten(members: seq<Member>, name: string, hops: seq<Hop>, e: Engine, exact: bool)
    requires Fine(WalkMap(members, e.readable), exact)
    ensures var a, b := Lookup(members, name), Lookup(WalkMap(members, e.readable).out, name);
            && (a.None? <==> b.None?)
            && (a.Some? ==> SameBelow(Resolve(a.value, hops), Resolve(b.value, hops), e, exact))
    decreases |hops|, 4
  {
    LookupRewritten(members, name, e, exact);
    if Lookup(members, name).Some? {
      ResolveRewritten(Lookup(members, name).value, hops, e, exact);
    }
  }

  lemma {:induction false} NthRewritten(items: seq<Json>, i: nat, hops: seq<Hop>, e: Engine, exact: bool)
    requires Fine(WalkList(items, e.readable), exact)
    ensures var out := WalkList(items, e.readable).out;
            && |out| == |items|
            && (i < |items| ==> SameBelow(Resolve(items[i], hops), Resolve(out[i], hops), e, exact))
    decreases |hops|, 4
  {
    ListLength(items, e);
    if i < |items| {
      ListRewritten(items, i, e, exact);
      ResolveRewritten(items[i], hops, e, exact);
    }
  }

  predicate SameBelow(a: Option<Json>, b: Option<Json>, e: Engine, exact: bool) {
    match a
    case None => b == None
    case Some(target) => b == Some(WalkNode(target, e.readable).out) && Fine(WalkNode(target, e.readable), exact)
  }

  // ---- the applicators, one by one ---------------------------------------------------------

  lemma {:induction false} UseSub(f: Sub, g: Sub, s: Json, i: Json, e: Engine, exact: bool)
    requires SubCompares(f, g, e, exact) && Fine(WalkNode(s, e.readable), exact)
    ensures Compares(f(s, i), g(WalkNode(s, e.readable).out, i), exact)
  {
  }

  lemma {:induction false} ListsCompare(list: seq<Json>, inst: Json, f: Sub, g: Sub, e: Engine, exact: bool)
    requires SubCompares(f, g, e, exact) && Fine(WalkList(list, e.readable), exact)
    ensures Compares(AllOfList(list, inst, f), AllOfList(WalkList(list, e.readable).out, inst, g), exact)
    ensures Compares(AnyOfList(list, inst, f), AnyOfList(WalkList(list, e.readable).out, inst, g), exact)
    ensures exact ==> Matching(list, inst, f) == Matching(WalkList(list, e.readable).out, inst, g)
  {
    if list != [] {
      var before, last := list[..|list| - 1], list[|list| - 1];
      ListsCompare(before, inst, f, g, e, exact);
      UseSub(f, g, last, inst, e, exact);
      var out, one := WalkList(before, e.readable).out, WalkNode(last, e.readable).out;
      assert (out + [one])[..|out|] == out;
      BothCompares(AllOfList(before, inst, f), f(last, inst), AllOfList(out, inst, g), g(one, inst), exact);
      BothCompares(AnyOfList(before, inst, f), f(last, inst), AnyOfList(out, inst, g), g(one, inst), exact);
    }
  }

  lemma {:induction false} NamesCompare(s: Json, names: set<string>, inst: Json, f: Sub, g: Sub, e: Engine, exact: bool)
    requires SubCompares(f, g, e, exact) && Fine(WalkNode(s, e.readable), exact)
    ensures Compares(NamesUnder(s, names, inst, f), NamesUnder(WalkNode(s, e.readable).out, names, inst, g), exact)
  {
    forall name | name in names
      ensures Compares(f(s, ValueOf(inst, name)), g(WalkNode(s, e.readable).out, ValueOf(inst, name)), exact)
    {
      UseSub(f, g, s, ValueOf(inst, name), e, exact);
    }
  }

  lemma {:induction false} ItemsCompare(s: Json, at: set<nat>, inst: Json, f: Sub, g: Sub, e: Engine, exact: bool)
    requires SubCompares(f, g, e, exact) && Fine(WalkNode(s, e.readable), exact)
    ensures Compares(ItemsUnder(s, at, inst, f), ItemsUnder(WalkNode(s, e.readable).out, at, inst, g), exact)
  {
    forall i | i in at
      ensures Compares(f(s, ItemAt(inst, i)), g(WalkNode(s, e.readable).out, ItemAt(inst, i)), exact)
    {
      UseSub(f, g, s, ItemAt(inst, i), e, exact);
    }
  }

  lemma {:induction false} PrefixCompares(list: seq<Json>, inst: Json, f: Sub, g: Sub, e: Engine, exact: bool)
    requires SubCompares(f, g, e, exact) && Fine(WalkList(list, e.readable), exact)
    ensures Compares(PrefixUnder(list, inst, f), PrefixUnder(WalkList(list, e.readable).out, inst, g), exact)
  {
    if list != [] {
      var before, last := list[..|list| - 1], list[|list| - 1];
      var n := |list| - 1;
      PrefixCompares(before, inst, f, g, e, exact);
      ListLength(before, e);
      var out, one := WalkList(before, e.readable).out, WalkNode(last, e.readable).out;
      assert (out + [one])[..|out|] == out;
      ItemsCompare(last, {n}, inst, f, g, e, exact);
      BothCompares(PrefixUnder(before, inst, f), ItemsUnder(last, {n}, inst, f), PrefixUnder(out, inst, g),
        ItemsUnder(one, {n}, inst, g), exact);
    }
  }

  lemma {:induction false} PropertiesCompare(members: seq<Member>, inst: Json, f: Sub, g: Sub, e: Engine, exact: bool)
    requires SubCompares(f, g, e, exact) && Fine(WalkMap(members, e.readable), exact)
    ensures Compares(PropertiesUnder(members, inst, f), PropertiesUnder(WalkMap(members, e.readable).out, inst, g),
                     exact)
  {
    if members != [] {
      var before, m := members[..|members| - 1], members[|members| - 1];
      PropertiesCompare(before, inst, f, g, e, exact);
      var out, one := WalkMap(before, e.readable).out, WalkNode(m.value, e.readable).out;
      assert (out + [Member(m.key, one)])[..|out|] == out;
      NamesCompare(m.value, {m.key}, inst, f, g, e, exact);
      BothCompares(PropertiesUnder(before, inst, f), NamesUnder(m.value, {m.key}, inst, f),
                   PropertiesUnder(out, inst, g), NamesUnder(one, {m.key}, inst, g), exact);
    }
  }

  lemma {:induction false} PatternsCompare(members: seq<Member>, inst: Json, f: Sub, g: Sub, e: Engine, exact: bool)
    requires SubCompares(f, g, e, exact) && Fine(WalkMap(members, e.readable), exact)
    ensures Compares(PatternsUnder(members, inst, f, e), PatternsUnder(WalkMap(members, e.readable).out, inst, g, e),
                     exact)
  {
    if members != [] {
      var before, m := members[..|members| - 1], members[|members| - 1];
      PatternsCompare(before, inst, f, g, e, exact);
      var out, one := WalkMap(before, e.readable).out, WalkNode(m.value, e.readable).out;
      var names := NamesMatching(m.key, inst, e);
      assert (out + [Member(m.key, one)])[..|out|] == out;
      NamesCompare(m.value, names, inst, f, g, e, exact);
      BothCompares(PatternsUnder(before, inst, f, e), NamesUnder(m.value, names, inst, f),
                   PatternsUnder(out, inst, g, e), NamesUnder(one, names, inst, g), exact);
    }
  }

  lemma {:induction false} NamesPresentRewritten(list: seq<Json>, inst: Json, e: Engine)
    ensures NamesPresent(list, inst) <==> NamesPresent(WalkList(list, e.readable).out, inst)
  {
    ListLength(list, e);
    var out := WalkList(list, e.readable).out;
    forall i | 0 <= i < |list|
      ensures (list[i].JString? <==> out[i].JString?) && (list[i].JString? ==> out[i] == list[i])
    {
      ListRewritten(list, i, e, true);
    }
  }

  lemma {:induction false} DependentCompares(members: seq<Member>, inst: Json, f: Sub, g: Sub, lists: bool, e: Engine,
      exact: bool)
    requires SubCompares(f, g, e, exact) && Fine(WalkMap(members, e.readable), exact)
    ensures Compares(DependentUnder(members, inst, f, lists),
                     DependentUnder(WalkMap(members, e.readable).out, inst, g, lists), exact)
  {
    if members != [] {
      var before, m := members[..|members| - 1], members[|members| - 1];
      DependentCompares(before, inst, f, g, lists, e, exact);
      var out, one := WalkMap(before, e.readable).out, WalkNode(m.value, e.readable).out;
      assert (out + [Member(m.key, one)])[..|out|] == out;
      var v, v' := DependentUnder(before, inst, f, lists), DependentUnder(out, inst, g, lists);
      if lists && m.value.JArray? {
        NamesPresentRewritten(m.value.items, inst, e);
        var listed := if NamesPresent(m.value.items, inst) then Nothing else Refused;
        BothCompares(v, listed, v', listed, exact);
      } else {
        UseSub(f, g, m.value, inst, e, exact);
        BothCompares(v, f(m.value, inst), v', g(one, inst), exact);
      }
    }
  }

  // ---- what depends on the sibling keywords ------------------------------------------------

  lemma {:induction false} KeysRewritten(members: seq<Member>, e: Engine)
    ensures Keys(WalkMap(members, e.readable).out) == Keys(members)
  {
    if members != [] {
      var before, m := members[..|members| - 1], members[|members| - 1];
      KeysRewritten(before, e);
      KeysSnoc(before, m);
      KeysSnoc(WalkMap(before, e.readable).out, Member(m.key, WalkNode(m.value, e.readable).out));
      assert before + [m] == members;
    }
  }

  lemma {:induction false} MatchingRewritten(members: seq<Member>, inst: Json, e: Engine)
    ensures NamesMatchingSome(WalkMap(members, e.readable).out, inst, e) == NamesMatchingSome(members, inst, e)
  {
    if members != [] {
      var before, m := members[..|members| - 1], members[|members| - 1];
      MatchingRewritten(before, inst, e);
      MatchingSnoc(before, m, inst, e);
      MatchingSnoc(WalkMap(before, e.readable).out, Member(m.key, WalkNode(m.value, e.readable).out), inst, e);
      assert before + [m] == members;
    }
  }

  lemma {:induction false} MatchingSnoc(members: seq<Member>, m: Member, inst: Json, e: Engine)
    ensures NamesMatchingSome(members + [m], inst, e) ==
            NamesMatchingSome(members, inst, e) + NamesMatching(m.key, inst, e)
  {
    assert (members + [m])[..|members|] == members;
  }

  lemma {:induction false} KeysSnoc(members: seq<Member>, m: Member)
    ensures Keys(members + [m]) == Keys(members) + {m.key}
  {
    var all := members + [m];
    assert all[|members|].key == m.key;
    assert forall i :: 0 <= i < |members| ==> all[i].key == members[i].key;
  }

  lemma {:induction false} MapRewritten(members: seq<Member>, k: Keyword, inst: Json, e: Engine)
    requires HoldsMap(k)
    ensures var v, w := Get(members, k), Get(WalkMembers(members, e.readable).out, k);
            && (v.None? <==> w.None?)
            && (v.Some? ==> (v.value.JObject? <==> w.value.JObject?))
            && (v.Some? && v.value.JObject? ==>
                  && Keys(v.value.members) == Keys(w.value.members)
                  && NamesMatchingSome(v.value.members, inst, e) == NamesMatchingSome(w.value.members, inst, e))
  {
    GetRewritten(members, k, e);
    if Get(members, k).Some? {
      var value := Get(members, k).value;
      if value.JObject? {
        assert value == JObject(value.members);
        MapValue(k, value.members, e, true);
        KeysRewritten(value.members, e);
        MatchingRewritten(value.members, inst, e);
      }
    }
  }

  lemma {:induction false} GovernedRewritten(members: seq<Member>, inst: Json, e: Engine)
    ensures Governed(WalkMembers(members, e.readable).out, inst, e) == Governed(members, inst, e)
  {
    MapRewritten(members, Properties, inst, e);
    MapRewritten(members, PatternProperties, inst, e);
  }

  lemma {:induction false} PrefixLengthRewritten(members: seq<Member>, e: Engine)
    ensures PrefixLength(WalkMembers(members, e.readable).out) == PrefixLength(members)
  {
    GetRewritten(members, PrefixItems, e);
    if Get(members, PrefixItems).Some? {
      var value := Get(members, PrefixItems).value;
      if value.JArray? {
        assert value == JArray(value.items);
        ListValue(PrefixItems, value.items, e, true);
        ListLength(value.items, e);
      }
    }
  }

  lemma {:induction false} HoldingCompares(s: Json, inst: Json, f: Sub, g: Sub, e: Engine, exact: bool)
    requires SubCompares(f, g, e, exact) && Fine(WalkNode(s, e.readable), exact)
    ensures var v, w := Holding(s, inst, f), Holding(WalkNode(s, e.readable).out, inst, g);
            (if exact then v == w else v <= w) && |v| <= |w|
  {
    var s' := WalkNode(s, e.readable).out;
    forall i | i in Span(0, Length(inst)) ensures Compares(f(s, ItemAt(inst, i)), g(s', ItemAt(inst, i)), exact) {
      UseSub(f, g, s, ItemAt(inst, i), e, exact);
    }
    if exact {
      assert Holding(s, inst, f) == Holding(s', inst, g);
    } else {
      SubsetSize(Holding(s, inst, f), Holding(s', inst, g));
    }
  }

  lemma {:induction false} LimitValue(k: Keyword, value: Json, e: Engine)
    requires k.MinContains? || k.MaxContains?
    ensures WalkValue(k, value, e.readable).out == value
  {
  }

  lemma {:induction false} LimitRewritten(members: seq<Member>, k: Keyword, e: Engine)
    requires k.MinContains? || k.MaxContains?
    ensures Get(WalkMembers(members, e.readable).out, k) == Get(members, k)
  {
    GetRewritten(members, k, e);
    var found := Get(members, k);
    if found.Some? {
      LimitValue(k, found.value, e);
    }
  }

  lemma {:induction false} CountsRewritten(members: seq<Member>, count: nat, more: nat, e: Engine, exact: bool)
    requires Fine(WalkMembers(members, e.readable), exact) && (if exact then count == more else count <= more)
    ensures var v, w := CountWithin(members, count), CountWithin(WalkMembers(members, e.readable).out, more);
            if exact then v == w else v ==> w
  {
    LimitRewritten(members, MinContains, e);
    LimitRewritten(members, MaxContains, e);
    if !exact {
      MonotoneHoldsNone(members, MaxContains, e);
    }
  }

  /** More items match, and nothing bounds them from above. */
  lemma {:induction false} ContainsCompares(s: Json, members: seq<Member>, inst: Json, f: Sub, g: Sub, e: Engine,
      exact: bool)
    requires SubCompares(f, g, e, exact) && Fine(WalkNode(s, e.readable), exact)
    requires Fine(WalkMembers(members, e.readable), exact)
    ensures Compares(ContainsUnder(s, members, inst, f),
                     ContainsUnder(WalkNode(s, e.readable).out, WalkMembers(members, e.readable).out, inst, g), exact)
  {
    HoldingCompares(s, inst, f, g, e, exact);
    CountsRewritten(members, |Holding(s, inst, f)|, |Holding(WalkNode(s, e.readable).out, inst, g)|, e, exact);
  }

  lemma {:induction false} BranchCompares(members: seq<Member>, k: Keyword, inst: Json, f: Sub, g: Sub, e: Engine,
      exact: bool)
    requires HoldsSchema(k) && SubCompares(f, g, e, exact) && Fine(WalkMembers(members, e.readable), exact)
    ensures Compares(Branch(members, k, inst, f), Branch(WalkMembers(members, e.readable).out, k, inst, g), exact)
  {
    GetRewritten(members, k, e);
    GetFine(members, k, e, exact);
    if Get(members, k).Some? {
      UseSub(f, g, Get(members, k).value, inst, e, exact);
    }
  }

  lemma {:induction false} PropertyNamesCompare(s: Json, inst: Json, f: Sub, g: Sub, e: Engine, exact: bool)
    requires SubCompares(f, g, e, exact) && Fine(WalkNode(s, e.readable), exact)
    ensures var s' := WalkNode(s, e.readable).out;
            var v := forall name :: name in Names(inst) ==> f(s, JString(name)).Accepted?;
            var w := forall name :: name in Names(inst) ==> g(s', JString(name)).Accepted?;
            if exact then v == w else (v ==> w)
  {
    forall name | name in Names(inst)
      ensures Compares(f(s, JString(name)), g(WalkNode(s, e.readable).out, JString(name)), exact)
    {
      UseSub(f, g, s, JString(name), e, exact);
    }
  }

  lemma {:induction false} ReferredCompares(reference: string, root: Json, inst: Json, f: Sub, g: Sub, e: Engine,
      exact: bool)
    requires SubCompares(f, g, e, exact) && Fine(WalkNode(root, e.readable), exact)
    ensures Compares(Referred(reference, root, inst, f, e),
                     Referred(reference, WalkNode(root, e.readable).out, inst, g, e), exact)
  {
    match e.route(reference) {
      case None =>
      case Some(hops) =>
        ResolveRewritten(root, hops, e, exact);
        if Resolve(root, hops).Some? {
          UseSub(f, g, Resolve(root, hops).value, inst, e, exact);
        }
    }
  }

  lemma {:induction false} RestCompares(members: seq<Member>, v: Verdict, w: Verdict, inst: Json, f: Sub, g: Sub,
      e: Engine, exact: bool)
    requires SubCompares(f, g, e, exact) && Fine(WalkMembers(members, e.readable), exact) && Compares(v, w, exact)
    ensures Compares(ApplyUnevaluated(v, members, inst, f),
                     ApplyUnevaluated(w, WalkMembers(members, e.readable).out, inst, g), exact)
  {
    if v.Accepted? {
      RestOfPropertiesCompares(members, v.props, w.props, inst, f, g, e, exact);
      RestOfItemsCompares(members, v.items, w.items, inst, f, g, e, exact);
    }
  }

  /** What is left for `unevaluatedProperties`: less of it, and all of it evaluated in the end. */
  lemma {:induction false} RestOfPropertiesCompares(members: seq<Member>, done: set<string>, more: set<string>,
      inst: Json, f: Sub, g: Sub, e: Engine, exact: bool)
    requires SubCompares(f, g, e, exact) && Fine(WalkMembers(members, e.readable), exact)
    requires if exact then done == more else done <= more
    ensures var v, w := RestOfProperties(members, done, inst, f),
            RestOfProperties(WalkMembers(members, e.readable).out, more, inst, g);
            if exact then v == w
              else v.Refused? || (w.Accepted? && done + v.props <= more + w.props && v.items == {} == w.items)
  {
    GetRewritten(members, UnevaluatedProperties, e);
    GetFine(members, UnevaluatedProperties, e, exact);
    if Get(members, UnevaluatedProperties).Some? {
      NamesCompare(Get(members, UnevaluatedProperties).value, Names(inst) - done, inst, f, g, e, exact);
    }
  }

  lemma {:induction false} RestOfItemsCompares(members: seq<Member>, done: set<nat>, more: set<nat>, inst: Json,
      f: Sub, g: Sub, e: Engine, exact: bool)
    requires SubCompares(f, g, e, exact) && Fine(WalkMembers(members, e.readable), exact)
    requires if exact then done == more else done <= more
    ensures var v, w := RestOfItems(members, done, inst, f),
            RestOfItems(WalkMembers(members, e.readable).out, more, inst, g);
            if exact then v == w
              else v.Refused? || (w.Accepted? && done + v.items <= more + w.items && v.props == {} == w.props)
  {
    GetRewritten(members, UnevaluatedItems, e);
    GetFine(members, UnevaluatedItems, e, exact);
    if Get(members, UnevaluatedItems).Some? {
      ItemsCompare(Get(members, UnevaluatedItems).value, Span(0, Length(inst)) - done, inst, f, g, e, exact);
    }
  }

  // ---- every keyword, every schema, every depth --------------------------------------------

  lemma {:induction false} ApplyListCompares(k: Keyword, value: Json, members: seq<Member>, root: Json, inst: Json,
      f: Sub, g: Sub, e: Engine, exact: bool)
    requires HoldsList(k) && SubCompares(f, g, e, exact) && Fine(WalkNode(root, e.readable), exact)
    requires Fine(WalkMembers(members, e.readable), exact)
    requires Fine(WalkValue(k, value, e.readable), exact) && (exact || !NotMonotone(k))
    ensures Compares(Apply(k, value, members, root, inst, f, e),
                     Apply(k, WalkValue(k, value, e.readable).out, WalkMembers(members, e.readable).out,
                       WalkNode(root, e.readable).out, inst, g, e), exact)
  {
    if value.JArray? {
      assert value == JArray(value.items);
      ListValue(k, value.items, e, exact);
      if k.PrefixItems? {
        PrefixCompares(value.items, inst, f, g, e, exact);
      } else {
        ListsCompare(value.items, inst, f, g, e, exact);
      }
    }
  }

  lemma {:induction false} ApplyNamesCompare(k: Keyword, those: seq<Member>, members: seq<Member>, root: Json,
      inst: Json, f: Sub, g: Sub, e: Engine, exact: bool)
    requires k.Properties? || k.PatternProperties?
    requires SubCompares(f, g, e, exact) && Fine(WalkMap(those, e.readable), exact)
    ensures Compares(Apply(k, JObject(those), members, root, inst, f, e),
                     Apply(k, JObject(WalkMap(those, e.readable).out), WalkMembers(members, e.readable).out,
                       WalkNode(root, e.readable).out, inst, g, e), exact)
  {
    if k.Properties? {
      PropertiesCompare(those, inst, f, g, e, exact);
    } else {
      PatternsCompare(those, inst, f, g, e, exact);
    }
  }

  lemma {:induction false} ApplyDependentsCompare(k: Keyword, those: seq<Member>, members: seq<Member>, root: Json,
      inst: Json, f: Sub, g: Sub, e: Engine, exact: bool)
    requires k.DependentSchemas? || k.Dependencies?
    requires SubCompares(f, g, e, exact) && Fine(WalkMap(those, e.readable), exact)
    ensures Compares(Apply(k, JObject(those), members, root, inst, f, e),
                     Apply(k, JObject(WalkMap(those, e.readable).out), WalkMembers(members, e.readable).out,
                       WalkNode(root, e.readable).out, inst, g, e), exact)
  {
    DependentCompares(those, inst, f, g, k.Dependencies?, e, exact);
  }

  lemma {:induction false} ApplyMapCompares(k: Keyword, value: Json, members: seq<Member>, root: Json, inst: Json,
      f: Sub, g: Sub, e: Engine, exact: bool)
    requires HoldsMap(k) && SubCompares(f, g, e, exact) && Fine(WalkNode(root, e.readable), exact)
    requires Fine(WalkMembers(members, e.readable), exact)
    requires Fine(WalkValue(k, value, e.readable), exact) && (exact || !NotMonotone(k))
    ensures Compares(Apply(k, value, members, root, inst, f, e),
                     Apply(k, WalkValue(k, value, e.readable).out, WalkMembers(members, e.readable).out,
                       WalkNode(root, e.readable).out, inst, g, e), exact)
  {
    if value.JObject? {
      assert value == JObject(value.members);
      MapValue(k, value.members, e, exact);
      if k.Properties? || k.PatternProperties? {
        ApplyNamesCompare(k, value.members, members, root, inst, f, g, e, exact);
      } else if k.DependentSchemas? || k.Dependencies? {
        ApplyDependentsCompare(k, value.members, members, root, inst, f, g, e, exact);
      }
    }
  }

  lemma {:induction false} ApplySchemaCompares(k: Keyword, value: Json, members: seq<Member>, root: Json, inst: Json,
      f: Sub, g: Sub, e: Engine, exact: bool)
    requires HoldsSchema(k) && SubCompares(f, g, e, exact) && Fine(WalkNode(root, e.readable), exact)
    requires Fine(WalkMembers(members, e.readable), exact)
    requires Fine(WalkValue(k, value, e.readable), exact) && (exact || !NotMonotone(k))
    ensures Compares(Apply(k, value, members, root, inst, f, e),
                     Apply(k, WalkValue(k, value, e.readable).out, WalkMembers(members, e.readable).out,
                       WalkNode(root, e.readable).out, inst, g, e), exact)
  {
    match k {
      case Not => UseSub(f, g, value, inst, e, exact);
      case If =>
        UseSub(f, g, value, inst, e, exact);
        BranchCompares(members, Then, inst, f, g, e, exact);
        BranchCompares(members, Else, inst, f, g, e, exact);
      case Items =>
        PrefixLengthRewritten(members, e);
        ItemsCompare(value, Span(PrefixLength(members), Length(inst)), inst, f, g, e, exact);
      case Contains => ContainsCompares(value, members, inst, f, g, e, exact);
      case AdditionalProperties =>
        GovernedRewritten(members, inst, e);
        NamesCompare(value, Names(inst) - Governed(members, inst, e), inst, f, g, e, exact);
      case PropertyNames => PropertyNamesCompare(value, inst, f, g, e, exact);
      case _ =>
    }
  }

  lemma {:induction false} ApplyCompares(k: Keyword, value: Json, members: seq<Member>, root: Json, inst: Json,
      f: Sub, g: Sub, e: Engine, exact: bool)
    requires SubCompares(f, g, e, exact) && Fine(WalkNode(root, e.readable), exact)
    requires Fine(WalkMembers(members, e.readable), exact)
    requires Fine(WalkValue(k, value, e.readable), exact) && (exact || !NotMonotone(k))
    ensures Compares(Apply(k, value, members, root, inst, f, e),
                     Apply(k, WalkValue(k, value, e.readable).out, WalkMembers(members, e.readable).out,
                       WalkNode(root, e.readable).out, inst, g, e), exact)
  {
    if HoldsList(k) {
      ApplyListCompares(k, value, members, root, inst, f, g, e, exact);
    } else if HoldsMap(k) {
      ApplyMapCompares(k, value, members, root, inst, f, g, e, exact);
    } else if HoldsSchema(k) {
      ApplySchemaCompares(k, value, members, root, inst, f, g, e, exact);
    } else if k.Reference? && value.JString? {
      ReferredCompares(value.text, root, inst, f, g, e, exact);
    }
  }

  lemma {:induction false} ApplyAllCompares(some: seq<Member>, members: seq<Member>, root: Json, inst: Json, f: Sub,
      g: Sub, e: Engine, exact: bool)
    requires SubCompares(f, g, e, exact) && Fine(WalkNode(root, e.readable), exact)
    requires Fine(WalkMembers(members, e.readable), exact)
    requires Fine(WalkMembers(some, e.readable), exact)
    ensures Compares(ApplyAll(some, members, root, inst, f, e),
                     ApplyAll(WalkMembers(some, e.readable).out, WalkMembers(members, e.readable).out,
                       WalkNode(root, e.readable).out, inst, g, e), exact)
  {
    if some != [] {
      var before, m := some[..|some| - 1], some[|some| - 1];
      var k := KeywordOf(m.key);
      ApplyAllCompares(before, members, root, inst, f, g, e, exact);
      var members', root' := WalkMembers(members, e.readable).out, WalkNode(root, e.readable).out;
      var out := WalkMembers(before, e.readable).out;
      var v, v' := ApplyAll(before, members, root, inst, f, e), ApplyAll(out, members', root', inst, g, e);
      if Dropped(m, e.readable) {
        DroppedWidens(m, v, members, root, inst, f, e, exact);
      } else {
        var last := Member(m.key, WalkValue(k, m.value, e.readable).out);
        assert (out + [last])[..|out|] == out;
        ApplyCompares(k, m.value, members, root, inst, f, g, e, exact);
        BothCompares(v, Apply(k, m.value, members, root, inst, f, e), v',
          Apply(k, last.value, members', root', inst, g, e), exact);
      }
    }
  }

  /** What is dropped evaluated nothing, and `$async` refused nothing. */
  lemma {:induction false} DroppedWidens(m: Member, v: Verdict, members: seq<Member>, root: Json, inst: Json, f: Sub,
      e: Engine, exact: bool)
    requires Dropped(m, e.readable) && (exact ==> KeywordOf(m.key).Async?)
    ensures Compares(Both(v, Apply(KeywordOf(m.key), m.value, members, root, inst, f, e)), v, exact)
  {
  }

  lemma {:induction false} NodeCompares(root: Json, schema: Json, inst: Json, f: Sub, g: Sub, e: Engine, exact: bool)
    requires SubCompares(f, g, e, exact) && Fine(WalkNode(root, e.readable), exact)
    requires Fine(WalkNode(schema, e.readable), exact)
    ensures Compares(AtNode(root, schema, inst, f, e),
                     AtNode(WalkNode(root, e.readable).out, WalkNode(schema, e.readable).out, inst, g, e), exact)
  {
    if schema.JObject? {
      var members := schema.members;
      ApplyAllCompares(members, members, root, inst, f, g, e, exact);
      RestCompares(members, ApplyAll(members, members, root, inst, f, e),
                   ApplyAll(WalkMembers(members, e.readable).out, WalkMembers(members, e.readable).out,
                     WalkNode(root, e.readable).out, inst, g, e),
                   inst, f, g, e, exact);
    }
  }

  lemma {:induction false} RewriteCompares(n: nat, root: Json, schema: Json, inst: Json, e: Engine, exact: bool)
    requires Fine(WalkNode(root, e.readable), exact) && Fine(WalkNode(schema, e.readable), exact)
    ensures Compares(Evaluate(n, root, schema, inst, e),
                     Evaluate(n, Rewritten(root, e.readable), Rewritten(schema, e.readable), inst, e), exact)
    decreases n
  {
    if n > 0 {
      var root' := Rewritten(root, e.readable);
      var f: Sub := Deeper(n - 1, root, e);
      var g: Sub := Deeper(n - 1, root', e);
      forall s: Json, i: Json | Fine(WalkNode(s, e.readable), exact)
        ensures Compares(f(s, i), g(WalkNode(s, e.readable).out, i), exact)
      {
        RewriteCompares(n - 1, root, s, i, e, exact);
      }
      NodeCompares(root, schema, inst, f, g, e, exact);
    }
  }

  /** A schema whose every pattern is readable keeps its meaning: only `$async` goes. */
  lemma {:induction false} ReadableMeansTheSame(n: nat, schema: Json, inst: Json, e: Engine)
    requires WalkNode(schema, e.readable).unread == 0
    ensures var out := Rewritten(schema, e.readable);
            Evaluate(n, out, out, inst, e) == Evaluate(n, schema, schema, inst, e)
  {
    RewriteCompares(n, schema, schema, inst, e, true);
  }

  /** Without `not`, `oneOf`, `if` and `maxContains`, dropping the unreadable patterns only widens. */
  lemma {:induction false} MonotoneOnlyWidens(n: nat, schema: Json, inst: Json, e: Engine)
    requires WalkNode(schema, e.readable).notMonotone.None?
    ensures var out := Rewritten(schema, e.readable);
            Wider(Evaluate(n, schema, schema, inst, e), Evaluate(n, out, out, inst, e))
  {
    RewriteCompares(n, schema, schema, inst, e, false);
  }

  /** What the check does with a call's arguments: without a schema any object passes. */
  predicate Passes(n: nat, check: Option<Json>, inst: Json, e: Engine) {
    inst.JObject? && (check.Some? ==> Evaluate(n, check.value, check.value, inst, e).Accepted?)
  }

  /**
   * The check never refuses an object the advertised schema accepts, and refuses just the others when it dropped no
   * pattern.
   */
  lemma {:induction false} CheckNeverRefusesMore(n: nat, schema: Json, inst: Json, e: Engine, compiles: Json -> bool)
    requires inst.JObject?
    ensures Evaluate(n, schema, schema, inst, e).Accepted? ==> Passes(n, Checked(schema, e.readable, compiles), inst, e)
    ensures Checked(schema, e.readable, compiles).Some? && WalkNode(schema, e.readable).unread == 0 ==>
              (Passes(n, Checked(schema, e.readable, compiles), inst, e) <==>
                 Evaluate(n, schema, schema, inst, e).Accepted?)
  {
    if Checked(schema, e.readable, compiles).Some? {
      if WalkNode(schema, e.readable).unread == 0 {
        ReadableMeansTheSame(n, schema, inst, e);
      } else {
        MonotoneOnlyWidens(n, schema, inst, e);
      }
    }
  }

  // ---- each excluded keyword can narrow ----------------------------------------------------

  function PatternSchema(pattern: string): Json {
    JObject([Member("pattern", JString(pattern))])
  }

  function One(key: string, value: Json): Json {
    JObject([Member(key, value)])
  }

  /** A schema the rewrite would narrow: it accepts the instance, and what is left of it would not. */
  ghost predicate Narrows(n: nat, schema: Json, inst: Json, e: Engine) {
    var out := Rewritten(schema, e.readable);
    Evaluate(n, schema, schema, inst, e).Accepted? && Evaluate(n, out, out, inst, e).Refused?
  }

  lemma {:induction false} UnitBoth(v: Verdict)
    ensures Both(Nothing, v) == v == Both(v, Nothing)
  {
  }

  lemma {:induction false} WalkOne(key: string, value: Json, e: Engine)
    ensures WalkNode(One(key, value), e.readable).out ==
            JObject(if Dropped(Member(key, value), e.readable) then []
                    else [Member(key, WalkValue(KeywordOf(key), value, e.readable).out)])
  {
    var members := [Member(key, value)];
    assert members[..|members| - 1] == [] && members[|members| - 1] == Member(key, value);
    assert WalkMembers([], e.readable) == SchemaRewrite.Walked([], 0, None, None);
  }

  lemma {:induction false} GetOne(key: string, value: Json, k: Keyword)
    ensures Get([Member(key, value)], k) == if KeywordOf(key) == k then Some(value) else None
  {
    assert [] + [Member(key, value)] == [Member(key, value)];
    GetSnoc([], Member(key, value), k);
  }

  lemma {:induction false} NoneUnevaluated(v: Verdict, members: seq<Member>, inst: Json, sub: Sub)
    requires Get(members, UnevaluatedItems).None? && Get(members, UnevaluatedProperties).None?
    ensures ApplyUnevaluated(v, members, inst, sub) == v
  {
    UnitBoth(v);
    UnitBoth(Nothing);
  }

  lemma {:induction false} ApplyOneMore(some: seq<Member>, m: Member, members: seq<Member>, root: Json, inst: Json,
      sub: Sub, e: Engine)
    ensures ApplyAll(some + [m], members, root, inst, sub, e) ==
            Both(ApplyAll(some, members, root, inst, sub, e),
              Apply(KeywordOf(m.key), m.value, members, root, inst, sub, e))
  {
    assert (some + [m])[..|some|] == some;
  }

  lemma {:induction false} OneMeans(root: Json, key: string, value: Json, inst: Json, sub: Sub, e: Engine)
    requires !KeywordOf(key).UnevaluatedItems? && !KeywordOf(key).UnevaluatedProperties?
    ensures AtNode(root, One(key, value), inst, sub, e) ==
            Apply(KeywordOf(key), value, [Member(key, value)], root, inst, sub, e)
  {
    var members := [Member(key, value)];
    assert [] + [members[0]] == members;
    ApplyOneMore([], members[0], members, root, inst, sub, e);
    UnitBoth(Apply(KeywordOf(key), value, members, root, inst, sub, e));
    GetOne(key, value, UnevaluatedItems);
    GetOne(key, value, UnevaluatedProperties);
    NoneUnevaluated(ApplyAll(members, members, root, inst, sub, e), members, inst, sub);
  }

  lemma {:induction false} EmptyMeans(root: Json, inst: Json, sub: Sub, e: Engine)
    ensures AtNode(root, JObject([]), inst, sub, e) == Nothing
  {
    UnitBoth(Nothing);
    assert ApplyAll([], [], root, inst, sub, e) == Nothing;
  }

  lemma {:induction false} AnyMeans(n: nat, root: Json, inst: Json, e: Engine)
    requires n > 0
    ensures Evaluate(n, root, JObject([]), inst, e) == Nothing
  {
    EmptyMeans(root, inst, Deeper(n - 1, root, e), e);
  }

  lemma {:induction false} PatternMeans(n: nat, root: Json, pattern: string, text: string, e: Engine)
    requires n > 0
    ensures Evaluate(n, root, PatternSchema(pattern), JString(text), e) ==
            if e.matches(pattern, text) then Nothing else Refused
  {
    assert KeywordOf("pattern") == Pattern && PatternSchema(pattern) == One("pattern", JString(pattern));
    OneMeans(root, "pattern", JString(pattern), JString(text), Deeper(n - 1, root, e), e);
  }

  /** An unreadable pattern goes, and leaves a schema that refuses nothing. */
  lemma {:induction false} PatternRewritten(pattern: string, e: Engine)
    requires !e.readable(pattern)
    ensures Rewritten(PatternSchema(pattern), e.readable) == JObject([])
  {
    assert KeywordOf("pattern") == Pattern && PatternSchema(pattern) == One("pattern", JString(pattern));
    WalkOne("pattern", JString(pattern), e);
  }

  lemma {:induction false} NotMeans(n: nat, root: Json, value: Json, inst: Json, e: Engine)
    requires n > 0
    ensures Evaluate(n, root, One("not", value), inst, e) ==
            if Evaluate(n - 1, root, value, inst, e).Accepted? then Refused else Nothing
  {
    assert KeywordOf("not") == Not;
    OneMeans(root, "not", value, inst, Deeper(n - 1, root, e), e);
  }

  lemma {:induction false} NotRewritten(value: Json, e: Engine)
    ensures Rewritten(One("not", value), e.readable) == One("not", Rewritten(value, e.readable))
  {
    assert KeywordOf("not") == Not;
    WalkOne("not", value, e);
  }

  lemma {:induction false} NotCanNarrow(n: nat, pattern: string, text: string, e: Engine)
    requires n > 1 && !e.readable(pattern) && !e.matches(pattern, text)
    ensures Narrows(n, One("not", PatternSchema(pattern)), JString(text), e)
  {
    var value := PatternSchema(pattern);
    var schema, out := One("not", value), One("not", JObject([]));
    PatternRewritten(pattern, e);
    NotRewritten(value, e);
    PatternMeans(n - 1, schema, pattern, text, e);
    AnyMeans(n - 1, out, JString(text), e);
    NotMeans(n, schema, value, JString(text), e);
    NotMeans(n, out, JObject([]), JString(text), e);
  }

  lemma {:induction false} OneOfTwo(root: Json, list: seq<Json>, inst: Json, sub: Sub, e: Engine)
    requires |list| == 2
    ensures AtNode(root, One("oneOf", JArray(list)), inst, sub, e).Accepted? <==>
            (sub(list[0], inst).Accepted? != sub(list[1], inst).Accepted?)
  {
    assert KeywordOf("oneOf") == OneOf;
    OneMeans(root, "oneOf", JArray(list), inst, sub, e);
    assert list == [list[0], list[1]];
    TwoMatching(list[0], list[1], inst, sub);
  }

  lemma {:induction false} OneOfRewritten(list: seq<Json>, e: Engine)
    requires |list| == 2
    ensures Rewritten(One("oneOf", JArray(list)), e.readable) ==
            One("oneOf", JArray([WalkNode(list[0], e.readable).out, WalkNode(list[1], e.readable).out]))
  {
    assert KeywordOf("oneOf") == OneOf;
    assert list == [list[0], list[1]];
    TwoItems(list[0], list[1], e);
    ListValue(OneOf, list, e, true);
    WalkOne("oneOf", JArray(list), e);
  }

  lemma {:induction false} OneOfMeans(n: nat, root: Json, s: Json, inst: Json, e: Engine)
    requires n > 1
    ensures Evaluate(n, root, One("oneOf", JArray([s, JBool(true)])), inst, e).Accepted? <==>
            Evaluate(n - 1, root, s, inst, e).Refused?
  {
    var list := [s, JBool(true)];
    OneOfTwo(root, list, inst, Deeper(n - 1, root, e), e);
    assert Evaluate(n - 1, root, JBool(true), inst, e) == Nothing;
    assert Deeper(n - 1, root, e)(list[0], inst) == Evaluate(n - 1, root, s, inst, e);
    assert Deeper(n - 1, root, e)(list[1], inst) == Nothing;
  }

  lemma {:induction false} OneOfCanNarrow(n: nat, pattern: string, text: string, e: Engine)
    requires n > 1 && !e.readable(pattern) && !e.matches(pattern, text)
    ensures Narrows(n, One("oneOf", JArray([PatternSchema(pattern), JBool(true)])), JString(text), e)
  {
    var value, yes := PatternSchema(pattern), JBool(true);
    var schema, out := One("oneOf", JArray([value, yes])), One("oneOf", JArray([JObject([]), yes]));
    PatternRewritten(pattern, e);
    OneOfRewritten([value, yes], e);
    PatternMeans(n - 1, schema, pattern, text, e);
    AnyMeans(n - 1, out, JString(text), e);
    OneOfMeans(n, schema, value, JString(text), e);
    OneOfMeans(n, out, JObject([]), JString(text), e);
  }

  lemma {:induction false} TwoItems(a: Json, b: Json, e: Engine)
    ensures WalkList([a, b], e.readable).out == [WalkNode(a, e.readable).out, WalkNode(b, e.readable).out]
  {
    assert [a, b][..1] == [a] && [a][..0] == [];
    assert WalkList([a], e.readable).out == [WalkNode(a, e.readable).out];
  }

  lemma {:induction false} TwoMatching(a: Json, b: Json, inst: Json, sub: Sub)
    ensures Matching([a, b], inst, sub) ==
            (if sub(a, inst).Accepted? then 1 else 0) + if sub(b, inst).Accepted? then 1 else 0
    ensures AnyOfList([a, b], inst, sub).Accepted? <==> (sub(a, inst).Accepted? || sub(b, inst).Accepted?)
  {
    assert [a, b][..1] == [a] && [a][..0] == [];
    assert Matching([a], inst, sub) == if sub(a, inst).Accepted? then 1 else 0;
    assert AnyOfList([a], inst, sub) == sub(a, inst);
  }

  // ---- two keywords side by side -----------------------------------------------------------

  function Two(key: string, value: Json, key': string, value': Json): Json {
    JObject([Member(key, value), Member(key', value')])
  }

  lemma {:induction false} WalkTwo(key: string, value: Json, key': string, value': Json, e: Engine)
    requires !Dropped(Member(key, value), e.readable) && !Dropped(Member(key', value'), e.readable)
    ensures WalkNode(Two(key, value, key', value'), e.readable).out ==
            Two(key, WalkValue(KeywordOf(key), value, e.readable).out, key',
              WalkValue(KeywordOf(key'), value', e.readable).out)
  {
    WalkOne(key, value, e);
    var members := [Member(key, value), Member(key', value')];
    assert members[..|members| - 1] == [Member(key, value)];
  }

  lemma {:induction false} GetTwo(key: string, value: Json, key': string, value': Json, k: Keyword)
    ensures Get([Member(key, value), Member(key', value')], k) ==
            if KeywordOf(key) == k then Some(value) else if KeywordOf(key') == k then Some(value') else None
  {
    GetOne(key, value, k);
    assert [Member(key, value)] + [Member(key', value')] == [Member(key, value), Member(key', value')];
    GetSnoc([Member(key, value)], Member(key', value'), k);
  }

  /** The second keyword says nothing by itself. */
  lemma {:induction false} ApplyTwo(a: Member, b: Member, root: Json, inst: Json, sub: Sub, e: Engine)
    requires KeywordOf(b.key).Then? || KeywordOf(b.key).MaxContains?
    ensures ApplyAll([a, b], [a, b], root, inst, sub, e) == Apply(KeywordOf(a.key), a.value, [a, b], root, inst, sub, e)
  {
    assert [] + [a] == [a] && [a] + [b] == [a, b];
    ApplyOneMore([], a, [a, b], root, inst, sub, e);
    ApplyOneMore([a], b, [a, b], root, inst, sub, e);
    UnitBoth(Apply(KeywordOf(a.key), a.value, [a, b], root, inst, sub, e));
  }

  lemma {:induction false} TwoMeans(root: Json, key: string, value: Json, key': string, value': Json, inst: Json,
      sub: Sub, e: Engine)
    requires !KeywordOf(key).UnevaluatedItems? && !KeywordOf(key).UnevaluatedProperties?
    requires KeywordOf(key').Then? || KeywordOf(key').MaxContains?
    ensures AtNode(root, Two(key, value, key', value'), inst, sub, e) ==
            Apply(KeywordOf(key), value, [Member(key, value), Member(key', value')], root, inst, sub, e)
  {
    var a, b := Member(key, value), Member(key', value');
    ApplyTwo(a, b, root, inst, sub, e);
    GetTwo(key, value, key', value', UnevaluatedItems);
    GetTwo(key, value, key', value', UnevaluatedProperties);
    NoneUnevaluated(ApplyAll([a, b], [a, b], root, inst, sub, e), [a, b], inst, sub);
  }

  lemma {:induction false} IfMeans(n: nat, root: Json, s: Json, inst: Json, e: Engine)
    requires n > 1
    ensures Evaluate(n, root, Two("if", s, "then", JBool(false)), inst, e).Accepted? <==>
            Evaluate(n - 1, root, s, inst, e).Refused?
  {
    var no := JBool(false);
    assert KeywordOf("if") == If && KeywordOf("then") == Then;
    TwoMeans(root, "if", s, "then", no, inst, Deeper(n - 1, root, e), e);
    GetTwo("if", s, "then", no, Then);
    GetTwo("if", s, "then", no, Else);
    assert Evaluate(n - 1, root, no, inst, e) == Refused;
    assert Deeper(n - 1, root, e)(no, inst) == Refused;
    assert Deeper(n - 1, root, e)(s, inst) == Evaluate(n - 1, root, s, inst, e);
  }

  lemma {:induction false} IfRewritten(s: Json, e: Engine)
    ensures Rewritten(Two("if", s, "then", JBool(false)), e.readable) ==
            Two("if", Rewritten(s, e.readable), "then", JBool(false))
  {
    assert KeywordOf("if") == If && KeywordOf("then") == Then;
    WalkTwo("if", s, "then", JBool(false), e);
  }

  lemma {:induction false} IfCanNarrow(n: nat, pattern: string, text: string, e: Engine)
    requires n > 1 && !e.readable(pattern) && !e.matches(pattern, text)
    ensures Narrows(n, Two("if", PatternSchema(pattern), "then", JBool(false)), JString(text), e)
  {
    var value, no := PatternSchema(pattern), JBool(false);
    var schema, out := Two("if", value, "then", no), Two("if", JObject([]), "then", no);
    PatternRewritten(pattern, e);
    IfRewritten(value, e);
    PatternMeans(n - 1, schema, pattern, text, e);
    AnyMeans(n - 1, out, JString(text), e);
    IfMeans(n, schema, value, JString(text), e);
    IfMeans(n, out, JObject([]), JString(text), e);
  }

  lemma {:induction false} HoldingTwo(s: Json, x: Json, y: Json, sub: Sub)
    requires sub(s, y).Accepted?
    ensures |Holding(s, JArray([x, y]), sub)| == if sub(s, x).Refused? then 1 else 2
  {
    var inst := JArray([x, y]);
    assert ItemAt(inst, 0) == x && ItemAt(inst, 1) == y;
    assert Holding(s, inst, sub) == if sub(s, x).Refused? then {1} else {0, 1};
  }

  lemma {:induction false} OnlyOneWithin(s: Json, count: nat)
    ensures CountWithin([Member("contains", s), Member("maxContains", JNumber(1.0))], count) <==> count == 1
  {
    assert KeywordOf("contains") == Contains && KeywordOf("maxContains") == MaxContains;
    GetTwo("contains", s, "maxContains", JNumber(1.0), MinContains);
    GetTwo("contains", s, "maxContains", JNumber(1.0), MaxContains);
  }

  /** At most one item may match: which, before; both, after. */
  lemma {:induction false} CountedTwo(root: Json, s: Json, x: Json, y: Json, sub: Sub, e: Engine)
    requires sub(s, y).Accepted?
    ensures AtNode(root, Two("contains", s, "maxContains", JNumber(1.0)), JArray([x, y]), sub, e).Accepted? <==>
            sub(s, x).Refused?
  {
    var inst, most := JArray([x, y]), JNumber(1.0);
    assert KeywordOf("contains") == Contains && KeywordOf("maxContains") == MaxContains;
    TwoMeans(root, "contains", s, "maxContains", most, inst, sub, e);
    OnlyOneWithin(s, |Holding(s, inst, sub)|);
    HoldingTwo(s, x, y, sub);
  }

  lemma {:induction false} CountedMeans(n: nat, root: Json, s: Json, x: Json, y: Json, e: Engine)
    requires n > 0 && Evaluate(n - 1, root, s, y, e).Accepted?
    ensures Evaluate(n, root, Two("contains", s, "maxContains", JNumber(1.0)), JArray([x, y]), e).Accepted? <==>
            Evaluate(n - 1, root, s, x, e).Refused?
  {
    CountedTwo(root, s, x, y, Deeper(n - 1, root, e), e);
  }

  lemma {:induction false} CountedRewritten(s: Json, e: Engine)
    ensures Rewritten(Two("contains", s, "maxContains", JNumber(1.0)), e.readable) ==
            Two("contains", Rewritten(s, e.readable), "maxContains", JNumber(1.0))
  {
    assert KeywordOf("contains") == Contains && KeywordOf("maxContains") == MaxContains;
    WalkTwo("contains", s, "maxContains", JNumber(1.0), e);
  }

  lemma {:induction false} MaxContainsCanNarrow(n: nat, pattern: string, text: string, hit: string, e: Engine)
    requires n > 1 && !e.readable(pattern) && !e.matches(pattern, text) && e.matches(pattern, hit)
    ensures Narrows(n, Two("contains", PatternSchema(pattern), "maxContains", JNumber(1.0)),
                    JArray([JString(text), JString(hit)]), e)
  {
    var value, most := PatternSchema(pattern), JNumber(1.0);
    var schema, out := Two("contains", value, "maxContains", most), Two("contains", JObject([]), "maxContains", most);
    PatternRewritten(pattern, e);
    CountedRewritten(value, e);
    PatternMeans(n - 1, schema, pattern, text, e);
    PatternMeans(n - 1, schema, pattern, hit, e);
    AnyMeans(n - 1, out, JString(text), e);
    AnyMeans(n - 1, out, JString(hit), e);
    CountedMeans(n, schema, value, JString(text), JString(hit), e);
    CountedMeans(n, out, JObject([]), JString(text), JString(hit), e);
  }
}
