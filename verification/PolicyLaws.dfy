/**
 * What the policy promises: how the three permission modes compare, and what a session approval changes over a whole
 * run. The class at the end is packages/agent-tools/src/policy.ts:451-486.
 */
module PolicyLaws {
  import opened Policy
  import Glob
  import Scanner
  import opened Wrappers

  // ---- first match over the built lists ----------------------------------------------------

  lemma {:induction false} FirstMatchAppend(x: seq<Rule>, y: seq<Rule>, req: Request, env: Env)
    ensures FirstMatch(x + y, req, env) ==
            if FirstMatch(x, req, env).Unruled? then FirstMatch(y, req, env) else FirstMatch(x, req, env)
  {
    if x == [] {
      assert x + y == y;
    } else {
      assert (x + y)[1..] == x[1..] + y;
      FirstMatchAppend(x[1..], y, req, env);
    }
  }

  ghost predicate AllSay(rules: seq<Rule>, d: Decision) {
    forall i :: 0 <= i < |rules| ==> rules[i].outcome == d && rules[i].scope.None?
  }

  lemma {:induction false} OneVoice(rules: seq<Rule>, d: Decision, req: Request, env: Env)
    requires AllSay(rules, d)
    ensures FirstMatch(rules, req, env).Unruled?
            || (FirstMatch(rules, req, env).Ruled? && FirstMatch(rules, req, env).rule.outcome == d)
  {
    if rules != [] {
      assert rules[0].scope.None?;
      OneVoice(rules[1..], d, req, env);
    }
  }

  /** The fetch pair governs a call: a network tool of the public surface, with a facet to read a host from. */
  predicate FetchGoverns(req: Request, env: Env) {
    req.facet.Some? && ToolSetHolds(NETWORK_TOOLS, req, env)
  }

  function FetchSays(req: Request, env: Env): Decision
    requires FetchGoverns(req, env)
  {
    if env.remote(req.facet.value) then Ask else Allow
  }

  lemma {:induction false} FetchPairSays(preset: string, req: Request, env: Env)
    ensures var v := FirstMatch(FetchPair(preset), req, env);
            if FetchGoverns(req, env) then v.Ruled? && v.rule.outcome == FetchSays(req, env) else v.Unruled?
  {
    var pair := FetchPair(preset);
    assert pair[1..] == [pair[1]] && pair[1..][1..] == [];
    assert FirstMatch(pair[1..], req, env) ==
           match RuleFires(pair[1], req, env) case Fires => Ruled(pair[1]) case Throws => Broken case Silent => Unruled;
  }

  /** Some deny starter matches the facet. */
  predicate DenyStarterHits(c: Catalogue, req: Request) {
    req.facet.Some? &&
    var segments := Scanner.Decompose(req.facet.value);
    || Scanner.PatternFires(c.recursiveDelete, segments)
    || Scanner.PatternFires(c.privilege, segments)
    || Scanner.PatternFires(c.forcePush, segments)
    || Scanner.PatternFires(c.publish, segments)
    || Scanner.PipeToShellFires(segments)
  }

  lemma {:induction false} NoneFires(rules: seq<Rule>, req: Request, env: Env)
    ensures FirstMatch(rules, req, env).Unruled? <==>
            forall i :: 0 <= i < |rules| ==> RuleFires(rules[i], req, env).Silent?
  {
    if rules != [] {
      NoneFires(rules[1..], req, env);
      assert forall i :: 1 <= i < |rules| ==> rules[i] == rules[1..][i - 1];
      assert forall i :: 0 <= i < |rules| - 1 ==> rules[1..][i] == rules[i + 1];
    }
  }

  ghost predicate SomeCommandFires(rules: seq<Rule>, req: Request, env: Env) {
    exists i :: 0 <= i < |rules| && rules[i].command.Some? && CommandFires(rules[i].command.value, req.facet, env)
  }

  ghost predicate OnCommandsAlone(rules: seq<Rule>) {
    forall i :: 0 <= i < |rules| ==> rules[i] == OnCommand(rules[i].id, rules[i].outcome,
      (if rules[i].command.Some? then rules[i].command.value else Escalation))
  }

  lemma {:induction false} SomeCommandSpeaks(rules: seq<Rule>, req: Request, env: Env)
    requires OnCommandsAlone(rules)
    ensures SomeCommandFires(rules, req, env) <==> !FirstMatch(rules, req, env).Unruled?
  {
    NoneFires(rules, req, env);
    forall i | 0 <= i < |rules|
      ensures RuleFires(rules[i], req, env).Silent? <==> !CommandFires(rules[i].command.value, req.facet, env)
    {}
  }

  lemma {:induction false} HitIsACommand(c: Catalogue, req: Request, env: Env)
    ensures DenyStarterHits(c, req) <==> SomeCommandFires(DenyStarters(c), req, env)
  {
    var rules := DenyStarters(c);
    SomeOfFive(rules, req, env);
    assert CommandFires(rules[4].command.value, req.facet, env) <==>
           req.facet.Some? && Scanner.PipeToShellFires(Scanner.Decompose(req.facet.value));
  }

  lemma {:induction false} SomeOfFive(rules: seq<Rule>, req: Request, env: Env)
    requires |rules| == 5 && forall i :: 0 <= i < 5 ==> rules[i].command.Some?
    ensures SomeCommandFires(rules, req, env) <==>
            (CommandFires(rules[0].command.value, req.facet, env)
             || CommandFires(rules[1].command.value, req.facet, env)
             || CommandFires(rules[2].command.value, req.facet, env)
             || CommandFires(rules[3].command.value, req.facet, env)
             || CommandFires(rules[4].command.value, req.facet, env))
  {
    if SomeCommandFires(rules, req, env) {
      var i :| 0 <= i < 5 && CommandFires(rules[i].command.value, req.facet, env);
      assert i == 0 || i == 1 || i == 2 || i == 3 || i == 4;
    }
  }

  lemma {:induction false} DenyStartersSay(c: Catalogue, req: Request, env: Env)
    ensures var v := FirstMatch(DenyStarters(c), req, env);
            if DenyStarterHits(c, req) then v.Ruled? && v.rule.outcome == Deny else v.Unruled?
  {
    OneVoice(DenyStarters(c), Deny, req, env);
    SomeCommandSpeaks(DenyStarters(c), req, env);
    HitIsACommand(c, req, env);
  }

  // ---- the three modes compared ------------------------------------------------------------

  function Decided(v: Verdict, otherwise: Decision, env: Env): Decision {
    match v case Ruled(rule) => rule.outcome case Unruled => otherwise case Broken => Closed(env).decision
  }

  /** The rules below the starters: whatever `ask` says, `restricted` says as strictly. */
  lemma {:induction false} TailsCompare(c: Catalogue, req: Request, env: Env)
    ensures AsStrict(Decided(FirstMatch(RestrictedTail(c), req, env), Deny, env),
                     Decided(FirstMatch(AskTail(c), req, env), Ask, env))
  {
    var r, a := RestrictedTail(c), AskTail(c);
    assert r[1..] == [r[1], r[2]] && r[1..][1..] == [r[2]] && r[1..][1..][1..] == [];
    assert a[1..] == [a[1]] && a[1..][1..] == [];
    assert RuleFires(r[0], req, env) == RuleFires(a[0], req, env);
    assert RuleFires(r[2], req, env) == RuleFires(a[1], req, env);
    assert FirstMatch(a[1..], req, env) ==
           match RuleFires(a[1], req, env) case Fires => Ruled(a[1]) case Throws => Broken case Silent => Unruled;
    var last := FirstMatch(r[1..][1..], req, env);
    assert last ==
           match RuleFires(r[2], req, env) case Fires => Ruled(r[2]) case Throws => Broken case Silent => Unruled;
    assert FirstMatch(r[1..], req, env) ==
           match RuleFires(r[1], req, env) case Fires => Ruled(r[1]) case Throws => Broken case Silent => last;
  }

  /** Enough of a rule's id to tell the built ones apart: its length, its first letter and its thirteenth. */
  predicate Marked(id: string, length: nat, first: char, later: char) {
    |id| == length > 12 && id[0] == first && id[12] == later && !Scanner.IsSpace(first)
  }

  datatype Mark = Mark(length: nat, first: char, later: char)

  ghost predicate MarkedBy(rules: seq<Rule>, marks: seq<Mark>) {
    && |rules| == |marks|
    && forall i :: 0 <= i < |rules| ==> Marked(rules[i].id, marks[i].length, marks[i].first, marks[i].later)
  }

  lemma {:induction false} MarksApart(p: Policy, marks: seq<Mark>)
    requires MarkedBy(p.rules, marks) && !Scanner.Blank(p.preset)
    requires Apart(marks)
    ensures ValidPolicy(p)
  {
    forall i | 0 <= i < |p.rules| ensures !Scanner.Blank(p.rules[i].id) {
      assert Marked(p.rules[i].id, marks[i].length, marks[i].first, marks[i].later);
    }
  }

  function StarterMarks(): seq<Mark> {
    [Mark(29, 's', '-'), Mark(33, 's', '-'), Mark(23, 's', '-'), Mark(28, 's', '-'), Mark(26, 's', '-'),
     Mark(30, 's', 'u'), Mark(27, 's', 'h'), Mark(30, 's', 'd'), Mark(29, 's', 'c')]
  }

  lemma {:induction false} StartersMarked(c: Catalogue)
    ensures MarkedBy(DenyStarters(c) + AskStarters(c), StarterMarks())
    ensures MarkedBy(DenyStarters(c), StarterMarks()[..5])
  {
    DenyStartersMarked(c);
    AskStartersMarked(c);
    MarkedAppend(DenyStarters(c), AskStarters(c), StarterMarks()[..5], StarterMarks()[5..]);
    assert StarterMarks()[..5] + StarterMarks()[5..] == StarterMarks();
  }

  lemma {:induction false} DenyStartersMarked(c: Catalogue)
    ensures MarkedBy(DenyStarters(c), StarterMarks()[..5])
  {
  }

  lemma {:induction false} AskStartersMarked(c: Catalogue)
    ensures MarkedBy(AskStarters(c), StarterMarks()[5..])
  {
  }

  lemma {:induction false} FetchPairsMarked()
    ensures MarkedBy(FetchPair("restricted"), [Mark(28, 'r', 'e'), Mark(27, 'r', 'e')])
    ensures MarkedBy(FetchPair("ask"), [Mark(21, 'a', 'm'), Mark(20, 'a', 'c')])
  {
  }

  lemma {:induction false} TailsMarked(c: Catalogue)
    ensures MarkedBy(RestrictedTail(c), [Mark(26, 'r', 'e'), Mark(33, 'r', 'e'), Mark(25, 'r', 'e')])
    ensures MarkedBy(AskTail(c), [Mark(19, 'a', 'c'), Mark(18, 'a', 'y')])
  {
  }

  lemma {:induction false} MarkedAppend(x: seq<Rule>, y: seq<Rule>, mx: seq<Mark>, my: seq<Mark>)
    requires MarkedBy(x, mx) && MarkedBy(y, my)
    ensures MarkedBy(x + y, mx + my)
  {
  }

  ghost predicate Apart(marks: seq<Mark>) {
    forall i, j :: 0 <= i < j < |marks| ==> marks[i] != marks[j]
  }

  lemma {:induction false} ThreeListsValid(p: Policy, x: seq<Rule>, y: seq<Rule>, z: seq<Rule>, mx: seq<Mark>,
      my: seq<Mark>, mz: seq<Mark>)
    requires p.rules == x + y + z && !Scanner.Blank(p.preset)
    requires MarkedBy(x, mx) && MarkedBy(y, my) && MarkedBy(z, mz) && Apart(mx + my + mz)
    ensures ValidPolicy(p)
  {
    MarkedAppend(x, y, mx, my);
    MarkedAppend(x + y, z, mx + my, mz);
    MarksApart(p, mx + my + mz);
  }

  lemma {:induction false} RestrictedMarksApart()
    ensures Apart([Mark(28, 'r', 'e'), Mark(27, 'r', 'e')] + StarterMarks() +
                  [Mark(26, 'r', 'e'), Mark(33, 'r', 'e'), Mark(25, 'r', 'e')])
  {
  }

  lemma {:induction false} RestrictedIsValid(c: Catalogue)
    ensures ValidPolicy(BuildPolicy(Restricted, c))
  {
    StartersMarked(c);
    FetchPairsMarked();
    TailsMarked(c);
    assert !Scanner.IsSpace("restricted"[0]);
    RestrictedMarksApart();
    ThreeListsValid(BuildPolicy(Restricted, c), FetchPair("restricted"), DenyStarters(c) + AskStarters(c),
                    RestrictedTail(c), [Mark(28, 'r', 'e'), Mark(27, 'r', 'e')], StarterMarks(),
                    [Mark(26, 'r', 'e'), Mark(33, 'r', 'e'), Mark(25, 'r', 'e')]);
  }

  lemma {:induction false} AskMarksApart()
    ensures Apart([Mark(21, 'a', 'm'), Mark(20, 'a', 'c')] + StarterMarks() + [Mark(19, 'a', 'c'), Mark(18, 'a', 'y')])
  {
  }

  lemma {:induction false} AskIsValid(c: Catalogue)
    ensures ValidPolicy(BuildPolicy(Supervised, c))
  {
    StartersMarked(c);
    FetchPairsMarked();
    TailsMarked(c);
    assert !Scanner.IsSpace("ask"[0]);
    AskMarksApart();
    ThreeListsValid(BuildPolicy(Supervised, c), FetchPair("ask"), DenyStarters(c) + AskStarters(c), AskTail(c),
                    [Mark(21, 'a', 'm'), Mark(20, 'a', 'c')], StarterMarks(), [Mark(19, 'a', 'c'), Mark(18, 'a', 'y')]);
  }

  lemma {:induction false} AutonomousIsValid(c: Catalogue)
    ensures ValidPolicy(BuildPolicy(Autonomous, c))
  {
    StartersMarked(c);
    assert !Scanner.IsSpace("autonomous"[0]);
    MarksApart(BuildPolicy(Autonomous, c), StarterMarks()[..5]);
  }

  /** Building never fails: every policy it gives meets the four conditions. */
  lemma {:induction false} BuiltAreValid(preset: Preset, c: Catalogue)
    ensures ValidPolicy(BuildPolicy(preset, c))
  {
    match preset
    case Restricted => RestrictedIsValid(c);
    case Supervised => AskIsValid(c);
    case Autonomous => AutonomousIsValid(c);
  }

  /** The call reaches the rules at all: it is no loop-control tool and no session approval covers it. */
  predicate Gated(approvals: seq<Approval>, req: Request, env: Env) {
    !IsMeta(req) && LastMatch(approvals, req, ScopedPaths(req, env)).None?
  }

  /** For a gated call a valid policy's rules decide, and else both policies allow alike. */
  lemma {:induction false} GatedRuling(p: Policy, approvals: seq<Approval>, req: Request, env: Env)
    requires ValidPolicy(p)
    ensures RulingOf(p, approvals, req, env).decision ==
            if Gated(approvals, req, env) then Decided(FirstMatch(p.rules, req, env), p.otherwise, env) else Allow
  {
  }

  /**
   * For every call, in every environment and under the same approvals, `restricted` decides at least as strictly as
   * `ask`.
   */
  lemma {:induction false} RestrictedAsStrictAsAsk(c: Catalogue, approvals: seq<Approval>, req: Request, env: Env)
    ensures AsStrict(RulingOf(BuildPolicy(Restricted, c), approvals, req, env).decision,
                     RulingOf(BuildPolicy(Supervised, c), approvals, req, env).decision)
  {
    BuiltAreValid(Restricted, c);
    BuiltAreValid(Supervised, c);
    GatedRuling(BuildPolicy(Restricted, c), approvals, req, env);
    GatedRuling(BuildPolicy(Supervised, c), approvals, req, env);
    var starters := DenyStarters(c) + AskStarters(c);
    FirstMatchAppend(FetchPair("restricted") + starters, RestrictedTail(c), req, env);
    FirstMatchAppend(FetchPair("ask") + starters, AskTail(c), req, env);
    FirstMatchAppend(FetchPair("restricted"), starters, req, env);
    FirstMatchAppend(FetchPair("ask"), starters, req, env);
    FetchPairSays("restricted", req, env);
    FetchPairSays("ask", req, env);
    TailsCompare(c, req, env);
  }

  lemma {:induction false} AskNeverBelowDeny(c: Catalogue, req: Request, env: Env)
    ensures var v := Decided(FirstMatch(BuildPolicy(Supervised, c).rules, req, env), Ask, env);
            if FetchGoverns(req, env) then v == FetchSays(req, env) else DenyStarterHits(c, req) ==> v == Deny
  {
    var starters := DenyStarters(c) + AskStarters(c);
    FirstMatchAppend(FetchPair("ask") + starters, AskTail(c), req, env);
    FirstMatchAppend(FetchPair("ask"), starters, req, env);
    FirstMatchAppend(DenyStarters(c), AskStarters(c), req, env);
    FetchPairSays("ask", req, env);
    DenyStartersSay(c, req, env);
  }

  /**
   * `ask` decides at least as strictly as `autonomous` exactly when the fetch pair does not get ahead of a deny
   * starter: it stands first in `ask` and is missing from `autonomous`.
   */
  lemma {:induction false} AskAsStrictAsAutonomousIff(c: Catalogue, approvals: seq<Approval>, req: Request, env: Env)
    ensures AsStrict(RulingOf(BuildPolicy(Supervised, c), approvals, req, env).decision,
                     RulingOf(BuildPolicy(Autonomous, c), approvals, req, env).decision) <==>
            !(Gated(approvals, req, env) && FetchGoverns(req, env) && DenyStarterHits(c, req))
  {
    BuiltAreValid(Supervised, c);
    BuiltAreValid(Autonomous, c);
    GatedRuling(BuildPolicy(Supervised, c), approvals, req, env);
    GatedRuling(BuildPolicy(Autonomous, c), approvals, req, env);
    AskNeverBelowDeny(c, req, env);
    DenyStartersSay(c, req, env);
  }

  lemma {:induction false} SplittingSu()
    ensures Scanner.Split("su") == [Scanner.Part("", "su")]
  {
    assert "su"[1..] == "u" && "su"[..1] == "s" && "u"[1..] == "" && "u"[..1] == "u" && "" + "s" == "s"
           && "s" + "u" == "su";
    assert Scanner.SplitFrom("u", Scanner.Bare, "s", "") == [Scanner.Part("", "su")];
  }

  lemma {:induction false} LexingSu()
    ensures Scanner.Tokenise("su").tokens == ["su"]
  {
    assert "su"[1..] == "u" && "u"[1..] == "" && "s" + "u" == "su";
    var st := Scanner.LexChar(Scanner.Fresh, 's', false);
    assert st == Scanner.Lexer([], "s", true, Scanner.Bare, false, 0);
    assert Scanner.LexChar(st, 'u', false) == Scanner.Lexer([], "su", true, Scanner.Bare, false, 0);
    assert Scanner.Lex("u", st) == Scanner.Lexer([], "su", true, Scanner.Bare, false, 0);
  }

  /** The line `su` is one segment, of the one token `su`. */
  lemma {:induction false} ReadingSu()
    ensures Scanner.Decompose("su") == [Scanner.Segment("", "su", ["su"], Scanner.Classify("su"))]
  {
    SplittingSu();
    LexingSu();
    assert !Scanner.IsRedirection("su");
    assert ["su"][1..] == [];
    assert Scanner.BeforeRedirection(["su"]) == ["su"];
    assert !Scanner.IsSpace("su"[0]);
    assert Scanner.RealSegments([Scanner.Part("", "su")]) == [Scanner.SegmentOf(Scanner.Part("", "su"))];
  }

  lemma {:induction false} SuMatches()
    ensures Scanner.TokensMatch(["su", "*"], ["su"])
  {
    assert ["su", "*"][..1] == ["su"];
    var low := Scanner.Lower("su");
    assert low == "su" && low[1..] == "u" && "u"[1..] == "";
    assert Glob.Matches("u", "u", true);
  }

  function FetchOfSu(): Request {
    Request("fetch", "worker", map["url" := Text("su")], Some("su"))
  }

  lemma {:induction false} SuIsDenied(c: Catalogue)
    requires ["su", "*"] in c.privilege
    ensures DenyStarterHits(c, FetchOfSu())
  {
    ReadingSu();
    SuMatches();
    var segments := Scanner.Decompose("su");
    assert Scanner.PatternHits(c.privilege, segments[0]);
    assert Scanner.PatternFires(c.privilege, segments);
  }

  lemma {:induction false} FetchIsGoverned(env: Env)
    requires env.publicTool("fetch")
    ensures FetchGoverns(FetchOfSu(), env) && Gated([], FetchOfSu(), env)
  {
    assert Scanner.Lower("fetch") == "fetch";
    assert "fetch" in NETWORK_TOOLS && "fetch" !in META_TOOLS;
  }

  /** A fetch of `su`: `autonomous` denies it by the privilege-escalation starter, and `ask` does not. */
  lemma {:induction false} FetchGetsAhead(c: Catalogue, env: Env)
    requires ["su", "*"] in c.privilege && env.publicTool("fetch")
    ensures RulingOf(BuildPolicy(Autonomous, c), [], FetchOfSu(), env).decision == Deny
    ensures RulingOf(BuildPolicy(Supervised, c), [], FetchOfSu(), env).decision != Deny
  {
    var req := FetchOfSu();
    SuIsDenied(c);
    FetchIsGoverned(env);
    AskNeverBelowDeny(c, req, env);
    DenyStartersSay(c, req, env);
    BuiltAreValid(Autonomous, c);
    BuiltAreValid(Supervised, c);
    GatedRuling(BuildPolicy(Autonomous, c), [], req, env);
    GatedRuling(BuildPolicy(Supervised, c), [], req, env);
  }

  // ---- session approvals -------------------------------------------------------------------

  /** One more approval changes a decision only to allow, and only for a call it matches under a valid policy. */
  lemma {:induction false} ApprovalOnlyAllows(p: Policy, approvals: seq<Approval>, a: Approval, req: Request, env: Env)
    ensures RulingOf(p, approvals + [a], req, env) ==
            if !IsMeta(req) && ValidPolicy(p) && ApprovalMatches(a, req, ScopedPaths(req, env))
            then Ruling(Allow, Session(a.number)) else RulingOf(p, approvals, req, env)
  {
    assert (approvals + [a])[..|approvals|] == approvals;
  }

  lemma {:induction false} MatchIsFound(approvals: seq<Approval>, i: nat, req: Request, now: Paths)
    requires i < |approvals| && ApprovalMatches(approvals[i], req, now)
    ensures LastMatch(approvals, req, now).Some?
  {
    if i < |approvals| - 1 {
      MatchIsFound(approvals[..|approvals| - 1], i, req, now);
    }
  }

  datatype Context = Context(policy: Policy, approvals: seq<Approval>, grants: nat)

  datatype Event = Replace(policy: Policy) | Grant(req: Request, env: Env) | Discard

  /** One step of a policy context; replacing with an invalid policy is refused. */
  ghost function Step(c: Context, e: Event): Context {
    match e
    case Replace(p) => if ValidPolicy(p) then c.(policy := p) else c
    case Grant(req, env) => Context(c.policy, c.approvals + [SessionApprovalFor(c.grants + 1, req, env)], c.grants + 1)
    case Discard => Context(c.policy, [], 0)
  }

  ghost function Run(c: Context, events: seq<Event>): Context {
    if events == [] then c else Step(Run(c, events[..|events| - 1]), events[|events| - 1])
  }

  /** Approvals are numbered from 1 in grant order, so their ids are distinct. */
  ghost predicate Numbered(c: Context) {
    c.grants == |c.approvals| && forall i :: 0 <= i < |c.approvals| ==> c.approvals[i].number == i + 1
  }

  lemma {:induction false} NumbersStay(c: Context, events: seq<Event>)
    requires Numbered(c)
    ensures Numbered(Run(c, events))
  {
    if events != [] {
      NumbersStay(c, events[..|events| - 1]);
    }
  }

  ghost predicate NoDiscard(events: seq<Event>) {
    forall i :: 0 <= i < |events| ==> !events[i].Discard?
  }

  lemma {:induction false} ApprovalsStay(c: Context, events: seq<Event>)
    requires NoDiscard(events)
    ensures c.approvals <= Run(c, events).approvals
    ensures ValidPolicy(c.policy) ==> ValidPolicy(Run(c, events).policy)
  {
    if events != [] {
      ApprovalsStay(c, events[..|events| - 1]);
    }
  }

  /**
   * A granted call is allowed for the rest of the run, whatever policies replace the first, until a discard: unless its
   * paths were or are unresolvable, or now resolve elsewhere.
   */
  lemma {:induction false} GrantLasts(c: Context, req: Request, env: Env, events: seq<Event>, laterEnv: Env)
    requires ValidPolicy(c.policy) && NoDiscard(events) && StillCovered(req, env, laterEnv)
    ensures var later := Run(Step(c, Grant(req, env)), events);
            RulingOf(later.policy, later.approvals, req, laterEnv).decision == Allow
  {
    var granted := Step(c, Grant(req, env));
    ApprovalsStay(granted, events);
    var later := Run(granted, events);
    GrantMatches(c.grants + 1, req, env, req, laterEnv);
    assert later.approvals[|c.approvals|] == SessionApprovalFor(c.grants + 1, req, env);
    MatchIsFound(later.approvals, |c.approvals|, req, ScopedPaths(req, laterEnv));
  }

  // ---- which call an approval decides, over every run ----------------------------------------

  ghost function RulingNow(c: Context, req: Request, env: Env): Ruling {
    RulingOf(c.policy, c.approvals, req, env)
  }

  /** Some approval held matches the call. */
  predicate Matched(c: Context, req: Request, env: Env) {
    LastMatch(c.approvals, req, ScopedPaths(req, env)).Some?
  }

  lemma {:induction false} MatchAfterGrant(c: Context, q: Request, e: Env, req: Request, env: Env)
    ensures LastMatch(Step(c, Grant(q, e)).approvals, req, ScopedPaths(req, env)) ==
            if Covers(q, e, req, env) then Some(SessionApprovalFor(c.grants + 1, q, e))
            else LastMatch(c.approvals, req, ScopedPaths(req, env))
  {
    var a := SessionApprovalFor(c.grants + 1, q, e);
    GrantMatches(c.grants + 1, q, e, req, env);
    assert (c.approvals + [a])[..|c.approvals|] == c.approvals;
  }

  /**
   * A run that has a grant before it matches what it matched, and what the grant covers; a discard forgets the grant.
   */
  lemma {:induction false} GrantThenRun(c: Context, q: Request, e: Env, events: seq<Event>, req: Request, env: Env)
    ensures var granted, bare := Run(Step(c, Grant(q, e)), events), Run(c, events);
            && granted.policy == bare.policy
            && (NoDiscard(events) ==>
                  (Matched(granted, req, env) <==> Covers(q, e, req, env) || Matched(bare, req, env)))
            && (!NoDiscard(events) ==> granted == bare)
  {
    if events == [] {
      MatchAfterGrant(c, q, e, req, env);
    } else {
      var before, last := events[..|events| - 1], events[|events| - 1];
      GrantThenRun(c, q, e, before, req, env);
      assert NoDiscard(events) <==> NoDiscard(before) && !last.Discard? by {
        assert events == before + [last];
      }
      if last.Grant? {
        MatchAfterGrant(Run(Step(c, Grant(q, e)), before), last.req, last.env, req, env);
        MatchAfterGrant(Run(c, before), last.req, last.env, req, env);
      }
    }
  }

  /** The same ruling, by an approval's whatever its number. */
  predicate SameRuling(a: Ruling, b: Ruling) {
    a.decision == b.decision && (a.source == b.source || (a.source.Session? && b.source.Session?))
  }

  /**
   * What a grant does over every run: calls it covers are allowed until a discard, and every other call is ruled as in
   * the run without it.
   */
  lemma {:induction false} GrantDecides(c: Context, q: Request, e: Env, events: seq<Event>, req: Request, env: Env)
    ensures var granted, bare := Run(Step(c, Grant(q, e)), events), Run(c, events);
            if !IsMeta(req) && ValidPolicy(bare.policy) && NoDiscard(events) && Covers(q, e, req, env)
            then RulingNow(granted, req, env).decision == Allow && RulingNow(granted, req, env).source.Session?
            else SameRuling(RulingNow(granted, req, env), RulingNow(bare, req, env))
  {
    GrantThenRun(c, q, e, events, req, env);
  }

  /** The event is a grant that no discard has followed and that covers the call. */
  ghost predicate StillCovers(events: seq<Event>, j: nat, req: Request, env: Env)
    requires j < |events|
  {
    && events[j].Grant? && Covers(events[j].req, events[j].env, req, env)
    && forall k :: j < k < |events| ==> !events[k].Discard?
  }

  /** The last grant that still covers the call, as its place in the run. */
  ghost function LastCover(events: seq<Event>, req: Request, env: Env): (r: Option<nat>)
    ensures r.Some? ==> r.value < |events| && events[r.value].Grant?
  {
    if events == [] then None
    else
      var last := events[|events| - 1];
      if last.Discard? then None
      else if last.Grant? && Covers(last.req, last.env, req, env) then Some(|events| - 1)
      else LastCover(events[..|events| - 1], req, env)
  }

  lemma {:induction false} LastCoverIsLast(events: seq<Event>, req: Request, env: Env)
    ensures var r := LastCover(events, req, env);
            && (r.Some? ==> StillCovers(events, r.value, req, env))
            && forall j :: 0 <= j < |events| && StillCovers(events, j, req, env) ==> r.Some? && j <= r.value
  {
    if events != [] {
      var before, last := events[..|events| - 1], events[|events| - 1];
      LastCoverIsLast(before, req, env);
      assert forall j :: 0 <= j < |before| ==>
        before[j] == events[j]
        && (StillCovers(events, j, req, env) <==> StillCovers(before, j, req, env) && !last.Discard?);
    }
  }

  /** The approval a grant of the run made. */
  ghost function GrantedAt(p: Policy, events: seq<Event>, j: nat): Approval
    requires j < |events| && events[j].Grant?
  {
    SessionApprovalFor(Run(Context(p, [], 0), events[..j + 1]).grants, events[j].req, events[j].env)
  }

  lemma {:induction false} GrantedBefore(p: Policy, events: seq<Event>, j: nat)
    requires j < |events| - 1 && events[j].Grant?
    ensures GrantedAt(p, events[..|events| - 1], j) == GrantedAt(p, events, j)
  {
    assert events[..|events| - 1][..j + 1] == events[..j + 1];
  }

  lemma {:induction false} GrantedLast(p: Policy, events: seq<Event>)
    requires events != [] && events[|events| - 1].Grant?
    ensures var last := events[|events| - 1];
            GrantedAt(p, events, |events| - 1) ==
            SessionApprovalFor(Run(Context(p, [], 0), events[..|events| - 1]).grants + 1, last.req, last.env)
  {
    assert events[..|events|] == events;
  }

  /** What one more event leaves matched. */
  lemma {:induction false} MatchStep(p: Policy, events: seq<Event>, req: Request, env: Env)
    requires events != []
    ensures var c, last := Run(Context(p, [], 0), events[..|events| - 1]), events[|events| - 1];
            LastMatch(Run(Context(p, [], 0), events).approvals, req, ScopedPaths(req, env)) ==
            if last.Discard? then None
            else if last.Grant? && Covers(last.req, last.env, req, env) then Some(GrantedAt(p, events, |events| - 1))
            else LastMatch(c.approvals, req, ScopedPaths(req, env))
  {
    var last := events[|events| - 1];
    if last.Grant? {
      MatchAfterGrant(Run(Context(p, [], 0), events[..|events| - 1]), last.req, last.env, req, env);
      GrantedLast(p, events);
    }
  }

  /** The approval matched is the one of the last grant that still covers the call. */
  lemma {:induction false} MatchIsLastCover(p: Policy, events: seq<Event>, req: Request, env: Env)
    ensures LastMatch(Run(Context(p, [], 0), events).approvals, req, ScopedPaths(req, env)) ==
            match LastCover(events, req, env)
            case None => None
            case Some(j) => Some(GrantedAt(p, events, j))
  {
    if events != [] {
      var before := events[..|events| - 1];
      MatchIsLastCover(p, before, req, env);
      MatchStep(p, events, req, env);
      var r := LastCover(before, req, env);
      if r.Some? {
        GrantedBefore(p, events, r.value);
      }
    }
  }

  /**
   * Over every run of a new context a call is ruled by an approval exactly when some grant still covers it; it is the
   * last such grant's, by its number. Every other call is ruled as if nothing had been granted.
   */
  lemma {:induction false} RuledByTheLastCover(p: Policy, events: seq<Event>, req: Request, env: Env)
    ensures var last := LastCover(events, req, env);
            && (last.Some? ==> StillCovers(events, last.value, req, env))
            && forall j :: 0 <= j < |events| && StillCovers(events, j, req, env) ==> last.Some? && j <= last.value
    ensures var c, last := Run(Context(p, [], 0), events), LastCover(events, req, env);
            RulingNow(c, req, env) ==
              if !IsMeta(req) && ValidPolicy(c.policy) && last.Some?
              then Ruling(Allow, Session(Run(Context(p, [], 0), events[..last.value + 1]).grants))
              else RulingOf(c.policy, [], req, env)
  {
    LastCoverIsLast(events, req, env);
    MatchIsLastCover(p, events, req, env);
  }

  class PolicyContext {
    var policy: Policy
    var approvals: seq<Approval>
    var grants: nat

    ghost function Now(): Context
      reads this
    {
      Context(policy, approvals, grants)
    }

    constructor (p: Policy)
      ensures Now() == Context(p, [], 0) && Numbered(Now())
    {
      policy, approvals, grants := p, [], 0;
    }

    method Replace(p: Policy) returns (ok: bool)
      modifies this
      ensures Now() == Step(old(Now()), Event.Replace(p)) && (ok <==> ValidPolicy(p))
    {
      ok := ValidatePolicy(p);
      if ok { policy := p; }
    }

    method Grant(req: Request, env: Env) returns (a: Approval)
      modifies this
      ensures Now() == Step(old(Now()), Event.Grant(req, env))
      ensures old(Numbered(Now())) ==> Numbered(Now()) && a == approvals[|approvals| - 1] && a.number == |approvals|
    {
      grants := grants + 1;
      a := SessionApprovalFor(grants, req, env);
      approvals := approvals + [a];
    }

    method Evaluate(req: Request, env: Env) returns (r: Ruling)
      ensures r == RulingOf(policy, approvals, req, env)
    {
      r := EvaluatePolicy(policy, approvals, req, env);
    }

    method Discard()
      modifies this
      ensures Now() == Step(old(Now()), Event.Discard)
    {
      approvals := [];
      grants := 0;
    }
  }
}
