/**
 * What the policy decides, read off the call: the rulings of the three permission modes as tables over a request and
 * its environment, when a rule fires, which paths a call gives, and what an approval covers.
 */
module PolicyTables {
  import opened Policy
  import opened PolicyLaws
  import Scanner
  import opened Wrappers

  // ---- what a call gives -------------------------------------------------------------------

  const PATH_ARGUMENTS: set<string> := {"path", "file_path", "filename", "paths", "base_path", "dir", "directory"}

  /** The call gives the path: as the text of a path argument, or in its list. */
  ghost predicate Gives(args: Arguments, path: string) {
    exists k :: k in PATH_ARGUMENTS && k in args && GivesIn(args[k], path)
  }

  ghost predicate GivesIn(a: Argument, path: string) {
    a == Text(path) || (a.Items? && Some(path) in a.items)
  }

  lemma {:induction false} StringsAre(items: seq<Option<string>>, path: string)
    ensures path in Strings(items) <==> Some(path) in items
  {
    if items != [] {
      StringsAre(items[1..], path);
      assert Some(path) in items <==> items[0] == Some(path) || Some(path) in items[1..];
    }
  }

  lemma {:induction false} StringsOfAre(a: Argument, path: string)
    ensures path in StringsOf(a) <==> GivesIn(a, path)
  {
    if a.Items? {
      StringsAre(a.items, path);
    }
  }

  lemma {:induction false} PathsUpTo(args: Arguments, n: nat, path: string)
    requires n <= |PATH_KEYS|
    ensures path in PathArguments(args, n) <==>
            exists i :: 0 <= i < n && PATH_KEYS[i] in args && GivesIn(args[PATH_KEYS[i]], path)
  {
    if n > 0 {
      PathsUpTo(args, n - 1, path);
      if PATH_KEYS[n - 1] in args {
        StringsOfAre(args[PATH_KEYS[n - 1]], path);
      }
    }
  }

  lemma {:induction false} KeysAre()
    ensures forall k :: k in PATH_ARGUMENTS <==> k in PATH_KEYS
  {
    assert PATH_KEYS == ["path", "file_path", "filename", "paths", "base_path", "dir", "directory"];
    forall k | k in PATH_ARGUMENTS ensures k in PATH_KEYS {
      assert PATH_KEYS[0] == "path" && PATH_KEYS[1] == "file_path" && PATH_KEYS[2] == "filename";
      assert PATH_KEYS[3] == "paths" && PATH_KEYS[4] == "base_path" && PATH_KEYS[5] == "dir";
      assert PATH_KEYS[6] == "directory";
    }
  }

  /** The path arguments of a call are just the paths it gives. */
  lemma {:induction false} PathsAreGiven(args: Arguments, path: string)
    ensures path in PathArguments(args, |PATH_KEYS|) <==> Gives(args, path)
  {
    KeysAre();
    PathsUpTo(args, |PATH_KEYS|, path);
    if Gives(args, path) {
      var k :| k in PATH_ARGUMENTS && k in args && GivesIn(args[k], path);
      var i :| 0 <= i < |PATH_KEYS| && PATH_KEYS[i] == k;
    }
  }

  /** A value that is neither a text nor a list of texts. */
  ghost predicate Illegible(a: Argument) {
    a.Other? || (a.Items? && None in a.items)
  }

  /**
   * The paths an approval is scoped by: none without a path argument; unresolvable with one that cannot be read, or
   * with a path that does not resolve; else the real path of each path given, and no other.
   */
  lemma {:induction false} PathSetSays(args: Arguments, env: Env)
    ensures var r := ResolvedPathSet(args, env);
            var carried := exists k :: k in PATH_ARGUMENTS && k in args;
            var illegible := exists k :: k in PATH_ARGUMENTS && k in args && Illegible(args[k]);
            var lost := exists path :: Gives(args, path) && !env.resolve(path).Real?;
            && (r.NoPaths? <==> !carried)
            && (r.Unresolvable? <==> illegible || lost)
            && (r.Resolved? ==>
                  forall to :: to in r.paths <==> exists p :: Gives(args, p) && env.resolve(p) == Real(to))
  {
    KeysAre();
    var raw := PathArguments(args, |PATH_KEYS|);
    forall path ensures path in raw <==> Gives(args, path) { PathsAreGiven(args, path); }
    KeysByIndex(args);
    var r := ResolvedPathSet(args, env);
    if AllResolve(raw, env) {
      assert forall path :: Gives(args, path) ==> path in raw;
      assert forall path :: path in raw ==> env.resolve(path).Real?;
      forall to ensures to in RealPaths(raw, env) <==> exists p :: Gives(args, p) && env.resolve(p) == Real(to) {
        if to in RealPaths(raw, env) {
          var i :| 0 <= i < |raw| && env.resolve(raw[i]).path == to;
          assert raw[i] in raw && Gives(args, raw[i]);
        }
        if exists p :: Gives(args, p) && env.resolve(p) == Real(to) {
          var p :| Gives(args, p) && env.resolve(p) == Real(to);
          assert p in raw;
        }
      }
    } else {
      var i :| 0 <= i < |raw| && !env.resolve(raw[i]).Real?;
      assert raw[i] in raw && Gives(args, raw[i]);
    }
  }

  lemma {:induction false} KeysByIndex(args: Arguments)
    ensures CarriesPath(args, |PATH_KEYS|) <==> exists k :: k in PATH_ARGUMENTS && k in args
    ensures AllReadable(args, |PATH_KEYS|) <==> !exists k :: k in PATH_ARGUMENTS && k in args && Illegible(args[k])
  {
    KeysAre();
    forall k | k in PATH_ARGUMENTS && k in args ensures CarriesPath(args, |PATH_KEYS|) {
      var i :| 0 <= i < |PATH_KEYS| && PATH_KEYS[i] == k;
    }
    forall k | k in PATH_ARGUMENTS && k in args && Illegible(args[k]) ensures !AllReadable(args, |PATH_KEYS|) {
      var i :| 0 <= i < |PATH_KEYS| && PATH_KEYS[i] == k;
      IllegibleIsUnreadable(args[k]);
    }
    if !AllReadable(args, |PATH_KEYS|) {
      var i :| 0 <= i < |PATH_KEYS| && PATH_KEYS[i] in args && !Readable(args[PATH_KEYS[i]]);
      IllegibleIsUnreadable(args[PATH_KEYS[i]]);
      assert PATH_KEYS[i] in PATH_ARGUMENTS;
    }
    if CarriesPath(args, |PATH_KEYS|) {
      var i :| 0 <= i < |PATH_KEYS| && PATH_KEYS[i] in args;
      assert PATH_KEYS[i] in PATH_ARGUMENTS;
    }
  }

  lemma {:induction false} IllegibleIsUnreadable(a: Argument)
    ensures Illegible(a) <==> !Readable(a)
  {
  }

  /** Only the public tools that write a file by path have approvals scoped by paths, the second under either name. */
  lemma {:induction false} ScopedSays(req: Request, env: Env)
    ensures ScopedPaths(req, env) ==
            if Scanner.Lower(req.tool) in {"write_file", "haet_edit", "haet"} && env.publicTool(req.tool)
            then ResolvedPathSet(req.args, env) else NoPaths
  {
  }

  // ---- when a rule fires -------------------------------------------------------------------

  /** The path is not known to lie in the workspace: it does not resolve, or not to a place inside the root. */
  ghost predicate Outside(path: string, env: Env) {
    match env.resolve(path)
    case Real(to) => !env.inside(match env.root case Real(root) => root case _ => env.workspaceRoot, to)
    case _ => true
  }

  /** The tool set names the call's tool, in any case and under its alias, and the call reaches the public tool. */
  ghost predicate Names(tools: set<string>, req: Request, env: Env) {
    && env.publicTool(req.tool)
    && (Scanner.Lower(req.tool) in tools || (req.tool == "haet" && "haet_edit" in tools))
  }

  lemma {:induction false} NamesIs(tools: set<string>, req: Request, env: Env)
    ensures ToolSetHolds(tools, req, env) <==> Names(tools, req, env)
  {
    assert Scanner.Lower("haet_edit") == "haet_edit";
  }

  ghost predicate ScopeHolds(scope: Scope, req: Request, env: Env) {
    match scope
    case OutsideWorkspace => exists path :: Gives(req.args, path) && Outside(path, env)
    case InsideWorkspace =>
      (exists path :: Gives(req.args, path)) && forall path :: Gives(req.args, path) ==> !Outside(path, env)
  }

  lemma {:induction false} ScopeSays(scope: Scope, req: Request, env: Env)
    ensures ScopeFires(scope, req, env).Throws? <==> env.root.Threw? && exists path :: Gives(req.args, path)
    ensures !env.root.Threw? ==> (ScopeFires(scope, req, env).Fires? <==> ScopeHolds(scope, req, env))
  {
    var paths := PathArguments(req.args, |PATH_KEYS|);
    forall path ensures path in paths <==> Gives(req.args, path) { PathsAreGiven(req.args, path); }
    forall path ensures IsInside(path, env) <==> !Outside(path, env) {}
    assert paths != [] ==> paths[0] in paths;
    if exists path :: Gives(req.args, path) && Outside(path, env) {
      var path :| Gives(req.args, path) && Outside(path, env);
      var i :| 0 <= i < |paths| && paths[i] == path;
    }
    assert forall i :: 0 <= i < |paths| ==> paths[i] in paths;
  }

  ghost predicate FacetMeets(m: Matcher, facet: string, env: Env) {
    match m
    case Pattern(compiled) => Scanner.PatternFires(compiled, Scanner.Decompose(facet))
    case Escalation => Scanner.EscalationFires(Scanner.Decompose(facet))
    case PipeToShell => Scanner.PipeToShellFires(Scanner.Decompose(facet))
    case RemoteHost => env.remote(facet)
    case LocalHost => !env.remote(facet)
  }

  /** A rule fires on a call that meets every condition it states, and on no other; only a scope's root can throw. */
  lemma {:induction false} RuleFiresIff(rule: Rule, req: Request, env: Env)
    ensures var asked := (rule.tools.Some? ==> Names(rule.tools.value, req, env))
                         && (rule.personas.Some? ==> req.persona in rule.personas.value);
            && (RuleFires(rule, req, env).Throws? <==>
                  asked && rule.scope.Some? && env.root.Threw? && exists path :: Gives(req.args, path))
            && (RuleFires(rule, req, env).Fires? <==>
                  && asked
                  && (rule.scope.Some? ==> ScopeMet(rule.scope.value, req, env))
                  && (rule.command.Some? ==> req.facet.Some? && FacetMeets(rule.command.value, req.facet.value, env))
                  && (rule.args.Some? ==> SpelledAs(rule.args.value, req.args)))
  {
    if rule.tools.Some? {
      NamesIs(rule.tools.value, req, env);
    }
    if rule.scope.Some? {
      ScopeSays(rule.scope.value, req, env);
    }
    if rule.args.Some? {
      SpelledIs(rule.args.value, req.args);
    }
  }

  ghost predicate ScopeMet(scope: Scope, req: Request, env: Env) {
    (exists path :: Gives(req.args, path)) && !env.root.Threw? && ScopeHolds(scope, req, env)
  }

  /** The arguments are just these, each as it is spelled: a text as itself. */
  ghost predicate SpelledAs(spelled: map<string, string>, args: Arguments) {
    && (forall k :: k in spelled <==> k in args)
    && forall k :: k in spelled && k in args ==>
         spelled[k] == match args[k] case Text(text) => text case Items(_, spelling) => spelling case Other(s) => s
  }

  lemma {:induction false} SpelledIs(spelled: map<string, string>, args: Arguments)
    ensures spelled == CanonicalArguments(args) <==> SpelledAs(spelled, args)
  {
    if SpelledAs(spelled, args) {
      assert spelled.Keys == CanonicalArguments(args).Keys;
    }
  }

  /** The first rule to fire decides, unless one before it throws. */
  lemma {:induction false} FirstToFire(rules: seq<Rule>, req: Request, env: Env, i: nat)
    requires i < |rules| && forall j :: 0 <= j < i ==> RuleFires(rules[j], req, env).Silent?
    ensures FirstMatch(rules, req, env) ==
            match RuleFires(rules[i], req, env)
            case Fires => Ruled(rules[i])
            case Throws => Broken
            case Silent => FirstMatch(rules[i + 1..], req, env)
    decreases i
  {
    if i > 0 {
      assert rules[1..][i - 1] == rules[i] && rules[1..][i..] == rules[i + 1..];
      FirstToFire(rules[1..], req, env, i - 1);
    }
  }

  /** Where none fires, none decides. */
  lemma {:induction false} NoneToFire(rules: seq<Rule>, req: Request, env: Env)
    requires forall j :: 0 <= j < |rules| ==> RuleFires(rules[j], req, env).Silent?
    ensures FirstMatch(rules, req, env) == Unruled
  {
    if rules != [] {
      NoneToFire(rules[1..], req, env);
    }
  }

  // ---- the three modes ---------------------------------------------------------------------

  ghost predicate Hit(patterns: Patterns, req: Request) {
    req.facet.Some? && Scanner.PatternFires(patterns, Scanner.Decompose(req.facet.value))
  }

  ghost predicate Fetches(req: Request, env: Env) {
    Scanner.Lower(req.tool) == "fetch" && env.publicTool(req.tool)
  }

  ghost predicate ReadsOnly(req: Request, env: Env) {
    && env.publicTool(req.tool)
    && Scanner.Lower(req.tool) in {"grep", "glob", "fetch", "haet_read", "read_file", "git_read", "artifact_read",
                                   "artifact_list", "artifact_write"}
  }

  ghost function DenialOf(c: Catalogue, req: Request, otherwise: Ruling): Ruling {
    if Hit(c.recursiveDelete, req) then Ruling(Deny, ByRule("starter:deny-recursive-delete"))
    else if Hit(c.privilege, req) then Ruling(Deny, ByRule("starter:deny-privilege-escalation"))
    else if Hit(c.forcePush, req) then Ruling(Deny, ByRule("starter:deny-force-push"))
    else if Hit(c.publish, req) then Ruling(Deny, ByRule("starter:deny-package-publish"))
    else if req.facet.Some? && Scanner.PipeToShellFires(Scanner.Decompose(req.facet.value)) then
      Ruling(Deny, ByRule("starter:deny-pipe-to-shell"))
    else otherwise
  }

  ghost function QuestionOf(c: Catalogue, req: Request, otherwise: Ruling): Ruling {
    if req.facet.Some? && Scanner.EscalationFires(Scanner.Decompose(req.facet.value)) then
      Ruling(Ask, ByRule("starter:ask-unreadable-command"))
    else if Hit(c.history, req) then Ruling(Ask, ByRule("starter:ask-history-rewrite"))
    else if Hit(c.install, req) then Ruling(Ask, ByRule("starter:ask-dependency-install"))
    else if Hit(c.container, req) then Ruling(Ask, ByRule("starter:ask-container-control"))
    else otherwise
  }

  ghost function FetchOf(preset: string, req: Request, env: Env, otherwise: Ruling): Ruling {
    if Fetches(req, env) && req.facet.Some? then
      if env.remote(req.facet.value) then Ruling(Ask, ByRule(preset + ":fetch-remote-host"))
      else Ruling(Allow, ByRule(preset + ":fetch-local-host"))
    else otherwise
  }

  ghost function FailedClosed(env: Env): Ruling {
    Ruling(if env.attended then Ask else Deny, FailClosed)
  }

  /** A read in `restricted`: asked about once some path is outside, and failed closed where the root cannot be told. */
  ghost function ReadOf(req: Request, env: Env): Ruling {
    if env.root.Threw? && exists path :: Gives(req.args, path) then FailedClosed(env)
    else if exists path :: Gives(req.args, path) && Outside(path, env) then
      Ruling(Ask, ByRule("restricted:read-outside-workspace"))
    else Ruling(Allow, ByRule("restricted:read-only-tool"))
  }

  ghost function RestrictedRules(c: Catalogue, req: Request, env: Env): Ruling {
    var last := if Hit(c.network, req) then Ruling(Deny, ByRule("restricted:network-command"))
                else if ReadsOnly(req, env) then ReadOf(req, env)
                else Ruling(Deny, ByPreset("restricted"));
    FetchOf("restricted", req, env, DenialOf(c, req, QuestionOf(c, req, last)))
  }

  ghost function AskRules(c: Catalogue, req: Request, env: Env): Ruling {
    var last := if Hit(c.network, req) then Ruling(Ask, ByRule("ask:network-command"))
                else if ReadsOnly(req, env) then Ruling(Allow, ByRule("ask:read-only-tool"))
                else Ruling(Ask, ByPreset("ask"));
    FetchOf("ask", req, env, DenialOf(c, req, QuestionOf(c, req, last)))
  }

  ghost function AutonomousRules(c: Catalogue, req: Request): Ruling {
    DenialOf(c, req, Ruling(Allow, ByPreset("autonomous")))
  }

  /** What a list of rules comes to, with `rest` for what follows it. */
  ghost function Then(v: Verdict, env: Env, rest: Ruling): Ruling {
    match v
    case Ruled(rule) => Ruling(rule.outcome, ByRule(rule.id))
    case Broken => Closed(env)
    case Unruled => rest
  }

  lemma {:induction false} ThenAppend(x: seq<Rule>, y: seq<Rule>, req: Request, env: Env, rest: Ruling)
    ensures Then(FirstMatch(x + y, req, env), env, rest) ==
            Then(FirstMatch(x, req, env), env, Then(FirstMatch(y, req, env), env, rest))
  {
    FirstMatchAppend(x, y, req, env);
  }

  /** One rule at the head of a list. */
  lemma {:induction false} ThenHead(rule: Rule, more: seq<Rule>, req: Request, env: Env, rest: Ruling)
    ensures Then(FirstMatch([rule] + more, req, env), env, rest) ==
            match RuleFires(rule, req, env)
            case Fires => Ruling(rule.outcome, ByRule(rule.id))
            case Throws => Closed(env)
            case Silent => Then(FirstMatch(more, req, env), env, rest)
  {
    assert ([rule] + more)[1..] == more;
  }

  lemma {:induction false} OnPattern(id: string, outcome: Decision, patterns: Patterns, req: Request, env: Env)
    ensures RuleFires(OnCommand(id, outcome, Pattern(patterns)), req, env) ==
            if Hit(patterns, req) then Fires else Silent
  {
  }

  lemma {:induction false} DenialsSay(c: Catalogue, req: Request, env: Env, rest: Ruling)
    ensures Then(FirstMatch(DenyStarters(c), req, env), env, rest) == DenialOf(c, req, rest)
  {
    var r := DenyStarters(c);
    assert r == [r[0]] + ([r[1]] + ([r[2]] + ([r[3]] + ([r[4]] + []))));
    ThenHead(r[4], [], req, env, rest);
    ThenHead(r[3], [r[4]] + [], req, env, rest);
    ThenHead(r[2], [r[3]] + ([r[4]] + []), req, env, rest);
    ThenHead(r[1], [r[2]] + ([r[3]] + ([r[4]] + [])), req, env, rest);
    ThenHead(r[0], [r[1]] + ([r[2]] + ([r[3]] + ([r[4]] + []))), req, env, rest);
    OnPattern(r[0].id, Deny, c.recursiveDelete, req, env);
    OnPattern(r[1].id, Deny, c.privilege, req, env);
    OnPattern(r[2].id, Deny, c.forcePush, req, env);
    OnPattern(r[3].id, Deny, c.publish, req, env);
  }

  lemma {:induction false} QuestionsSay(c: Catalogue, req: Request, env: Env, rest: Ruling)
    ensures Then(FirstMatch(AskStarters(c), req, env), env, rest) == QuestionOf(c, req, rest)
  {
    var r := AskStarters(c);
    assert r == [r[0]] + ([r[1]] + ([r[2]] + ([r[3]] + [])));
    ThenHead(r[3], [], req, env, rest);
    ThenHead(r[2], [r[3]] + [], req, env, rest);
    ThenHead(r[1], [r[2]] + ([r[3]] + []), req, env, rest);
    ThenHead(r[0], [r[1]] + ([r[2]] + ([r[3]] + [])), req, env, rest);
    OnPattern(r[1].id, Ask, c.history, req, env);
    OnPattern(r[2].id, Ask, c.install, req, env);
    OnPattern(r[3].id, Ask, c.container, req, env);
  }

  lemma {:induction false} ClassesAre(req: Request, env: Env)
    ensures ToolSetHolds(NETWORK_TOOLS, req, env) <==> Fetches(req, env)
    ensures ToolSetHolds(READ_ONLY_TOOLS, req, env) <==> ReadsOnly(req, env)
  {
    NamesIs(NETWORK_TOOLS, req, env);
    NamesIs(READ_ONLY_TOOLS, req, env);
  }

  lemma {:induction false} FetchesSay(preset: string, req: Request, env: Env, rest: Ruling)
    ensures Then(FirstMatch(FetchPair(preset), req, env), env, rest) == FetchOf(preset, req, env, rest)
  {
    var r := FetchPair(preset);
    ClassesAre(req, env);
    assert r == [r[0]] + ([r[1]] + []);
    ThenHead(r[1], [], req, env, rest);
    ThenHead(r[0], [r[1]] + [], req, env, rest);
  }

  lemma {:induction false} ReadsSay(c: Catalogue, req: Request, env: Env, rest: Ruling)
    ensures Then(FirstMatch(RestrictedTail(c), req, env), env, rest) ==
            if Hit(c.network, req) then Ruling(Deny, ByRule("restricted:network-command"))
            else if ReadsOnly(req, env) then ReadOf(req, env)
            else rest
  {
    var r := RestrictedTail(c);
    ClassesAre(req, env);
    assert r == [r[0]] + ([r[1]] + ([r[2]] + []));
    ThenHead(r[2], [], req, env, rest);
    ThenHead(r[1], [r[2]] + [], req, env, rest);
    ThenHead(r[0], [r[1]] + ([r[2]] + []), req, env, rest);
    OnPattern(r[0].id, Deny, c.network, req, env);
    ScopeSays(OutsideWorkspace, req, env);
  }

  lemma {:induction false} AskTailSays(c: Catalogue, req: Request, env: Env, rest: Ruling)
    ensures Then(FirstMatch(AskTail(c), req, env), env, rest) ==
            if Hit(c.network, req) then Ruling(Ask, ByRule("ask:network-command"))
            else if ReadsOnly(req, env) then Ruling(Allow, ByRule("ask:read-only-tool"))
            else rest
  {
    var r := AskTail(c);
    ClassesAre(req, env);
    assert r == [r[0]] + ([r[1]] + []);
    ThenHead(r[1], [], req, env, rest);
    ThenHead(r[0], [r[1]] + [], req, env, rest);
    OnPattern(r[0].id, Ask, c.network, req, env);
  }

  ghost predicate LoopControl(req: Request) {
    Scanner.Lower(req.tool) in {"finish", "finishtool", "think", "thinktool"}
  }

  /** What the rules of a built policy come to for a call that no approval covers. */
  ghost function ModeSays(preset: Preset, c: Catalogue, req: Request, env: Env): Ruling {
    if LoopControl(req) then Ruling(Allow, MetaTool)
    else match preset
      case Restricted => RestrictedRules(c, req, env)
      case Supervised => AskRules(c, req, env)
      case Autonomous => AutonomousRules(c, req)
  }

  lemma {:induction false} RestrictedSay(c: Catalogue, req: Request, env: Env)
    ensures Then(FirstMatch(BuildPolicy(Restricted, c).rules, req, env), env, Ruling(Deny, ByPreset("restricted"))) ==
            RestrictedRules(c, req, env)
  {
    var rest := Ruling(Deny, ByPreset("restricted"));
    var last := Then(FirstMatch(RestrictedTail(c), req, env), env, rest);
    ThenAppend(FetchPair("restricted") + (DenyStarters(c) + AskStarters(c)), RestrictedTail(c), req, env, rest);
    BeginsAlike("restricted", c, req, env, last);
    ReadsSay(c, req, env, rest);
  }

  lemma {:induction false} AskSay(c: Catalogue, req: Request, env: Env)
    ensures Then(FirstMatch(BuildPolicy(Supervised, c).rules, req, env), env, Ruling(Ask, ByPreset("ask"))) ==
            AskRules(c, req, env)
  {
    var rest := Ruling(Ask, ByPreset("ask"));
    var last := Then(FirstMatch(AskTail(c), req, env), env, rest);
    ThenAppend(FetchPair("ask") + (DenyStarters(c) + AskStarters(c)), AskTail(c), req, env, rest);
    BeginsAlike("ask", c, req, env, last);
    AskTailSays(c, req, env, rest);
  }

  lemma {:induction false} AutonomousSay(c: Catalogue, req: Request, env: Env)
    ensures Then(FirstMatch(BuildPolicy(Autonomous, c).rules, req, env), env,
                 Ruling(Allow, ByPreset("autonomous"))) == AutonomousRules(c, req)
  {
    DenialsSay(c, req, env, Ruling(Allow, ByPreset("autonomous")));
  }

  lemma {:induction false} UngrantedIs(p: Policy, approvals: seq<Approval>, req: Request, env: Env)
    requires ValidPolicy(p) && !IsMeta(req) && LastMatch(approvals, req, ScopedPaths(req, env)).None?
    ensures RulingOf(p, approvals, req, env) ==
            Then(FirstMatch(p.rules, req, env), env, Ruling(p.otherwise, ByPreset(p.preset)))
  {
  }

  /** For every call in every environment: the three permission modes, rule by rule. */
  lemma {:induction false} ModesSay(preset: Preset, c: Catalogue, approvals: seq<Approval>, req: Request, env: Env)
    requires !IsMeta(req) ==> LastMatch(approvals, req, ScopedPaths(req, env)).None?
    ensures RulingOf(BuildPolicy(preset, c), approvals, req, env) == ModeSays(preset, c, req, env)
  {
    if !IsMeta(req) {
      BuiltAreValid(preset, c);
      UngrantedIs(BuildPolicy(preset, c), approvals, req, env);
      match preset
      case Autonomous => AutonomousSay(c, req, env);
      case Restricted => RestrictedSay(c, req, env);
      case Supervised => AskSay(c, req, env);
    }
  }

  /** The fetch pair and the starters, which the two supervised modes begin with. */
  lemma {:induction false} BeginsAlike(preset: string, c: Catalogue, req: Request, env: Env, last: Ruling)
    ensures Then(FirstMatch(FetchPair(preset) + (DenyStarters(c) + AskStarters(c)), req, env), env, last) ==
            FetchOf(preset, req, env, DenialOf(c, req, QuestionOf(c, req, last)))
  {
    var starters := DenyStarters(c) + AskStarters(c);
    ThenAppend(FetchPair(preset), starters, req, env, last);
    ThenAppend(DenyStarters(c), AskStarters(c), req, env, last);
    QuestionsSay(c, req, env, last);
    DenialsSay(c, req, env, QuestionOf(c, req, last));
    FetchesSay(preset, req, env, DenialOf(c, req, QuestionOf(c, req, last)));
  }

  /** A read-only call of `restricted` without a facet: asked about exactly when some path it gives is outside. */
  lemma {:induction false} RestrictedReads(c: Catalogue, approvals: seq<Approval>, req: Request, env: Env)
    requires Gated(approvals, req, env) && ReadsOnly(req, env) && req.facet.None? && !env.root.Threw?
    ensures RulingOf(BuildPolicy(Restricted, c), approvals, req, env) ==
            if exists path :: Gives(req.args, path) && Outside(path, env)
            then Ruling(Ask, ByRule("restricted:read-outside-workspace"))
            else Ruling(Allow, ByRule("restricted:read-only-tool"))
  {
    ModesSay(Restricted, c, approvals, req, env);
  }

  /** An invalid policy decides no call but those of loop control: it fails closed, to a person where there is one. */
  lemma {:induction false} InvalidFailsClosed(p: Policy, approvals: seq<Approval>, req: Request, env: Env)
    requires !ValidPolicy(p)
    ensures RulingOf(p, approvals, req, env) ==
            if LoopControl(req) then Ruling(Allow, MetaTool)
            else if env.attended then Ruling(Ask, FailClosed) else Ruling(Deny, FailClosed)
  {
  }

  // ---- what an approval covers -------------------------------------------------------------

  /** A write by path: to the public tool of either name, with a path argument. */
  ghost predicate WritesByPath(req: Request, env: Env) {
    && Scanner.Lower(req.tool) in {"write_file", "haet_edit", "haet"} && env.publicTool(req.tool)
    && exists k :: k in PATH_ARGUMENTS && k in req.args
  }

  /** Every path argument can be read and every path it gives resolves. */
  ghost predicate Placed(args: Arguments, env: Env) {
    && (forall k :: k in PATH_ARGUMENTS && k in args ==> !Illegible(args[k]))
    && (forall path :: Gives(args, path) ==> env.resolve(path).Real?)
  }

  ghost predicate Reaches(args: Arguments, env: Env, to: string) {
    exists path :: Gives(args, path) && env.resolve(path) == Real(to)
  }

  function Spelled(a: Argument): string {
    match a case Text(text) => text case Items(_, spelling) => spelling case Other(s) => s
  }

  ghost predicate SameArguments(a: Arguments, b: Arguments) {
    a.Keys == b.Keys && forall k :: k in a && k in b ==> Spelled(a[k]) == Spelled(b[k])
  }

  /** The paths that scope a call: none for any but a write by path, and for that where its paths lead. */
  lemma {:induction false} ScopedBy(req: Request, env: Env)
    ensures var r := ScopedPaths(req, env);
            && (r.NoPaths? <==> !WritesByPath(req, env))
            && (r.Resolved? <==> WritesByPath(req, env) && Placed(req.args, env))
            && (r.Resolved? ==> forall to :: to in r.paths <==> Reaches(req.args, env, to))
  {
    ScopedSays(req, env);
    PlacesSay(req.args, env);
  }

  lemma {:induction false} ToolsAre(given: string, tool: string)
    requires Scanner.Lower(given) in {"write_file", "haet_edit", "haet"}
    requires Scanner.Lower(tool) in {"write_file", "haet_edit", "haet"}
    ensures ApprovalTool(Scanner.Lower(given)) == ApprovalTool(tool) <==>
            (Scanner.Lower(given) == "write_file" <==> Scanner.Lower(tool) == "write_file")
  {
    LowerTwice(given);
  }

  /** The two calls write one tool's files by path, for one persona. */
  ghost predicate SameWriter(given: Request, then_: Env, req: Request, now: Env) {
    && WritesByPath(given, then_) && WritesByPath(req, now) && given.persona == req.persona
    && (Scanner.Lower(given.tool) == "write_file" <==> Scanner.Lower(req.tool) == "write_file")
  }

  lemma {:induction false} ByPlaces(n: nat, given: Request, then_: Env, req: Request, now: Env)
    requires SameWriter(given, then_, req, now)
    ensures ApprovalMatches(SessionApprovalFor(n, given, then_), req, ScopedPaths(req, now)) <==>
            && Placed(given.args, then_) && Placed(req.args, now)
            && forall to :: Reaches(given.args, then_, to) <==> Reaches(req.args, now, to)
  {
    var a, later := ScopedPaths(given, then_), ScopedPaths(req, now);
    ScopedBy(given, then_);
    ScopedBy(req, now);
    ToolsAre(given.tool, req.tool);
    if a.Resolved? && later.Resolved? {
      assert a.paths == later.paths <==> forall to :: to in a.paths <==> to in later.paths;
    }
  }

  lemma {:induction false} ByCall(n: nat, given: Request, then_: Env, req: Request, now: Env)
    requires !SameWriter(given, then_, req, now)
    ensures var a := SessionApprovalFor(n, given, then_);
            ApprovalMatches(a, req, ScopedPaths(req, now)) <==> ExactApprovalMatches(a, req)
  {
    ScopedBy(given, then_);
    ScopedBy(req, now);
    if WritesByPath(given, then_) && WritesByPath(req, now) {
      ToolsAre(given.tool, req.tool);
    }
  }

  lemma {:induction false} ExactIs(n: nat, given: Request, then_: Env, req: Request)
    ensures ExactApprovalMatches(SessionApprovalFor(n, given, then_), req) <==>
            && Scanner.Lower(given.tool) == Scanner.Lower(req.tool) && given.persona == req.persona
            && given.facet == req.facet && (given.facet.None? ==> SameArguments(given.args, req.args))
  {
    SpelledIs(CanonicalArguments(given.args), req.args);
  }

  /**
   * The calls an approval covers, by the call it was given for. Two writes of one tool by one persona are told apart by
   * the real places their paths reach alone; any other call by its tool in any case, its persona, its facet and, where
   * there is none, its arguments as spelled.
   */
  lemma {:induction false} GrantCovers(n: nat, given: Request, then_: Env, req: Request, now: Env)
    ensures ApprovalMatches(SessionApprovalFor(n, given, then_), req, ScopedPaths(req, now)) <==>
            if SameWriter(given, then_, req, now) then
              && Placed(given.args, then_) && Placed(req.args, now)
              && forall to :: Reaches(given.args, then_, to) <==> Reaches(req.args, now, to)
            else
              && Scanner.Lower(given.tool) == Scanner.Lower(req.tool) && given.persona == req.persona
              && given.facet == req.facet && (given.facet.None? ==> SameArguments(given.args, req.args))
  {
    if SameWriter(given, then_, req, now) {
      ByPlaces(n, given, then_, req, now);
    } else {
      ByCall(n, given, then_, req, now);
      ExactIs(n, given, then_, req);
    }
  }

  lemma {:induction false} PlacesSay(args: Arguments, env: Env)
    ensures var r := ResolvedPathSet(args, env);
            && (r.NoPaths? <==> !exists k :: k in PATH_ARGUMENTS && k in args)
            && (r.Resolved? <==> Placed(args, env) && exists k :: k in PATH_ARGUMENTS && k in args)
            && (r.Resolved? ==> forall to :: to in r.paths <==> Reaches(args, env, to))
  {
    PathSetSays(args, env);
  }
}
