/**
 * packages/agent-tools/src/policy.ts: the permission policy. Building gives three rule lists; evaluating is first
 * match, after the session approvals. The pattern catalogues are parameters, so what is proved holds of any catalogue;
 * path resolution, the classification of a URL and the surface behind a tool name are given with the environment.
 */
module Policy {
  import Scanner
  import opened Wrappers

  datatype Decision = Allow | Ask | Deny

  function Strictness(d: Decision): nat {
    match d case Allow => 0 case Ask => 1 case Deny => 2
  }

  predicate AsStrict(a: Decision, b: Decision) {
    Strictness(a) >= Strictness(b)
  }

  // ---- requests ----------------------------------------------------------------------------

  /** An argument's value: a string, a list (a non-string item is None), or anything else, spelled canonically. */
  datatype Argument =
    | Text(text: string)
    | Items(items: seq<Option<string>>, spelling: string)
    | Other(spelling: string)

  function Spelling(a: Argument): string {
    if a.Text? then a.text else a.spelling
  }

  type Arguments = map<string, Argument>

  function CanonicalArguments(args: Arguments): map<string, string> {
    map k | k in args :: Spelling(args[k])
  }

  datatype Request = Request(tool: string, persona: string, args: Arguments, facet: Option<string>)

  /** What the resolver answers for a path: its real path, no answer, or an exception. */
  datatype Resolution = Real(path: string) | Unresolved | Threw

  /**
   * `resolve` joins a path to the workspace root before it resolves it; `root` is what resolving the root itself
   * answers.
   */
  datatype Env = Env(
    attended: bool,
    workspaceRoot: string,
    root: Resolution,
    resolve: string -> Resolution,
    inside: (string, string) -> bool,
    publicTool: string -> bool,
    remote: string -> bool)

  const META_TOOLS: set<string> := {"finish", "finishtool", "think", "thinktool"}
  const READ_ONLY_TOOLS: set<string> := {"grep", "glob", "fetch", "haet_read", "read_file", "git_read", "artifact_read",
    "artifact_list", "artifact_write"}
  const NETWORK_TOOLS: set<string> := {"fetch"}
  const PATH_SCOPED_TOOLS: set<string> := {"write_file", "haet_edit"}
  const PATH_KEYS: seq<string> := ["path", "file_path", "filename", "paths", "base_path", "dir", "directory"]

  function CanonicalTool(name: string): string {
    if name == "haet" then "haet_edit" else name
  }

  function ApprovalTool(name: string): string {
    CanonicalTool(Scanner.Lower(name))
  }

  // ---- rules -------------------------------------------------------------------------------

  datatype Scope = InsideWorkspace | OutsideWorkspace

  type Patterns = seq<seq<string>>

  datatype Matcher = Pattern(compiled: Patterns) | Escalation | PipeToShell | RemoteHost | LocalHost

  datatype Rule = Rule(
    id: string,
    outcome: Decision,
    tools: Option<set<string>>,
    personas: Option<set<string>>,
    scope: Option<Scope>,
    command: Option<Matcher>,
    args: Option<map<string, string>>)

  datatype Policy = Policy(preset: string, otherwise: Decision, rules: seq<Rule>)

  datatype Preset = Restricted | Supervised | Autonomous

  /** The starter rules' patterns and the network commands', compiled. */
  datatype Catalogue = Catalogue(
    recursiveDelete: Patterns,
    privilege: Patterns,
    forcePush: Patterns,
    publish: Patterns,
    history: Patterns,
    install: Patterns,
    container: Patterns,
    network: Patterns)

  function OnCommand(id: string, outcome: Decision, m: Matcher): Rule {
    Rule(id, outcome, None, None, None, Some(m), None)
  }

  function OnTools(id: string, outcome: Decision, tools: set<string>, scope: Option<Scope>,
    command: Option<Matcher>): Rule
  {
    Rule(id, outcome, Some(tools), None, scope, command, None)
  }

  function DenyStarters(c: Catalogue): seq<Rule> {
    [OnCommand("starter:deny-recursive-delete", Deny, Pattern(c.recursiveDelete)),
     OnCommand("starter:deny-privilege-escalation", Deny, Pattern(c.privilege)),
     OnCommand("starter:deny-force-push", Deny, Pattern(c.forcePush)),
     OnCommand("starter:deny-package-publish", Deny, Pattern(c.publish)),
     OnCommand("starter:deny-pipe-to-shell", Deny, PipeToShell)]
  }

  function AskStarters(c: Catalogue): seq<Rule> {
    [OnCommand("starter:ask-unreadable-command", Ask, Escalation),
     OnCommand("starter:ask-history-rewrite", Ask, Pattern(c.history)),
     OnCommand("starter:ask-dependency-install", Ask, Pattern(c.install)),
     OnCommand("starter:ask-container-control", Ask, Pattern(c.container))]
  }

  function FetchPair(preset: string): seq<Rule> {
    [OnTools(preset + ":fetch-remote-host", Ask, NETWORK_TOOLS, None, Some(RemoteHost)),
     OnTools(preset + ":fetch-local-host", Allow, NETWORK_TOOLS, None, Some(LocalHost))]
  }

  function RestrictedTail(c: Catalogue): seq<Rule> {
    [OnCommand("restricted:network-command", Deny, Pattern(c.network)),
     OnTools("restricted:read-outside-workspace", Ask, READ_ONLY_TOOLS, Some(OutsideWorkspace), None),
     OnTools("restricted:read-only-tool", Allow, READ_ONLY_TOOLS, None, None)]
  }

  function AskTail(c: Catalogue): seq<Rule> {
    [OnCommand("ask:network-command", Ask, Pattern(c.network)),
     OnTools("ask:read-only-tool", Allow, READ_ONLY_TOOLS, None, None)]
  }

  function BuildPolicy(preset: Preset, c: Catalogue): Policy {
    match preset
    case Restricted =>
      Policy("restricted", Deny, FetchPair("restricted") + (DenyStarters(c) + AskStarters(c)) + RestrictedTail(c))
    case Supervised => Policy("ask", Ask, FetchPair("ask") + (DenyStarters(c) + AskStarters(c)) + AskTail(c))
    case Autonomous => Policy("autonomous", Allow, DenyStarters(c))
  }

  ghost predicate ValidPolicy(p: Policy) {
    && !Scanner.Blank(p.preset)
    && (forall i :: 0 <= i < |p.rules| ==> !Scanner.Blank(p.rules[i].id))
    && forall i, j :: 0 <= i < j < |p.rules| ==> p.rules[i].id != p.rules[j].id
  }

  method ValidatePolicy(p: Policy) returns (ok: bool)
    ensures ok <==> ValidPolicy(p)
  {
    if Scanner.Blank(p.preset) { return false; }
    var seen: set<string> := {};
    var i := 0;
    while i < |p.rules|
      invariant i <= |p.rules|
      invariant forall id :: id in seen <==> exists j :: 0 <= j < i && p.rules[j].id == id
      invariant forall j :: 0 <= j < i ==> !Scanner.Blank(p.rules[j].id)
      invariant forall j, k :: 0 <= j < k < i ==> p.rules[j].id != p.rules[k].id
    {
      var r := p.rules[i];
      if Scanner.Blank(r.id) || r.id in seen { return false; }
      seen := seen + {r.id};
      i := i + 1;
    }
    ok := true;
  }

  // ---- the paths of a request --------------------------------------------------------------

  /**
   * The paths a request's path arguments resolve to; fail-closed on a value that is not a path, or a path that does not
   * resolve.
   */
  datatype Paths = NoPaths | Unresolvable | Resolved(paths: set<string>)

  predicate Readable(a: Argument) {
    a.Text? || (a.Items? && forall i :: 0 <= i < |a.items| ==> a.items[i].Some?)
  }

  function Strings(items: seq<Option<string>>): seq<string> {
    if items == [] then [] else (if items[0].Some? then [items[0].value] else []) + Strings(items[1..])
  }

  /** The strings of an argument; what is not a string is passed over. */
  function StringsOf(a: Argument): seq<string> {
    match a case Text(t) => [t] case Items(items, _) => Strings(items) case Other(_) => []
  }

  /** The path arguments among the first `n` path keys, in key order. */
  function PathArguments(args: Arguments, n: nat): seq<string>
    requires n <= |PATH_KEYS|
  {
    if n == 0 then []
    else PathArguments(args, n - 1) + if PATH_KEYS[n - 1] in args then StringsOf(args[PATH_KEYS[n - 1]]) else []
  }

  predicate CarriesPath(args: Arguments, n: nat)
    requires n <= |PATH_KEYS|
  {
    exists i :: 0 <= i < n && PATH_KEYS[i] in args
  }

  predicate AllReadable(args: Arguments, n: nat)
    requires n <= |PATH_KEYS|
  {
    forall i :: 0 <= i < n && PATH_KEYS[i] in args ==> Readable(args[PATH_KEYS[i]])
  }

  predicate AllResolve(paths: seq<string>, env: Env) {
    forall i :: 0 <= i < |paths| ==> env.resolve(paths[i]).Real?
  }

  function RealPaths(paths: seq<string>, env: Env): set<string>
    requires AllResolve(paths, env)
  {
    set i | 0 <= i < |paths| :: env.resolve(paths[i]).path
  }

  function ResolvedPathSet(args: Arguments, env: Env): Paths {
    var raw := PathArguments(args, |PATH_KEYS|);
    if !AllReadable(args, |PATH_KEYS|) then Unresolvable
    else if !CarriesPath(args, |PATH_KEYS|) then NoPaths
    else if !AllResolve(raw, env) then Unresolvable
    else Resolved(RealPaths(raw, env))
  }

  method CollectPaths(args: Arguments) returns (raw: seq<string>, carried: bool, readable: bool)
    ensures readable <==> AllReadable(args, |PATH_KEYS|)
    ensures readable ==> raw == PathArguments(args, |PATH_KEYS|) && (carried <==> CarriesPath(args, |PATH_KEYS|))
  {
    raw, carried := [], false;
    var i := 0;
    while i < |PATH_KEYS|
      invariant i <= |PATH_KEYS|
      invariant raw == PathArguments(args, i)
      invariant carried <==> CarriesPath(args, i)
      invariant AllReadable(args, i)
    {
      var k := PATH_KEYS[i];
      if k in args {
        carried := true;
        if !Readable(args[k]) { return raw, carried, false; }
        raw := raw + StringsOf(args[k]);
      }
      i := i + 1;
    }
    readable := true;
  }

  method ResolvePathSet(args: Arguments, env: Env) returns (r: Paths)
    ensures r == ResolvedPathSet(args, env)
  {
    var raw, carried, readable := CollectPaths(args);
    if !readable { return Unresolvable; }
    if !carried { return NoPaths; }
    var out: set<string> := {};
    var i := 0;
    while i < |raw|
      invariant i <= |raw|
      invariant AllResolve(raw[..i], env) && out == RealPaths(raw[..i], env)
    {
      var found := env.resolve(raw[i]);
      if !found.Real? {
        assert !AllResolve(raw, env);
        return Unresolvable;
      }
      assert raw[..i + 1] == raw[..i] + [raw[i]];
      ghost var before := RealPaths(raw[..i], env);
      out := out + {found.path};
      assert forall j :: 0 <= j < i ==> raw[..i + 1][j] == raw[..i][j];
      assert RealPaths(raw[..i + 1], env) == before + {found.path};
      i := i + 1;
    }
    assert raw[..i] == raw;
    r := Resolved(out);
  }

  // ---- session approvals -------------------------------------------------------------------

  datatype Approval = Approval(
    number: nat,
    tool: string,
    persona: string,
    facet: Option<string>,
    args: Option<map<string, string>>,
    paths: Paths)

  predicate PathScopedCall(req: Request, env: Env) {
    ApprovalTool(req.tool) in PATH_SCOPED_TOOLS && env.publicTool(req.tool)
  }

  function ScopedPaths(req: Request, env: Env): Paths {
    if PathScopedCall(req, env) then ResolvedPathSet(req.args, env) else NoPaths
  }

  function SessionApprovalFor(n: nat, req: Request, env: Env): Approval {
    Approval(n, Scanner.Lower(req.tool), req.persona, req.facet,
             if req.facet.None? then Some(CanonicalArguments(req.args)) else None, ScopedPaths(req, env))
  }

  predicate ExactApprovalMatches(a: Approval, req: Request) {
    && a.tool == Scanner.Lower(req.tool) && a.persona == req.persona
    && if a.facet.Some? then req.facet == a.facet
       else req.facet.None? && (if a.args.Some? then a.args.value else map[]) == CanonicalArguments(req.args)
  }

  predicate ApprovalMatches(a: Approval, req: Request, later: Paths) {
    if
      && !a.paths.NoPaths? && ApprovalTool(a.tool) == ApprovalTool(req.tool)
      && a.persona == req.persona && !later.NoPaths?
    then
      a.paths.Resolved? && later.Resolved? && a.paths.paths == later.paths
    else
      ExactApprovalMatches(a, req)
  }

  lemma {:induction false} LowerTwice(text: string)
    ensures Scanner.Lower(Scanner.Lower(text)) == Scanner.Lower(text)
  {
    var low := Scanner.Lower(text);
    assert |low| == |text| && forall i :: 0 <= i < |text| ==> low[i] == Scanner.LowerChar(text[i]);
  }

  /** The same call, as the exact rule compares: the facet byte for byte, or else every argument. */
  predicate SameCall(x: Request, y: Request) {
    && Scanner.Lower(x.tool) == Scanner.Lower(y.tool) && x.persona == y.persona && x.facet == y.facet
    && (x.facet.None? ==> CanonicalArguments(x.args) == CanonicalArguments(y.args))
  }

  /** What granting a call covers: of two calls that both carry paths the paths alone decide, else every argument. */
  predicate Covers(req: Request, env: Env, later: Request, laterEnv: Env) {
    var granted, now := ScopedPaths(req, env), ScopedPaths(later, laterEnv);
    if
      && !granted.NoPaths? && !now.NoPaths?
      && ApprovalTool(req.tool) == ApprovalTool(later.tool) && req.persona == later.persona
    then granted.Resolved? && granted == now
    else SameCall(req, later)
  }

  /** A granted call's approval matches later exactly the calls the grant covers. */
  lemma {:induction false} GrantMatches(n: nat, req: Request, env: Env, later: Request, laterEnv: Env)
    ensures ApprovalMatches(SessionApprovalFor(n, req, env), later, ScopedPaths(later, laterEnv)) <==>
            Covers(req, env, later, laterEnv)
  {
    LowerTwice(req.tool);
  }

  /** A granted call made again is matched unless its paths were or are unresolvable, or now resolve elsewhere. */
  predicate StillCovered(req: Request, env: Env, laterEnv: Env) {
    var granted, now := ScopedPaths(req, env), ScopedPaths(req, laterEnv);
    granted.NoPaths? || now.NoPaths? || (granted.Resolved? && granted == now)
  }

  // ---- evaluation --------------------------------------------------------------------------

  datatype Firing = Fires | Silent | Throws

  predicate ToolSetHolds(tools: set<string>, req: Request, env: Env) {
    && (Scanner.Lower(req.tool) in tools || Scanner.Lower(CanonicalTool(req.tool)) in tools)
    && env.publicTool(req.tool)
  }

  predicate IsInside(path: string, env: Env) {
    var found := env.resolve(path);
    found.Real? && env.inside(if env.root.Real? then env.root.path else env.workspaceRoot, found.path)
  }

  function ScopeFires(scope: Scope, req: Request, env: Env): Firing {
    var paths := PathArguments(req.args, |PATH_KEYS|);
    if paths == [] then Silent
    else if env.root.Threw? then Throws
    else if match scope
            case OutsideWorkspace => exists i :: 0 <= i < |paths| && !IsInside(paths[i], env)
            case InsideWorkspace => forall i :: 0 <= i < |paths| ==> IsInside(paths[i], env)
         then Fires else Silent
  }

  predicate CommandFires(m: Matcher, facet: Option<string>, env: Env) {
    facet.Some? &&
    match m
    case Pattern(compiled) => Scanner.PatternFires(compiled, Scanner.Decompose(facet.value))
    case Escalation => Scanner.EscalationFires(Scanner.Decompose(facet.value))
    case PipeToShell => Scanner.PipeToShellFires(Scanner.Decompose(facet.value))
    case RemoteHost => env.remote(facet.value)
    case LocalHost => !env.remote(facet.value)
  }

  function RuleFires(rule: Rule, req: Request, env: Env): Firing {
    if rule.tools.Some? && !ToolSetHolds(rule.tools.value, req, env) then Silent
    else if rule.personas.Some? && req.persona !in rule.personas.value then Silent
    else
      var scoped := if rule.scope.Some? then ScopeFires(rule.scope.value, req, env) else Fires;
      if !scoped.Fires? then scoped
      else if rule.command.Some? && !CommandFires(rule.command.value, req.facet, env) then Silent
      else if rule.args.Some? && rule.args.value != CanonicalArguments(req.args) then Silent
      else Fires
  }

  datatype Verdict = Unruled | Ruled(rule: Rule) | Broken

  /** First match. */
  function FirstMatch(rules: seq<Rule>, req: Request, env: Env): Verdict {
    if rules == [] then Unruled
    else match RuleFires(rules[0], req, env)
      case Fires => Ruled(rules[0])
      case Throws => Broken
      case Silent => FirstMatch(rules[1..], req, env)
  }

  datatype Source = MetaTool | Session(number: nat) | ByRule(id: string) | ByPreset(preset: string) | FailClosed

  datatype Ruling = Ruling(decision: Decision, source: Source)

  function Closed(env: Env): Ruling {
    Ruling(if env.attended then Ask else Deny, FailClosed)
  }

  /** The most recent approval that matches. */
  function LastMatch(approvals: seq<Approval>, req: Request, now: Paths): Option<Approval> {
    if approvals == [] then None
    else if ApprovalMatches(approvals[|approvals| - 1], req, now) then Some(approvals[|approvals| - 1])
    else LastMatch(approvals[..|approvals| - 1], req, now)
  }

  predicate IsMeta(req: Request) {
    Scanner.Lower(req.tool) in META_TOOLS
  }

  ghost function RulingOf(p: Policy, approvals: seq<Approval>, req: Request, env: Env): Ruling {
    if IsMeta(req) then Ruling(Allow, MetaTool)
    else if !ValidPolicy(p) then Closed(env)
    else match LastMatch(approvals, req, ScopedPaths(req, env))
      case Some(a) => Ruling(Allow, Session(a.number))
      case None =>
        match FirstMatch(p.rules, req, env)
        case Ruled(rule) => Ruling(rule.outcome, ByRule(rule.id))
        case Unruled => Ruling(p.otherwise, ByPreset(p.preset))
        case Broken => Closed(env)
  }

  method ScopeMatches(scope: Scope, req: Request, env: Env) returns (r: Firing)
    ensures r == ScopeFires(scope, req, env)
  {
    var paths := PathArguments(req.args, |PATH_KEYS|);
    if paths == [] { return Silent; }
    if env.root.Threw? { return Throws; }
    var i := 0;
    while i < |paths|
      invariant i <= |paths|
      invariant forall j :: 0 <= j < i ==> IsInside(paths[j], env)
    {
      if !IsInside(paths[i], env) {
        return if scope.OutsideWorkspace? then Fires else Silent;
      }
      i := i + 1;
    }
    r := if scope.InsideWorkspace? then Fires else Silent;
  }

  method EvaluatePolicy(p: Policy, approvals: seq<Approval>, req: Request, env: Env) returns (r: Ruling)
    ensures r == RulingOf(p, approvals, req, env)
  {
    if IsMeta(req) { return Ruling(Allow, MetaTool); }
    var valid := ValidatePolicy(p);
    if !valid { return Closed(env); }
    var now := NoPaths;
    if PathScopedCall(req, env) { now := ResolvePathSet(req.args, env); }
    var i := |approvals|;
    assert approvals[..i] == approvals;
    while i > 0
      invariant i <= |approvals|
      invariant LastMatch(approvals[..i], req, now) == LastMatch(approvals, req, now)
    {
      i := i - 1;
      assert approvals[..i + 1][..i] == approvals[..i];
      if ApprovalMatches(approvals[i], req, now) { return Ruling(Allow, Session(approvals[i].number)); }
    }
    r := ApplyRules(p, req, env);
  }

  method ApplyRules(p: Policy, req: Request, env: Env) returns (r: Ruling)
    ensures r == match FirstMatch(p.rules, req, env)
                 case Ruled(rule) => Ruling(rule.outcome, ByRule(rule.id))
                 case Unruled => Ruling(p.otherwise, ByPreset(p.preset))
                 case Broken => Closed(env)
  {
    var i := 0;
    assert p.rules[0..] == p.rules;
    while i < |p.rules|
      invariant i <= |p.rules|
      invariant FirstMatch(p.rules[i..], req, env) == FirstMatch(p.rules, req, env)
    {
      assert p.rules[i..][1..] == p.rules[i + 1..];
      match RuleFires(p.rules[i], req, env) {
        case Fires => return Ruling(p.rules[i].outcome, ByRule(p.rules[i].id));
        case Throws => return Closed(env);
        case Silent =>
      }
      i := i + 1;
    }
    r := Ruling(p.otherwise, ByPreset(p.preset));
  }
}
