/**
 * What every interleaving of the gate's steps keeps.
 */
module GateSafety {
  import opened Approvals
  import opened GateProtocol
  import opened Wrappers

  /** One call's events, in order. */
  function Log(trace: seq<Entry>, c: nat): seq<Fact> {
    if trace == [] then []
    else
      var last := trace[|trace| - 1];
      Log(trace[..|trace| - 1], c) + (if last.call == c then [last.fact] else [])
  }

  lemma {:induction false} LogEmit(trace: seq<Entry>, call: nat, fact: Fact, c: nat)
    ensures Log(trace + [Entry(call, fact)], c) == Log(trace, c) + (if call == c then [fact] else [])
  {
    assert (trace + [Entry(call, fact)])[..|trace|] == trace;
  }

  /** The log of a call a hook or the executor may now see: allowed by rule, or by a person asked. */
  ghost predicate AllowedLog(log: seq<Fact>) {
    || (|log| == 2 && log[0] == Opened && log[1] == Audited(true, Rule))
    || (&& |log| == 3 && log[0] == Opened && log[1] == Requested(true)
        && log[2].Audited? && log[2].allow && (log[2].source == UserOnce || log[2].source == UserSession))
  }

  ghost predicate RanLog(log: seq<Fact>) {
    |log| > 0 && log[|log| - 1] == Ran && AllowedLog(log[..|log| - 1])
  }

  ghost predicate DeniedLog(log: seq<Fact>) {
    || (|log| == 2 && log[0] == Opened && log[1] == Audited(false, Rule))
    || (|log| == 3 && log[0] == Opened && log[1].Requested? && log[2].Audited? && !log[2].allow)
  }

  ghost predicate AskedLog(log: seq<Fact>) {
    |log| == 2 && log[0] == Opened && log[1] == Requested(true)
  }

  ghost predicate OverLog(log: seq<Fact>) {
    (|log| == 1 && log[0] == Opened) || AskedLog(log) || DeniedLog(log) || AllowedLog(log) || RanLog(log)
  }

  /** The events a call has produced, by where it stands. */
  ghost predicate LogFits(phase: Option<Phase>, log: seq<Fact>, recorded: bool) {
    match phase
    case None => log == []
    case Some(Presenting) => AskedLog(log)
    case Some(Shown) => AskedLog(log)
    case Some(Held) => AskedLog(log)
    case Some(Brokered(allow, source)) =>
      && |log| == 2 && log[0] == Opened && log[1].Requested?
      && (allow ==> log[1].brokered && (source == UserOnce || source == UserSession))
    case Some(Interrupted) => AskedLog(log)
    case Some(PreHook) => AllowedLog(log)
    case Some(Executing) => RanLog(log)
    case Some(PostHook(_)) => RanLog(log)
    case Some(Threw) => (|log| == 1 && log[0] == Opened) || AllowedLog(log) || RanLog(log)
    case Some(Finished) =>
      if recorded then |log| > 0 && log[|log| - 1].Settled? && OverLog(log[..|log| - 1]) else OverLog(log)
  }

  function PhaseOf(s: State, c: nat): Option<Phase> {
    if c in s.phases then Some(s.phases[c]) else None
  }

  /** A brokered decision follows from its wait's outcome, or from a broker that failed. */
  ghost predicate Explained(s: State, c: nat, allow: bool, source: Source) {
    || (!allow && (source == PresenterError || source == FailClosed))
    || (&& c in s.waitOf
        && var outcome := OutcomeOf(s.registry.settled, s.waitOf[c]);
        && outcome.Some?
        && (OutcomePhase(outcome.value, true) == Brokered(allow, source) || OutcomePhase(outcome.value,
             false) == Brokered(allow, source)))
  }

  ghost predicate DecisionExplained(s: State, c: nat, log: seq<Fact>) {
    && (c in s.waitOf <==> |log| >= 2 && log[1] == Requested(true))
    && (c in s.waitOf && c in s.phases && s.phases[c].Brokered? ==>
          Explained(s, c, s.phases[c].allow, s.phases[c].source))
    && (c in s.waitOf && |log| >= 3 && log[2].Audited? ==> Explained(s, c, log[2].allow, log[2].source))
    && (c in s.waitOf && c in s.phases && s.phases[c].Interrupted? ==>
          var outcome := OutcomeOf(s.registry.settled, s.waitOf[c]);
          outcome.Some? && outcome.value.Withdrawn?)
  }

  ghost predicate CallOk(cfg: Config, s: State, c: nat) {
    LogFits(PhaseOf(s, c), Log(s.trace, c), cfg.recorded(c)) && DecisionExplained(s, c, Log(s.trace, c))
  }

  /** A pending wait belongs to the awaiting call its payload names. */
  ghost predicate WaiterOk(cfg: Config, s: State, w: Waiter) {
    var c := w.payload.call;
    && w.payload == Payload(cfg.idOf(c), c)
    && c in s.waitOf && s.waitOf[c] == w.wait
    && c in s.phases && Awaiting(s.phases[c])
  }

  ghost predicate WaitsNamed(s: State) {
    && (forall c :: c in s.waitOf ==> s.waitOf[c] < s.registry.created && c in s.phases)
    && (forall c, d :: c in s.waitOf && d in s.waitOf && s.waitOf[c] == s.waitOf[d] ==> c == d)
    && (forall c :: c in s.phases && Awaiting(s.phases[c]) ==> c in s.waitOf)
  }

  ghost predicate CoreOk(cfg: Config, s: State) {
    && Inv(s.registry)
    && (forall w :: w in s.registry.waiters ==> WaiterOk(cfg, s, w))
    && WaitsNamed(s)
  }

  /** The ids pending now. */
  function Ids(waiters: seq<Waiter>): set<string> {
    set i | 0 <= i < |waiters| :: waiters[i].payload.requestId
  }

  function Keep(mirror: seq<Payload>, ids: set<string>): seq<Payload> {
    if mirror == [] then []
    else
      Keep(mirror[..|mirror| - 1], ids) + (if mirror[|mirror| - 1].requestId in ids then [mirror[|mirror| - 1]] else [])
  }

  /** A mirrored request no longer pending belongs to a call whose broker has yet to answer. */
  ghost predicate StaleOk(cfg: Config, s: State, p: Payload) {
    p.requestId == cfg.idOf(p.call) && p.call in s.phases && Awaiting(s.phases[p.call])
  }

  ghost predicate MirrorOk(cfg: Config, s: State) {
    && Keep(s.mirror, Ids(s.registry.waiters)) == Payloads(s.registry.waiters)
    && (forall p :: p in s.mirror && p.requestId !in Ids(s.registry.waiters) ==> StaleOk(cfg, s, p))
  }

  ghost predicate AwayOk(cfg: Config, s: State) {
    && (forall w :: w in s.registry.waiters && !Exempt(cfg, w.payload.call) ==> w.payload.call in s.listeners)
    && (s.away.Some? && !s.away.value.duringQuit ==>
          forall w :: w in s.registry.waiters ==> Exempt(cfg, w.payload.call))
  }

  ghost predicate Safe(cfg: Config, s: State) {
    CoreOk(cfg, s) && MirrorOk(cfg, s) && AwayOk(cfg, s) && forall c: nat :: CallOk(cfg, s, c)
  }

  // ---- outcomes ----------------------------------------------------------------------------

  lemma {:induction false} OutcomeRecorded(settled: seq<Settlement>, wait: nat)
    ensures OutcomeOf(settled, wait).Some? ==> Settlement(wait, OutcomeOf(settled, wait).value) in settled
    ensures OutcomeOf(settled, wait).None? ==> forall s :: s in settled ==> s.wait != wait
    decreases settled
  {
    if settled != [] && settled[|settled| - 1].wait != wait {
      OutcomeRecorded(settled[..|settled| - 1], wait);
    }
  }

  /** An outcome once recorded stays: a wait is settled once. */
  lemma {:induction false} OutcomeStays(r: Registry, before: seq<Settlement>, wait: nat)
    requires WaitsDistinct(r) && before <= r.settled && OutcomeOf(before, wait).Some?
    ensures OutcomeOf(r.settled, wait) == OutcomeOf(before, wait)
  {
    OutcomeRecorded(before, wait);
    OutcomeRecorded(r.settled, wait);
    var a := Settlement(wait, OutcomeOf(before, wait).value);
    var i :| 0 <= i < |before| && before[i] == a;
    assert r.settled[i] == a;
    var b := Settlement(wait, OutcomeOf(r.settled, wait).value);
    var j :| 0 <= j < |r.settled| && r.settled[j] == b;
    assert i == j;
  }

  /** Nothing about `c` changed but what else was settled. */
  lemma {:induction false} CallUntouched(cfg: Config, s: State, t: State, c: nat)
    requires CallOk(cfg, s, c) && WaitsDistinct(t.registry) && s.registry.settled <= t.registry.settled
    requires PhaseOf(t, c) == PhaseOf(s, c) && Log(t.trace, c) == Log(s.trace, c)
    requires c in t.waitOf <==> c in s.waitOf
    requires c in s.waitOf ==> t.waitOf[c] == s.waitOf[c]
    ensures CallOk(cfg, t, c)
  {
    if c in s.waitOf && OutcomeOf(s.registry.settled, s.waitOf[c]).Some? {
      OutcomeStays(t.registry, s.registry.settled, s.waitOf[c]);
    }
  }

  // ---- the pending list and its mirror -----------------------------------------------------

  lemma {:induction false} PayloadsAppend(a: seq<Waiter>, b: seq<Waiter>)
    ensures Payloads(a + b) == Payloads(a) + Payloads(b)
    decreases b
  {
    if b == [] {
      assert a + b == a;
    } else {
      assert (a + b)[..|a + b| - 1] == a + b[..|b| - 1];
      PayloadsAppend(a, b[..|b| - 1]);
    }
  }

  lemma {:induction false} KeepAppend(a: seq<Payload>, b: seq<Payload>, ids: set<string>)
    ensures Keep(a + b, ids) == Keep(a, ids) + Keep(b, ids)
    decreases b
  {
    if b == [] {
      assert a + b == a;
    } else {
      assert (a + b)[..|a + b| - 1] == a + b[..|b| - 1];
      KeepAppend(a, b[..|b| - 1], ids);
    }
  }

  lemma {:induction false} KeepMembers(mirror: seq<Payload>, ids: set<string>)
    ensures forall p :: p in Keep(mirror, ids) <==> p in mirror && p.requestId in ids
    decreases mirror
  {
    if mirror != [] {
      var front := mirror[..|mirror| - 1];
      KeepMembers(front, ids);
      assert mirror == front + [mirror[|mirror| - 1]];
    }
  }

  lemma {:induction false} KeepAllAt(mirror: seq<Payload>, ids: set<string>)
    requires forall i :: 0 <= i < |mirror| ==> mirror[i].requestId in ids
    ensures Keep(mirror, ids) == mirror
    decreases mirror
  {
    if mirror != [] {
      var front, last := mirror[..|mirror| - 1], mirror[|mirror| - 1];
      KeepAllAt(front, ids);
      assert front + [last] == mirror;
    }
  }

  lemma {:induction false} KeepAll(mirror: seq<Payload>, ids: set<string>)
    requires forall p :: p in mirror ==> p.requestId in ids
    ensures Keep(mirror, ids) == mirror
  {
    assert forall i :: 0 <= i < |mirror| ==> mirror[i] in mirror;
    KeepAllAt(mirror, ids);
  }

  lemma {:induction false} KeepKeep(mirror: seq<Payload>, ids: set<string>, fewer: set<string>)
    requires fewer <= ids
    ensures Keep(Keep(mirror, ids), fewer) == Keep(mirror, fewer)
    decreases mirror
  {
    if mirror != [] {
      var last := mirror[|mirror| - 1];
      KeepKeep(mirror[..|mirror| - 1], ids, fewer);
      var tail := if last.requestId in ids then [last] else [];
      KeepAppend(Keep(mirror[..|mirror| - 1], ids), tail, fewer);
      assert Keep([], fewer) == [];
      assert [last][..0] == [];
    }
  }

  lemma {:induction false} PayloadMembers(waiters: seq<Waiter>)
    ensures forall p ::
              p in Payloads(waiters) ==> p.requestId in Ids(waiters) && exists w :: w in waiters && w.payload == p
    ensures forall w :: w in waiters ==> w.payload in Payloads(waiters) && w.payload.requestId in Ids(waiters)
    decreases waiters
  {
    if waiters != [] {
      var front := waiters[..|waiters| - 1];
      var last := waiters[|waiters| - 1];
      PayloadMembers(front);
      assert waiters == front + [last];
      forall p | p in Payloads(waiters)
        ensures p.requestId in Ids(waiters) && exists w :: w in waiters && w.payload == p
      {
        if p in Payloads(front) {
          var w :| w in front && w.payload == p;
          assert w in waiters;
          var i :| 0 <= i < |front| && front[i] == w;
          assert waiters[i].payload.requestId == p.requestId;
        } else {
          assert last in waiters && last.payload == p;
        }
      }
      forall w | w in waiters ensures w.payload in Payloads(waiters) && w.payload.requestId in Ids(waiters) {
        var i :| 0 <= i < |waiters| && waiters[i] == w;
        assert w in front || w == last;
      }
    }
  }

  lemma {:induction false} KeepOwn(waiters: seq<Waiter>)
    ensures Keep(Payloads(waiters), Ids(waiters)) == Payloads(waiters)
  {
    PayloadMembers(waiters);
    KeepAll(Payloads(waiters), Ids(waiters));
  }

  /** `w` is a wait of `r`, its timer and its shown flag aside. */
  ghost predicate From(r: Registry, w: Waiter) {
    exists v :: v in r.waiters && v.wait == w.wait && v.payload == w.payload
  }

  /** Waits ended and no other began. */
  ghost predicate Shrinks(r: Registry, to: Registry) {
    && Inv(to) && to.created == r.created && r.settled <= to.settled
    && (forall w :: w in to.waiters ==> From(r, w))
    && Ids(to.waiters) <= Ids(r.waiters)
    && Payloads(to.waiters) == Keep(Payloads(r.waiters), Ids(to.waiters))
  }

  lemma {:induction false} ShrinksTransitive(a: Registry, b: Registry, c: Registry)
    requires Shrinks(a, b) && Shrinks(b, c)
    ensures Shrinks(a, c)
  {
    forall w | w in c.waiters ensures From(a, w) {
      assert From(b, w);
      var v :| v in b.waiters && v.wait == w.wait && v.payload == w.payload;
      assert From(a, v);
    }
    KeepKeep(Payloads(a.waiters), Ids(b.waiters), Ids(c.waiters));
  }

  lemma {:induction false} SamePayloads(r: Registry, to: Registry)
    requires Inv(to) && to.created == r.created && r.settled <= to.settled && |to.waiters| == |r.waiters|
    requires forall i ::
               0 <= i < |r.waiters| ==>
               to.waiters[i].payload == r.waiters[i].payload && to.waiters[i].wait == r.waiters[i].wait
    ensures Shrinks(r, to)
  {
    forall w | w in to.waiters ensures From(r, w) {
      var i :| 0 <= i < |to.waiters| && to.waiters[i] == w;
      assert r.waiters[i] in r.waiters;
    }
    PayloadsEqual(r.waiters, to.waiters);
    assert Ids(r.waiters) == Ids(to.waiters);
    KeepOwn(r.waiters);
  }

  lemma {:induction false} PayloadsEqual(a: seq<Waiter>, b: seq<Waiter>)
    requires |a| == |b| && forall i :: 0 <= i < |a| ==> a[i].payload == b[i].payload
    ensures Payloads(a) == Payloads(b)
    decreases a
  {
    if a != [] {
      PayloadsEqual(a[..|a| - 1], b[..|b| - 1]);
    }
  }

  lemma {:induction false} KeepEveryPayload(waiters: seq<Waiter>, ids: set<string>)
    requires forall k :: 0 <= k < |waiters| ==> waiters[k].payload.requestId in ids
    ensures Keep(Payloads(waiters), ids) == Payloads(waiters)
    decreases waiters
  {
    if waiters != [] {
      KeepEveryPayload(waiters[..|waiters| - 1], ids);
      KeepSnoc(Payloads(waiters[..|waiters| - 1]), waiters[|waiters| - 1].payload, ids);
    }
  }

  lemma {:induction false} KeepSnoc(mirror: seq<Payload>, last: Payload, ids: set<string>)
    ensures Keep(mirror + [last], ids) == Keep(mirror, ids) + (if last.requestId in ids then [last] else [])
  {
    assert (mirror + [last])[..|mirror|] == mirror;
  }

  lemma {:induction false} KeepWithoutOne(waiters: seq<Waiter>, i: nat, ids: set<string>)
    requires i < |waiters| && waiters[i].payload.requestId !in ids
    requires forall k :: 0 <= k < |waiters| && k != i ==> waiters[k].payload.requestId in ids
    ensures Keep(Payloads(waiters), ids) == Payloads(waiters[..i] + waiters[i + 1..])
    decreases waiters
  {
    var n := |waiters| - 1;
    var front := waiters[..n];
    KeepSnoc(Payloads(front), waiters[n].payload, ids);
    if i == n {
      KeepEveryPayload(front, ids);
      assert waiters[..i] + waiters[i + 1..] == front;
    } else {
      KeepWithoutOne(front, i, ids);
      var rest := waiters[..i] + waiters[i + 1..];
      assert rest[..|rest| - 1] == front[..i] + front[i + 1..];
    }
  }

  lemma {:induction false} IdsWithoutOne(waiters: seq<Waiter>, i: nat)
    requires DistinctIds(waiters) && i < |waiters|
    ensures waiters[i].payload.requestId !in Ids(waiters[..i] + waiters[i + 1..])
    ensures Ids(waiters[..i] + waiters[i + 1..]) <= Ids(waiters)
    ensures forall k ::
              0 <= k < |waiters| && k != i ==> waiters[k].payload.requestId in Ids(waiters[..i] + waiters[i + 1..])
  {
    var rest := waiters[..i] + waiters[i + 1..];
    assert forall k :: 0 <= k < |rest| ==> rest[k] == waiters[if k < i then k else k + 1];
    forall k | 0 <= k < |waiters| && k != i ensures waiters[k].payload.requestId in Ids(rest) {
      assert rest[if k < i then k else k - 1] == waiters[k];
    }
  }

  lemma {:induction false} FinishShrinks(r: Registry, id: string, outcome: Outcome)
    requires Inv(r)
    ensures Shrinks(r, Finish(r, id, outcome))
  {
    FinishKeepsInv(r, id, outcome);
    var to := Finish(r, id, outcome);
    var i := Approvals.IndexOf(r.waiters, id);
    if i == |r.waiters| {
      SamePayloads(r, to);
    } else {
      Removed(r, id, outcome);
      forall w | w in to.waiters ensures From(r, w) {
        assert w in r.waiters;
      }
      IdsWithoutOne(r.waiters, i);
      KeepWithoutOne(r.waiters, i, Ids(to.waiters));
    }
  }

  lemma {:induction false} FinishEveryShrinks(r: Registry, outcome: Outcome)
    requires Inv(r)
    ensures Shrinks(r, FinishEvery(r, outcome))
  {
    FinishAllKeepsInv(r, outcome);
    KeepNone(Payloads(r.waiters));
    assert Ids(FinishEvery(r, outcome).waiters) == {};
  }

  lemma {:induction false} KeepNone(mirror: seq<Payload>)
    ensures Keep(mirror, {}) == []
    decreases mirror
  {
    if mirror != [] {
      KeepNone(mirror[..|mirror| - 1]);
    }
  }

  /** A held expiry changes one wait's timer and nothing else of any wait. */
  lemma {:induction false} HeldShrinks(r: Registry, handle: nat)
    requires Inv(r) && handle in r.timers
    ensures Shrinks(r, Expire(r, handle, true))
  {
    RearmKeepsInv(r, handle);
    var to := Expire(r, handle, true);
    var i := TimerHolder(r, handle);
    assert to.waiters == r.waiters[i := r.waiters[i].(timer := Some(r.armed))] && to.settled == r.settled
           && to.created == r.created;
    SamePayloads(r, to);
  }

  lemma {:induction false} FireShrinks(r: Registry, handle: nat, held: bool)
    requires Inv(r) && handle in r.timers
    ensures Shrinks(r, Expire(r, handle, held))
  {
    if held {
      HeldShrinks(r, handle);
    } else {
      ExpireIsFinish(r, handle);
      FinishShrinks(r, r.timers[handle].requestId, TimedOut(SecondsOf(r.timers[handle].afterMs)));
    }
  }

  lemma {:induction false} ShownShrinks(r: Registry, id: string)
    requires Inv(r)
    ensures Shrinks(r, WithShown(r, id))
  {
    MarkShownKeepsInv(r, id);
    SamePayloads(r, WithShown(r, id));
  }

  lemma {:induction false} EndAwayShrinks(cfg: Config, r: Registry, listeners: seq<nat>, seconds: real)
    requires Inv(r)
    ensures Shrinks(r, EndAwayEach(cfg, r, listeners, seconds))
    decreases listeners
  {
    if listeners == [] {
      SamePayloads(r, r);
    } else {
      var once := Finish(r, cfg.idOf(listeners[0]), Outcome.Away(seconds));
      FinishShrinks(r, cfg.idOf(listeners[0]), Outcome.Away(seconds));
      EndAwayShrinks(cfg, once, listeners[1..], seconds);
      ShrinksTransitive(r, once, EndAwayEach(cfg, r, listeners, seconds));
    }
  }

  // ---- waits that end ----------------------------------------------------------------------

  lemma {:induction false} CoreAfterShrink(cfg: Config, s: State, to: Registry)
    requires CoreOk(cfg, s) && Shrinks(s.registry, to)
    ensures CoreOk(cfg, s.(registry := to))
  {
    forall w | w in to.waiters ensures WaiterOk(cfg, s.(registry := to), w) {
      assert From(s.registry, w);
      var v :| v in s.registry.waiters && v.wait == w.wait && v.payload == w.payload;
      assert WaiterOk(cfg, s, v);
    }
  }

  lemma {:induction false} MirrorAfterShrink(cfg: Config, s: State, to: Registry)
    requires CoreOk(cfg, s) && MirrorOk(cfg, s) && Shrinks(s.registry, to)
    ensures MirrorOk(cfg, s.(registry := to))
  {
    var t := s.(registry := to);
    var ids := Ids(s.registry.waiters);
    KeepKeep(s.mirror, ids, Ids(to.waiters));
    forall p | p in t.mirror && p.requestId !in Ids(to.waiters) ensures StaleOk(cfg, t, p) {
      if p.requestId in ids {
        KeepMembers(s.mirror, ids);
        PayloadMembers(s.registry.waiters);
        var w :| w in s.registry.waiters && w.payload == p;
        assert WaiterOk(cfg, s, w);
      } else {
        assert StaleOk(cfg, s, p);
      }
    }
  }

  lemma {:induction false} SafeAfterShrink(cfg: Config, s: State, to: Registry)
    requires Safe(cfg, s) && Shrinks(s.registry, to)
    ensures Safe(cfg, s.(registry := to))
  {
    var t := s.(registry := to);
    CoreAfterShrink(cfg, s, to);
    MirrorAfterShrink(cfg, s, to);
    forall w | w in to.waiters
      ensures !Exempt(cfg, w.payload.call) ==> w.payload.call in s.listeners
      ensures s.away.Some? && !s.away.value.duringQuit ==> Exempt(cfg, w.payload.call)
    {
      assert From(s.registry, w);
    }
    forall c: nat ensures CallOk(cfg, t, c) {
      assert CallOk(cfg, s, c);
      CallUntouched(cfg, s, t, c);
    }
  }

  // ---- steps outside the broker ------------------------------------------------------------

  /** Safe, except perhaps for what call `c` has logged. */
  ghost predicate SafeBut(cfg: Config, s: State, c: nat) {
    CoreOk(cfg, s) && MirrorOk(cfg, s) && AwayOk(cfg, s) && forall d: nat :: d != c ==> CallOk(cfg, s, d)
  }

  lemma {:induction false} EmitSafe(cfg: Config, s: State, c: nat, fact: Fact)
    requires SafeBut(cfg, s, c)
    ensures SafeBut(cfg, Emit(s, c, fact), c)
    ensures Log(Emit(s, c, fact).trace, c) == Log(s.trace, c) + [fact]
  {
    var t := Emit(s, c, fact);
    LogEmit(s.trace, c, fact, c);
    forall w | w in t.registry.waiters ensures WaiterOk(cfg, t, w) { assert WaiterOk(cfg, s, w); }
    forall p | p in t.mirror && p.requestId !in Ids(t.registry.waiters)
      ensures StaleOk(cfg, t, p)
    {
      assert StaleOk(cfg, s, p);
    }
    forall d: nat | d != c ensures CallOk(cfg, t, d) {
      LogEmit(s.trace, c, fact, d);
      assert CallOk(cfg, s, d);
      CallUntouched(cfg, s, t, d);
    }
  }

  lemma {:induction false} EnterCall(cfg: Config, s: State, c: nat, phase: Phase, d: nat)
    requires WaitsDistinct(s.registry) && (d != c ==> CallOk(cfg, s, d))
    requires CallOk(cfg, Enter(s, c, phase), c)
    ensures CallOk(cfg, Enter(s, c, phase), d)
  {
    if d != c {
      CallUntouched(cfg, s, Enter(s, c, phase), d);
    }
  }

  lemma {:induction false} EnterStale(cfg: Config, s: State, c: nat, phase: Phase, p: Payload)
    requires StaleOk(cfg, s, p) && !Awaiting(phase) && (c in s.phases ==> !Awaiting(s.phases[c]))
    ensures StaleOk(cfg, Enter(s, c, phase), p)
  {
  }

  /** A call that holds no wait moves to a phase that holds none. */
  lemma {:induction false} EnterSafe(cfg: Config, s: State, c: nat, phase: Phase)
    requires SafeBut(cfg, s, c) && !Awaiting(phase) && (c in s.phases ==> !Awaiting(s.phases[c]))
    requires CallOk(cfg, Enter(s, c, phase), c)
    ensures Safe(cfg, Enter(s, c, phase))
  {
    var t := Enter(s, c, phase);
    forall w | w in t.registry.waiters ensures WaiterOk(cfg, t, w) { assert WaiterOk(cfg, s, w); }
    forall p | p in t.mirror && p.requestId !in Ids(t.registry.waiters)
      ensures StaleOk(cfg, t, p)
    {
      EnterStale(cfg, s, c, phase, p);
    }
    forall d: nat ensures CallOk(cfg, t, d) {
      EnterCall(cfg, s, c, phase, d);
    }
  }

  /** What must be known of a call's log and decision for its record to be settled. */
  ghost predicate SettleReady(s: State, c: nat, log: seq<Fact>) {
    && OverLog(log)
    && (c in s.waitOf <==> |log| >= 2 && log[1] == Requested(true))
    && (c in s.waitOf && |log| >= 3 && log[2].Audited? ==> Explained(s, c, log[2].allow, log[2].source))
  }

  lemma {:induction false} SettleSafe(cfg: Config, s: State, c: nat, status: Status)
    requires SafeBut(cfg, s, c) && (c in s.phases ==> !Awaiting(s.phases[c]))
    requires SettleReady(s, c, Log(s.trace, c))
    ensures Safe(cfg, Settle(cfg, s, c, status))
  {
    var log := Log(s.trace, c);
    if cfg.recorded(c) {
      EmitSafe(cfg, s, c, Settled(status));
      var settled := log + [Settled(status)];
      assert settled[..|settled| - 1] == log;
      EnterSafe(cfg, Emit(s, c, Settled(status)), c, Finished);
    } else {
      EnterSafe(cfg, s, c, Finished);
    }
  }

  lemma {:induction false} RunSafe(cfg: Config, s: State, c: nat)
    requires SafeBut(cfg, s, c) && (c in s.phases ==> !Awaiting(s.phases[c]))
    requires AllowedLog(Log(s.trace, c)) && SettleReady(s, c, Log(s.trace, c))
    ensures Safe(cfg, Enter(Emit(s, c, Ran), c, Executing))
  {
    var log := Log(s.trace, c);
    EmitSafe(cfg, s, c, Ran);
    assert (log + [Ran])[..|log|] == log;
    EnterSafe(cfg, Emit(s, c, Ran), c, Executing);
  }

  /** The permission's answer, audited: by rule right after opening, or by the broker after its request. */
  lemma {:induction false} DecideSafe(cfg: Config, s: State, c: nat, allow: bool, source: Source)
    requires SafeBut(cfg, s, c) && (c in s.phases ==> !Awaiting(s.phases[c]))
    requires var log := Log(s.trace, c);
             || (log == [Opened] && source == Rule && c !in s.waitOf)
             || (&& |log| == 2 && log[0] == Opened && log[1].Requested? && (c in s.waitOf <==> log[1].brokered)
                 && (allow ==> log[1].brokered && (source == UserOnce || source == UserSession))
                 && (log[1].brokered ==> Explained(s, c, allow, source)))
    ensures Safe(cfg, Decide(cfg, s, c, allow, source))
  {
    var log := Log(s.trace, c);
    var audited := Emit(s, c, Audited(allow, source));
    EmitSafe(cfg, s, c, Audited(allow, source));
    var after := log + [Audited(allow, source)];
    assert log[..] == log;
    if !allow {
      assert DeniedLog(after) && SettleReady(audited, c, after);
      SettleSafe(cfg, audited, c, Blocked);
    } else {
      assert AllowedLog(after) && SettleReady(audited, c, after);
      if cfg.hooks {
        EnterSafe(cfg, audited, c, PreHook);
      } else {
        RunSafe(cfg, audited, c);
      }
    }
  }

  // ---- steps of the broker -----------------------------------------------------------------

  /** A call moves between two phases that both hold its wait. */
  lemma {:induction false} AwaitMoveSafe(cfg: Config, s: State, c: nat, phase: Phase)
    requires Safe(cfg, s) && c in s.phases && Awaiting(s.phases[c]) && Awaiting(phase)
    ensures Safe(cfg, Enter(s, c, phase))
  {
    var t := Enter(s, c, phase);
    forall w | w in t.registry.waiters ensures WaiterOk(cfg, t, w) { assert WaiterOk(cfg, s, w); }
    forall p | p in t.mirror && p.requestId !in Ids(t.registry.waiters)
      ensures StaleOk(cfg, t, p)
    {
      assert StaleOk(cfg, s, p);
    }
    forall d: nat ensures CallOk(cfg, t, d) {
      assert CallOk(cfg, s, d);
      if d != c {
        CallUntouched(cfg, s, t, d);
      }
    }
  }

  lemma {:induction false} UnlistenOnly(listeners: seq<nat>, c: nat)
    ensures forall d :: d in listeners && d != c ==> d in Unlisten(listeners, c)
    decreases listeners
  {
    if listeners != [] {
      UnlistenOnly(listeners[1..], c);
    }
  }

  /** The broker answers for a call whose wait is no longer pending. */
  lemma {:induction false} BrokerReturnsSafe(cfg: Config, s: State, c: nat, phase: Phase)
    requires Safe(cfg, s) && c in s.phases && Awaiting(s.phases[c])
    requires forall w :: w in s.registry.waiters ==> w.payload.call != c
    requires match phase
             case Brokered(allow, source) =>
               Explained(s, c, allow, source) && (allow ==> source == UserOnce || source == UserSession)
             case Interrupted => (var o := OutcomeOf(s.registry.settled, s.waitOf[c]); o.Some? && o.value.Withdrawn?)
             case _ => false
    ensures Safe(cfg, BrokerReturns(s, c, phase))
  {
    var t := BrokerReturns(s, c, phase);
    FreshMirror(cfg, t);
    UnlistenOnly(s.listeners, c);
    forall w | w in t.registry.waiters ensures WaiterOk(cfg, t, w) { assert WaiterOk(cfg, s, w); }
    forall d: nat ensures CallOk(cfg, t, d) {
      assert CallOk(cfg, s, d);
      BrokerReturnsCall(cfg, s, c, phase, d);
    }
  }

  lemma {:induction false} BrokerReturnsCall(cfg: Config, s: State, c: nat, phase: Phase, d: nat)
    requires CallOk(cfg, s, d) && WaitsDistinct(s.registry)
    requires d == c ==> c in s.phases && Awaiting(s.phases[c]) && c in s.waitOf
    requires match phase
             case Brokered(allow, source) =>
               Explained(s, c, allow, source) && (allow ==> source == UserOnce || source == UserSession)
             case Interrupted =>
               c in s.waitOf && (var o := OutcomeOf(s.registry.settled, s.waitOf[c]); o.Some? && o.value.Withdrawn?)
             case _ => false
    ensures CallOk(cfg, BrokerReturns(s, c, phase), d)
  {
  }

  lemma {:induction false} SettledNotPending(cfg: Config, s: State, c: nat)
    requires CoreOk(cfg, s) && c in s.waitOf && OutcomeOf(s.registry.settled, s.waitOf[c]).Some?
    ensures forall w :: w in s.registry.waiters ==> w.payload.call != c
  {
    OutcomeRecorded(s.registry.settled, s.waitOf[c]);
    forall w | w in s.registry.waiters ensures w.payload.call != c {
      assert WaiterOk(cfg, s, w);
      PendingIsUnsettled(s.registry, w.wait, Settlement(s.waitOf[c], OutcomeOf(s.registry.settled, s.waitOf[c]).value));
    }
  }

  lemma {:induction false} UnshowableSafe(cfg: Config, s: State, c: nat, source: Source)
    requires FreshIds(cfg) && Safe(cfg, s) && c in s.phases && Awaiting(s.phases[c])
    requires source == PresenterError || source == FailClosed
    ensures Safe(cfg, Unshowable(cfg, s, c, source))
  {
    var to := Finish(s.registry, cfg.idOf(c), Cancelled);
    FinishShrinks(s.registry, cfg.idOf(c), Cancelled);
    SafeAfterShrink(cfg, s, to);
    Removed(s.registry, cfg.idOf(c), Cancelled);
    var t := s.(registry := to);
    forall w | w in to.waiters ensures w.payload.call != c {
      assert WaiterOk(cfg, t, w);
    }
    BrokerReturnsSafe(cfg, t, c, Brokered(false, source));
  }

  /** What the away listeners leave pending, and how the rest was settled. */
  lemma {:induction false} EndAwayLeaves(cfg: Config, r: Registry, listeners: seq<nat>, seconds: real, w: Waiter)
    requires Inv(r) && w in r.waiters && w.payload.requestId == cfg.idOf(w.payload.call) && FreshIds(cfg)
    ensures var to := EndAwayEach(cfg, r, listeners, seconds);
            if w.payload.call in listeners then Settlement(w.wait, Outcome.Away(seconds)) in to.settled
              else w in to.waiters
    decreases listeners
  {
    if listeners != [] {
      var id := cfg.idOf(listeners[0]);
      var once := Finish(r, id, Outcome.Away(seconds));
      FinishKeepsInv(r, id, Outcome.Away(seconds));
      Removed(r, id, Outcome.Away(seconds));
      if listeners[0] == w.payload.call {
        FinishSettles(r, id, Outcome.Away(seconds), w);
        EndAwayShrinks(cfg, once, listeners[1..], seconds);
        var k :| 0 <= k < |once.settled| && once.settled[k] == Settlement(w.wait, Outcome.Away(seconds));
        assert EndAwayEach(cfg, r, listeners, seconds).settled[k] == once.settled[k];
      } else {
        assert w in once.waiters;
        EndAwayLeaves(cfg, once, listeners[1..], seconds, w);
      }
    }
  }

  lemma {:induction false} FinishSettles(r: Registry, id: string, outcome: Outcome, w: Waiter)
    requires DistinctIds(r.waiters) && w in r.waiters && w.payload.requestId == id
    ensures Settlement(w.wait, outcome) in Finish(r, id, outcome).settled
  {
    var i := Approvals.IndexOf(r.waiters, id);
    OneWaiterPerId(r.waiters, i, w);
    assert Finish(r, id, outcome).settled[|r.settled|] == Settlement(w.wait, outcome);
  }

  lemma {:induction false} EndAwayDrops(cfg: Config, r: Registry, listeners: seq<nat>, seconds: real)
    requires Inv(r) && FreshIds(cfg) && forall w :: w in r.waiters ==> w.payload.requestId == cfg.idOf(w.payload.call)
    ensures forall w ::
              w in EndAwayEach(cfg, r, listeners, seconds).waiters ==> w in r.waiters && w.payload.call !in listeners
    decreases listeners
  {
    if listeners != [] {
      var id := cfg.idOf(listeners[0]);
      FinishKeepsInv(r, id, Outcome.Away(seconds));
      Removed(r, id, Outcome.Away(seconds));
      EndAwayDrops(cfg, Finish(r, id, Outcome.Away(seconds)), listeners[1..], seconds);
    }
  }

  /** Marking the user away ends every outstanding wait but the exempt ones, unless a quit holds them. */
  lemma {:induction false} MarkAwaySafe(cfg: Config, s: State, seconds: real, listeners: seq<nat>)
    requires FreshIds(cfg) && Safe(cfg, s) && cfg.presence && s.away.None?
    requires forall w :: w in s.registry.waiters && !Exempt(cfg, w.payload.call) ==> w.payload.call in listeners
    ensures Safe(cfg, s.(away := Some(Mark(seconds, s.quitting)),
                         registry := if s.quitting then s.registry else EndAwayEach(cfg, s.registry, listeners,
                           seconds)))
  {
    var to := if s.quitting then s.registry else EndAwayEach(cfg, s.registry, listeners, seconds);
    if s.quitting {
      SamePayloads(s.registry, to);
    } else {
      EndAwayShrinks(cfg, s.registry, listeners, seconds);
      forall w | w in s.registry.waiters
        ensures w.payload.requestId == cfg.idOf(w.payload.call)
      {
        assert WaiterOk(cfg, s, w);
      }
      EndAwayDrops(cfg, s.registry, listeners, seconds);
    }
    SafeAfterShrink(cfg, s, to);
    FlagsSafe(cfg, s.(registry := to), s.(away := Some(Mark(seconds, s.quitting)), registry := to));
  }

  /** Only the flags differ, and the away mark claims no more than holds. */
  lemma {:induction false} FlagsSafe(cfg: Config, s: State, t: State)
    requires Safe(cfg, s) && t == s.(away := t.away, attended := t.attended, quitting := t.quitting)
    requires t.away.Some? && !t.away.value.duringQuit ==>
             forall w :: w in s.registry.waiters ==> Exempt(cfg, w.payload.call)
    ensures Safe(cfg, t)
  {
    forall w | w in t.registry.waiters ensures WaiterOk(cfg, t, w) { assert WaiterOk(cfg, s, w); }
    forall p | p in t.mirror && p.requestId !in Ids(t.registry.waiters)
      ensures StaleOk(cfg, t, p)
    {
      assert StaleOk(cfg, s, p);
    }
    forall d: nat ensures CallOk(cfg, t, d) {
      assert CallOk(cfg, s, d);
      CallUntouched(cfg, s, t, d);
    }
  }

  lemma {:induction false} EndWaitSafe(cfg: Config, s: State, c: nat)
    requires FreshIds(cfg) && Safe(cfg, s) && Enabled(s, WaitEnded(c))
    ensures Safe(cfg, Next(cfg, s, WaitEnded(c)))
  {
    var outcome := OutcomeOf(s.registry.settled, s.waitOf[c]).value;
    var shown := s.phases[c].Shown?;
    var back := BrokerReturns(s, c, OutcomePhase(outcome, shown));
    SettledNotPending(cfg, s, c);
    BrokerReturnsSafe(cfg, s, c, OutcomePhase(outcome, shown));
    var t := Next(cfg, s, WaitEnded(c));
    if shown && outcome.TimedOut? && cfg.presence && s.away.None? {
      MarkAwaySafe(cfg, back, outcome.afterSeconds, s.listeners);
      assert t == back.(away := t.away, registry := t.registry);
    } else {
      assert t == back;
    }
  }

  /** A fresh call's id is not pending. */
  lemma {:induction false} FreshNotPending(cfg: Config, s: State, c: nat)
    requires FreshIds(cfg) && CoreOk(cfg, s) && c !in s.phases
    ensures !Has(s.registry, cfg.idOf(c))
  {
    forall w | w in s.registry.waiters ensures w.payload.requestId != cfg.idOf(c) {
      assert WaiterOk(cfg, s, w);
    }
    var i := Approvals.IndexOf(s.registry.waiters, cfg.idOf(c));
    assert forall k :: 0 <= k < |s.registry.waiters| ==> s.registry.waiters[k] in s.registry.waiters;
  }

  function BeginWait(cfg: Config, s: State, c: nat, budget: Option<int>, phase: Phase): State {
    Enter(MirrorPending(s.(
      registry := Create(s.registry, Payload(cfg.idOf(c), c), budget),
      waitOf := s.waitOf[c := s.registry.created],
      listeners := if Exempt(cfg, c) then s.listeners else s.listeners + [c])), c, phase)
  }

  lemma {:induction false} BeginWaitCore(cfg: Config, s: State, c: nat, budget: Option<int>, phase: Phase)
    requires FreshIds(cfg) && CoreOk(cfg, s) && c !in s.phases && c !in s.waitOf && Awaiting(phase)
    ensures CoreOk(cfg, BeginWait(cfg, s, c, budget, phase))
  {
    var t := BeginWait(cfg, s, c, budget, phase);
    FreshNotPending(cfg, s, c);
    CreateKeepsInv(s.registry, Payload(cfg.idOf(c), c), budget);
    forall w | w in t.registry.waiters ensures WaiterOk(cfg, t, w) {
      if w in s.registry.waiters {
        assert WaiterOk(cfg, s, w);
      }
    }
    assert t.waitOf[c] == s.registry.created && t.registry.created == s.registry.created + 1;
    assert forall d :: d in s.waitOf ==> t.waitOf[d] == s.waitOf[d] < s.registry.created;
  }

  lemma {:induction false} BeginWaitAway(cfg: Config, s: State, c: nat, budget: Option<int>, phase: Phase)
    requires AwayOk(cfg, s) && (s.away.None? || Exempt(cfg, c))
    ensures AwayOk(cfg, BeginWait(cfg, s, c, budget, phase))
  {
    var t := BeginWait(cfg, s, c, budget, phase);
    assert forall w :: w in t.registry.waiters ==> w in s.registry.waiters || w.payload.call == c;
    assert forall d :: d in s.listeners ==> d in t.listeners;
    assert !Exempt(cfg, c) ==> t.listeners[|s.listeners|] == c;
  }

  lemma {:induction false} BeginWaitSafe(cfg: Config, s: State, c: nat, budget: Option<int>, phase: Phase)
    requires FreshIds(cfg) && SafeBut(cfg, s, c) && c !in s.phases && c !in s.waitOf && Awaiting(phase)
    requires Log(s.trace, c) == [Opened, Requested(true)]
    requires s.away.None? || Exempt(cfg, c)
    ensures Safe(cfg, BeginWait(cfg, s, c, budget, phase))
  {
    var t := BeginWait(cfg, s, c, budget, phase);
    BeginWaitCore(cfg, s, c, budget, phase);
    BeginWaitAway(cfg, s, c, budget, phase);
    FreshMirror(cfg, t);
    forall d: nat ensures CallOk(cfg, t, d) {
      BeginWaitCall(cfg, s, c, budget, phase, d);
    }
  }

  lemma {:induction false} FreshMirror(cfg: Config, s: State)
    requires s.mirror == Payloads(s.registry.waiters)
    ensures MirrorOk(cfg, s)
  {
    KeepOwn(s.registry.waiters);
    PayloadMembers(s.registry.waiters);
  }

  lemma {:induction false} BeginWaitCall(cfg: Config, s: State, c: nat, budget: Option<int>, phase: Phase, d: nat)
    requires d != c ==> CallOk(cfg, s, d)
    requires WaitsDistinct(s.registry) && Awaiting(phase) && Log(s.trace, c) == [Opened, Requested(true)]
    ensures CallOk(cfg, BeginWait(cfg, s, c, budget, phase), d)
  {
  }

  lemma {:induction false} BrokerAskSafe(cfg: Config, s: State, c: nat)
    requires FreshIds(cfg) && SafeBut(cfg, s, c) && c !in s.phases && c !in s.waitOf
    requires Log(s.trace, c) == [Opened]
    ensures Safe(cfg, BrokerAsk(cfg, s, c))
  {
    var held := !s.attended && s.quitting;
    if (!held && (!s.attended || !cfg.presenter)) || (!Exempt(cfg, c) && s.away.Some?) {
      EmitSafe(cfg, s, c, Requested(false));
      EnterSafe(cfg, Emit(s, c, Requested(false)), c, Brokered(false, Headless));
    } else {
      EmitSafe(cfg, s, c, Requested(true));
      BeginWaitSafe(cfg, Emit(s, c, Requested(true)), c, if cfg.timeoutMs > 0 then Some(cfg.timeoutMs) else None,
                    if held || !cfg.presenter then Held else Presenting);
    }
  }

  /** A call newly opened: everything is safe but for what it has logged, which is its opening alone. */
  lemma {:induction false} OpenSafe(cfg: Config, s: State, c: nat)
    requires Safe(cfg, s) && c !in s.phases
    ensures SafeBut(cfg, Emit(s, c, Opened), c) && Log(Emit(s, c, Opened).trace, c) == [Opened] && c !in s.waitOf
  {
    assert CallOk(cfg, s, c);
    assert c !in s.waitOf;
    EmitSafe(cfg, s, c, Opened);
  }

  lemma {:induction false} RaisedSafe(cfg: Config, open: State, c: nat)
    requires SafeBut(cfg, open, c) && Log(open.trace, c) == [Opened] && c !in open.waitOf && c !in open.phases
    ensures Safe(cfg, Enter(open, c, Threw))
  {
    EnterSafe(cfg, open, c, Threw);
  }

  lemma {:induction false} DispatchSafe(cfg: Config, s: State, c: nat, verdict: Verdict)
    requires FreshIds(cfg) && Safe(cfg, s) && c !in s.phases
    ensures Safe(cfg, Next(cfg, s, Dispatch(c, verdict)))
  {
    OpenSafe(cfg, s, c);
    var open := Emit(s, c, Opened);
    match verdict {
      case Malformed => SettleSafe(cfg, open, c, Failed);
      case Withheld => SettleSafe(cfg, open, c, Blocked);
      case Raised => RaisedSafe(cfg, open, c);
      case Allowed => DecideSafe(cfg, open, c, true, Rule);
      case Denied => DecideSafe(cfg, open, c, false, Rule);
      case Asks => BrokerAskSafe(cfg, open, c);
    }
  }

  lemma {:induction false} ResumeSafe(cfg: Config, s: State, c: nat)
    requires Safe(cfg, s) && Enabled(s, Resume(c))
    ensures Safe(cfg, Next(cfg, s, Resume(c)))
  {
    assert CallOk(cfg, s, c);
    if s.phases[c].Interrupted? {
      SettleSafe(cfg, s, c, Blocked);
    } else {
      DecideSafe(cfg, s, c, s.phases[c].allow, s.phases[c].source);
    }
  }

  lemma {:induction false} HookSafe(cfg: Config, s: State, c: nat, blocked: bool)
    requires Safe(cfg, s) && Enabled(s, HookAnswered(c, blocked))
    ensures Safe(cfg, Next(cfg, s, HookAnswered(c, blocked)))
  {
    assert CallOk(cfg, s, c);
    if blocked { SettleSafe(cfg, s, c, Blocked); } else { RunSafe(cfg, s, c); }
  }

  lemma {:induction false} ThrowSafe(cfg: Config, s: State, c: nat)
    requires Safe(cfg, s) && Enabled(s, HookThrew(c))
    ensures Safe(cfg, Next(cfg, s, HookThrew(c)))
  {
    assert CallOk(cfg, s, c);
    EnterSafe(cfg, s, c, Threw);
  }

  lemma {:induction false} ExecutorSafe(cfg: Config, s: State, a: Action)
    requires Safe(cfg, s) && Enabled(s, a) && (a.ExecutorDone? || a.PostHookDone?)
    ensures Safe(cfg, Next(cfg, s, a))
  {
    assert CallOk(cfg, s, a.call);
    match a {
      case ExecutorDone(c, result) =>
        if cfg.hooks && !result.QuestionWithdrawn? {
          EnterSafe(cfg, s, c, PostHook(StatusOf(result)));
        } else {
          SettleSafe(cfg, s, c, StatusOf(result));
        }
      case PostHookDone(c) => SettleSafe(cfg, s, c, s.phases[c].status);
    }
  }

  /** A step taken by a call that holds no wait. */
  lemma {:induction false} OwnStepSafe(cfg: Config, s: State, a: Action)
    requires Safe(cfg, s) && Enabled(s, a)
    requires a.Resume? || a.HookAnswered? || a.HookThrew? || a.ExecutorDone? || a.PostHookDone?
    ensures Safe(cfg, Next(cfg, s, a))
  {
    if a.Resume? {
      ResumeSafe(cfg, s, a.call);
    } else if a.HookAnswered? {
      HookSafe(cfg, s, a.call, a.blocked);
    } else if a.HookThrew? {
      ThrowSafe(cfg, s, a.call);
    } else {
      ExecutorSafe(cfg, s, a);
    }
  }

  lemma {:induction false} BrokerStepSafe(cfg: Config, s: State, a: Action)
    requires FreshIds(cfg) && Safe(cfg, s) && Enabled(s, a)
    requires a.PresentReplied? || a.PresentThrew? || a.WaitEnded? || a.AnswerThrew?
    ensures Safe(cfg, Next(cfg, s, a))
  {
    match a {
      case PresentReplied(c, ok) =>
        if ok {
          ShownShrinks(s.registry, cfg.idOf(c));
          SafeAfterShrink(cfg, s, WithShown(s.registry, cfg.idOf(c)));
          AwaitMoveSafe(cfg, s.(registry := WithShown(s.registry, cfg.idOf(c))), c, Shown);
        } else if s.quitting {
          AwaitMoveSafe(cfg, s, c, Held);
        } else {
          UnshowableSafe(cfg, s, c, PresenterError);
        }
      case PresentThrew(c) => UnshowableSafe(cfg, s, c, FailClosed);
      case AnswerThrew(c) => UnshowableSafe(cfg, s, c, FailClosed);
      case WaitEnded(c) => EndWaitSafe(cfg, s, c);
    }
  }

  lemma {:induction false} OutsideStepSafe(cfg: Config, s: State, a: Action)
    requires Safe(cfg, s) && Enabled(s, a)
    requires a.Answer? || a.Cancel? || a.CancelAll? || a.WithdrawAll? || a.Fire?
    ensures Safe(cfg, Next(cfg, s, a))
  {
    match a {
      case Answer(id, choice) => FinishShrinks(s.registry, id, Resolved(choice));
      case Cancel(id) => FinishShrinks(s.registry, id, Cancelled);
      case CancelAll => FinishEveryShrinks(s.registry, Cancelled);
      case WithdrawAll(cause) => FinishEveryShrinks(s.registry, Withdrawn(cause));
      case Fire(handle) => FireShrinks(s.registry, handle, s.quitting);
    }
    SafeAfterShrink(cfg, s, Next(cfg, s, a).registry);
  }

  lemma {:induction false} NextSafe(cfg: Config, s: State, a: Action)
    requires FreshIds(cfg) && Safe(cfg, s) && Enabled(s, a)
    ensures Safe(cfg, Next(cfg, s, a))
  {
    if a.Dispatch? {
      DispatchSafe(cfg, s, a.call, a.verdict);
    } else if a.PresentReplied? || a.PresentThrew? || a.WaitEnded? || a.AnswerThrew? {
      BrokerStepSafe(cfg, s, a);
    } else if a.Resume? || a.HookAnswered? || a.HookThrew? || a.ExecutorDone? || a.PostHookDone? {
      OwnStepSafe(cfg, s, a);
    } else if a.UserReturned? || a.SetAttended? || a.SetQuitting? {
      FlagsSafe(cfg, s, Next(cfg, s, a));
    } else {
      OutsideStepSafe(cfg, s, a);
    }
  }

  // ---- runs --------------------------------------------------------------------------------

  ghost predicate Runs(cfg: Config, s: State, actions: seq<Action>)
    decreases actions
  {
    actions != [] ==> Enabled(s, actions[0]) && Runs(cfg, Next(cfg, s, actions[0]), actions[1..])
  }

  function After(cfg: Config, s: State, actions: seq<Action>): State
    requires Runs(cfg, s, actions)
    decreases actions
  {
    if actions == [] then s else After(cfg, Next(cfg, s, actions[0]), actions[1..])
  }

  lemma {:induction false} RunSafeFrom(cfg: Config, s: State, actions: seq<Action>)
    requires FreshIds(cfg) && Safe(cfg, s) && Runs(cfg, s, actions)
    ensures Safe(cfg, After(cfg, s, actions))
    decreases actions
  {
    if actions != [] {
      NextSafe(cfg, s, actions[0]);
      RunSafeFrom(cfg, Next(cfg, s, actions[0]), actions[1..]);
    }
  }

  lemma {:induction false} EveryRunIsSafe(cfg: Config, actions: seq<Action>)
    requires FreshIds(cfg) && Runs(cfg, Start, actions)
    ensures Safe(cfg, After(cfg, Start, actions))
  {
    RunSafeFrom(cfg, Start, actions);
  }

  lemma {:induction false} CallOkAfter(cfg: Config, actions: seq<Action>, c: nat)
    requires FreshIds(cfg) && Runs(cfg, Start, actions)
    ensures CallOk(cfg, After(cfg, Start, actions), c)
  {
    EveryRunIsSafe(cfg, actions);
  }

  function Settlements(log: seq<Fact>): nat {
    if log == [] then 0 else Settlements(log[..|log| - 1]) + (if log[|log| - 1].Settled? then 1 else 0)
  }

  /** What the shape of a log says, wherever its call stands. */
  lemma {:induction false} LogShape(phase: Option<Phase>, log: seq<Fact>, recorded: bool)
    requires LogFits(phase, log, recorded)
    ensures forall i :: 0 <= i < |log| && log[i] == Ran ==>
              && i >= 2 && log[i - 1].Audited? && log[i - 1].allow
              && forall j :: 0 <= j < |log| && log[j] == Ran ==> j == i
    ensures forall i :: 0 <= i < |log| && log[i].Settled? ==> phase == Some(Finished) && recorded && i == |log| - 1
    ensures phase == Some(Finished) && recorded ==> |log| > 0 && log[|log| - 1].Settled?
    ensures forall i :: 0 <= i < |log| && log[i].Audited? ==> (i == 1 || i == 2) && (i == 2 <==> log[1].Requested?)
    ensures forall i :: 0 <= i < |log| && log[i].Requested? ==> i == 1
    ensures |log| >= 3 && log[2].Audited? && log[2].allow ==>
            log[1] == Requested(true) && (log[2].source == UserOnce || log[2].source == UserSession)
  {
    if phase == Some(Finished) && recorded {
      var body := log[..|log| - 1];
      assert forall i :: 0 <= i < |body| ==> body[i] == log[i];
    }
  }

  lemma {:induction false} SettledWhenFinished(cfg: Config, actions: seq<Action>, c: nat)
    requires FreshIds(cfg) && Runs(cfg, Start, actions) && cfg.recorded(c)
    ensures var s := After(cfg, Start, actions);
            Settlements(Log(s.trace, c)) == if c in s.phases && s.phases[c].Finished? then 1 else 0
  {
    CallOkAfter(cfg, actions, c);
    var s := After(cfg, Start, actions);
    var log := Log(s.trace, c);
    LogShape(PhaseOf(s, c), log, true);
    if PhaseOf(s, c) == Some(Finished) {
      NoneSettled(log[..|log| - 1]);
    } else {
      NoneSettled(log);
    }
  }

  /** A port outside every `try` threw in the call: one asked ahead of the approval's wait, or a hook. */
  predicate PortThrew(actions: seq<Action>, c: nat) {
    HookThrew(c) in actions || Dispatch(c, Raised) in actions
  }

  predicate HasThrown(s: State, c: nat) {
    c in s.phases && s.phases[c].Threw?
  }

  /**
   * The broker failed the call: its presenter threw or could not show the request outside a quit, or a port the broker
   * asks once the wait has ended threw.
   */
  predicate BrokerFails(s: State, a: Action, c: nat) {
    a == PresentThrew(c) || a == AnswerThrew(c) || (a == PresentReplied(c, false) && !s.quitting)
  }

  predicate BrokerFailed(cfg: Config, s: State, actions: seq<Action>, c: nat)
    requires Runs(cfg, s, actions)
    decreases actions
  {
    actions != []
      && (BrokerFails(s, actions[0], c) || BrokerFailed(cfg, Next(cfg, s, actions[0]), actions[1..], c))
  }

  predicate ByFailure(source: Source) {
    source == PresenterError || source == FailClosed
  }

  /** The call's decision, brokered or already audited, is its broker's failure. */
  ghost predicate DecidedByFailure(s: State, c: nat) {
    || (c in s.phases && s.phases[c].Brokered? && ByFailure(s.phases[c].source))
    || FailureInLog(Log(s.trace, c))
  }

  ghost predicate FailureInLog(log: seq<Fact>) {
    exists i :: 0 <= i < |log| && log[i].Audited? && ByFailure(log[i].source)
  }

  /** The call whose step an action is. */
  function CallOf(a: Action): Option<nat> {
    match a
    case Dispatch(c, _) => Some(c)
    case PresentReplied(c, _) => Some(c)
    case PresentThrew(c) => Some(c)
    case WaitEnded(c) => Some(c)
    case AnswerThrew(c) => Some(c)
    case Resume(c) => Some(c)
    case HookAnswered(c, _) => Some(c)
    case HookThrew(c) => Some(c)
    case ExecutorDone(c, _) => Some(c)
    case PostHookDone(c) => Some(c)
    case _ => None
  }

  /** From `s` to `t` call `c` moved to a phase and logged some facts, and no other call did either. */
  ghost predicate Did(s: State, t: State, c: nat, phase: Phase, facts: seq<Fact>) {
    && PhaseOf(t, c) == Some(phase) && Log(t.trace, c) == Log(s.trace, c) + facts
    && forall d: nat :: d != c ==> PhaseOf(t, d) == PhaseOf(s, d) && Log(t.trace, d) == Log(s.trace, d)
  }

  lemma {:induction false} EnterDid(s: State, c: nat, phase: Phase)
    ensures Did(s, Enter(s, c, phase), c, phase, [])
  {
    assert Log(s.trace, c) + [] == Log(s.trace, c);
  }

  lemma {:induction false} EmitFirst(s: State, t: State, c: nat, fact: Fact, phase: Phase, facts: seq<Fact>)
    requires Did(Emit(s, c, fact), t, c, phase, facts)
    ensures Did(s, t, c, phase, [fact] + facts)
  {
    forall d: nat ensures Log(Emit(s, c, fact).trace, d) == Log(s.trace, d) + (if d == c then [fact] else []) {
      LogEmit(s.trace, c, fact, d);
    }
    assert Log(s.trace, c) + [fact] + facts == Log(s.trace, c) + ([fact] + facts);
  }

  function SettledFact(cfg: Config, c: nat, status: Status): seq<Fact> {
    if cfg.recorded(c) then [Settled(status)] else []
  }

  lemma {:induction false} SettleDid(cfg: Config, s: State, c: nat, status: Status)
    ensures Did(s, Settle(cfg, s, c, status), c, Finished, SettledFact(cfg, c, status))
  {
    if cfg.recorded(c) {
      var emitted := Emit(s, c, Settled(status));
      EnterDid(emitted, c, Finished);
      EmitFirst(s, Enter(emitted, c, Finished), c, Settled(status), Finished, []);
      assert [Settled(status)] + [] == [Settled(status)];
    } else {
      EnterDid(s, c, Finished);
    }
  }

  lemma {:induction false} RunDid(s: State, c: nat)
    ensures Did(s, Enter(Emit(s, c, Ran), c, Executing), c, Executing, [Ran])
  {
    EnterDid(Emit(s, c, Ran), c, Executing);
    EmitFirst(s, Enter(Emit(s, c, Ran), c, Executing), c, Ran, Executing, []);
    assert [Ran] + [] == [Ran];
  }

  /** A step's effect on its call: where it then stands, and what it logged. */
  datatype Effect = Effect(phase: Phase, facts: seq<Fact>)

  function DecideEffect(cfg: Config, c: nat, allow: bool, source: Source): Effect {
    if !allow then Effect(Finished, [Audited(allow, source)] + SettledFact(cfg, c, Blocked))
    else if cfg.hooks then Effect(PreHook, [Audited(allow, source)] + [])
    else Effect(Executing, [Audited(allow, source)] + [Ran])
  }

  lemma {:induction false} DecideDid(cfg: Config, s: State, c: nat, allow: bool, source: Source)
    ensures var e := DecideEffect(cfg, c, allow, source); Did(s, Decide(cfg, s, c, allow, source), c, e.phase, e.facts)
  {
    var fact := Audited(allow, source);
    var audited := Emit(s, c, fact);
    if !allow {
      SettleDid(cfg, audited, c, Blocked);
      EmitFirst(s, Settle(cfg, audited, c, Blocked), c, fact, Finished, SettledFact(cfg, c, Blocked));
    } else if cfg.hooks {
      EnterDid(audited, c, PreHook);
      EmitFirst(s, Enter(audited, c, PreHook), c, fact, PreHook, []);
    } else {
      RunDid(audited, c);
      EmitFirst(s, Enter(Emit(audited, c, Ran), c, Executing), c, fact, Executing, [Ran]);
    }
  }

  function AskEffect(cfg: Config, s: State, c: nat): Effect {
    var t := BrokerAsk(cfg, s, c);
    if c in t.phases then Effect(t.phases[c], [Requested(Awaiting(t.phases[c]))]) else Effect(Threw, [])
  }

  /** Only the trace and where the call stands changed, of what a call does. */
  lemma {:induction false} AskedDid(s: State, t: State, c: nat, brokered: bool, phase: Phase)
    requires t.trace == s.trace + [Entry(c, Requested(brokered))] && t.phases == s.phases[c := phase]
    ensures Did(s, t, c, phase, [Requested(brokered)])
  {
    forall d: nat ensures Log(t.trace, d) == Log(s.trace, d) + (if d == c then [Requested(brokered)] else []) {
      LogEmit(s.trace, c, Requested(brokered), d);
    }
  }

  lemma {:induction false} AskDid(cfg: Config, s: State, c: nat)
    ensures var e := AskEffect(cfg, s, c);
            && Did(s, BrokerAsk(cfg, s, c), c, e.phase, e.facts)
            && (Awaiting(e.phase) || e.phase == Brokered(false, Headless)) && e.facts == [Requested(Awaiting(e.phase))]
  {
    var t := BrokerAsk(cfg, s, c);
    AskedDid(s, t, c, Awaiting(t.phases[c]), t.phases[c]);
  }

  function DispatchEffect(cfg: Config, s: State, c: nat, verdict: Verdict): Effect {
    match verdict
    case Malformed => Effect(Finished, SettledFact(cfg, c, Failed))
    case Withheld => Effect(Finished, SettledFact(cfg, c, Blocked))
    case Raised => Effect(Threw, [])
    case Allowed => DecideEffect(cfg, c, true, Rule)
    case Denied => DecideEffect(cfg, c, false, Rule)
    case Asks => AskEffect(cfg, Emit(s, c, Opened), c)
  }

  lemma {:induction false} DispatchDid(cfg: Config, s: State, c: nat, verdict: Verdict)
    requires Enabled(s, Dispatch(c, verdict))
    ensures var e := DispatchEffect(cfg, s, c, verdict);
            Did(s, Next(cfg, s, Dispatch(c, verdict)), c, e.phase, [Opened] + e.facts)
  {
    var open := Emit(s, c, Opened);
    match verdict {
      case Malformed => SettleDid(cfg, open, c, Failed);
      case Withheld => SettleDid(cfg, open, c, Blocked);
      case Raised => EnterDid(open, c, Threw);
      case Allowed => DecideDid(cfg, open, c, true, Rule);
      case Denied => DecideDid(cfg, open, c, false, Rule);
      case Asks => AskDid(cfg, open, c);
    }
    var e := DispatchEffect(cfg, s, c, verdict);
    EmitFirst(s, Next(cfg, s, Dispatch(c, verdict)), c, Opened, e.phase, e.facts);
  }

  /** The effect of a step that is neither a dispatch nor the broker's. */
  function WorkEffect(cfg: Config, s: State, a: Action): Effect
    requires Enabled(s, a) && IsWork(a)
  {
    match a
    case Resume(c) =>
      if s.phases[c].Interrupted? then Effect(Finished, SettledFact(cfg, c, Blocked))
      else DecideEffect(cfg, c, s.phases[c].allow, s.phases[c].source)
    case HookAnswered(c, blocked) =>
      if blocked then Effect(Finished, SettledFact(cfg, c, Blocked)) else Effect(Executing, [Ran])
    case HookThrew(_) => Effect(Threw, [])
    case ExecutorDone(c, result) =>
      if cfg.hooks && !result.QuestionWithdrawn? then Effect(PostHook(StatusOf(result)), [])
      else Effect(Finished, SettledFact(cfg, c, StatusOf(result)))
    case PostHookDone(c) => Effect(Finished, SettledFact(cfg, c, s.phases[c].status))
  }

  predicate IsWork(a: Action) {
    a.Resume? || a.HookAnswered? || a.HookThrew? || a.ExecutorDone? || a.PostHookDone?
  }

  predicate IsBrokers(a: Action) {
    a.PresentReplied? || a.PresentThrew? || a.WaitEnded? || a.AnswerThrew?
  }

  lemma {:induction false} WorkDid(cfg: Config, s: State, a: Action)
    requires Enabled(s, a) && IsWork(a)
    ensures var e := WorkEffect(cfg, s, a); Did(s, Next(cfg, s, a), a.call, e.phase, e.facts)
  {
    match a {
      case Resume(c) =>
        if s.phases[c].Interrupted? {
          SettleDid(cfg, s, c, Blocked);
        } else {
          DecideDid(cfg, s, c, s.phases[c].allow, s.phases[c].source);
        }
      case HookAnswered(c, blocked) => if blocked { SettleDid(cfg, s, c, Blocked); } else { RunDid(s, c); }
      case HookThrew(c) => EnterDid(s, c, Threw);
      case ExecutorDone(c, result) =>
        if cfg.hooks && !result.QuestionWithdrawn? {
          EnterDid(s, c, PostHook(StatusOf(result)));
        } else {
          SettleDid(cfg, s, c, StatusOf(result));
        }
      case PostHookDone(c) => SettleDid(cfg, s, c, s.phases[c].status);
    }
  }

  lemma {:induction false} EndWaitDid(cfg: Config, s: State, c: nat)
    requires Enabled(s, WaitEnded(c))
    ensures var t := Next(cfg, s, WaitEnded(c));
            && t.trace == s.trace && c in t.phases && t.phases == s.phases[c := t.phases[c]] && !t.phases[c].Threw?
            && !(t.phases[c].Brokered? && ByFailure(t.phases[c].source))
  {
  }

  lemma {:induction false} UnshowableDid(cfg: Config, s: State, c: nat, source: Source)
    requires c in s.phases && ByFailure(source)
    ensures var t := Unshowable(cfg, s, c, source);
            t.trace == s.trace && t.phases == s.phases[c := Brokered(false, source)]
  {
  }

  lemma {:induction false} RepliesDid(cfg: Config, s: State, a: Action)
    requires Enabled(s, a) && IsBrokers(a) && !a.WaitEnded?
    ensures var t, c := Next(cfg, s, a), a.call;
            && t.trace == s.trace && c in t.phases && t.phases == s.phases[c := t.phases[c]] && !t.phases[c].Threw?
            && ((t.phases[c].Brokered? && ByFailure(t.phases[c].source)) <==> BrokerFails(s, a, c))
  {
    if BrokerFails(s, a, a.call) {
      UnshowableDid(cfg, s, a.call, if a.PresentReplied? then PresenterError else FailClosed);
    }
  }

  /** The broker logs nothing, and its decision is the broker's failure exactly when the step is. */
  lemma {:induction false} BrokerDid(cfg: Config, s: State, a: Action)
    requires Enabled(s, a) && IsBrokers(a)
    ensures a.call in Next(cfg, s, a).phases
    ensures var phase := Next(cfg, s, a).phases[a.call];
            && Did(s, Next(cfg, s, a), a.call, phase, []) && !phase.Threw?
            && ((phase.Brokered? && ByFailure(phase.source)) <==> BrokerFails(s, a, a.call))
  {
    if a.WaitEnded? {
      EndWaitDid(cfg, s, a.call);
    } else {
      RepliesDid(cfg, s, a);
    }
    assert Log(s.trace, a.call) + [] == Log(s.trace, a.call);
  }

  /** A step of one call leaves what every other has done, and where it stands. */
  lemma {:induction false} StepOthers(cfg: Config, s: State, a: Action, c: nat)
    requires Enabled(s, a) && CallOf(a) != Some(c)
    ensures PhaseOf(Next(cfg, s, a), c) == PhaseOf(s, c) && Log(Next(cfg, s, a).trace, c) == Log(s.trace, c)
  {
    if a.Dispatch? {
      DispatchDid(cfg, s, a.call, a.verdict);
    } else if IsWork(a) {
      WorkDid(cfg, s, a);
    } else if IsBrokers(a) {
      BrokerDid(cfg, s, a);
    }
  }

  lemma {:induction false} DispatchThrows(cfg: Config, s: State, c: nat, verdict: Verdict)
    requires Enabled(s, Dispatch(c, verdict))
    ensures HasThrown(Next(cfg, s, Dispatch(c, verdict)), c) <==> verdict == Raised
  {
    DispatchDid(cfg, s, c, verdict);
    AskDid(cfg, Emit(s, c, Opened), c);
  }

  lemma {:induction false} OwnStepThrows(cfg: Config, s: State, a: Action, c: nat)
    requires Enabled(s, a) && CallOf(a) == Some(c)
    ensures HasThrown(Next(cfg, s, a), c) <==> a == HookThrew(c) || a == Dispatch(c, Raised)
  {
    if a.Dispatch? {
      DispatchThrows(cfg, s, c, a.verdict);
    } else if IsWork(a) {
      WorkDid(cfg, s, a);
    } else {
      BrokerDid(cfg, s, a);
    }
  }

  lemma {:induction false} ThrownIsOver(s: State, a: Action, c: nat)
    requires HasThrown(s, c) && Enabled(s, a)
    ensures CallOf(a) != Some(c)
  {
  }

  lemma {:induction false} StepThrows(cfg: Config, s: State, a: Action, c: nat)
    requires Enabled(s, a)
    ensures HasThrown(Next(cfg, s, a), c) <==> HasThrown(s, c) || a == HookThrew(c) || a == Dispatch(c, Raised)
  {
    if HasThrown(s, c) {
      ThrownIsOver(s, a, c);
    }
    if CallOf(a) == Some(c) {
      OwnStepThrows(cfg, s, a, c);
    } else {
      StepOthers(cfg, s, a, c);
    }
  }

  lemma {:induction false} ThrownFrom(cfg: Config, s: State, actions: seq<Action>, c: nat)
    requires Runs(cfg, s, actions)
    ensures HasThrown(After(cfg, s, actions), c) <==> HasThrown(s, c) || PortThrew(actions, c)
    decreases actions
  {
    if actions != [] {
      StepThrows(cfg, s, actions[0], c);
      ThrownFrom(cfg, Next(cfg, s, actions[0]), actions[1..], c);
      assert actions == [actions[0]] + actions[1..];
    }
  }

  /** The call was dispatched, waits on nobody, and none of its own steps is open. */
  predicate Over(s: State, c: nat) {
    && c in s.phases && !Awaiting(s.phases[c])
    && !Enabled(s, Resume(c)) && !Enabled(s, HookAnswered(c, false)) && !Enabled(s, HookThrew(c))
    && !Enabled(s, ExecutorDone(c, Good)) && !Enabled(s, PostHookDone(c))
  }

  /**
   * Over every run a record is settled exactly once when its call is over and no port threw in it, and else not at all.
   */
  lemma {:induction false} SettledExactlyOnce(cfg: Config, actions: seq<Action>, c: nat)
    requires FreshIds(cfg) && Runs(cfg, Start, actions) && cfg.recorded(c)
    ensures var s := After(cfg, Start, actions);
            Settlements(Log(s.trace, c)) == if Over(s, c) && !PortThrew(actions, c) then 1 else 0
  {
    SettledWhenFinished(cfg, actions, c);
    ThrownFrom(cfg, Start, actions, c);
  }

  const HookRun: seq<Action> := [Dispatch(0, Allowed), HookThrew(0)]

  lemma {:induction false} HookRunRuns(cfg: Config)
    requires cfg.hooks
    ensures Runs(cfg, Start, HookRun)
  {
    var s := Next(cfg, Start, Dispatch(0, Allowed));
    assert s.phases[0] == PreHook;
    assert HookRun[1..] == [HookThrew(0)] && [HookThrew(0)][1..] == [];
    assert Runs(cfg, Next(cfg, s, HookThrew(0)), []);
    assert Runs(cfg, s, [HookThrew(0)]);
  }

  /** A hook that throws leaves its call's record open, whatever happens next. */
  lemma {:induction false} HookThrowLeavesRecordOpen(cfg: Config, more: seq<Action>)
    requires FreshIds(cfg) && cfg.hooks && cfg.recorded(0)
    ensures Runs(cfg, Start, HookRun) && Over(After(cfg, Start, HookRun), 0)
    ensures Runs(cfg, Start, HookRun + more) ==> Settlements(Log(After(cfg, Start, HookRun + more).trace, 0)) == 0
  {
    HookRunRuns(cfg);
    ThrownFrom(cfg, Start, HookRun, 0);
    assert HookRun[1] == HookThrew(0);
    if Runs(cfg, Start, HookRun + more) {
      assert (HookRun + more)[1] == HookThrew(0);
      SettledExactlyOnce(cfg, HookRun + more, 0);
    }
  }

  // ---- what a record is settled with -------------------------------------------------------

  /** What the executor of the call came to in the run. */
  function ResultIn(actions: seq<Action>, c: nat): Option<Result> {
    if actions == [] then None
    else
      var last := actions[|actions| - 1];
      if last.ExecutorDone? && last.call == c then Some(last.result) else ResultIn(actions[..|actions| - 1], c)
  }

  /** The executor's status; of a call that came to no execution, failed for a malformed one, blocked for any other. */
  function StatusFor(result: Option<Result>, malformed: bool): Status {
    match result
    case Some(r) => StatusOf(r)
    case None => if malformed then Failed else Blocked
  }

  ghost predicate SettledOnlyAs(log: seq<Fact>, status: Status) {
    forall i :: 0 <= i < |log| && log[i].Settled? ==> log[i].status == status
  }

  ghost predicate Unsettled(log: seq<Fact>) {
    forall i :: 0 <= i < |log| ==> !log[i].Settled?
  }

  ghost predicate AskedOrDecided(log: seq<Fact>) {
    exists i :: 0 <= i < |log| && (log[i].Requested? || log[i].Audited?)
  }

  /** Where a call stands and what it logged, against what its executor came to and whether it was malformed. */
  ghost predicate StatusFits(phase: Option<Phase>, log: seq<Fact>, result: Option<Result>, malformed: bool) {
    && (result.Some? ==> Ran in log)
    && (malformed ==> phase == Some(Finished) && result.None? && !AskedOrDecided(log))
    && match phase
       case None => log == [] && result.None?
       case Some(Finished) => SettledOnlyAs(log, StatusFor(result, malformed))
       case Some(Threw) => Unsettled(log)
       case Some(PostHook(status)) => Unsettled(log) && result.Some? && status == StatusOf(result.value)
       case Some(Executing) => Unsettled(log) && result.None? && Ran in log
       case Some(_) => Unsettled(log) && result.None?
  }

  lemma {:induction false} SettledFits(cfg: Config, c: nat, log: seq<Fact>, status: Status)
    requires Unsettled(log)
    ensures SettledOnlyAs(log + SettledFact(cfg, c, status), status)
  {
  }

  lemma {:induction false} DecideFits(cfg: Config, c: nat, log: seq<Fact>, allow: bool, source: Source)
    requires Unsettled(log)
    ensures var e := DecideEffect(cfg, c, allow, source);
            StatusFits(Some(e.phase), log + e.facts, None, false)
  {
    var e := DecideEffect(cfg, c, allow, source);
    if allow {
      assert !cfg.hooks ==> e.facts[1] == Ran && (log + e.facts)[|log| + 1] == Ran;
    } else {
      SettledFits(cfg, c, log + [Audited(allow, source)], Blocked);
      assert log + [Audited(allow, source)] + SettledFact(cfg, c, Blocked) == log + e.facts;
    }
  }

  lemma {:induction false} AskedFits(phase: Phase, brokered: bool)
    requires Awaiting(phase) || phase.Brokered?
    ensures StatusFits(Some(phase), [Opened] + [Requested(brokered)], None, false)
  {
  }

  lemma {:induction false} AskFits(cfg: Config, s: State, c: nat)
    ensures StatusFits(Some(AskEffect(cfg, s, c).phase), [Opened] + AskEffect(cfg, s, c).facts, None, false)
  {
    AskDid(cfg, s, c);
    var e := AskEffect(cfg, s, c);
    AskedFits(e.phase, Awaiting(e.phase));
  }

  lemma {:induction false} RefusalFits(cfg: Config, c: nat, malformed: bool)
    ensures StatusFits(Some(Finished), [Opened] + SettledFact(cfg, c, StatusFor(None, malformed)), None, malformed)
  {
    SettledFits(cfg, c, [Opened], StatusFor(None, malformed));
  }

  lemma {:induction false} DispatchFits(cfg: Config, s: State, c: nat, verdict: Verdict)
    ensures var e := DispatchEffect(cfg, s, c, verdict);
            StatusFits(Some(e.phase), [Opened] + e.facts, None, verdict == Malformed)
  {
    match verdict {
      case Malformed => RefusalFits(cfg, c, true);
      case Withheld => RefusalFits(cfg, c, false);
      case Raised =>
      case Allowed => DecideFits(cfg, c, [Opened], true, Rule);
      case Denied => DecideFits(cfg, c, [Opened], false, Rule);
      case Asks => AskFits(cfg, Emit(s, c, Opened), c);
    }
  }

  lemma {:induction false} WorkFits(cfg: Config, s: State, a: Action, log: seq<Fact>, result: Option<Result>)
    requires Enabled(s, a) && IsWork(a) && StatusFits(PhaseOf(s, a.call), log, result, false)
    ensures var e := WorkEffect(cfg, s, a);
            StatusFits(Some(e.phase), log + e.facts, if a.ExecutorDone? then Some(a.result) else result, false)
  {
    match a {
      case Resume(c) =>
        if s.phases[c].Interrupted? {
          SettledFits(cfg, c, log, Blocked);
        } else {
          DecideFits(cfg, c, log, s.phases[c].allow, s.phases[c].source);
        }
      case HookAnswered(c, blocked) =>
        if blocked {
          SettledFits(cfg, c, log, Blocked);
        } else {
          assert (log + [Ran])[|log|] == Ran;
        }
      case HookThrew(c) => assert log + [] == log;
      case ExecutorDone(c, r) =>
        SettledFits(cfg, c, log, StatusOf(r));
        assert log + [] == log;
      case PostHookDone(c) => SettledFits(cfg, c, log, s.phases[c].status);
    }
  }

  lemma {:induction false} BrokerLeaves(cfg: Config, s: State, a: Action)
    requires Enabled(s, a) && IsBrokers(a)
    ensures var phase := PhaseOf(Next(cfg, s, a), a.call);
            phase.Some? && (Awaiting(phase.value) || phase.value.Brokered? || phase.value.Interrupted?)
  {
  }

  /** One step, the call's own or another's. */
  lemma {:induction false} StepFits(cfg: Config, s: State, past: seq<Action>, a: Action, c: nat)
    requires Enabled(s, a) && CallFits(s, past, c)
    ensures CallFits(Next(cfg, s, a), past + [a], c)
  {
    var log, result, t := Log(s.trace, c), ResultIn(past, c), Next(cfg, s, a);
    PastSnoc(past, a, c);
    if CallOf(a) != Some(c) {
      StepOthers(cfg, s, a, c);
    } else if a.Dispatch? {
      DispatchDid(cfg, s, c, a.verdict);
      DispatchFits(cfg, s, c, a.verdict);
      var facts := [Opened] + DispatchEffect(cfg, s, c, a.verdict).facts;
      assert log + facts == facts;
    } else if IsWork(a) {
      WorkDid(cfg, s, a);
      WorkFits(cfg, s, a, log, result);
    } else {
      BrokerDid(cfg, s, a);
      BrokerLeaves(cfg, s, a);
      assert log + [] == log;
    }
  }

  ghost predicate CallFits(s: State, past: seq<Action>, c: nat) {
    StatusFits(PhaseOf(s, c), Log(s.trace, c), ResultIn(past, c), Dispatch(c, Malformed) in past)
  }

  lemma {:induction false} PastSnoc(past: seq<Action>, a: Action, c: nat)
    ensures ResultIn(past + [a], c) == if a.ExecutorDone? && a.call == c then Some(a.result) else ResultIn(past, c)
    ensures Dispatch(c, Malformed) in past + [a] <==> Dispatch(c, Malformed) in past || a == Dispatch(c, Malformed)
  {
    assert (past + [a])[..|past|] == past;
  }

  lemma {:induction false} FirstIsPast(past: seq<Action>, actions: seq<Action>)
    requires actions != []
    ensures past + [actions[0]] + actions[1..] == past + actions
  {
  }

  lemma {:induction false} FitsAfter(cfg: Config, s: State, past: seq<Action>, actions: seq<Action>, c: nat)
    requires Runs(cfg, s, actions) && CallFits(s, past, c)
    ensures CallFits(After(cfg, s, actions), past + actions, c)
    decreases actions
  {
    if actions == [] {
      assert past + actions == past;
    } else {
      FirstIsPast(past, actions);
      StepFits(cfg, s, past, actions[0], c);
      FitsAfter(cfg, Next(cfg, s, actions[0]), past + [actions[0]], actions[1..], c);
    }
  }

  lemma {:induction false} WhatFits(phase: Option<Phase>, log: seq<Fact>, result: Option<Result>, malformed: bool)
    requires StatusFits(phase, log, result, malformed)
    ensures SettledOnlyAs(log, StatusFor(result, malformed)) && (result.Some? ==> Ran in log)
    ensures Settled(Ok) in log ==> Ran in log
    ensures Ran !in log && AskedOrDecided(log) ==> SettledOnlyAs(log, Blocked)
  {
    if Settled(Ok) in log {
      var i :| 0 <= i < |log| && log[i] == Settled(Ok);
      assert StatusFor(result, malformed) == Ok;
    }
  }

  /**
   * Over every run a record is settled with the status of its call's executor; of a call that came to no execution, as
   * failed when it was malformed and as blocked otherwise. So only a call that ran is settled ok, and one asked about
   * or decided that did not run, because it was denied, withdrawn or stopped by a hook, is settled blocked.
   */
  lemma {:induction false} SettledAs(cfg: Config, actions: seq<Action>, c: nat)
    requires Runs(cfg, Start, actions)
    ensures var log := Log(After(cfg, Start, actions).trace, c);
            && SettledOnlyAs(log, StatusFor(ResultIn(actions, c), Dispatch(c, Malformed) in actions))
            && (ResultIn(actions, c).Some? ==> Ran in log)
            && (Settled(Ok) in log ==> Ran in log)
            && (Ran !in log && AskedOrDecided(log) ==> SettledOnlyAs(log, Blocked))
  {
    FitsAfter(cfg, Start, [], actions, c);
    assert [] + actions == actions;
    var s := After(cfg, Start, actions);
    WhatFits(PhaseOf(s, c), Log(s.trace, c), ResultIn(actions, c), Dispatch(c, Malformed) in actions);
  }

  lemma {:induction false} NoneSettled(log: seq<Fact>)
    requires forall i :: 0 <= i < |log| ==> !log[i].Settled?
    ensures Settlements(log) == 0
    decreases log
  {
    if log != [] {
      NoneSettled(log[..|log| - 1]);
    }
  }

  /** An executor runs only after an audited allow, and at most once. */
  lemma {:induction false} RunsOnlyAfterAuditedAllow(cfg: Config, actions: seq<Action>, c: nat, i: nat)
    requires FreshIds(cfg) && Runs(cfg, Start, actions)
    requires var log := Log(After(cfg, Start, actions).trace, c); i < |log| && log[i] == Ran
    ensures var log := Log(After(cfg, Start, actions).trace, c);
            && i > 0 && log[i - 1].Audited? && log[i - 1].allow
            && forall j :: 0 <= j < |log| && log[j] == Ran ==> j == i
  {
    CallOkAfter(cfg, actions, c);
    var s := After(cfg, Start, actions);
    LogShape(PhaseOf(s, c), Log(s.trace, c), cfg.recorded(c));
  }

  /** What a person answered, as the decision's source names it. */
  function ChoiceOf(source: Source): Option<Choice> {
    match source
    case UserOnce => Some(Once)
    case UserSession => Some(Session)
    case UserDeny => Some(Deny)
    case _ => None
  }

  /** An ask becomes allow only through a person's `once` or `session`, recorded as its wait's one outcome. */
  lemma {:induction false} AskAllowedOnlyByAPerson(cfg: Config, actions: seq<Action>, c: nat, i: nat)
    requires FreshIds(cfg) && Runs(cfg, Start, actions)
    requires var log := Log(After(cfg, Start, actions).trace, c);
             i < |log| && log[i].Audited? && log[i].allow && exists j :: 0 <= j < |log| && log[j].Requested?
    ensures var s := After(cfg, Start, actions);
            var source := Log(s.trace, c)[i].source;
            && c in s.waitOf && (source == UserOnce || source == UserSession)
            && OutcomeOf(s.registry.settled, s.waitOf[c]) == Some(Resolved(ChoiceOf(source).value))
  {
    CallOkAfter(cfg, actions, c);
    var s := After(cfg, Start, actions);
    LogShape(PhaseOf(s, c), Log(s.trace, c), cfg.recorded(c));
  }

  /** A call whose wait was withdrawn is never run, and audited only as a denial its failed broker caused. */
  lemma {:induction false} WithdrawnIsNeverRun(cfg: Config, actions: seq<Action>, c: nat)
    requires FreshIds(cfg) && Runs(cfg, Start, actions) && c in After(cfg, Start, actions).waitOf
    requires var s := After(cfg, Start, actions);
             var o := OutcomeOf(s.registry.settled, s.waitOf[c]); o.Some? && o.value.Withdrawn?
    ensures var s := After(cfg, Start, actions);
            forall i :: 0 <= i < |Log(s.trace, c)| ==>
              var fact := Log(s.trace, c)[i];
              fact != Ran
                && (fact.Audited? ==> !fact.allow && (fact.source == PresenterError || fact.source == FailClosed))
  {
    CallOkAfter(cfg, actions, c);
    var s := After(cfg, Start, actions);
    LogShape(PhaseOf(s, c), Log(s.trace, c), cfg.recorded(c));
  }

  lemma {:induction false} LogHas(log: seq<Fact>, more: seq<Fact>)
    ensures FailureInLog(log + more) <==> FailureInLog(log) || FailureInLog(more)
  {
    if FailureInLog(log) {
      var i :| 0 <= i < |log| && log[i].Audited? && ByFailure(log[i].source);
      assert (log + more)[i] == log[i];
    }
    if FailureInLog(more) {
      var i :| 0 <= i < |more| && more[i].Audited? && ByFailure(more[i].source);
      assert (log + more)[|log| + i] == more[i];
    }
  }

  /** Where a step leaves the question of whether the broker's failure decided, by its effect. */
  lemma {:induction false} DidDecides(s: State, t: State, c: nat, phase: Phase, facts: seq<Fact>)
    requires Did(s, t, c, phase, facts)
    ensures DecidedByFailure(t, c) <==>
            (phase.Brokered? && ByFailure(phase.source)) || FailureInLog(Log(s.trace, c)) || FailureInLog(facts)
  {
    LogHas(Log(s.trace, c), facts);
  }

  lemma {:induction false} DecideEffectFails(cfg: Config, c: nat, allow: bool, source: Source)
    ensures var e := DecideEffect(cfg, c, allow, source);
            !e.phase.Brokered? && (FailureInLog(e.facts) <==> ByFailure(source))
  {
    var facts := DecideEffect(cfg, c, allow, source).facts;
    assert facts[0] == Audited(allow, source);
    assert forall i :: 1 <= i < |facts| ==> !facts[i].Audited?;
  }

  /** Whatever a dispatch comes to, no failure of the broker has decided it yet. */
  lemma {:induction false} DispatchEffectUndecided(cfg: Config, s: State, c: nat, verdict: Verdict)
    ensures var e := DispatchEffect(cfg, s, c, verdict);
            !(e.phase.Brokered? && ByFailure(e.phase.source)) && !FailureInLog(e.facts)
  {
    match verdict {
      case Malformed =>
      case Withheld =>
      case Raised =>
      case Allowed => DecideEffectFails(cfg, c, true, Rule);
      case Denied => DecideEffectFails(cfg, c, false, Rule);
      case Asks => AskDid(cfg, Emit(s, c, Opened), c);
    }
  }

  /** A call that opens, whatever follows, has not been decided by a failure of the broker. */
  lemma {:induction false} OpenedUndecided(cfg: Config, s: State, t: State, c: nat, e: Effect)
    requires CallOk(cfg, s, c) && c !in s.phases && Did(s, t, c, e.phase, [Opened] + e.facts)
    requires !(e.phase.Brokered? && ByFailure(e.phase.source)) && !FailureInLog(e.facts)
    ensures !DecidedByFailure(s, c) && !DecidedByFailure(t, c)
  {
    LogHas([Opened], e.facts);
    DidDecides(s, t, c, e.phase, [Opened] + e.facts);
  }

  lemma {:induction false} DispatchUndecided(cfg: Config, s: State, c: nat, verdict: Verdict)
    requires CallOk(cfg, s, c) && Enabled(s, Dispatch(c, verdict))
    ensures !DecidedByFailure(s, c) && !DecidedByFailure(Next(cfg, s, Dispatch(c, verdict)), c)
  {
    DispatchDid(cfg, s, c, verdict);
    DispatchEffectUndecided(cfg, s, c, verdict);
    OpenedUndecided(cfg, s, Next(cfg, s, Dispatch(c, verdict)), c, DispatchEffect(cfg, s, c, verdict));
  }

  /** A brokered failure is audited as what it is; nothing else that follows a decision is one. */
  lemma {:induction false} WorkAudits(cfg: Config, s: State, a: Action)
    requires Enabled(s, a) && IsWork(a)
    ensures var e, phase := WorkEffect(cfg, s, a), s.phases[a.call];
            !e.phase.Brokered? && (FailureInLog(e.facts) <==> phase.Brokered? && ByFailure(phase.source))
  {
    if a.Resume? && s.phases[a.call].Brokered? {
      DecideEffectFails(cfg, a.call, s.phases[a.call].allow, s.phases[a.call].source);
    }
  }

  lemma {:induction false} WorkKeepsDecision(cfg: Config, s: State, a: Action)
    requires Enabled(s, a) && IsWork(a)
    ensures DecidedByFailure(Next(cfg, s, a), a.call) <==> DecidedByFailure(s, a.call) || BrokerFails(s, a, a.call)
  {
    var e := WorkEffect(cfg, s, a);
    WorkDid(cfg, s, a);
    WorkAudits(cfg, s, a);
    DidDecides(s, Next(cfg, s, a), a.call, e.phase, e.facts);
  }

  /** While a call awaits its presenter or its wait nothing has been decided. */
  lemma {:induction false} AwaitingUndecided(cfg: Config, s: State, c: nat)
    requires CallOk(cfg, s, c) && c in s.phases && Awaiting(s.phases[c])
    ensures !DecidedByFailure(s, c)
  {
  }

  lemma {:induction false} BrokerDecides(cfg: Config, s: State, a: Action)
    requires Enabled(s, a) && IsBrokers(a) && CallOk(cfg, s, a.call)
    ensures DecidedByFailure(Next(cfg, s, a), a.call) <==> DecidedByFailure(s, a.call) || BrokerFails(s, a, a.call)
  {
    AwaitingUndecided(cfg, s, a.call);
    BrokerDid(cfg, s, a);
    DidDecides(s, Next(cfg, s, a), a.call, Next(cfg, s, a).phases[a.call], []);
  }

  lemma {:induction false} SameDecision(s: State, t: State, c: nat)
    requires PhaseOf(t, c) == PhaseOf(s, c) && Log(t.trace, c) == Log(s.trace, c)
    ensures DecidedByFailure(t, c) <==> DecidedByFailure(s, c)
  {
  }

  lemma {:induction false} DispatchDecides(cfg: Config, s: State, a: Action)
    requires a.Dispatch? && CallOk(cfg, s, a.call) && Enabled(s, a)
    ensures DecidedByFailure(Next(cfg, s, a), a.call) <==> DecidedByFailure(s, a.call) || BrokerFails(s, a, a.call)
  {
    DispatchUndecided(cfg, s, a.call, a.verdict);
  }

  lemma {:induction false} OthersDecide(cfg: Config, s: State, a: Action, c: nat)
    requires Enabled(s, a) && CallOf(a) != Some(c)
    ensures DecidedByFailure(Next(cfg, s, a), c) <==> DecidedByFailure(s, c) || BrokerFails(s, a, c)
  {
    StepOthers(cfg, s, a, c);
    SameDecision(s, Next(cfg, s, a), c);
  }

  lemma {:induction false} StepDecides(cfg: Config, s: State, a: Action, c: nat)
    requires Safe(cfg, s) && Enabled(s, a)
    ensures DecidedByFailure(Next(cfg, s, a), c) <==> DecidedByFailure(s, c) || BrokerFails(s, a, c)
  {
    assert CallOk(cfg, s, c);
    if CallOf(a) != Some(c) {
      OthersDecide(cfg, s, a, c);
    } else if a.Dispatch? {
      DispatchDecides(cfg, s, a);
    } else if IsWork(a) {
      WorkKeepsDecision(cfg, s, a);
    } else {
      BrokerDecides(cfg, s, a);
    }
  }

  lemma {:induction false} DecidedFrom(cfg: Config, s: State, actions: seq<Action>, c: nat)
    requires FreshIds(cfg) && Safe(cfg, s) && Runs(cfg, s, actions)
    ensures DecidedByFailure(After(cfg, s, actions), c) <==>
            DecidedByFailure(s, c) || BrokerFailed(cfg, s, actions, c)
    decreases actions
  {
    if actions != [] {
      NextSafe(cfg, s, actions[0]);
      StepDecides(cfg, s, actions[0], c);
      DecidedFrom(cfg, Next(cfg, s, actions[0]), actions[1..], c);
    }
  }

  /** A finished call whose wait was withdrawn was audited exactly when the broker failed it in the run. */
  lemma {:induction false} WithdrawnAuditedIff(cfg: Config, actions: seq<Action>, c: nat)
    requires FreshIds(cfg) && Runs(cfg, Start, actions)
    requires var s := After(cfg, Start, actions);
             && c in s.phases && s.phases[c].Finished? && c in s.waitOf
             && var o := OutcomeOf(s.registry.settled, s.waitOf[c]); o.Some? && o.value.Withdrawn?
    ensures var log := Log(After(cfg, Start, actions).trace, c);
            (exists i :: 0 <= i < |log| && log[i].Audited?) <==> BrokerFailed(cfg, Start, actions, c)
  {
    EveryRunIsSafe(cfg, []);
    DecidedFrom(cfg, Start, actions, c);
    var s := After(cfg, Start, actions);
    assert !DecidedByFailure(Start, c);
    assert DecidedByFailure(s, c) <==> FailureInLog(Log(s.trace, c));
    WithdrawnIsNeverRun(cfg, actions, c);
    AuditedByFailure(Log(s.trace, c));
  }

  function WithdrawnRun(fail: Action): seq<Action> {
    [Dispatch(0, Asks), WithdrawAll("q"), fail, Resume(0)]
  }

  /** The first call's broker fails: its presenter cannot show the request, or throws, or throws as it is closed. */
  predicate FailsFirst(a: Action) {
    a == PresentReplied(0, false) || a == PresentThrew(0) || a == AnswerThrew(0)
  }

  function FailureOf(a: Action): Source {
    if a.PresentReplied? then PresenterError else FailClosed
  }

  /** A first call that asks and is withdrawn while its presenter has it. */
  lemma {:induction false} AskWithdrawn(cfg: Config) returns (asked: State, withdrawn: State)
    requires FreshIds(cfg) && cfg.presenter
    ensures Enabled(Start, Dispatch(0, Asks)) && asked == Next(cfg, Start, Dispatch(0, Asks))
    ensures withdrawn == Next(cfg, asked, WithdrawAll("q")) && withdrawn.phases == map[0 := Presenting]
    ensures !withdrawn.quitting && withdrawn.registry.waiters == []
    ensures withdrawn.waitOf == map[0 := 0] && withdrawn.registry.settled == [Settlement(0, Withdrawn("q"))]
  {
    asked := Next(cfg, Start, Dispatch(0, Asks));
    assert asked.registry.waiters == [asked.registry.waiters[0]] && asked.registry.waiters[0].wait == 0;
    assert asked.phases == map[0 := Presenting] && asked.waitOf == map[0 := 0];
    withdrawn := Next(cfg, asked, WithdrawAll("q"));
    assert withdrawn.registry.settled == [Settlement(0, Withdrawn("q"))];
  }

  lemma {:induction false} WithdrawnFails(cfg: Config, withdrawn: State, fail: Action) returns (failed: State)
    requires FailsFirst(fail) && withdrawn.phases == map[0 := Presenting] && withdrawn.waitOf == map[0 := 0]
    requires !withdrawn.quitting && withdrawn.registry.waiters == []
    requires withdrawn.registry.settled == [Settlement(0, Withdrawn("q"))]
    ensures Enabled(withdrawn, fail) && failed == Next(cfg, withdrawn, fail)
    ensures failed.phases == map[0 := Brokered(false, FailureOf(fail))] && failed.waitOf == map[0 := 0]
    ensures failed.registry.settled == [Settlement(0, Withdrawn("q"))]
  {
    failed := Next(cfg, withdrawn, fail);
  }

  lemma {:induction false} FirstIsLogged(log: seq<Fact>, facts: seq<Fact>)
    requires facts != []
    ensures exists i :: 0 <= i < |log + facts| && (log + facts)[i] == facts[0]
  {
    assert (log + facts)[|log|] == facts[0];
  }

  lemma {:induction false} DenialAudited(cfg: Config, failed: State, source: Source)
    requires failed.phases == map[0 := Brokered(false, source)]
    ensures var last := Next(cfg, failed, Resume(0));
            && last.phases == map[0 := Finished] && last.waitOf == failed.waitOf && last.registry == failed.registry
            && exists i :: 0 <= i < |Log(last.trace, 0)| && Log(last.trace, 0)[i] == Audited(false, source)
  {
    assert Next(cfg, failed, Resume(0)) == Decide(cfg, failed, 0, false, source);
    DecideDid(cfg, failed, 0, false, source);
    DecideIs(cfg, failed, 0, source);
    FirstIsLogged(Log(failed.trace, 0), DecideEffect(cfg, 0, false, source).facts);
  }

  /** A denial ends the call, and changes nothing else but the trace. */
  lemma {:induction false} DecideIs(cfg: Config, s: State, c: nat, source: Source)
    ensures var t := Decide(cfg, s, c, false, source);
            t.phases == s.phases[c := Finished] && t.waitOf == s.waitOf && t.registry == s.registry
  {
  }

  /** Runs in which a call whose wait was withdrawn is audited: its broker fails, each way it can, before it answers. */
  lemma {:induction false} WithdrawnCanBeAudited(cfg: Config, fail: Action)
    requires FreshIds(cfg) && cfg.presenter && FailsFirst(fail)
    ensures Runs(cfg, Start, WithdrawnRun(fail))
    ensures var s := After(cfg, Start, WithdrawnRun(fail));
            && s.phases == map[0 := Finished] && 0 in s.waitOf
            && OutcomeOf(s.registry.settled, s.waitOf[0]) == Some(Withdrawn("q"))
            && exists i :: 0 <= i < |Log(s.trace, 0)| && Log(s.trace, 0)[i] == Audited(false, FailureOf(fail))
  {
    var asked, withdrawn := AskWithdrawn(cfg);
    var failed := WithdrawnFails(cfg, withdrawn, fail);
    RunFour(cfg, Start, Dispatch(0, Asks), asked, WithdrawAll("q"), withdrawn, fail, failed, Resume(0));
    DenialAudited(cfg, failed, FailureOf(fail));
  }

  lemma {:induction false} RunFour(cfg: Config, s: State, a: Action, t: State, b: Action, u: State, c: Action, v: State,
      d: Action)
    requires Enabled(s, a) && t == Next(cfg, s, a) && Enabled(t, b) && u == Next(cfg, t, b)
    requires Enabled(u, c) && v == Next(cfg, u, c) && Enabled(v, d)
    ensures Runs(cfg, s, [a, b, c, d]) && After(cfg, s, [a, b, c, d]) == Next(cfg, v, d)
  {
    RunOneMore(cfg, v, d, []);
    RunOneMore(cfg, u, c, [d]);
    RunOneMore(cfg, t, b, [c, d]);
    RunOneMore(cfg, s, a, [b, c, d]);
    assert [c] + [d] == [c, d] && [b] + [c, d] == [b, c, d] && [a] + [b, c, d] == [a, b, c, d] && [d] + [] == [d];
  }

  lemma {:induction false} RunOneMore(cfg: Config, s: State, a: Action, rest: seq<Action>)
    requires Enabled(s, a) && Runs(cfg, Next(cfg, s, a), rest)
    ensures Runs(cfg, s, [a] + rest) && After(cfg, s, [a] + rest) == After(cfg, Next(cfg, s, a), rest)
  {
    assert ([a] + rest)[1..] == rest;
  }

  lemma {:induction false} AuditedByFailure(log: seq<Fact>)
    requires forall i :: 0 <= i < |log| && log[i].Audited? ==> ByFailure(log[i].source)
    ensures (exists i :: 0 <= i < |log| && log[i].Audited?) <==> FailureInLog(log)
  {
  }

  /** A call the broker answered as interrupted is neither audited nor run: its next step settles the record. */
  lemma {:induction false} InterruptedIsNeitherAuditedNorRun(cfg: Config, actions: seq<Action>, c: nat)
    requires FreshIds(cfg) && Runs(cfg, Start, actions)
    requires var s := After(cfg, Start, actions); c in s.phases && s.phases[c].Interrupted?
    ensures var s := After(cfg, Start, actions);
            && Log(s.trace, c) == [Opened, Requested(true)]
            && Log(Next(cfg, s, Resume(c)).trace, c) ==
                 [Opened, Requested(true)] + (if cfg.recorded(c) then [Settled(Blocked)] else [])
            && Next(cfg, s, Resume(c)).phases[c].Finished?
  {
    CallOkAfter(cfg, actions, c);
    var s := After(cfg, Start, actions);
    LogEmit(s.trace, c, Settled(Blocked), c);
  }

  /** No broker step is outstanding: every awaiting call's wait is still pending. */
  ghost predicate NoneOutstanding(s: State) {
    forall c :: c in s.phases && Awaiting(s.phases[c]) && c in s.waitOf ==> Pending(s.registry, s.waitOf[c])
  }

  lemma {:induction false} AwaitedIsPending(cfg: Config, s: State, p: Payload)
    requires CoreOk(cfg, s) && NoneOutstanding(s) && StaleOk(cfg, s, p)
    ensures p.requestId in Ids(s.registry.waiters)
  {
    var w := WaiterOf(s.registry, s.waitOf[p.call]);
    assert WaiterOk(cfg, s, w);
    PayloadMembers(s.registry.waiters);
  }

  lemma {:induction false} PayloadsAt(waiters: seq<Waiter>)
    ensures |Payloads(waiters)| == |waiters|
    ensures forall i :: 0 <= i < |waiters| ==> Payloads(waiters)[i] == waiters[i].payload
  {
    if waiters != [] {
      PayloadsAt(waiters[..|waiters| - 1]);
    }
  }

  /** The list last mirrored is the pending list, in order, whenever no broker step is outstanding. */
  lemma {:induction false} MirrorIsPending(cfg: Config, actions: seq<Action>)
    requires FreshIds(cfg) && Runs(cfg, Start, actions) && NoneOutstanding(After(cfg, Start, actions))
    ensures var s := After(cfg, Start, actions);
            && |s.mirror| == |s.registry.waiters|
            && forall i :: 0 <= i < |s.mirror| ==> s.mirror[i] == s.registry.waiters[i].payload
  {
    PayloadsAt(After(cfg, Start, actions).registry.waiters);
    EveryRunIsSafe(cfg, actions);
    var s := After(cfg, Start, actions);
    forall p | p in s.mirror ensures p.requestId in Ids(s.registry.waiters) {
      if StaleOk(cfg, s, p) {
        AwaitedIsPending(cfg, s, p);
      }
    }
    KeepAll(s.mirror, Ids(s.registry.waiters));
  }

  /** A step that is no wait's end leaves the away mark, or clears it. */
  lemma {:induction false} OthersDoNotMark(cfg: Config, s: State, a: Action)
    requires Enabled(s, a) && !a.WaitEnded?
    ensures Next(cfg, s, a).away == s.away || Next(cfg, s, a).away == None
  {
    if a.Dispatch? {
      DispatchDoesNotMark(cfg, s, a.call, a.verdict);
    }
  }

  lemma {:induction false} DispatchDoesNotMark(cfg: Config, s: State, c: nat, verdict: Verdict)
    requires Enabled(s, Dispatch(c, verdict))
    ensures Next(cfg, s, Dispatch(c, verdict)).away == s.away
  {
  }

  /** Only a wait that ended unanswered marks the user away, and the listeners then end their waits. */
  lemma {:induction false} MarkIsAnEndedWait(cfg: Config, s: State, a: Action)
    requires Enabled(s, a) && s.away.None? && !s.quitting && Next(cfg, s, a).away.Some?
    ensures a.WaitEnded?
    ensures Next(cfg, s, a).registry ==
            EndAwayEach(cfg, s.registry, s.listeners, Next(cfg, s, a).away.value.afterSeconds)
  {
    if !a.WaitEnded? {
      OthersDoNotMark(cfg, s, a);
    }
  }

  /**
   * The step that marks the user away outside a quit settles every other outstanding wait but the exempt ones, as away.
   */
  lemma {:induction false} MarkEndsOutstandingWaits(cfg: Config, actions: seq<Action>, a: Action, w: Waiter)
    requires FreshIds(cfg) && Runs(cfg, Start, actions)
    requires var s := After(cfg, Start, actions);
             && Enabled(s, a) && w in s.registry.waiters && !Exempt(cfg, w.payload.call)
             && s.away.None? && !s.quitting && Next(cfg, s, a).away.Some?
    ensures var s := After(cfg, Start, actions);
            var t := Next(cfg, s, a);
            Settlement(w.wait, Outcome.Away(t.away.value.afterSeconds)) in t.registry.settled
  {
    EveryRunIsSafe(cfg, actions);
    var s := After(cfg, Start, actions);
    assert WaiterOk(cfg, s, w);
    MarkIsAnEndedWait(cfg, s, a);
    EndAwayLeaves(cfg, s.registry, s.listeners, Next(cfg, s, a).away.value.afterSeconds, w);
  }

  /**
   * While the user is away, marked outside a quit, only the exempt wait: no ask slips past the check and the listener.
   */
  lemma {:induction false} OnlyExemptWaitWhileAway(cfg: Config, actions: seq<Action>, w: Waiter)
    requires FreshIds(cfg) && Runs(cfg, Start, actions)
    requires var s := After(cfg, Start, actions);
             s.away.Some? && !s.away.value.duringQuit && w in s.registry.waiters
    ensures Exempt(cfg, w.payload.call)
  {
    EveryRunIsSafe(cfg, actions);
  }

  ghost predicate AwayThroughout(cfg: Config, s: State, actions: seq<Action>)
    requires Runs(cfg, s, actions)
    decreases actions
  {
    s.away.Some? && (actions != [] ==> AwayThroughout(cfg, Next(cfg, s, actions[0]), actions[1..]))
  }

  lemma {:induction false} WorkBeginsNone(cfg: Config, s: State, a: Action)
    requires Enabled(s, a) && IsWork(a)
    ensures Next(cfg, s, a).waitOf == s.waitOf
  {
    match a {
      case Resume(_) =>
      case HookAnswered(_, _) =>
      case HookThrew(_) =>
      case ExecutorDone(_, _) =>
      case PostHookDone(_) =>
    }
  }

  lemma {:induction false} UnshowableBeginsNone(cfg: Config, s: State, c: nat, source: Source)
    ensures Unshowable(cfg, s, c, source).waitOf == s.waitOf
  {
  }

  lemma {:induction false} EndWaitBeginsNone(cfg: Config, s: State, c: nat, outcome: Outcome)
    requires c in s.phases
    ensures EndWait(cfg, s, c, outcome).waitOf == s.waitOf
  {
  }

  lemma {:induction false} BrokerBeginsNone(cfg: Config, s: State, a: Action)
    requires Enabled(s, a) && IsBrokers(a)
    ensures Next(cfg, s, a).waitOf == s.waitOf
  {
    match a {
      case PresentReplied(c, ok) =>
        if !ok && !s.quitting { UnshowableBeginsNone(cfg, s, c, PresenterError); }
      case PresentThrew(c) => UnshowableBeginsNone(cfg, s, c, FailClosed);
      case AnswerThrew(c) => UnshowableBeginsNone(cfg, s, c, FailClosed);
      case WaitEnded(c) => EndWaitBeginsNone(cfg, s, c, OutcomeOf(s.registry.settled, s.waitOf[c]).value);
    }
  }

  lemma {:induction false} OthersBeginNone(cfg: Config, s: State, a: Action)
    requires Enabled(s, a) && !a.Dispatch?
    ensures Next(cfg, s, a).waitOf == s.waitOf
  {
    if IsWork(a) {
      WorkBeginsNone(cfg, s, a);
    } else if IsBrokers(a) {
      BrokerBeginsNone(cfg, s, a);
    }
  }

  lemma {:induction false} AskBegins(cfg: Config, s: State, c: nat)
    ensures var t := BrokerAsk(cfg, s, c);
            && (forall d :: d != c ==> (d in t.waitOf <==> d in s.waitOf))
            && (c in t.waitOf && c !in s.waitOf ==> Exempt(cfg, c) || s.away.None?)
  {
  }

  /** Only a dispatch that asks begins a wait, and for a call that is not exempt only while the user is not away. */
  lemma {:induction false} BeginsWait(cfg: Config, s: State, a: Action, c: nat)
    requires Enabled(s, a) && c !in s.waitOf && c in Next(cfg, s, a).waitOf
    ensures a == Dispatch(c, Asks) && (Exempt(cfg, c) || s.away.None?)
  {
    if a.Dispatch? {
      var open := Emit(s, a.call, Opened);
      if a.verdict.Asks? {
        AskBegins(cfg, open, a.call);
      } else {
        DecidedBeginsNone(cfg, s, a.call, a.verdict);
      }
    } else {
      OthersBeginNone(cfg, s, a);
    }
  }

  lemma {:induction false} DecidedBeginsNone(cfg: Config, s: State, c: nat, verdict: Verdict)
    requires Enabled(s, Dispatch(c, verdict)) && !verdict.Asks?
    ensures Next(cfg, s, Dispatch(c, verdict)).waitOf == s.waitOf
  {
  }

  /** However the user came to be away, no call that is not exempt begins a wait until the mark clears. */
  lemma {:induction false} NoWaitBeginsWhileAway(cfg: Config, s: State, actions: seq<Action>, c: nat)
    requires Runs(cfg, s, actions) && AwayThroughout(cfg, s, actions) && !Exempt(cfg, c) && c !in s.waitOf
    ensures c !in After(cfg, s, actions).waitOf
    decreases actions
  {
    if actions != [] {
      if c in Next(cfg, s, actions[0]).waitOf {
        BeginsWait(cfg, s, actions[0], c);
      }
      NoWaitBeginsWhileAway(cfg, Next(cfg, s, actions[0]), actions[1..], c);
    }
  }

  // ---- no call is lost ---------------------------------------------------------------------

  lemma {:induction false} SettledHasOutcome(settled: seq<Settlement>, wait: nat)
    ensures (exists s :: s in settled && s.wait == wait) <==> OutcomeOf(settled, wait).Some?
  {
    OutcomeRecorded(settled, wait);
  }

  /** A call that is not over can move: its own next step is open, or it waits on a wait that is still pending. */
  lemma {:induction false} NoCallIsStuck(cfg: Config, actions: seq<Action>, c: nat)
    requires FreshIds(cfg) && Runs(cfg, Start, actions)
    requires var s := After(cfg, Start, actions); c in s.phases && !s.phases[c].Finished? && !s.phases[c].Threw?
    ensures var s := After(cfg, Start, actions);
            if Awaiting(s.phases[c]) then
              c in s.waitOf && (Enabled(s, WaitEnded(c)) <==> !Pending(s.registry, s.waitOf[c]))
            else
              Enabled(s, Resume(c)) || Enabled(s, HookAnswered(c, false)) || Enabled(s, ExecutorDone(c, Good))
              || Enabled(s, PostHookDone(c))
  {
    EveryRunIsSafe(cfg, actions);
    var s := After(cfg, Start, actions);
    if Awaiting(s.phases[c]) {
      EveryWaitAccountedFor(s.registry, s.waitOf[c]);
      SettledHasOutcome(s.registry.settled, s.waitOf[c]);
    }
  }

  /** Releasing every wait, by cancellation or withdrawal, leaves no call waiting: each can take its outcome at once. */
  lemma {:induction false} ReleaseFreesEveryCall(cfg: Config, actions: seq<Action>, a: Action, c: nat)
    requires FreshIds(cfg) && Runs(cfg, Start, actions) && (a.CancelAll? || a.WithdrawAll?)
    requires var s := Next(cfg, After(cfg, Start, actions), a); c in s.phases && Awaiting(s.phases[c])
    ensures Enabled(Next(cfg, After(cfg, Start, actions), a), WaitEnded(c))
  {
    EveryRunIsSafe(cfg, actions);
    NextSafe(cfg, After(cfg, Start, actions), a);
    var s := Next(cfg, After(cfg, Start, actions), a);
    EveryWaitAccountedFor(s.registry, s.waitOf[c]);
    SettledHasOutcome(s.registry.settled, s.waitOf[c]);
  }
}
