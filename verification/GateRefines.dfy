/**
 * Every interleaving of the gate's steps arrives at what its history tells.
 */
module GateRefines {
  import opened Approvals
  import opened GateProtocol
  import opened GateSafety
  import opened GateHistory
  import opened Wrappers

  // ---- one more action ---------------------------------------------------------------------

  lemma {:induction false} OneMore(past: seq<Action>, a: Action)
    ensures (past + [a])[..|past + [a]| - 1] == past && (past + [a])[|past + [a]| - 1] == a && past + [a] != []
    ensures forall b :: b in past + [a] <==> b in past || b == a
  {
  }

  lemma {:induction false} FlagsMore(past: seq<Action>, a: Action)
    ensures AttendedIn(past + [a]) == if a.SetAttended? then a.to else AttendedIn(past)
    ensures QuittingIn(past + [a]) == if a.SetQuitting? then a.to else QuittingIn(past)
  {
    OneMore(past, a);
  }

  lemma {:induction false} BeganMore(cfg: Config, past: seq<Action>, a: Action, c: nat)
    ensures Began(cfg, past + [a], c) <==> Began(cfg, past, c) || (a == Dispatch(c, Asks) && CanAsk(cfg, past, c))
  {
    OneMore(past, a);
  }

  lemma {:induction false} AwayMore(cfg: Config, past: seq<Action>, a: Action)
    ensures AwayIn(cfg, past + [a]) ==
            if a.UserReturned? then None
            else if a.WaitEnded? && Marks(cfg, past, a.call) then Some(Mark(Seconds(cfg), QuittingIn(past)))
            else AwayIn(cfg, past)
  {
    OneMore(past, a);
  }

  lemma {:induction false} ArmedMore(cfg: Config, past: seq<Action>, a: Action)
    ensures ArmedIn(cfg, past + [a]) == ArmedIn(cfg, past) + (if Arms(cfg, past, a) then 1 else 0)
  {
    OneMore(past, a);
  }

  lemma {:induction false} TimerMore(cfg: Config, past: seq<Action>, a: Action, c: nat)
    ensures var kept := TimerIn(cfg, past, c);
            TimerIn(cfg, past + [a], c) ==
            if Arms(cfg, past, a) && (a == Dispatch(c, Asks) || (a.Fire? && kept == Some(a.handle))) then
              Some(ArmedIn(cfg, past))
            else kept
  {
    OneMore(past, a);
  }

  lemma {:induction false} EndedMore(cfg: Config, past: seq<Action>, a: Action, c: nat)
    ensures EndedWith(cfg, past + [a], c) ==
            if !Began(cfg, past, c) then None
            else if EndedWith(cfg, past, c).Some? then EndedWith(cfg, past, c)
            else EndsWith(cfg, past, a, c)
  {
    OneMore(past, a);
  }

  lemma {:induction false} ReplyMore(cfg: Config, past: seq<Action>, a: Action, c: nat)
    ensures ReplyIn(cfg, past + [a], c) ==
            if ReplyIn(cfg, past, c).Some? then ReplyIn(cfg, past, c)
            else if a == Dispatch(c, Asks) && !CanAsk(cfg, past, c) then Some(Says(false, Headless))
            else if a == PresentThrew(c) || a == AnswerThrew(c) then Some(Says(false, FailClosed))
            else if a == PresentReplied(c, false) && !QuittingIn(past) then Some(Says(false, PresenterError))
            else if a == WaitEnded(c) && EndedWith(cfg, past, c).Some? then
              Some(ReplyTo(EndedWith(cfg, past, c).value, PresentReplied(c, true) in past))
            else None
  {
    OneMore(past, a);
  }

  lemma {:induction false} StoryMore(cfg: Config, past: seq<Action>, a: Action, c: nat)
    ensures var h := StoryOf(cfg, past, c);
            StoryOf(cfg, past + [a], c) ==
            Story(if a.Dispatch? && a.call == c then Some(a.verdict) else h.verdict,
                  h.waits || (a == Dispatch(c, Asks) && CanAsk(cfg, past, c)),
                  h.held || a == PresentReplied(c, false) || (a == Dispatch(c, Asks) && !AttendedIn(past)),
                  h.shown || a == PresentReplied(c, true),
                  ReplyIn(cfg, past + [a], c),
                  h.resumed || a == Resume(c),
                  h.passed || a == HookAnswered(c, false),
                  h.stopped || a == HookAnswered(c, true),
                  h.threw || a == HookThrew(c),
                  if a.ExecutorDone? && a.call == c then Some(a.result) else h.result,
                  h.closed || a == PostHookDone(c))
  {
    OneMore(past, a);
    BeganMore(cfg, past, a, c);
  }

  /** A step of another call, or of none, adds nothing to a call's story. */
  lemma {:induction false} StoryOfOthers(cfg: Config, past: seq<Action>, a: Action, c: nat)
    requires CallOf(a) != Some(c)
    ensures StoryOf(cfg, past + [a], c) == StoryOf(cfg, past, c)
  {
    StoryMore(cfg, past, a, c);
    ReplyMore(cfg, past, a, c);
  }

  // ---- where a call stands and what it logged ----------------------------------------------

  const Untold := Story(None, false, false, false, None, false, false, false, false, None, false)

  predicate MayWork(h: Story) {
    h.verdict == Some(Allowed)
    || (h.verdict == Some(Asks) && h.resumed && h.reply.Some? && h.reply.value.Says? && h.reply.value.allow)
  }

  /** What befalls a call comes in order. */
  ghost predicate Orderly(cfg: Config, h: Story) {
    && (h.verdict.None? ==> h == Untold)
    && (h.verdict != Some(Asks) ==> !h.waits && !h.held && !h.shown && h.reply.None? && !h.resumed)
    && (h.verdict == Some(Asks) && h.reply.None? ==> h.waits)
    && (h.resumed ==> h.reply.Some?)
    && (h.passed || h.stopped || h.threw || h.result.Some? || h.closed ==> MayWork(h))
    && (h.passed || h.stopped ==> cfg.hooks) && !(h.passed && h.stopped)
    && (h.result.Some? ==> !h.stopped && (cfg.hooks ==> h.passed))
    && (h.closed ==> h.result.Some?)
  }

  ghost predicate Fits(cfg: Config, c: nat, h: Story, phase: Option<Phase>, log: seq<Fact>) {
    Orderly(cfg, h) && phase == StandsAt(cfg, h) && log == Told(cfg, c, h)
  }

  ghost predicate CallTold(cfg: Config, s: State, past: seq<Action>, c: nat) {
    Fits(cfg, c, StoryOf(cfg, past, c), PhaseOf(s, c), Log(s.trace, c))
  }

  lemma {:induction false} EndsAre(cfg: Config, c: nat, status: Status)
    ensures Ends(cfg, c, status) == SettledFact(cfg, c, status)
  {
  }

  /** A decision just made, of a call nothing further has befallen. */
  lemma {:induction false} DecidedIs(cfg: Config, c: nat, h: Story, allow: bool, source: Source)
    requires !h.passed && !h.stopped && !h.threw && h.result.None? && !h.closed
    ensures var e := DecideEffect(cfg, c, allow, source);
            && Decided(cfg, c, h, allow, source) == e.facts
            && e.phase == if allow then WorksAt(cfg, h) else Finished
  {
    EndsAre(cfg, c, Blocked);
    assert [Ran] + [] == [Ran];
  }

  lemma {:induction false} DispatchedFits(cfg: Config, s: State, c: nat, verdict: Verdict, h: Story)
    requires !verdict.Asks? && h == Untold.(verdict := Some(verdict))
    ensures var e := DispatchEffect(cfg, s, c, verdict); Fits(cfg, c, h, Some(e.phase), [Opened] + e.facts)
  {
    EndsAre(cfg, c, Blocked);
    EndsAre(cfg, c, Failed);
    match verdict {
      case Allowed => DecidedIs(cfg, c, h, true, Rule);
      case Denied => DecidedIs(cfg, c, h, false, Rule);
      case _ =>
    }
  }

  /** What the state tells of the run's flags. */
  ghost predicate RunTold(cfg: Config, s: State, past: seq<Action>) {
    && s.attended == AttendedIn(past) && s.quitting == QuittingIn(past) && s.away == AwayIn(cfg, past)
    && s.registry.armed == ArmedIn(cfg, past)
    && (forall c :: c in s.listeners ==> !Spared(cfg, c))
  }

  lemma {:induction false} AskEffectIs(cfg: Config, s: State, past: seq<Action>, c: nat)
    requires RunTold(cfg, s, past)
    ensures AskEffect(cfg, Emit(s, c, Opened), c) ==
            if !CanAsk(cfg, past, c) then Effect(Brokered(false, Headless), [Requested(false)])
            else Effect(if AttendedIn(past) then Presenting else Held, [Requested(true)])
  {
  }

  lemma {:induction false} AskedFits(cfg: Config, s: State, past: seq<Action>, c: nat)
    requires RunTold(cfg, s, past) && StoryOf(cfg, past, c) == Untold
    ensures var e := AskEffect(cfg, Emit(s, c, Opened), c);
            Fits(cfg, c, StoryOf(cfg, past + [Dispatch(c, Asks)], c), Some(e.phase), [Opened] + e.facts)
  {
    StoryMore(cfg, past, Dispatch(c, Asks), c);
    ReplyMore(cfg, past, Dispatch(c, Asks), c);
    AskEffectIs(cfg, s, past, c);
    var h := StoryOf(cfg, past + [Dispatch(c, Asks)], c);
    assert [Opened] + [Requested(h.waits)] == [Opened, Requested(h.waits)] + [];
  }

  lemma {:induction false} DispatchTold(cfg: Config, s: State, past: seq<Action>, c: nat, verdict: Verdict)
    requires Enabled(s, Dispatch(c, verdict)) && RunTold(cfg, s, past) && CallTold(cfg, s, past, c)
    ensures CallTold(cfg, Next(cfg, s, Dispatch(c, verdict)), past + [Dispatch(c, verdict)], c)
  {
    var a := Dispatch(c, verdict);
    DispatchDid(cfg, s, c, verdict);
    var facts := [Opened] + DispatchEffect(cfg, s, c, verdict).facts;
    assert StoryOf(cfg, past, c) == Untold && [] + facts == facts;
    if verdict.Asks? {
      AskedFits(cfg, s, past, c);
    } else {
      StoryMore(cfg, past, a, c);
      ReplyMore(cfg, past, a, c);
      DispatchedFits(cfg, s, c, verdict, Untold.(verdict := Some(verdict)));
    }
  }

  lemma {:induction false} ResumeFits(cfg: Config, s: State, c: nat, h: Story, log: seq<Fact>)
    requires Enabled(s, Resume(c)) && Fits(cfg, c, h, PhaseOf(s, c), log)
    ensures var e := WorkEffect(cfg, s, Resume(c)); Fits(cfg, c, h.(resumed := true), Some(e.phase), log + e.facts)
  {
    var to, asked := h.(resumed := true), [Opened, Requested(h.waits)];
    assert h.verdict == Some(Asks) && !h.resumed && h.reply.Some? && log == asked;
    EndsAre(cfg, c, Blocked);
    if h.reply.value.Says? {
      DecidedIs(cfg, c, to, h.reply.value.allow, h.reply.value.source);
    }
  }

  /** What a call that works has logged before its decision, and the decision. */
  ghost predicate Working(h: Story, before: seq<Fact>, source: Source) {
    || (h.verdict == Some(Allowed) && before == [Opened] && source == Rule)
    || (h.verdict == Some(Asks) && h.resumed && h.reply == Some(Says(true, source))
        && before == [Opened, Requested(h.waits)])
  }

  lemma {:induction false} WorkingIs(cfg: Config, c: nat, h: Story, before: seq<Fact>, source: Source)
    requires Working(h, before, source)
    ensures Told(cfg, c, h) == before + Decided(cfg, c, h, true, source)
    ensures StandsAt(cfg, h) == Some(WorksAt(cfg, h))
  {
  }

  lemma {:induction false} Works(cfg: Config, h: Story) returns (before: seq<Fact>, source: Source)
    requires MayWork(h)
    ensures Working(h, before, source)
  {
    if h.verdict == Some(Allowed) {
      before, source := [Opened], Rule;
    } else {
      before, source := [Opened, Requested(h.waits)], h.reply.value.source;
    }
  }

  /** The story of a working call goes on, and with it where it stands and what it logged. */
  lemma {:induction false} WorkGoesOn(cfg: Config, c: nat, h: Story, to: Story, log: seq<Fact>, phase: Phase,
      facts: seq<Fact>)
    requires MayWork(h) && log == Told(cfg, c, h) && Orderly(cfg, to)
    requires to == h.(passed := to.passed, stopped := to.stopped, threw := to.threw, result := to.result,
                      closed := to.closed)
    requires phase == WorksAt(cfg, to)
    requires forall source :: Decided(cfg, c, to, true, source) == Decided(cfg, c, h, true, source) + facts
    ensures Fits(cfg, c, to, Some(phase), log + facts)
  {
    var before, source := Works(cfg, h);
    WorkingIs(cfg, c, h, before, source);
    WorkingIs(cfg, c, to, before, source);
    assert before + Decided(cfg, c, h, true, source) + facts == before + (Decided(cfg, c, h, true, source) + facts);
  }

  lemma {:induction false} HookFits(cfg: Config, s: State, c: nat, blocked: bool, h: Story, log: seq<Fact>)
    requires Enabled(s, HookAnswered(c, blocked)) && Fits(cfg, c, h, PhaseOf(s, c), log)
    ensures var e := WorkEffect(cfg, s, HookAnswered(c, blocked));
            Fits(cfg, c, if blocked then h.(stopped := true) else h.(passed := true), Some(e.phase), log + e.facts)
  {
    var e := WorkEffect(cfg, s, HookAnswered(c, blocked));
    var to := if blocked then h.(stopped := true) else h.(passed := true);
    EndsAre(cfg, c, Blocked);
    assert [Ran] + [] == [Ran];
    WorkGoesOn(cfg, c, h, to, log, e.phase, e.facts);
  }

  lemma {:induction false} ThrowFits(cfg: Config, s: State, c: nat, h: Story, log: seq<Fact>)
    requires Enabled(s, HookThrew(c)) && Fits(cfg, c, h, PhaseOf(s, c), log)
    ensures Fits(cfg, c, h.(threw := true), Some(Threw), log + [])
  {
    WorkGoesOn(cfg, c, h, h.(threw := true), log, Threw, []);
  }

  lemma {:induction false} StatusesAre(result: Result)
    ensures ResultStatus(result) == StatusOf(result)
  {
  }

  lemma {:induction false} DoneFits(cfg: Config, s: State, c: nat, result: Result, h: Story, log: seq<Fact>)
    requires Enabled(s, ExecutorDone(c, result)) && Fits(cfg, c, h, PhaseOf(s, c), log)
    ensures var e := WorkEffect(cfg, s, ExecutorDone(c, result));
            Fits(cfg, c, h.(result := Some(result)), Some(e.phase), log + e.facts)
  {
    var e := WorkEffect(cfg, s, ExecutorDone(c, result));
    StatusesAre(result);
    EndsAre(cfg, c, StatusOf(result));
    WorkGoesOn(cfg, c, h, h.(result := Some(result)), log, e.phase, e.facts);
  }

  lemma {:induction false} ClosedFits(cfg: Config, s: State, c: nat, h: Story, log: seq<Fact>)
    requires Enabled(s, PostHookDone(c)) && Fits(cfg, c, h, PhaseOf(s, c), log)
    ensures var e := WorkEffect(cfg, s, PostHookDone(c));
            Fits(cfg, c, h.(closed := true), Some(e.phase), log + e.facts)
  {
    var e := WorkEffect(cfg, s, PostHookDone(c));
    EndsAre(cfg, c, s.phases[c].status);
    WorkGoesOn(cfg, c, h, h.(closed := true), log, e.phase, e.facts);
  }

  lemma {:induction false} WorkMore(cfg: Config, past: seq<Action>, a: Action)
    requires IsWork(a)
    ensures var h := StoryOf(cfg, past, a.call);
            StoryOf(cfg, past + [a], a.call) ==
            match a
            case Resume(_) => h.(resumed := true)
            case HookAnswered(_, blocked) => if blocked then h.(stopped := true) else h.(passed := true)
            case HookThrew(_) => h.(threw := true)
            case ExecutorDone(_, result) => h.(result := Some(result))
            case PostHookDone(_) => h.(closed := true)
  {
    StoryMore(cfg, past, a, a.call);
    ReplyMore(cfg, past, a, a.call);
  }

  lemma {:induction false} HookTold(cfg: Config, s: State, past: seq<Action>, c: nat, blocked: bool)
    requires Enabled(s, HookAnswered(c, blocked)) && CallTold(cfg, s, past, c)
    ensures CallTold(cfg, Next(cfg, s, HookAnswered(c, blocked)), past + [HookAnswered(c, blocked)], c)
  {
    WorkDid(cfg, s, HookAnswered(c, blocked));
    WorkMore(cfg, past, HookAnswered(c, blocked));
    HookFits(cfg, s, c, blocked, StoryOf(cfg, past, c), Log(s.trace, c));
  }

  lemma {:induction false} ThrowTold(cfg: Config, s: State, past: seq<Action>, c: nat)
    requires Enabled(s, HookThrew(c)) && CallTold(cfg, s, past, c)
    ensures CallTold(cfg, Next(cfg, s, HookThrew(c)), past + [HookThrew(c)], c)
  {
    WorkDid(cfg, s, HookThrew(c));
    WorkMore(cfg, past, HookThrew(c));
    ThrowFits(cfg, s, c, StoryOf(cfg, past, c), Log(s.trace, c));
  }

  lemma {:induction false} WorkTold(cfg: Config, s: State, past: seq<Action>, a: Action)
    requires Enabled(s, a) && (a.Resume? || a.ExecutorDone? || a.PostHookDone?) && CallTold(cfg, s, past, a.call)
    ensures CallTold(cfg, Next(cfg, s, a), past + [a], a.call)
  {
    var h, log := StoryOf(cfg, past, a.call), Log(s.trace, a.call);
    WorkDid(cfg, s, a);
    WorkMore(cfg, past, a);
    match a {
      case Resume(c) => ResumeFits(cfg, s, c, h, log);
      case ExecutorDone(c, result) => DoneFits(cfg, s, c, result, h, log);
      case PostHookDone(c) => ClosedFits(cfg, s, c, h, log);
    }
  }

  // ---- waits -------------------------------------------------------------------------------

  /** The pending wait of a call, as its history tells it. */
  function WaitIn(cfg: Config, past: seq<Action>, c: nat, wait: nat): Waiter {
    Waiter(wait, Payload(cfg.idOf(c), c), if cfg.timeoutMs > 0 then Some(cfg.timeoutMs) else None,
           TimerIn(cfg, past, c), PresentReplied(c, true) in past)
  }

  ghost predicate WaitTold(cfg: Config, s: State, past: seq<Action>, c: nat) {
    && (c in s.waitOf <==> Began(cfg, past, c))
    && (EndedWith(cfg, past, c).Some? ==> Began(cfg, past, c))
    && (c in s.waitOf ==> OutcomeOf(s.registry.settled, s.waitOf[c]) == EndedWith(cfg, past, c))
    && (c in s.waitOf && EndedWith(cfg, past, c).None? ==> WaitIn(cfg, past, c, s.waitOf[c]) in s.registry.waiters)
  }

  ghost predicate AllTold(cfg: Config, s: State, past: seq<Action>) {
    && Safe(cfg, s) && RunTold(cfg, s, past)
    && (forall c: nat :: CallTold(cfg, s, past, c)) && (forall c: nat :: WaitTold(cfg, s, past, c))
  }

  lemma {:induction false} OutcomesAre(outcome: Outcome, shown: bool)
    ensures OutcomePhase(outcome, shown) ==
            match ReplyTo(outcome, shown)
            case Interrupts => Interrupted
            case Says(allow, source) => Brokered(allow, source)
  {
  }

  lemma {:induction false} EndWaitPhase(cfg: Config, s: State, c: nat)
    requires Enabled(s, WaitEnded(c))
    ensures Next(cfg, s, WaitEnded(c)).phases[c] ==
            OutcomePhase(OutcomeOf(s.registry.settled, s.waitOf[c]).value, s.phases[c].Shown?)
  {
  }

  lemma {:induction false} ReplyPhase(cfg: Config, s: State, a: Action)
    requires Enabled(s, a) && IsBrokers(a) && !a.WaitEnded?
    ensures Next(cfg, s, a).phases[a.call] ==
            match a
            case PresentReplied(_, ok) =>
              if ok then Shown else if s.quitting then Held else Brokered(false, PresenterError)
            case _ => Brokered(false, FailClosed)
  {
  }

  /** A call that awaits its answer has logged its request, and does so on after more has befallen it. */
  lemma {:induction false} AwaitedFits(cfg: Config, c: nat, h: Story, to: Story, phase: Phase, log: seq<Fact>)
    requires Orderly(cfg, h) && log == Told(cfg, c, h) && h.verdict == Some(Asks) && h.reply.None?
    requires to == h.(held := to.held, shown := to.shown, reply := to.reply) && StandsAt(cfg, to) == Some(phase)
    ensures Fits(cfg, c, to, Some(phase), log)
  {
  }

  lemma {:induction false} AwaitingIs(cfg: Config, h: Story, phase: Phase)
    requires Orderly(cfg, h) && StandsAt(cfg, h) == Some(phase) && Awaiting(phase)
    ensures h.verdict == Some(Asks) && h.reply.None? && h.waits && (h.shown <==> phase.Shown?)
  {
  }

  lemma {:induction false} EndedTold(cfg: Config, s: State, past: seq<Action>, c: nat)
    requires Enabled(s, WaitEnded(c)) && CallTold(cfg, s, past, c) && WaitTold(cfg, s, past, c)
    ensures CallTold(cfg, Next(cfg, s, WaitEnded(c)), past + [WaitEnded(c)], c)
  {
    var a, log, h := WaitEnded(c), Log(s.trace, c), StoryOf(cfg, past, c);
    BrokerDid(cfg, s, a);
    assert log + [] == log;
    StoryMore(cfg, past, a, c);
    ReplyMore(cfg, past, a, c);
    AwaitingIs(cfg, h, s.phases[c]);
    EndWaitPhase(cfg, s, c);
    OutcomesAre(EndedWith(cfg, past, c).value, h.shown);
    AwaitedFits(cfg, c, h, StoryOf(cfg, past + [a], c), Next(cfg, s, a).phases[c], log);
  }

  /** What the presenter's answer, or a failure of the broker, adds to the story of a call without an answer yet. */
  lemma {:induction false} RepliedMore(cfg: Config, past: seq<Action>, a: Action)
    requires IsBrokers(a) && !a.WaitEnded? && ReplyIn(cfg, past, a.call).None?
    ensures var h := StoryOf(cfg, past, a.call);
            StoryOf(cfg, past + [a], a.call) ==
            match a
            case PresentReplied(_, ok) =>
              if ok then h.(shown := true)
              else if QuittingIn(past) then h.(held := true)
              else h.(held := true, reply := Some(Says(false, PresenterError)))
            case _ => h.(reply := Some(Says(false, FailClosed)))
  {
    StoryMore(cfg, past, a, a.call);
    ReplyMore(cfg, past, a, a.call);
  }

  lemma {:induction false} RepliedTold(cfg: Config, s: State, past: seq<Action>, a: Action)
    requires Enabled(s, a) && IsBrokers(a) && !a.WaitEnded?
    requires CallTold(cfg, s, past, a.call) && s.quitting == QuittingIn(past)
    ensures CallTold(cfg, Next(cfg, s, a), past + [a], a.call)
  {
    var c, log, h := a.call, Log(s.trace, a.call), StoryOf(cfg, past, a.call);
    BrokerDid(cfg, s, a);
    NothingLogged(log);
    AwaitingIs(cfg, h, s.phases[c]);
    RepliedMore(cfg, past, a);
    ReplyPhase(cfg, s, a);
    AwaitedFits(cfg, c, h, StoryOf(cfg, past + [a], c), Next(cfg, s, a).phases[c], log);
  }

  lemma {:induction false} NothingLogged(log: seq<Fact>)
    ensures log + [] == log
  {
  }

  /** Where every call stands and what it logged, one step on. */
  lemma {:induction false} StepTold(cfg: Config, s: State, past: seq<Action>, a: Action, c: nat)
    requires Enabled(s, a) && RunTold(cfg, s, past) && CallTold(cfg, s, past, c) && WaitTold(cfg, s, past, c)
    ensures CallTold(cfg, Next(cfg, s, a), past + [a], c)
  {
    if CallOf(a) != Some(c) {
      StepOthers(cfg, s, a, c);
      StoryOfOthers(cfg, past, a, c);
    } else if a.Dispatch? {
      DispatchTold(cfg, s, past, c, a.verdict);
    } else if a.HookAnswered? {
      HookTold(cfg, s, past, c, a.blocked);
    } else if a.HookThrew? {
      ThrowTold(cfg, s, past, c);
    } else if IsWork(a) {
      WorkTold(cfg, s, past, a);
    } else if a.WaitEnded? {
      EndedTold(cfg, s, past, c);
    } else {
      RepliedTold(cfg, s, past, a);
    }
  }

  // ---- the registry, one step on -----------------------------------------------------------

  /** A wait comes to the outcome the action brings it, or stays pending as its history tells. */
  ghost predicate ComesTo(cfg: Config, t: State, past: seq<Action>, a: Action, c: nat, wait: nat) {
    match EndsWith(cfg, past, a, c)
    case Some(outcome) => Settlement(wait, outcome) in t.registry.settled
    case None => WaitIn(cfg, past + [a], c, wait) in t.registry.waiters
  }

  /** A call's wait is pending, as its history tells. */
  ghost predicate PendingTold(cfg: Config, s: State, past: seq<Action>, c: nat) {
    c in s.waitOf && EndedWith(cfg, past, c).None? && WaitIn(cfg, past, c, s.waitOf[c]) in s.registry.waiters
  }

  lemma {:induction false} FinishOn(r: Registry, id: string, outcome: Outcome, w: Waiter)
    requires DistinctIds(r.waiters) && w in r.waiters
    ensures if w.payload.requestId == id then Settlement(w.wait, outcome) in Finish(r, id, outcome).settled
            else w in Finish(r, id, outcome).waiters
  {
    Removed(r, id, outcome);
    if w.payload.requestId == id {
      FinishSettles(r, id, outcome, w);
    }
  }

  lemma {:induction false} FinishEveryOn(r: Registry, outcome: Outcome, w: Waiter)
    requires w in r.waiters
    ensures Settlement(w.wait, outcome) in FinishEvery(r, outcome).settled
  {
    var j :| 0 <= j < |r.waiters| && r.waiters[j] == w;
    assert FinishEvery(r, outcome).settled[|r.settled| + j] == Settlement(w.wait, outcome);
  }

  lemma {:induction false} ExpireOn(r: Registry, handle: nat, held: bool, w: Waiter)
    requires Inv(r) && handle in r.timers && w in r.waiters
    ensures var to := Expire(r, handle, held);
            if w.timer != Some(handle) then w in to.waiters
            else if held then w.(timer := Some(r.armed)) in to.waiters
            else w.timeoutMs.Some? && Settlement(w.wait, TimedOut(SecondsOf(w.timeoutMs.value))) in to.settled
  {
    TimerNamesItsWait(r, handle, w);
    if held {
      HeldOn(r, handle, w);
    } else {
      ExpireIsFinish(r, handle);
      FinishOn(r, r.timers[handle].requestId, TimedOut(SecondsOf(r.timers[handle].afterMs)), w);
    }
  }

  lemma {:induction false} HeldOn(r: Registry, handle: nat, w: Waiter)
    requires Inv(r) && handle in r.timers && w in r.waiters
    ensures (if w.timer == Some(handle) then w.(timer := Some(r.armed)) else w) in Expire(r, handle, true).waiters
  {
    var i := TimerHolder(r, handle);
    var j :| 0 <= j < |r.waiters| && r.waiters[j] == w;
    TimerNamesItsWait(r, handle, w);
    OneWaiterPerId(r.waiters, i, w);
    var to := Expire(r, handle, true);
    assert to.waiters == r.waiters[i := r.waiters[i].(timer := Some(r.armed))];
    assert to.waiters[j] == if w.timer == Some(handle) then w.(timer := Some(r.armed)) else w;
  }

  lemma {:induction false} ShownOn(r: Registry, id: string, w: Waiter)
    requires DistinctIds(r.waiters) && w in r.waiters
    ensures (if w.payload.requestId == id then w.(shown := true) else w) in WithShown(r, id).waiters
  {
    var i := Approvals.IndexOf(r.waiters, id);
    var j :| 0 <= j < |r.waiters| && r.waiters[j] == w;
    if i < |r.waiters| {
      OneWaiterPerId(r.waiters, i, w);
      assert WithShown(r, id).waiters[j] == if w.payload.requestId == id then w.(shown := true) else w;
    }
  }

  // ---- waits, one step on ------------------------------------------------------------------

  lemma {:induction false} WaitMore(cfg: Config, past: seq<Action>, a: Action, c: nat, wait: nat)
    requires a != PresentReplied(c, true) && a != Dispatch(c, Asks)
    ensures var w := WaitIn(cfg, past, c, wait);
            WaitIn(cfg, past + [a], c, wait) ==
            if a.Fire? && QuittingIn(past) && w.timer == Some(a.handle) then w.(timer := Some(ArmedIn(cfg, past)))
            else w
  {
    OneMore(past, a);
    TimerMore(cfg, past, a, c);
  }

  /** A step that finishes one id brings the outcome to the wait of that id, and leaves every other. */
  lemma {:induction false} FinishComes(cfg: Config, s: State, past: seq<Action>, a: Action, c: nat, t: State,
      id: string, outcome: Outcome)
    requires DistinctIds(s.registry.waiters) && PendingTold(cfg, s, past, c)
    requires t.registry == Finish(s.registry, id, outcome)
    requires EndsWith(cfg, past, a, c) == if id == cfg.idOf(c) then Some(outcome) else None
    requires WaitIn(cfg, past + [a], c, s.waitOf[c]) == WaitIn(cfg, past, c, s.waitOf[c])
    ensures ComesTo(cfg, t, past, a, c, s.waitOf[c])
  {
    FinishOn(s.registry, id, outcome, WaitIn(cfg, past, c, s.waitOf[c]));
  }

  lemma {:induction false} NamedComes(cfg: Config, s: State, past: seq<Action>, a: Action, c: nat)
    requires DistinctIds(s.registry.waiters) && PendingTold(cfg, s, past, c) && (a.Answer? || a.Cancel?)
    ensures ComesTo(cfg, Next(cfg, s, a), past, a, c, s.waitOf[c])
  {
    WaitMore(cfg, past, a, c, s.waitOf[c]);
    FinishComes(cfg, s, past, a, c, Next(cfg, s, a), a.id, if a.Answer? then Resolved(a.choice) else Cancelled);
  }

  lemma {:induction false} ReleaseComes(cfg: Config, s: State, past: seq<Action>, a: Action, c: nat)
    requires PendingTold(cfg, s, past, c) && (a.CancelAll? || a.WithdrawAll?)
    ensures ComesTo(cfg, Next(cfg, s, a), past, a, c, s.waitOf[c])
  {
    FinishEveryOn(s.registry, if a.CancelAll? then Cancelled else Withdrawn(a.cause),
                  WaitIn(cfg, past, c, s.waitOf[c]));
  }

  lemma {:induction false} FireComes(cfg: Config, s: State, past: seq<Action>, handle: nat, c: nat)
    requires Inv(s.registry) && RunTold(cfg, s, past) && Enabled(s, Fire(handle)) && PendingTold(cfg, s, past, c)
    ensures ComesTo(cfg, Next(cfg, s, Fire(handle)), past, Fire(handle), c, s.waitOf[c])
  {
    WaitMore(cfg, past, Fire(handle), c, s.waitOf[c]);
    ExpireOn(s.registry, handle, s.quitting, WaitIn(cfg, past, c, s.waitOf[c]));
  }

  lemma {:induction false} ShownComes(cfg: Config, s: State, past: seq<Action>, d: nat, c: nat)
    requires FreshIds(cfg) && Safe(cfg, s) && Enabled(s, PresentReplied(d, true)) && PendingTold(cfg, s, past, c)
    ensures ComesTo(cfg, Next(cfg, s, PresentReplied(d, true)), past, PresentReplied(d, true), c, s.waitOf[c])
  {
    var a := PresentReplied(d, true);
    OneMore(past, a);
    TimerMore(cfg, past, a, c);
    ShownOn(s.registry, cfg.idOf(d), WaitIn(cfg, past, c, s.waitOf[c]));
  }

  lemma {:induction false} FailureComes(cfg: Config, s: State, past: seq<Action>, a: Action, c: nat)
    requires FreshIds(cfg) && Safe(cfg, s) && RunTold(cfg, s, past) && Enabled(s, a) && PendingTold(cfg, s, past, c)
    requires a.PresentThrew? || a.AnswerThrew? || (a.PresentReplied? && !a.ok)
    ensures ComesTo(cfg, Next(cfg, s, a), past, a, c, s.waitOf[c])
  {
    WaitMore(cfg, past, a, c, s.waitOf[c]);
    if a.PresentReplied? && s.quitting {
      assert Next(cfg, s, a).registry == s.registry;
    } else {
      FinishComes(cfg, s, past, a, c, Next(cfg, s, a), cfg.idOf(a.call), Cancelled);
    }
  }

  /** The waits the listeners end are those of the calls the away state is for. */
  lemma {:induction false} ListenersEnd(cfg: Config, s: State, c: nat, w: Waiter, seconds: real)
    requires FreshIds(cfg) && Inv(s.registry) && AwayOk(cfg, s)
    requires w in s.registry.waiters && w.payload == Payload(cfg.idOf(c), c)
    requires forall d :: d in s.listeners ==> !Spared(cfg, d)
    ensures var to := EndAwayEach(cfg, s.registry, s.listeners, seconds);
            if Spared(cfg, c) then w in to.waiters else Settlement(w.wait, Outcome.Away(seconds)) in to.settled
  {
    EndAwayLeaves(cfg, s.registry, s.listeners, seconds, w);
  }

  lemma {:induction false} MarkedIs(cfg: Config, s: State, past: seq<Action>, d: nat)
    requires Enabled(s, WaitEnded(d)) && RunTold(cfg, s, past)
    requires CallTold(cfg, s, past, d) && WaitTold(cfg, s, past, d)
    requires s.phases[d].Shown? <==> PresentReplied(d, true) in past
    ensures var t := Next(cfg, s, WaitEnded(d));
            if Marks(cfg, past, d) then
              && t.away == Some(Mark(EndedWith(cfg, past, d).value.afterSeconds, s.quitting))
              && t.registry == if s.quitting then s.registry
                               else EndAwayEach(cfg, s.registry, s.listeners, t.away.value.afterSeconds)
            else t.away == s.away && t.registry == s.registry
  {
  }

  lemma {:induction false} ShownIsTold(cfg: Config, s: State, past: seq<Action>, d: nat)
    requires Enabled(s, WaitEnded(d)) && CallTold(cfg, s, past, d)
    ensures s.phases[d].Shown? <==> PresentReplied(d, true) in past
  {
    AwaitingIs(cfg, StoryOf(cfg, past, d), s.phases[d]);
  }

  /** Every wait that runs out runs out of the one budget. */
  lemma {:induction false} TimeoutsAre(cfg: Config, past: seq<Action>, c: nat)
    ensures var o := EndedWith(cfg, past, c); o.Some? && o.value.TimedOut? ==> o.value.afterSeconds == Seconds(cfg)
    decreases |past|
  {
    if past != [] {
      TimeoutsAre(cfg, past[..|past| - 1], c);
    }
  }

  lemma {:induction false} MarkComes(cfg: Config, s: State, past: seq<Action>, d: nat, c: nat)
    requires FreshIds(cfg) && Safe(cfg, s) && RunTold(cfg, s, past) && Enabled(s, WaitEnded(d))
    requires CallTold(cfg, s, past, d) && WaitTold(cfg, s, past, d) && PendingTold(cfg, s, past, c)
    ensures ComesTo(cfg, Next(cfg, s, WaitEnded(d)), past, WaitEnded(d), c, s.waitOf[c])
  {
    ShownIsTold(cfg, s, past, d);
    MarkedIs(cfg, s, past, d);
    TimeoutsAre(cfg, past, d);
    MarkReaches(cfg, s, past, d, c, Next(cfg, s, WaitEnded(d)));
  }

  lemma {:induction false} MarkReaches(cfg: Config, s: State, past: seq<Action>, d: nat, c: nat, t: State)
    requires FreshIds(cfg) && Inv(s.registry) && AwayOk(cfg, s) && s.quitting == QuittingIn(past)
    requires PendingTold(cfg, s, past, c) && forall d :: d in s.listeners ==> !Spared(cfg, d)
    requires t.registry == if Marks(cfg, past, d) && !s.quitting
                           then EndAwayEach(cfg, s.registry, s.listeners, Seconds(cfg)) else s.registry
    ensures ComesTo(cfg, t, past, WaitEnded(d), c, s.waitOf[c])
  {
    var w := WaitIn(cfg, past, c, s.waitOf[c]);
    WaitMore(cfg, past, WaitEnded(d), c, s.waitOf[c]);
    if Marks(cfg, past, d) && !s.quitting {
      ListenersEnd(cfg, s, c, w, Seconds(cfg));
    } else {
      assert EndsWith(cfg, past, WaitEnded(d), c).None?;
    }
  }

  lemma {:induction false} AskKeeps(cfg: Config, s: State, past: seq<Action>, d: nat)
    requires RunTold(cfg, s, past) && Enabled(s, Dispatch(d, Asks))
    ensures var t := Next(cfg, s, Dispatch(d, Asks));
            if CanAsk(cfg, past, d) then
              && t.registry == Create(s.registry, Payload(cfg.idOf(d), d),
                                      if cfg.timeoutMs > 0 then Some(cfg.timeoutMs) else None)
              && t.waitOf == s.waitOf[d := s.registry.created]
              && t.listeners == if Spared(cfg, d) then s.listeners else s.listeners + [d]
            else t.registry == s.registry && t.waitOf == s.waitOf && t.listeners == s.listeners
  {
  }

  lemma {:induction false} AskComes(cfg: Config, s: State, past: seq<Action>, d: nat, c: nat)
    requires Safe(cfg, s) && RunTold(cfg, s, past) && Enabled(s, Dispatch(d, Asks)) && d != c
    requires PendingTold(cfg, s, past, c)
    ensures ComesTo(cfg, Next(cfg, s, Dispatch(d, Asks)), past, Dispatch(d, Asks), c, s.waitOf[c])
  {
    AskKeeps(cfg, s, past, d);
    WaitMore(cfg, past, Dispatch(d, Asks), c, s.waitOf[c]);
  }

  /** The remaining steps leave the registry, and what each wait comes to. */
  lemma {:induction false} QuietComes(cfg: Config, s: State, past: seq<Action>, a: Action, c: nat)
    requires Enabled(s, a) && PendingTold(cfg, s, past, c)
    requires IsWork(a) || a.UserReturned? || a.SetAttended? || a.SetQuitting? || (a.Dispatch? && !a.verdict.Asks?)
    ensures ComesTo(cfg, Next(cfg, s, a), past, a, c, s.waitOf[c])
  {
    WaitMore(cfg, past, a, c, s.waitOf[c]);
    if a.Dispatch? {
      PlainBeside(cfg, s, a.call, a.verdict);
    } else if IsWork(a) {
      WorkBeside(cfg, s, a);
    }
  }

  /** Only what calls log, and where they stand, may differ. */
  ghost predicate Beside(s: State, t: State) {
    t == s.(trace := t.trace, phases := t.phases)
  }

  lemma {:induction false} SettleBeside(cfg: Config, s: State, c: nat, status: Status)
    ensures Beside(s, Settle(cfg, s, c, status))
  {
  }

  lemma {:induction false} DecideBeside(cfg: Config, s: State, c: nat, allow: bool, source: Source)
    ensures Beside(s, Decide(cfg, s, c, allow, source))
  {
    SettleBeside(cfg, Emit(s, c, Audited(allow, source)), c, Blocked);
  }

  lemma {:induction false} WorkBeside(cfg: Config, s: State, a: Action)
    requires Enabled(s, a) && IsWork(a)
    ensures Beside(s, Next(cfg, s, a))
  {
    match a {
      case Resume(c) =>
        if s.phases[c].Interrupted? {
          SettleBeside(cfg, s, c, Blocked);
        } else {
          DecideBeside(cfg, s, c, s.phases[c].allow, s.phases[c].source);
        }
      case HookAnswered(c, blocked) => SettleBeside(cfg, s, c, Blocked);
      case HookThrew(c) =>
      case ExecutorDone(c, result) => SettleBeside(cfg, s, c, StatusOf(result));
      case PostHookDone(c) => SettleBeside(cfg, s, c, s.phases[c].status);
    }
  }

  lemma {:induction false} PlainBeside(cfg: Config, s: State, c: nat, verdict: Verdict)
    requires Enabled(s, Dispatch(c, verdict)) && !verdict.Asks?
    ensures Beside(s, Next(cfg, s, Dispatch(c, verdict)))
  {
    var open := Emit(s, c, Opened);
    match verdict {
      case Malformed => SettleBeside(cfg, open, c, Failed);
      case Withheld => SettleBeside(cfg, open, c, Blocked);
      case Raised =>
      case Allowed => DecideBeside(cfg, open, c, true, Rule);
      case Denied => DecideBeside(cfg, open, c, false, Rule);
    }
  }

  /** A pending wait, one step of any kind on. */
  lemma {:induction false} StepComes(cfg: Config, s: State, past: seq<Action>, a: Action, c: nat)
    requires FreshIds(cfg) && AllTold(cfg, s, past) && Enabled(s, a) && PendingTold(cfg, s, past, c)
    ensures ComesTo(cfg, Next(cfg, s, a), past, a, c, s.waitOf[c])
  {
    match a {
      case Answer(_, _) => NamedComes(cfg, s, past, a, c);
      case Cancel(_) => NamedComes(cfg, s, past, a, c);
      case CancelAll => ReleaseComes(cfg, s, past, a, c);
      case WithdrawAll(_) => ReleaseComes(cfg, s, past, a, c);
      case Fire(handle) => FireComes(cfg, s, past, handle, c);
      case WaitEnded(d) =>
        assert CallTold(cfg, s, past, d) && WaitTold(cfg, s, past, d);
        MarkComes(cfg, s, past, d, c);
      case PresentThrew(_) => FailureComes(cfg, s, past, a, c);
      case AnswerThrew(_) => FailureComes(cfg, s, past, a, c);
      case PresentReplied(d, ok) =>
        if ok { ShownComes(cfg, s, past, d, c); } else { FailureComes(cfg, s, past, a, c); }
      case Dispatch(d, verdict) =>
        if verdict.Asks? { AskComes(cfg, s, past, d, c); } else { QuietComes(cfg, s, past, a, c); }
      case _ => QuietComes(cfg, s, past, a, c);
    }
  }

  lemma {:induction false} SettledOutcome(r: Registry, wait: nat, outcome: Outcome)
    requires WaitsDistinct(r) && Settlement(wait, outcome) in r.settled
    ensures OutcomeOf(r.settled, wait) == Some(outcome)
  {
    OutcomeRecorded(r.settled, wait);
    var i :| 0 <= i < |r.settled| && r.settled[i] == Settlement(wait, outcome);
    var j :| 0 <= j < |r.settled| && r.settled[j] == Settlement(wait, OutcomeOf(r.settled, wait).value);
    assert i == j;
  }

  lemma {:induction false} PendingOutcome(r: Registry, w: Waiter)
    requires WaitsDistinct(r) && w in r.waiters
    ensures OutcomeOf(r.settled, w.wait).None?
  {
    OutcomeRecorded(r.settled, w.wait);
    if OutcomeOf(r.settled, w.wait).Some? {
      PendingIsUnsettled(r, w.wait, Settlement(w.wait, OutcomeOf(r.settled, w.wait).value));
    }
  }

  lemma {:induction false} ComesToOutcome(cfg: Config, t: State, past: seq<Action>, a: Action, c: nat, wait: nat)
    requires WaitsDistinct(t.registry) && ComesTo(cfg, t, past, a, c, wait)
    ensures OutcomeOf(t.registry.settled, wait) == EndsWith(cfg, past, a, c)
  {
    match EndsWith(cfg, past, a, c) {
      case Some(outcome) => SettledOutcome(t.registry, wait, outcome);
      case None => PendingOutcome(t.registry, WaitIn(cfg, past + [a], c, wait));
    }
  }

  lemma {:induction false} BrokerSettles(cfg: Config, s: State, a: Action)
    requires Inv(s.registry) && Enabled(s, a) && IsBrokers(a)
    ensures s.registry.settled <= Next(cfg, s, a).registry.settled
  {
    if a.WaitEnded? && s.away.None? {
      var outcome := OutcomeOf(s.registry.settled, s.waitOf[a.call]).value;
      if outcome.TimedOut? {
        EndAwayShrinks(cfg, s.registry, s.listeners, outcome.afterSeconds);
      }
    }
  }

  lemma {:induction false} OutsideSettles(cfg: Config, s: State, a: Action)
    requires Inv(s.registry) && Enabled(s, a)
    requires a.Answer? || a.Cancel? || a.CancelAll? || a.WithdrawAll? || a.Fire?
    ensures s.registry.settled <= Next(cfg, s, a).registry.settled
  {
    if a.Fire? {
      FireShrinks(s.registry, a.handle, s.quitting);
    }
  }

  /** What was settled stays settled, and each wait keeps its call; only an ask that can be made begins one. */
  lemma {:induction false} WaitsStay(cfg: Config, s: State, past: seq<Action>, a: Action)
    requires Safe(cfg, s) && RunTold(cfg, s, past) && Enabled(s, a)
    ensures s.registry.settled <= Next(cfg, s, a).registry.settled
    ensures Next(cfg, s, a).waitOf ==
            if a.Dispatch? && a.verdict.Asks? && CanAsk(cfg, past, a.call)
            then s.waitOf[a.call := s.registry.created] else s.waitOf
  {
    if a.Dispatch? {
      if a.verdict.Asks? { AskKeeps(cfg, s, past, a.call); } else { PlainBeside(cfg, s, a.call, a.verdict); }
    } else {
      OthersBeginNone(cfg, s, a);
      if IsWork(a) {
        WorkBeside(cfg, s, a);
      } else if IsBrokers(a) {
        BrokerSettles(cfg, s, a);
      } else if !(a.UserReturned? || a.SetAttended? || a.SetQuitting?) {
        OutsideSettles(cfg, s, a);
      }
    }
  }

  /** A wait that has begun: it ended and stays so, or comes to what the action brings it. */
  lemma {:induction false} BegunTold(cfg: Config, s: State, past: seq<Action>, a: Action, c: nat)
    requires FreshIds(cfg) && AllTold(cfg, s, past) && Enabled(s, a) && c in s.waitOf
    ensures WaitTold(cfg, Next(cfg, s, a), past + [a], c)
  {
    assert WaitTold(cfg, s, past, c) && CallOk(cfg, s, c);
    var t := Next(cfg, s, a);
    EndedMore(cfg, past, a, c);
    BeganMore(cfg, past, a, c);
    NextSafe(cfg, s, a);
    WaitsStay(cfg, s, past, a);
    assert t.waitOf[c] == s.waitOf[c];
    if EndedWith(cfg, past, c).Some? {
      OutcomeStays(t.registry, s.registry.settled, s.waitOf[c]);
    } else {
      StepComes(cfg, s, past, a, c);
      ComesToOutcome(cfg, t, past, a, c, s.waitOf[c]);
    }
  }

  lemma {:induction false} TimerNeedsWait(cfg: Config, past: seq<Action>, c: nat)
    ensures TimerIn(cfg, past, c).Some? ==> Began(cfg, past, c)
    decreases |past|
  {
    if past != [] {
      var front, a := past[..|past| - 1], past[|past| - 1];
      TimerNeedsWait(cfg, front, c);
      assert front + [a] == past;
      TimerMore(cfg, front, a, c);
      BeganMore(cfg, front, a, c);
    }
  }

  lemma {:induction false} NewWait(cfg: Config, s: State, past: seq<Action>, c: nat)
    requires RunTold(cfg, s, past) && Enabled(s, Dispatch(c, Asks)) && CanAsk(cfg, past, c)
    requires !Began(cfg, past, c) && PresentReplied(c, true) !in past
    ensures WaitIn(cfg, past + [Dispatch(c, Asks)], c, s.registry.created)
            in Next(cfg, s, Dispatch(c, Asks)).registry.waiters
  {
    var a, t := Dispatch(c, Asks), Next(cfg, s, Dispatch(c, Asks));
    AskKeeps(cfg, s, past, c);
    OneMore(past, a);
    TimerMore(cfg, past, a, c);
    TimerNeedsWait(cfg, past, c);
    assert t.registry.waiters[|s.registry.waiters|] == WaitIn(cfg, past + [a], c, s.registry.created);
  }

  lemma {:induction false} NewWaitTold(cfg: Config, s: State, past: seq<Action>, c: nat)
    requires FreshIds(cfg) && Safe(cfg, s) && RunTold(cfg, s, past) && Enabled(s, Dispatch(c, Asks))
    requires CanAsk(cfg, past, c) && !Began(cfg, past, c) && PresentReplied(c, true) !in past
    ensures WaitTold(cfg, Next(cfg, s, Dispatch(c, Asks)), past + [Dispatch(c, Asks)], c)
  {
    var a := Dispatch(c, Asks);
    EndedMore(cfg, past, a, c);
    BeganMore(cfg, past, a, c);
    AskKeeps(cfg, s, past, c);
    NewWait(cfg, s, past, c);
    NextSafe(cfg, s, a);
    PendingOutcome(Next(cfg, s, a).registry, WaitIn(cfg, past + [a], c, s.registry.created));
  }

  lemma {:induction false} UnbegunTold(cfg: Config, s: State, past: seq<Action>, a: Action, c: nat)
    requires FreshIds(cfg) && Safe(cfg, s) && RunTold(cfg, s, past) && Enabled(s, a) && c !in s.waitOf
    requires WaitTold(cfg, s, past, c) && CallTold(cfg, s, past, c)
    ensures WaitTold(cfg, Next(cfg, s, a), past + [a], c)
  {
    if a == Dispatch(c, Asks) && CanAsk(cfg, past, c) {
      assert StoryOf(cfg, past, c) == Untold;
      NewWaitTold(cfg, s, past, c);
    } else {
      EndedMore(cfg, past, a, c);
      BeganMore(cfg, past, a, c);
      WaitsStay(cfg, s, past, a);
    }
  }

  // ---- the run's own state, one step on ----------------------------------------------------

  lemma {:induction false} UnlistenFewer(listeners: seq<nat>, c: nat)
    ensures forall d :: d in Unlisten(listeners, c) ==> d in listeners
    decreases listeners
  {
    if listeners != [] {
      UnlistenFewer(listeners[1..], c);
    }
  }

  lemma {:induction false} EndAwayArms(cfg: Config, r: Registry, listeners: seq<nat>, seconds: real)
    ensures EndAwayEach(cfg, r, listeners, seconds).armed == r.armed
    decreases listeners
  {
    if listeners != [] {
      EndAwayArms(cfg, Finish(r, cfg.idOf(listeners[0]), Outcome.Away(seconds)), listeners[1..], seconds);
    }
  }

  lemma {:induction false} DispatchRun(cfg: Config, s: State, past: seq<Action>, c: nat, verdict: Verdict)
    requires RunTold(cfg, s, past) && Enabled(s, Dispatch(c, verdict))
    ensures RunTold(cfg, Next(cfg, s, Dispatch(c, verdict)), past + [Dispatch(c, verdict)])
  {
    var a := Dispatch(c, verdict);
    FlagsMore(past, a);
    AwayMore(cfg, past, a);
    ArmedMore(cfg, past, a);
    if verdict.Asks? {
      AskKeeps(cfg, s, past, c);
      DispatchDoesNotMark(cfg, s, c, verdict);
      AskFlags(cfg, s, c);
    } else {
      PlainBeside(cfg, s, c, verdict);
    }
  }

  lemma {:induction false} AskFlags(cfg: Config, s: State, c: nat)
    requires Enabled(s, Dispatch(c, Asks))
    ensures var t := Next(cfg, s, Dispatch(c, Asks)); t.attended == s.attended && t.quitting == s.quitting
  {
  }

  lemma {:induction false} BrokerRun(cfg: Config, s: State, past: seq<Action>, a: Action)
    requires RunTold(cfg, s, past) && Enabled(s, a) && IsBrokers(a) && !a.WaitEnded?
    ensures RunTold(cfg, Next(cfg, s, a), past + [a])
  {
    FlagsMore(past, a);
    AwayMore(cfg, past, a);
    ArmedMore(cfg, past, a);
    UnlistenFewer(s.listeners, a.call);
  }

  lemma {:induction false} EndedKeeps(cfg: Config, s: State, c: nat)
    requires Enabled(s, WaitEnded(c))
    ensures var t := Next(cfg, s, WaitEnded(c));
            && t.attended == s.attended && t.quitting == s.quitting && t.listeners == Unlisten(s.listeners, c)
  {
  }

  lemma {:induction false} EndedRun(cfg: Config, s: State, past: seq<Action>, c: nat)
    requires RunTold(cfg, s, past) && Enabled(s, WaitEnded(c))
    requires CallTold(cfg, s, past, c) && WaitTold(cfg, s, past, c)
    ensures RunTold(cfg, Next(cfg, s, WaitEnded(c)), past + [WaitEnded(c)])
  {
    var a := WaitEnded(c);
    FlagsMore(past, a);
    AwayMore(cfg, past, a);
    ArmedMore(cfg, past, a);
    EndedKeeps(cfg, s, c);
    UnlistenFewer(s.listeners, c);
    ShownIsTold(cfg, s, past, c);
    MarkedIs(cfg, s, past, c);
    TimeoutsAre(cfg, past, c);
    EndAwayArms(cfg, s.registry, s.listeners, Seconds(cfg));
  }

  lemma {:induction false} OtherRun(cfg: Config, s: State, past: seq<Action>, a: Action)
    requires Inv(s.registry) && RunTold(cfg, s, past) && Enabled(s, a) && !a.Dispatch? && !IsBrokers(a)
    ensures RunTold(cfg, Next(cfg, s, a), past + [a])
  {
    FlagsMore(past, a);
    AwayMore(cfg, past, a);
    ArmedMore(cfg, past, a);
    if IsWork(a) {
      WorkBeside(cfg, s, a);
    } else if a.Fire? {
      var i := TimerHolder(s.registry, a.handle);
    }
  }

  lemma {:induction false} StepRun(cfg: Config, s: State, past: seq<Action>, a: Action)
    requires AllTold(cfg, s, past) && Enabled(s, a)
    ensures RunTold(cfg, Next(cfg, s, a), past + [a])
  {
    if a.Dispatch? {
      DispatchRun(cfg, s, past, a.call, a.verdict);
    } else if a.WaitEnded? {
      assert CallTold(cfg, s, past, a.call) && WaitTold(cfg, s, past, a.call);
      EndedRun(cfg, s, past, a.call);
    } else if IsBrokers(a) {
      BrokerRun(cfg, s, past, a);
    } else {
      OtherRun(cfg, s, past, a);
    }
  }

  // ---- every run ---------------------------------------------------------------------------

  lemma {:induction false} StepAllTold(cfg: Config, s: State, past: seq<Action>, a: Action)
    requires FreshIds(cfg) && AllTold(cfg, s, past) && Enabled(s, a)
    ensures AllTold(cfg, Next(cfg, s, a), past + [a])
  {
    NextSafe(cfg, s, a);
    StepRun(cfg, s, past, a);
    forall c: nat ensures CallTold(cfg, Next(cfg, s, a), past + [a], c) {
      assert CallTold(cfg, s, past, c) && WaitTold(cfg, s, past, c);
      StepTold(cfg, s, past, a, c);
    }
    forall c: nat ensures WaitTold(cfg, Next(cfg, s, a), past + [a], c) {
      assert CallTold(cfg, s, past, c) && WaitTold(cfg, s, past, c);
      if c in s.waitOf { BegunTold(cfg, s, past, a, c); } else { UnbegunTold(cfg, s, past, a, c); }
    }
  }

  lemma {:induction false} StartTold(cfg: Config)
    ensures AllTold(cfg, Start, [])
  {
  }

  lemma {:induction false} ToldAfter(cfg: Config, s: State, past: seq<Action>, actions: seq<Action>)
    requires FreshIds(cfg) && AllTold(cfg, s, past) && Runs(cfg, s, actions)
    ensures AllTold(cfg, After(cfg, s, actions), past + actions)
    decreases actions
  {
    if actions == [] {
      assert past + actions == past;
    } else {
      FirstIsPast(past, actions);
      StepAllTold(cfg, s, past, actions[0]);
      ToldAfter(cfg, Next(cfg, s, actions[0]), past + [actions[0]], actions[1..]);
    }
  }

  lemma {:induction false} RunIsTold(cfg: Config, actions: seq<Action>)
    requires FreshIds(cfg) && Runs(cfg, Start, actions)
    ensures AllTold(cfg, After(cfg, Start, actions), actions)
  {
    StartTold(cfg);
    ToldAfter(cfg, Start, [], actions);
    assert [] + actions == actions;
  }

  /** Over every run a call has logged exactly what its story tells, and stands where it tells. */
  lemma {:induction false} LogIsTold(cfg: Config, actions: seq<Action>, c: nat)
    requires FreshIds(cfg) && Runs(cfg, Start, actions)
    ensures var s := After(cfg, Start, actions);
            && Log(s.trace, c) == Told(cfg, c, StoryOf(cfg, actions, c))
            && PhaseOf(s, c) == StandsAt(cfg, StoryOf(cfg, actions, c))
  {
    RunIsTold(cfg, actions);
    assert CallTold(cfg, After(cfg, Start, actions), actions, c);
  }

  /** Over every run a call's wait began exactly when its history says, and ended as it says, or is still pending. */
  lemma {:induction false} WaitIsTold(cfg: Config, actions: seq<Action>, c: nat)
    requires FreshIds(cfg) && Runs(cfg, Start, actions)
    ensures var s := After(cfg, Start, actions);
            && (c in s.waitOf <==> Began(cfg, actions, c))
            && (c in s.waitOf ==> OutcomeOf(s.registry.settled, s.waitOf[c]) == EndedWith(cfg, actions, c))
            && (c in s.waitOf && EndedWith(cfg, actions, c).None? ==>
                  WaitIn(cfg, actions, c, s.waitOf[c]) in s.registry.waiters)
  {
    RunIsTold(cfg, actions);
    assert WaitTold(cfg, After(cfg, Start, actions), actions, c);
  }

  /** Over every run the user is marked away exactly when the history says. */
  lemma {:induction false} AwayIsTold(cfg: Config, actions: seq<Action>)
    requires FreshIds(cfg) && Runs(cfg, Start, actions)
    ensures After(cfg, Start, actions).away == AwayIn(cfg, actions)
  {
    RunIsTold(cfg, actions);
  }

  // ---- what a verdict comes to -------------------------------------------------------------

  lemma {:induction false} VerdictMore(past: seq<Action>, a: Action, c: nat)
    ensures VerdictIn(past + [a], c) == if a.Dispatch? && a.call == c then Some(a.verdict) else VerdictIn(past, c)
  {
    OneMore(past, a);
  }

  /** A call is dispatched once. */
  lemma {:induction false} VerdictStays(cfg: Config, s: State, past: seq<Action>, actions: seq<Action>, c: nat,
      verdict: Verdict)
    requires FreshIds(cfg) && AllTold(cfg, s, past) && Runs(cfg, s, actions)
    requires Dispatch(c, verdict) in past ==> VerdictIn(past, c) == Some(verdict)
    ensures Dispatch(c, verdict) in past + actions ==> VerdictIn(past + actions, c) == Some(verdict)
    decreases actions
  {
    if actions == [] {
      assert past + actions == past;
    } else {
      var a := actions[0];
      FirstIsPast(past, actions);
      StepAllTold(cfg, s, past, a);
      VerdictMore(past, a, c);
      OneMore(past, a);
      assert CallTold(cfg, s, past, c);
      VerdictStays(cfg, Next(cfg, s, a), past + [a], actions[1..], c, verdict);
    }
  }

  lemma {:induction false} VerdictIs(cfg: Config, actions: seq<Action>, c: nat, verdict: Verdict)
    requires FreshIds(cfg) && Runs(cfg, Start, actions) && Dispatch(c, verdict) in actions
    ensures VerdictIn(actions, c) == Some(verdict)
  {
    StartTold(cfg);
    VerdictStays(cfg, Start, [], actions, c, verdict);
    assert [] + actions == actions;
  }

  ghost predicate AuditedOnlyAs(log: seq<Fact>, allow: bool, source: Source) {
    Audited(allow, source) in log && forall fact :: fact in log && fact.Audited? ==> fact == Audited(allow, source)
  }

  ghost predicate NeverDecided(log: seq<Fact>) {
    forall fact :: fact in log ==> !fact.Audited? && !fact.Ran?
  }

  lemma {:induction false} EndsWithoutAudit(cfg: Config, c: nat, status: Status)
    ensures forall fact :: fact in Ends(cfg, c, status) ==> fact.Settled?
  {
  }

  lemma {:induction false} DecidedOnlyAs(cfg: Config, c: nat, h: Story, allow: bool, source: Source)
    ensures var log := [Opened] + Decided(cfg, c, h, allow, source);
            AuditedOnlyAs(log, allow, source) && (Ran in log ==> allow && !h.stopped)
  {
    var d := Decided(cfg, c, h, allow, source);
    EndsWithoutAudit(cfg, c, Blocked);
    EndsWithoutAudit(cfg, c, if h.result.Some? then ResultStatus(h.result.value) else Ok);
    assert d[0] == Audited(allow, source) && d[0] in d;
  }

  /**
   * Over every run what becomes of a call follows its verdict: one refused or cut short is neither audited nor run; one
   * the policy denies is audited as that denial alone and never run; one it allows is audited as that alone. Whatever
   * the verdict, a call its hook stopped is never run.
   */
  lemma {:induction false} VerdictDecides(cfg: Config, actions: seq<Action>, c: nat)
    requires FreshIds(cfg) && Runs(cfg, Start, actions)
    ensures var log := Log(After(cfg, Start, actions).trace, c);
            && (Dispatch(c, Malformed) in actions ==> NeverDecided(log))
            && (Dispatch(c, Withheld) in actions ==> NeverDecided(log))
            && (Dispatch(c, Raised) in actions ==> NeverDecided(log))
            && (Dispatch(c, Denied) in actions ==> AuditedOnlyAs(log, false, Rule) && Ran !in log)
            && (Dispatch(c, Allowed) in actions ==> AuditedOnlyAs(log, true, Rule))
            && (HookAnswered(c, true) in actions ==> Ran !in log)
  {
    LogIsTold(cfg, actions, c);
    var h := StoryOf(cfg, actions, c);
    forall v: Verdict | Dispatch(c, v) in actions ensures h.verdict == Some(v) { VerdictIs(cfg, actions, c, v); }
    ToldSays(cfg, c, h);
  }

  lemma {:induction false} ToldSays(cfg: Config, c: nat, h: Story)
    ensures var log := Told(cfg, c, h);
            && (h.verdict.Some? && h.verdict.value in {Malformed, Withheld, Raised} ==> NeverDecided(log))
            && (h.verdict == Some(Denied) ==> AuditedOnlyAs(log, false, Rule) && Ran !in log)
            && (h.verdict == Some(Allowed) ==> AuditedOnlyAs(log, true, Rule))
            && (h.stopped ==> Ran !in log)
  {
    EndsWithoutAudit(cfg, c, Failed);
    EndsWithoutAudit(cfg, c, Blocked);
    DecidedOnlyAs(cfg, c, h, true, Rule);
    DecidedOnlyAs(cfg, c, h, false, Rule);
    if h.reply.Some? && h.reply.value.Says? {
      AskedRuns(cfg, c, h, h.reply.value.allow, h.reply.value.source);
    }
  }

  lemma {:induction false} AskedRuns(cfg: Config, c: nat, h: Story, allow: bool, source: Source)
    ensures h.stopped ==> Ran !in [Opened, Requested(h.waits)] + Decided(cfg, c, h, allow, source)
  {
    DecidedOnlyAs(cfg, c, h, allow, source);
    assert forall fact :: fact in Decided(cfg, c, h, allow, source) ==>
        fact in [Opened] + Decided(cfg, c, h, allow, source);
  }

  // ---- what may happen next ----------------------------------------------------------------

  lemma {:induction false} StandsByStory(cfg: Config, h: Story)
    requires Orderly(cfg, h)
    ensures h.verdict.None? <==> StandsAt(cfg, h).None?
    ensures var phase := StandsAt(cfg, h);
            && (phase.Some? && Awaiting(phase.value) <==> h.waits && h.reply.None?)
            && (phase == Some(Held) ==> h.held && !h.shown)
            && (h.held && !h.shown && h.waits && h.reply.None? ==> phase == Some(Held))
            && (phase.Some? && (phase.value.Brokered? || phase.value.Interrupted?) <==> h.reply.Some? && !h.resumed)
  {
  }

  lemma {:induction false} LiveIs(cfg: Config, s: State, past: seq<Action>, handle: nat)
    requires AllTold(cfg, s, past)
    ensures handle in s.registry.timers <==> Live(cfg, past, handle)
  {
    if handle in s.registry.timers {
      var i := TimerHolder(s.registry, handle);
      var w := s.registry.waiters[i];
      assert w in s.registry.waiters && WaiterOk(cfg, s, w);
      var c := w.payload.call;
      assert WaitTold(cfg, s, past, c);
      PendingOutcome(s.registry, w);
      OneWait(s.registry, w, WaitIn(cfg, past, c, s.waitOf[c]));
    }
    if Live(cfg, past, handle) {
      var c: nat :| Began(cfg, past, c) && EndedWith(cfg, past, c).None? && TimerIn(cfg, past, c) == Some(handle);
      assert WaitTold(cfg, s, past, c);
      TimerIsLive(s.registry, WaitIn(cfg, past, c, s.waitOf[c]), handle);
    }
  }

  lemma {:induction false} OneWait(r: Registry, v: Waiter, w: Waiter)
    requires WaitsDistinct(r) && v in r.waiters && w in r.waiters && v.wait == w.wait
    ensures v == w
  {
    var i :| 0 <= i < |r.waiters| && r.waiters[i] == v;
    var j :| 0 <= j < |r.waiters| && r.waiters[j] == w;
    assert i == j;
  }

  lemma {:induction false} OwnOpenIs(cfg: Config, s: State, past: seq<Action>, a: Action)
    requires CallOf(a).Some? && CallTold(cfg, s, past, CallOf(a).value) && WaitTold(cfg, s, past, CallOf(a).value)
    ensures Enabled(s, a) <==> Open(cfg, past, a)
  {
    StandsByStory(cfg, StoryOf(cfg, past, CallOf(a).value));
  }

  /** After every run just those steps are open which its history tells. */
  lemma {:induction false} OpenIsTold(cfg: Config, actions: seq<Action>, a: Action)
    requires FreshIds(cfg) && Runs(cfg, Start, actions)
    ensures Enabled(After(cfg, Start, actions), a) <==> Open(cfg, actions, a)
  {
    RunIsTold(cfg, actions);
    var s := After(cfg, Start, actions);
    if CallOf(a).Some? {
      var c := CallOf(a).value;
      assert CallTold(cfg, s, actions, c) && WaitTold(cfg, s, actions, c);
      OwnOpenIs(cfg, s, actions, a);
    } else if a.Fire? {
      LiveIs(cfg, s, actions, a.handle);
    }
  }
}
