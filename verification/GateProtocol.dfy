/**
 * packages/agent-tools/src/gate.ts: every dispatch of a run and its approval waits, interleaved. The host runs one
 * thread, so what a call does between two awaits is one step; between steps timers fire, people answer, the user is
 * marked away or returns, windows come and go, the run is cancelled, and a rest withdraws the waits.
 */
module GateProtocol {
  import opened Approvals
  import opened Wrappers

  /**
   * What does not change over a run. `question` marks a call of the public question tool; `recorded` one whose record
   * opened.
   */
  datatype Config = Config(
    idOf: nat -> string,
    question: nat -> bool,
    recorded: nat -> bool,
    timeoutMs: int,
    presenter: bool,
    presence: bool,
    hooks: bool)

  /** Request ids are fresh. */
  ghost predicate FreshIds(cfg: Config) {
    && (forall c: nat, d: nat :: cfg.idOf(c) == cfg.idOf(d) ==> c == d)
    && (forall c: nat :: cfg.idOf(c) != "")
  }

  datatype Source =
    | Rule | UserOnce | UserSession | UserDeny | Timeout | CancelledWait | Headless | PresenterError | FailClosed

  datatype Status = Ok | Failed | Blocked

  /** What came of an execution: an observation, an error, or a question withdrawn before the user answered. */
  datatype Result = Good | Erred | QuestionWithdrawn

  function StatusOf(result: Result): Status {
    match result
    case Good => Ok
    case Erred => Failed
    case QuestionWithdrawn => Blocked
  }

  /** What the sink and the executor see of one call. */
  datatype Fact =
    | Opened
    | Requested(brokered: bool)
    | Audited(allow: bool, source: Source)
    | Ran
    | Settled(status: Status)

  datatype Entry = Entry(call: nat, fact: Fact)

  /** Where a call stands at an await. The first three hold a wait. */
  datatype Phase =
    | Presenting
    | Shown
    | Held
    | Brokered(allow: bool, source: Source)
    | Interrupted
    | PreHook
    | Executing
    | PostHook(status: Status)
    | Finished
    | Threw

  predicate Awaiting(phase: Phase) {
    phase.Presenting? || phase.Shown? || phase.Held?
  }

  datatype Mark = Mark(afterSeconds: real, duringQuit: bool)

  datatype State = State(
    registry: Registry,
    phases: map<nat, Phase>,
    waitOf: map<nat, nat>,
    listeners: seq<nat>,
    mirror: seq<Payload>,
    trace: seq<Entry>,
    away: Option<Mark>,
    attended: bool,
    quitting: bool)

  const Start := State(Empty, map[], map[], [], [], [], None, true, false)

  /**
   * How the checks ahead of the approval flow left a call: refused unrun as malformed, or as withheld; cut short by the
   * exception of a port outside every `try`; or with the policy's verdict.
   */
  datatype Verdict = Malformed | Withheld | Raised | Allowed | Denied | Asks

  /**
   * `AnswerThrew` is the exception of a port the broker asks once the wait has ended: the presenter as it is closed,
   * which a held request never reaches, or the policy as it grants a session.
   */
  datatype Action =
    | Dispatch(call: nat, verdict: Verdict)
    | PresentReplied(call: nat, ok: bool)
    | PresentThrew(call: nat)
    | WaitEnded(call: nat)
    | AnswerThrew(call: nat)
    | Resume(call: nat)
    | HookAnswered(call: nat, blocked: bool)
    | HookThrew(call: nat)
    | ExecutorDone(call: nat, result: Result)
    | PostHookDone(call: nat)
    | Answer(id: string, choice: Choice)
    | Cancel(id: string)
    | CancelAll
    | WithdrawAll(cause: string)
    | Fire(handle: nat)
    | UserReturned
    | SetAttended(to: bool)
    | SetQuitting(to: bool)

  function Emit(s: State, c: nat, fact: Fact): State {
    s.(trace := s.trace + [Entry(c, fact)])
  }

  function Enter(s: State, c: nat, phase: Phase): State {
    s.(phases := s.phases[c := phase])
  }

  /** The record is settled, when there is one, and the call is over. */
  function Settle(cfg: Config, s: State, c: nat, status: Status): State {
    Enter(if cfg.recorded(c) then Emit(s, c, Settled(status)) else s, c, Finished)
  }

  /** A resolved permission: audited whatever it was, then the hooks or the executor for an allow. */
  function Decide(cfg: Config, s: State, c: nat, allow: bool, source: Source): State {
    var audited := Emit(s, c, Audited(allow, source));
    if !allow then Settle(cfg, audited, c, Blocked)
    else if cfg.hooks then Enter(audited, c, PreHook)
    else Enter(Emit(audited, c, Ran), c, Executing)
  }

  function Payloads(waiters: seq<Waiter>): seq<Payload> {
    if waiters == [] then [] else Payloads(waiters[..|waiters| - 1]) + [waiters[|waiters| - 1].payload]
  }

  function MirrorPending(s: State): State {
    s.(mirror := Payloads(s.registry.waiters))
  }

  function Exempt(cfg: Config, c: nat): bool {
    cfg.question(c) || !cfg.presence
  }

  function Unlisten(listeners: seq<nat>, c: nat): seq<nat> {
    if listeners == [] then []
    else if listeners[0] == c then Unlisten(listeners[1..], c)
    else [listeners[0]] + Unlisten(listeners[1..], c)
  }

  /** Every listener ends its own wait, in the order they registered. */
  function EndAwayEach(cfg: Config, r: Registry, listeners: seq<nat>, seconds: real): Registry
    decreases listeners
  {
    if listeners == [] then r
    else EndAwayEach(cfg, Finish(r, cfg.idOf(listeners[0]), Outcome.Away(seconds)), listeners[1..], seconds)
  }

  /** The first unanswered wait marks the run's user away, which ends the outstanding waits outside a quit. */
  function MarkAway(cfg: Config, s: State, seconds: real): State {
    if !cfg.presence || s.away.Some? then s
    else s.(away := Some(Mark(seconds, s.quitting)),
            registry := if s.quitting then s.registry else EndAwayEach(cfg, s.registry, s.listeners, seconds))
  }

  /** The broker answers: the mirror is refreshed and the away listener dropped. */
  function BrokerReturns(s: State, c: nat, phase: Phase): State {
    Enter(MirrorPending(s), c, phase).(listeners := Unlisten(s.listeners, c))
  }

  function OutcomeOf(settled: seq<Settlement>, wait: nat): Option<Outcome> {
    if settled == [] then None
    else if settled[|settled| - 1].wait == wait then Some(settled[|settled| - 1].outcome)
    else OutcomeOf(settled[..|settled| - 1], wait)
  }

  /** The decision an ended wait comes to; a request never shown counts a timeout as a cancellation. */
  function OutcomePhase(outcome: Outcome, shown: bool): Phase {
    match outcome
    case Withdrawn(_) => Interrupted
    case Resolved(Once) => Brokered(true, UserOnce)
    case Resolved(Session) => Brokered(true, UserSession)
    case Resolved(Deny) => Brokered(false, UserDeny)
    case Cancelled => Brokered(false, CancelledWait)
    case TimedOut(_) => Brokered(false, if shown then Timeout else CancelledWait)
    case Away(_) => Brokered(false, Headless)
  }

  function BrokerAsk(cfg: Config, s: State, c: nat): State {
    var held := !s.attended && s.quitting;
    if !held && (!s.attended || !cfg.presenter) then
      Enter(Emit(s, c, Requested(false)), c, Brokered(false, Headless))
    else if !Exempt(cfg, c) && s.away.Some? then
      Enter(Emit(s, c, Requested(false)), c, Brokered(false, Headless))
    else
      var budget := if cfg.timeoutMs > 0 then Some(cfg.timeoutMs) else None;
      var waiting := Emit(s, c, Requested(true)).(
        registry := Create(s.registry, Payload(cfg.idOf(c), c), budget),
        waitOf := s.waitOf[c := s.registry.created],
        listeners := if Exempt(cfg, c) then s.listeners else s.listeners + [c]);
      Enter(MirrorPending(waiting), c, if held || !cfg.presenter then Held else Presenting)
  }

  predicate Enabled(s: State, a: Action) {
    match a
    case Dispatch(c, _) => c !in s.phases
    case PresentReplied(c, _) => c in s.phases && s.phases[c].Presenting?
    case PresentThrew(c) => c in s.phases && s.phases[c].Presenting?
    case WaitEnded(c) =>
      c in s.phases && Awaiting(s.phases[c]) && c in s.waitOf && OutcomeOf(s.registry.settled, s.waitOf[c]).Some?
    case AnswerThrew(c) =>
      && c in s.phases && Awaiting(s.phases[c]) && c in s.waitOf
      && var outcome := OutcomeOf(s.registry.settled, s.waitOf[c]);
      && outcome.Some? && (!s.phases[c].Held? || outcome.value == Resolved(Session))
    case Resume(c) => c in s.phases && (s.phases[c].Brokered? || s.phases[c].Interrupted?)
    case HookAnswered(c, _) => c in s.phases && s.phases[c].PreHook?
    case HookThrew(c) => c in s.phases && (s.phases[c].PreHook? || s.phases[c].PostHook?)
    case ExecutorDone(c, _) => c in s.phases && s.phases[c].Executing?
    case PostHookDone(c) => c in s.phases && s.phases[c].PostHook?
    case Fire(handle) => handle in s.registry.timers
    case _ => true
  }

  /**
   * The request could not be shown, or a port of the broker threw: the wait is discarded, where it is still pending,
   * and the call denied.
   */
  function Unshowable(cfg: Config, s: State, c: nat, source: Source): State {
    BrokerReturns(s.(registry := Finish(s.registry, cfg.idOf(c), Cancelled)), c, Brokered(false, source))
  }

  function EndWait(cfg: Config, s: State, c: nat, outcome: Outcome): State
    requires c in s.phases
  {
    var shown := s.phases[c].Shown?;
    var seen := MirrorPending(s);
    var marked := if shown && outcome.TimedOut? then MarkAway(cfg, seen, outcome.afterSeconds) else seen;
    Enter(marked, c, OutcomePhase(outcome, shown)).(listeners := Unlisten(s.listeners, c))
  }

  function Next(cfg: Config, s: State, a: Action): State
    requires Enabled(s, a)
  {
    match a
    case Dispatch(c, verdict) =>
      var open := Emit(s, c, Opened);
      (match verdict
       case Malformed => Settle(cfg, open, c, Failed)
       case Withheld => Settle(cfg, open, c, Blocked)
       case Raised => Enter(open, c, Threw)
       case Allowed => Decide(cfg, open, c, true, Rule)
       case Denied => Decide(cfg, open, c, false, Rule)
       case Asks => BrokerAsk(cfg, open, c))
    case PresentReplied(c, ok) =>
      if ok then Enter(s.(registry := WithShown(s.registry, cfg.idOf(c))), c, Shown)
      else if s.quitting then Enter(s, c, Held)
      else Unshowable(cfg, s, c, PresenterError)
    case PresentThrew(c) => Unshowable(cfg, s, c, FailClosed)
    case WaitEnded(c) => EndWait(cfg, s, c, OutcomeOf(s.registry.settled, s.waitOf[c]).value)
    case AnswerThrew(c) => Unshowable(cfg, s, c, FailClosed)
    case Resume(c) =>
      if s.phases[c].Interrupted? then Settle(cfg, s, c, Blocked)
      else Decide(cfg, s, c, s.phases[c].allow, s.phases[c].source)
    case HookAnswered(c, blocked) =>
      if blocked then Settle(cfg, s, c, Blocked) else Enter(Emit(s, c, Ran), c, Executing)
    case HookThrew(c) => Enter(s, c, Threw)
    case ExecutorDone(c, result) =>
      if cfg.hooks && !result.QuestionWithdrawn? then Enter(s, c, PostHook(StatusOf(result)))
      else Settle(cfg, s, c, StatusOf(result))
    case PostHookDone(c) => Settle(cfg, s, c, s.phases[c].status)
    case Answer(id, choice) => s.(registry := Finish(s.registry, id, Resolved(choice)))
    case Cancel(id) => s.(registry := Finish(s.registry, id, Cancelled))
    case CancelAll => s.(registry := FinishEvery(s.registry, Cancelled))
    case WithdrawAll(cause) => s.(registry := FinishEvery(s.registry, Withdrawn(cause)))
    case Fire(handle) => s.(registry := Expire(s.registry, handle, s.quitting))
    case UserReturned => s.(away := None)
    case SetAttended(to) => s.(attended := to)
    case SetQuitting(to) => s.(quitting := to)
  }
}
