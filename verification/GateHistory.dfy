/**
 * What a run of the gate comes to, told from its actions alone: which asks wait and how each wait ends, what the broker
 * answers, when the user is away, and with what each call is logged and settled. No state is consulted; the theorems
 * say that every interleaving of the gate's steps arrives at just this.
 */
module GateHistory {
  import opened Approvals
  import opened GateProtocol
  import opened GateSafety
  import opened Wrappers

  // ---- the run, from its actions -----------------------------------------------------------

  function AttendedIn(past: seq<Action>): bool {
    if past == [] then true
    else
      var a := past[|past| - 1];
      if a.SetAttended? then a.to else AttendedIn(past[..|past| - 1])
  }

  function QuittingIn(past: seq<Action>): bool {
    if past == [] then false
    else
      var a := past[|past| - 1];
      if a.SetQuitting? then a.to else QuittingIn(past[..|past| - 1])
  }

  /** The away state never answers the call's ask: it is the question tool's, or the run holds no such state. */
  predicate Spared(cfg: Config, c: nat) {
    cfg.question(c) || !cfg.presence
  }

  /**
   * Somebody can be asked: there is a presenter and a window, or a quit has just closed the last one; and the user is
   * not away, unless the call is spared that.
   */
  predicate CanAsk(cfg: Config, past: seq<Action>, c: nat)
    decreases |past|, 2
  {
    && (if AttendedIn(past) then cfg.presenter else QuittingIn(past))
    && (Spared(cfg, c) || AwayIn(cfg, past).None?)
  }

  predicate Began(cfg: Config, past: seq<Action>, c: nat)
    decreases |past|, 0
  {
    && past != []
    && var front, a := past[..|past| - 1], past[|past| - 1];
    && (Began(cfg, front, c) || (a == Dispatch(c, Asks) && CanAsk(cfg, front, c)))
  }

  /** The end of this wait marks the user away: the first whose request was shown and ran out of time. */
  predicate Marks(cfg: Config, past: seq<Action>, c: nat)
    decreases |past|, 1
  {
    && cfg.presence && AwayIn(cfg, past).None? && PresentReplied(c, true) in past
    && EndedWith(cfg, past, c).Some? && EndedWith(cfg, past, c).value.TimedOut?
  }

  /** The mark that stands: from the wait that ran out until the user returns. */
  function AwayIn(cfg: Config, past: seq<Action>): Option<Mark>
    decreases |past|, 0
  {
    if past == [] then None
    else
      var front, a := past[..|past| - 1], past[|past| - 1];
      if a.UserReturned? then None
      else if a.WaitEnded? && Marks(cfg, front, a.call) then Some(Mark(Seconds(cfg), QuittingIn(front)))
      else AwayIn(cfg, front)
  }

  function Seconds(cfg: Config): real {
    cfg.timeoutMs as real / 1000.0
  }

  /** The timers armed so far: one as a budgeted wait begins, and another each time one runs out during a quit. */
  function ArmedIn(cfg: Config, past: seq<Action>): nat
    decreases |past|, 0
  {
    if past == [] then 0
    else
      var front, a := past[..|past| - 1], past[|past| - 1];
      ArmedIn(cfg, front) + (if Arms(cfg, front, a) then 1 else 0)
  }

  predicate Arms(cfg: Config, past: seq<Action>, a: Action)
    decreases |past|, 3
  {
    || (a.Dispatch? && a.verdict.Asks? && CanAsk(cfg, past, a.call) && cfg.timeoutMs > 0)
    || (a.Fire? && QuittingIn(past))
  }

  /** The timer a call's wait holds. */
  function TimerIn(cfg: Config, past: seq<Action>, c: nat): Option<nat>
    decreases |past|, 0
  {
    if past == [] then None
    else
      var front, a := past[..|past| - 1], past[|past| - 1];
      var kept := TimerIn(cfg, front, c);
      if Arms(cfg, front, a) && (a == Dispatch(c, Asks) || (a.Fire? && kept == Some(a.handle))) then
        Some(ArmedIn(cfg, front))
      else kept
  }

  /** How a call's wait ended: by the first action after it began that ends it. */
  function EndedWith(cfg: Config, past: seq<Action>, c: nat): Option<Outcome>
    decreases |past|, 0
  {
    if past == [] then None
    else
      var front, a := past[..|past| - 1], past[|past| - 1];
      if !Began(cfg, front, c) then None
      else if EndedWith(cfg, front, c).Some? then EndedWith(cfg, front, c)
      else EndsWith(cfg, front, a, c)
  }

  /**
   * The outcome an action brings to the wait of call `c`: an answer or a cancellation names it, a release reaches every
   * wait, its timer runs out outside a quit, its broker fails, or another call's end marks the user away outside one.
   */
  function EndsWith(cfg: Config, past: seq<Action>, a: Action, c: nat): Option<Outcome>
    decreases |past|, 3
  {
    match a
    case Answer(id, choice) => if id == cfg.idOf(c) then Some(Resolved(choice)) else None
    case Cancel(id) => if id == cfg.idOf(c) then Some(Cancelled) else None
    case CancelAll => Some(Cancelled)
    case WithdrawAll(cause) => Some(Withdrawn(cause))
    case Fire(handle) =>
      if TimerIn(cfg, past, c) == Some(handle) && !QuittingIn(past) then Some(TimedOut(Seconds(cfg))) else None
    case PresentThrew(d) => if d == c then Some(Cancelled) else None
    case AnswerThrew(d) => if d == c then Some(Cancelled) else None
    case PresentReplied(d, ok) => if d == c && !ok && !QuittingIn(past) then Some(Cancelled) else None
    case WaitEnded(d) =>
      if Marks(cfg, past, d) && !QuittingIn(past) && !Spared(cfg, c) then Some(Outcome.Away(Seconds(cfg))) else None
    case _ => None
  }

  /** The broker's answer to an ask. */
  datatype Reply = Says(allow: bool, source: Source) | Interrupts

  function ReplyTo(outcome: Outcome, shown: bool): Reply {
    match outcome
    case Resolved(Once) => Says(true, UserOnce)
    case Resolved(Session) => Says(true, UserSession)
    case Resolved(Deny) => Says(false, UserDeny)
    case Cancelled => Says(false, CancelledWait)
    case TimedOut(_) => if shown then Says(false, Timeout) else Says(false, CancelledWait)
    case Withdrawn(_) => Interrupts
    case Away(_) => Says(false, Headless)
  }

  /** The answer, once there is one: at once where nobody can be asked, by a failure, or by how the wait ended. */
  function ReplyIn(cfg: Config, past: seq<Action>, c: nat): Option<Reply> {
    if past == [] then None
    else
      var front, a := past[..|past| - 1], past[|past| - 1];
      if ReplyIn(cfg, front, c).Some? then ReplyIn(cfg, front, c)
      else if a == Dispatch(c, Asks) && !CanAsk(cfg, front, c) then Some(Says(false, Headless))
      else if a == PresentThrew(c) || a == AnswerThrew(c) then Some(Says(false, FailClosed))
      else if a == PresentReplied(c, false) && !QuittingIn(front) then Some(Says(false, PresenterError))
      else if a == WaitEnded(c) && EndedWith(cfg, front, c).Some? then
        Some(ReplyTo(EndedWith(cfg, front, c).value, PresentReplied(c, true) in front))
      else None
  }

  function VerdictIn(past: seq<Action>, c: nat): Option<Verdict> {
    if past == [] then None
    else
      var a := past[|past| - 1];
      if a.Dispatch? && a.call == c then Some(a.verdict) else VerdictIn(past[..|past| - 1], c)
  }

  /** The request is not to be shown: it was made in a quit's gap, or a quit's window closed before it was. */
  predicate HeldIn(past: seq<Action>, c: nat) {
    && past != []
    && var front, a := past[..|past| - 1], past[|past| - 1];
    && (HeldIn(front, c) || a == PresentReplied(c, false) || (a == Dispatch(c, Asks) && !AttendedIn(front)))
  }

  /** What has befallen one call. */
  datatype Story = Story(
    verdict: Option<Verdict>,
    waits: bool,
    held: bool,
    shown: bool,
    reply: Option<Reply>,
    resumed: bool,
    passed: bool,
    stopped: bool,
    threw: bool,
    result: Option<Result>,
    closed: bool)

  function StoryOf(cfg: Config, past: seq<Action>, c: nat): Story {
    Story(VerdictIn(past, c), Began(cfg, past, c), HeldIn(past, c), PresentReplied(c, true) in past,
          ReplyIn(cfg, past, c), Resume(c) in past, HookAnswered(c, false) in past, HookAnswered(c, true) in past,
          HookThrew(c) in past, ResultIn(past, c), PostHookDone(c) in past)
  }

  function Ends(cfg: Config, c: nat, status: Status): seq<Fact> {
    if cfg.recorded(c) then [Settled(status)] else []
  }

  function ResultStatus(result: Result): Status {
    if result == Good then Ok else if result == Erred then Failed else Blocked
  }

  /** The executor's result is final: no hook is to see it, or the hook has. */
  predicate Closes(cfg: Config, h: Story)
    requires h.result.Some?
  {
    !cfg.hooks || h.result.value == QuestionWithdrawn || h.closed
  }

  /** A decided call: audited; blocked when denied or stopped by a hook; run once its hook has passed it. */
  function Decided(cfg: Config, c: nat, h: Story, allow: bool, source: Source): seq<Fact> {
    [Audited(allow, source)]
    + if !allow || h.stopped then Ends(cfg, c, Blocked)
      else if cfg.hooks && !h.passed then []
      else
        [Ran] + if h.result.Some? && Closes(cfg, h) then Ends(cfg, c, ResultStatus(h.result.value)) else []
  }

  /** Everything the sink and the executor see of a call. */
  function Told(cfg: Config, c: nat, h: Story): seq<Fact> {
    match h.verdict
    case None => []
    case Some(Malformed) => [Opened] + Ends(cfg, c, Failed)
    case Some(Withheld) => [Opened] + Ends(cfg, c, Blocked)
    case Some(Raised) => [Opened]
    case Some(Allowed) => [Opened] + Decided(cfg, c, h, true, Rule)
    case Some(Denied) => [Opened] + Decided(cfg, c, h, false, Rule)
    case Some(Asks) =>
      [Opened, Requested(h.waits)]
      + if !h.resumed || h.reply.None? then []
        else if h.reply.value.Interrupts? then Ends(cfg, c, Blocked)
        else Decided(cfg, c, h, h.reply.value.allow, h.reply.value.source)
  }

  function WorksAt(cfg: Config, h: Story): Phase {
    if h.threw then Threw
    else if h.stopped then Finished
    else if cfg.hooks && !h.passed then PreHook
    else if h.result.None? then Executing
    else if Closes(cfg, h) then Finished
    else PostHook(ResultStatus(h.result.value))
  }

  /** Where a call stands. */
  function StandsAt(cfg: Config, h: Story): Option<Phase> {
    match h.verdict
    case None => None
    case Some(Raised) => Some(Threw)
    case Some(Allowed) => Some(WorksAt(cfg, h))
    case Some(Asks) =>
      Some(if h.reply.None? then (if h.shown then Shown else if h.held then Held else Presenting)
           else if h.reply.value.Interrupts? then (if h.resumed then Finished else Interrupted)
           else if !h.resumed then Brokered(h.reply.value.allow, h.reply.value.source)
           else if h.reply.value.allow then WorksAt(cfg, h) else Finished)
    case Some(_) => Some(Finished)
  }

  /** The timer is that of a wait still pending. */
  ghost predicate Live(cfg: Config, past: seq<Action>, handle: nat) {
    exists c: nat :: Began(cfg, past, c) && EndedWith(cfg, past, c).None? && TimerIn(cfg, past, c) == Some(handle)
  }

  /**
   * What may happen next: a call is dispatched once, takes its own steps in order, and its broker answers once; a
   * presenter has a request until it is shown or held; a live timer may fire, and people act when they will.
   */
  ghost predicate Open(cfg: Config, past: seq<Action>, a: Action) {
    match a
    case Dispatch(c, _) => VerdictIn(past, c).None?
    case PresentReplied(c, _) => StandsAt(cfg, StoryOf(cfg, past, c)) == Some(Presenting)
    case PresentThrew(c) => StandsAt(cfg, StoryOf(cfg, past, c)) == Some(Presenting)
    case WaitEnded(c) => ReplyIn(cfg, past, c).None? && EndedWith(cfg, past, c).Some?
    case AnswerThrew(c) =>
      && ReplyIn(cfg, past, c).None? && EndedWith(cfg, past, c).Some?
      && (HeldIn(past, c) && PresentReplied(c, true) !in past ==>
            EndedWith(cfg, past, c) == Some(Resolved(Session)))
    case Resume(c) => ReplyIn(cfg, past, c).Some? && Resume(c) !in past
    case HookAnswered(c, _) => StandsAt(cfg, StoryOf(cfg, past, c)) == Some(PreHook)
    case HookThrew(c) =>
      var phase := StandsAt(cfg, StoryOf(cfg, past, c)); phase.Some? && (phase.value.PreHook? || phase.value.PostHook?)
    case ExecutorDone(c, _) => StandsAt(cfg, StoryOf(cfg, past, c)) == Some(Executing)
    case PostHookDone(c) => var phase := StandsAt(cfg, StoryOf(cfg, past, c)); phase.Some? && phase.value.PostHook?
    case Fire(handle) => Live(cfg, past, handle)
    case _ => true
  }
}
