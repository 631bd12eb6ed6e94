/**
 * packages/agent-tools/src/approvals.ts: the wait registry. Its promises' settlements and the host's live timers are
 * part of the state, so what each call does to a wait and to its timer can be said.
 */
module Approvals {
  import opened Wrappers

  datatype Choice = Once | Session | Deny

  datatype Outcome =
    | Resolved(choice: Choice)
    | Cancelled
    | TimedOut(afterSeconds: real)
    | Withdrawn(cause: string)
    | Away(afterSeconds: real)

  datatype Payload = Payload(requestId: string, call: nat)

  /** `wait` numbers the waits in creation order, since a request id may be used again once its wait is settled. */
  datatype Waiter = Waiter(wait: nat, payload: Payload, timeoutMs: Option<int>, timer: Option<nat>, shown: bool)

  /** A timer armed for a request id; it is live until it fires or is cancelled. */
  datatype Timer = Timer(requestId: string, afterMs: int)

  datatype Settlement = Settlement(wait: nat, outcome: Outcome)

  datatype Registry = Registry(
    waiters: seq<Waiter>,
    timers: map<nat, Timer>,
    armed: nat,
    created: nat,
    settled: seq<Settlement>)

  const Empty := Registry([], map[], 0, 0, [])

  predicate Budgeted(timeoutMs: Option<int>) {
    timeoutMs.Some? && timeoutMs.value > 0
  }

  function SecondsOf(ms: int): real {
    ms as real / 1000.0
  }

  /** Where the wait for `id` stands among those pending, or their number. */
  function IndexOf(waiters: seq<Waiter>, id: string): (i: nat)
    ensures i <= |waiters| && (i < |waiters| ==> waiters[i].payload.requestId == id)
    ensures forall j :: 0 <= j < i ==> waiters[j].payload.requestId != id
  {
    if waiters == [] || waiters[0].payload.requestId == id then 0 else 1 + IndexOf(waiters[1..], id)
  }

  predicate Has(r: Registry, id: string) {
    IndexOf(r.waiters, id) < |r.waiters|
  }

  /** `create`, for an id that is neither empty nor pending. */
  function Create(r: Registry, payload: Payload, timeoutMs: Option<int>): Registry {
    var timer := if Budgeted(timeoutMs) then Some(r.armed) else None;
    Registry(
      r.waiters + [Waiter(r.created, payload, timeoutMs, timer, false)],
      if Budgeted(timeoutMs) then r.timers[r.armed := Timer(payload.requestId, timeoutMs.value)] else r.timers,
      if Budgeted(timeoutMs) then r.armed + 1 else r.armed,
      r.created + 1,
      r.settled)
  }

  function CancelTimer(timers: map<nat, Timer>, timer: Option<nat>): map<nat, Timer> {
    if timer.Some? then timers - {timer.value} else timers
  }

  /** `finish`: an id that is not pending is left alone. */
  function Finish(r: Registry, id: string, outcome: Outcome): Registry {
    var i := IndexOf(r.waiters, id);
    if i == |r.waiters| then r
    else r.(waiters := r.waiters[..i] + r.waiters[i + 1..],
            timers := CancelTimer(r.timers, r.waiters[i].timer),
            settled := r.settled + [Settlement(r.waiters[i].wait, outcome)])
  }

  function AllSettled(waiters: seq<Waiter>, outcome: Outcome): seq<Settlement> {
    seq(|waiters|, i requires 0 <= i < |waiters| => Settlement(waiters[i].wait, outcome))
  }

  /** Every wait finished, in creation order. */
  function FinishEvery(r: Registry, outcome: Outcome): Registry {
    r.(waiters := [], timers := map[], settled := r.settled + AllSettled(r.waiters, outcome))
  }

  function WithShown(r: Registry, id: string): Registry {
    var i := IndexOf(r.waiters, id);
    if i == |r.waiters| then r else r.(waiters := r.waiters[i := r.waiters[i].(shown := true)])
  }

  /** A live timer fires: armed again while the wait is held, else its wait ends timed out. */
  function Expire(r: Registry, handle: nat, held: bool): Registry {
    if handle !in r.timers then r
    else
      var timer := r.timers[handle];
      var fired := r.(timers := r.timers - {handle});
      if !held then Finish(fired, timer.requestId, TimedOut(SecondsOf(timer.afterMs)))
      else
        var i := IndexOf(r.waiters, timer.requestId);
        var rearmed := fired.(timers := fired.timers[r.armed := timer], armed := r.armed + 1);
        if i == |r.waiters| then rearmed
        else rearmed.(waiters := r.waiters[i := r.waiters[i].(timer := Some(r.armed))])
  }

  datatype Event =
    | CreateEvent(payload: Payload, timeoutMs: Option<int>)
    | ShownEvent(id: string)
    | FinishEvent(id: string, outcome: Outcome)
    | FinishAllEvent(outcome: Outcome)
    | ExpireEvent(handle: nat, held: bool)

  /** One call, or one timer's expiry. A rejected `create` changes nothing. */
  function Step(r: Registry, e: Event): Registry {
    match e
    case CreateEvent(payload, timeoutMs) =>
      if payload.requestId == "" || Has(r, payload.requestId) then r else Create(r, payload, timeoutMs)
    case ShownEvent(id) => WithShown(r, id)
    case FinishEvent(id, outcome) => Finish(r, id, outcome)
    case FinishAllEvent(outcome) => FinishEvery(r, outcome)
    case ExpireEvent(handle, held) => Expire(r, handle, held)
  }

  function Run(r: Registry, events: seq<Event>): Registry
    decreases events
  {
    if events == [] then r else Run(Step(r, events[0]), events[1..])
  }

  ghost predicate DistinctIds(waiters: seq<Waiter>) {
    forall i, j :: 0 <= i < j < |waiters| ==> waiters[i].payload.requestId != waiters[j].payload.requestId
  }

  /** A budgeted wait holds one live timer armed for it; any other holds none. */
  ghost predicate TimerOf(r: Registry, w: Waiter) {
    if Budgeted(w.timeoutMs)
    then
      w.timer.Some? && w.timer.value in r.timers
      && r.timers[w.timer.value] == Timer(w.payload.requestId, w.timeoutMs.value)
    else w.timer.None?
  }

  ghost predicate HeldBy(r: Registry, handle: nat) {
    exists w :: w in r.waiters && w.timer == Some(handle)
  }

  /** Live timers match the pending budgeted waits one to one. */
  ghost predicate TimersMatch(r: Registry) {
    && (forall w :: w in r.waiters ==> TimerOf(r, w))
    && (forall h :: h in r.timers ==> h < r.armed && HeldBy(r, h))
  }

  ghost predicate WaitsDistinct(r: Registry) {
    && (forall i, j :: 0 <= i < j < |r.waiters| ==> r.waiters[i].wait != r.waiters[j].wait)
    && (forall i, j :: 0 <= i < j < |r.settled| ==> r.settled[i].wait != r.settled[j].wait)
    && (forall i, j :: 0 <= i < |r.waiters| && 0 <= j < |r.settled| ==> r.waiters[i].wait != r.settled[j].wait)
  }

  ghost predicate WaitsCounted(r: Registry) {
    && r.created == |r.waiters| + |r.settled|
    && (forall w :: w in r.waiters ==> w.wait < r.created)
    && (forall s :: s in r.settled ==> s.wait < r.created)
  }

  ghost predicate Inv(r: Registry) {
    DistinctIds(r.waiters) && TimersMatch(r) && WaitsDistinct(r) && WaitsCounted(r)
  }

  lemma {:induction false} CreateKeepsTimers(r: Registry, payload: Payload, timeoutMs: Option<int>)
    requires TimersMatch(r)
    ensures TimersMatch(Create(r, payload, timeoutMs))
  {
    var after := Create(r, payload, timeoutMs);
    var w := after.waiters[|r.waiters|];
    forall v | v in after.waiters ensures TimerOf(after, v) {
      assert v == w || (v in r.waiters && TimerOf(r, v));
    }
    forall h | h in after.timers ensures h < after.armed && HeldBy(after, h) {
      if h in r.timers {
        assert HeldBy(r, h);
        var v :| v in r.waiters && v.timer == Some(h);
        assert v in after.waiters;
      } else {
        assert w in after.waiters && w.timer == Some(h);
      }
    }
  }

  lemma {:induction false} CreateKeepsWaits(r: Registry, payload: Payload, timeoutMs: Option<int>)
    requires WaitsDistinct(r) && WaitsCounted(r)
    ensures WaitsDistinct(Create(r, payload, timeoutMs)) && WaitsCounted(Create(r, payload, timeoutMs))
  {
    var after := Create(r, payload, timeoutMs);
    forall i | 0 <= i < |r.waiters| ensures after.waiters[i].wait < r.created { assert r.waiters[i] in r.waiters; }
    forall j | 0 <= j < |r.settled| ensures after.settled[j].wait < r.created { assert r.settled[j] in r.settled; }
    forall w | w in after.waiters ensures w.wait < after.created { assert w in r.waiters || w.wait == r.created; }
  }

  lemma {:induction false} CreateKeepsInv(r: Registry, payload: Payload, timeoutMs: Option<int>)
    requires Inv(r) && !Has(r, payload.requestId)
    ensures Inv(Create(r, payload, timeoutMs))
  {
    CreateKeepsTimers(r, payload, timeoutMs);
    CreateKeepsWaits(r, payload, timeoutMs);
  }

  lemma {:induction false} OneWaiterPerId(waiters: seq<Waiter>, i: nat, w: Waiter)
    requires DistinctIds(waiters) && i < |waiters| && w in waiters
    ensures w.payload.requestId == waiters[i].payload.requestId ==> w == waiters[i]
  {
    var j :| 0 <= j < |waiters| && waiters[j] == w;
  }

  lemma {:induction false} WithoutAt(waiters: seq<Waiter>, i: nat)
    requires DistinctIds(waiters) && i < |waiters|
    ensures var rest := waiters[..i] + waiters[i + 1..];
            DistinctIds(rest)
              && forall w :: w in rest <==> w in waiters && w.payload.requestId != waiters[i].payload.requestId
  {
    var rest := waiters[..i] + waiters[i + 1..];
    assert forall k :: 0 <= k < |rest| ==> rest[k] == waiters[if k < i then k else k + 1];
    forall w | w in waiters && w.payload.requestId != waiters[i].payload.requestId ensures w in rest {
      var j :| 0 <= j < |waiters| && waiters[j] == w;
      assert w == rest[if j < i then j else j - 1];
    }
  }

  /** What `finish` removes and what it leaves. */
  lemma {:induction false} Removed(r: Registry, id: string, outcome: Outcome)
    requires DistinctIds(r.waiters)
    ensures forall w :: w in Finish(r, id, outcome).waiters <==> w in r.waiters && w.payload.requestId != id
    ensures DistinctIds(Finish(r, id, outcome).waiters)
  {
    var i := IndexOf(r.waiters, id);
    if i < |r.waiters| {
      WithoutAt(r.waiters, i);
    } else {
      assert forall w :: w in r.waiters ==> w.payload.requestId != id;
    }
  }

  lemma {:induction false} FinishKeepsTimers(r: Registry, id: string, outcome: Outcome)
    requires DistinctIds(r.waiters) && TimersMatch(r)
    ensures TimersMatch(Finish(r, id, outcome))
  {
    Removed(r, id, outcome);
    var i := IndexOf(r.waiters, id);
    if i < |r.waiters| {
      var after := Finish(r, id, outcome);
      var gone := r.waiters[i];
      assert gone in r.waiters && TimerOf(r, gone);
      forall w | w in after.waiters ensures TimerOf(after, w) {
        assert TimerOf(r, w);
      }
      forall h | h in after.timers ensures h < after.armed && HeldBy(after, h) {
        assert HeldBy(r, h);
        var w :| w in r.waiters && w.timer == Some(h);
        OneWaiterPerId(r.waiters, i, w);
        assert w in after.waiters;
      }
    }
  }

  lemma {:induction false} FinishKeepsWaitsDistinct(r: Registry, id: string, outcome: Outcome)
    requires WaitsDistinct(r)
    ensures WaitsDistinct(Finish(r, id, outcome))
  {
    var i := IndexOf(r.waiters, id);
    if i < |r.waiters| {
      MoveKeepsDistinct(r, i, outcome, Finish(r, id, outcome));
    }
  }

  /** A waiter taken out and its wait settled: no wait is met twice. */
  lemma {:induction false} MoveKeepsDistinct(r: Registry, i: nat, outcome: Outcome, after: Registry)
    requires WaitsDistinct(r) && i < |r.waiters|
    requires after.waiters == r.waiters[..i] + r.waiters[i + 1..]
    requires after.settled == r.settled + [Settlement(r.waiters[i].wait, outcome)]
    ensures WaitsDistinct(after)
  {
    forall k | 0 <= k < |after.waiters|
      ensures after.waiters[k] == r.waiters[if k < i then k else k + 1]
      ensures after.waiters[k].wait != r.waiters[i].wait
    {
    }
    forall j | 0 <= j < |after.settled|
      ensures j < |r.settled| ==> after.settled[j] == r.settled[j] && after.settled[j].wait != r.waiters[i].wait
      ensures j == |r.settled| ==> after.settled[j].wait == r.waiters[i].wait
    {
    }
  }

  lemma {:induction false} FinishKeepsWaitsCounted(r: Registry, id: string, outcome: Outcome)
    requires DistinctIds(r.waiters) && WaitsCounted(r)
    ensures WaitsCounted(Finish(r, id, outcome))
  {
    Removed(r, id, outcome);
    var i := IndexOf(r.waiters, id);
    if i < |r.waiters| {
      var after := Finish(r, id, outcome);
      assert r.waiters[i] in r.waiters;
      forall s | s in after.settled ensures s.wait < after.created {
        assert s in r.settled || s == Settlement(r.waiters[i].wait, outcome);
      }
    }
  }

  lemma {:induction false} FinishKeepsInv(r: Registry, id: string, outcome: Outcome)
    requires Inv(r)
    ensures Inv(Finish(r, id, outcome))
  {
    Removed(r, id, outcome);
    FinishKeepsTimers(r, id, outcome);
    FinishKeepsWaitsDistinct(r, id, outcome);
    FinishKeepsWaitsCounted(r, id, outcome);
  }

  lemma {:induction false} FinishAllKeepsInv(r: Registry, outcome: Outcome)
    requires Inv(r)
    ensures Inv(FinishEvery(r, outcome))
  {
    var after := FinishEvery(r, outcome);
    forall s | s in after.settled ensures s.wait < after.created {
      var j :| 0 <= j < |after.settled| && after.settled[j] == s;
      if j >= |r.settled| {
        assert r.waiters[j - |r.settled|] in r.waiters;
      } else {
        assert s in r.settled;
      }
    }
  }

  /** One pending wait changed in place, its id, number and budget kept. */
  lemma {:induction false} UpdateKeepsWaits(r: Registry, i: nat, w: Waiter)
    requires DistinctIds(r.waiters) && WaitsDistinct(r) && WaitsCounted(r)
    requires i < |r.waiters| && w.wait == r.waiters[i].wait && w.payload == r.waiters[i].payload
    ensures var after := r.(waiters := r.waiters[i := w]);
            && DistinctIds(after.waiters) && WaitsDistinct(after) && WaitsCounted(after)
            && (forall v :: v in after.waiters <==> v == w || (v in r.waiters && v != r.waiters[i]))
  {
    var after := r.(waiters := r.waiters[i := w]);
    forall v | v in r.waiters && v != r.waiters[i] ensures v in after.waiters {
      var j :| 0 <= j < |r.waiters| && r.waiters[j] == v;
      assert after.waiters[j] == v;
    }
    assert after.waiters[i] == w;
    assert r.waiters[i] in r.waiters;
  }

  lemma {:induction false} MarkShownKeepsInv(r: Registry, id: string)
    requires Inv(r)
    ensures Inv(WithShown(r, id))
  {
    var i := IndexOf(r.waiters, id);
    if i < |r.waiters| {
      var w := r.waiters[i].(shown := true);
      UpdateKeepsWaits(r, i, w);
      var after := WithShown(r, id);
      assert TimerOf(r, r.waiters[i]);
      forall v | v in after.waiters ensures TimerOf(after, v) {
        assert v == w || TimerOf(r, v);
      }
      forall h | h in after.timers ensures h < after.armed && HeldBy(after, h) {
        assert HeldBy(r, h);
        var v :| v in r.waiters && v.timer == Some(h);
        assert (if v == r.waiters[i] then w else v) in after.waiters;
      }
    }
  }

  /** The wait a live timer is armed for is pending, budgeted, and holds that timer. */
  lemma {:induction false} TimerHolder(r: Registry, handle: nat) returns (i: nat)
    requires Inv(r) && handle in r.timers
    ensures i == IndexOf(r.waiters, r.timers[handle].requestId) < |r.waiters|
    ensures r.waiters[i].timer == Some(handle) && Budgeted(r.waiters[i].timeoutMs)
    ensures r.timers[handle].afterMs == r.waiters[i].timeoutMs.value
  {
    assert HeldBy(r, handle);
    var w :| w in r.waiters && w.timer == Some(handle);
    assert TimerOf(r, w);
    i := IndexOf(r.waiters, w.payload.requestId);
    var j :| 0 <= j < |r.waiters| && r.waiters[j] == w;
  }

  lemma {:induction false} RearmKeepsTimers(r: Registry, handle: nat, i: nat, w: Waiter, after: Registry)
    requires DistinctIds(r.waiters) && TimersMatch(r) && handle in r.timers
    requires i < |r.waiters| && r.waiters[i].timer == Some(handle) && w == r.waiters[i].(timer := Some(r.armed))
    requires Budgeted(w.timeoutMs) && r.timers[handle] == Timer(w.payload.requestId, w.timeoutMs.value)
    requires after.timers == (r.timers - {handle})[r.armed := r.timers[handle]] && after.armed == r.armed + 1
    requires forall v :: v in after.waiters <==> v == w || (v in r.waiters && v != r.waiters[i])
    ensures TimersMatch(after)
  {
    forall v | v in after.waiters ensures TimerOf(after, v) {
      if v != w {
        assert TimerOf(r, v);
        OneWaiterPerId(r.waiters, i, v);
      }
    }
    forall h | h in after.timers ensures h < after.armed && HeldBy(after, h) {
      if h == r.armed {
        assert w in after.waiters;
      } else {
        assert HeldBy(r, h);
        var v :| v in r.waiters && v.timer == Some(h);
        assert v in after.waiters;
      }
    }
  }

  lemma {:induction false} RearmKeepsInv(r: Registry, handle: nat)
    requires Inv(r) && handle in r.timers
    ensures Inv(Expire(r, handle, true))
  {
    var i := TimerHolder(r, handle);
    var after := Expire(r, handle, true);
    var w := r.waiters[i].(timer := Some(r.armed));
    UpdateKeepsWaits(r, i, w);
    assert r.waiters[i] in r.waiters && TimerOf(r, r.waiters[i]);
    RearmKeepsTimers(r, handle, i, w, after);
  }

  /** An expiry that is not held ends its wait as `finish` would: the fired timer is the one `finish` would cancel. */
  lemma {:induction false} ExpireIsFinish(r: Registry, handle: nat)
    requires Inv(r) && handle in r.timers
    ensures var t := r.timers[handle];
            Expire(r, handle, false) == Finish(r, t.requestId, TimedOut(SecondsOf(t.afterMs)))
  {
    var i := TimerHolder(r, handle);
    assert (r.timers - {handle}) - {handle} == r.timers - {handle};
  }

  lemma {:induction false} ExpireKeepsInv(r: Registry, handle: nat, held: bool)
    requires Inv(r)
    ensures Inv(Expire(r, handle, held))
  {
    if handle in r.timers {
      if held {
        RearmKeepsInv(r, handle);
      } else {
        var t := r.timers[handle];
        ExpireIsFinish(r, handle);
        FinishKeepsInv(r, t.requestId, TimedOut(SecondsOf(t.afterMs)));
      }
    }
  }

  lemma {:induction false} StepKeepsInv(r: Registry, e: Event)
    requires Inv(r)
    ensures Inv(Step(r, e))
  {
    match e {
      case CreateEvent(payload, timeoutMs) =>
        if payload.requestId != "" && !Has(r, payload.requestId) { CreateKeepsInv(r, payload, timeoutMs); }
      case ShownEvent(id) => MarkShownKeepsInv(r, id);
      case FinishEvent(id, outcome) => FinishKeepsInv(r, id, outcome);
      case FinishAllEvent(outcome) => FinishAllKeepsInv(r, outcome);
      case ExpireEvent(handle, held) => ExpireKeepsInv(r, handle, held);
    }
  }

  /** Every run keeps the registry's invariant: no wait settled twice or lost, one live timer to each budgeted wait. */
  lemma {:induction false} RunKeepsInv(r: Registry, events: seq<Event>)
    requires Inv(r)
    ensures Inv(Run(r, events))
    decreases events
  {
    if events != [] {
      StepKeepsInv(r, events[0]);
      RunKeepsInv(Step(r, events[0]), events[1..]);
    }
  }

  ghost predicate Pending(r: Registry, wait: nat) {
    exists w :: w in r.waiters && w.wait == wait
  }

  ghost function WaiterOf(r: Registry, wait: nat): (w: Waiter)
    requires Pending(r, wait)
    ensures w in r.waiters && w.wait == wait
  {
    var w :| w in r.waiters && w.wait == wait;
    w
  }

  /** The outcome with which an event reaches a pending wait, if it reaches it at all. */
  ghost function Reaches(r: Registry, e: Event, wait: nat): Option<Outcome>
    requires Pending(r, wait)
  {
    var w := WaiterOf(r, wait);
    match e
    case CreateEvent(_, _) => None
    case ShownEvent(_) => None
    case FinishEvent(id, outcome) => if id == w.payload.requestId then Some(outcome) else None
    case FinishAllEvent(outcome) => Some(outcome)
    case ExpireEvent(handle, held) =>
      if !held && w.timer == Some(handle) && w.timeoutMs.Some? then Some(TimedOut(SecondsOf(w.timeoutMs.value)))
        else None
  }

  /** A wait is pending or settled, never both. */
  lemma {:induction false} PendingIsUnsettled(r: Registry, wait: nat, s: Settlement)
    requires WaitsDistinct(r) && Pending(r, wait) && s in r.settled
    ensures s.wait != wait
  {
    var w := WaiterOf(r, wait);
    var i :| 0 <= i < |r.waiters| && r.waiters[i] == w;
    var j :| 0 <= j < |r.settled| && r.settled[j] == s;
  }

  lemma {:induction false} FinishReaches(r: Registry, id: string, outcome: Outcome, wait: nat)
    requires Inv(r) && Pending(r, wait)
    ensures if id == WaiterOf(r, wait).payload.requestId
            then Settlement(wait, outcome) in Finish(r, id, outcome).settled
            else Pending(Finish(r, id, outcome), wait)
  {
    Removed(r, id, outcome);
    var w := WaiterOf(r, wait);
    if id == w.payload.requestId {
      var j :| 0 <= j < |r.waiters| && r.waiters[j] == w;
      assert j == IndexOf(r.waiters, id);
      var after := Finish(r, id, outcome);
      assert after.settled[|r.settled|] == Settlement(wait, outcome);
    } else {
      assert w in Finish(r, id, outcome).waiters;
    }
  }

  /** One pending wait changed in place stays pending. */
  lemma {:induction false} UpdatedStaysPending(r: Registry, i: nat, v: Waiter, after: Registry, wait: nat)
    requires i < |r.waiters| && v.wait == r.waiters[i].wait && after.waiters == r.waiters[i := v] && Pending(r, wait)
    ensures Pending(after, wait)
  {
    var w := WaiterOf(r, wait);
    var j :| 0 <= j < |r.waiters| && r.waiters[j] == w;
    assert after.waiters[j] in after.waiters;
  }

  lemma {:induction false} TimerNamesItsWait(r: Registry, handle: nat, w: Waiter)
    requires Inv(r) && handle in r.timers && w in r.waiters
    ensures w.timer == Some(handle) <==> r.timers[handle].requestId == w.payload.requestId
    ensures w.timer == Some(handle) ==> w.timeoutMs == Some(r.timers[handle].afterMs)
  {
    assert TimerOf(r, w);
    var i := TimerHolder(r, handle);
    OneWaiterPerId(r.waiters, i, w);
  }

  lemma {:induction false} HeldStaysPending(r: Registry, handle: nat, wait: nat)
    requires Inv(r) && Pending(r, wait) && handle in r.timers
    ensures Pending(Expire(r, handle, true), wait)
  {
    var i := TimerHolder(r, handle);
    UpdatedStaysPending(r, i, r.waiters[i].(timer := Some(r.armed)), Expire(r, handle, true), wait);
  }

  /** The event settles the wait with the outcome that reaches it, or leaves it pending when none does. */
  ghost predicate Reached(r: Registry, e: Event, wait: nat)
    requires Pending(r, wait)
  {
    match Reaches(r, e, wait)
    case None => Pending(Step(r, e), wait)
    case Some(outcome) => Settlement(wait, outcome) in Step(r, e).settled
  }

  lemma {:induction false} FiredReaches(r: Registry, handle: nat, wait: nat)
    requires Inv(r) && Pending(r, wait) && handle in r.timers
    ensures var w, outcome := WaiterOf(r, wait), TimedOut(SecondsOf(r.timers[handle].afterMs));
            if w.timer == Some(handle) then Settlement(wait, outcome) in Expire(r, handle, false).settled
            else Pending(Expire(r, handle, false), wait)
  {
    var t := r.timers[handle];
    TimerNamesItsWait(r, handle, WaiterOf(r, wait));
    ExpireIsFinish(r, handle);
    FinishReaches(r, t.requestId, TimedOut(SecondsOf(t.afterMs)), wait);
  }

  lemma {:induction false} TimerIsLive(r: Registry, w: Waiter, handle: nat)
    requires Inv(r) && w in r.waiters && w.timer == Some(handle)
    ensures handle in r.timers && w.timeoutMs == Some(r.timers[handle].afterMs)
  {
    assert TimerOf(r, w);
  }

  lemma {:induction false} ExpireReaches(r: Registry, handle: nat, held: bool, wait: nat)
    requires Inv(r) && Pending(r, wait)
    ensures Reached(r, ExpireEvent(handle, held), wait)
  {
    var w := WaiterOf(r, wait);
    if w.timer == Some(handle) {
      TimerIsLive(r, w, handle);
    }
    if handle in r.timers {
      if held {
        HeldStaysPending(r, handle, wait);
      } else {
        FiredReaches(r, handle, wait);
      }
    }
  }

  lemma {:induction false} ShownReaches(r: Registry, id: string, wait: nat)
    requires Inv(r) && Pending(r, wait)
    ensures Reached(r, ShownEvent(id), wait)
  {
    var i := IndexOf(r.waiters, id);
    if i < |r.waiters| {
      UpdatedStaysPending(r, i, r.waiters[i].(shown := true), WithShown(r, id), wait);
    }
  }

  lemma {:induction false} FinishAllReaches(r: Registry, outcome: Outcome, wait: nat)
    requires Pending(r, wait)
    ensures Reached(r, FinishAllEvent(outcome), wait)
  {
    var w := WaiterOf(r, wait);
    var j :| 0 <= j < |r.waiters| && r.waiters[j] == w;
    assert FinishEvery(r, outcome).settled[|r.settled| + j] == Settlement(wait, outcome);
  }

  lemma {:induction false} CreateReaches(r: Registry, payload: Payload, timeoutMs: Option<int>, wait: nat)
    requires Pending(r, wait)
    ensures Reached(r, CreateEvent(payload, timeoutMs), wait)
  {
    assert WaiterOf(r, wait) in Step(r, CreateEvent(payload, timeoutMs)).waiters;
  }

  lemma {:induction false} StepReaches(r: Registry, e: Event, wait: nat)
    requires Inv(r) && Pending(r, wait)
    ensures Reached(r, e, wait)
  {
    match e {
      case CreateEvent(payload, timeoutMs) => CreateReaches(r, payload, timeoutMs, wait);
      case ShownEvent(id) => ShownReaches(r, id, wait);
      case FinishEvent(id, outcome) => FinishReaches(r, id, outcome, wait);
      case FinishAllEvent(outcome) => FinishAllReaches(r, outcome, wait);
      case ExpireEvent(handle, held) => ExpireReaches(r, handle, held, wait);
    }
  }

  lemma {:induction false} RunOnlyAddsSettlements(r: Registry, events: seq<Event>)
    ensures r.settled <= Run(r, events).settled
    decreases events
  {
    if events != [] {
      assert r.settled <= Step(r, events[0]).settled;
      RunOnlyAddsSettlements(Step(r, events[0]), events[1..]);
    }
  }

  /** The outcome of the first event of a run to reach the wait. */
  ghost function FirstOutcome(r: Registry, events: seq<Event>, wait: nat): Option<Outcome>
    requires Inv(r) && Pending(r, wait)
    decreases events
  {
    if events == [] then None
    else
      match Reaches(r, events[0], wait)
      case Some(outcome) => Some(outcome)
      case None =>
        StepReaches(r, events[0], wait);
        StepKeepsInv(r, events[0]);
        FirstOutcome(Step(r, events[0]), events[1..], wait)
  }

  /**
   * Over every run, a wait is settled by the first outcome to reach it and by no other, or still pending if none has.
   */
  lemma {:induction false} SettledByTheFirst(r: Registry, events: seq<Event>, wait: nat)
    requires Inv(r) && Pending(r, wait)
    ensures var end := Run(r, events);
            match FirstOutcome(r, events, wait)
            case None => Pending(end, wait) && !SettledWith(end, wait)
            case Some(outcome) =>
              && !Pending(end, wait) && Settlement(wait, outcome) in end.settled
              && forall i, j ::
                     0 <= i < |end.settled| && 0 <= j < |end.settled| && end.settled[i].wait == wait
                     && end.settled[j].wait == wait ==>
                   i == j && end.settled[i].outcome == outcome
    decreases events
  {
    var end := Run(r, events);
    RunKeepsInv(r, events);
    if events == [] {
      forall s | s in r.settled ensures s.wait != wait { PendingIsUnsettled(r, wait, s); }
      return;
    }
    var next := Step(r, events[0]);
    StepReaches(r, events[0], wait);
    StepKeepsInv(r, events[0]);
    match Reaches(r, events[0], wait) {
      case None => SettledByTheFirst(next, events[1..], wait);
      case Some(outcome) =>
        RunOnlyAddsSettlements(next, events[1..]);
        var k :| 0 <= k < |next.settled| && next.settled[k] == Settlement(wait, outcome);
        assert end.settled[k] == Settlement(wait, outcome);
        if Pending(end, wait) {
          PendingIsUnsettled(end, wait, Settlement(wait, outcome));
        }
    }
  }

  ghost function WaitNumbers(r: Registry): set<nat> {
    (set i | 0 <= i < |r.waiters| :: r.waiters[i].wait) + (set j | 0 <= j < |r.settled| :: r.settled[j].wait)
  }

  lemma {:induction false} BelowHasAll(numbers: set<nat>, bound: nat, n: nat)
    requires |numbers| == bound && forall m :: m in numbers ==> m < bound
    requires n < bound
    ensures n in numbers
  {
    if n !in numbers {
      SmallSet(numbers + {n}, bound);
    }
  }

  lemma {:induction false} SmallSet(numbers: set<nat>, bound: nat)
    requires forall n :: n in numbers ==> n < bound
    ensures |numbers| <= bound
    decreases bound
  {
    if bound == 0 {
      assert numbers == {};
    } else {
      SmallSet(numbers - {bound - 1}, bound - 1);
    }
  }

  lemma {:induction false} DistinctCount<T>(items: seq<T>, number: T -> nat, numbers: set<nat>)
    requires forall i, j :: 0 <= i < j < |items| ==> number(items[i]) != number(items[j])
    requires numbers == set i | 0 <= i < |items| :: number(items[i])
    ensures |numbers| == |items|
    decreases items
  {
    if items == [] {
      assert numbers == {};
    } else {
      var last := number(items[|items| - 1]);
      var front := items[..|items| - 1];
      var rest := set i | 0 <= i < |front| :: number(front[i]);
      DistinctCount(front, number, rest);
      assert numbers == rest + {last};
    }
  }

  ghost predicate SettledWith(r: Registry, wait: nat) {
    exists s :: s in r.settled && s.wait == wait
  }

  lemma {:induction false} NumbersOf(r: Registry, n: nat)
    ensures n in (set i | 0 <= i < |r.waiters| :: r.waiters[i].wait) <==> Pending(r, n)
    ensures n in (set j | 0 <= j < |r.settled| :: r.settled[j].wait) <==> SettledWith(r, n)
  {
    if Pending(r, n) {
      var w := WaiterOf(r, n);
      var i :| 0 <= i < |r.waiters| && r.waiters[i] == w;
    }
    if SettledWith(r, n) {
      var s :| s in r.settled && s.wait == n;
      var j :| 0 <= j < |r.settled| && r.settled[j] == s;
    }
  }

  lemma {:induction false} NumbersCounted(r: Registry)
    requires WaitsDistinct(r) && WaitsCounted(r)
    ensures |WaitNumbers(r)| == r.created
  {
    var pending := set i | 0 <= i < |r.waiters| :: r.waiters[i].wait;
    var settled := set j | 0 <= j < |r.settled| :: r.settled[j].wait;
    DistinctCount(r.waiters, (w: Waiter) => w.wait, pending);
    DistinctCount(r.settled, (s: Settlement) => s.wait, settled);
    assert pending !! settled;
  }

  /** Created equals pending plus settled, wait by wait: none is ever lost. */
  lemma {:induction false} EveryWaitAccountedFor(r: Registry, wait: nat)
    requires Inv(r) && wait < r.created
    ensures Pending(r, wait) <==> !SettledWith(r, wait)
  {
    NumbersCounted(r);
    forall n | n in WaitNumbers(r) ensures n < r.created {
      NumbersOf(r, n);
    }
    BelowHasAll(WaitNumbers(r), r.created, wait);
    NumbersOf(r, wait);
    if Pending(r, wait) && SettledWith(r, wait) {
      var s :| s in r.settled && s.wait == wait;
      PendingIsUnsettled(r, wait, s);
    }
  }

  lemma {:induction false} AllSettledFront(waiters: seq<Waiter>, outcome: Outcome)
    requires waiters != []
    ensures AllSettled(waiters, outcome) == [Settlement(waiters[0].wait, outcome)] + AllSettled(waiters[1..], outcome)
  {
  }

  lemma {:induction false} FinishFront(r: Registry, outcome: Outcome)
    requires r.waiters != []
    ensures var after := Finish(r, r.waiters[0].payload.requestId, outcome);
            after.waiters == r.waiters[1..] && FinishEvery(after, outcome) == FinishEvery(r, outcome)
  {
    var one, rest := Settlement(r.waiters[0].wait, outcome), AllSettled(r.waiters[1..], outcome);
    assert IndexOf(r.waiters, r.waiters[0].payload.requestId) == 0;
    assert r.waiters[..0] + r.waiters[1..] == r.waiters[1..];
    AllSettledFront(r.waiters, outcome);
    assert (r.settled + [one]) + rest == r.settled + ([one] + rest);
  }

  lemma {:induction false} NoWaitsNoTimers(r: Registry)
    requires TimersMatch(r) && r.waiters == []
    ensures r.timers == map[]
  {
    forall h | h in r.timers ensures HeldBy(r, h) {}
  }

  // ---- each call, said of the waits and timers ----------------------------------------------

  ghost predicate Awaits(r: Registry, id: string) {
    exists w :: w in r.waiters && w.payload.requestId == id
  }

  lemma {:induction false} HasIsAwaits(r: Registry, id: string)
    ensures Has(r, id) <==> Awaits(r, id)
  {
    var i := IndexOf(r.waiters, id);
    if i < |r.waiters| {
      assert r.waiters[i] in r.waiters;
    }
  }

  /** An empty or pending id changes nothing; any other adds one wait at the end, and a timer for a positive budget. */
  lemma {:induction false} CreateSays(r: Registry, payload: Payload, timeoutMs: Option<int>)
    requires TimersMatch(r)
    ensures var to := Step(r, CreateEvent(payload, timeoutMs));
            if payload.requestId == "" || Awaits(r, payload.requestId) then to == r
            else
              && |to.waiters| == |r.waiters| + 1 && to.waiters[..|r.waiters|] == r.waiters
              && to.settled == r.settled && to.created == r.created + 1
              && var w := to.waiters[|r.waiters|];
              && w.wait == r.created && w.payload == payload && !w.shown
              && if timeoutMs.Some? && timeoutMs.value > 0 then
                   && w.timer.Some? && w.timer.value !in r.timers
                   && to.timers == r.timers[w.timer.value := Timer(payload.requestId, timeoutMs.value)]
                 else w.timer.None? && to.timers == r.timers
  {
    HasIsAwaits(r, payload.requestId);
  }

  lemma {:induction false} IndexIs(waiters: seq<Waiter>, i: nat)
    requires DistinctIds(waiters) && i < |waiters|
    ensures IndexOf(waiters, waiters[i].payload.requestId) == i
  {
    assert waiters[IndexOf(waiters, waiters[i].payload.requestId)] in waiters;
  }

  lemma {:induction false} ShownSays(r: Registry, id: string, i: nat)
    requires DistinctIds(r.waiters) && i < |r.waiters|
    ensures var to := Step(r, ShownEvent(id));
            && to == r.(waiters := to.waiters) && |to.waiters| == |r.waiters|
            && to.waiters[i] == r.waiters[i].(shown := r.waiters[i].shown || r.waiters[i].payload.requestId == id)
  {
    IndexIs(r.waiters, i);
  }

  /** The one wait of the id is taken out and its timer cancelled; an id that is not pending changes nothing. */
  lemma {:induction false} FinishSays(r: Registry, id: string, outcome: Outcome)
    requires DistinctIds(r.waiters)
    ensures var to := Step(r, FinishEvent(id, outcome));
            && (!Awaits(r, id) ==> to == r)
            && forall i :: 0 <= i < |r.waiters| && r.waiters[i].payload.requestId == id ==>
                 to == Taken(r, i, Settlement(r.waiters[i].wait, outcome))
  {
    HasIsAwaits(r, id);
    forall i | 0 <= i < |r.waiters| && r.waiters[i].payload.requestId == id
      ensures IndexOf(r.waiters, id) == i
    {
      IndexIs(r.waiters, i);
    }
  }

  /** The wait at a place gone, with the timer it held, and settled as said. */
  function Taken(r: Registry, i: nat, how: Settlement): Registry
    requires i < |r.waiters|
  {
    Registry(r.waiters[..i] + r.waiters[i + 1..],
             map h | h in r.timers && r.waiters[i].timer != Some(h) :: r.timers[h],
             r.armed, r.created, r.settled + [how])
  }

  lemma {:induction false} FinishAllSays(r: Registry, outcome: Outcome, i: nat)
    requires i < |r.waiters|
    ensures var to := Step(r, FinishAllEvent(outcome));
            && to.waiters == [] && to.timers == map[] && to.created == r.created
            && |to.settled| == |r.settled| + |r.waiters| && r.settled <= to.settled
            && to.settled[|r.settled| + i] == Settlement(r.waiters[i].wait, outcome)
  {
  }

  /**
   * A timer runs out: outside a hold its wait ends timed out after its budget in seconds; held, the wait keeps all but
   * the timer, in whose place another of the same budget is armed.
   */
  lemma {:induction false} ExpireSays(r: Registry, handle: nat, held: bool, i: nat)
    requires Inv(r) && i < |r.waiters| && r.waiters[i].timer == Some(handle)
    ensures var to, w := Step(r, ExpireEvent(handle, held)), r.waiters[i];
            && w.timeoutMs.Some?
            && if held then
                 && to.settled == r.settled && to.created == r.created
                 && r.armed !in r.timers && to.waiters == r.waiters[i := w.(timer := Some(r.armed))]
                 && to.timers == (map h | h in r.timers && h != handle :: r.timers[h])
                                 [r.armed := Timer(w.payload.requestId, w.timeoutMs.value)]
               else to == Taken(r, i, Settlement(w.wait, TimedOut(w.timeoutMs.value as real / 1000.0)))
  {
    var w := r.waiters[i];
    assert w in r.waiters;
    TimerIsLive(r, w, handle);
    TimerNamesItsWait(r, handle, w);
    IndexIs(r.waiters, i);
    if !held {
      ExpireIsFinish(r, handle);
      FinishSays(r, w.payload.requestId, TimedOut(SecondsOf(w.timeoutMs.value)));
    }
  }

  /** `PendingApprovals`, its waiters in the insertion order of the source's map. */
  class PendingApprovals {
    var state: Registry

    ghost predicate Valid()
      reads this
    {
      Inv(state)
    }

    constructor ()
      ensures Valid() && state == Empty
    {
      state := Empty;
    }

    /** False for an id that is empty or already pending, which the source throws for. */
    method Create(payload: Payload, timeoutMs: Option<int>) returns (created: bool)
      requires Valid()
      modifies this
      ensures Valid() && state == Step(old(state), CreateEvent(payload, timeoutMs))
      ensures created <==> payload.requestId != "" && !Has(old(state), payload.requestId)
    {
      StepKeepsInv(state, CreateEvent(payload, timeoutMs));
      created := payload.requestId != "" && !Has(state, payload.requestId);
      if created {
        var timer: Option<nat> := None;
        if Budgeted(timeoutMs) {
          timer := Some(state.armed);
          state := state.(timers := state.timers[state.armed := Timer(payload.requestId, timeoutMs.value)],
            armed := state.armed + 1);
        }
        state := state.(waiters := state.waiters + [Waiter(state.created, payload, timeoutMs, timer, false)],
          created := state.created + 1);
      }
    }

    method MarkShown(id: string)
      requires Valid()
      modifies this
      ensures Valid() && state == Step(old(state), ShownEvent(id))
    {
      StepKeepsInv(state, ShownEvent(id));
      state := WithShown(state, id);
    }

    /** `resolve`, `cancel` and `endAway`: the answer says whether the id was pending. */
    method Finish(id: string, outcome: Outcome) returns (found: bool)
      requires Valid()
      modifies this
      ensures Valid() && state == Step(old(state), FinishEvent(id, outcome))
      ensures found <==> Has(old(state), id)
    {
      StepKeepsInv(state, FinishEvent(id, outcome));
      ghost var after := Step(state, FinishEvent(id, outcome));
      var i := IndexOf(state.waiters, id);
      found := i < |state.waiters|;
      if found {
        var w := state.waiters[i];
        var timers := state.timers;
        if w.timer.Some? {
          timers := timers - {w.timer.value};
        }
        state := Registry(state.waiters[..i] + state.waiters[i + 1..], timers, state.armed, state.created,
                          state.settled + [Settlement(w.wait, outcome)]);
      }
      assert state == after;
    }

    /** `cancelAll` and `withdrawAll`: the ids pending at the call, one by one. */
    method FinishAll(outcome: Outcome) returns (count: nat)
      requires Valid()
      modifies this
      ensures Valid() && state == Step(old(state), FinishAllEvent(outcome))
      ensures count == |old(state).waiters|
    {
      ghost var start := state;
      count := 0;
      while state.waiters != []
        invariant Valid() && count + |state.waiters| == |start.waiters|
        invariant FinishEvery(state, outcome) == FinishEvery(start, outcome)
        decreases |state.waiters|
      {
        FinishFront(state, outcome);
        var found := Finish(state.waiters[0].payload.requestId, outcome);
        count := count + 1;
      }
      NoWaitsNoTimers(state);
      assert state == FinishEvery(state, outcome);
    }

    /** A live timer fires while `held` answers as given. */
    method Fire(handle: nat, held: bool)
      requires Valid() && handle in state.timers
      modifies this
      ensures Valid() && state == Step(old(state), ExpireEvent(handle, held))
    {
      StepKeepsInv(state, ExpireEvent(handle, held));
      var i := TimerHolder(state, handle);
      var timer := state.timers[handle];
      if held {
        var at := IndexOf(state.waiters, timer.requestId);
        state := state.(timers := (state.timers - {handle})[state.armed := timer],
                        waiters := state.waiters[at := state.waiters[at].(timer := Some(state.armed))],
                        armed := state.armed + 1);
      } else {
        ExpireIsFinish(state, handle);
        var found := Finish(timer.requestId, TimedOut(SecondsOf(timer.afterMs)));
      }
    }
  }
}
