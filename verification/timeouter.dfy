/**
 * The single-slot timeout helper: it holds at most one outstanding timeout
 * for its owner and replaces it on every start.
 */
module Timeouter {
  import opened Base
  import opened Messages
  import opened Scheduling
  import opened Context
  import opened Builders

  /** The handle of the outstanding timeout (or none) and the configured delay. */
  datatype Timeouter = Timeouter(handle: Option<TimerId>, timeout: Int64, unit: TimeUnit)

  /** A fresh helper: nothing outstanding, a delay of two seconds. */
  const NewTimeouter := Timeouter(None, 2, Seconds)

  /** `setTimeout`: the delay used by later starts; an outstanding timeout keeps its own. */
  function SetTimeout(t: Timeouter, timeout: Int64, unit: TimeUnit): (r: Timeouter)
    ensures r.handle == t.handle && r.timeout == timeout && r.unit == unit
    ensures Nanos(Duration(r.timeout, r.unit)) == Nanos(Duration(timeout, unit))
  {
    t.(timeout := timeout, unit := unit)
  }

  /** `doneWaiting`: cancels the outstanding timeout, if any, and forgets it. */
  function DoneWaiting(t: Timeouter, s: Scheduler): (r: (Timeouter, Scheduler))
    ensures r.0.handle.None? && r.0.timeout == t.timeout && r.0.unit == t.unit
    ensures t.handle.Some? ==> r.1 == Cancel(s, t.handle.value) && !IsPending(r.1, t.handle.value)
    ensures t.handle.None? ==> r.1 == s
  {
    var s' := if t.handle.Some? then Cancel(s, t.handle.value) else s;
    (t.(handle := None), s')
  }

  /**
   * `startWaiting`: cancels the outstanding timeout, then schedules a
   * TimeoutMsg carrying `taskInfo` to the owner itself after the configured
   * delay, and keeps its handle.
   */
  function StartWaiting(t: Timeouter, s: Scheduler, self: ActorId, taskInfo: int): (r: (Timeouter, Scheduler))
    ensures t.handle.Some? && t.handle.value < |s.timers| ==> !IsPending(r.1, t.handle.value)
    ensures r.0.handle.Some? && IsPending(r.1, r.0.handle.value)
    ensures r.0.timeout == t.timeout && r.0.unit == t.unit
    ensures |r.1.timers| == |s.timers| + 1 && r.0.handle.value == |s.timers|
    ensures r.1.timers[r.0.handle.value]
      == Timer(Duration(t.timeout, t.unit), None, Some(self), TimeoutMsg(taskInfo), Some(self), Pending)
    ensures forall i | 0 <= i < |s.timers| && Some(i) != t.handle :: r.1.timers[i] == s.timers[i]
  {
    var (t1, s1) := DoneWaiting(t, s);
    var b := ScheduleDelay(ScheduleToSelf(NewSchedule(TimeoutMsg(taskInfo), self), self), Duration(t.timeout, t.unit));
    var (s2, id) := Go(b, s1);
    assert forall i | 0 <= i < |s1.timers| :: s2.timers[i] == s1.timers[i];
    (t1.(handle := Some(id)), s2)
  }

  /** Stopping twice in a row is the same as stopping once. */
  lemma DoneWaitingIdempotent(t: Timeouter, s: Scheduler)
    ensures var (t1, s1) := DoneWaiting(t, s); DoneWaiting(t1, s1) == (t1, s1)
  {
  }

  /**
   * The helper's only outstanding timeout is the one it holds: its handle
   * names an armed timer and no other timer of `s` is pending.
   */
  predicate AtMostOnePending(t: Timeouter, s: Scheduler) {
    && (t.handle.Some? ==> t.handle.value < |s.timers|)
    && forall i | 0 <= i < |s.timers| :: IsPending(s, i) ==> t.handle == Some(i)
  }

  /** What the owner, or the runtime, does to the helper. */
  datatype Op =
    | Start(taskInfo: int)
    | Done
    | Configure(timeout: Int64, unit: TimeUnit)
    /** the runtime fires timer `id` */
    | Tick(id: TimerId)

  function Step(t: Timeouter, s: Scheduler, self: ActorId, op: Op): (r: (Timeouter, Scheduler))
  {
    match op
    case Start(info) => StartWaiting(t, s, self, info)
    case Done => DoneWaiting(t, s)
    case Configure(d, u) => (SetTimeout(t, d, u), s)
    case Tick(id) => (t, Expire(s, id).0)
  }

  /** Every step keeps at most one timeout outstanding. */
  lemma StepKeepsAtMostOnePending(t: Timeouter, s: Scheduler, self: ActorId, op: Op)
    requires AtMostOnePending(t, s)
    ensures var (t', s') := Step(t, s, self, op); AtMostOnePending(t', s')
  {
    var (t', s') := Step(t, s, self, op);
    match op
    case Start(info) =>
    case Done =>
    case Configure(_, _) =>
    case Tick(id) =>
  }

  /** The helper and scheduler after a run of operations starting from a fresh helper and no timers. */
  function Run(self: ActorId, ops: seq<Op>): (r: (Timeouter, Scheduler))
    decreases |ops|
  {
    if |ops| == 0 then (NewTimeouter, EmptyScheduler)
    else
      var (t, s) := Run(self, ops[..|ops| - 1]);
      Step(t, s, self, ops[|ops| - 1])
  }

  /** However the owner uses it, the helper never leaves more than one timeout outstanding. */
  lemma {:induction false} RunKeepsAtMostOnePending(self: ActorId, ops: seq<Op>)
    ensures var (t, s) := Run(self, ops); AtMostOnePending(t, s)
    decreases |ops|
  {
    if |ops| > 0 {
      RunKeepsAtMostOnePending(self, ops[..|ops| - 1]);
      var (t, s) := Run(self, ops[..|ops| - 1]);
      StepKeepsAtMostOnePending(t, s, self, ops[|ops| - 1]);
    }
  }

  /** With the default delay a timeout is due two seconds after the start. */
  lemma DefaultDelayTwoSeconds(s: Scheduler, self: ActorId, taskInfo: int)
    ensures var (t, s') := StartWaiting(NewTimeouter, s, self, taskInfo);
      Nanos(s'.timers[t.handle.value].delay) == 2 * 1000_000_000
  {
  }
}
