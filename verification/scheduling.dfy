/**
 * The runtime's scheduler, reduced to a log of armed timers. A timer's id is
 * its position in the log, and the handle returned to callers (`Cancellable`)
 * is that id. Cancelling is a flag; a one-shot timer is spent once it fires.
 */
module Scheduling {
  import opened Base
  import opened Messages

  type TimerId = nat

  datatype TimerState = Pending | Cancelled | Fired

  /** One scheduled delivery of `msg` to `to` (null when untargeted) on behalf of `from`. */
  datatype Timer = Timer(
    delay: Duration,
    period: Option<Duration>,
    to: Option<ActorId>,
    msg: Msg,
    from: Option<ActorId>,
    state: TimerState)

  datatype Scheduler = Scheduler(timers: seq<Timer>)

  const EmptyScheduler := Scheduler([])

  /** A delivery the scheduler hands to the runtime when a timer fires. */
  datatype Delivery = Delivery(to: Option<ActorId>, msg: Msg, from: Option<ActorId>)

  predicate IsPending(s: Scheduler, id: TimerId) {
    id < |s.timers| && s.timers[id].state == Pending
  }

  predicate IsCancelled(s: Scheduler, id: TimerId) {
    id < |s.timers| && s.timers[id].state == Cancelled
  }

  /** `scheduleOnce` (no period) or `schedule` (with a period): arms a fresh pending timer. */
  function Arm(s: Scheduler, delay: Duration, period: Option<Duration>, to: Option<ActorId>,
               msg: Msg, from: Option<ActorId>): (r: (Scheduler, TimerId))
    ensures r.1 == |s.timers| && |r.0.timers| == |s.timers| + 1
    ensures r.0.timers[..|s.timers|] == s.timers
    ensures r.0.timers[r.1] == Timer(delay, period, to, msg, from, Pending)
  {
    (Scheduler(s.timers + [Timer(delay, period, to, msg, from, Pending)]), |s.timers|)
  }

  /** `Cancellable.cancel()`: a pending timer becomes cancelled; anything else is left alone. */
  function Cancel(s: Scheduler, id: TimerId): (r: Scheduler)
    ensures |r.timers| == |s.timers|
    ensures forall i | 0 <= i < |s.timers| && i != id :: r.timers[i] == s.timers[i]
    ensures !IsPending(r, id)
    ensures IsPending(s, id) ==> r.timers[id] == s.timers[id].(state := Cancelled)
    ensures !IsPending(s, id) ==> r == s
  {
    if IsPending(s, id) then Scheduler(s.timers[id := s.timers[id].(state := Cancelled)]) else s
  }

  /**
   * The runtime firing timer `id`: a pending timer delivers its message, and a
   * one-shot timer is spent afterwards while a periodic one stays pending. A
   * timer that is not pending does nothing, and firing never makes a timer
   * count as cancelled: a spent one-shot is fired, not cancelled.
   */
  function Expire(s: Scheduler, id: TimerId): (r: (Scheduler, Option<Delivery>))
    ensures r.1.Some? <==> IsPending(s, id)
    ensures r.1.Some? ==> r.1.value == Delivery(s.timers[id].to, s.timers[id].msg, s.timers[id].from)
    ensures IsPending(s, id) ==> (IsPending(r.0, id) <==> s.timers[id].period.Some?)
    ensures !IsPending(s, id) ==> r.0 == s
    ensures IsCancelled(r.0, id) <==> IsCancelled(s, id)
    ensures |r.0.timers| == |s.timers|
    ensures forall i | 0 <= i < |s.timers| && i != id :: r.0.timers[i] == s.timers[i]
  {
    if !IsPending(s, id) then (s, None)
    else
      var t := s.timers[id];
      var s' := if t.period.None? then Scheduler(s.timers[id := t.(state := Fired)]) else s;
      (s', Some(Delivery(t.to, t.msg, t.from)))
  }

  /** Cancelling twice is cancelling once. */
  lemma CancelIdempotent(s: Scheduler, id: TimerId)
    ensures Cancel(Cancel(s, id), id) == Cancel(s, id)
  {
  }

  /** A cancelled timer never delivers again, however often the runtime fires it. */
  lemma CancelledNeverDelivers(s: Scheduler, id: TimerId, n: nat)
    ensures Expire(Cancel(s, id), id).1.None?
    ensures FireTimes(Cancel(s, id), id, n).1 == 0
  {
    FireTimesOfIdle(Cancel(s, id), id, n);
  }

  /** Fires timer `id` `n` times in a row; answers the scheduler and the number of deliveries. */
  function FireTimes(s: Scheduler, id: TimerId, n: nat): (r: (Scheduler, nat))
    ensures r.1 <= n
    decreases n
  {
    if n == 0 then (s, 0)
    else
      var (s', d) := Expire(s, id);
      var rest := FireTimes(s', id, n - 1);
      (rest.0, rest.1 + (if d.Some? then 1 else 0))
  }

  lemma {:induction false} FireTimesOfIdle(s: Scheduler, id: TimerId, n: nat)
    requires !IsPending(s, id)
    ensures FireTimes(s, id, n) == (s, 0)
    decreases n
  {
    if n > 0 {
      FireTimesOfIdle(s, id, n - 1);
    }
  }

  /** A one-shot timer delivers at most once, however often the runtime fires it. */
  lemma OneShotDeliversAtMostOnce(s: Scheduler, id: TimerId, n: nat)
    requires id < |s.timers| && s.timers[id].period.None?
    ensures FireTimes(s, id, n).1 <= 1
  {
    if n > 0 && IsPending(s, id) {
      var s' := Expire(s, id).0;
      FireTimesOfIdle(s', id, n - 1);
    } else if n > 0 {
      FireTimesOfIdle(s, id, n);
    }
  }
}
