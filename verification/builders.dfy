/**
 * The send builder (`ctx.msg(m)`) and the schedule builder (`ctx.schedule(m)`)
 * of an actor's context: their settable state and the routing decision
 * taken when they are fired.
 */
module Builders {
  import opened Base
  import opened Messages
  import opened Scheduling

  /** `MySendBuilder`: target, sender, optional timeout, and whether a sender was set. */
  datatype SendBuilder = SendBuilder(
    msg: Msg,
    to: Option<ActorId>,
    replyTo: Option<ActorId>,
    timeout: Option<Duration>,
    replyToSet: bool)

  /** `ctx.msg(m)`: no target, the actor itself as sender, no timeout. */
  function NewSend(msg: Msg, self: ActorId): (b: SendBuilder)
    ensures b.msg == msg && b.to.None? && b.replyTo == Some(self) && b.timeout.None? && !b.replyToSet
  {
    SendBuilder(msg, None, Some(self), None, false)
  }

  function SendTo(b: SendBuilder, to: Option<ActorId>): SendBuilder
  {
    b.(to := to)
  }

  /** `replyToSender()`: the target becomes the sender of the message being handled. */
  function ReplyToSender(b: SendBuilder, sender: Option<ActorId>): SendBuilder
  {
    b.(to := sender)
  }

  /** `from(x)`: sets the sender and remembers that it was set explicitly. */
  function SendFrom(b: SendBuilder, from: Option<ActorId>): SendBuilder
  {
    b.(replyTo := from, replyToSet := true)
  }

  function SendTimeout(b: SendBuilder, d: Duration): SendBuilder
  {
    b.(timeout := Some(d))
  }

  /**
   * `fire()`: with no target the message is published on the event bus, which
   * is refused when a sender was set explicitly; otherwise it is told to the
   * target with the builder's sender.
   */
  function Fire(b: SendBuilder): (r: Result<Effect>)
    ensures r == Ok(Publish(b.msg)) <==> b.to.None? && !b.replyToSet
    ensures r == Err(PublishWithReplyTo) <==> b.to.None? && b.replyToSet
    ensures b.to.Some? ==> r == Ok(Tell(b.to.value, b.msg, b.replyTo))
  {
    if b.to.None? then
      if b.replyToSet then Err(PublishWithReplyTo) else Ok(Publish(b.msg))
    else Ok(Tell(b.to.value, b.msg, b.replyTo))
  }

  /** `fireAndForget()`: refused when a timeout was set, otherwise `fire()`. */
  function FireAndForget(b: SendBuilder): (r: Result<Effect>)
    ensures b.timeout.Some? ==> r == Err(FireAndForgetWithTimeout)
    ensures b.timeout.None? ==> r == Fire(b)
  {
    if b.timeout.Some? then Err(FireAndForgetWithTimeout) else Fire(b)
  }

  /** Without `from`, a targeted send goes out with the actor itself as sender. */
  lemma SendFromDefaultsToSelf(msg: Msg, self: ActorId, to: ActorId)
    ensures FireAndForget(SendTo(NewSend(msg, self), Some(to))) == Ok(Tell(to, msg, Some(self)))
  {
  }

  /** An untargeted send with an explicit sender never publishes, whatever else was set. */
  lemma PublishRefusesExplicitSender(b: SendBuilder, from: Option<ActorId>)
    requires b.to.None?
    ensures Fire(SendFrom(b, from)) == Err(PublishWithReplyTo)
    ensures FireAndForget(SendFrom(b, from)).Err?
  {
  }

  /** `MyScheduleBuilder`: target, sender (default the actor itself), delay (default zero), optional period. */
  datatype ScheduleBuilder = ScheduleBuilder(
    msg: Msg,
    to: Option<ActorId>,
    from: Option<ActorId>,
    delay: Duration,
    period: Option<Duration>)

  /** `ctx.schedule(m)`. */
  function NewSchedule(msg: Msg, self: ActorId): (b: ScheduleBuilder)
    ensures b.msg == msg && b.to.None? && b.from == Some(self) && Nanos(b.delay) == 0 && b.period.None?
  {
    ScheduleBuilder(msg, None, Some(self), ZeroDuration, None)
  }

  function ScheduleTo(b: ScheduleBuilder, to: Option<ActorId>): ScheduleBuilder
  {
    b.(to := to)
  }

  function ScheduleToSelf(b: ScheduleBuilder, self: ActorId): ScheduleBuilder
  {
    b.(to := Some(self))
  }

  function ScheduleFrom(b: ScheduleBuilder, from: Option<ActorId>): ScheduleBuilder
  {
    b.(from := from)
  }

  function ScheduleDelay(b: ScheduleBuilder, d: Duration): ScheduleBuilder
  {
    b.(delay := d)
  }

  function SchedulePeriod(b: ScheduleBuilder, p: Duration): ScheduleBuilder
  {
    b.(period := Some(p))
  }

  /**
   * `go()`: arms one timer; it is one-shot exactly when no period was set.
   * An untargeted message is wrapped in a PostMsg, the envelope a hosting
   * actor re-publishes, but the timer itself keeps the null receiver the code
   * gives it, so no actor is named to receive the envelope.
   */
  function Go(b: ScheduleBuilder, s: Scheduler): (r: (Scheduler, TimerId))
    ensures |r.0.timers| == |s.timers| + 1 && r.0.timers[..|s.timers|] == s.timers && IsPending(r.0, r.1)
    ensures var t := r.0.timers[r.1];
      && (b.to.None? ==> t.msg == PostMsg(b.msg))
      && (b.to.Some? ==> t.msg == b.msg)
      && (t.period.None? <==> b.period.None?)
      && t.period == b.period && t.to == b.to && t.from == b.from && t.delay == b.delay
  {
    var m := if b.to.None? then PostMsg(b.msg) else b.msg;
    Arm(s, b.delay, b.period, b.to, m, b.from)
  }

  /** A targeted schedule with no settings is a one-shot, immediate delivery from the actor itself. */
  lemma ScheduleDefaults(msg: Msg, self: ActorId, to: ActorId, s: Scheduler)
    ensures var r := Go(ScheduleTo(NewSchedule(msg, self), Some(to)), s);
      var t := r.0.timers[r.1];
      t.period.None? && Nanos(t.delay) == 0 && t.from == Some(self) && t.msg == msg && t.to == Some(to)
  {
  }

  /** A cancelled schedule delivers nothing afterwards, whether one-shot or periodic. */
  lemma CancelledScheduleSilent(b: ScheduleBuilder, s: Scheduler, n: nat)
    ensures var r := Go(b, s);
      FireTimes(Cancel(r.0, r.1), r.1, n).1 == 0
  {
    var r := Go(b, s);
    CancelledNeverDelivers(r.0, r.1, n);
  }
}
