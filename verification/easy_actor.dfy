/**
 * The older base class for actors: its handler table in declaration order,
 * first-match dispatch, and its own one-slot request timeout, which is
 * checked only when the timeout notice arrives.
 */
module EasyActor {
  import opened Base
  import opened Types
  import opened Messages
  import opened Scheduling
  import opened HandlerTable

  /** The state of one actor built on the base class. */
  datatype EasyState = EasyState(
    self: ActorId,
    /** the table built by `preStart` (or the error that stopped it) */
    table: Result<seq<Entry>>,
    /** `timeoutCancellable`: `None` until a first wait starts */
    handle: Option<TimerId>,
    sched: Scheduler)

  /** The wait a base-class actor starts: one minute. */
  const EasyTimeout := Duration(1, Minutes)

  /**
   * The subscriptions `preStart` makes, one per subscribing method in
   * declaration order, up to the first method without parameter (the start
   * fails there, after the earlier subscriptions were made).
   */
  function EasySubscriptions(self: ActorId, ds: seq<HandlerDecl>): (r: seq<Effect>)
    ensures AllHaveParams(ds) ==> r == Subscriptions(self, Entries(ds))
    ensures forall i: nat | IsFirstWithoutParams(ds, i) ::
      |r| == i && forall j | 0 <= j < i :: r[j] == Subscribe(self, ds[j].params[0])
    decreases |ds|
  {
    if |ds| == 0 then []
    else if |ds[0].params| == 0 then []
    else
      var rest := EasySubscriptions(self, ds[1..]);
      TailFacts(ds);
      [Subscribe(self, ds[0].params[0])] + rest
  }

  /** How the declarations relate to all but their first one, when the first has a parameter. */
  lemma TailFacts(ds: seq<HandlerDecl>)
    requires |ds| > 0 && |ds[0].params| > 0
    ensures forall i: nat | IsFirstWithoutParams(ds, i) :: i > 0 && IsFirstWithoutParams(ds[1..], i - 1)
    ensures forall j | 1 <= j < |ds| :: ds[1..][j - 1] == ds[j]
    ensures AllHaveParams(ds) ==> AllHaveParams(ds[1..]) && Entries(ds) == [EntryOf(ds[0])] + Entries(ds[1..])
  {
    assert forall j | 1 <= j < |ds| :: ds[1..][j - 1] == ds[j];
  }

  /**
   * `preStart`: builds the table from the subscribing methods in
   * declaration order and, when configured (the default), subscribes to each
   * method's class on the way.
   */
  function EasyPreStart(self: ActorId, subscribe: bool, ds: seq<HandlerDecl>): (r: (EasyState, seq<Effect>))
    ensures r.0.table == DeclaredTable(ds) && r.0.handle.None? && r.0.self == self
    ensures !subscribe ==> r.1 == []
    ensures subscribe ==> r.1 == EasySubscriptions(self, ds)
  {
    (EasyState(self, DeclaredTable(ds), None, EmptyScheduler), if subscribe then EasySubscriptions(self, ds) else [])
  }

  /** When the start succeeds and subscribes, it subscribes to exactly the table's classes, in order. */
  lemma StartSubscribesToTable(self: ActorId, ds: seq<HandlerDecl>)
    requires EasyPreStart(self, true, ds).0.table.Ok?
    ensures var (st, effects) := EasyPreStart(self, true, ds);
      && |effects| == |st.table.value|
      && forall i | 0 <= i < |effects| :: effects[i] == Subscribe(self, st.table.value[i].key)
  {
  }

  /** `onReceive`: the first row, in declaration order, that accepts the message's class, else unhandled. */
  function EasyOnReceive(h: Hierarchy, t: seq<Entry>, msg: Msg): (r: Effect)
    ensures r.Invoke? || r.Unhandled?
    ensures r == Unhandled(msg) <==> forall j | 0 <= j < |t| :: !Matches(h, t[j], ClassOf(msg))
    ensures r.Invoke? ==>
      && r.arg == msg
      && exists i: nat :: IsFirstMatch(h, t, ClassOf(msg), i) && t[i].handler == r.handler
  {
    match Lookup(h, t, ClassOf(msg))
    case Some(m) => Invoke(m, msg)
    case None => Unhandled(msg)
  }

  /** The base class's own `handle(TimeoutMsg)` method, a row of every subclass's table. */
  const TimeoutHandler: MethodId := 0

  /**
   * A message reaching a started actor: dispatched as `onReceive` does, and
   * when it is a TimeoutMsg handed to the built-in timeout method, that
   * method's check runs.
   */
  function EasyReceive(h: Hierarchy, st: EasyState, msg: Msg): (r: seq<Effect>)
    requires st.table.Ok?
    ensures msg.TimeoutMsg? && Lookup(h, st.table.value, TimeoutMsgClass) == Some(TimeoutHandler) ==>
      r == EasyHandleTimeout(st, msg.taskInfo)
    ensures !(msg.TimeoutMsg? && Lookup(h, st.table.value, ClassOf(msg)) == Some(TimeoutHandler)) ==>
      r == [EasyOnReceive(h, st.table.value, msg)]
  {
    var e := EasyOnReceive(h, st.table.value, msg);
    if msg.TimeoutMsg? && e == Invoke(TimeoutHandler, msg) then EasyHandleTimeout(st, msg.taskInfo) else [e]
  }

  /**
   * `startWaiting`: a one-minute TimeoutMsg to the actor itself, whose handle
   * replaces the held one without cancelling it.
   */
  function EasyStartWaiting(st: EasyState, taskInfo: int): (r: EasyState)
    ensures r.handle == Some(|st.sched.timers|) && IsPending(r.sched, r.handle.value)
    ensures r.sched.timers[r.handle.value]
      == Timer(EasyTimeout, None, Some(st.self), TimeoutMsg(taskInfo), Some(st.self), Pending)
    ensures r.sched.timers[..|st.sched.timers|] == st.sched.timers
    ensures r.self == st.self && r.table == st.table
  {
    var (s, id) := Arm(st.sched, EasyTimeout, None, Some(st.self), TimeoutMsg(taskInfo), Some(st.self));
    st.(handle := Some(id), sched := s)
  }

  /** `doneWaiting`: cancels the held timeout; there is none to cancel before the first wait. */
  function EasyDoneWaiting(st: EasyState): (r: Result<EasyState>)
    ensures st.handle.None? <==> r == Err(NullPointer)
    ensures r.Ok? ==> r.value == st.(sched := Cancel(st.sched, st.handle.value))
  {
    if st.handle.None? then Err(NullPointer)
    else Ok(st.(sched := Cancel(st.sched, st.handle.value)))
  }

  /**
   * The built-in timeout handler: it reports a timeout unless the held
   * timeout was cancelled, whichever timeout the notice came from.
   */
  function EasyHandleTimeout(st: EasyState, taskInfo: int): (r: seq<Effect>)
    ensures r == [TimedOut(taskInfo)] <==> st.handle.Some? && !IsCancelled(st.sched, st.handle.value)
    ensures r == [] <==> st.handle.None? || IsCancelled(st.sched, st.handle.value)
  {
    if st.handle.Some? && !IsCancelled(st.sched, st.handle.value) then [TimedOut(taskInfo)] else []
  }

  /** A timeout that fires while waiting reaches the actor and is reported with its task info. */
  lemma UnansweredWaitTimesOut(st: EasyState, taskInfo: int)
    ensures var st1 := EasyStartWaiting(st, taskInfo);
      var (s2, d) := Expire(st1.sched, st1.handle.value);
      && d == Some(Delivery(Some(st.self), TimeoutMsg(taskInfo), Some(st.self)))
      && EasyHandleTimeout(st1.(sched := s2), taskInfo) == [TimedOut(taskInfo)]
  {
  }

  /**
   * A timeout notice whose first accepting row is the built-in method is
   * reported exactly when a wait is held and its timer was not cancelled.
   */
  lemma TimeoutNoticeReachesBuiltIn(h: Hierarchy, st: EasyState, taskInfo: int)
    requires st.table.Ok? && Lookup(h, st.table.value, TimeoutMsgClass) == Some(TimeoutHandler)
    ensures EasyOnReceive(h, st.table.value, TimeoutMsg(taskInfo)) == Invoke(TimeoutHandler, TimeoutMsg(taskInfo))
    ensures EasyReceive(h, st, TimeoutMsg(taskInfo)) == [TimedOut(taskInfo)]
      <==> st.handle.Some? && !IsCancelled(st.sched, st.handle.value)
  {
  }

  /**
   * A `doneWaiting` before the wait's timeout fires silences it: the timer
   * never delivers, and a notice of that wait is not reported.
   */
  lemma DoneWaitingSilencesTimeout(st: EasyState, taskInfo: int, n: nat)
    ensures var st1 := EasyStartWaiting(st, taskInfo);
      var st2 := EasyDoneWaiting(st1);
      && st2.Ok?
      && FireTimes(st2.value.sched, st1.handle.value, n).1 == 0
      && EasyHandleTimeout(st2.value, taskInfo) == []
  {
    var st1 := EasyStartWaiting(st, taskInfo);
    CancelledNeverDelivers(st1.sched, st1.handle.value, n);
  }

  /**
   * A notice that fired before `doneWaiting` is still reported: cancelling a
   * spent timer does nothing, so the held handle does not count as cancelled.
   */
  lemma QueuedTimeoutStillReported(st: EasyState, taskInfo: int)
    ensures var st1 := EasyStartWaiting(st, taskInfo);
      var (s2, d) := Expire(st1.sched, st1.handle.value);
      var st3 := EasyDoneWaiting(st1.(sched := s2));
      && d == Some(Delivery(Some(st.self), TimeoutMsg(taskInfo), Some(st.self)))
      && st3.Ok?
      && EasyHandleTimeout(st3.value, taskInfo) == [TimedOut(taskInfo)]
  {
  }

  /**
   * Starting a second wait leaves the first one's timeout armed, and when it
   * fires it is reported with the first wait's task info while the second
   * wait is still outstanding.
   */
  lemma StaleTimeoutReported(st: EasyState, info1: int, info2: int)
    ensures var st1 := EasyStartWaiting(st, info1);
      var st2 := EasyStartWaiting(st1, info2);
      var (s3, d) := Expire(st2.sched, st1.handle.value);
      && d == Some(Delivery(Some(st.self), TimeoutMsg(info1), Some(st.self)))
      && IsPending(s3, st2.handle.value)
      && EasyHandleTimeout(st2.(sched := s3), info1) == [TimedOut(info1)]
  {
    var st1 := EasyStartWaiting(st, info1);
    var st2 := EasyStartWaiting(st1, info2);
    assert st2.sched.timers[st1.handle.value] == st1.sched.timers[st1.handle.value];
  }
}
