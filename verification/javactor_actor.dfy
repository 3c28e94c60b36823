/**
 * The actor that hosts a plain object ("javactor"): the per-class metadata
 * cache filled on first start, the message routing of `onReceive`, the
 * `request` operation of its context, and the lifecycle hooks.
 */
module JavactorActor {
  import opened Base
  import opened Types
  import opened Messages
  import opened Scheduling
  import opened HandlerTable
  import opened SourceOrder
  import opened Context
  import opened Supervision
  import opened Builders
  import opened Correlator

  /** What reflection finds on a javactor class. */
  datatype JavactorClass = JavactorClass(
    /** the `@Handle` methods, in the order the class reports its methods */
    handlers: seq<HandlerDecl>,
    /** the `@OnException` methods, in the same order */
    onException: seq<HandlerDecl>,
    /** what the first method returning a strategy record returns, if there is one */
    strategyInfo: Option<StrategyInfo>,
    preStart: seq<MethodId>,
    preRestart: seq<MethodId>,
    postRestart: seq<MethodId>,
    postStop: seq<MethodId>)

  /** `JavactorInfo`: the cached metadata of one javactor class. */
  datatype JavactorInfo = JavactorInfo(
    handlers: seq<Entry>,
    strategy: StrategyInfo,
    onException: seq<Entry>)

  /** `javactorInfoByJavactorType`, shared by every actor instance. */
  type Cache = map<TypeId, JavactorInfo>

  /** The state of one hosting actor instance. */
  datatype ActorState = ActorState(
    /** the class of the hosted object */
    cls: TypeId,
    self: ActorId,
    /** whether to subscribe to the event bus for every handled class (as the actor's builder set it) */
    subscribe: bool,
    requests: Requests,
    /** the timers this actor has armed */
    sched: Scheduler)

  /**
   * The metadata of a class, computed in the order the code computes it: the
   * `@Handle` table (which can fail on a method without parameter), then the
   * `@OnException` table (which can fail on a method without parameter or a
   * repeated class). With no strategy method the default record is used.
   */
  function BuildInfo(h: Hierarchy, c: JavactorClass): (r: Result<JavactorInfo>)
    ensures BuildTable(h, c.handlers).Err? ==> r == Err(BuildTable(h, c.handlers).error)
    ensures BuildTable(h, c.handlers).Ok? && DeclaredTable(c.onException).Err? ==>
      r == Err(DeclaredTable(c.onException).error)
    ensures r.Ok? <==> AllHaveParams(c.handlers) && DeclaredTable(c.onException).Ok?
    ensures r.Ok? ==>
      && SpecificFirst(h, r.value.handlers)
      && multiset(r.value.handlers) == multiset(Entries(c.handlers))
      && r.value.onException == Entries(c.onException)
      && r.value.strategy == c.strategyInfo.GetOr(DefaultStrategyInfo)
  {
    match BuildTable(h, c.handlers)
    case Err(e) => Err(e)
    case Ok(t) =>
      match DeclaredTable(c.onException)
      case Err(e) => Err(e)
      case Ok(x) => Ok(JavactorInfo(t, c.strategyInfo.GetOr(DefaultStrategyInfo), x))
  }

  /**
   * The metadata as the code computes it, with the `@Handle` table sorted by
   * the source's comparator: it fails exactly as `BuildInfo` does and
   * otherwise differs from it at most in the order of the `@Handle` rows.
   */
  function BuildInfoAsWritten(h: Hierarchy, c: JavactorClass): (r: Result<JavactorInfo>)
    ensures r.Ok? <==> BuildInfo(h, c).Ok?
    ensures r.Err? ==> r.error == BuildInfo(h, c).error
    ensures r.Ok? ==>
      && multiset(r.value.handlers) == multiset(BuildInfo(h, c).value.handlers)
      && r.value.onException == BuildInfo(h, c).value.onException
      && r.value.strategy == BuildInfo(h, c).value.strategy
  {
    match SourceTable(h, c.handlers)
    case Err(e) => Err(e)
    case Ok(t) =>
      match DeclaredTable(c.onException)
      case Err(e) => Err(e)
      case Ok(x) => Ok(JavactorInfo(t, c.strategyInfo.GetOr(DefaultStrategyInfo), x))
  }

  /** The cache holds, for each class in it, exactly what building that class's metadata gives. */
  ghost predicate Consistent(h: Hierarchy, prog: TypeId -> JavactorClass, cache: Cache) {
    forall k | k in cache :: BuildInfo(h, prog(k)) == Ok(cache[k])
  }

  /** Every annotated hook, in order (`postStop`). */
  function RunAll(hooks: seq<MethodId>): (r: seq<Effect>)
    ensures |r| == |hooks|
    ensures forall i | 0 <= i < |hooks| :: r[i] == RunHook(hooks[i])
  {
    if |hooks| == 0 then [] else [RunHook(hooks[0])] + RunAll(hooks[1..])
  }

  /** `callAnnotatedMethod`: only the first annotated hook found runs (`preStart`, `preRestart`, `postRestart`). */
  function RunFirst(hooks: seq<MethodId>): (r: seq<Effect>)
    ensures |r| <= 1 && (|r| == 0 <==> |hooks| == 0)
    ensures r == RunAll(hooks)[..|r|]
  {
    if |hooks| == 0 then [] else [RunHook(hooks[0])]
  }

  /** The outcome of a start: the cache afterwards, what the actor did, and whether it built metadata. */
  datatype Started = Started(cache: Cache, effects: seq<Effect>, built: bool)

  /**
   * The effects of a start with metadata `info`: one subscription per row of
   * its table, in table order, when the actor subscribes, then the first
   * start hook if the class has one.
   */
  ghost predicate StartEffects(a: ActorState, c: JavactorClass, info: JavactorInfo, effects: seq<Effect>) {
    var n := if a.subscribe then |info.handlers| else 0;
    && |effects| == n + (if |c.preStart| == 0 then 0 else 1)
    && (forall i | 0 <= i < n :: effects[i] == Subscribe(a.self, info.handlers[i].key))
    && (|c.preStart| > 0 ==> effects[n] == RunHook(c.preStart[0]))
  }

  /** The part of `preStart` after the metadata is known: store it, subscribe, run the hook. */
  function StartWith(a: ActorState, c: JavactorClass, cache: Cache, info: JavactorInfo, built: bool): (r: Started)
    ensures r.built == built
    ensures r.cache.Keys == cache.Keys + {a.cls} && r.cache[a.cls] == info
    ensures forall k | k in cache && k != a.cls :: r.cache[k] == cache[k]
    ensures StartEffects(a, c, info, r.effects)
  {
    var subs := if a.subscribe then Subscriptions(a.self, info.handlers) else [];
    Started(cache[a.cls := info], subs + RunFirst(c.preStart), built)
  }

  /**
   * `preStart` around its cache guard: when the guard says the class is
   * cached its metadata is reused and the cache is left as it is; otherwise
   * the metadata is built and stored, and a build error stops the start.
   * Either way the actor then subscribes (if configured) to every class of
   * the table and runs the first `@PreStart` hook.
   */
  function GuardedStart(h: Hierarchy, prog: TypeId -> JavactorClass, cache: Cache, a: ActorState, cached: bool)
    : (r: Result<Started>)
    requires cached ==> a.cls in cache
    ensures cached ==> r.Ok? && !r.value.built && r.value.cache == cache
    ensures !cached ==> (r.Ok? <==> BuildInfo(h, prog(a.cls)).Ok?)
    ensures !cached && r.Err? ==> r.error == BuildInfo(h, prog(a.cls)).error
    ensures r.Ok? ==> r.value.cache.Keys == cache.Keys + {a.cls}
    ensures !cached && r.Ok? ==>
      && r.value.built
      && r.value.cache[a.cls] == BuildInfo(h, prog(a.cls)).value
      && forall k | k in cache && k != a.cls :: r.value.cache[k] == cache[k]
    ensures r.Ok? ==> StartEffects(a, prog(a.cls), r.value.cache[a.cls], r.value.effects)
  {
    if cached then
      assert cache[a.cls := cache[a.cls]] == cache;
      Ok(StartWith(a, prog(a.cls), cache, cache[a.cls], false))
    else
      match BuildInfo(h, prog(a.cls))
      case Err(e) => Err(e)
      case Ok(info) => Ok(StartWith(a, prog(a.cls), cache, info, true))
  }

  /**
   * `preStart` as intended: the metadata is built only when the class is not
   * cached yet. The effects are the subscriptions for the class's table and
   * its first start hook.
   */
  function PreStart(h: Hierarchy, prog: TypeId -> JavactorClass, cache: Cache, a: ActorState): (r: Result<Started>)
    ensures a.cls in cache ==> r.Ok? && !r.value.built && r.value.cache == cache
    ensures a.cls !in cache ==> (r.Ok? <==> BuildInfo(h, prog(a.cls)).Ok?) && (r.Ok? ==> r.value.built)
    ensures a.cls !in cache && r.Err? ==> r.error == BuildInfo(h, prog(a.cls)).error
    ensures r.Ok? ==> a.cls in r.value.cache && r.value.cache.Keys == cache.Keys + {a.cls}
    ensures r.Ok? ==> StartEffects(a, prog(a.cls), r.value.cache[a.cls], r.value.effects)
  {
    GuardedStart(h, prog, cache, a, a.cls in cache)
  }

  /** A start keeps a consistent cache consistent: what it stores is what building the class gives. */
  lemma PreStartKeepsConsistent(h: Hierarchy, prog: TypeId -> JavactorClass, cache: Cache, a: ActorState)
    requires Consistent(h, prog, cache) && PreStart(h, prog, cache, a).Ok?
    ensures Consistent(h, prog, PreStart(h, prog, cache, a).value.cache)
  {
    if a.cls !in cache {
      StoreKeepsConsistent(h, prog, cache, a.cls, BuildInfo(h, prog(a.cls)).value);
    }
  }

  /** Storing what building a class gives keeps the cache consistent. */
  lemma StoreKeepsConsistent(h: Hierarchy, prog: TypeId -> JavactorClass, cache: Cache, k: TypeId, info: JavactorInfo)
    requires Consistent(h, prog, cache) && BuildInfo(h, prog(k)) == Ok(info)
    ensures Consistent(h, prog, cache[k := info])
  {
  }

  /**
   * `javactorInfoByJavactorType.contains(cls)`: the legacy `contains` of a
   * concurrent hash map tests the VALUES, and no metadata record equals a
   * class object, so it never holds.
   */
  predicate ContainsAsWritten(cache: Cache, cls: TypeId) {
    false
  }

  /** `preStart` as written: the `contains` guard never holds, so every start builds and stores the metadata. */
  function PreStartAsWritten(h: Hierarchy, prog: TypeId -> JavactorClass, cache: Cache, a: ActorState): (r: Result<Started>)
    ensures r.Ok? ==> r.value.built
    ensures r.Ok? <==> BuildInfo(h, prog(a.cls)).Ok?
  {
    GuardedStart(h, prog, cache, a, ContainsAsWritten(cache, a.cls))
  }

  /**
   * While the cache is consistent the rebuild is invisible: both versions of
   * `preStart` leave the same cache and do the same things; they differ only
   * in whether the reflection scan ran again.
   */
  lemma PreStartVersionsAgree(h: Hierarchy, prog: TypeId -> JavactorClass, cache: Cache, a: ActorState)
    requires Consistent(h, prog, cache)
    ensures PreStart(h, prog, cache, a).Ok? <==> PreStartAsWritten(h, prog, cache, a).Ok?
    ensures PreStart(h, prog, cache, a).Ok? ==>
      && PreStart(h, prog, cache, a).value.cache == PreStartAsWritten(h, prog, cache, a).value.cache
      && PreStart(h, prog, cache, a).value.effects == PreStartAsWritten(h, prog, cache, a).value.effects
  {
    if a.cls in cache {
      assert BuildInfo(h, prog(a.cls)) == Ok(cache[a.cls]);
    }
  }

  /**
   * After a first start that builds a class's metadata, a second instance of
   * the class sees the same metadata without building it again, where the
   * code as written builds it on every start.
   */
  lemma SecondStartReusesMetadata(h: Hierarchy, prog: TypeId -> JavactorClass, cache: Cache,
                                  a1: ActorState, a2: ActorState)
    requires a1.cls == a2.cls && a1.cls !in cache && BuildInfo(h, prog(a1.cls)).Ok?
    ensures var c1 := PreStart(h, prog, cache, a1).value.cache;
      && PreStart(h, prog, c1, a2).Ok?
      && !PreStart(h, prog, c1, a2).value.built
      && PreStart(h, prog, c1, a2).value.cache[a2.cls] == c1[a1.cls]
      && PreStartAsWritten(h, prog, c1, a2).Ok?
      && PreStartAsWritten(h, prog, c1, a2).value.built
  {
  }

  /**
   * The key search of the sorted map: it reports only a row whose key the
   * map's comparator calls equal to `cls`.
   */
  function KeySearch(h: Hierarchy, t: seq<Entry>, cls: TypeId): (r: Option<MethodId>)
    ensures r.None?
  {
    if |t| == 0 then None
    else
      var e := t[0];
      if Compare(h, e.key, cls) == 0 then Some(e.handler) else KeySearch(h, t[1..], cls)
  }

  /**
   * `getCachedHandleMethodForClass`: the map's own key lookup, then the scan
   * for the first row accepting `cls`. The comparator never answers 0, so
   * the key lookup never hits and the scan decides.
   */
  function HandleMethodFor(h: Hierarchy, t: seq<Entry>, cls: TypeId): (r: Option<MethodId>)
    ensures r == Lookup(h, t, cls)
  {
    match KeySearch(h, t, cls)
    case Some(m) => Some(m)
    case None => Lookup(h, t, cls)
  }

  /** The message handed on: the runtime's stop notice becomes the library's. */
  function Delivered(m: Msg): (r: Msg)
    ensures m.AkkaTerminated? ==> r == Terminated
    ensures !m.AkkaTerminated? ==> r == m
  {
    if m.AkkaTerminated? then Terminated else m
  }

  /**
   * `onReceive`: first stops waiting for a response of exactly the message's
   * class; a PostMsg is re-published on the event bus; anything else, after
   * the stop notice is translated, goes to the first row that accepts its
   * class, or is reported unhandled.
   */
  function OnReceive(h: Hierarchy, info: JavactorInfo, a: ActorState, msg: Msg): (r: (ActorState, Effect))
    ensures (r.0.requests, r.0.sched) == DoneWaitingFor(a.requests, a.sched, ClassOf(msg))
    ensures r.0.cls == a.cls && r.0.self == a.self && r.0.subscribe == a.subscribe
    ensures msg.PostMsg? <==> r.1.Publish?
    ensures msg.PostMsg? ==> r.1 == Publish(msg.payload)
    ensures !msg.PostMsg? ==> var m := Delivered(msg);
      && (r.1 == Unhandled(m) <==> forall j | 0 <= j < |info.handlers| :: !Matches(h, info.handlers[j], ClassOf(m)))
      && (r.1.Invoke? ==>
            && r.1.arg == m
            && exists i: nat :: IsFirstMatch(h, info.handlers, ClassOf(m), i) && info.handlers[i].handler == r.1.handler)
      && (r.1.Invoke? || r.1.Unhandled?)
  {
    var (reqs, s) := DoneWaitingFor(a.requests, a.sched, ClassOf(msg));
    var a' := a.(requests := reqs, sched := s);
    if msg.PostMsg? then (a', Publish(msg.payload))
    else
      var m := Delivered(msg);
      match HandleMethodFor(h, info.handlers, ClassOf(m))
      case Some(handler) => (a', Invoke(handler, m))
      case None => (a', Unhandled(m))
  }

  /**
   * With PostMsg and the runtime's `Terminated` final, telling the messages
   * apart by constructor is the `instanceof` test of the code: a message is
   * re-published exactly when it is an instance of PostMsg, and translated
   * exactly when it is an instance of the runtime's `Terminated`.
   */
  lemma InterceptionIsInstanceof(h: Hierarchy, info: JavactorInfo, a: ActorState, msg: Msg)
    requires IsFinal(h, PostMsgClass) && IsFinal(h, AkkaTerminatedClass)
    ensures OnReceive(h, info, a, msg).1.Publish? <==> IsSubtype(h, ClassOf(msg), PostMsgClass)
    ensures msg.AkkaTerminated? <==> IsSubtype(h, ClassOf(msg), AkkaTerminatedClass)
  {
    if ClassOf(msg) != PostMsgClass {
      FinalHasNoSubtype(h, ClassOf(msg), PostMsgClass);
    }
    if ClassOf(msg) != AkkaTerminatedClass {
      FinalHasNoSubtype(h, ClassOf(msg), AkkaTerminatedClass);
    }
  }

  /**
   * A `@Handle` method for `Object` accepts every message, so it serves both
   * as the response handler and as the timeout handler of a request.
   */
  lemma ObjectHandlerServesRequests(a: ActorState, b: SendBuilder, requestInfo: int, taskInfo: int)
    requires Fire(b).Ok?
    ensures var info := JavactorInfo([Entry(ObjectClass, 1)], DefaultStrategyInfo, []);
      && Request(ObjectHierarchy, info, a, b, ReplyClass, requestInfo).Ok?
      && OnReceive(ObjectHierarchy, info, a, TimeoutMsg(taskInfo)).1 == Invoke(1, TimeoutMsg(taskInfo))
  {
    var h := ObjectHierarchy;
    var t := [Entry(ObjectClass, 1)];
    assert IsSubtype(h, ObjectClass, ObjectClass);
    assert IsSubtype(h, ReplyClass, ObjectClass) by {
      assert ObjectClass in h[ReplyClass].supers;
    }
    assert IsSubtype(h, TimeoutMsgClass, ObjectClass) by {
      assert ObjectClass in h[TimeoutMsgClass].supers;
    }
    assert IsFirstMatch(h, t, ReplyClass, 0) && IsFirstMatch(h, t, TimeoutMsgClass, 0);
  }

  /**
   * `request(response, info)` on a send builder: refused when no handler
   * accepts the response class or the timeout notice; otherwise the message
   * is fired, and only if that succeeds a timeout is armed under the response
   * class, with the builder's timeout or two minutes. A refused request
   * changes nothing.
   */
  function Request(h: Hierarchy, info: JavactorInfo, a: ActorState, b: SendBuilder,
                   response: TypeId, requestInfo: int): (r: Result<(ActorState, Effect)>)
    ensures Lookup(h, info.handlers, response).None? ==> r == Err(NoResponseHandler(response))
    ensures Lookup(h, info.handlers, response).Some? && Lookup(h, info.handlers, TimeoutMsgClass).None? ==>
      r == Err(NoTimeoutHandler)
    ensures Lookup(h, info.handlers, response).Some? && Lookup(h, info.handlers, TimeoutMsgClass).Some? ==>
      (r.Err? <==> Fire(b).Err?) && (r.Err? ==> r.error == Fire(b).error)
    ensures r.Ok? ==>
      && r.value.1 == Fire(b).value
      && (r.value.0.requests, r.value.0.sched)
         == StartWaitingFor(a.requests, a.sched, a.self, response, b.timeout.GetOr(DefaultRequestTimeout), requestInfo)
      && r.value.0.cls == a.cls && r.value.0.self == a.self && r.value.0.subscribe == a.subscribe
  {
    if HandleMethodFor(h, info.handlers, response).None? then Err(NoResponseHandler(response))
    else if HandleMethodFor(h, info.handlers, TimeoutMsgClass).None? then Err(NoTimeoutHandler)
    else
      match Fire(b)
      case Err(e) => Err(e)
      case Ok(eff) =>
        var timeout := b.timeout.GetOr(DefaultRequestTimeout);
        var (reqs, s) := StartWaitingFor(a.requests, a.sched, a.self, response, timeout, requestInfo);
        Ok((a.(requests := reqs, sched := s), eff))
  }

  /** A request accepted with no timeout set arms a two-minute timeout to the actor itself. */
  lemma RequestDefaultTimeout(h: Hierarchy, info: JavactorInfo, a: ActorState, b: SendBuilder,
                              response: TypeId, requestInfo: int)
    requires b.timeout.None?
    requires Request(h, info, a, b, response, requestInfo).Ok?
    ensures var a' := Request(h, info, a, b, response, requestInfo).value.0;
      var t := a'.sched.timers[a'.requests[response]];
      && Nanos(t.delay) == Nanos(Duration(2, Minutes))
      && t.to == Some(a.self) && t.msg == TimeoutMsg(requestInfo) && t.period.None?
  {
    DefaultRequestTimeoutIsTwoMinutes();
  }

  /**
   * A response of exactly the requested class, received after an accepted
   * request, removes the request and silences its timeout for good.
   */
  lemma ResponseCancelsRequest(h: Hierarchy, info: JavactorInfo, a: ActorState, b: SendBuilder,
                               response: TypeId, requestInfo: int, reply: Msg, n: nat)
    requires Request(h, info, a, b, response, requestInfo).Ok?
    requires ClassOf(reply) == response
    ensures var a1 := Request(h, info, a, b, response, requestInfo).value.0;
      var a2 := OnReceive(h, info, a1, reply).0;
      && response !in a2.requests
      && FireTimes(a2.sched, a1.requests[response], n).1 == 0
  {
    var a1 := Request(h, info, a, b, response, requestInfo).value.0;
    ResponseSilencesTimeout(a.requests, a.sched, a.self, response,
                            b.timeout.GetOr(DefaultRequestTimeout), requestInfo, n);
  }

  /**
   * Without a response the timeout notice reaches the actor once; it is
   * handed to the timeout handler with the request's task info, and the
   * request stays recorded (only a response removes it).
   */
  lemma TimeoutReachesHandler(h: Hierarchy, info: JavactorInfo, a: ActorState, b: SendBuilder,
                              response: TypeId, requestInfo: int)
    requires response != TimeoutMsgClass
    requires Request(h, info, a, b, response, requestInfo).Ok?
    ensures var a1 := Request(h, info, a, b, response, requestInfo).value.0;
      var (s2, d) := Expire(a1.sched, a1.requests[response]);
      && d == Some(Delivery(Some(a.self), TimeoutMsg(requestInfo), Some(a.self)))
      && var r := OnReceive(h, info, a1.(sched := s2), TimeoutMsg(requestInfo));
      && r.1.Invoke? && Some(r.1.handler) == Lookup(h, info.handlers, TimeoutMsgClass)
      && r.1.arg == TimeoutMsg(requestInfo)
      && response in r.0.requests
  {
    var a1 := Request(h, info, a, b, response, requestInfo).value.0;
    NoResponseOneTimeout(a.requests, a.sched, a.self, response,
                         b.timeout.GetOr(DefaultRequestTimeout), requestInfo, 1);
    var (s2, d) := Expire(a1.sched, a1.requests[response]);
    var r := OnReceive(h, info, a1.(sched := s2), TimeoutMsg(requestInfo));
    var i: nat :| IsFirstMatch(h, info.handlers, TimeoutMsgClass, i) && info.handlers[i].handler == r.1.handler;
    assert Find(h, info.handlers, TimeoutMsgClass) == Some(i) by {
      var j := Find(h, info.handlers, TimeoutMsgClass).value;
      FirstMatchUnique(h, info.handlers, TimeoutMsgClass, i, j);
    }
  }

  /** The runtime's stop notice is never handed on as such: handlers see the library's notice. */
  lemma TerminatedTranslated(h: Hierarchy, info: JavactorInfo, a: ActorState, who: ActorId)
    ensures var r := OnReceive(h, info, a, AkkaTerminated(who)).1;
      && (r.Invoke? ==> r.arg == Terminated)
      && (r.Unhandled? ==> r.msg == Terminated)
      && (r.Invoke? <==> Lookup(h, info.handlers, TerminatedClass).Some?)
  {
  }

  /** A class without a strategy method is supervised one-for-one with unbounded retries. */
  lemma DefaultSupervision(h: Hierarchy, c: JavactorClass)
    requires c.strategyInfo.None? && BuildInfo(h, c).Ok?
    ensures StrategyOf(BuildInfo(h, c).value.strategy) == OneForOneStrategy(-1, 106215, Some(Days), true)
  {
    DefaultStrategyIsOneForOne();
  }

  /**
   * The context's `unhandled(msg)` as written: its body's call `unhandled(msg)`
   * names the context's own method, so every call makes another one until
   * the `depth` frames left on the stack run out. However deep the stack,
   * it never reaches the actor.
   */
  function ContextUnhandledAsWritten(msg: Msg, depth: nat): (r: Result<Effect>)
    ensures r == Err(StackOverflow)
    decreases depth
  {
    if depth == 0 then Err(StackOverflow) else ContextUnhandledAsWritten(msg, depth - 1)
  }

  /** The context's `unhandled(msg)` as intended: the hosting actor's own `unhandled`. */
  function ContextUnhandled(msg: Msg): (r: Result<Effect>)
    ensures r.Ok? && r.value.Unhandled? && r.value.msg == msg
  {
    Ok(Unhandled(msg))
  }

  /**
   * A handler that gives up on a message through the intended context call
   * has the same effect as the actor finding no row for it.
   */
  lemma ContextUnhandledMatchesDispatch(h: Hierarchy, info: JavactorInfo, a: ActorState, msg: Msg)
    requires !msg.PostMsg? && !msg.AkkaTerminated?
    requires forall j | 0 <= j < |info.handlers| :: !Matches(h, info.handlers[j], ClassOf(msg))
    ensures ContextUnhandled(msg) == Ok(OnReceive(h, info, a, msg).1)
  {
  }
}
