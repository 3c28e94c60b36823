# javactor core, modelled in Dafny

javactor lets a plain Java object (a "javactor") act as an Akka actor. Its
methods are marked by annotations: `@Handle` methods receive messages,
`@OnException` methods choose a supervisor directive, and a method returning a
`SupervisorStrategyInfo` configures supervision. A hosting actor,
`JavactorUntypedActor`, does the rest. On start it builds a per-class table
of handler methods and stores it in a cache shared by all instances. The
intent is a table ordered from most to least specific parameter type, built
once per class. The code as written falls short of both (see "## Findings"):
its sort can put a supertype's row before a subtype's, and its cache guard
never holds, so every start rebuilds the table. The model has both
versions of each: the as-written sort (`SourceOrder.SourceTable`, used by
`JavactorActor.BuildInfoAsWritten`) beside the corrected build, and the
as-written cache guard (`JavactorActor.PreStartAsWritten`) beside the corrected
one. The start, dispatch and request operations run over the corrected
table. The actor routes every incoming message to the first row whose type
accepts the message, republishes `PostMsg` envelopes on the event bus, and
translates Akka's `Terminated` notice into the library's own. Through its
context, a javactor sends (`fire`, `fireAndForget`), schedules (`go`) and
requests. A request arms a timeout that a response of exactly the requested
class cancels. `EasyUntypedActor` is an older base class with a table in
declaration order and a single one-minute wait. `Timeouter` is a helper that
keeps at most one timeout outstanding.

The model is pure functions over immutable data:

- `Types`: classes are numbered and form a hierarchy. `Hierarchy` gives each
  class its direct supertypes and a rank, and every direct supertype ranks
  below its subtype. The numbering is free, so user classes such as `Object`
  or `Throwable` can sit above the library's classes (`ObjectHierarchy`).
  `IsSubtype` is `isAssignableFrom`, proved reflexive, transitive and
  antisymmetric.
- `Messages`: the message kinds the code tells apart (user messages,
  `PostMsg`, both stop notices, `TimeoutMsg`), durations, and the effects a
  step has on the outside world (publish, tell, subscribe, invoke a method,
  unhandled, run a hook, report a timeout).
- `HandlerTable`: tables, the first-match lookup, the specificity-ordered
  build of the `@Handle` table, and the declaration-ordered Guava
  `ImmutableMap` tables.
- `SourceOrder`: the `@Handle` table as the code sorts it (see Findings).
- `Scheduling`: a log of timers that are pending, cancelled or fired. Arming,
  cancelling and the runtime firing a timer.
- `Builders`: the send and schedule builders of the context.
- `Context`: the strategy record, its builder, the enums, and the default
  request timeout.
- `Supervision`: the directive map, `myDecider`, and `supervisorStrategy`.
- `Correlator`: the `requests` map, with `startWaitingFor` and
  `doneWaitingFor`.
- `JavactorActor`:
  - the metadata cache and `preStart`, in both the as-written and the
    corrected version;
  - `getCachedHandleMethodForClass`;
  - `onReceive`, `request`, and the lifecycle hooks.
- `Timeouter`, `EasyActor`: the helper and the older base class.

User code is outside the model. The methods a class declares, and their order,
are inputs. What a handler does is an `Invoke` effect. What an `@OnException`
method answers is a function parameter.

Four behaviours follow the code where a reader might expect otherwise:

- The `@OnException` table is a plain `ImmutableMap`. The decider takes the
  first row that accepts the failure, in declaration order, not the most
  specific one (`Supervision.BroadHandlerDeclaredFirstDecides`).
- A second request for the same response class overwrites the first timeout's
  handle without cancelling that timeout. The first timeout is still delivered
  later (`Correlator.SupersededTimeoutStaysArmed`). The older base class
  behaves the same way (`EasyActor.StaleTimeoutReported`).
- In the older base class, `doneWaiting` silences only a timeout that has not
  fired yet. A notice that fired before it is still reported, because
  cancelling a spent timer does not mark it cancelled
  (`EasyActor.QueuedTimeoutStillReported`).
- The sorted map's comparator never answers 0, which has two consequences:
  - the map's exact-key lookup never hits, so the scan always decides
    (`JavactorActor.HandleMethodFor`);
  - the map's builder never rejects two `@Handle` methods with the same
    parameter type. Both rows are kept, and the first in table order wins.

## Model

| member | source | states |
|---|---|---|
| Types.SubtypeTransitive | src/main/java/javactor/akka/JavactorUntypedActor.java:70-73 | `isAssignableFrom` is transitive, which is what ordering a handler table by it relies on |
| Types.SubtypeAntisymmetric | src/main/java/javactor/akka/JavactorUntypedActor.java:70-73 | two classes each assignable from the other are the same class |
| Types.StrictSubtypeTransitive | src/main/java/javactor/akka/JavactorUntypedActor.java:70-73 | strict subtyping is transitive, so "specific first" is a consistent order |
| HandlerTable.Find | src/main/java/javactor/akka/JavactorUntypedActor.java:614-633 | the scan answers the first row whose type accepts the class, and answers none exactly when no row accepts it |
| HandlerTable.Lookup | src/main/java/javactor/akka/JavactorUntypedActor.java:614-633 | the method returned is that of the first accepting row; null exactly when no row accepts the class |
| HandlerTable.FindIsMostSpecific | src/test/java/javactor/akka/JavactorUntypedActorTest.java:305-371 | in a specificity-ordered table, no other accepting row is a strict subtype of the row picked |
| HandlerTable.SubtypeRowWins | src/test/java/javactor/akka/JavactorUntypedActorTest.java:305-371 | with rows for T1 and its strict supertype T2, a message of T1 or of a subtype of T1 never reaches T2's row |
| HandlerTable.FindIsLeastInChain | src/test/java/javactor/akka/JavactorUntypedActorTest.java:339-371 | under single inheritance, the row picked is a subtype of every row that accepts the message |
| HandlerTable.ExactRowFound | src/main/java/javactor/akka/JavactorUntypedActor.java:614-633 | in a specificity-ordered table a class with its own row is handled by a row of exactly that class, so the exact-key lookup and the scan agree |
| HandlerTable.Insert | src/main/java/javactor/akka/JavactorUntypedActor.java:552-570 | inserting a row keeps the table specificity-ordered and adds exactly that row, just before the first row of a strict supertype of its class (or at the end), with the other rows in their old order |
| HandlerTable.Entries | src/main/java/javactor/akka/JavactorUntypedActor.java:565-566 | each annotated method contributes one row keyed by its first parameter type, in discovery order |
| HandlerTable.Subscriptions | src/main/java/javactor/akka/JavactorUntypedActor.java:477-483 | one event-bus subscription per row, for that row's class, in table order |
| HandlerTable.BuildTable | src/main/java/javactor/akka/JavactorUntypedActor.java:552-570 | the build fails exactly when some method has no parameter, naming the first such one; otherwise the table holds exactly the declared rows and is specificity-ordered |
| HandlerTable.FirstWithoutParams | src/main/java/javactor/akka/JavactorUntypedActor.java:561-564 | it finds the first declared method without a parameter |
| HandlerTable.RepeatedKey | src/main/java/javactor/akka/JavactorUntypedActor.java:511-521 | a key shared by two rows is found exactly when the keys are not distinct |
| HandlerTable.DeclaredTable | src/main/java/javactor/akka/JavactorUntypedActor.java:511-521 | the `@OnException` map fails on a method without a parameter (the first one), or otherwise on a repeated class; if it succeeds its rows keep declaration order |
| HandlerTable.BuildTableAddsRowBeforeSuper | src/main/java/javactor/akka/JavactorUntypedActor.java:556-569 | building from one more method keeps the table built so far in order and puts the new row just before the first row of a strict supertype of its class, or at the end |
| SourceOrder.CompareNeverZero | src/main/java/javactor/akka/JavactorUntypedActor.java:70-73 | the comparator never reports two classes equal, not even a class and itself |
| SourceOrder.CompareUnrelatedBothLess | src/main/java/javactor/akka/JavactorUntypedActor.java:70-73 | for unrelated classes the comparator answers -1 in both directions |
| SourceOrder.BinarySort | src/main/java/javactor/akka/JavactorUntypedActor.java:554-570 | the library's binary insertion sort permutes the rows |
| SourceOrder.LibrarySort | src/main/java/javactor/akka/JavactorUntypedActor.java:554-570 | the sort with the source comparator permutes the rows |
| SourceOrder.SourceTable | src/main/java/javactor/akka/JavactorUntypedActor.java:552-570 | the as-written build fails exactly as the corrected one does and otherwise holds exactly the declared rows; it does not establish specificity order |
| SourceOrder.SourceTableMisorders | src/main/java/javactor/akka/JavactorUntypedActor.java:66-74 | methods for B, C and A (B extends A, C unrelated) sort to A, C, B, and a B message goes to A's method |
| SourceOrder.BuildTableRoutesToSubtype | src/test/java/javactor/akka/JavactorUntypedActorTest.java:305-320 | for the same methods the ordered build gives B, C, A, and the B message goes to B's own method |
| Scheduling.Arm | src/main/java/javactor/akka/JavactorUntypedActor.java:279-290 | arming adds one pending timer with the given settings under a fresh handle and leaves every other timer alone |
| Scheduling.Cancel | src/main/java/javactor/akka/JavactorUntypedActor.java:309-313 | after cancelling, the timer is not pending; only a pending timer changes, and no other timer does |
| Scheduling.Expire | src/main/java/javactor/akka/JavactorUntypedActor.java:282-289 | a timer delivers its message exactly when pending; a one-shot is spent afterwards, a periodic one stays pending; a timer that is not pending is left alone, and firing never marks a timer cancelled |
| Scheduling.CancelIdempotent | src/main/java/javactor/akka/JavactorUntypedActor.java:309-313 | cancelling twice is cancelling once |
| Scheduling.CancelledNeverDelivers | src/main/java/javactor/akka/JavactorUntypedActor.java:309-313 | a cancelled timer delivers nothing, however often it is fired |
| Scheduling.FireTimes | src/main/java/javactor/akka/JavactorUntypedActor.java:282-289 | n firings deliver at most n messages |
| Scheduling.FireTimesOfIdle | src/main/java/javactor/akka/JavactorUntypedActor.java:282-289 | a timer that is not pending delivers nothing, and firing it changes nothing |
| Scheduling.OneShotDeliversAtMostOnce | src/main/java/javactor/akka/JavactorUntypedActor.java:282-285 | a timer without period delivers at most once |
| Builders.NewSend | src/main/java/javactor/akka/JavactorUntypedActor.java:164-169 | a new send has no target, the actor itself as sender, no timeout, and no explicit sender |
| Builders.Fire | src/main/java/javactor/akka/JavactorUntypedActor.java:202-213 | with no target it publishes exactly when no sender was set explicitly and is refused exactly when one was; with a target it tells the target with the builder's sender |
| Builders.FireAndForget | src/main/java/javactor/akka/JavactorUntypedActor.java:193-200 | it is refused when a timeout was set and otherwise is `fire` |
| Builders.SendFromDefaultsToSelf | src/main/java/javactor/akka/JavactorUntypedActor.java:164-184 | a targeted send with no `from` carries the actor itself as sender |
| Builders.PublishRefusesExplicitSender | src/main/java/javactor/akka/JavactorUntypedActor.java:204-208 | an untargeted send with an explicit sender is refused by both fire operations |
| Builders.NewSchedule | src/main/java/javactor/akka/JavactorUntypedActor.java:244-249 | a new schedule has no target, the actor itself as sender, zero delay, no period |
| Builders.Go | src/main/java/javactor/akka/JavactorUntypedActor.java:279-290 | one pending timer is armed; an untargeted message is wrapped in a PostMsg; the timer is one-shot exactly when no period was set; all settings are copied |
| Builders.ScheduleDefaults | src/main/java/javactor/akka/JavactorUntypedActor.java:244-290 | a targeted schedule with no settings is a one-shot immediate delivery from the actor itself |
| Builders.CancelledScheduleSilent | src/main/java/javactor/akka/JavactorUntypedActor.java:300-313 | a schedule cancelled through its handle delivers nothing afterwards, one-shot or periodic |
| Context.Build | src/main/java/javactor/JavactorContext.java:46-62 | type and logging override the defaults only when given; retries, range and unit are taken together exactly when retries are given; a given retry count with a null range fails on unboxing |
| Context.BuildWithNoSetter | src/main/java/javactor/JavactorContext.java:58-62 | a builder with no setter gives one-for-one, -1 retries, 106215 days, logging on |
| Context.NullRetriesDiscardRange | src/main/java/javactor/JavactorContext.java:49-53 | a range given with a null retry count is ignored |
| Context.SettersCommute | src/main/java/javactor/JavactorContext.java:31-45 | the three setters touch disjoint fields, so their order does not matter |
| Context.LaterSetterWins | src/main/java/javactor/JavactorContext.java:31-34 | setting the type twice keeps the later value |
| Context.AllForOneConfiguration | src/test/java/javactor/akka/AllForOneTestJavactor.java:11-15 | the test class's configuration builds all-for-one with 10 retries within one minute |
| Context.DefaultRequestTimeoutIsTwoMinutes | src/main/java/javactor/JavactorContext.java:111-112 | the default request timeout is 120000 ms, the same span as two minutes |
| Supervision.DirectiveMapped | src/main/java/javactor/akka/JavactorUntypedActor.java:58-64 | every library directive has an Akka directive, and mapping it back gives the same directive |
| Supervision.DirectiveMapIsBijection | src/main/java/javactor/akka/JavactorUntypedActor.java:58-64 | the directive map covers all four directives and is one-to-one |
| Supervision.Translate | src/main/java/javactor/akka/JavactorUntypedActor.java:439-447 | a returned directive becomes its Akka counterpart, a null stays null, and a throwing method makes the decider throw |
| Supervision.ThrowableHandlerCatchesException | src/test/java/javactor/akka/JavactorUntypedActorTest.java:50-55 | an `@OnException` method for `Throwable` decides for a plain `Exception` |
| Supervision.Decide | src/main/java/javactor/akka/JavactorUntypedActor.java:416-456 | the three fatal kinds stop; other non-exceptions escalate; an exception goes to the first accepting `@OnException` row in declaration order, or restarts when there is none |
| Supervision.FirstMatchUnique | src/main/java/javactor/akka/JavactorUntypedActor.java:435-449 | the decider's first accepting row is unique |
| Supervision.FatalStopsDespiteHandler | src/main/java/javactor/akka/JavactorUntypedActor.java:423-428 | a fatal failure stops the child even when an `@OnException` row accepts it |
| Supervision.BroadHandlerDeclaredFirstDecides | src/main/java/javactor/akka/JavactorUntypedActor.java:432-449 | a handler for Exception declared before one for a subclass decides for that subclass too |
| Supervision.StrategyOf | src/main/java/javactor/akka/JavactorUntypedActor.java:681-700 | the strategy is one-for-one exactly when the record says so, with retries, range and logging copied |
| Supervision.StrategyOfBuilt | src/main/java/javactor/akka/JavactorUntypedActor.java:681-700 | for every builder that builds, the strategy is all-for-one exactly when that type was given, and its retries and logging are the given ones or the defaults |
| Supervision.AllForOneStrategyConfigured | src/test/java/javactor/akka/JavactorUntypedActorTest.java:266-278 | the test class gets an all-for-one strategy with 10 retries within one minute |
| Supervision.DefaultStrategyIsOneForOne | src/main/java/javactor/akka/JavactorUntypedActor.java:681-700 | with the default record the strategy is one-for-one, unbounded retries, 106215 days, logging on |
| Correlator.StartWaitingFor | src/main/java/javactor/akka/JavactorUntypedActor.java:725-730 | a one-shot TimeoutMsg with the task info is armed to and from the actor, recorded under the response class; other entries and all earlier timers are untouched |
| Correlator.DoneWaitingFor | src/main/java/javactor/akka/JavactorUntypedActor.java:732-737 | only the entry of exactly that class is removed and its timer cancelled; an absent class changes nothing |
| Correlator.ResponseSilencesTimeout | src/main/java/javactor/akka/JavactorUntypedActor.java:725-737 | after a response of the awaited class the entry is gone and its timeout never fires |
| Correlator.NoResponseOneTimeout | src/main/java/javactor/akka/JavactorUntypedActor.java:725-730 | without a response the timeout delivers the task info to the actor exactly once |
| Correlator.OtherClassKeepsEntry | src/main/java/javactor/akka/JavactorUntypedActor.java:732-737 | a message of any other class, a subtype of the awaited one included, leaves the entry and its timer as they were |
| Correlator.SupersededTimeoutStaysArmed | src/main/java/javactor/akka/JavactorUntypedActor.java:725-730 | a second request for the same class leaves the first timeout pending, even after the response arrives |
| JavactorActor.BuildInfoAsWritten | src/main/java/javactor/akka/JavactorUntypedActor.java:467-492 | the metadata with the source's sort fails exactly when the corrected build fails, with the same error; otherwise it has the same exception table and strategy, and the same `@Handle` rows, possibly in another order |
| JavactorActor.BuildInfo | src/main/java/javactor/akka/JavactorUntypedActor.java:467-492 | handler table errors come first, then `@OnException` errors; if it succeeds, the metadata holds the handler table in specificity order (the corrected sort), the exception table, and the declared or default strategy record |
| JavactorActor.RunAll | src/main/java/javactor/akka/JavactorUntypedActor.java:654-667 | `postStop` runs every annotated hook, in order |
| JavactorActor.RunFirst | src/main/java/javactor/akka/JavactorUntypedActor.java:539-550 | only the first annotated hook runs; nothing runs when there is none |
| JavactorActor.StartWith | src/main/java/javactor/akka/JavactorUntypedActor.java:473-485 | the class's entry becomes the given metadata and every other entry is kept; the effects are one subscription per row, in table order, when the actor subscribes, then the first start hook if there is one |
| JavactorActor.GuardedStart | src/main/java/javactor/akka/JavactorUntypedActor.java:463-486 | a positive cache guard leaves the cache as it is and builds nothing; otherwise the start succeeds exactly when the build does, stores what it built and keeps every other entry; the effects follow the stored table |
| JavactorActor.PreStart | src/main/java/javactor/akka/JavactorUntypedActor.java:463-486 | metadata is built only for a class not yet cached, and a build error stops the start; the cache gains exactly that class; the effects are the table's subscriptions (if configured) and the first start hook |
| JavactorActor.PreStartKeepsConsistent | src/main/java/javactor/akka/JavactorUntypedActor.java:467-476 | a start keeps a consistent cache consistent: what it stores for a class is what building that class gives |
| JavactorActor.PreStartAsWritten | src/main/java/javactor/akka/JavactorUntypedActor.java:467-471 | with the as-written cache guard, every start builds the metadata again |
| JavactorActor.PreStartVersionsAgree | src/main/java/javactor/akka/JavactorUntypedActor.java:463-486 | while the cache is consistent, both versions leave the same cache and have the same effects |
| JavactorActor.SecondStartReusesMetadata | src/main/java/javactor/akka/JavactorUntypedActor.java:467-471 | a second instance of a started class reuses its metadata without a build, where the code as written builds it again |
| JavactorActor.KeySearch | src/main/java/javactor/akka/JavactorUntypedActor.java:619-621 | the sorted map's own key lookup never hits |
| JavactorActor.HandleMethodFor | src/main/java/javactor/akka/JavactorUntypedActor.java:614-633 | the method found is always that of the scan for the first accepting row |
| JavactorActor.InterceptionIsInstanceof | src/main/java/javactor/akka/JavactorUntypedActor.java:592-600 | with PostMsg and Akka's `Terminated` final, a message is republished exactly when it is an instance of PostMsg, and is Akka's stop notice exactly when it is an instance of `Terminated` |
| JavactorActor.ObjectHandlerServesRequests | src/main/java/javactor/akka/JavactorUntypedActor.java:216-234 | a single `@Handle` method for `Object` satisfies both handler checks of a request and receives the timeout notice |
| JavactorActor.ContextUnhandledAsWritten | src/main/java/javactor/akka/JavactorUntypedActor.java:340-343 | as written, the context's `unhandled` calls itself and fails with a stack overflow however deep the stack is |
| JavactorActor.ContextUnhandled | src/main/java/javactor/akka/JavactorUntypedActor.java:340-343 | as intended, the context's `unhandled` hands the message to the actor's own `unhandled` and does not fail |
| JavactorActor.ContextUnhandledMatchesDispatch | src/main/java/javactor/akka/JavactorUntypedActor.java:340-343 | the intended call has the same effect as the actor finding no row for the message |
| JavactorActor.Delivered | src/main/java/javactor/akka/JavactorUntypedActor.java:597-600 | Akka's stop notice becomes the library's; every other message is kept |
| JavactorActor.OnReceive | src/main/java/javactor/akka/JavactorUntypedActor.java:587-612 | it stops waiting for exactly the message's class; a PostMsg, and only a PostMsg, is republished; anything else goes to the first accepting row, or is unhandled exactly when no row accepts it |
| JavactorActor.Request | src/main/java/javactor/akka/JavactorUntypedActor.java:216-234 | refused without a handler for the response class, then without a timeout handler, then when the fire step is refused; otherwise fires and arms the builder's timeout or the default one |
| JavactorActor.RequestDefaultTimeout | src/main/java/javactor/akka/JavactorUntypedActor.java:231-233 | a request without a timeout arms a two-minute one-shot TimeoutMsg to the actor itself |
| JavactorActor.ResponseCancelsRequest | src/main/java/javactor/akka/JavactorUntypedActor.java:587-590 | receiving a response of exactly the requested class removes the request and silences its timeout |
| JavactorActor.TimeoutReachesHandler | src/main/java/javactor/akka/JavactorUntypedActor.java:227-233 | an unanswered request's timeout reaches the timeout handler with its task info, and the request stays recorded |
| JavactorActor.TerminatedTranslated | src/main/java/javactor/akka/JavactorUntypedActor.java:597-611 | handlers see the library's stop notice, routed to its own row if there is one |
| JavactorActor.DefaultSupervision | src/main/java/javactor/akka/JavactorUntypedActor.java:494-509 | a class with no strategy method is supervised one-for-one with unbounded retries |
| Timeouter.SetTimeout | src/main/java/javactor/util/Timeouter.java:15-18 | the stored amount and unit become the new ones, for later starts only; the held timeout is kept |
| Timeouter.DoneWaiting | src/main/java/javactor/util/Timeouter.java:27-32 | the held timeout, if any, is cancelled and forgotten |
| Timeouter.StartWaiting | src/main/java/javactor/util/Timeouter.java:20-25 | the previous timeout is no longer pending; a new one with the configured delay, to and from the owner, is held; other timers are untouched |
| Timeouter.DoneWaitingIdempotent | src/main/java/javactor/util/Timeouter.java:27-32 | stopping twice is stopping once |
| Timeouter.StepKeepsAtMostOnePending | src/main/java/javactor/util/Timeouter.java:15-32 | every operation, and the runtime firing a timer, keeps at most the held timeout pending |
| Timeouter.RunKeepsAtMostOnePending | src/main/java/javactor/util/Timeouter.java:11-32 | from a fresh helper, any sequence of operations leaves at most one timeout outstanding: the held one |
| Timeouter.DefaultDelayTwoSeconds | src/main/java/javactor/util/Timeouter.java:12-13 | with the default settings the timeout falls due two seconds after the start |
| EasyActor.EasySubscriptions | src/main/java/javactor/akka/EasyUntypedActor.java:41-57 | it subscribes once per method, up to the first method without a parameter, or once per row when every method has one |
| EasyActor.EasyPreStart | src/main/java/javactor/akka/EasyUntypedActor.java:37-59 | the table is the declaration-ordered map (with its errors); subscriptions happen only when configured |
| EasyActor.StartSubscribesToTable | src/main/java/javactor/akka/EasyUntypedActor.java:35-58 | a successful start with subscription on subscribes to exactly the table's classes, in order |
| EasyActor.EasyOnReceive | src/main/java/javactor/akka/EasyUntypedActor.java:61-74 | the first row in declaration order that accepts the class is invoked; unhandled exactly when none accepts it |
| EasyActor.EasyStartWaiting | src/main/java/javactor/akka/EasyUntypedActor.java:98-102 | a one-minute TimeoutMsg to and from the actor itself is armed and held; earlier timers are untouched |
| EasyActor.EasyDoneWaiting | src/main/java/javactor/akka/EasyUntypedActor.java:104-107 | with no wait started it fails on the null handle; otherwise it cancels the held timeout |
| EasyActor.EasyReceive | src/main/java/javactor/akka/EasyUntypedActor.java:61-74 | a message is dispatched as `onReceive` does; a TimeoutMsg whose first accepting row is the built-in timeout method gets that method's check |
| EasyActor.TimeoutNoticeReachesBuiltIn | src/main/java/javactor/akka/EasyUntypedActor.java:109-114 | a TimeoutMsg whose first accepting row is the built-in method is invoked there, and reported exactly when a wait is held and its timer was not cancelled |
| EasyActor.EasyHandleTimeout | src/main/java/javactor/akka/EasyUntypedActor.java:109-114 | a timeout is reported exactly when a handle is held and not cancelled |
| EasyActor.UnansweredWaitTimesOut | src/main/java/javactor/akka/EasyUntypedActor.java:98-114 | a wait left unanswered delivers its notice to the actor, which reports it with its task info |
| EasyActor.DoneWaitingSilencesTimeout | src/main/java/javactor/akka/EasyUntypedActor.java:104-114 | a `doneWaiting` before the timeout fires means the timer never delivers and a notice of that wait is not reported |
| EasyActor.QueuedTimeoutStillReported | src/main/java/javactor/akka/EasyUntypedActor.java:104-114 | a timeout that fired before `doneWaiting` is still reported: cancelling a spent timer leaves it not cancelled |
| EasyActor.StaleTimeoutReported | src/main/java/javactor/akka/EasyUntypedActor.java:98-114 | a superseded wait's timeout still fires and is reported with the old task info while the new wait is outstanding |

## Left out

- Reflection is out of the model. The methods a class declares, their parameter types and their order are inputs. Finding the context field and injecting it (`getJavactorContextField`, `setContextOnJavactor`) is not modelled, because it only writes a field that the model does not need.
- The Akka runtime is out of the model: mailboxes, the event bus, actor creation (`MyCreator`, `MyActorBuilder`, `AkkaJavactorBuilder`), `watch`, `stop` and `sender`. The model keeps only what each step hands the runtime: effects and armed timers.
- The bodies of user methods are outside the model. A handler call is an `Invoke` effect. An `@OnException` method's answer is the `invoke` parameter of `Supervision.Decide`.
- Exceptions thrown by user methods are not modelled. This covers the unwrapping of `InvocationTargetException` in `methodInvoke`. It also covers a strategy method that throws: `getSupervisorStrategyInfo` wraps that exception.
- Concurrency is out of the model. The shared cache is a `ConcurrentHashMap`, and the model is sequential.
- JavactorActor.InterceptionIsInstanceof: assumes PostMsg has no subclasses, as Akka's `Terminated`, a final class, has none. The PostMsg class is not part of this model, and a PostMsg message is of exactly that class. Ordinary messages (`Messages.UserClass`) are never of the PostMsg class or of Akka's `Terminated`, which have constructors of their own.
- JavactorActor.BuildInfo: builds the `@Handle` table with the corrected sort of the first finding, so `PreStart`, `PreStartAsWritten`, `OnReceive` and `Request` run over a specificity-ordered table. The as-written table is `JavactorActor.BuildInfoAsWritten`, and its misrouting is shown by `SourceOrder.SourceTableMisorders`. `PreStartAsWritten` is as written in its cache guard only.
- EasyActor.EasyReceive: takes the built-in timeout method as a fixed method id. That the method is a row of every subclass's table is not derived from reflection, so `EasyActor.TimeoutNoticeReachesBuiltIn` requires that it is the first row accepting TimeoutMsg.
- JavactorActor.OnReceive: takes the class's metadata as an argument. The code's null-pointer failure when the class is missing from the cache is not modelled, because a failed start never gets messages.
- Supervision.StrategyOf: the range is passed through as a number and a unit. Scala's `Duration.create` bound checks and the failure on a null time unit are not modelled.
- Durations are unbounded integers. Scala's finite-duration limits are not modelled.
- Null targets, messages and classes given to the builders are not modelled, except the null sender and target that are the defaults.
- Builders.Go: an untargeted timer keeps no receiver, as the code arms it. What Akka then does with the null receiver is part of the runtime and not modelled.
- SourceOrder.LibrarySort: applies the library's small-array sort (leading run, then binary insertion) to tables of every size. The merge path for 32 rows or more is not modelled, because a handler table is far smaller than that.
- JavactorActor.KeySearch: stands for Guava's binary search. It accepts any row the comparator calls equal, which includes every row a binary search could report.
- `preRestart` and `postRestart` are modelled only as `JavactorActor.RunFirst` of their hooks. Their log line and the calls to the superclass are not modelled.
- The context's `watch`, `stop`, `self`, `sender` and `actorBuilder` are not part of this model. They delegate straight to Akka.
- The context's `unhandled` does not delegate: its body calls itself (see "## Findings"). Only that call is modelled (`JavactorActor.ContextUnhandledAsWritten`), not the log or the stack of the calling handler.
- JavactorActor.BuildInfo: a strategy method that returns null is not modelled. `JavactorClass.strategyInfo` uses `None` for "no strategy method", which gives the default record. In the code a null answer is stored as is, and `supervisorStrategy()` then fails with a null-pointer error.
- HandlerTable.DeclaredTable: names the first row's key that recurs later in its `DuplicateKey` error. Guava's message may name another repeated key, so only the error's payload can differ. A parameterless `@OnException` method gives `NoParameter`, which stands for the ArrayIndexOutOfBoundsException of `getParameterTypes()[0]`.
- The older base class's `log`, `publish`, `scheduleOnce` and `schedule` helpers delegate to Akka and are not modelled. So is the log line of `timedOutWaiting`, which becomes the `TimedOut` effect.

## Findings

| source | as written | input that shows it | evidently intended | confidence | as-written member | corrected member |
|---|---|---|---|---|---|---|
| src/main/java/javactor/akka/JavactorUntypedActor.java:66-74 | The `@Handle` map is sorted with `o1.isAssignableFrom(o2) ? 1 : -1`. That is not a consistent order: unrelated classes compare as "less" both ways. The library's sort can then leave a supertype ahead of its subtype. | `@Handle` methods for B, C and A, discovered in that order, where B extends A and C is unrelated. The table sorts to A, C, B, so a B message is handed to A's method. | The most specific type comes first, so the B message goes to B's method. | not executed; depends on the order reflection reports the methods in | SourceOrder.SourceTable, SourceOrder.SourceTableMisorders | HandlerTable.BuildTable, SourceOrder.BuildTableRoutesToSubtype |
| src/main/java/javactor/akka/JavactorUntypedActor.java:467 | The cache guard calls `ConcurrentHashMap.contains`, which tests values, not keys. It never holds, so every actor start rebuilds the class metadata by reflection. | Starting a second actor of a class already started: the metadata is built again. | `containsKey`: the metadata is built once per class and then reused. | not executed | JavactorActor.PreStartAsWritten, JavactorActor.SecondStartReusesMetadata | JavactorActor.PreStart, JavactorActor.PreStartVersionsAgree |
| src/main/java/javactor/akka/JavactorUntypedActor.java:340-343 | The context's `unhandled(Object msg)` has the body `unhandled(msg);`. Java resolves that simple name to the innermost class declaring it, the context itself, so the method calls itself. | A `@Handle` method that calls `unhandled(m)` on its context: the calls recurse until a StackOverflowError. | `JavactorUntypedActor.this.unhandled(msg)`: the message goes to the actor's `unhandled`, as for a message no row accepts. | not executed | JavactorActor.ContextUnhandledAsWritten | JavactorActor.ContextUnhandled, JavactorActor.ContextUnhandledMatchesDispatch |
