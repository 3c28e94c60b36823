/**
 * Supervision: the decider an actor hands its runtime for the failures of
 * its children, the translation of the library's directives into the
 * runtime's, and the choice of the supervisor strategy from the declared
 * strategy record.
 */
module Supervision {
  import opened Base
  import opened Types
  import opened Messages
  import opened HandlerTable
  import opened Context

  /** The runtime's own directives. */
  datatype AkkaDirective = AkkaResume | AkkaRestart | AkkaStop | AkkaEscalate

  /** `JAVACTOR_DIRECTIVES_TO_AKKA`. */
  const DirectiveMap: map<Directive, AkkaDirective> :=
    map[Stop := AkkaStop, Restart := AkkaRestart, Escalate := AkkaEscalate, Resume := AkkaResume]

  /** The library directive a runtime directive comes from. */
  function FromAkka(a: AkkaDirective): Directive {
    match a
    case AkkaResume => Resume
    case AkkaRestart => Restart
    case AkkaStop => Stop
    case AkkaEscalate => Escalate
  }

  /** Every library directive has an entry. */
  lemma DirectiveMapped(d: Directive)
    ensures d in DirectiveMap
  {
    match d
    case Resume =>
    case Restart =>
    case Stop =>
    case Escalate =>
  }

  /** The four-entry table is total and one-to-one. */
  lemma DirectiveMapIsBijection()
    ensures DirectiveMap.Keys == {Resume, Restart, Stop, Escalate}
    ensures forall d: Directive :: d in DirectiveMap && FromAkka(DirectiveMap[d]) == d
    ensures forall a: AkkaDirective :: DirectiveMap[FromAkka(a)] == a
  {
    forall d: Directive
      ensures d in DirectiveMap && FromAkka(DirectiveMap[d]) == d
    {
      DirectiveMapped(d);
    }
  }

  /** What an `@OnException` method did when it was invoked with the failure. */
  datatype HandlerOutcome = Returns(directive: Directive) | ReturnsNull | Throws

  /** The decider's answer: a runtime directive, null, or an exception out of the decider. */
  datatype Decision = Decided(directive: AkkaDirective) | NullDecision | DeciderThrows

  /** A failure of one of the runtime-fatal kinds. */
  predicate IsFatal(h: Hierarchy, t: TypeId) {
    || IsSubtype(h, t, ActorInitializationExceptionClass)
    || IsSubtype(h, t, ActorKilledExceptionClass)
    || IsSubtype(h, t, DeathPactExceptionClass)
  }

  /** `t instanceof Exception`. */
  predicate IsException(h: Hierarchy, t: TypeId) {
    IsSubtype(h, t, ExceptionClass)
  }

  /** How a handler's answer becomes the decider's: `map(...)` on its directive, or its exception wrapped. */
  function Translate(o: HandlerOutcome): (r: Decision)
    ensures o.Returns? ==> r.Decided? && FromAkka(r.directive) == o.directive
    ensures o.ReturnsNull? <==> r.NullDecision?
    ensures o.Throws? <==> r.DeciderThrows?
  {
    match o
    case Returns(d) =>
      DirectiveMapIsBijection();
      Decided(DirectiveMap[d])
    case ReturnsNull => NullDecision
    case Throws => DeciderThrows
  }

  /**
   * `myDecider` applied to a failure of class `t`: the fatal kinds stop the
   * child, other non-exceptions escalate, and an exception goes to the first
   * `@OnException` row, in declaration order, that accepts it, or restarts
   * the child when there is none. `invoke` stands for the user's methods.
   */
  function Decide(h: Hierarchy, onException: seq<Entry>, invoke: (MethodId, TypeId) -> HandlerOutcome,
                  t: TypeId): (r: Decision)
    ensures IsFatal(h, t) ==> r == Decided(AkkaStop)
    ensures !IsFatal(h, t) && !IsException(h, t) ==> r == Decided(AkkaEscalate)
    ensures !IsFatal(h, t) && IsException(h, t) && (forall j | 0 <= j < |onException| :: !Matches(h, onException[j], t))
      ==> r == Decided(AkkaRestart)
    ensures forall i: nat | !IsFatal(h, t) && IsException(h, t) && IsFirstMatch(h, onException, t, i) ::
      r == Translate(invoke(onException[i].handler, t))
  {
    if IsFatal(h, t) then Decided(AkkaStop)
    else if IsException(h, t) then
      match Find(h, onException, t)
      case Some(i) => Translate(invoke(onException[i].handler, t))
      case None => Decided(AkkaRestart)
    else Decided(AkkaEscalate)
  }

  /** Two first matches are the same row. */
  lemma FirstMatchUnique(h: Hierarchy, t: seq<Entry>, cls: TypeId, i: nat, j: nat)
    requires IsFirstMatch(h, t, cls, i) && IsFirstMatch(h, t, cls, j)
    ensures i == j
  {
  }

  /** Fatal failures stop the child even when a user handler would accept them. */
  lemma FatalStopsDespiteHandler(h: Hierarchy, onException: seq<Entry>,
                                 invoke: (MethodId, TypeId) -> HandlerOutcome, t: TypeId, i: nat)
    requires IsFatal(h, t)
    requires i < |onException| && Matches(h, onException[i], t)
    requires invoke(onException[i].handler, t) == Returns(Resume)
    ensures Decide(h, onException, invoke, t) == Decided(AkkaStop)
  {
  }

  /** Classes of the declaration-order example: a runtime exception under Exception. */
  const RuntimeExceptionClass: TypeId := 8

  const OrderHierarchy: Hierarchy := [Root, Root, Root, Root, Root, Root, Root, Root, ClassNode({ExceptionClass}, 1)]

  /**
   * The exception table keeps declaration order, so a broad handler declared
   * before a narrow one decides for the narrow one's failures too.
   */
  lemma BroadHandlerDeclaredFirstDecides(invoke: (MethodId, TypeId) -> HandlerOutcome)
    requires invoke(1, RuntimeExceptionClass) == Returns(Resume)
    requires invoke(2, RuntimeExceptionClass) == Returns(Stop)
    ensures Decide(OrderHierarchy, [Entry(ExceptionClass, 1), Entry(RuntimeExceptionClass, 2)], invoke,
                   RuntimeExceptionClass) == Decided(AkkaResume)
  {
    var h := OrderHierarchy;
    assert IsSubtype(h, RuntimeExceptionClass, ExceptionClass) by {
      assert ExceptionClass in h[RuntimeExceptionClass].supers && IsSubtype(h, ExceptionClass, ExceptionClass);
    }
    assert !IsSubtype(h, RuntimeExceptionClass, ActorInitializationExceptionClass);
    assert !IsSubtype(h, RuntimeExceptionClass, ActorKilledExceptionClass);
    assert !IsSubtype(h, RuntimeExceptionClass, DeathPactExceptionClass);
    assert IsFirstMatch(h, [Entry(ExceptionClass, 1), Entry(RuntimeExceptionClass, 2)], RuntimeExceptionClass, 0);
  }

  /** An `@OnException` method for `Throwable` decides for a plain `Exception`. */
  lemma ThrowableHandlerCatchesException(invoke: (MethodId, TypeId) -> HandlerOutcome)
    requires invoke(1, ExceptionClass) == Returns(Resume)
    ensures Decide(ObjectHierarchy, [Entry(ThrowableClass, 1)], invoke, ExceptionClass) == Decided(AkkaResume)
  {
    var h := ObjectHierarchy;
    assert IsSubtype(h, ExceptionClass, ThrowableClass) by {
      assert ThrowableClass in h[ExceptionClass].supers && IsSubtype(h, ThrowableClass, ThrowableClass);
    }
    FatalBelowException(ExceptionClass);
    assert IsFirstMatch(h, [Entry(ThrowableClass, 1)], ExceptionClass, 0);
  }

  /** In the example hierarchy `Exception` is none of the fatal kinds, which all sit below it. */
  lemma FatalBelowException(t: TypeId)
    requires t == ExceptionClass
    ensures !IsFatal(ObjectHierarchy, t)
  {
    var h := ObjectHierarchy;
    assert Rank(h, ExceptionClass) == 2 && Rank(h, ActorInitializationExceptionClass) == 3;
    assert Rank(h, ActorKilledExceptionClass) == 3 && Rank(h, DeathPactExceptionClass) == 3;
    HigherRankNotAbove(h, ExceptionClass, ActorInitializationExceptionClass);
    HigherRankNotAbove(h, ExceptionClass, ActorKilledExceptionClass);
    HigherRankNotAbove(h, ExceptionClass, DeathPactExceptionClass);
  }

  /** The runtime's strategy object, without its decider. */
  datatype SupervisorStrategy =
    | OneForOneStrategy(maxNrOfRetries: Int32, withinRange: Int64, withinUnit: Option<TimeUnit>, loggingEnabled: bool)
    | AllForOneStrategy(maxNrOfRetries: Int32, withinRange: Int64, withinUnit: Option<TimeUnit>, loggingEnabled: bool)

  /** `supervisorStrategy()`: one-for-one exactly when the record says so, the rest copied through. */
  function StrategyOf(info: StrategyInfo): (r: SupervisorStrategy)
    ensures r.OneForOneStrategy? <==> info.kind == OneForOne
    ensures r.maxNrOfRetries == info.maxNumRetries && r.loggingEnabled == info.loggingEnabled
    ensures r.withinRange == info.timeRange && r.withinUnit == info.timeUnit
  {
    if info.kind == OneForOne then
      OneForOneStrategy(info.maxNumRetries, info.timeRange, info.timeUnit, info.loggingEnabled)
    else
      AllForOneStrategy(info.maxNumRetries, info.timeRange, info.timeUnit, info.loggingEnabled)
  }

  /**
   * For every builder that builds, the strategy is all-for-one exactly when
   * the builder was given that type, and its retries are the given count or
   * unbounded.
   */
  lemma StrategyOfBuilt(b: InfoBuilder)
    requires Build(b).Ok?
    ensures StrategyOf(Build(b).value).AllForOneStrategy? <==> b.kind == Some(AllForOne)
    ensures StrategyOf(Build(b).value).maxNrOfRetries == (if b.maxNumRetries.Some? then b.maxNumRetries.value else -1)
    ensures StrategyOf(Build(b).value).loggingEnabled == (b.loggingEnabled != Some(false))
  {
  }

  /** The all-for-one configuration gives an all-for-one strategy with ten retries within one minute. */
  lemma AllForOneStrategyConfigured()
    ensures var info := Build(SetRetries(SetType(NewInfoBuilder, Some(AllForOne)), Some(10), Some(1), Some(Minutes)));
      && info.Ok?
      && StrategyOf(info.value).AllForOneStrategy?
      && StrategyOf(info.value).maxNrOfRetries == 10
      && Nanos(Duration(StrategyOf(info.value).withinRange, StrategyOf(info.value).withinUnit.value)) == 60 * 1000_000_000
  {
    AllForOneConfiguration();
  }

  /** With no declared record the strategy is one-for-one with unbounded retries and logging. */
  lemma DefaultStrategyIsOneForOne()
    ensures StrategyOf(DefaultStrategyInfo) == OneForOneStrategy(-1, 106215, Some(Days), true)
  {
  }
}
