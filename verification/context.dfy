/**
 * The library's public context definitions: the supervision enums, the
 * supervisor strategy record with its defaults-and-overrides builder, and
 * the default request timeout.
 */
module Context {
  import opened Base
  import opened Messages

  type Int32 = x: int | -0x8000_0000 <= x < 0x8000_0000
  type Int64 = x: int | -0x8000_0000_0000_0000 <= x < 0x8000_0000_0000_0000

  datatype StrategyType = OneForOne | AllForOne

  /** The directive an `@OnException` method answers. */
  datatype Directive = Resume | Restart | Stop | Escalate

  /** The record a supervisor strategy is configured from. */
  datatype StrategyInfo = StrategyInfo(
    kind: StrategyType,
    maxNumRetries: Int32,
    timeRange: Int64,
    timeUnit: Option<TimeUnit>,
    loggingEnabled: bool)

  /** One-for-one, unbounded retries, a window of 291 * 365 days, logging on. */
  const DefaultStrategyInfo := StrategyInfo(OneForOne, -1, 291 * 365, Some(Days), true)

  /** `SupervisorStrategyInfo.Builder`: every field starts out null. */
  datatype InfoBuilder = InfoBuilder(
    kind: Option<StrategyType>,
    maxNumRetries: Option<Int32>,
    timeRange: Option<Int64>,
    timeUnit: Option<TimeUnit>,
    loggingEnabled: Option<bool>)

  const NewInfoBuilder := InfoBuilder(None, None, None, None, None)

  function SetType(b: InfoBuilder, kind: Option<StrategyType>): InfoBuilder {
    b.(kind := kind)
  }

  function SetRetries(b: InfoBuilder, maxNumRetries: Option<Int32>, timeRange: Option<Int64>,
                      timeUnit: Option<TimeUnit>): InfoBuilder {
    b.(maxNumRetries := maxNumRetries, timeRange := timeRange, timeUnit := timeUnit)
  }

  function SetLogging(b: InfoBuilder, loggingEnabled: Option<bool>): InfoBuilder {
    b.(loggingEnabled := loggingEnabled)
  }

  /**
   * `build()`: the type and the logging flag override the defaults only when
   * supplied; the retry count, range and unit are copied together, and only
   * when a retry count was supplied. A supplied retry count with a null range
   * fails when the range is unboxed.
   */
  function Build(b: InfoBuilder): (r: Result<StrategyInfo>)
    ensures r.Err? <==> b.maxNumRetries.Some? && b.timeRange.None?
    ensures r.Err? ==> r.error == NullPointer
    ensures r.Ok? ==> r.value.kind == (if b.kind.Some? then b.kind.value else DefaultStrategyInfo.kind)
    ensures r.Ok? ==>
      r.value.loggingEnabled == (if b.loggingEnabled.Some? then b.loggingEnabled.value else DefaultStrategyInfo.loggingEnabled)
    ensures r.Ok? && b.maxNumRetries.Some? ==>
      && r.value.maxNumRetries == b.maxNumRetries.value
      && Some(r.value.timeRange) == b.timeRange
      && r.value.timeUnit == b.timeUnit
    ensures r.Ok? && b.maxNumRetries.None? ==>
      && r.value.maxNumRetries == DefaultStrategyInfo.maxNumRetries
      && r.value.timeRange == DefaultStrategyInfo.timeRange
      && r.value.timeUnit == DefaultStrategyInfo.timeUnit
  {
    var result := DefaultStrategyInfo;
    var result := if b.kind.Some? then result.(kind := b.kind.value) else result;
    if b.maxNumRetries.Some? && b.timeRange.None? then Err(NullPointer)
    else
      var result := if b.maxNumRetries.Some? then
        result.(maxNumRetries := b.maxNumRetries.value, timeRange := b.timeRange.value, timeUnit := b.timeUnit)
      else result;
      var result := if b.loggingEnabled.Some? then result.(loggingEnabled := b.loggingEnabled.value) else result;
      Ok(result)
  }

  /** A builder nobody configured yields the defaults. */
  lemma BuildWithNoSetter()
    ensures Build(NewInfoBuilder) == Ok(StrategyInfo(OneForOne, -1, 106215, Some(Days), true))
  {
  }

  /** A null retry count discards whatever range and unit came with it. */
  lemma NullRetriesDiscardRange(b: InfoBuilder, timeRange: Option<Int64>, timeUnit: Option<TimeUnit>)
    ensures Build(SetRetries(b, None, timeRange, timeUnit)) == Build(SetRetries(b, None, None, None))
    ensures Build(SetRetries(b, None, timeRange, timeUnit)).Ok?
    ensures Build(SetRetries(b, None, timeRange, timeUnit)).value.timeRange == DefaultStrategyInfo.timeRange
  {
  }

  /** Each setter touches only its own fields, so the order of the calls does not matter. */
  lemma SettersCommute(b: InfoBuilder, k: Option<StrategyType>, n: Option<Int32>, r: Option<Int64>,
                       u: Option<TimeUnit>, l: Option<bool>)
    ensures SetType(SetRetries(b, n, r, u), k) == SetRetries(SetType(b, k), n, r, u)
    ensures SetType(SetLogging(b, l), k) == SetLogging(SetType(b, k), l)
    ensures SetRetries(SetLogging(b, l), n, r, u) == SetLogging(SetRetries(b, n, r, u), l)
    ensures SetType(b, k).maxNumRetries == b.maxNumRetries && SetLogging(b, l).kind == b.kind
  {
  }

  /** A later call of the same setter replaces what the earlier one set. */
  lemma LaterSetterWins(b: InfoBuilder, k1: Option<StrategyType>, k2: Option<StrategyType>,
                        l1: Option<bool>, l2: Option<bool>)
    ensures SetType(SetType(b, k1), k2) == SetType(b, k2)
    ensures SetLogging(SetLogging(b, l1), l2) == SetLogging(b, l2)
  {
  }

  /** The all-for-one configuration with ten retries a minute keeps logging at its default. */
  lemma AllForOneConfiguration()
    ensures Build(SetRetries(SetType(NewInfoBuilder, Some(AllForOne)), Some(10), Some(1), Some(Minutes)))
      == Ok(StrategyInfo(AllForOne, 10, 1, Some(Minutes), true))
  {
  }

  /** `DEFAULT_REQUEST_TIMEOUT_MILLIS`. */
  const DefaultRequestTimeoutMillis: int := 2 * 1000 * 60

  const DefaultRequestTimeout := Duration(DefaultRequestTimeoutMillis, Milliseconds)

  /** The default request timeout is 120000 ms, that is two minutes. */
  lemma DefaultRequestTimeoutIsTwoMinutes()
    ensures DefaultRequestTimeoutMillis == 120000
    ensures Nanos(DefaultRequestTimeout) == Nanos(Duration(2, Minutes))
  {
  }
}
