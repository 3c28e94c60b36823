/** Messages, actor references, durations and the observable effects of one step. */
module Messages {
  import opened Base
  import opened Types

  /** An actor reference; `Option<ActorId>.None` is a null reference. */
  type ActorId = nat

  /** Identifies a handler method of an actor class. */
  type MethodId = nat

  datatype TimeUnit = Nanoseconds | Microseconds | Milliseconds | Seconds | Minutes | Hours | Days

  /** A finite duration: a length in a time unit. */
  datatype Duration = Duration(length: int, unit: TimeUnit)

  function NanosPerUnit(u: TimeUnit): (n: nat)
    ensures n > 0
  {
    match u
    case Nanoseconds => 1
    case Microseconds => 1000
    case Milliseconds => 1000_000
    case Seconds => 1000_000_000
    case Minutes => 60 * 1000_000_000
    case Hours => 60 * 60 * 1000_000_000
    case Days => 24 * 60 * 60 * 1000_000_000
  }

  /** Two durations are the same when they last the same number of nanoseconds. */
  function Nanos(d: Duration): int {
    d.length * NanosPerUnit(d.unit)
  }

  /** Scala's `Duration.Zero`. */
  const ZeroDuration: Duration := Duration(0, Days)

  /**
   * The class of an ordinary message. Instances of PostMsg, of both stop
   * notices and of TimeoutMsg have constructors of their own, so each
   * runtime object has exactly one representation.
   */
  type UserClass = c: TypeId | c != PostMsgClass && c != AkkaTerminatedClass && c != TerminatedClass && c != TimeoutMsgClass
    witness ExceptionClass

  /**
   * A message as the actor receives it. The library's own message classes
   * are distinguished by shape; every other object is a `User` message of
   * some class.
   */
  datatype Msg =
    | User(cls: UserClass, data: int)
    /** the envelope the scheduler uses for an untargeted delivery */
    | PostMsg(payload: Msg)
    /** the runtime's notice that a watched actor stopped */
    | AkkaTerminated(actor: ActorId)
    /** the library's own stop notice, handed to handlers instead */
    | Terminated
    /** the timeout notice of a request, carrying the request's task info */
    | TimeoutMsg(taskInfo: int)

  /** `message.getClass()`. */
  function ClassOf(m: Msg): TypeId {
    match m
    case User(c, _) => c
    case PostMsg(_) => PostMsgClass
    case AkkaTerminated(_) => AkkaTerminatedClass
    case Terminated => TerminatedClass
    case TimeoutMsg(_) => TimeoutMsgClass
  }

  /** What a step of an actor does to the world outside its own state. */
  datatype Effect =
    | Publish(msg: Msg)
    | Tell(to: ActorId, msg: Msg, from: Option<ActorId>)
    | Subscribe(subscriber: ActorId, cls: TypeId)
    | Invoke(handler: MethodId, arg: Msg)
    | Unhandled(msg: Msg)
    | RunHook(hook: MethodId)
    | TimedOut(taskInfo: int)
}
