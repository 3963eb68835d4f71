/**
 * The value types of the cleanup registry: registered items, the arguments of
 * `register`, `remove` and `trigger`, the events the registry emits and its
 * configuration constants (src/common/types.ts, interfaces.ts, constants.ts),
 * named as src/registry.ts uses them.
 */
module Types {
  import opened Util

  /** The overall budget of a cleanup pass when none is configured, in ms. */
  const DefaultOverallTimeout: int := 10000

  /** The wait after a failed attempt: the default per-item retry delay, and
      the fixed back-off after every `TimeoutError`, in ms. */
  const DefaultTimeoutAfterFailure: int := 500

  /** A registered asynchronous function. The registry compares functions by
      reference, which a class gives for free; `name` is the function's
      `name` property, used as its id when none is supplied. */
  class AsyncFunc {
    const name: string

    constructor (name: string)
      ensures this.name == name
    {
      this.name := name;
    }
  }

  /** An item id is a string or a symbol; a symbol is an opaque unique token. */
  datatype ItemId = StrId(text: string) | SymId(key: nat)

  /** A record of the registry, with its timeouts already resolved. */
  datatype CleanupItem = CleanupItem(func: AsyncFunc, id: ItemId, timeout: int, timeoutAfterFailure: int)

  /** The argument of `register`: only `func` is mandatory. */
  datatype RegisterOptions = RegisterOptions(
    func: AsyncFunc,
    id: Option<ItemId>,
    timeout: Option<int>,
    timeoutAfterFailure: Option<int>)

  /** The argument of `remove`: a function, an id, or both (at least one). */
  datatype RemoveItem =
    | ByFunc(func: AsyncFunc)
    | ById(id: ItemId)
    | ByFuncAndId(func: AsyncFunc, id: ItemId)
  {
    function Func(): Option<AsyncFunc>
    {
      match this
      case ByFunc(f) => Some(f)
      case ById(_) => None
      case ByFuncAndId(f, _) => Some(f)
    }

    function Id(): Option<ItemId>
    {
      match this
      case ByFunc(_) => None
      case ById(i) => Some(i)
      case ByFuncAndId(_, i) => Some(i)
    }
  }

  /** The options of `trigger`; a flag left undefined counts as false. */
  datatype TriggerOptions = TriggerOptions(shouldThrowIfPreErrors: Option<bool>, shouldThrowIfPostErrors: Option<bool>)

  /** The default trigger options set neither flag that `trigger` reads. */
  const DefaultTriggerOptions: TriggerOptions := TriggerOptions(None, None)

  /** The constructor's options. */
  datatype RegistryOptions = RegistryOptions(
    preCleanup: Option<AsyncFunc>,
    postCleanup: Option<AsyncFunc>,
    overallTimeout: Option<int>)

  /** The statuses `trigger` reports in its `finished` event. */
  datatype FinishStatus = Success | TimedOut | PreThrown | PostThrown

  /** The events the registry emits, in the order it emits them. */
  datatype Event =
    | Started
    | ItemCompleted(id: ItemId)
    | ItemFailed(id: ItemId, error: Error)
    | Finished(status: FinishStatus)
}
