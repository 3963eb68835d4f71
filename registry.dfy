/**
 * The cleanup registry (src/registry.ts): a lock-guarded list of cleanup
 * functions and the drain pass that `trigger` runs over them.
 *
 * Time is not modelled. Whatever the clock decides is supplied by an
 * `Environment`: how each hook and each attempt settles, whether an attempt
 * or its per-attempt timer settles first, and when the overall deadline timer
 * fires. The emitter is an append-only log of events. The per-item retry
 * loops, which the source runs concurrently, are independent traces: each
 * starts from the flag as `cleanup` found it and sees the deadline fire in
 * its own timeline; their events are logged one loop after another.
 */
module Registry {
  import opened Util
  import opened Types

  function Min(a: int, b: int): int
  {
    if a < b then a else b
  }

  function Max(a: int, b: int): int
  {
    if a < b then b else a
  }

  // ---------------------------------------------------------------------------
  // register

  /** The per-attempt timeout `register` stores: the overall timeout when none
      is given, otherwise the given one clamped to the overall timeout. */
  function ItemTimeout(timeout: Option<int>, overallTimeout: int): (t: int)
    ensures t <= overallTimeout
    ensures timeout.None? ==> t == overallTimeout
    ensures timeout.Some? && timeout.value <= overallTimeout ==> t == timeout.value
    ensures timeout.Some? && timeout.value >= overallTimeout ==> t == overallTimeout
  {
    if timeout.Some? then Min(timeout.value, overallTimeout) else overallTimeout
  }

  /** The retry delay `register` stores: the default when none is given,
      otherwise the given one clamped to the overall timeout. The default is
      not clamped, so only `Max(overallTimeout, default)` bounds the result. */
  function ItemTimeoutAfterFailure(timeoutAfterFailure: Option<int>, overallTimeout: int): (d: int)
    ensures d <= Max(overallTimeout, DefaultTimeoutAfterFailure)
    ensures timeoutAfterFailure.None? ==> d == DefaultTimeoutAfterFailure
    ensures timeoutAfterFailure.Some? ==> d <= overallTimeout
    ensures timeoutAfterFailure.Some? && timeoutAfterFailure.value <= overallTimeout ==> d == timeoutAfterFailure.value
    ensures timeoutAfterFailure.Some? && timeoutAfterFailure.value >= overallTimeout ==> d == overallTimeout
  {
    if timeoutAfterFailure.Some? then Min(timeoutAfterFailure.value, overallTimeout)
    else DefaultTimeoutAfterFailure
  }

  /** The id `register` stores: the given id, else the function's name. */
  function ItemIdFor(options: RegisterOptions): (id: ItemId)
    ensures options.id.Some? ==> id == options.id.value
    ensures options.id.None? ==> id == StrId(options.func.name)
  {
    if options.id.Some? then options.id.value else StrId(options.func.name)
  }

  /** The timeouts of every stored item respect the registry's budget. */
  predicate WithinBudget(item: CleanupItem, overallTimeout: int)
  {
    && item.timeout <= overallTimeout
    && item.timeoutAfterFailure <= Max(overallTimeout, DefaultTimeoutAfterFailure)
  }

  /** The record `register` appends. */
  function NewItem(options: RegisterOptions, overallTimeout: int): (item: CleanupItem)
    ensures WithinBudget(item, overallTimeout)
    ensures item.func == options.func
    ensures options.id.Some? ==> item.id == options.id.value
    ensures options.id.None? ==> item.id == StrId(options.func.name)
  {
    CleanupItem(
      options.func,
      ItemIdFor(options),
      ItemTimeout(options.timeout, overallTimeout),
      ItemTimeoutAfterFailure(options.timeoutAfterFailure, overallTimeout))
  }

  // ---------------------------------------------------------------------------
  // remove

  /** An item is a target of `remove` when it agrees with every discriminator
      that was supplied. */
  predicate Matches(item: CleanupItem, removeItem: RemoveItem)
  {
    && (removeItem.Func().Some? ==> item.func == removeItem.Func().value)
    && (removeItem.Id().Some? ==> item.id == removeItem.Id().value)
  }

  /** The predicate `remove` passes to `filter`: it keeps exactly the items
      that are not targets. */
  predicate Keep(item: CleanupItem, removeItem: RemoveItem): (keep: bool)
    ensures keep <==> !Matches(item, removeItem)
  {
    match removeItem
    case ByFuncAndId(f, id) => item.func != f || item.id != id
    case ByFunc(f) => item.func != f
    case ById(id) => item.id != id
  }

  /** `registry.filter(Keep)`: exactly the items that do not match survive. */
  function Filter(items: seq<CleanupItem>, removeItem: RemoveItem): (r: seq<CleanupItem>)
    ensures |r| <= |items|
    ensures forall i :: 0 <= i < |r| ==> r[i] in items && !Matches(r[i], removeItem)
    ensures forall i :: 0 <= i < |items| ==> (items[i] in r <==> !Matches(items[i], removeItem))
    decreases |items|
  {
    if items == [] then []
    else (if Keep(items[0], removeItem) then [items[0]] else []) + Filter(items[1..], removeItem)
  }

  // ---------------------------------------------------------------------------
  // trigger: what the environment decides

  /** One attempt of an item's function: how its promise settles, whether it
      or the per-attempt timer settles first, and whether the overall deadline
      timer fires before the loop next reads the expired flag. */
  datatype Attempt = Attempt(outcome: Outcome<()>, race: Race, expires: bool)

  /** Everything a drain pass observes from outside: the hooks' outcomes, one
      script of attempts per registered item, and where the deadline fires
      while a hook is awaited. */
  datatype Environment = Environment(
    pre: Outcome<()>,
    preExpires: bool,
    scripts: seq<seq<Attempt>>,
    post: Outcome<()>,
    postExpires: bool)

  /** The `error` slot after one attempt: the function raced against the
      item's timeout, then normalised by `promiseResult`. */
  function AttemptError(item: CleanupItem, a: Attempt): Option<Error>
  {
    PromiseResult(PromiseTimeout(a.outcome, item.timeout, a.race)).0
  }

  /** An attempt fails unless its function fulfils before the timer; when the
      timer wins the error is the `TimeoutError` naming the item's timeout,
      and otherwise it is the rejection reason, or `new Error()` for an
      undefined one. */
  lemma AttemptErrorCases(item: CleanupItem, a: Attempt)
    ensures AttemptError(item, a).None? <==> a.race == PromiseFirst && a.outcome.Fulfilled?
    ensures a.race == TimerFirst ==> AttemptError(item, a) == Some(TimeoutError(TimeoutMessage(item.timeout)))
    ensures a.race == PromiseFirst && a.outcome.Rejected? ==>
              AttemptError(item, a) == (if a.outcome.reason.Some? then a.outcome.reason else Some(EmptyError))
  {
  }

  /** The event one attempt emits. */
  function AttemptEvent(item: CleanupItem, a: Attempt): (ev: Event)
    ensures (ev.ItemCompleted? || ev.ItemFailed?) && ev.id == item.id
    ensures ev.ItemCompleted? <==> AttemptError(item, a).None?
    ensures ev.ItemFailed? ==> Some(ev.error) == AttemptError(item, a)
  {
    match AttemptError(item, a)
    case None => ItemCompleted(item.id)
    case Some(e) => ItemFailed(item.id, e)
  }

  /** The wait after a failed attempt: fixed after a timeout, else the item's. */
  function Backoff(item: CleanupItem, e: Error): (d: int)
    ensures e.TimeoutError? ==> d == DefaultTimeoutAfterFailure
    ensures !e.TimeoutError? ==> d == item.timeoutAfterFailure
  {
    if e.TimeoutError? then DefaultTimeoutAfterFailure else item.timeoutAfterFailure
  }

  /** The retry loop stops after this attempt: it succeeded, or the expired
      flag is up when the loop condition is evaluated. */
  predicate Stops(item: CleanupItem, a: Attempt, expired: bool)
  {
    AttemptError(item, a).None? || expired || a.expires
  }

  /** A script the loop cannot run past: its last attempt succeeds or sees the
      deadline fire. This stands for "the overall timer eventually fires". */
  predicate Terminating(item: CleanupItem, script: seq<Attempt>)
  {
    |script| > 0 && Stops(item, script[|script| - 1], false)
  }

  predicate ScriptsFor(items: seq<CleanupItem>, scripts: seq<seq<Attempt>>)
  {
    |scripts| == |items| && forall i :: 0 <= i < |items| ==> Terminating(items[i], scripts[i])
  }

  // ---------------------------------------------------------------------------
  // trigger: the specification of a pass

  /** What one item's retry loop emits and waits, and the flag it leaves. */
  datatype ItemTrace = ItemTrace(events: seq<Event>, delays: seq<int>, expired: bool)

  /** The do/while loop of `cleanup` for one item, starting with the flag at
      `expired`. It emits one event per attempt, goes on after every attempt
      that fails with the flag down, and waits one back-off per failure. */
  function ItemRun(item: CleanupItem, script: seq<Attempt>, expired: bool): (t: ItemTrace)
    requires Terminating(item, script)
    ensures 1 <= |t.events| <= |script|
    decreases |script|
  {
    var a := script[0];
    var flag := expired || a.expires;
    match AttemptError(item, a)
    case None => ItemTrace([ItemCompleted(item.id)], [], flag)
    case Some(err) =>
      if flag then ItemTrace([ItemFailed(item.id, err)], [Backoff(item, err)], flag)
      else
        var rest := ItemRun(item, script[1..], flag);
        ItemTrace([ItemFailed(item.id, err)] + rest.events, [Backoff(item, err)] + rest.delays, rest.expired)
  }

  /** The loop's trace is determined by the first attempt after which it
      stops: one event per attempt up to and including that one, one back-off
      per failure, and the flag raised if it was up or that attempt raised it. */
  lemma {:induction false} ItemRunIsFirstStop(item: CleanupItem, script: seq<Attempt>, expired: bool, n: nat)
    requires Terminating(item, script)
    requires 0 < n <= |script|
    requires forall i :: 0 <= i < n - 1 ==> !Stops(item, script[i], expired)
    requires Stops(item, script[n - 1], expired)
    ensures var t := ItemRun(item, script, expired);
            && |t.events| == n
            && (forall i :: 0 <= i < n ==> t.events[i] == AttemptEvent(item, script[i]))
            && t.expired == (expired || script[n - 1].expires)
            && |t.delays| == (if AttemptError(item, script[n - 1]).None? then n - 1 else n)
            && (forall i :: 0 <= i < |t.delays| ==>
                  AttemptError(item, script[i]).Some? && t.delays[i] == Backoff(item, AttemptError(item, script[i]).value))
    decreases n
  {
    if n > 1 {
      assert !Stops(item, script[0], expired);
      var tail := script[1..];
      assert tail[|tail| - 1] == script[|script| - 1];
      forall i | 0 <= i < n - 2
        ensures !Stops(item, tail[i], expired)
      {
        assert tail[i] == script[i + 1];
      }
      ItemRunIsFirstStop(item, tail, expired, n - 1);
    }
  }

  lemma AppendThree<T>(a: seq<T>, b: seq<T>, c: seq<T>)
    ensures a + (b + c) == a + b + c
  {
  }

  /** Every item's loop, as `cleanup` runs them: all loops start together
      with the flag as it is when `cleanup` begins, and each sees the deadline
      in its own timeline, so one item's loop never cuts another's short. The
      events are each loop's events in registry order; the flag left behind
      is up if it was up at the start or any loop saw the deadline. */
  function ItemsRun(items: seq<CleanupItem>, scripts: seq<seq<Attempt>>, expired: bool): (r: (seq<Event>, bool))
    requires ScriptsFor(items, scripts)
    ensures |r.0| >= |items|
    ensures expired ==> r.1
    decreases |items|
  {
    if items == [] then ([], expired)
    else
      var n := |items| - 1;
      var prev := ItemsRun(items[..n], scripts[..n], expired);
      var last := ItemRun(items[n], scripts[n], expired);
      (prev.0 + last.events, prev.1 || last.expired)
  }

  /** The error of a hook, or none when the hook is not configured. */
  function HookError(hook: Option<AsyncFunc>, outcome: Outcome<()>): (e: Option<Error>)
    ensures e.Some? <==> hook.Some? && outcome.Rejected?
    ensures hook.Some? && outcome.Rejected? && outcome.reason.Some? ==> e == outcome.reason
    ensures hook.Some? && outcome == Rejected(None) ==> e == Some(EmptyError)
  {
    if hook.Some? then PromiseResult(outcome).0 else None
  }

  /** A strict flag is set only when it is defined and true. */
  predicate IsSet(flag: Option<bool>)
  {
    flag == Some(true)
  }

  /** What a drain pass emits, the expired flag it leaves and how the promise
      returned by `trigger` settles. */
  datatype PassTrace = PassTrace(events: seq<Event>, expired: bool, result: Outcome<()>)

  /** A first `trigger`: `started`, the pre-hook, every item's loop, the
      post-hook, and exactly one `finished`. The deadline can only fire while
      something is awaited, so not during a hook that is not configured. */
  function Pass(
    preCleanup: Option<AsyncFunc>,
    postCleanup: Option<AsyncFunc>,
    options: TriggerOptions,
    items: seq<CleanupItem>,
    env: Environment): (p: PassTrace)
    requires ScriptsFor(items, env.scripts)
    ensures |p.events| >= 2 && p.events[0] == Started && p.events[|p.events| - 1].Finished?
  {
    var preExpired := preCleanup.Some? && env.preExpires;
    var preErr := HookError(preCleanup, env.pre);
    if preErr.Some? && IsSet(options.shouldThrowIfPreErrors) then
      PassTrace([Started, Finished(PreThrown)], preExpired, Rejected(preErr))
    else
      var rest := Drain(postCleanup, options, items, env, preExpired);
      PassTrace([Started] + rest.events, rest.expired, rest.result)
  }

  /** The part of a pass after the pre-hook: every item's loop, the post-hook
      and the `finished` event, starting with the flag at `expired`. */
  function Drain(
    postCleanup: Option<AsyncFunc>,
    options: TriggerOptions,
    items: seq<CleanupItem>,
    env: Environment,
    expired: bool): (p: PassTrace)
    requires ScriptsFor(items, env.scripts)
    ensures |p.events| >= 1 && p.events[|p.events| - 1].Finished?
  {
    var run := ItemsRun(items, env.scripts, expired);
    var expiredAfter := run.1 || (postCleanup.Some? && env.postExpires);
    var postErr := HookError(postCleanup, env.post);
    if postErr.Some? && IsSet(options.shouldThrowIfPostErrors) then
      PassTrace(run.0 + [Finished(PostThrown)], expiredAfter, Rejected(postErr))
    else
      PassTrace(run.0 + [Finished(if expiredAfter then TimedOut else Success)], expiredAfter, Fulfilled(()))
  }

  // ---------------------------------------------------------------------------
  // the registry object

  class CleanupRegistry {
    const preCleanup: Option<AsyncFunc>
    const postCleanup: Option<AsyncFunc>
    const overallTimeout: int

    var registry: seq<CleanupItem>
    var hasTriggered: bool
    var overallExpired: bool
    /** Every event emitted so far, oldest first. */
    var events: seq<Event>

    /** Stored timeouts respect the budget, and the deadline flag is only up
        once a pass has started. */
    ghost predicate Valid()
      reads this
    {
      && (forall i :: 0 <= i < |registry| ==> WithinBudget(registry[i], overallTimeout))
      && (!hasTriggered ==> !overallExpired)
    }

    constructor (registryOptions: Option<RegistryOptions>)
      ensures Valid()
      ensures preCleanup == (if registryOptions.Some? then registryOptions.value.preCleanup else None)
      ensures postCleanup == (if registryOptions.Some? then registryOptions.value.postCleanup else None)
      ensures overallTimeout ==
                if registryOptions.Some? && registryOptions.value.overallTimeout.Some?
                then registryOptions.value.overallTimeout.value
                else DefaultOverallTimeout
      ensures registry == [] && !hasTriggered && !overallExpired && events == []
    {
      if registryOptions.Some? {
        preCleanup := registryOptions.value.preCleanup;
        postCleanup := registryOptions.value.postCleanup;
        overallTimeout :=
          if registryOptions.value.overallTimeout.Some? then registryOptions.value.overallTimeout.value
          else DefaultOverallTimeout;
      } else {
        preCleanup, postCleanup, overallTimeout := None, None, DefaultOverallTimeout;
      }
      registry, hasTriggered, overallExpired, events := [], false, false, [];
    }

    /** Appends an item unless the registry has been triggered, in which case
        it silently does nothing. */
    method Register(registerItem: RegisterOptions)
      requires Valid()
      modifies this`registry
      ensures Valid()
      ensures old(hasTriggered) ==> registry == old(registry)
      ensures !old(hasTriggered) ==> registry == old(registry) + [NewItem(registerItem, overallTimeout)]
    {
      if hasTriggered {
        return;
      }

      var itemId := if registerItem.id.Some? then registerItem.id.value else StrId(registerItem.func.name);

      var itemTimeout := overallTimeout;
      if registerItem.timeout.Some? {
        itemTimeout := if registerItem.timeout.value < overallTimeout then registerItem.timeout.value else overallTimeout;
      }

      var itemTimeoutAfterFailure := DefaultTimeoutAfterFailure;
      if registerItem.timeoutAfterFailure.Some? {
        itemTimeoutAfterFailure :=
          if registerItem.timeoutAfterFailure.value < overallTimeout then registerItem.timeoutAfterFailure.value
          else overallTimeout;
      }

      registry := registry + [CleanupItem(registerItem.func, itemId, itemTimeout, itemTimeoutAfterFailure)];
    }

    /** Drops every item matching the discriminators, unless the registry has
        been triggered, in which case it silently does nothing. */
    method Remove(removeItem: RemoveItem)
      requires Valid()
      modifies this`registry
      ensures Valid()
      ensures old(hasTriggered) ==> registry == old(registry)
      ensures !old(hasTriggered) ==> registry == Filter(old(registry), removeItem)
    {
      if hasTriggered {
        return;
      }
      registry := Filter(registry, removeItem);
    }

    /** Runs one drain pass; a repeated call before `Clear` does nothing and
        resolves. The returned outcome is how the promise of `trigger`
        settles. */
    method Trigger(triggerOptions: TriggerOptions, env: Environment) returns (r: Outcome<()>)
      requires Valid()
      requires ScriptsFor(registry, env.scripts)
      modifies this`hasTriggered, this`events, this`overallExpired
      ensures Valid() && hasTriggered
      ensures old(hasTriggered) ==>
                r == Fulfilled(()) && events == old(events) && overallExpired == old(overallExpired)
      ensures !old(hasTriggered) ==>
                var p := Pass(preCleanup, postCleanup, triggerOptions, registry, env);
                events == old(events) + p.events && overallExpired == p.expired && r == p.result
    {
      if hasTriggered {
        return Fulfilled(());
      }

      hasTriggered := true;
      Emit(Started);

      if preCleanup.Some? {
        if env.preExpires {
          OnOverallExpire();
        }
        var (preErr, _) := PromiseResult(env.pre);
        if preErr.Some? && triggerOptions.shouldThrowIfPreErrors == Some(true) {
          Finish(PreThrown);
          return Rejected(preErr);
        }
      }

      ghost var afterStart := events;
      r := DrainAndFinish(triggerOptions, env);
      AppendThree(old(events), [Started], events[|afterStart|..]);
    }

    /** The rest of `trigger` once the pre-hook has not aborted it: `cleanup`,
        the post-hook and `finish`. */
    method DrainAndFinish(triggerOptions: TriggerOptions, env: Environment) returns (r: Outcome<()>)
      requires ScriptsFor(registry, env.scripts)
      modifies this`events, this`overallExpired
      ensures var p := Drain(postCleanup, triggerOptions, registry, env, old(overallExpired));
              events == old(events) + p.events && overallExpired == p.expired && r == p.result
    {
      Cleanup(env.scripts);
      ghost var run := ItemsRun(registry, env.scripts, old(overallExpired));

      if postCleanup.Some? {
        if env.postExpires {
          OnOverallExpire();
        }
        var (postErr, _) := PromiseResult(env.post);
        if postErr.Some? && triggerOptions.shouldThrowIfPostErrors == Some(true) {
          Finish(PostThrown);
          AppendThree(old(events), run.0, [Finished(PostThrown)]);
          return Rejected(postErr);
        }
      }

      var status := if overallExpired then TimedOut else Success;
      Finish(status);
      AppendThree(old(events), run.0, [Finished(status)]);
      return Fulfilled(());
    }

    /** Empties the registry and resets both flags; allowed at any time. */
    method Clear()
      modifies this`registry, this`hasTriggered, this`overallExpired
      ensures Valid()
      ensures registry == [] && !hasTriggered && !overallExpired
    {
      registry := [];
      hasTriggered := false;
      overallExpired := false;
    }

    /** Emits the single `finished` event of a pass. */
    method Finish(status: FinishStatus)
      modifies this`events
      ensures events == old(events) + [Finished(status)]
    {
      Emit(Finished(status));
    }

    /** Runs every item's retry loop. All loops start with the flag as it is
        now; any of them may raise it. */
    method Cleanup(scripts: seq<seq<Attempt>>)
      requires ScriptsFor(registry, scripts)
      modifies this`events, this`overallExpired
      ensures var r := ItemsRun(registry, scripts, old(overallExpired));
              events == old(events) + r.0 && overallExpired == r.1
    {
      var start := overallExpired;
      for i := 0 to |registry|
        invariant ScriptsFor(registry[..i], scripts[..i])
        invariant var r := ItemsRun(registry[..i], scripts[..i], start);
                  events == old(events) + r.0 && overallExpired == r.1
      {
        assert registry[..i + 1][..i] == registry[..i];
        assert scripts[..i + 1][..i] == scripts[..i];
        ghost var before := events;
        var _ := RunItem(registry[i], scripts[i], start);
        AppendThree(old(events), ItemsRun(registry[..i], scripts[..i], start).0, events[|before|..]);
      }
      assert registry[..|registry|] == registry;
      assert scripts[..|scripts|] == scripts;
    }

    /** The do/while retry loop of one item, started with the flag at `start`,
        its value when `cleanup` began. The loops of `cleanup` run
        concurrently, so `expiredSeen` is `overallExpired` as this loop reads
        it in its own timeline: raised only by the deadline firing during one
        of its own attempts, never by another item's loop run before it here.
        Returns the back-off delays it awaited, one per failed attempt. */
    method RunItem(item: CleanupItem, script: seq<Attempt>, start: bool) returns (delays: seq<int>)
      requires Terminating(item, script)
      requires start ==> overallExpired
      modifies this`events, this`overallExpired
      ensures var t := ItemRun(item, script, start);
              && events == old(events) + t.events
              && overallExpired == (old(overallExpired) || t.expired)
              && delays == t.delays
    {
      ghost var done: seq<Event> := [];
      var expiredSeen := start;
      var k := 0;
      var stop := false;
      delays := [];
      while !stop
        invariant k <= |script|
        invariant events == old(events) + done && |done| == k
        invariant overallExpired == (old(overallExpired) || expiredSeen)
        invariant forall i :: 0 <= i < k ==> done[i] == AttemptEvent(item, script[i])
        invariant forall i :: 0 <= i < k - 1 ==> !Stops(item, script[i], start)
        invariant !stop ==> (forall i :: 0 <= i < k ==> !Stops(item, script[i], start))
        invariant !stop ==> k < |script| && expiredSeen == start && |delays| == k
        invariant stop ==> 0 < k && Stops(item, script[k - 1], start)
        invariant stop ==> expiredSeen == (start || script[k - 1].expires)
        invariant stop ==> |delays| == (if AttemptError(item, script[k - 1]).None? then k - 1 else k)
        invariant forall i :: 0 <= i < |delays| ==>
                    AttemptError(item, script[i]).Some? && delays[i] == Backoff(item, AttemptError(item, script[i]).value)
        decreases |script| - k
      {
        var attempt := script[k];
        var (error, _) := PromiseResult(PromiseTimeout(attempt.outcome, item.timeout, attempt.race));
        assert error == AttemptError(item, attempt);
        if attempt.expires {
          OnOverallExpire();
          expiredSeen := true;
        }
        if error.Some? {
          Emit(ItemFailed(item.id, error.value));
          done := done + [ItemFailed(item.id, error.value)];
          var delayMs := if error.value.TimeoutError? then DefaultTimeoutAfterFailure else item.timeoutAfterFailure;
          delays := delays + [delayMs];
        } else {
          Emit(ItemCompleted(item.id));
          done := done + [ItemCompleted(item.id)];
        }
        stop := !(error.Some? && !expiredSeen);
        k := k + 1;
      }
      ItemRunIsFirstStop(item, script, start, k);
    }

    /** The callback of the overall timer that `initCleanupExpiredTimer` arms. */
    method OnOverallExpire()
      modifies this`overallExpired
      ensures overallExpired
    {
      overallExpired := true;
    }

    /** `emit`: appends one event to the log. */
    method Emit(e: Event)
      modifies this`events
      ensures events == old(events) + [e]
    {
      events := events + [e];
    }
  }
}
