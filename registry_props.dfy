/**
 * What a drain pass of the cleanup registry guarantees, and what `remove`
 * guarantees about the list it filters, proved about the specification
 * functions of module Registry.
 */
module RegistryProps {
  import opened Util
  import opened Types
  import opened Registry

  /** The ids of a list of items, in order. */
  function Ids(items: seq<CleanupItem>): (ids: seq<ItemId>)
    ensures |ids| == |items|
    ensures forall i :: 0 <= i < |items| ==> ids[i] == items[i].id
  {
    seq(|items|, i requires 0 <= i < |items| => items[i].id)
  }

  /** One `itemCompleted` per item, in registration order. */
  function Completions(items: seq<CleanupItem>): (s: seq<Event>)
    ensures |s| == |items|
    ensures forall i :: 0 <= i < |items| ==> s[i] == ItemCompleted(items[i].id)
  {
    seq(|items|, i requires 0 <= i < |items| => ItemCompleted(items[i].id))
  }

  /** An `itemCompleted` or `itemFailed` event about one of `items`. */
  predicate AboutItems(e: Event, items: seq<CleanupItem>)
  {
    (e.ItemCompleted? || e.ItemFailed?) && e.id in Ids(items)
  }

  /** Every one of `events` is an item event about one of `items`. */
  predicate AllAboutItems(events: seq<Event>, items: seq<CleanupItem>)
  {
    forall i :: 0 <= i < |events| ==> AboutItems(events[i], items)
  }

  /** The status carried by the last event of a pass. */
  function StatusOf(p: PassTrace): FinishStatus
    requires |p.events| >= 1 && p.events[|p.events| - 1].Finished?
  {
    p.events[|p.events| - 1].status
  }

  // ---------------------------------------------------------------------------
  // one item's retry loop

  /** The loop runs exactly up to the first attempt after which it may stop:
      it never stops early and never runs past it. */
  lemma {:induction false} ItemRunStopsAtFirst(item: CleanupItem, script: seq<Attempt>, expired: bool)
    requires Terminating(item, script)
    ensures var t := ItemRun(item, script, expired);
            && (forall i :: 0 <= i < |t.events| - 1 ==> !Stops(item, script[i], expired))
            && Stops(item, script[|t.events| - 1], expired)
    decreases |script|
  {
    if !Stops(item, script[0], expired) {
      var tail := script[1..];
      assert tail[|tail| - 1] == script[|script| - 1];
      ItemRunStopsAtFirst(item, tail, expired);
      var t := ItemRun(item, script, expired);
      var rest := ItemRun(item, tail, expired);
      assert t.events == [t.events[0]] + rest.events;
      forall i | 0 <= i < |t.events| - 1
        ensures !Stops(item, script[i], expired)
      {
        if i > 0 {
          assert script[i] == tail[i - 1];
        }
      }
      assert script[|t.events| - 1] == tail[|rest.events| - 1];
    }
  }

  /** One item's retry loop: it makes at least one attempt and emits one event
      per attempt; every attempt but the last failed with the flag down and
      emitted `itemFailed(id, error)`; the last emitted `itemCompleted(id)` if
      it succeeded and otherwise left the flag up; after every failure the
      loop waited the fixed back-off if the error was a `TimeoutError`, and
      the item's own retry delay otherwise. */
  lemma {:induction false} ItemRunTrace(item: CleanupItem, script: seq<Attempt>, expired: bool)
    requires Terminating(item, script)
    ensures var t := ItemRun(item, script, expired);
            var n := |t.events|;
            && 1 <= n <= |script|
            && (forall i :: 0 <= i < n ==> t.events[i] == AttemptEvent(item, script[i]))
            && (forall i :: 0 <= i < n - 1 ==> t.events[i].ItemFailed? && !expired && !script[i].expires)
            && (t.events[n - 1].ItemCompleted? <==> AttemptError(item, script[n - 1]).None?)
            && (t.events[n - 1].ItemFailed? ==> t.expired)
            && t.expired == (expired || script[n - 1].expires)
            && |t.delays| == (if t.events[n - 1].ItemCompleted? then n - 1 else n)
            && (forall i :: 0 <= i < |t.delays| ==>
                  && t.events[i].ItemFailed?
                  && t.delays[i] == (if t.events[i].error.TimeoutError? then DefaultTimeoutAfterFailure
                                     else item.timeoutAfterFailure))
  {
    var t := ItemRun(item, script, expired);
    ItemRunStopsAtFirst(item, script, expired);
    ItemRunIsFirstStop(item, script, expired, |t.events|);
  }

  /** An item whose every attempt fails with the same error until the
      deadline fires during the last one: one `itemFailed` with that error per
      attempt, and the same back-off after each. */
  lemma {:induction false} ItemRunRepeatedFailure(item: CleanupItem, script: seq<Attempt>, err: Error)
    requires |script| > 0
    requires forall i :: 0 <= i < |script| ==> AttemptError(item, script[i]) == Some(err)
    requires forall i :: 0 <= i < |script| - 1 ==> !script[i].expires
    requires script[|script| - 1].expires
    ensures Terminating(item, script)
    ensures var t := ItemRun(item, script, false);
            && t.events == seq(|script|, i => ItemFailed(item.id, err))
            && t.delays == seq(|script|, i => Backoff(item, err))
            && t.expired
    decreases |script|
  {
    var t := ItemRun(item, script, false);
    if |script| == 1 {
      assert t.events == [ItemFailed(item.id, err)] == seq(1, i => ItemFailed(item.id, err));
      assert t.delays == [Backoff(item, err)] == seq(1, i => Backoff(item, err));
    } else {
      var tail := script[1..];
      forall j | 0 <= j < |tail|
        ensures AttemptError(item, tail[j]) == Some(err)
      {
        assert tail[j] == script[j + 1];
      }
      forall j | 0 <= j < |tail| - 1
        ensures !tail[j].expires
      {
        assert tail[j] == script[j + 1];
      }
      assert tail[|tail| - 1] == script[|script| - 1];
      ItemRunRepeatedFailure(item, tail, err);
      assert AttemptError(item, script[0]) == Some(err) && !script[0].expires;
      var rest := ItemRun(item, tail, false);
      assert t.events == [ItemFailed(item.id, err)] + rest.events;
      assert t.delays == [Backoff(item, err)] + rest.delays;
      assert seq(|script|, i => ItemFailed(item.id, err)) == [ItemFailed(item.id, err)] + seq(|tail|, i => ItemFailed(item.id, err));
      assert seq(|script|, i => Backoff(item, err)) == [Backoff(item, err)] + seq(|tail|, i => Backoff(item, err));
    }
  }

  /** An item whose every attempt is cut off by its per-attempt timer, until
      the deadline fires during the last one: one `itemFailed` per attempt,
      each carrying the `TimeoutError` that names the item's timeout, and
      the fixed back-off after each. */
  lemma ItemRunAlwaysTimingOut(item: CleanupItem, script: seq<Attempt>)
    requires |script| > 0
    requires forall i :: 0 <= i < |script| ==> script[i].race == TimerFirst
    requires forall i :: 0 <= i < |script| - 1 ==> !script[i].expires
    requires script[|script| - 1].expires
    ensures Terminating(item, script)
    ensures var t := ItemRun(item, script, false);
            && t.events == seq(|script|, i => ItemFailed(item.id, TimeoutError(TimeoutMessage(item.timeout))))
            && t.delays == seq(|script|, i => DefaultTimeoutAfterFailure)
            && t.expired
  {
    var err := TimeoutError(TimeoutMessage(item.timeout));
    forall i | 0 <= i < |script|
      ensures AttemptError(item, script[i]) == Some(err)
    {
      TimedOutAttemptError(script[i].outcome, item.timeout);
    }
    ItemRunRepeatedFailure(item, script, err);
    assert Backoff(item, err) == DefaultTimeoutAfterFailure;
  }

  // ---------------------------------------------------------------------------
  // all items

  /** The loops emit only item events, each about a registered item, and
      never lower the flag. */
  lemma {:induction false} ItemsRunEvents(items: seq<CleanupItem>, scripts: seq<seq<Attempt>>, expired: bool)
    requires ScriptsFor(items, scripts)
    ensures var r := ItemsRun(items, scripts, expired);
            && (expired ==> r.1)
            && AllAboutItems(r.0, items)
    decreases |items|
  {
    if items != [] {
      var n := |items| - 1;
      ItemsRunEvents(items[..n], scripts[..n], expired);
      var prev := ItemsRun(items[..n], scripts[..n], expired);
      var last := ItemRun(items[n], scripts[n], expired);
      ItemRunTrace(items[n], scripts[n], expired);
      var r := ItemsRun(items, scripts, expired);
      assert r.0 == prev.0 + last.events;
      assert Ids(items[..n]) == Ids(items)[..n];
      assert AllAboutItems(prev.0, items[..n]);
      forall i | 0 <= i < |r.0|
        ensures AboutItems(r.0[i], items)
      {
        if i < |prev.0| {
          assert r.0[i] == prev.0[i];
        } else {
          assert r.0[i] == last.events[i - |prev.0|];
          assert Ids(items)[n] == r.0[i].id;
        }
      }
    }
  }

  /** The events of a sequence of sequences, one after another. */
  function Concat<T>(ss: seq<seq<T>>): (r: seq<T>)
    decreases |ss|
  {
    if ss == [] then [] else Concat(ss[..|ss| - 1]) + ss[|ss| - 1]
  }

  /** Each item's own loop, every one started from the same flag. */
  function LoopRuns(items: seq<CleanupItem>, scripts: seq<seq<Attempt>>, expired: bool): (runs: seq<ItemTrace>)
    requires ScriptsFor(items, scripts)
    ensures |runs| == |items|
    ensures forall i :: 0 <= i < |items| ==> runs[i] == ItemRun(items[i], scripts[i], expired)
  {
    seq(|items|, i requires 0 <= i < |items| && ScriptsFor(items, scripts) => ItemRun(items[i], scripts[i], expired))
  }

  function EventsOf(runs: seq<ItemTrace>): (es: seq<seq<Event>>)
    ensures |es| == |runs|
    ensures forall i :: 0 <= i < |runs| ==> es[i] == runs[i].events
  {
    seq(|runs|, i requires 0 <= i < |runs| => runs[i].events)
  }

  /** `cleanup` is every item's own retry loop, joined in registry order: each
      item is attempted at least once, and its block of events is exactly what
      its loop emits started from the flag as `cleanup` found it, whatever the
      other items do. */
  lemma {:induction false} ItemsRunJoinsLoops(items: seq<CleanupItem>, scripts: seq<seq<Attempt>>, expired: bool)
    requires ScriptsFor(items, scripts)
    ensures var runs := LoopRuns(items, scripts, expired);
            && ItemsRun(items, scripts, expired).0 == Concat(EventsOf(runs))
            && (forall i :: 0 <= i < |items| ==> |runs[i].events| >= 1)
    decreases |items|
  {
    if items != [] {
      var n := |items| - 1;
      var runs := LoopRuns(items, scripts, expired);
      ItemsRunJoinsLoops(items[..n], scripts[..n], expired);
      assert LoopRuns(items[..n], scripts[..n], expired) == runs[..n];
      assert EventsOf(runs)[..n] == EventsOf(runs[..n]);
    }
  }

  /** Some item's loop saw the deadline. */
  predicate SomeLoopExpired(runs: seq<ItemTrace>)
  {
    exists i :: 0 <= i < |runs| && runs[i].expired
  }

  lemma SomeLoopExpiredSnoc(runs: seq<ItemTrace>)
    requires |runs| > 0
    ensures SomeLoopExpired(runs) == (SomeLoopExpired(runs[..|runs| - 1]) || runs[|runs| - 1].expired)
  {
    var n := |runs| - 1;
    if SomeLoopExpired(runs[..n]) {
      var i :| 0 <= i < n && runs[..n][i].expired;
      assert runs[i].expired;
    }
    if SomeLoopExpired(runs) {
      var i :| 0 <= i < |runs| && runs[i].expired;
      if i < n {
        assert runs[..n][i].expired;
      }
    }
  }

  /** After `cleanup` the flag is up exactly when it was up before or some
      item's loop saw the deadline. */
  lemma {:induction false} ItemsRunFlag(items: seq<CleanupItem>, scripts: seq<seq<Attempt>>, expired: bool)
    requires ScriptsFor(items, scripts)
    ensures ItemsRun(items, scripts, expired).1 == (expired || SomeLoopExpired(LoopRuns(items, scripts, expired)))
    decreases |items|
  {
    if items != [] {
      var n := |items| - 1;
      var runs := LoopRuns(items, scripts, expired);
      ItemsRunFlag(items[..n], scripts[..n], expired);
      assert LoopRuns(items[..n], scripts[..n], expired) == runs[..n];
      SomeLoopExpiredSnoc(runs);
    }
  }

  /** Whether every attempt of an item fails, and the deadline fires during the
      last one only. */
  predicate FailsUntilDeadline(item: CleanupItem, script: seq<Attempt>)
  {
    && |script| > 0
    && (forall j :: 0 <= j < |script| ==> AttemptError(item, script[j]).Some?)
    && (forall j :: 0 <= j < |script| - 1 ==> !script[j].expires)
    && script[|script| - 1].expires
  }

  /** The number of attempts of all scripts together. */
  function TotalAttempts(scripts: seq<seq<Attempt>>): nat
    decreases |scripts|
  {
    if scripts == [] then 0 else TotalAttempts(scripts[..|scripts| - 1]) + |scripts[|scripts| - 1]|
  }

  /** Every one of `events` is an `itemFailed`. */
  predicate AllFailed(events: seq<Event>)
  {
    forall k :: 0 <= k < |events| ==> events[k].ItemFailed?
  }

  /** An item that fails until the deadline makes every attempt of its script,
      each emitting `itemFailed`, and leaves the flag up. */
  lemma {:induction false} ItemRunFailsUntilDeadline(item: CleanupItem, script: seq<Attempt>)
    requires FailsUntilDeadline(item, script)
    ensures Terminating(item, script)
    ensures var t := ItemRun(item, script, false);
            |t.events| == |script| && AllFailed(t.events) && t.expired
    decreases |script|
  {
    assert AttemptError(item, script[0]).Some?;
    if |script| > 1 {
      var tail := script[1..];
      assert !script[0].expires;
      forall j | 0 <= j < |tail|
        ensures AttemptError(item, tail[j]).Some?
      {
        assert tail[j] == script[j + 1];
      }
      forall j | 0 <= j < |tail| - 1
        ensures !tail[j].expires
      {
        assert tail[j] == script[j + 1];
      }
      assert tail[|tail| - 1] == script[|script| - 1];
      ItemRunFailsUntilDeadline(item, tail);
      var t := ItemRun(item, script, false);
      var rest := ItemRun(item, tail, false);
      assert t.events == [ItemFailed(item.id, AttemptError(item, script[0]).value)] + rest.events;
      assert AllFailed(t.events) by {
        forall k | 0 <= k < |t.events|
          ensures t.events[k].ItemFailed?
        {
          if k > 0 {
            assert t.events[k] == rest.events[k - 1];
          }
        }
      }
    }
  }

  lemma AllFailedAppend(a: seq<Event>, b: seq<Event>)
    requires AllFailed(a) && AllFailed(b)
    ensures AllFailed(a + b)
  {
    forall k | 0 <= k < |a + b|
      ensures (a + b)[k].ItemFailed?
    {
      if k < |a| {
        assert (a + b)[k] == a[k];
      } else {
        assert (a + b)[k] == b[k - |a|];
      }
    }
  }

  lemma FailingScriptsTerminate(items: seq<CleanupItem>, scripts: seq<seq<Attempt>>)
    requires |scripts| == |items|
    requires forall i :: 0 <= i < |items| ==> FailsUntilDeadline(items[i], scripts[i])
    ensures ScriptsFor(items, scripts)
  {
    forall i | 0 <= i < |items|
      ensures Terminating(items[i], scripts[i])
    {
      ItemRunFailsUntilDeadline(items[i], scripts[i]);
    }
  }

  /** When every item's function keeps failing until the deadline, every item
      retries until its own loop sees the deadline: each attempt of each item
      emits one `itemFailed`, and no broken item cuts another's retries short. */
  lemma {:induction false} ItemsRunAllFailing(items: seq<CleanupItem>, scripts: seq<seq<Attempt>>)
    requires |scripts| == |items|
    requires forall i :: 0 <= i < |items| ==> FailsUntilDeadline(items[i], scripts[i])
    ensures ScriptsFor(items, scripts)
    ensures |ItemsRun(items, scripts, false).0| == TotalAttempts(scripts)
    ensures AllFailed(ItemsRun(items, scripts, false).0)
    ensures |items| > 0 ==> ItemsRun(items, scripts, false).1
    decreases |items|
  {
    FailingScriptsTerminate(items, scripts);
    if items != [] {
      var n := |items| - 1;
      ItemsRunAllFailing(items[..n], scripts[..n]);
      ItemRunFailsUntilDeadline(items[n], scripts[n]);
      var prev := ItemsRun(items[..n], scripts[..n], false);
      var last := ItemRun(items[n], scripts[n], false);
      assert ItemsRun(items, scripts, false) == (prev.0 + last.events, prev.1 || last.expired);
      AllFailedAppend(prev.0, last.events);
    }
  }

  /** When every item's first attempt succeeds, each item emits exactly one
      `itemCompleted`, in registration order, and the flag is only raised if
      some first attempt raised it. */
  lemma {:induction false} ItemsRunAllResolve(items: seq<CleanupItem>, scripts: seq<seq<Attempt>>, expired: bool)
    requires ScriptsFor(items, scripts)
    requires forall i :: 0 <= i < |items| ==> AttemptError(items[i], scripts[i][0]).None?
    ensures ItemsRun(items, scripts, expired).0 == Completions(items)
    ensures (forall i :: 0 <= i < |items| ==> !scripts[i][0].expires) ==> ItemsRun(items, scripts, expired).1 == expired
    decreases |items|
  {
    if items != [] {
      var n := |items| - 1;
      ItemsRunAllResolve(items[..n], scripts[..n], expired);
      assert Completions(items) == Completions(items[..n]) + [ItemCompleted(items[n].id)];
    }
  }

  // ---------------------------------------------------------------------------
  // a whole pass

  /** A pass emits `started` first and a single `finished` last; everything in
      between is an item event about a registered item. */
  lemma PassShape(
    preCleanup: Option<AsyncFunc>, postCleanup: Option<AsyncFunc>,
    options: TriggerOptions, items: seq<CleanupItem>, env: Environment)
    requires ScriptsFor(items, env.scripts)
    ensures var p := Pass(preCleanup, postCleanup, options, items, env);
            && p.events[0] == Started
            && p.events[|p.events| - 1].Finished?
            && (forall i :: 0 < i < |p.events| - 1 ==> AboutItems(p.events[i], items))
  {
    var p := Pass(preCleanup, postCleanup, options, items, env);
    var preExpired := preCleanup.Some? && env.preExpires;
    if !(HookError(preCleanup, env.pre).Some? && IsSet(options.shouldThrowIfPreErrors)) {
      var run := ItemsRun(items, env.scripts, preExpired);
      ItemsRunEvents(items, env.scripts, preExpired);
      assert AllAboutItems(run.0, items);
      var d := Drain(postCleanup, options, items, env, preExpired);
      assert p.events == [Started] + d.events;
      assert d.events == run.0 + [d.events[|d.events| - 1]];
      forall i | 0 < i < |p.events| - 1
        ensures AboutItems(p.events[i], items)
      {
        assert p.events[i] == d.events[i - 1] == run.0[i - 1];
      }
    }
  }

  /** The status of a pass: `preThrown` exactly when the pre-hook failed and
      its throw flag is set, in which case no item runs; `postThrown` exactly
      when that did not happen and the post-hook failed with its throw flag
      set; otherwise `timedout` exactly when the flag is up at the end, else
      `success`. `trigger` rejects exactly in the two hook cases, with the
      hook's (never undefined) error. */
  lemma PassStatus(
    preCleanup: Option<AsyncFunc>, postCleanup: Option<AsyncFunc>,
    options: TriggerOptions, items: seq<CleanupItem>, env: Environment)
    requires ScriptsFor(items, env.scripts)
    ensures var p := Pass(preCleanup, postCleanup, options, items, env);
            var s := StatusOf(p);
            var preThrows := HookError(preCleanup, env.pre).Some? && IsSet(options.shouldThrowIfPreErrors);
            var postThrows := HookError(postCleanup, env.post).Some? && IsSet(options.shouldThrowIfPostErrors);
            && (s == PreThrown <==> preThrows)
            && (s == PostThrown <==> !preThrows && postThrows)
            && (s == TimedOut <==> !preThrows && !postThrows && p.expired)
            && (s == Success <==> !preThrows && !postThrows && !p.expired)
            && (preThrows ==> p.events == [Started, Finished(PreThrown)] && p.result == Rejected(HookError(preCleanup, env.pre)))
            && (!preThrows && postThrows ==> p.result == Rejected(HookError(postCleanup, env.post)))
            && (p.result.Rejected? <==> preThrows || postThrows)
            && (p.result.Rejected? ==> p.result.reason.Some?)
  {
  }

  /** With the default options no hook failure is ever thrown: `trigger`
      resolves and reports `success` or `timedout`. */
  lemma DefaultOptionsNeverReject(
    preCleanup: Option<AsyncFunc>, postCleanup: Option<AsyncFunc>,
    items: seq<CleanupItem>, env: Environment)
    requires ScriptsFor(items, env.scripts)
    ensures var p := Pass(preCleanup, postCleanup, DefaultTriggerOptions, items, env);
            p.result == Fulfilled(()) && (StatusOf(p) == Success || StatusOf(p) == TimedOut)
  {
    PassStatus(preCleanup, postCleanup, DefaultTriggerOptions, items, env);
  }

  /** When the hooks succeed (or are absent), the deadline never fires and
      every item succeeds at once, a pass is `started`, one `itemCompleted`
      per item in order, then `finished` with `success`; with no items there
      are no item events at all. */
  lemma PassAllResolve(
    preCleanup: Option<AsyncFunc>, postCleanup: Option<AsyncFunc>,
    options: TriggerOptions, items: seq<CleanupItem>, env: Environment)
    requires ScriptsFor(items, env.scripts)
    requires HookError(preCleanup, env.pre).None? && HookError(postCleanup, env.post).None?
    requires !env.preExpires && !env.postExpires
    requires forall i :: 0 <= i < |items| ==>
               AttemptError(items[i], env.scripts[i][0]).None? && !env.scripts[i][0].expires
    ensures Pass(preCleanup, postCleanup, options, items, env)
            == PassTrace([Started] + Completions(items) + [Finished(Success)], false, Fulfilled(()))
  {
    ItemsRunAllResolve(items, env.scripts, false);
    var d := Drain(postCleanup, options, items, env, false);
    assert d.events == Completions(items) + [Finished(Success)];
    assert [Started] + d.events == [Started] + Completions(items) + [Finished(Success)];
  }

  // ---------------------------------------------------------------------------
  // remove

  /** `filter` works element by element, so survivors keep their order. */
  lemma {:induction false} FilterAppend(a: seq<CleanupItem>, b: seq<CleanupItem>, removeItem: RemoveItem)
    ensures Filter(a + b, removeItem) == Filter(a, removeItem) + Filter(b, removeItem)
    decreases |a|
  {
    if a == [] {
      assert a + b == b;
    } else {
      assert (a + b)[0] == a[0];
      assert (a + b)[1..] == a[1..] + b;
      FilterAppend(a[1..], b, removeItem);
    }
  }

  /** Removing the same items twice removes nothing more. */
  lemma {:induction false} FilterIdempotent(items: seq<CleanupItem>, removeItem: RemoveItem)
    ensures Filter(Filter(items, removeItem), removeItem) == Filter(items, removeItem)
    decreases |items|
  {
    if items != [] {
      var head := if Keep(items[0], removeItem) then [items[0]] else [];
      FilterIdempotent(items[1..], removeItem);
      FilterAppend(head, Filter(items[1..], removeItem), removeItem);
      assert Filter(head, removeItem) == head by {
        if head != [] {
          assert head[1..] == [];
        }
      }
    }
  }

  /** A removal that matches nothing leaves the list as it is. */
  lemma {:induction false} FilterNoMatch(items: seq<CleanupItem>, removeItem: RemoveItem)
    requires forall i :: 0 <= i < |items| ==> !Matches(items[i], removeItem)
    ensures Filter(items, removeItem) == items
    decreases |items|
  {
    if items != [] {
      FilterNoMatch(items[1..], removeItem);
      assert [items[0]] + items[1..] == items;
    }
  }
}
