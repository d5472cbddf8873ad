/**
 * Which blocks were really handled over runs of the chain processor: a block that fails during a catch-up is passed
 * over, and the watermark moves on.
 */
module EvmHandled {
  import opened Common
  import opened EvmRuns

  /** The job tries to process the block. */
  predicate Attempts(s: State, c: Call, height: nat) {
    || (Starts(s, c) && height == c.latest.value)
    || (FindsNewBlocks(s, c) && s.height < height <= c.latest.value)
  }

  /** Those of the heights first, ..., end-1 whose block does not fail. */
  function Working(fails: nat -> bool, first: nat, end: nat): seq<nat>
    decreases end
  {
    if end <= first then []
    else if fails(end - 1) then Working(fails, first, end - 1)
    else Working(fails, first, end - 1) + [end - 1]
  }

  function EventHandled(s: State, e: Event): seq<nat> {
    if e.CacheExpires? then []
    else if Starts(s, e.call) then Working(e.call.fails, e.call.latest.value, e.call.latest.value + 1)
    else if FindsNewBlocks(s, e.call) then Working(e.call.fails, s.height + 1, e.call.latest.value + 1)
    else []
  }

  /** The heights a run handles without an error, once for each time. */
  function RunHandled(s: State, es: seq<Event>): seq<nat> {
    if es == [] then [] else RunHandled(s, es[..|es| - 1]) + EventHandled(Run(s, es[..|es| - 1]), es[|es| - 1])
  }

  lemma {:induction false} WorkingCounts(fails: nat -> bool, first: nat, end: nat, h: nat)
    ensures multiset(Working(fails, first, end))[h] == if first <= h < end && !fails(h) then 1 else 0
    decreases end
  {
    if first < end {
      WorkingCounts(fails, first, end - 1, h);
      CountSnoc(Working(fails, first, end - 1), end - 1, h);
    }
  }

  predicate Handles(s: State, e: Event, h: nat) {
    e.Job? && Attempts(s, e.call, h) && !e.call.fails(h)
  }

  lemma EventHandledCounts(s: State, e: Event, h: nat)
    ensures multiset(EventHandled(s, e))[h] == if Handles(s, e, h) then 1 else 0
  {
    if e.Job? && Starts(s, e.call) {
      WorkingCounts(e.call.fails, e.call.latest.value, e.call.latest.value + 1, h);
    } else if e.Job? && FindsNewBlocks(s, e.call) {
      WorkingCounts(e.call.fails, s.height + 1, e.call.latest.value + 1, h);
    }
  }

  lemma EventHandledMembers(s: State, e: Event, h: nat)
    ensures h in EventHandled(s, e) <==> Handles(s, e, h)
  {
    EventHandledCounts(s, e, h);
    assert h in EventHandled(s, e) <==> h in multiset(EventHandled(s, e));
  }

  // ---------------------------------------------------------------- never twice

  /** The job handles a block that was handled before. */
  ghost predicate Repeats(handled: seq<nat>, s: State, e: Event) {
    exists h :: h in handled && Handles(s, e, h)
  }

  /**
   * Some job starts over at a working tip that was handled before, or finds new blocks from a watermark below a working
   * one that was.
   */
  ghost predicate SomeJobRepeats(s: State, es: seq<Event>) {
    es != [] &&
    var (init, e) := (es[..|es| - 1], es[|es| - 1]);
    SomeJobRepeats(s, init) || Repeats(RunHandled(s, init), Run(s, init), e)
  }

  lemma EventHandledOnce(s: State, e: Event)
    ensures Distinct(EventHandled(s, e))
  {
    var now := EventHandled(s, e);
    forall h | h in now ensures multiset(now)[h] == 1 {
      EventHandledMembers(s, e, h);
      EventHandledCounts(s, e, h);
    }
    DistinctCounts(now);
  }

  /** A run handles no block twice if and only if none of its jobs repeats one. */
  lemma {:induction false} HandledOnceIff(s: State, es: seq<Event>)
    ensures Distinct(RunHandled(s, es)) <==> !SomeJobRepeats(s, es)
  {
    if es != [] {
      var (init, e) := (es[..|es| - 1], es[|es| - 1]);
      var (m, before) := (Run(s, init), RunHandled(s, init));
      HandledOnceIff(s, init);
      EventHandledOnce(m, e);
      ConcatDistinct(before, EventHandled(m, e));
      forall h: nat ensures h in EventHandled(m, e) <==> Handles(m, e, h) {
        EventHandledMembers(m, e, h);
      }
    }
  }

  // ---------------------------------------------------------------- unhandled blocks

  /** Event i of the run tries the block. */
  predicate AttemptsAt(s: State, es: seq<Event>, i: nat, h: nat) {
    i < |es| && es[i].Job? && Attempts(Run(s, es[..i]), es[i].call, h)
  }

  predicate HandlesAt(s: State, es: seq<Event>, i: nat, h: nat) {
    i < |es| && Handles(Run(s, es[..i]), es[i], h)
  }

  lemma HandlesBefore(s: State, es: seq<Event>, i: nat, h: nat)
    requires i < |es| - 1
    ensures HandlesAt(s, es, i, h) <==> HandlesAt(s, es[..|es| - 1], i, h)
  {
    assert es[..|es| - 1][..i] == es[..i];
  }

  /** A block is handled if and only if some attempt at it reports no error. */
  lemma {:induction false} HandledIff(s: State, es: seq<Event>, h: nat)
    ensures h in RunHandled(s, es) <==> exists i: nat :: HandlesAt(s, es, i, h)
  {
    if es != [] {
      var n := |es| - 1;
      var init := es[..n];
      HandledIff(s, init, h);
      EventHandledMembers(Run(s, init), es[n], h);
      if h in RunHandled(s, init) {
        var i: nat :| HandlesAt(s, init, i, h);
        HandlesBefore(s, es, i, h);
      } else if h in EventHandled(Run(s, init), es[n]) {
        assert HandlesAt(s, es, n, h);
      } else if i: nat :| HandlesAt(s, es, i, h) {
        HandlesLast(s, es, i, h);
      }
    }
  }

  lemma HandlesLast(s: State, es: seq<Event>, i: nat, h: nat)
    requires es != [] && HandlesAt(s, es, i, h)
    ensures var init := es[..|es| - 1]; HandlesAt(s, init, i, h) || Handles(Run(s, init), es[|es| - 1], h)
  {
    if i < |es| - 1 {
      HandlesBefore(s, es, i, h);
    }
  }

  lemma {:induction false} SomeAttempt(s: State, es: seq<Event>, h: nat)
    requires s.attempted <= Run(s, es).attempted && h in Since(s, Run(s, es))
    ensures exists i: nat :: AttemptsAt(s, es, i, h)
  {
    var n := |es| - 1;
    var (init, m) := (es[..n], Run(s, es[..n]));
    HistoryGrows(s, init);
    SinceConcat(s, m, Run(s, es));
    if h in Since(s, m) {
      SomeAttempt(s, init, h);
      var i: nat :| AttemptsAt(s, init, i, h);
      assert init[..i] == es[..i];
      assert AttemptsAt(s, es, i, h);
    } else {
      assert h in Since(m, Run(s, es));
      AttemptedNow(m, es[n], h);
      assert AttemptsAt(s, es, n, h);
    }
  }

  lemma AttemptedNow(s: State, e: Event, h: nat)
    requires s.attempted <= Apply(s, e).attempted && h in Since(s, Apply(s, e))
    ensures e.Job? && Attempts(s, e.call, h)
  {
  }

  lemma WatermarkGrows(s: State, es: seq<Event>, k: nat, j: nat)
    requires s.height > 0 && NoExpiry(es) && k <= j <= |es|
    ensures 0 < Run(s, es[..k]).height <= Run(s, es[..j]).height
  {
    NoGapWithoutExpiry(s, es[..k]);
    assert es[..j] == es[..k] + es[k..j];
    RunConcat(s, es[..k], es[k..j]);
    NoGapWithoutExpiry(Run(s, es[..k]), es[k..j]);
  }

  lemma StoredPast(b: State, c: Call, h: nat)
    requires b.height > 0 && Attempts(b, c, h) && (FindsNewBlocks(b, c) ==> c.cacheWrites)
    ensures h <= Tick(b, c).height
  {
  }

  /** Once a height is passed by a stored watermark, no later job tries it. */
  lemma NoSecondAttempt(s: State, es: seq<Event>, i: nat, j: nat, h: nat)
    requires s.height > 0 && NoExpiry(es) && StoresEveryWatermark(s, es)
    requires i < j && AttemptsAt(s, es, i, h)
    ensures !AttemptsAt(s, es, j, h)
  {
    if j < |es| {
      StoresPrefix(s, es, i + 1);
      RunSplits(s, es, i);
      WatermarkGrows(s, es, i, i);
      WatermarkGrows(s, es, i + 1, j);
      StoredPast(Run(s, es[..i]), es[i].call, h);
    }
  }

  lemma {:induction false} StoresPrefix(s: State, es: seq<Event>, k: nat)
    requires StoresEveryWatermark(s, es) && 0 < k <= |es|
    ensures StoresEveryWatermark(s, es[..k])
    ensures var (b, e) := (Run(s, es[..k - 1]), es[k - 1]); e.Job? && FindsNewBlocks(b, e.call) ==> e.call.cacheWrites
    decreases |es|
  {
    assert es[..k][..k - 1] == es[..k - 1];
    if k < |es| {
      StoresPrefix(s, es[..|es| - 1], k);
      assert es[..|es| - 1][..k] == es[..k] && es[..|es| - 1][..k - 1] == es[..k - 1];
    } else {
      assert es[..k] == es;
    }
  }

  /** The one attempt at a height that was passed. */
  lemma OnlyAttempt(s: State, es: seq<Event>, h: nat) returns (k: nat)
    requires s.height > 0 && NoExpiry(es) && StoresEveryWatermark(s, es)
    requires s.height < h <= Run(s, es).height
    ensures AttemptsAt(s, es, k, h) && forall i: nat :: i != k ==> !AttemptsAt(s, es, i, h)
  {
    NoGapWithoutExpiry(s, es);
    SomeAttempt(s, es, h);
    k :| AttemptsAt(s, es, k, h);
    forall i: nat | i != k ensures !AttemptsAt(s, es, i, h) {
      if i < k && AttemptsAt(s, es, i, h) {
        NoSecondAttempt(s, es, i, k, h);
      } else if k < i {
        NoSecondAttempt(s, es, k, i, h);
      }
    }
  }

  predicate FailsAt(s: State, es: seq<Event>, i: nat, h: nat) {
    AttemptsAt(s, es, i, h) && es[i].call.fails(h)
  }

  /**
   * While the watermark is stored and does not expire: a height it has passed was not handled if and only if the one
   * attempt at that block reported an error.
   */
  lemma PassedUnhandledIff(s: State, es: seq<Event>, h: nat)
    requires s.height > 0 && NoExpiry(es) && StoresEveryWatermark(s, es)
    requires s.height < h <= Run(s, es).height
    ensures h !in RunHandled(s, es) <==> exists i: nat :: FailsAt(s, es, i, h)
  {
    var k := OnlyAttempt(s, es, h);
    HandledIff(s, es, h);
    HandlesIsWorkingAttempt(s, es, k, h);
    if i: nat :| HandlesAt(s, es, i, h) {
      HandlesIsWorkingAttempt(s, es, i, h);
      assert i == k;
    } else {
      assert FailsAt(s, es, k, h);
    }
  }

  lemma HandlesIsWorkingAttempt(s: State, es: seq<Event>, i: nat, h: nat)
    ensures HandlesAt(s, es, i, h) <==> AttemptsAt(s, es, i, h) && !FailsAt(s, es, i, h)
  {
  }
}
