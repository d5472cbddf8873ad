/**
 * Whole runs of the EVM chain processor's jobs: the cached watermark of the last height that was handled goes from
 * job to job, and its expiry is a step of its own.
 */
module EvmRuns {
  import opened Common
  import opened EvmLookup
  import opened EvmOrders

  // ---------------------------------------------------------------- one job

  /** height is the cached watermark, 0 when there is none; attempted lists the heights ever tried, in order. */
  datatype State = State(height: nat, orders: seq<Order>, attempted: seq<int>)

  /** What a job meets: the tip, the cache, and for each block whether it fails and which deposits it brings. */
  datatype Call = Call(
    latest: Option<nat>,
    cacheReads: bool,
    cacheWrites: bool,
    fails: nat -> bool,
    deposits: nat -> seq<Dispatch>,
    storeWorks: nat -> nat -> bool
  )

  /** The orders after the blocks first, ..., end-1. */
  function AfterBlocks(deposits: nat -> seq<Dispatch>, storeWorks: nat -> nat -> bool, orders: seq<Order>, first: nat, end: nat):
      seq<Order>
    decreases end
  {
    if end <= first then orders
    else ConfirmAll(AfterBlocks(deposits, storeWorks, orders, first, end - 1), deposits(end - 1), storeWorks(end - 1)).0
  }

  lemma OneBlock(deposits: nat -> seq<Dispatch>, storeWorks: nat -> nat -> bool, orders: seq<Order>, height: nat)
    ensures AfterBlocks(deposits, storeWorks, orders, height, height + 1) ==
            ConfirmAll(orders, deposits(height), storeWorks(height)).0
  {
  }

  predicate Starts(s: State, c: Call) {
    c.latest.Some? && c.cacheReads && s.height == 0
  }

  predicate FindsNewBlocks(s: State, c: Call) {
    c.latest.Some? && c.cacheReads && 0 < s.height < c.latest.value
  }

  /** The first height is retried until it succeeds; later ones are tried once per call, whatever comes of them. */
  function Tick(s: State, c: Call): State {
    if Starts(s, c) then
      var h := c.latest.value;
      State(if !c.fails(h) && c.cacheWrites then h else 0,
        AfterBlocks(c.deposits, c.storeWorks, s.orders, h, h + 1),
        s.attempted + [h])
    else if FindsNewBlocks(s, c) then
      var h := c.latest.value;
      State(if c.cacheWrites then h else s.height,
        AfterBlocks(c.deposits, c.storeWorks, s.orders, s.height + 1, h + 1),
        s.attempted + Range(s.height + 1, h + 1))
    else s
  }

  predicate TickSucceeds(s: State, c: Call) {
    && c.latest.Some? && c.cacheReads
    && (Starts(s, c) ==> !c.fails(c.latest.value) && c.cacheWrites)
    && (FindsNewBlocks(s, c) ==> c.cacheWrites)
  }

  // ---------------------------------------------------------------- runs of jobs

  datatype Event = Job(call: Call) | CacheExpires

  function Apply(s: State, e: Event): State {
    match e
    case Job(c) => Tick(s, c)
    case CacheExpires => s.(height := 0)
  }

  function Run(s: State, es: seq<Event>): State {
    if es == [] then s else Apply(Run(s, es[..|es| - 1]), es[|es| - 1])
  }

  predicate NoExpiry(es: seq<Event>) {
    forall i :: 0 <= i < |es| ==> es[i].Job?
  }

  /** Every job that found new blocks also managed to store the new watermark. */
  predicate StoresEveryWatermark(s: State, es: seq<Event>) {
    es == [] ||
    var n := |es| - 1;
    && StoresEveryWatermark(s, es[..n])
    && (es[n].Job? && FindsNewBlocks(Run(s, es[..n]), es[n].call) ==> es[n].call.cacheWrites)
  }

  /** t goes on from s: its watermark is no lower, and it only tried heights above that of s, leaving none out. */
  predicate ContinuesWithoutGap(s: State, t: State) {
    && s.height <= t.height && s.attempted <= t.attempted
    && (forall h :: s.height < h <= t.height ==> h in t.attempted[|s.attempted|..])
    && (forall h :: h in t.attempted[|s.attempted|..] ==> s.height < h)
  }

  /** More heights were tried than the watermark moved up; zero when each was tried once. */
  function Excess(s: State, t: State): int {
    |t.attempted| - |s.attempted| - (t.height - s.height)
  }

  predicate TriesEachOnce(s: State, t: State) {
    s.height <= t.height && t.attempted == s.attempted + Range(s.height + 1, t.height + 1)
  }

  // ---------------------------------------------------------------- steps

  lemma JobContinues(s: State, c: Call)
    requires s.height > 0
    ensures ContinuesWithoutGap(s, Tick(s, c))
    ensures Tick(s, c).height > 0
  {
    var t := Tick(s, c);
    if FindsNewBlocks(s, c) {
      var h := c.latest.value;
      RangeMembers(s.height + 1, h + 1);
      assert t.attempted[|s.attempted|..] == Range(s.height + 1, h + 1);
    } else {
      assert t == s;
    }
  }

  lemma ContinuesTransitive(s: State, m: State, t: State)
    requires ContinuesWithoutGap(s, m) && ContinuesWithoutGap(m, t)
    ensures ContinuesWithoutGap(s, t)
  {
    var n, k := |s.attempted|, |m.attempted|;
    assert t.attempted[n..] == m.attempted[n..] + t.attempted[k..] by {
      assert t.attempted[..k] == m.attempted;
    }
  }

  lemma JobExcess(s: State, c: Call)
    requires s.height > 0
    ensures Excess(s, Tick(s, c)) >= 0
    ensures Excess(s, Tick(s, c)) == 0 <==> (FindsNewBlocks(s, c) ==> c.cacheWrites)
    ensures (FindsNewBlocks(s, c) ==> c.cacheWrites) ==> TriesEachOnce(s, Tick(s, c))
  {
    if !FindsNewBlocks(s, c) {
      assert s.attempted + Range(s.height + 1, s.height + 1) == s.attempted;
    }
  }

  lemma TriesEachOnceTransitive(s: State, m: State, t: State)
    requires TriesEachOnce(s, m) && TriesEachOnce(m, t)
    ensures TriesEachOnce(s, t)
  {
    RangeConcat(s.height + 1, m.height + 1, t.height + 1);
  }

  // ---------------------------------------------------------------- watermark over runs

  /**
   * Once there is a watermark, and as long as it does not expire, it never goes back, even if the reported tip does,
   * and every height up to it has been tried, even if blocks or cache writes fail.
   */
  lemma {:induction false} NoGapWithoutExpiry(s: State, es: seq<Event>)
    requires s.height > 0 && NoExpiry(es)
    ensures ContinuesWithoutGap(s, Run(s, es)) && Run(s, es).height > 0
  {
    if es != [] {
      var n := |es| - 1;
      NoGapWithoutExpiry(s, es[..n]);
      var m := Run(s, es[..n]);
      JobContinues(m, es[n].call);
      ContinuesTransitive(s, m, Run(s, es));
    }
  }

  lemma {:induction false} ExcessOverRuns(s: State, es: seq<Event>)
    requires s.height > 0 && NoExpiry(es)
    ensures Excess(s, Run(s, es)) >= 0
    ensures Excess(s, Run(s, es)) == 0 <==> StoresEveryWatermark(s, es)
    ensures StoresEveryWatermark(s, es) ==> TriesEachOnce(s, Run(s, es))
  {
    if es == [] {
      assert s.attempted + Range(s.height + 1, s.height + 1) == s.attempted;
    } else {
      var n := |es| - 1;
      var m := Run(s, es[..n]);
      ExcessOverRuns(s, es[..n]);
      NoGapWithoutExpiry(s, es[..n]);
      JobExcess(m, es[n].call);
      if StoresEveryWatermark(s, es) {
        TriesEachOnceTransitive(s, m, Run(s, es));
      }
    }
  }

  /** Each height is tried exactly once, ascending, iff no job that found new blocks failed to store the watermark. */
  lemma EachHeightOnceIff(s: State, es: seq<Event>)
    requires s.height > 0 && NoExpiry(es)
    ensures Run(s, es).attempted == s.attempted + Range(s.height + 1, Run(s, es).height + 1) <==> StoresEveryWatermark(s, es)
  {
    NoGapWithoutExpiry(s, es);
    ExcessOverRuns(s, es);
  }

  lemma {:induction false} RunConcat(s: State, a: seq<Event>, b: seq<Event>)
    ensures Run(s, a + b) == Run(Run(s, a), b)
  {
    if b == [] {
      assert a + b == a;
    } else {
      var n := |b| - 1;
      RunConcat(s, a, b[..n]);
      assert (a + b)[..|a + b| - 1] == a + b[..n];
    }
  }

  // ---------------------------------------------------------------- expiry

  /** The job learns both the tip and the cached watermark. */
  predicate Informed(e: Event) {
    e.Job? && e.call.latest.Some? && e.call.cacheReads
  }

  /** Without a watermark this job would store one. */
  predicate StoresFirst(e: Event) {
    Informed(e) && e.call.latest.value > 0 && !e.call.fails(e.call.latest.value) && e.call.cacheWrites
  }

  function FirstStored(es: seq<Event>): (r: Option<nat>)
    ensures r.Some? ==> r.value < |es| && StoresFirst(es[r.value])
  {
    if es == [] then None
    else
      var n := |es| - 1;
      match FirstStored(es[..n])
      case Some(k) => Some(k)
      case None => if StoresFirst(es[n]) then Some(n) else None
  }

  /** The tips of the informed jobs. */
  function Tips(es: seq<Event>): set<int> {
    if es == [] then {}
    else
      var e := es[|es| - 1];
      Tips(es[..|es| - 1]) + (if Informed(e) then {e.call.latest.value} else {})
  }

  /** The highest of them, at least low. */
  function TopTip(low: int, es: seq<Event>): int {
    if es == [] then low
    else
      var (top, e) := (TopTip(low, es[..|es| - 1]), es[|es| - 1]);
      if Informed(e) && e.call.latest.value > top then e.call.latest.value else top
  }

  /**
   * Jobs that find no watermark try their own tip each, until one stores it; from there on every height up to the
   * highest tip.
   */
  predicate FreshJobsTry(es: seq<Event>, h: int) {
    match FirstStored(es)
    case None => h in Tips(es)
    case Some(k) =>
      var first := es[k].call.latest.value;
      h in Tips(es[..k]) || first <= h <= TopTip(first, es[k + 1..])
  }

  function LastExpiry(es: seq<Event>): (r: Option<nat>)
    ensures match r
            case None => NoExpiry(es)
            case Some(k) => k < |es| && es[k].CacheExpires? && NoExpiry(es[k + 1..])
  {
    if es == [] then None
    else if es[|es| - 1].CacheExpires? then Some(|es| - 1)
    else
      match LastExpiry(es[..|es| - 1])
      case None => None
      case Some(k) =>
        assert es[k + 1..] == es[..|es| - 1][k + 1..] + [es[|es| - 1]];
        Some(k)
  }

  /** The heights a run tries that starts with the watermark low, by stretches between expiries. */
  predicate RunTries(low: int, es: seq<Event>, h: int)
    decreases |es|
  {
    match LastExpiry(es)
    case None => low < h <= TopTip(low, es)
    case Some(k) => RunTries(low, es[..k], h) || FreshJobsTry(es[k + 1..], h)
  }

  /** The heights tried since s. */
  function Since(s: State, t: State): seq<int>
    requires s.attempted <= t.attempted
  {
    t.attempted[|s.attempted|..]
  }

  lemma SinceConcat(s: State, m: State, t: State)
    requires s.attempted <= m.attempted <= t.attempted
    ensures Since(s, t) == Since(s, m) + Since(m, t)
  {
    assert t.attempted[..|m.attempted|] == m.attempted;
  }

  lemma {:induction false} HistoryGrows(s: State, es: seq<Event>)
    ensures s.attempted <= Run(s, es).attempted
  {
    if es != [] {
      HistoryGrows(s, es[..|es| - 1]);
    }
  }

  lemma InformedJob(s: State, c: Call)
    requires s.height > 0
    ensures s.attempted <= Tick(s, c).attempted
    ensures forall h :: h in Since(s, Tick(s, c)) <==> Informed(Job(c)) && s.height < h <= c.latest.value
  {
    if FindsNewBlocks(s, c) {
      RangeMembers(s.height + 1, c.latest.value + 1);
    }
  }

  /** With a watermark, exactly the heights above it up to the highest tip are tried. */
  lemma {:induction false} JobsWithWatermark(s: State, es: seq<Event>)
    requires s.height > 0 && NoExpiry(es)
    ensures s.attempted <= Run(s, es).attempted && 0 < Run(s, es).height <= TopTip(s.height, es)
    ensures forall h :: h in Since(s, Run(s, es)) <==> s.height < h <= TopTip(s.height, es)
  {
    if es != [] {
      var n := |es| - 1;
      var m := Run(s, es[..n]);
      JobsWithWatermark(s, es[..n]);
      NoGapWithoutExpiry(s, es[..n]);
      InformedJob(m, es[n].call);
      SinceConcat(s, m, Run(s, es));
    }
  }

  /** Without one, and as long as none is stored, exactly the tips are tried. */
  lemma {:induction false} JobsBeforeFirstStored(s: State, es: seq<Event>)
    requires s.height == 0 && NoExpiry(es) && FirstStored(es) == None
    ensures s.attempted <= Run(s, es).attempted && Run(s, es).height == 0
    ensures forall h :: h in Since(s, Run(s, es)) <==> h in Tips(es)
  {
    if es != [] {
      var n := |es| - 1;
      var m := Run(s, es[..n]);
      JobsBeforeFirstStored(s, es[..n]);
      SinceConcat(s, m, Run(s, es));
    }
  }

  lemma {:induction false} NoneStoredBefore(es: seq<Event>)
    requires FirstStored(es).Some?
    ensures FirstStored(es[..FirstStored(es).value]) == None
  {
    var n := |es| - 1;
    if FirstStored(es[..n]).Some? {
      NoneStoredBefore(es[..n]);
      assert es[..n][..FirstStored(es).value] == es[..FirstStored(es).value];
    }
  }

  /** The run up to and after the job that stores the first watermark. */
  lemma FirstStoredSplits(s: State, es: seq<Event>, k: nat)
    requires s.height == 0 && NoExpiry(es) && FirstStored(es) == Some(k)
    ensures var (b, m) := (Run(s, es[..k]), Run(s, es[..k + 1]));
            && s.attempted <= b.attempted && (forall h :: h in Since(s, b) <==> h in Tips(es[..k]))
            && m.height == es[k].call.latest.value && m.attempted == b.attempted + [es[k].call.latest.value]
            && Run(s, es) == Run(m, es[k + 1..])
  {
    NoneStoredBefore(es);
    JobsBeforeFirstStored(s, es[..k]);
    StoringFirst(Run(s, es[..k]), es[k]);
    RunSplits(s, es, k);
  }

  lemma StoringFirst(b: State, e: Event)
    requires b.height == 0 && StoresFirst(e)
    ensures Apply(b, e).height == e.call.latest.value && Apply(b, e).attempted == b.attempted + [e.call.latest.value]
  {
  }

  lemma RunSplits(s: State, es: seq<Event>, k: nat)
    requires k < |es|
    ensures Run(s, es[..k + 1]) == Apply(Run(s, es[..k]), es[k])
    ensures Run(s, es) == Run(Run(s, es[..k + 1]), es[k + 1..])
  {
    assert es[..k + 1][..k] == es[..k];
    assert es == es[..k + 1] + es[k + 1..];
    RunConcat(s, es[..k + 1], es[k + 1..]);
  }

  lemma {:induction false} JobsWithoutWatermark(s: State, es: seq<Event>)
    requires s.height == 0 && NoExpiry(es)
    ensures s.attempted <= Run(s, es).attempted
    ensures forall h :: h in Since(s, Run(s, es)) <==> FreshJobsTry(es, h)
    ensures match FirstStored(es)
            case None => Run(s, es).height == 0
            case Some(k) => 0 < Run(s, es).height <= TopTip(es[k].call.latest.value, es[k + 1..])
  {
    match FirstStored(es) {
      case None => JobsBeforeFirstStored(s, es);
      case Some(k) =>
        var (b, m, t) := (Run(s, es[..k]), Run(s, es[..k + 1]), Run(s, es));
        FirstStoredSplits(s, es, k);
        JobsWithWatermark(m, es[k + 1..]);
        SinceConcat(s, b, m);
        SinceConcat(s, m, t);
        TopTipIsAbove(m.height, es[k + 1..]);
    }
  }

  lemma {:induction false} TopTipIsAbove(low: int, es: seq<Event>)
    ensures low <= TopTip(low, es)
  {
    if es != [] {
      TopTipIsAbove(low, es[..|es| - 1]);
    }
  }

  /**
   * Starting without a watermark: a run that ends with one has a first job that stores one, and from that job's height
   * on nothing is left out; if all later watermarks are stored, the heights from there on are tried once each, after
   * the failed first attempts.
   */
  lemma FreshStart(s: State, es: seq<Event>) returns (k: nat)
    requires s.height == 0 && NoExpiry(es) && Run(s, es).height > 0
    ensures FirstStored(es) == Some(k)
    ensures var first, t, tried := es[k].call.latest.value, Run(s, es), Run(s, es[..k]).attempted;
            && first <= t.height && tried <= t.attempted
            && (forall h :: first <= h <= t.height ==> h in t.attempted[|tried|..])
            && (StoresEveryWatermark(Run(s, es[..k + 1]), es[k + 1..]) ==> t.attempted == tried + Range(first, t.height + 1))
  {
    JobsWithoutWatermark(s, es);
    k := FirstStored(es).value;
    var m := Run(s, es[..k + 1]);
    FirstStoredSplits(s, es, k);
    NoGapWithoutExpiry(m, es[k + 1..]);
    FromFirstOn(m, Run(s, es), Run(s, es[..k]).attempted, m.height);
    ExcessOverRuns(m, es[k + 1..]);
  }

  lemma FromFirstOn(m: State, t: State, tried: seq<int>, first: nat)
    requires m.height == first && m.attempted == tried + [first] && ContinuesWithoutGap(m, t)
    ensures first <= t.height && tried <= t.attempted
    ensures forall h :: first <= h <= t.height ==> h in t.attempted[|tried|..]
    ensures TriesEachOnce(m, t) ==> t.attempted == tried + Range(first, t.height + 1)
  {
    var n := |tried|;
    assert t.attempted[..n + 1] == m.attempted;
    assert t.attempted[n..] == [first] + t.attempted[n + 1..];
    assert [first] + Range(first + 1, t.height + 1) == Range(first, t.height + 1);
  }

  /** Over any run at all, with any number of expiries and failures, exactly these heights are tried. */
  lemma {:induction false} RunTriesExactly(s: State, es: seq<Event>)
    requires s.height > 0
    ensures s.attempted <= Run(s, es).attempted
    ensures forall h :: h in Since(s, Run(s, es)) <==> RunTries(s.height, es, h)
    decreases |es|
  {
    HistoryGrows(s, es);
    match LastExpiry(es) {
      case None => JobsWithWatermark(s, es);
      case Some(k) =>
        var m := Run(s, es[..k]);
        RunTriesExactly(s, es[..k]);
        ExpirySplits(s, es, k);
        JobsWithoutWatermark(m.(height := 0), es[k + 1..]);
        SinceConcat(s, m, Run(s, es));
    }
  }

  lemma ExpirySplits(s: State, es: seq<Event>, k: nat)
    requires k < |es| && es[k].CacheExpires?
    ensures Run(s, es) == Run(Run(s, es[..k]).(height := 0), es[k + 1..])
  {
    RunSplits(s, es, k);
  }

  /**
   * When the watermark expires once and the jobs after it, failing or not, store a new one: a height up to the final
   * watermark is left out if and only if it lies below the first stored one and was no tip of an earlier job.
   */
  lemma ExpiryLeavesOutIff(s: State, es: seq<Event>, h: int)
    requires s.height > 0 && NoExpiry(es)
    requires FirstStored(es).Some?
    ensures var (t, k) := (Run(s, [CacheExpires] + es), FirstStored(es).value);
            && s.attempted <= t.attempted && t.height > 0
            && (s.height < h <= t.height ==>
                 (h !in Since(s, t) <==> h < es[k].call.latest.value && h !in Tips(es[..k])))
  {
    var all := [CacheExpires] + es;
    assert all[1..] == es && all[..0] == [];
    ExpirySplits(s, all, 0);
    var s0 := s.(height := 0);
    JobsWithoutWatermark(s0, es);
    assert Since(s, Run(s, all)) == Since(s0, Run(s0, es));
  }

  /** The watermark 10 expires and the next job finds 13: heights 11 and 12 are never tried. */
  lemma ExpiryGapExample(orders: seq<Order>)
    ensures var (s, c) := (State(10, orders, []), Call(Some(13), true, true, h => false, h => [], h => i => true));
            Run(s, [CacheExpires, Job(c)]).height == 13 && Run(s, [CacheExpires, Job(c)]).attempted == [13]
  {
    var c := Call(Some(13), true, true, h => false, h => [], h => i => true);
    TwoEvents(State(10, orders, []), CacheExpires, Job(c));
  }

  /** It expires and the next job finds 11, fails, and the one after finds 12: nothing is left out. */
  lemma ExpiryWithoutGapExample(orders: seq<Order>)
    ensures var (s, fails: nat -> bool) := (State(10, orders, []), h => h == 11);
            var (c, d) := (Call(Some(11), true, true, fails, h => [], h => i => true),
                           Call(Some(12), true, true, fails, h => [], h => i => true));
            Run(s, [CacheExpires, Job(c), Job(d)]).height == 12 && Run(s, [CacheExpires, Job(c), Job(d)]).attempted == [11, 12]
  {
    var (s, fails: nat -> bool) := (State(10, orders, []), h => h == 11);
    var (c, d) := (Call(Some(11), true, true, fails, h => [], h => i => true),
                   Call(Some(12), true, true, fails, h => [], h => i => true));
    TwoEvents(s, CacheExpires, Job(c));
    assert [CacheExpires, Job(c), Job(d)][..2] == [CacheExpires, Job(c)];
  }

  lemma TwoEvents(s: State, a: Event, b: Event)
    ensures Run(s, [a, b]) == Apply(Apply(s, a), b)
  {
    assert [a, b][..1] == [a] && [a][..0] == [];
    assert Run(s, [a]) == Apply(s, a);
  }

  // ---------------------------------------------------------------- orders over runs

  /** The deposits of the blocks first, ..., end-1. */
  function BlocksDeposits(deposits: nat -> seq<Dispatch>, first: nat, end: nat): seq<Dispatch>
    decreases end
  {
    if end <= first then [] else BlocksDeposits(deposits, first, end - 1) + deposits(end - 1)
  }

  function EventDeposits(s: State, e: Event): seq<Dispatch> {
    if e.CacheExpires? then []
    else if Starts(s, e.call) then BlocksDeposits(e.call.deposits, e.call.latest.value, e.call.latest.value + 1)
    else if FindsNewBlocks(s, e.call) then BlocksDeposits(e.call.deposits, s.height + 1, e.call.latest.value + 1)
    else []
  }

  /** All deposits that the jobs of a run bring, in order. */
  function RunDeposits(s: State, es: seq<Event>): seq<Dispatch> {
    if es == [] then [] else RunDeposits(s, es[..|es| - 1]) + EventDeposits(Run(s, es[..|es| - 1]), es[|es| - 1])
  }

  lemma {:induction false} BlocksSettle(deposits: nat -> seq<Dispatch>, storeWorks: nat -> nat -> bool, orders: seq<Order>,
      first: nat, end: nat)
    ensures OnlySettled(orders, AfterBlocks(deposits, storeWorks, orders, first, end), BlocksDeposits(deposits, first, end))
    decreases end
  {
    if first < end {
      var before := AfterBlocks(deposits, storeWorks, orders, first, end - 1);
      BlocksSettle(deposits, storeWorks, orders, first, end - 1);
      MatchesAreTheDropInPending(before, deposits(end - 1), storeWorks(end - 1));
      OnlySettledInTurn(orders, BlocksDeposits(deposits, first, end - 1), before, deposits(end - 1),
        AfterBlocks(deposits, storeWorks, orders, first, end));
    }
  }

  lemma EventSettles(s: State, e: Event)
    ensures OnlySettled(s.orders, Apply(s, e).orders, EventDeposits(s, e))
  {
    if e.Job? && Starts(s, e.call) {
      BlocksSettle(e.call.deposits, e.call.storeWorks, s.orders, e.call.latest.value, e.call.latest.value + 1);
    } else if e.Job? && FindsNewBlocks(s, e.call) {
      BlocksSettle(e.call.deposits, e.call.storeWorks, s.orders, s.height + 1, e.call.latest.value + 1);
    }
  }

  /**
   * Over any run at all, expiries included, an order is left alone, or goes once from PENDING to DEPOSIT_CONFIRMING with the
   * amount and the hash of a deposit of the run, to an account that it lists.
   */
  lemma {:induction false} RunsOnlySettleOrders(s: State, es: seq<Event>)
    ensures OnlySettled(s.orders, Run(s, es).orders, RunDeposits(s, es))
  {
    if es != [] {
      var n := |es| - 1;
      var m := Run(s, es[..n]);
      RunsOnlySettleOrders(s, es[..n]);
      EventSettles(m, es[n]);
      OnlySettledInTurn(s.orders, RunDeposits(s, es[..n]), m.orders, EventDeposits(m, es[n]), Run(s, es).orders);
    }
  }

  // ---------------------------------------------------------------- reported errors

  /**
   * A job reports success if and only if it learnt the tip and the watermark, and the watermark has reached the tip; at
   * tip 0, where no watermark can be told from none, if and only if the block and its write worked.
   */
  lemma SucceedsIffCaughtUp(s: State, c: Call)
    ensures TickSucceeds(s, c) <==>
            match c.latest
            case None => false
            case Some(tip) =>
              && c.cacheReads
              && if tip == 0 && s.height == 0 then !c.fails(0) && c.cacheWrites else tip <= Tick(s, c).height
  {
  }
}
