/**
 * How often a deposit confirms an order over runs of the chain processor: at most once for each time its block is
 * handled, and that often if orders wait for it.
 */
module EvmDepositsOnce {
  import opened Common
  import opened EvmAmounts
  import opened EvmLookup
  import opened EvmOrders
  import opened EvmRuns
  import opened EvmHandled
  import opened EvmSettlements

  /** A block that fails brings no deposits. */
  ghost predicate FailingBringNothing(e: Event) {
    e.Job? ==> forall h: nat :: e.call.fails(h) ==> e.call.deposits(h) == []
  }

  // ---------------------------------------------------------------- at most once for each time

  lemma AscendingAreDistinct(log: seq<Confirmation>, low: int, high: int)
    requires AscendingWithin(log, low, high)
    ensures Distinct(log)
  {
    forall i, j | 0 <= i < j < |log| ensures log[i] != log[j] {
      assert Before(log[i], log[j]);
    }
  }

  lemma BlocksLogOnce(deposits: nat -> seq<Dispatch>, storeWorks: nat -> nat -> bool, orders: seq<Order>, first: nat,
      end: nat, x: Confirmation)
    requires first <= end
    ensures var log := BlocksLog(deposits, storeWorks, orders, first, end);
            multiset(log)[x] <= if first <= x.height < end && deposits(x.height) != [] then 1 else 0
  {
    var log := BlocksLog(deposits, storeWorks, orders, first, end);
    BlocksLogAscends(deposits, storeWorks, orders, first, end);
    AscendingAreDistinct(log, first - 1, end - 1);
    CountIsMembership(log, x);
  }

  /** The first height a job tries, and the one after its last. */
  function Tried(s: State, c: Call): (r: (nat, nat))
    ensures r.0 <= r.1
  {
    if Starts(s, c) then (c.latest.value, c.latest.value + 1)
    else if FindsNewBlocks(s, c) then (s.height + 1, c.latest.value + 1)
    else (0, 0)
  }

  lemma JobTries(s: State, c: Call, h: nat)
    ensures Handles(s, Job(c), h) <==> Tried(s, c).0 <= h < Tried(s, c).1 && !c.fails(h)
  {
  }

  lemma JobBlocks(s: State, c: Call)
    ensures EventLog(s, Job(c)) == BlocksLog(c.deposits, c.storeWorks, s.orders, Tried(s, c).0, Tried(s, c).1)
    ensures Tick(s, c).orders == AfterBlocks(c.deposits, c.storeWorks, s.orders, Tried(s, c).0, Tried(s, c).1)
  {
  }

  lemma EventLogOnce(s: State, e: Event, x: Confirmation)
    requires FailingBringNothing(e)
    ensures multiset(EventLog(s, e))[x] <= multiset(EventHandled(s, e))[x.height]
  {
    EventHandledCounts(s, e, x.height);
    if e.Job? {
      var c := e.call;
      JobTries(s, c, x.height);
      JobBlocks(s, c);
      BlocksLogOnce(c.deposits, c.storeWorks, s.orders, Tried(s, c).0, Tried(s, c).1, x);
    }
  }

  /**
   * Over any run, expiries and failures included, a deposit confirms at most as many orders as there were times its
   * block was handled.
   */
  lemma {:induction false} ConfirmsAtMostAsOftenAsHandled(s: State, es: seq<Event>, x: Confirmation)
    requires forall i :: 0 <= i < |es| ==> FailingBringNothing(es[i])
    ensures multiset(RunLog(s, es))[x] <= multiset(RunHandled(s, es))[x.height]
  {
    if es != [] {
      var (init, e) := (es[..|es| - 1], es[|es| - 1]);
      var m := Run(s, init);
      ConfirmsAtMostAsOftenAsHandled(s, init, x);
      EventLogOnce(m, e, x);
      CountConcat(RunLog(s, init), EventLog(m, e), x);
      CountConcat(RunHandled(s, init), EventHandled(m, e), x.height);
    }
  }

  /** The deposits of a block that never was handled confirm nothing. */
  lemma UnhandledBlocksConfirmNothing(s: State, es: seq<Event>, height: nat)
    requires forall i :: 0 <= i < |es| ==> FailingBringNothing(es[i])
    requires height !in RunHandled(s, es)
    ensures forall x :: x in RunLog(s, es) ==> x.height != height
  {
    forall x | x in RunLog(s, es) ensures x.height != height {
      ConfirmsAtMostAsOftenAsHandled(s, es, x);
      assert x in multiset(RunLog(s, es)) && height !in multiset(RunHandled(s, es));
    }
  }

  // ---------------------------------------------------------------- as often as handled

  /** The one deposit is readable, goes to the account, and the order store works. */
  predicate PaysAccount(ds: seq<Dispatch>, storeWorks: nat -> bool, account: ObjectId) {
    |ds| == 1 && storeWorks(0) && ds[0].account.id == Some(account) && ParseTransactionAmount(ds[0].transfer.value).Some?
  }

  /** The job brings a deposit in the given block alone, unless the block fails. */
  ghost predicate SoleDeposit(e: Event, height: nat, account: ObjectId) {
    e.Job? ==>
      && (forall h: nat :: h != height || e.call.fails(h) ==> e.call.deposits(h) == [])
      && (!e.call.fails(height) ==> PaysAccount(e.call.deposits(height), e.call.storeWorks(height), account))
  }

  /** The log is of this confirmation, if it took place, and then the first waiting order waits no more. */
  predicate PaidOnce(log: seq<Confirmation>, x: Confirmation, waiting: seq<nat>, waiting': seq<nat>, paid: bool) {
    && log == (if paid then [x] else [])
    && waiting' == (if paid && waiting != [] then waiting[1..] else waiting)
  }

  lemma NoDeposits(orders: seq<Order>, ds: seq<Dispatch>, storeWorks: nat -> bool, height: nat)
    requires ds == []
    ensures BlockLog(orders, ds, storeWorks, height) == [] && ConfirmAll(orders, ds, storeWorks).0 == orders
  {
  }

  lemma {:induction false} BlocksPayOnce(c: Call, orders: seq<Order>, first: nat, end: nat, height: nat, account: ObjectId)
    requires SoleDeposit(Job(c), height, account)
    requires first <= height < end && !c.fails(height) ==> Awaiting(orders, account) != []
    ensures PaidOnce(BlocksLog(c.deposits, c.storeWorks, orders, first, end), Confirmation(height, 0),
              Awaiting(orders, account), Awaiting(AfterBlocks(c.deposits, c.storeWorks, orders, first, end), account),
              first <= height < end && !c.fails(height))
    decreases end
  {
    if first < end {
      var h := end - 1;
      var before := AfterBlocks(c.deposits, c.storeWorks, orders, first, h);
      BlocksPayOnce(c, orders, first, h, height, account);
      if h == height && !c.fails(height) {
        OneDepositBlock(before, c.deposits(h), c.storeWorks(h), h, account);
      } else {
        NoDeposits(before, c.deposits(h), c.storeWorks(h), h);
      }
    }
  }

  lemma EventPaysOnce(s: State, e: Event, height: nat, account: ObjectId)
    requires SoleDeposit(e, height, account)
    requires Handles(s, e, height) ==> Awaiting(s.orders, account) != []
    ensures PaidOnce(EventLog(s, e), Confirmation(height, 0), Awaiting(s.orders, account),
              Awaiting(Apply(s, e).orders, account), Handles(s, e, height))
  {
    if e.Job? {
      var c := e.call;
      JobTries(s, c, height);
      JobBlocks(s, c);
      BlocksPayOnce(c, s.orders, Tried(s, c).0, Tried(s, c).1, height, account);
    }
  }

  /**
   * While orders wait for it, the only deposit of a run confirms one for each time its block is handled, in their
   * natural order.
   */
  lemma {:induction false} ConfirmsAsOftenAsHandled(s: State, es: seq<Event>, height: nat, account: ObjectId)
    requires forall i :: 0 <= i < |es| ==> SoleDeposit(es[i], height, account)
    requires multiset(RunHandled(s, es))[height] <= |Awaiting(s.orders, account)|
    ensures multiset(RunLog(s, es))[Confirmation(height, 0)] == multiset(RunHandled(s, es))[height]
    ensures Awaiting(Run(s, es).orders, account) == Awaiting(s.orders, account)[multiset(RunHandled(s, es))[height]..]
  {
    if es != [] {
      var (init, e) := (es[..|es| - 1], es[|es| - 1]);
      var (m, x) := (Run(s, init), Confirmation(height, 0));
      CountConcat(RunHandled(s, init), EventHandled(m, e), height);
      CountConcat(RunLog(s, init), EventLog(m, e), x);
      EventHandledCounts(m, e, height);
      ConfirmsAsOftenAsHandled(s, init, height, account);
      EventPaysOnce(m, e, height, account);
    }
  }

  // ---------------------------------------------------------------- never twice

  /** The same tip, the same answers of the cache, and the same blocks fail; or both are expiries. */
  ghost predicate SameJob(e: Event, e': Event) {
    && (e.Job? <==> e'.Job?)
    && (e.Job? ==>
          && e'.call.latest == e.call.latest && e'.call.cacheReads == e.call.cacheReads
          && e'.call.cacheWrites == e.call.cacheWrites && e'.call.fails == e.call.fails)
  }

  /** The same jobs on a chain with these deposits; the order store may answer or not. */
  ghost predicate OnChain(es: seq<Event>, es': seq<Event>, deposits: nat -> seq<Dispatch>) {
    && |es'| == |es|
    && forall i :: 0 <= i < |es| ==> SameJob(es[i], es'[i]) && Brings(es'[i], deposits)
  }

  ghost predicate Brings(e: Event, deposits: nat -> seq<Dispatch>) {
    e.Job? ==> forall h: nat :: e.call.deposits(h) == if e.call.fails(h) then [] else deposits(h)
  }

  lemma SameHeightsNow(s: State, e: Event, s': State, e': Event)
    requires s'.height == s.height && SameJob(e, e')
    ensures Apply(s', e').height == Apply(s, e).height && EventHandled(s', e') == EventHandled(s, e)
  {
  }

  lemma {:induction false} SameHeightsHandled(s: State, es: seq<Event>, s': State, es': seq<Event>)
    requires s'.height == s.height && |es'| == |es|
    requires forall i :: 0 <= i < |es| ==> SameJob(es[i], es'[i])
    ensures Run(s', es').height == Run(s, es).height && RunHandled(s', es') == RunHandled(s, es)
  {
    if es != [] {
      var n := |es| - 1;
      SameHeightsHandled(s, es[..n], s', es'[..n]);
      SameHeightsNow(Run(s, es[..n]), es[n], Run(s', es'[..n]), es'[n]);
    }
  }

  /** Whatever the deposits, the waiting orders and the answers of the order store: no deposit confirms two orders. */
  ghost predicate NoneConfirmsTwice(s: State, es: seq<Event>) {
    forall orders: seq<Order>, es': seq<Event>, deposits: nat -> seq<Dispatch> :: OnChain(es, es', deposits) ==>
      Distinct(RunLog(s.(orders := orders), es'))
  }

  lemma HandledOnceConfirmOnce(s: State, es: seq<Event>, orders: seq<Order>, es': seq<Event>, deposits: nat -> seq<Dispatch>)
    requires Distinct(RunHandled(s, es)) && OnChain(es, es', deposits)
    ensures Distinct(RunLog(s.(orders := orders), es'))
  {
    var t := s.(orders := orders);
    var log := RunLog(t, es');
    SameHeightsHandled(s, es, t, es');
    forall x | x in log ensures multiset(log)[x] == 1 {
      ConfirmsAtMostAsOftenAsHandled(t, es', x);
      CountIsMembership(RunHandled(s, es), x.height);
      assert x in multiset(log);
    }
    DistinctCounts(log);
  }

  /** The same jobs with a store that works, on a chain with these deposits. */
  function WithDeposits(es: seq<Event>, deposits: nat -> seq<Dispatch>): (r: seq<Event>)
    ensures |r| == |es|
  {
    seq(|es|, i requires 0 <= i < |es| => EventWith(es[i], deposits))
  }

  function EventWith(e: Event, deposits: nat -> seq<Dispatch>): Event {
    match e
    case CacheExpires => e
    case Job(c) =>
      Job(c.(deposits := (h: nat) => if c.fails(h) then [] else deposits(h), storeWorks := (h: nat) => (i: nat) => true))
  }

  function Only(height: nat, ds: seq<Dispatch>): nat -> seq<Dispatch> {
    (h: nat) => if h == height then ds else []
  }

  lemma EventWithSole(e: Event, height: nat, ds: seq<Dispatch>, account: ObjectId)
    requires PaysAccount(ds, (i: nat) => true, account)
    ensures var e' := EventWith(e, Only(height, ds));
            SameJob(e, e') && Brings(e', Only(height, ds)) && SoleDeposit(e', height, account)
  {
  }

  lemma {:induction false} AllAwait(orders: seq<Order>, account: ObjectId)
    requires forall i :: 0 <= i < |orders| ==> Awaits(orders[i], account)
    ensures |Awaiting(orders, account)| == |orders|
  {
    if orders != [] {
      AllAwait(orders[..|orders| - 1], account);
    }
  }

  /** A block that is handled twice can confirm twice. */
  lemma HandledTwiceConfirmsTwice(s: State, es: seq<Event>, orders: seq<Order>, ds: seq<Dispatch>, height: nat, account: ObjectId)
    requires multiset(RunHandled(s, es))[height] >= 2 && PaysAccount(ds, (i: nat) => true, account)
    requires |orders| == multiset(RunHandled(s, es))[height]
    requires forall i :: 0 <= i < |orders| ==> Awaits(orders[i], account)
    ensures OnChain(es, WithDeposits(es, Only(height, ds)), Only(height, ds))
    ensures !Distinct(RunLog(s.(orders := orders), WithDeposits(es, Only(height, ds))))
  {
    var (t, es') := (s.(orders := orders), WithDeposits(es, Only(height, ds)));
    forall i | 0 <= i < |es|
      ensures SameJob(es[i], es'[i]) && Brings(es'[i], Only(height, ds)) && SoleDeposit(es'[i], height, account)
    {
      EventWithSole(es[i], height, ds, account);
    }
    SameHeightsHandled(s, es, t, es');
    AllAwait(orders, account);
    ConfirmsAsOftenAsHandled(t, es', height, account);
    DistinctCounts(RunLog(t, es'));
    assert Confirmation(height, 0) in multiset(RunLog(t, es'));
  }

  function SomeOrder(account: ObjectId): (o: Order)
    ensures Awaits(o, account)
  {
    Order([account], Pending, 0.0, "")
  }

  /** An empty value counts as zero. */
  function SomeDeposit(account: ObjectId): (d: Dispatch)
    ensures d.account.id == Some(account) && ParseTransactionAmount(d.transfer.value).Some?
  {
    Dispatch(Transfer("", "", ""), Account(Some(account), "", false))
  }

  /**
   * No deposit can confirm two orders, whatever the deposits, the orders and the failures of the order store, if and
   * only if no job handles a block that was handled before.
   */
  lemma NoneConfirmsTwiceIff(s: State, es: seq<Event>)
    ensures NoneConfirmsTwice(s, es) <==> !SomeJobRepeats(s, es)
  {
    var handled := RunHandled(s, es);
    HandledOnceIff(s, es);
    if Distinct(handled) {
      forall orders: seq<Order>, es': seq<Event>, deposits: nat -> seq<Dispatch> | OnChain(es, es', deposits)
        ensures Distinct(RunLog(s.(orders := orders), es'))
      {
        HandledOnceConfirmOnce(s, es, orders, es', deposits);
      }
    } else {
      DistinctCounts(handled);
      var h :| h in handled && multiset(handled)[h] != 1;
      assert h in multiset(handled);
      var account: ObjectId := 1;
      var orders := seq(multiset(handled)[h], _ => SomeOrder(account));
      var ds := seq(1, _ => SomeDeposit(account));
      HandledTwiceConfirmsTwice(s, es, orders, ds, h, account);
    }
  }

  // ---------------------------------------------------------------- attempts

  lemma HandledIsAttempted(s: State, e: Event, h: nat)
    ensures s.attempted <= Apply(s, e).attempted
    ensures multiset(EventHandled(s, e))[h] <= multiset(Since(s, Apply(s, e)))[h]
  {
    EventHandledCounts(s, e, h);
    if Handles(s, e, h) {
      RangeMembers(s.height + 1, e.call.latest.value + 1);
      assert h in Since(s, Apply(s, e));
    }
  }

  /** A block is handled at most as often as it is tried. */
  lemma {:induction false} HandledAtMostAsOftenAsTried(s: State, es: seq<Event>, h: nat)
    ensures s.attempted <= Run(s, es).attempted
    ensures multiset(RunHandled(s, es))[h] <= multiset(Since(s, Run(s, es)))[h]
  {
    if es != [] {
      var (init, e) := (es[..|es| - 1], es[|es| - 1]);
      var m := Run(s, init);
      HandledAtMostAsOftenAsTried(s, init, h);
      HandledIsAttempted(m, e, h);
      SinceConcat(s, m, Run(s, es));
      CountConcat(RunHandled(s, init), EventHandled(m, e), h);
      CountConcat(Since(s, m), Since(m, Run(s, es)), h as int);
    }
  }

  // ---------------------------------------------------------------- an expiry

  /**
   * Every watermark is stored, but it expires while the tip stands still: the block is handled again, and its one
   * deposit confirms a second waiting order.
   */
  lemma ExpiryConfirmsTwice(s: State, c: Call, account: ObjectId)
    requires OneDepositNext(s, c, account) && !c.fails(s.height + 1) && c.cacheWrites
    requires |Awaiting(s.orders, account)| >= 2
    ensures StoresEveryWatermark(s, [Job(c), CacheExpires, Job(c)])
    ensures RunLog(s, [Job(c), CacheExpires, Job(c)]) == [Confirmation(s.height + 1, 0), Confirmation(s.height + 1, 0)]
  {
    var (h, m) := (s.height + 1, Tick(s, c));
    var t := m.(height := 0);
    OneDepositJob(s, c, account);
    OneDepositStart(t, c, h, account);
    var (es, two) := ([Job(c), CacheExpires, Job(c)], [Job(c), CacheExpires]);
    assert es[..2] == two && two[..1] == [Job(c)] && [Job(c)][..0] == [];
    assert Run(s, [Job(c)]) == m;
    assert Run(s, two) == Apply(m, CacheExpires);
    assert RunLog(s, [Job(c)]) == [] + EventLog(s, Job(c));
    assert RunLog(s, two) == RunLog(s, [Job(c)]) + [];
    assert StoresEveryWatermark(s, [Job(c)]) && StoresEveryWatermark(s, two);
  }

  lemma OneDepositStart(s: State, c: Call, h: nat, account: ObjectId)
    requires s.height == 0 && c.latest == Some(h) && c.cacheReads && Awaiting(s.orders, account) != []
    requires PaysAccount(c.deposits(h), c.storeWorks(h), account)
    ensures EventLog(s, Job(c)) == [Confirmation(h, 0)]
  {
    OneDepositBlock(s.orders, c.deposits(h), c.storeWorks(h), h, account);
    OneBlock(c.deposits, c.storeWorks, s.orders, h);
    assert BlocksLog(c.deposits, c.storeWorks, s.orders, h, h) == [];
  }
}
