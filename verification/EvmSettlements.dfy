/**
 * Which deposit confirmed which order over runs of the chain processor: the log of all confirmations, each named by
 * its block and its place among the deposits of that block.
 */
module EvmSettlements {
  import opened Common
  import opened EvmAmounts
  import opened EvmLookup
  import opened EvmOrders
  import opened EvmRuns

  datatype Confirmation = Confirmation(height: nat, place: nat)

  function BlockLog(orders: seq<Order>, ds: seq<Dispatch>, storeWorks: nat -> bool, height: nat): seq<Confirmation> {
    if ds == [] then []
    else
      var n := |ds| - 1;
      BlockLog(orders, ds[..n], storeWorks, height)
      + (if Confirm(ConfirmAll(orders, ds[..n], storeWorks).0, ds[n], storeWorks(n)).1 then [Confirmation(height, n)] else [])
  }

  function BlocksLog(deposits: nat -> seq<Dispatch>, storeWorks: nat -> nat -> bool, orders: seq<Order>, first: nat, end: nat):
      seq<Confirmation>
    decreases end
  {
    if end <= first then []
    else
      BlocksLog(deposits, storeWorks, orders, first, end - 1)
      + BlockLog(AfterBlocks(deposits, storeWorks, orders, first, end - 1), deposits(end - 1), storeWorks(end - 1), end - 1)
  }

  function EventLog(s: State, e: Event): seq<Confirmation> {
    if e.CacheExpires? then []
    else if Starts(s, e.call) then
      BlocksLog(e.call.deposits, e.call.storeWorks, s.orders, e.call.latest.value, e.call.latest.value + 1)
    else if FindsNewBlocks(s, e.call) then
      BlocksLog(e.call.deposits, e.call.storeWorks, s.orders, s.height + 1, e.call.latest.value + 1)
    else []
  }

  /** All confirmations of a run, in order. */
  function RunLog(s: State, es: seq<Event>): seq<Confirmation> {
    if es == [] then [] else RunLog(s, es[..|es| - 1]) + EventLog(Run(s, es[..|es| - 1]), es[|es| - 1])
  }

  // ---------------------------------------------------------------- conservation

  lemma {:induction false} BlockLogCounts(orders: seq<Order>, ds: seq<Dispatch>, storeWorks: nat -> bool, height: nat)
    ensures |BlockLog(orders, ds, storeWorks, height)| == ConfirmAll(orders, ds, storeWorks).1
  {
    if ds != [] {
      BlockLogCounts(orders, ds[..|ds| - 1], storeWorks, height);
    }
  }

  /** As many confirmations as PENDING orders are gone. */
  predicate Settles(orders: seq<Order>, log: seq<Confirmation>, orders': seq<Order>) {
    PendingCount(orders) == PendingCount(orders') + |log|
  }

  lemma BlockConserves(orders: seq<Order>, ds: seq<Dispatch>, storeWorks: nat -> bool, height: nat)
    ensures Settles(orders, BlockLog(orders, ds, storeWorks, height), ConfirmAll(orders, ds, storeWorks).0)
  {
    BlockLogCounts(orders, ds, storeWorks, height);
    MatchesAreTheDropInPending(orders, ds, storeWorks);
  }

  lemma SettlesInTurn(a: seq<Order>, log1: seq<Confirmation>, b: seq<Order>, log2: seq<Confirmation>, c: seq<Order>)
    requires Settles(a, log1, b) && Settles(b, log2, c)
    ensures Settles(a, log1 + log2, c)
  {
  }

  lemma {:induction false} BlocksSettleTheirLog(deposits: nat -> seq<Dispatch>, storeWorks: nat -> nat -> bool,
      orders: seq<Order>, first: nat, end: nat)
    ensures Settles(orders, BlocksLog(deposits, storeWorks, orders, first, end),
              AfterBlocks(deposits, storeWorks, orders, first, end))
    decreases end
  {
    if first < end {
      var (h, before) := (end - 1, AfterBlocks(deposits, storeWorks, orders, first, end - 1));
      BlocksSettleTheirLog(deposits, storeWorks, orders, first, h);
      BlockConserves(before, deposits(h), storeWorks(h), h);
      SettlesInTurn(orders, BlocksLog(deposits, storeWorks, orders, first, h), before,
        BlockLog(before, deposits(h), storeWorks(h), h), ConfirmAll(before, deposits(h), storeWorks(h)).0);
    }
  }

  lemma EventLogCounts(s: State, e: Event)
    ensures Settles(s.orders, EventLog(s, e), Apply(s, e).orders)
  {
    if e.Job? && Starts(s, e.call) {
      BlocksSettleTheirLog(e.call.deposits, e.call.storeWorks, s.orders, e.call.latest.value, e.call.latest.value + 1);
    } else if e.Job? && FindsNewBlocks(s, e.call) {
      BlocksSettleTheirLog(e.call.deposits, e.call.storeWorks, s.orders, s.height + 1, e.call.latest.value + 1);
    }
  }

  /** Over any run, expiries and failures included, the confirmations are as many as the PENDING orders that are gone. */
  lemma {:induction false} ConfirmationsAreTheDropInPending(s: State, es: seq<Event>)
    ensures PendingCount(s.orders) == PendingCount(Run(s, es).orders) + |RunLog(s, es)|
  {
    if es != [] {
      ConfirmationsAreTheDropInPending(s, es[..|es| - 1]);
      EventLogCounts(Run(s, es[..|es| - 1]), es[|es| - 1]);
      SettlesInTurn(s.orders, RunLog(s, es[..|es| - 1]), Run(s, es[..|es| - 1]).orders,
        EventLog(Run(s, es[..|es| - 1]), es[|es| - 1]), Run(s, es).orders);
    }
  }

  // ---------------------------------------------------------------- each deposit once

  predicate Before(a: Confirmation, b: Confirmation) {
    a.height < b.height || (a.height == b.height && a.place < b.place)
  }

  /** Ascending, and all from the blocks low+1, ..., high. */
  ghost predicate AscendingWithin(log: seq<Confirmation>, low: int, high: int) {
    && (forall i, j :: 0 <= i < j < |log| ==> Before(log[i], log[j]))
    && (forall i :: 0 <= i < |log| ==> low < log[i].height <= high)
  }

  lemma AscendingConcat(a: seq<Confirmation>, b: seq<Confirmation>, low: int, mid: int, high: int)
    requires AscendingWithin(a, low, mid) && AscendingWithin(b, mid, high) && low <= mid <= high
    ensures AscendingWithin(a + b, low, high)
  {
  }

  /** Ascending confirmations of one block, all of places below n. */
  ghost predicate BlockAscends(log: seq<Confirmation>, height: nat, n: nat) {
    && (forall i, j :: 0 <= i < j < |log| ==> log[i].place < log[j].place)
    && (forall i :: 0 <= i < |log| ==> log[i].height == height && log[i].place < n)
  }

  lemma BlockAppend(log: seq<Confirmation>, height: nat, n: nat)
    requires BlockAscends(log, height, n)
    ensures BlockAscends(log, height, n + 1) && BlockAscends(log + [Confirmation(height, n)], height, n + 1)
  {
  }

  lemma {:induction false} BlockLogAscends(orders: seq<Order>, ds: seq<Dispatch>, storeWorks: nat -> bool, height: nat)
    ensures BlockAscends(BlockLog(orders, ds, storeWorks, height), height, |ds|)
  {
    if ds != [] {
      var init := BlockLog(orders, ds[..|ds| - 1], storeWorks, height);
      BlockLogAscends(orders, ds[..|ds| - 1], storeWorks, height);
      BlockAppend(init, height, |ds| - 1);
      assert init + [] == init;
    }
  }

  lemma {:induction false} BlocksLogAscends(deposits: nat -> seq<Dispatch>, storeWorks: nat -> nat -> bool, orders: seq<Order>,
      first: nat, end: nat)
    requires first <= end
    ensures AscendingWithin(BlocksLog(deposits, storeWorks, orders, first, end), first - 1, end - 1)
    ensures forall c :: c in BlocksLog(deposits, storeWorks, orders, first, end) ==> c.place < |deposits(c.height)|
    decreases end
  {
    if first < end {
      var before := AfterBlocks(deposits, storeWorks, orders, first, end - 1);
      var (init, last) := (BlocksLog(deposits, storeWorks, orders, first, end - 1),
                           BlockLog(before, deposits(end - 1), storeWorks(end - 1), end - 1));
      BlocksLogAscends(deposits, storeWorks, orders, first, end - 1);
      BlockLogAscends(before, deposits(end - 1), storeWorks(end - 1), end - 1);
      AscendingConcat(init, last, first - 1, end - 2, end - 1);
    }
  }

  /** All jobs of a run see the same deposits in a block. */
  ghost predicate SeeDeposits(es: seq<Event>, deposits: nat -> seq<Dispatch>) {
    forall i :: 0 <= i < |es| && es[i].Job? ==> es[i].call.deposits == deposits
  }

  lemma JobLogAscends(s: State, c: Call)
    requires s.height > 0 && (FindsNewBlocks(s, c) ==> c.cacheWrites)
    ensures s.height <= Tick(s, c).height && AscendingWithin(EventLog(s, Job(c)), s.height, Tick(s, c).height)
    ensures forall x :: x in EventLog(s, Job(c)) ==> x.place < |c.deposits(x.height)|
  {
    if FindsNewBlocks(s, c) {
      BlocksLogAscends(c.deposits, c.storeWorks, s.orders, s.height + 1, c.latest.value + 1);
    }
  }

  /**
   * When every new watermark is stored and none expires, each deposit, named by block and place, confirms at most one
   * order over the whole run, and confirmations follow the order of the chain.
   */
  lemma {:induction false} EachDepositConfirmsAtMostOnce(s: State, es: seq<Event>, deposits: nat -> seq<Dispatch>)
    requires s.height > 0 && NoExpiry(es) && StoresEveryWatermark(s, es) && SeeDeposits(es, deposits)
    ensures s.height <= Run(s, es).height && AscendingWithin(RunLog(s, es), s.height, Run(s, es).height)
    ensures forall c :: c in RunLog(s, es) ==> c.place < |deposits(c.height)|
  {
    if es != [] {
      var n := |es| - 1;
      var m := Run(s, es[..n]);
      EachDepositConfirmsAtMostOnce(s, es[..n], deposits);
      NoGapWithoutExpiry(s, es[..n]);
      JobLogAscends(m, es[n].call);
      AscendingConcat(RunLog(s, es[..n]), EventLog(m, es[n]), s.height, m.height, Run(s, es).height);
    }
  }

  // ---------------------------------------------------------------- a failed cache write

  /** The next block brings one readable deposit to the account, and the order store works. */
  predicate OneDepositNext(s: State, c: Call, account: ObjectId) {
    && s.height > 0 && c.latest == Some(s.height + 1) && c.cacheReads
    && |c.deposits(s.height + 1)| == 1 && c.storeWorks(s.height + 1)(0)
    && var d := c.deposits(s.height + 1)[0];
       d.account.id == Some(account) && ParseTransactionAmount(d.transfer.value).Some?
  }

  lemma OneDepositBlock(orders: seq<Order>, ds: seq<Dispatch>, storeWorks: nat -> bool, height: nat, account: ObjectId)
    requires |ds| == 1 && storeWorks(0) && ds[0].account.id == Some(account)
    requires ParseTransactionAmount(ds[0].transfer.value).Some? && Awaiting(orders, account) != []
    ensures BlockLog(orders, ds, storeWorks, height) == [Confirmation(height, 0)]
    ensures Awaiting(ConfirmAll(orders, ds, storeWorks).0, account) == Awaiting(orders, account)[1..]
  {
    assert ds[..0] == [];
    FindOrderIsFirst(orders, account);
    FindOrderFinds(orders, account);
    var (i, t) := (Awaiting(orders, account)[0], ds[0].transfer);
    AwaitingAfterFirst(orders, Confirmed(orders[i], ParseTransactionAmount(t.value).value, t.hash), account);
  }

  lemma OneDepositJob(s: State, c: Call, account: ObjectId)
    requires OneDepositNext(s, c, account) && Awaiting(s.orders, account) != []
    ensures EventLog(s, Job(c)) == [Confirmation(s.height + 1, 0)]
    ensures Awaiting(Tick(s, c).orders, account) == Awaiting(s.orders, account)[1..]
    ensures !c.cacheWrites ==> Tick(s, c).height == s.height
  {
    var h := s.height + 1;
    OneDepositBlock(s.orders, c.deposits(h), c.storeWorks(h), h, account);
    OneBlock(c.deposits, c.storeWorks, s.orders, h);
    assert BlocksLog(c.deposits, c.storeWorks, s.orders, h, h) == [];
  }

  /** After a failed cache write the block is tried again, and its one deposit confirms a second waiting order. */
  lemma FailedWriteConfirmsTwice(s: State, c: Call, account: ObjectId)
    requires OneDepositNext(s, c, account) && !c.cacheWrites && |Awaiting(s.orders, account)| >= 2
    ensures RunLog(s, [Job(c), Job(c.(cacheWrites := true))])
            == [Confirmation(s.height + 1, 0), Confirmation(s.height + 1, 0)]
  {
    var (d, m) := (c.(cacheWrites := true), Tick(s, c));
    OneDepositJob(s, c, account);
    OneDepositJob(m, d, account);
    assert [Job(c), Job(d)][..1] == [Job(c)] && [Job(c)][..0] == [];
    assert RunLog(s, [Job(c)]) == [] + EventLog(s, Job(c));
    assert Run(s, [Job(c)]) == m;
  }
}
