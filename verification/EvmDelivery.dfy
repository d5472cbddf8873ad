/**
 * What a run of the chain processor hands over of what the chain holds: a node may fail to answer, answer without a
 * block, or answer without the logs, and the watermark passes the block all the same.
 */
module EvmDelivery {
  import opened Common
  import opened EvmAmounts
  import opened EvmLookup
  import opened EvmOrders
  import opened EvmRuns
  import opened EvmHandled
  import opened EvmSettlements
  import opened EvmDepositsOnce
  import opened EvmProcessor

  /** What the chain really holds in a block: its transactions and its Transfer logs. */
  datatype Content = Content(transactions: seq<RawTx>, logs: seq<RawLog>)

  /** All transfers the block holds. */
  function Held(c: Content): seq<Transfer> {
    NativesOf(c.transactions) + TokensOf(c.logs)
  }

  /**
   * The node tells nothing wrong, but it may leave things out: it may not answer at all, answer null for a block it does
   * not have yet, which reads as a block without transactions, and fail or come back empty when asked for the logs.
   */
  predicate TellsOf(f: Fetch, c: Content) {
    f.Block? ==>
      && (f.transactions == [] || f.transactions == c.transactions)
      && (f.logs.None? || f.logs.value == [] || f.logs.value == c.logs)
  }

  /** The block came with its transactions, and the accounts could be looked up. */
  predicate GotBlock(w: World, height: nat) {
    !BlockFails(w, height) && w.fetch(height).Block? && w.fetch(height).transactions != []
  }

  /** So they did, and the logs came too. */
  predicate GotLogs(w: World, height: nat, c: Content) {
    GotBlock(w, height) && LogsOf(w.fetch(height)) == c.logs
  }

  /** None of the transfers pays to a deposit account. */
  predicate PaysNone(accounts: seq<Account>, ts: seq<Transfer>) {
    forall t :: t in ts ==> Lookup(accounts, t.to).None?
  }

  /** The lookups found every deposit, and what the answer left out holds none. */
  ghost predicate DeliversAll(w: World, height: nat, accounts: seq<Account>, c: Content) {
    if !GotBlock(w, height) then PaysNone(accounts, Held(c))
    else
      && Covered(accounts, AddressesOf(BlockTransfers(w.fetch(height))))
      && (GotLogs(w, height, c) || PaysNone(accounts, TokensOf(c.logs)))
  }

  // ---------------------------------------------------------------- one block

  lemma {:induction false} DirectConcat(accounts: seq<Account>, a: seq<Transfer>, b: seq<Transfer>)
    ensures DirectDispatch(accounts, a + b) == DirectDispatch(accounts, a) + DirectDispatch(accounts, b)
  {
    if b == [] {
      assert a + b == a;
    } else {
      DirectConcat(accounts, a, b[..|b| - 1]);
      assert (a + b)[..|a + b| - 1] == a + b[..|b| - 1];
    }
  }

  lemma {:induction false} PaysNoneIff(accounts: seq<Account>, ts: seq<Transfer>)
    ensures PaysNone(accounts, ts) <==> DirectDispatch(accounts, ts) == []
  {
    if ts != [] {
      PaysNoneIff(accounts, ts[..|ts| - 1]);
      assert ts == ts[..|ts| - 1] + [ts[|ts| - 1]];
    }
  }

  lemma {:induction false} FewerHits(k1: set<string>, k2: set<string>, ts: seq<Transfer>)
    requires k1 <= k2
    ensures |Hits(k1, ts)| <= |Hits(k2, ts)|
  {
    if ts != [] {
      FewerHits(k1, k2, ts[..|ts| - 1]);
    }
  }

  /** Batching finds no more deposits than one lookup for each transfer. */
  lemma BatchFindsNoMore(accounts: seq<Account>, ts: seq<Transfer>)
    ensures |BatchDispatch(StoreOf(accounts), ts)| <= |DirectDispatch(accounts, ts)|
  {
    var m := BatchMap(StoreOf(accounts), ts);
    BatchMapIsLive(accounts, ts);
    assert m.Keys <= LiveAddresses(accounts);
    FewerHits(m.Keys, LiveAddresses(accounts), ts);
    BatchHits(m, ts);
    DirectHits(accounts, ts);
    assert |TransfersOf(DispatchBy(m, ts))| == |DispatchBy(m, ts)|;
    assert |TransfersOf(DirectDispatch(accounts, ts))| == |DirectDispatch(accounts, ts)|;
  }

  lemma WithoutBlock(w: World, height: nat)
    requires !GotBlock(w, height)
    ensures DepositsOf(w, height) == []
  {
  }

  /** Without the logs only the native transfers are looked up. */
  lemma WithoutLogs(w: World, height: nat, c: Content)
    requires GotBlock(w, height) && !GotLogs(w, height, c) && TellsOf(w.fetch(height), c)
    ensures BlockTransfers(w.fetch(height)) == NativesOf(c.transactions)
  {
    assert TokensOf([]) == [];
    assert NativesOf(c.transactions) + [] == NativesOf(c.transactions);
  }

  lemma NativesAloneIff(accounts: seq<Account>, natives: seq<Transfer>, tokens: seq<Transfer>)
    requires OneAccountPerAddress(accounts)
    ensures BatchDispatch(StoreOf(accounts), natives) == DirectDispatch(accounts, natives + tokens)
       <==> Covered(accounts, AddressesOf(natives)) && PaysNone(accounts, tokens)
  {
    DirectConcat(accounts, natives, tokens);
    PaysNoneIff(accounts, tokens);
    BatchFindsNoMore(accounts, natives);
    BatchRefinesDirectIff(accounts, natives);
    NoMoreIff(BatchDispatch(StoreOf(accounts), natives), DirectDispatch(accounts, natives), DirectDispatch(accounts, tokens));
  }

  lemma NoMoreIff<T>(xs: seq<T>, ys: seq<T>, zs: seq<T>)
    requires |xs| <= |ys|
    ensures xs == ys + zs <==> xs == ys && zs == []
  {
  }

  /**
   * A block hands over, in order and to the right accounts, every deposit the chain holds in it if and only if the answer
   * left no deposit out: it came with its transactions and logs, or the missing part pays to no deposit account; and the
   * batched lookup covers what came.
   */
  lemma BlockDeliversAllIff(w: World, height: nat, accounts: seq<Account>, c: Content)
    requires w.store == StoreOf(accounts) && OneAccountPerAddress(accounts) && TellsOf(w.fetch(height), c)
    ensures DepositsOf(w, height) == DirectDispatch(accounts, Held(c)) <==> DeliversAll(w, height, accounts, c)
  {
    if !GotBlock(w, height) {
      WithoutBlock(w, height);
      PaysNoneIff(accounts, Held(c));
    } else if GotLogs(w, height, c) {
      BlockRefinesDirectIff(w, height, accounts);
    } else {
      WithoutLogs(w, height, c);
      NativesAloneIff(accounts, NativesOf(c.transactions), TokensOf(c.logs));
    }
  }

  lemma TransfersConcat(a: seq<Dispatch>, b: seq<Dispatch>)
    ensures TransfersOf(a + b) == TransfersOf(a) + TransfersOf(b)
  {
  }

  lemma NativeTransfersAloneIff(accounts: seq<Account>, natives: seq<Transfer>, tokens: seq<Transfer>)
    ensures TransfersOf(BatchDispatch(StoreOf(accounts), natives)) == TransfersOf(DirectDispatch(accounts, natives + tokens))
       <==> Covered(accounts, AddressesOf(natives)) && PaysNone(accounts, tokens)
  {
    var (batch, direct, rest) :=
      (BatchDispatch(StoreOf(accounts), natives), DirectDispatch(accounts, natives), DirectDispatch(accounts, tokens));
    DirectConcat(accounts, natives, tokens);
    TransfersConcat(direct, rest);
    PaysNoneIff(accounts, tokens);
    BatchFindsNoMore(accounts, natives);
    SameTransfersIff(accounts, natives);
    NoMoreIff(TransfersOf(batch), TransfersOf(direct), TransfersOf(rest));
  }

  /** However many accounts share an address, the block's transfers to deposit accounts all get to one under this condition. */
  lemma BlockDeliversTransfersIff(w: World, height: nat, accounts: seq<Account>, c: Content)
    requires w.store == StoreOf(accounts) && TellsOf(w.fetch(height), c)
    ensures TransfersOf(DepositsOf(w, height)) == TransfersOf(DirectDispatch(accounts, Held(c)))
       <==> DeliversAll(w, height, accounts, c)
  {
    if !GotBlock(w, height) {
      WithoutBlock(w, height);
      PaysNoneIff(accounts, Held(c));
    } else if GotLogs(w, height, c) {
      SameTransfersIff(accounts, BlockTransfers(w.fetch(height)));
    } else {
      WithoutLogs(w, height, c);
      NativeTransfersAloneIff(accounts, NativesOf(c.transactions), TokensOf(c.logs));
    }
  }

  // ---------------------------------------------------------------- runs

  /** A job with what it meets outside, or an expiry of the cached watermark. */
  datatype Round =
    | Round(accounts: seq<Account>, fetch: nat -> Fetch, lookupWorks: nat -> bool, storeWorks: nat -> nat -> bool,
            latest: Option<nat>, cacheReads: bool, cacheWrites: bool)
    | Expiry

  function WorldOf(r: Round): World
    requires r.Round?
  {
    World(StoreOf(r.accounts), r.fetch, r.lookupWorks, r.storeWorks)
  }

  function EventOf(r: Round): Event {
    match r
    case Expiry => CacheExpires
    case Round(_, _, _, _, _, _, _) => Job(CallIn(WorldOf(r), r.latest, r.cacheReads, r.cacheWrites))
  }

  function EventsOf(rs: seq<Round>): (es: seq<Event>)
    ensures |es| == |rs| && forall i :: 0 <= i < |rs| ==> es[i] == EventOf(rs[i])
  {
    seq(|rs|, i requires 0 <= i < |rs| => EventOf(rs[i]))
  }

  /** What an event hands over of a block. */
  function HandsOver(s: State, e: Event, h: nat): seq<Dispatch> {
    if e.Job? && Attempts(s, e.call, h) then e.call.deposits(h) else []
  }

  /** The deposits of a block that a run hands over, in order. */
  function HandedOver(s: State, es: seq<Event>, h: nat): seq<Dispatch> {
    if es == [] then []
    else HandedOver(s, es[..|es| - 1], h) + HandsOver(Run(s, es[..|es| - 1]), es[|es| - 1], h)
  }

  ghost predicate OnlyAttemptAt(s: State, es: seq<Event>, k: nat, h: nat) {
    AttemptsAt(s, es, k, h) && forall i: nat :: i != k ==> !AttemptsAt(s, es, i, h)
  }

  lemma AttemptsBefore(s: State, es: seq<Event>, i: nat, h: nat)
    requires i < |es| - 1
    ensures AttemptsAt(s, es, i, h) <==> AttemptsAt(s, es[..|es| - 1], i, h)
  {
    assert es[..|es| - 1][..i] == es[..i];
  }

  lemma {:induction false} NeverAttempted(s: State, es: seq<Event>, h: nat)
    requires forall i: nat :: !AttemptsAt(s, es, i, h)
    ensures HandedOver(s, es, h) == []
  {
    if es != [] {
      var n := |es| - 1;
      forall i: nat ensures !AttemptsAt(s, es[..n], i, h) {
        if i < n {
          AttemptsBefore(s, es, i, h);
        }
      }
      NeverAttempted(s, es[..n], h);
      assert !AttemptsAt(s, es, n, h);
    }
  }

  /** With one attempt at the block, the run hands over what that attempt does. */
  lemma {:induction false} HandedOverAtOnce(s: State, es: seq<Event>, k: nat, h: nat)
    requires OnlyAttemptAt(s, es, k, h)
    ensures HandedOver(s, es, h) == es[k].call.deposits(h)
  {
    var n := |es| - 1;
    forall i: nat ensures i < n ==> (AttemptsAt(s, es, i, h) <==> AttemptsAt(s, es[..n], i, h)) {
      if i < n {
        AttemptsBefore(s, es, i, h);
      }
    }
    if k == n {
      NeverAttempted(s, es[..n], h);
    } else {
      HandedOverAtOnce(s, es[..n], k, h);
      assert !AttemptsAt(s, es, n, h);
    }
  }

  /** The nodes tell nothing wrong of the block. */
  ghost predicate TellOf(rs: seq<Round>, h: nat, c: Content) {
    forall i :: 0 <= i < |rs| && rs[i].Round? ==> TellsOf(rs[i].fetch(h), c)
  }

  /** Round k is the one that attempts the block. */
  ghost predicate AttemptedBy(s: State, rs: seq<Round>, k: nat, h: nat) {
    k < |rs| && rs[k].Round? && OnlyAttemptAt(s, EventsOf(rs), k, h)
  }

  /**
   * The transfers handed over are those of the chain to deposit accounts if and only if the answers of round k left none
   * out; if no two accounts share an address, each also gets to its account.
   */
  ghost predicate DeliveredIff(s: State, rs: seq<Round>, k: nat, h: nat, c: Content)
    requires k < |rs| && rs[k].Round?
  {
    var (got, all) := (HandedOver(s, EventsOf(rs), h), DirectDispatch(rs[k].accounts, Held(c)));
    && (TransfersOf(got) == TransfersOf(all) <==> DeliversAll(WorldOf(rs[k]), h, rs[k].accounts, c))
    && (OneAccountPerAddress(rs[k].accounts) ==> (got == all <==> DeliversAll(WorldOf(rs[k]), h, rs[k].accounts, c)))
  }

  /**
   * While the watermark is stored and does not expire: of a height it has passed, the run hands over every deposit the
   * chain holds if and only if the answers to the one attempt at it left no deposit out.
   */
  lemma PassedBlockIsDeliveredIff(s: State, rs: seq<Round>, h: nat, c: Content)
    requires s.height > 0 && NoExpiry(EventsOf(rs)) && StoresEveryWatermark(s, EventsOf(rs))
    requires s.height < h <= Run(s, EventsOf(rs)).height && TellOf(rs, h, c)
    ensures exists k: nat :: AttemptedBy(s, rs, k, h)
    ensures forall k: nat :: AttemptedBy(s, rs, k, h) ==> DeliveredIff(s, rs, k, h, c)
  {
    var es := EventsOf(rs);
    var k := OnlyAttempt(s, es, h);
    assert AttemptedBy(s, rs, k, h);
    forall k: nat | AttemptedBy(s, rs, k, h) ensures DeliveredIff(s, rs, k, h, c) {
      HandedOverAtOnce(s, es, k, h);
      BlockDeliversTransfersIff(WorldOf(rs[k]), h, rs[k].accounts, c);
      if OneAccountPerAddress(rs[k].accounts) {
        BlockDeliversAllIff(WorldOf(rs[k]), h, rs[k].accounts, c);
      }
    }
  }

  // ---------------------------------------------------------------- any run

  /** All live accounts store their address in lowercase, no two the same. */
  ghost predicate WellStored(accounts: seq<Account>) {
    OneAccountPerAddress(accounts) && forall a :: IsLive(accounts, a) ==> IsLower(a.walletAddress)
  }

  ghost predicate SeeAccounts(rs: seq<Round>, accounts: seq<Account>) {
    forall i :: 0 <= i < |rs| && rs[i].Round? ==> rs[i].accounts == accounts
  }

  /** The round attempts the block and its answers bring the block. */
  predicate GetsBlock(s: State, r: Round, h: nat) {
    r.Round? && Attempts(s, EventOf(r).call, h) && GotBlock(WorldOf(r), h)
  }

  predicate GetsLogs(s: State, r: Round, h: nat, c: Content) {
    r.Round? && Attempts(s, EventOf(r).call, h) && GotLogs(WorldOf(r), h, c)
  }

  /** The attempts of a run that got the block. */
  function BlocksGot(s: State, rs: seq<Round>, h: nat): nat {
    if rs == [] then 0
    else
      var n := |rs| - 1;
      BlocksGot(s, rs[..n], h) + (if GetsBlock(Run(s, EventsOf(rs[..n])), rs[n], h) then 1 else 0)
  }

  /** Those of them that got the logs too. */
  function LogsGot(s: State, rs: seq<Round>, h: nat, c: Content): nat {
    if rs == [] then 0
    else
      var n := |rs| - 1;
      LogsGot(s, rs[..n], h, c) + (if GetsLogs(Run(s, EventsOf(rs[..n])), rs[n], h, c) then 1 else 0)
  }

  /** The deposits the chain holds in a block, those from transactions and those from logs. */
  function NativeDeposits(accounts: seq<Account>, c: Content): seq<Dispatch> {
    DirectDispatch(accounts, NativesOf(c.transactions))
  }

  function TokenDeposits(accounts: seq<Account>, c: Content): seq<Dispatch> {
    DirectDispatch(accounts, TokensOf(c.logs))
  }

  lemma WellStoredBlock(w: World, height: nat, accounts: seq<Account>, c: Content)
    requires w.store == StoreOf(accounts) && WellStored(accounts) && TellsOf(w.fetch(height), c)
    ensures DepositsOf(w, height) ==
            (if GotBlock(w, height) then NativeDeposits(accounts, c) else [])
            + (if GotLogs(w, height, c) then TokenDeposits(accounts, c) else [])
  {
    if !GotBlock(w, height) {
      WithoutBlock(w, height);
    } else {
      LowercaseStoreCovers(accounts, BlockTransfers(w.fetch(height)));
      if GotLogs(w, height, c) {
        DirectConcat(accounts, NativesOf(c.transactions), TokensOf(c.logs));
      } else {
        WithoutLogs(w, height, c);
      }
    }
  }

  /** The list holds d so often for each time it is in ds, and so often for each time it is in ds'. */
  predicate HoldsTimes(xs: seq<Dispatch>, d: Dispatch, blocks: nat, ds: seq<Dispatch>, logs: nat, ds': seq<Dispatch>) {
    multiset(xs)[d] == blocks * multiset(ds)[d] + logs * multiset(ds')[d]
  }

  lemma HoldsNoTimes(d: Dispatch, ds: seq<Dispatch>, ds': seq<Dispatch>)
    ensures HoldsTimes([], d, 0, ds, 0, ds')
  {
  }

  lemma HoldsMoreTimes(xs: seq<Dispatch>, ys: seq<Dispatch>, zs: seq<Dispatch>, d: Dispatch, blocks: nat, ds: seq<Dispatch>,
      logs: nat, ds': seq<Dispatch>, block: bool, log: bool, blocks': nat, logs': nat)
    requires HoldsTimes(xs, d, blocks, ds, logs, ds') && zs == xs + ys
    requires ys == (if block then ds else []) + (if log then ds' else [])
    requires blocks' == blocks + (if block then 1 else 0) && logs' == logs + (if log then 1 else 0)
    ensures HoldsTimes(zs, d, blocks', ds, logs', ds')
  {
    CountConcat(xs, ys, d);
    CountConcat(if block then ds else [], if log then ds' else [], d);
    Distributes(blocks, multiset(ds)[d]);
    Distributes(logs, multiset(ds')[d]);
  }

  lemma Distributes(n: nat, k: nat)
    ensures (n + 1) * k == n * k + k
  {
  }

  lemma RoundHandsOver(s: State, r: Round, accounts: seq<Account>, h: nat, c: Content)
    requires WellStored(accounts) && (r.Round? ==> r.accounts == accounts && TellsOf(r.fetch(h), c))
    ensures HandsOver(s, EventOf(r), h) ==
            (if GetsBlock(s, r, h) then NativeDeposits(accounts, c) else [])
            + (if GetsLogs(s, r, h, c) then TokenDeposits(accounts, c) else [])
  {
    if r.Round? && Attempts(s, EventOf(r).call, h) {
      WellStoredBlock(WorldOf(r), h, accounts, c);
    }
  }

  /** What the last round adds. */
  lemma OneMoreRound(s: State, rs: seq<Round>, h: nat, c: Content)
    requires rs != []
    ensures var (init, r) := (rs[..|rs| - 1], rs[|rs| - 1]);
            var m := Run(s, EventsOf(init));
            && HandedOver(s, EventsOf(rs), h) == HandedOver(s, EventsOf(init), h) + HandsOver(m, EventOf(r), h)
            && BlocksGot(s, rs, h) == BlocksGot(s, init, h) + (if GetsBlock(m, r, h) then 1 else 0)
            && LogsGot(s, rs, h, c) == LogsGot(s, init, h, c) + (if GetsLogs(m, r, h, c) then 1 else 0)
  {
    assert EventsOf(rs)[..|rs| - 1] == EventsOf(rs[..|rs| - 1]);
  }

  /**
   * Over any run, expiries and failures included, each native deposit of a block is handed over once for each attempt that
   * got the block, and each token deposit once for each that got the logs too.
   */
  lemma {:induction false} HandedOverCounts(s: State, rs: seq<Round>, accounts: seq<Account>, h: nat, c: Content, d: Dispatch)
    requires WellStored(accounts) && SeeAccounts(rs, accounts) && TellOf(rs, h, c)
    ensures HoldsTimes(HandedOver(s, EventsOf(rs), h), d, BlocksGot(s, rs, h), NativeDeposits(accounts, c),
              LogsGot(s, rs, h, c), TokenDeposits(accounts, c))
  {
    var (ds, ds') := (NativeDeposits(accounts, c), TokenDeposits(accounts, c));
    if rs == [] {
      HoldsNoTimes(d, ds, ds');
    } else {
      var (init, r) := (rs[..|rs| - 1], rs[|rs| - 1]);
      var m := Run(s, EventsOf(init));
      HandedOverCounts(s, init, accounts, h, c, d);
      RoundHandsOver(m, r, accounts, h, c);
      OneMoreRound(s, rs, h, c);
      HoldsMoreTimes(HandedOver(s, EventsOf(init), h), HandsOver(m, EventOf(r), h), HandedOver(s, EventsOf(rs), h), d,
        BlocksGot(s, init, h), ds, LogsGot(s, init, h, c), ds', GetsBlock(m, r, h), GetsLogs(m, r, h, c),
        BlocksGot(s, rs, h), LogsGot(s, rs, h, c));
    }
  }

  lemma {:induction false} LogsComeWithBlocks(s: State, rs: seq<Round>, h: nat, c: Content)
    ensures LogsGot(s, rs, h, c) <= BlocksGot(s, rs, h)
  {
    if rs != [] {
      LogsComeWithBlocks(s, rs[..|rs| - 1], h, c);
    }
  }

  lemma PositiveProduct(a: nat, b: nat)
    ensures a * b > 0 <==> a > 0 && b > 0
  {
  }

  /**
   * Over any run: a deposit the chain holds in a block is lost if and only if no attempt got the block, or it is paid by a
   * token alone and no attempt got the logs.
   */
  lemma DepositIsLostIff(s: State, rs: seq<Round>, accounts: seq<Account>, h: nat, c: Content, d: Dispatch)
    requires WellStored(accounts) && SeeAccounts(rs, accounts) && TellOf(rs, h, c)
    requires d in DirectDispatch(accounts, Held(c))
    ensures d !in HandedOver(s, EventsOf(rs), h)
       <==> BlocksGot(s, rs, h) == 0
            || (d !in NativeDeposits(accounts, c) && LogsGot(s, rs, h, c) == 0)
  {
    var (ds, ds') := (NativeDeposits(accounts, c), TokenDeposits(accounts, c));
    DirectConcat(accounts, NativesOf(c.transactions), TokensOf(c.logs));
    HandedOverCounts(s, rs, accounts, h, c, d);
    LogsComeWithBlocks(s, rs, h, c);
    NoTimesIff(HandedOver(s, EventsOf(rs), h), d, BlocksGot(s, rs, h), ds, LogsGot(s, rs, h, c), ds');
  }

  lemma NoTimesIff(xs: seq<Dispatch>, d: Dispatch, blocks: nat, ds: seq<Dispatch>, logs: nat, ds': seq<Dispatch>)
    requires HoldsTimes(xs, d, blocks, ds, logs, ds') && logs <= blocks && (d in ds || d in ds')
    ensures d !in xs <==> blocks == 0 || (d !in ds && logs == 0)
  {
    InBag(xs, d);
    InBag(ds, d);
    InBag(ds', d);
    PositiveProduct(blocks, multiset(ds)[d]);
    PositiveProduct(logs, multiset(ds')[d]);
  }

  lemma InBag<T>(xs: seq<T>, x: T)
    ensures x in xs <==> multiset(xs)[x] > 0
  {
  }

  // ---------------------------------------------------------------- confirmations

  lemma JobConfirmsDeposits(s: State, e: Event)
    ensures forall x :: x in EventLog(s, e) ==> x.place < |HandsOver(s, e, x.height)|
  {
    if e.Job? {
      var c := e.call;
      JobBlocks(s, c);
      BlocksLogAscends(c.deposits, c.storeWorks, s.orders, Tried(s, c).0, Tried(s, c).1);
      forall x | x in EventLog(s, e) ensures x.place < |HandsOver(s, e, x.height)| {
        TriedIsAttempted(s, c, x.height);
      }
    }
  }

  lemma TriedIsAttempted(s: State, c: Call, h: nat)
    ensures Attempts(s, c, h) <==> Tried(s, c).0 <= h < Tried(s, c).1
  {
  }

  /** Only deposits that were handed over confirm orders. */
  lemma {:induction false} OnlyHandedOverConfirm(s: State, es: seq<Event>)
    ensures forall x :: x in RunLog(s, es) ==> x.place < |HandedOver(s, es, x.height)|
  {
    if es != [] {
      OnlyHandedOverConfirm(s, es[..|es| - 1]);
      JobConfirmsDeposits(Run(s, es[..|es| - 1]), es[|es| - 1]);
    }
  }

  lemma RoundsBringNothingWhenFailing(rs: seq<Round>)
    ensures forall i :: 0 <= i < |rs| ==> FailingBringNothing(EventsOf(rs)[i])
  {
    forall i | 0 <= i < |rs| ensures FailingBringNothing(EventsOf(rs)[i]) {
      var r := rs[i];
      if r.Round? {
        CallInFailingBringNothing(WorldOf(r), r.latest, r.cacheReads, r.cacheWrites);
      }
    }
  }

  /**
   * Over any run of the processor's jobs a deposit confirms at most as many orders as there were times its block was
   * handled; if no job repeats a block, at most one.
   */
  lemma RoundsConfirmAtMostAsOftenAsHandled(s: State, rs: seq<Round>, x: Confirmation)
    ensures multiset(RunLog(s, EventsOf(rs)))[x] <= multiset(RunHandled(s, EventsOf(rs)))[x.height]
    ensures !SomeJobRepeats(s, EventsOf(rs)) ==> multiset(RunLog(s, EventsOf(rs)))[x] <= 1
  {
    RoundsBringNothingWhenFailing(rs);
    ConfirmsAtMostAsOftenAsHandled(s, EventsOf(rs), x);
    HandledOnceIff(s, EventsOf(rs));
    if !SomeJobRepeats(s, EventsOf(rs)) {
      CountIsMembership(RunHandled(s, EventsOf(rs)), x.height);
    }
  }

  // ---------------------------------------------------------------- two answers that lose deposits

  /** One job that finds one new block. */
  predicate NextBlock(s: State, r: Round) {
    s.height > 0 && r.Round? && r.latest == Some(s.height + 1) && r.cacheReads && r.cacheWrites
  }

  /** The watermark was stored and passed the block, and the attempt at it did not fail. */
  ghost predicate PassedWithoutError(s: State, es: seq<Event>, h: nat) {
    && NoExpiry(es) && StoresEveryWatermark(s, es) && Run(s, es).height == h
    && h in RunHandled(s, es) && forall i: nat :: !FailsAt(s, es, i, h)
  }

  lemma NextBlockPasses(s: State, r: Round)
    requires NextBlock(s, r) && !BlockFails(WorldOf(r), s.height + 1)
    ensures PassedWithoutError(s, EventsOf([r]), s.height + 1)
    ensures HandedOver(s, EventsOf([r]), s.height + 1) == DepositsOf(WorldOf(r), s.height + 1)
  {
    var (es, h) := (EventsOf([r]), s.height + 1);
    assert es[..0] == [] && es == [EventOf(r)];
    EventHandledMembers(s, EventOf(r), h);
    assert RunHandled(s, es) == [] + EventHandled(s, es[0]);
    assert Run(s, es) == Apply(Run(s, []), es[0]);
    assert StoresEveryWatermark(s, []);
    forall i: nat ensures !FailsAt(s, es, i, h) {
      assert i < |es| ==> i == 0;
    }
    assert HandedOver(s, es, h) == [] + HandsOver(s, es[0], h);
  }

  /** The standard Transfer log of a payment. */
  function TransferLog(hash: string, from: string, to: string, amount: nat): RawLog {
    Log(hash, [Some("Transfer"), Some("0x" + Zeros(24) + from), Some("0x" + Zeros(24) + to)], "0x" + (Zeros(0) + ToHex(amount)))
  }

  lemma TransferLogPays(hash: string, from: string, to: string, amount: nat, account: Account)
    requires |from| == 40 && |to| == 40 && !account.deleted && account.walletAddress == "0x" + to
    ensures !PaysNone([account], TokensOf([TransferLog(hash, from, to, amount)]))
  {
    var log := TransferLog(hash, from, to, amount);
    TransferLogRoundTrip(hash, "Transfer", from, to, amount, 0);
    var t := ParseTokenTransferLog(log).value;
    assert [log][..0] == [];
    assert TokensOf([log]) == [] + [t];
    LookupFinds([account], t.to);
    assert IsLive([account], account);
  }

  /** The log query fails: a token payment to a deposit account is lost though nothing reports an error. */
  lemma FailedLogQueryLosesDeposit(s: State, r: Round, hash: string, from: string, to: string, amount: nat,
      account: Account, txs: seq<RawTx>)
    requires NextBlock(s, r) && r.accounts == [account] && r.lookupWorks(s.height + 1)
    requires |from| == 40 && |to| == 40 && !account.deleted && account.walletAddress == "0x" + to
    requires txs != [] && r.fetch(s.height + 1) == Block(txs, None)
    ensures PassedWithoutError(s, EventsOf([r]), s.height + 1)
    ensures HandedOver(s, EventsOf([r]), s.height + 1)
            != DirectDispatch([account], Held(Content(txs, [TransferLog(hash, from, to, amount)])))
  {
    var c := Content(txs, [TransferLog(hash, from, to, amount)]);
    NextBlockPasses(s, r);
    TransferLogPays(hash, from, to, amount, account);
    BlockDeliversAllIff(WorldOf(r), s.height + 1, [account], c);
  }

  /** The node answers null for a block its tip reports already: a native payment is lost the same way. */
  lemma MissingBlockLosesDeposit(s: State, r: Round, payment: Transfer, account: Account)
    requires NextBlock(s, r) && r.accounts == [account] && !account.deleted
    requires payment.to != "" && payment.to == account.walletAddress
    requires r.fetch(s.height + 1) == Block([], None) || r.fetch(s.height + 1) == NoBlock
    ensures PassedWithoutError(s, EventsOf([r]), s.height + 1)
    ensures HandedOver(s, EventsOf([r]), s.height + 1) == []
    ensures DirectDispatch([account], Held(Content([Tx(payment)], []))) == [Dispatch(payment, account)]
  {
    NextBlockPasses(s, r);
    WithoutBlock(WorldOf(r), s.height + 1);
    assert [Tx(payment)][..0] == [] && [payment][..0] == [] && [account][..0] == [];
    assert NativesOf([Tx(payment)]) == NativesOf([]) + [payment] && NativesOf([]) == [];
    assert Held(Content([Tx(payment)], [])) == [payment];
    assert Lookup([account], payment.to) == Some(account);
  }
}
