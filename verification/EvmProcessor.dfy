/**
 * The EVM chain processor: one block at a time, and from call to call with a cached watermark of the last height
 * that was handled.
 */
module EvmProcessor {
  import opened Common
  import opened EvmAmounts
  import opened EvmLookup
  import opened EvmOrders
  import opened EvmRuns
  import EvmDepositsOnce

  datatype RawTx = NotAnObject | Tx(transfer: Transfer)

  /** What the node answers for a block; the logs are None when they could not be fetched. */
  datatype Fetch = FetchFailed | NoBlock | Block(transactions: seq<RawTx>, logs: Option<seq<RawLog>>)

  /** What the outside answers during one call. */
  datatype World = World(
    store: AccountStore,
    fetch: nat -> Fetch,
    lookupWorks: nat -> bool,
    storeWorks: nat -> nat -> bool
  )

  // ---------------------------------------------------------------- one block

  function NativesOf(txs: seq<RawTx>): seq<Transfer> {
    if txs == [] then []
    else
      var t := txs[|txs| - 1];
      NativesOf(txs[..|txs| - 1]) + (if t.Tx? && t.transfer.to != "" then [t.transfer] else [])
  }

  function TokensOf(logs: seq<RawLog>): seq<Transfer> {
    if logs == [] then []
    else
      var t := ParseTokenTransferLog(logs[|logs| - 1]);
      TokensOf(logs[..|logs| - 1]) + (if t.Some? && t.value.to != "" then [t.value] else [])
  }

  function LogsOf(f: Fetch): seq<RawLog>
    requires f.Block?
  {
    if f.logs.Some? then f.logs.value else []
  }

  /** All transfers of a block, native ones first; none at all when it has no transactions. */
  function BlockTransfers(f: Fetch): seq<Transfer> {
    if !f.Block? || f.transactions == [] then [] else NativesOf(f.transactions) + TokensOf(LogsOf(f))
  }

  predicate BlockFails(w: World, height: nat) {
    || w.fetch(height).FetchFailed?
    || (BlockTransfers(w.fetch(height)) != [] && !w.lookupWorks(height))
  }

  /** The deposits of a block, in the order they are handled. */
  function DepositsOf(w: World, height: nat): seq<Dispatch> {
    if BlockFails(w, height) then [] else BatchDispatch(w.store, BlockTransfers(w.fetch(height)))
  }

  /** Those of them that come from native transactions. */
  function NativeDepositsOf(w: World, height: nat): seq<Dispatch> {
    var f := w.fetch(height);
    if BlockFails(w, height) || !f.Block? then []
    else DispatchBy(BatchMap(w.store, BlockTransfers(f)), NativesOf(f.transactions))
  }

  /** What a job meets when it runs in this world. */
  function CallIn(w: World, latest: Option<nat>, cacheReads: bool, cacheWrites: bool): Call {
    Call(latest, cacheReads, cacheWrites, (h: nat) => BlockFails(w, h), (h: nat) => DepositsOf(w, h), w.storeWorks)
  }

  /** A block that fails hands over no deposits. */
  lemma CallInFailingBringNothing(w: World, latest: Option<nat>, cacheReads: bool, cacheWrites: bool)
    ensures EvmDepositsOnce.FailingBringNothing(Job(CallIn(w, latest, cacheReads, cacheWrites)))
  {
  }

  ghost predicate Meets(c: Call, w: World) {
    && c.storeWorks == w.storeWorks
    && (forall h: nat :: c.fails(h) == BlockFails(w, h))
    && (forall h: nat :: c.deposits(h) == DepositsOf(w, h))
  }

  /**
   * A block whose lookup works hands over what one lookup per transfer would, to the same accounts, iff it is covered;
   * every block is when the live accounts' addresses are stored in lowercase.
   */
  lemma BlockRefinesDirectIff(w: World, height: nat, accounts: seq<Account>)
    requires w.store == StoreOf(accounts) && OneAccountPerAddress(accounts) && !BlockFails(w, height)
    ensures DepositsOf(w, height) == DirectDispatch(accounts, BlockTransfers(w.fetch(height)))
       <==> Covered(accounts, AddressesOf(BlockTransfers(w.fetch(height))))
  {
    BatchRefinesDirectIff(accounts, BlockTransfers(w.fetch(height)));
  }

  /** Whatever the store answers: a block whose lookup works hands each deposit to the last account found for its address. */
  lemma DepositsGoToLastFound(w: World, height: nat)
    requires !BlockFails(w, height)
    ensures var ts := BlockTransfers(w.fetch(height));
            ToLastFound(FindDepositAccounts(w.store, AddressesOf(ts)), ts, DepositsOf(w, height))
  {
    LastFoundAccountWins(w.store, BlockTransfers(w.fetch(height)));
  }

  // ---------------------------------------------------------------- what a block brings

  lemma {:induction false} NativesConcat(a: seq<RawTx>, b: seq<RawTx>)
    ensures NativesOf(a + b) == NativesOf(a) + NativesOf(b)
  {
    if b == [] {
      assert a + b == a;
    } else {
      NativesConcat(a, b[..|b| - 1]);
      assert (a + b)[..|a + b| - 1] == a + b[..|b| - 1];
    }
  }

  lemma {:induction false} TokensConcat(a: seq<RawLog>, b: seq<RawLog>)
    ensures TokensOf(a + b) == TokensOf(a) + TokensOf(b)
  {
    if b == [] {
      assert a + b == a;
    } else {
      TokensConcat(a, b[..|b| - 1]);
      assert (a + b)[..|a + b| - 1] == a + b[..|b| - 1];
    }
  }

  /** Adding one transaction adds its transfer, if it is an object with a receiver, at its place among the others. */
  lemma OneTransaction(a: seq<RawTx>, tx: RawTx, b: seq<RawTx>)
    ensures NativesOf(a + [tx] + b) ==
            NativesOf(a)
            + (match tx case Tx(t) => (if t.to == "" then [] else [t]) case NotAnObject => [])
            + NativesOf(b)
  {
    NativesConcat(a + [tx], b);
    NativesConcat(a, [tx]);
    assert [tx][..0] == [];
  }

  /** Adding one log adds the transfer to the address in its third topic, if it has one, at its place among the others. */
  lemma OneLog(a: seq<RawLog>, log: RawLog, b: seq<RawLog>)
    ensures TokensOf(a + [log] + b) ==
            TokensOf(a)
            + (match log
               case NotALog => []
               case Log(hash, topics, data) =>
                 if |topics| >= 3 && topics[2].Some? && |topics[2].value| >= 66
                 then [Transfer(hash, "0x" + topics[2].value[26..], if |data| > 2 then data else "")]
                 else [])
            + TokensOf(b)
  {
    TokensConcat(a + [log], b);
    TokensConcat(a, [log]);
    assert [log][..0] == [];
  }

  /** A block fails if and only if it cannot be fetched, or it has transactions and transfers and the lookup fails. */
  lemma BlockFailsIff(w: World, height: nat)
    ensures BlockFails(w, height) <==>
            match w.fetch(height)
            case FetchFailed => true
            case NoBlock => false
            case Block(txs, logs) =>
              && txs != [] && !w.lookupWorks(height)
              && (NativesOf(txs) != [] || (logs.Some? && TokensOf(logs.value) != []))
  {
  }

  // ---------------------------------------------------------------- the processor

  lemma PrefixSnoc<T>(s: seq<T>, i: nat)
    requires i < |s|
    ensures s[..i + 1][..i] == s[..i] && s[..i + 1] == s[..i] + [s[i]]
  {
  }

  lemma {:induction false} DispatchConcat(m: map<string, Account>, a: seq<Transfer>, b: seq<Transfer>)
    ensures DispatchBy(m, a + b) == DispatchBy(m, a) + DispatchBy(m, b)
  {
    if b == [] {
      assert a + b == a;
    } else {
      DispatchConcat(m, a, b[..|b| - 1]);
      assert (a + b)[..|a + b| - 1] == a + b[..|b| - 1];
    }
  }

  lemma AddressesIffTransfers(ts: seq<Transfer>)
    ensures AddressesOf(ts) == {} <==> ts == []
  {
    if ts != [] {
      assert ts[0] in ts;
      assert Lower(ts[0].to) in AddressesOf(ts);
    }
  }

  lemma SliceIsSet(addresses: seq<string>, ts: seq<Transfer>)
    requires forall a :: a in addresses <==> a in AddressesOf(ts)
    ensures LowerAll(addresses) == AddressesOf(ts)
  {
    AddressesAreLower(ts);
  }

  lemma OneMoreAddress(ts: seq<Transfer>, t: Transfer)
    ensures AddressesOf(ts + [t]) == AddressesOf(ts) + {Lower(t.to)}
  {
    assert t in ts + [t];
  }

  lemma NothingHandled(w: World, height: nat, orders: seq<Order>)
    requires var f := w.fetch(height); !f.Block? || f.transactions == []
    ensures BlockFails(w, height) <==> w.fetch(height).FetchFailed?
    ensures ConfirmAll(orders, DepositsOf(w, height), w.storeWorks(height)) == (orders, 0)
    ensures ConfirmAll(orders, NativeDepositsOf(w, height), w.storeWorks(height)).1 == 0
  {
    assert DepositsOf(w, height) == [] && NativeDepositsOf(w, height) == [];
  }

  /** The transfers of a block that has transactions, and the accounts of their addresses unless the lookup fails. */
  predicate Prepared(w: World, height: nat, natives: seq<Transfer>, tokens: seq<Transfer>, m: Option<map<string, Account>>) {
    var f := w.fetch(height);
    && f.Block? && f.transactions != []
    && natives == NativesOf(f.transactions) && tokens == TokensOf(LogsOf(f))
    && m == if natives + tokens != [] && !w.lookupWorks(height) then None else Some(BatchMap(w.store, natives + tokens))
  }

  lemma PreparedBlock(w: World, height: nat, natives: seq<Transfer>, tokens: seq<Transfer>, m: Option<map<string, Account>>)
    requires Prepared(w, height, natives, tokens, m)
    ensures BlockFails(w, height) <==> m.None?
    ensures DepositsOf(w, height) == if m.None? then [] else DispatchBy(m.value, natives + tokens)
    ensures NativeDepositsOf(w, height) == if m.None? then [] else DispatchBy(m.value, natives)
  {
  }

  /** The deposits so far, when the first i transfers have been handled. */
  predicate DispatchedSoFar(ds: seq<Dispatch>, deposits: seq<Dispatch>, m: map<string, Account>, ts: seq<Transfer>, i: nat)
    requires i <= |ts|
  {
    ds == deposits + DispatchBy(m, ts[..i])
  }

  lemma NothingDispatched(deposits: seq<Dispatch>, m: map<string, Account>, ts: seq<Transfer>)
    ensures DispatchedSoFar(deposits, deposits, m, ts, 0)
  {
    assert deposits + [] == deposits;
  }

  lemma NextDispatch(ds: seq<Dispatch>, deposits: seq<Dispatch>, m: map<string, Account>, ts: seq<Transfer>, i: nat)
    requires i < |ts| && DispatchedSoFar(ds, deposits, m, ts, i)
    ensures DispatchedSoFar(if Lower(ts[i].to) in m then ds + [Dispatch(ts[i], m[Lower(ts[i].to)])] else ds,
              deposits, m, ts, i + 1)
  {
    PrefixSnoc(ts, i);
  }

  lemma AllDispatched(ds: seq<Dispatch>, deposits: seq<Dispatch>, m: map<string, Account>, ts: seq<Transfer>)
    requires DispatchedSoFar(ds, deposits, m, ts, |ts|)
    ensures ds == deposits + DispatchBy(m, ts)
  {
    assert ts[..|ts|] == ts;
  }

  /** The orders and the number of matches after these deposits. */
  predicate Confirms(start: seq<Order>, ds: seq<Dispatch>, storeWorks: nat -> bool, orders: seq<Order>, matches: nat) {
    (orders, matches) == ConfirmAll(start, ds, storeWorks)
  }

  lemma ConfirmsOneMore(start: seq<Order>, ds: seq<Dispatch>, storeWorks: nat -> bool, orders: seq<Order>, matches: nat,
      d: Dispatch, orders': seq<Order>, matched: bool)
    requires Confirms(start, ds, storeWorks, orders, matches)
    requires (orders', matched) == Confirm(orders, d, storeWorks(|ds|))
    ensures Confirms(start, ds + [d], storeWorks, orders', if matched then matches + 1 else matches)
  {
    assert (ds + [d])[..|ds|] == ds;
  }

  /** What a block that has transactions comes to, whether its lookup worked or not. */
  predicate BlockDone(w: World, height: nat, start: seq<Order>, orders: seq<Order>, ok: bool, native: nat, tokens: nat) {
    && (ok <==> !BlockFails(w, height))
    && Confirms(start, DepositsOf(w, height), w.storeWorks(height), orders, native + tokens)
    && native == ConfirmAll(start, NativeDepositsOf(w, height), w.storeWorks(height)).1
  }

  lemma LookupFailedDone(w: World, height: nat, natives: seq<Transfer>, tokens: seq<Transfer>, start: seq<Order>)
    requires Prepared(w, height, natives, tokens, None)
    ensures BlockDone(w, height, start, start, false, 0, 0)
  {
    PreparedBlock(w, height, natives, tokens, None);
  }

  lemma LookedUpDone(w: World, height: nat, natives: seq<Transfer>, tokens: seq<Transfer>, m: map<string, Account>,
      start: seq<Order>, orders: seq<Order>, n: nat, k: nat)
    requires Prepared(w, height, natives, tokens, Some(m))
    requires Confirms(start, DispatchBy(m, natives + tokens), w.storeWorks(height), orders, n + k)
    requires n == ConfirmAll(start, DispatchBy(m, natives), w.storeWorks(height)).1
    ensures BlockDone(w, height, start, orders, true, n, k)
  {
    PreparedBlock(w, height, natives, tokens, Some(m));
  }

  lemma OneMoreHeight(attempted: seq<int>, first: nat, height: nat)
    requires first <= height
    ensures attempted + Range(first, height + 1) == attempted + Range(first, height) + [height]
  {
    assert Range(first, height + 1) == Range(first, height) + [height];
  }

  class ChainProcessor {
    var height: nat
    var orders: seq<Order>
    ghost var attempted: seq<int>

    constructor (orders: seq<Order>)
      ensures Snapshot() == State(0, orders, [])
    {
      this.height, this.orders, this.attempted := 0, orders, [];
    }

    ghost function Snapshot(): State
      reads this
    {
      State(height, orders, attempted)
    }

    /** The exact query, and the case-insensitive one when it comes back empty. */
    method FindDepositAccountsByAddresses(store: AccountStore, addresses: seq<string>) returns (found: seq<Account>)
      ensures found == FindDepositAccounts(store, LowerAll(addresses))
    {
      if |addresses| == 0 {
        return [];
      }
      assert Lower(addresses[0]) in LowerAll(addresses);
      var lowerAddresses: seq<string> := [];
      for i := 0 to |addresses|
        invariant |lowerAddresses| == i
        invariant forall j :: 0 <= j < i ==> lowerAddresses[j] == Lower(addresses[j])
      {
        lowerAddresses := lowerAddresses + [Lower(addresses[i])];
      }
      var wanted := set a | a in lowerAddresses;
      assert wanted == LowerAll(addresses) by {
        forall a | a in addresses ensures Lower(a) in wanted {
          var j :| 0 <= j < |addresses| && addresses[j] == a;
          assert lowerAddresses[j] == Lower(a);
        }
      }
      found := store.exact(wanted);
      if |found| == 0 {
        found := store.loose(wanted);
      }
    }

    /** The native transfers that name a receiver, and the set of the addresses they pay to. */
    method ExtractNatives(txs: seq<RawTx>) returns (natives: seq<Transfer>, addressSet: set<string>)
      ensures natives == NativesOf(txs) && addressSet == AddressesOf(natives)
    {
      natives, addressSet := [], {};
      for i := 0 to |txs|
        invariant natives == NativesOf(txs[..i])
        invariant addressSet == AddressesOf(natives)
      {
        PrefixSnoc(txs, i);
        if txs[i].Tx? && txs[i].transfer.to != "" {
          OneMoreAddress(natives, txs[i].transfer);
          addressSet := addressSet + {Lower(txs[i].transfer.to)};
          natives := natives + [txs[i].transfer];
        }
      }
      assert txs[..|txs|] == txs;
    }

    /** The token transfers that name a receiver; their addresses join those of the native ones. */
    method ExtractTokens(logs: seq<RawLog>, natives: seq<Transfer>, nativeAddresses: set<string>)
      returns (tokens: seq<Transfer>, addressSet: set<string>)
      requires nativeAddresses == AddressesOf(natives)
      ensures tokens == TokensOf(logs) && addressSet == AddressesOf(natives + tokens)
    {
      tokens, addressSet := [], nativeAddresses;
      assert natives + tokens == natives;
      for i := 0 to |logs|
        invariant tokens == TokensOf(logs[..i])
        invariant addressSet == AddressesOf(natives + tokens)
      {
        PrefixSnoc(logs, i);
        var t := ParseTokenTransferLog(logs[i]);
        if t.Some? && t.value.to != "" {
          OneMoreAddress(natives + tokens, t.value);
          assert natives + (tokens + [t.value]) == (natives + tokens) + [t.value];
          addressSet := addressSet + {Lower(t.value.to)};
          tokens := tokens + [t.value];
        }
      }
      assert logs[..|logs|] == logs;
    }

    /** The members of a set in the arbitrary order a Go map is traversed. */
    method ToSlice(addressSet: set<string>) returns (addresses: seq<string>)
      ensures forall a :: a in addresses <==> a in addressSet
    {
      addresses := [];
      var rest := addressSet;
      while rest != {}
        invariant rest <= addressSet
        invariant forall a :: a in addresses <==> a in addressSet && a !in rest
      {
        var a :| a in rest;
        addresses := addresses + [a];
        rest := rest - {a};
      }
    }

    method MapAccounts(found: seq<Account>) returns (accountMap: map<string, Account>)
      ensures accountMap == AccountMap(found)
    {
      accountMap := map[];
      for i := 0 to |found|
        invariant accountMap == AccountMap(found[..i])
      {
        PrefixSnoc(found, i);
        accountMap := accountMap[Lower(found[i].walletAddress) := found[i]];
      }
      assert found[..|found|] == found;
    }

    /** Hands one transfer to the account of its address, if there is one. */
    method Handle(t: Transfer, accountMap: map<string, Account>, storeWorks: bool) returns (handled: bool, matched: bool)
      modifies this`orders
      ensures handled <==> Lower(t.to) in accountMap
      ensures (orders, matched) ==
              if handled then Confirm(old(orders), Dispatch(t, accountMap[Lower(t.to)]), storeWorks) else (old(orders), false)
    {
      handled, matched := Lower(t.to) in accountMap, false;
      if handled {
        var account := accountMap[Lower(t.to)];
        if account.id.Some? {
          var order := FindOrder(orders, account.id.value);
          if order.Some? {
            FindOrderFinds(orders, account.id.value);
            matched := ProcessOrderTransaction(order.value, t, storeWorks);
          }
        }
      }
    }

    /** Confirms the given order unless the amount cannot be read or the update fails. */
    method ProcessOrderTransaction(order: nat, t: Transfer, updateWorks: bool) returns (matched: bool)
      requires order < |orders|
      modifies this`orders
      ensures matched <==> ParseTransactionAmount(t.value).Some? && updateWorks
      ensures orders == if !matched then old(orders)
                        else
                          var amount := ParseTransactionAmount(t.value).value;
                          old(orders)[order := Order(old(orders)[order].depositAccountIds, DepositConfirming, amount, t.hash)]
    {
      var amount := ParseTransactionAmount(t.value);
      if amount.None? || !updateWorks {
        return false;
      }
      orders := orders[order := Order(orders[order].depositAccountIds, DepositConfirming, amount.value, t.hash)];
      matched := true;
    }

    /** The i-th transfer of a pass; ds are the deposits of the block that have been handled already. */
    method HandleNext(ts: seq<Transfer>, i: nat, accountMap: map<string, Account>, storeWorks: nat -> bool, done: nat,
        ghost start: seq<Order>, ghost deposits: seq<Dispatch>, ghost ds: seq<Dispatch>, ghost confirmed: nat)
      returns (dispatched: nat, matched: bool, ghost ds': seq<Dispatch>)
      requires i < |ts| && DispatchedSoFar(ds, deposits, accountMap, ts, i)
      requires done == |ds| && Confirms(start, ds, storeWorks, orders, confirmed)
      modifies this`orders
      ensures DispatchedSoFar(ds', deposits, accountMap, ts, i + 1) && dispatched == |ds'|
      ensures Confirms(start, ds', storeWorks, orders, if matched then confirmed + 1 else confirmed)
    {
      var t := ts[i];
      var handled;
      handled, matched := Handle(t, accountMap, storeWorks(done));
      NextDispatch(ds, deposits, accountMap, ts, i);
      if handled {
        ghost var d := Dispatch(t, accountMap[Lower(t.to)]);
        ConfirmsOneMore(start, ds, storeWorks, old(orders), confirmed, d, orders, matched);
        dispatched, ds' := done + 1, ds + [d];
      } else {
        dispatched, ds' := done, ds;
      }
    }

    /** Hands all transfers over in order, after the given deposits of the same block, and counts the confirmed ones. */
    method HandleAll(ts: seq<Transfer>, accountMap: map<string, Account>, storeWorks: nat -> bool, done: nat,
        ghost start: seq<Order>, ghost deposits: seq<Dispatch>, ghost confirmed: nat)
      returns (dispatched: nat, matches: nat)
      requires done == |deposits| && Confirms(start, deposits, storeWorks, orders, confirmed)
      modifies this`orders
      ensures dispatched == |deposits + DispatchBy(accountMap, ts)|
      ensures Confirms(start, deposits + DispatchBy(accountMap, ts), storeWorks, orders, confirmed + matches)
    {
      dispatched, matches := done, 0;
      ghost var ds := deposits;
      NothingDispatched(deposits, accountMap, ts);
      for i := 0 to |ts|
        invariant DispatchedSoFar(ds, deposits, accountMap, ts, i) && dispatched == |ds|
        invariant Confirms(start, ds, storeWorks, orders, confirmed + matches)
      {
        var matched;
        dispatched, matched, ds :=
          HandleNext(ts, i, accountMap, storeWorks, dispatched, start, deposits, ds, confirmed + matches);
        if matched {
          matches := matches + 1;
        }
      }
      AllDispatched(ds, deposits, accountMap, ts);
    }

    /** The two passes over a block: native transactions, then token transfers. */
    method HandleBlock(natives: seq<Transfer>, tokens: seq<Transfer>, accountMap: map<string, Account>, storeWorks: nat -> bool)
      returns (nativeMatches: nat, tokenMatches: nat)
      modifies this`orders
      ensures (orders, nativeMatches + tokenMatches) ==
              ConfirmAll(old(orders), DispatchBy(accountMap, natives + tokens), storeWorks)
      ensures nativeMatches == ConfirmAll(old(orders), DispatchBy(accountMap, natives), storeWorks).1
    {
      ghost var start, deposits := orders, DispatchBy(accountMap, natives);
      var dispatched, handled;
      dispatched, nativeMatches := HandleAll(natives, accountMap, storeWorks, 0, start, [], 0);
      assert [] + deposits == deposits;
      handled, tokenMatches := HandleAll(tokens, accountMap, storeWorks, dispatched, start, deposits, nativeMatches);
      DispatchConcat(accountMap, natives, tokens);
    }

    /** The batched lookup of a block's addresses; None when the query fails. */
    method FindAccounts(store: AccountStore, addressSet: set<string>, ghost ts: seq<Transfer>, lookupWorks: bool)
      returns (accountMap: Option<map<string, Account>>)
      requires addressSet == AddressesOf(ts)
      ensures accountMap == if ts != [] && !lookupWorks then None else Some(BatchMap(store, ts))
    {
      var addresses := ToSlice(addressSet);
      AddressesIffTransfers(ts);
      SliceIsSet(addresses, ts);
      if |addresses| > 0 && !lookupWorks {
        assert addresses[0] in addressSet;
        return None;
      }
      assert addresses == [] ==> addressSet == {};
      var depositAccounts := FindDepositAccountsByAddresses(store, addresses);
      var m := MapAccounts(depositAccounts);
      accountMap := Some(m);
    }

    /** Extracts the transfers of a block that has transactions and looks their addresses up. */
    method Prepare(w: World, blockNumber: nat)
      returns (natives: seq<Transfer>, tokens: seq<Transfer>, accountMap: Option<map<string, Account>>)
      requires w.fetch(blockNumber).Block? && w.fetch(blockNumber).transactions != []
      ensures Prepared(w, blockNumber, natives, tokens, accountMap)
    {
      var block := w.fetch(blockNumber);
      var nativeAddresses, addressSet;
      natives, nativeAddresses := ExtractNatives(block.transactions);
      tokens, addressSet := ExtractTokens(LogsOf(block), natives, nativeAddresses);
      accountMap := FindAccounts(w.store, addressSet, natives + tokens, w.lookupWorks(blockNumber));
    }

    /** A block that has transactions: its transfers are extracted, looked up and handed over. */
    method ProcessTransfers(w: World, blockNumber: nat) returns (ok: bool, nativeMatches: nat, tokenMatches: nat)
      requires w.fetch(blockNumber).Block? && w.fetch(blockNumber).transactions != []
      modifies this`orders
      ensures BlockDone(w, blockNumber, old(orders), orders, ok, nativeMatches, tokenMatches)
    {
      var natives, tokens, accountMap := Prepare(w, blockNumber);
      if accountMap.None? {
        LookupFailedDone(w, blockNumber, natives, tokens, orders);
        return false, 0, 0;
      }
      ok := true;
      nativeMatches, tokenMatches := HandleBlock(natives, tokens, accountMap.value, w.storeWorks(blockNumber));
      LookedUpDone(w, blockNumber, natives, tokens, accountMap.value, old(orders), orders, nativeMatches, tokenMatches);
    }

    /** Processes one block; ok is false for its two errors. */
    method ProcessBlock(w: World, blockNumber: nat) returns (ok: bool, nativeMatches: nat, tokenMatches: nat)
      modifies this`orders
      ensures ok <==> !BlockFails(w, blockNumber)
      ensures (orders, nativeMatches + tokenMatches) ==
              ConfirmAll(old(orders), DepositsOf(w, blockNumber), w.storeWorks(blockNumber))
      ensures nativeMatches == ConfirmAll(old(orders), NativeDepositsOf(w, blockNumber), w.storeWorks(blockNumber)).1
    {
      var block := w.fetch(blockNumber);
      if block.FetchFailed? {
        NothingHandled(w, blockNumber, orders);
        return false, 0, 0;
      }
      if block.NoBlock? || |block.transactions| == 0 {
        NothingHandled(w, blockNumber, orders);
        return true, 0, 0;
      }
      ok, nativeMatches, tokenMatches := ProcessTransfers(w, blockNumber);
    }

    method Attempt(w: World, blockNumber: nat) returns (ok: bool)
      modifies this`orders, this`attempted
      ensures ok <==> !BlockFails(w, blockNumber)
      ensures orders == ConfirmAll(old(orders), DepositsOf(w, blockNumber), w.storeWorks(blockNumber)).0
      ensures attempted == old(attempted) + [blockNumber]
    {
      var nativeMatches, tokenMatches;
      ok, nativeMatches, tokenMatches := ProcessBlock(w, blockNumber);
      attempted := attempted + [blockNumber];
    }

    /** Tries every height from first to last; a failing block does not stop the loop. */
    method CatchUp(w: World, first: nat, last: nat, ghost deposits: nat -> seq<Dispatch>)
      requires first <= last
      requires forall h: nat :: deposits(h) == DepositsOf(w, h)
      modifies this`orders, this`attempted
      ensures orders == AfterBlocks(deposits, w.storeWorks, old(orders), first, last + 1)
      ensures attempted == old(attempted) + Range(first, last + 1)
    {
      ghost var start, tried := orders, attempted;
      assert tried + Range(first, first) == tried;
      for blockNumber := first to last + 1
        invariant orders == AfterBlocks(deposits, w.storeWorks, start, first, blockNumber)
        invariant attempted == tried + Range(first, blockNumber)
      {
        var ok := Attempt(w, blockNumber);
        OneMoreHeight(tried, first, blockNumber);
      }
    }

    /** The first job without a watermark tries the latest block and keeps its height only if all went well. */
    method StartFresh(w: World, latest: nat, cacheWrites: bool, ghost c: Call) returns (ok: bool)
      requires Starts(Snapshot(), c) && c.latest == Some(latest) && c.cacheWrites == cacheWrites && Meets(c, w)
      modifies this
      ensures Snapshot() == Tick(old(Snapshot()), c)
      ensures ok <==> TickSucceeds(old(Snapshot()), c)
    {
      OneBlock(c.deposits, c.storeWorks, orders, latest);
      ok := Attempt(w, latest);
      if ok {
        if !cacheWrites {
          return false;
        }
        height := latest;
      }
    }

    /** Later jobs try every new height once and move the watermark up, however the blocks went. */
    method FollowUp(w: World, latest: nat, cacheWrites: bool, ghost c: Call) returns (ok: bool)
      requires FindsNewBlocks(Snapshot(), c) && c.latest == Some(latest) && c.cacheWrites == cacheWrites && Meets(c, w)
      modifies this
      ensures Snapshot() == Tick(old(Snapshot()), c)
      ensures ok <==> TickSucceeds(old(Snapshot()), c)
    {
      CatchUp(w, height + 1, latest, c.deposits);
      if cacheWrites {
        height := latest;
      }
      ok := cacheWrites;
    }

    /** One job: catches up from the watermark to the latest block, or starts at the latest block. */
    method ProcessChain(w: World, latest: Option<nat>, cacheReads: bool, cacheWrites: bool) returns (ok: bool)
      modifies this
      ensures Snapshot() == Tick(old(Snapshot()), CallIn(w, latest, cacheReads, cacheWrites))
      ensures ok <==> TickSucceeds(old(Snapshot()), CallIn(w, latest, cacheReads, cacheWrites))
    {
      if latest.None? || !cacheReads {
        return false;
      }
      ghost var c := CallIn(w, latest, cacheReads, cacheWrites);
      if height == 0 {
        ok := StartFresh(w, latest.value, cacheWrites, c);
      } else if latest.value > height {
        ok := FollowUp(w, latest.value, cacheWrites, c);
      } else {
        ok := true;
      }
    }
  }
}
