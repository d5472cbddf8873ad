/**
 * How old the account data in a served wallet portfolio can be: when the single TTL is a bound, and that twice the
 * TTL is the best one in general.
 */
module WalletAge {
  import opened Common
  import opened PortfolioCache

  predicate IsCached(c: Cache, account: Id, t: int) {
    account in c.accounts && Fresh(c.accounts[account].timestamp, t)
  }

  /** When the data was read that a Get of the account at t serves: at its cached timestamp while that is fresh. */
  function ReadTime(c: Cache, account: Id, t: int): int {
    if IsCached(c, account, t) then c.accounts[account].timestamp else t
  }

  /** A Get of the wallet at t builds it from its accounts. */
  predicate Builds(h: History, c: Cache, id: Id, t: int) {
    && !(id in c.wallets && Fresh(c.wallets[id].timestamp, t))
    && h(t).walletAccounts(id).Some? && h(t).walletAccounts(id).value != []
  }

  /** ps[i] is account sources[i] as it was at that account's read time. */
  ghost predicate ReadAsOf(h: History, c: Cache, sources: seq<Id>, ps: seq<AccountPortfolio>, t: int) {
    && |sources| == |ps|
    && forall i :: 0 <= i < |ps| ==> Shows(h(ReadTime(c, sources[i], t)), sources[i], ps[i])
  }

  lemma ServedAsOf(h: History, c: Cache, account: Id, t: int)
    requires Good(h, c, t)
    ensures Serve(h, c, account, t) == Compute(h(ReadTime(c, account, t)), account)
    ensures Serve(h, c, account, t).Some? <==> Known(h(ReadTime(c, account, t)), account)
    ensures forall p :: Serve(h, c, account, t) == Some(p) <==> Shows(h(ReadTime(c, account, t)), account, p)
    ensures t - TTL < ReadTime(c, account, t) <= t
  {
    ComputesWhatShows(h(ReadTime(c, account, t)), account);
  }

  lemma {:induction false} AllServedAsOf(h: History, c: Cache, ids: seq<Id>, t: int)
    requires Good(h, c, t)
    ensures ReadAsOf(h, c, Answering(h, c, ids, t), ServeAll(h, c, ids, t), t)
  {
    if ids != [] {
      AllServedAsOf(h, c, ids[..|ids| - 1], t);
      ServedAsOf(h, c, ids[|ids| - 1], t);
    }
  }

  lemma {:induction false} AnsweringMembers(h: History, c: Cache, ids: seq<Id>, t: int)
    ensures forall a :: a in Answering(h, c, ids, t) <==> a in ids && Serve(h, c, a, t).Some?
  {
    if ids != [] {
      AnsweringMembers(h, c, ids[..|ids| - 1], t);
      assert ids == ids[..|ids| - 1] + [ids[|ids| - 1]];
    }
  }

  // ---------------------------------------------------------------- served again

  lemma {:induction false} GetAllKeepsWallets(h: History, c: Cache, ids: seq<Id>, t: int)
    ensures GetAll(h, c, ids, t).0.wallets == c.wallets
  {
    if ids != [] {
      GetAllKeepsWallets(h, c, ids[..|ids| - 1], t);
    }
  }

  lemma CallKeepsFreshWallet(h: History, c: Cache, call: Call, id: Id)
    requires id in c.wallets && Fresh(c.wallets[id].timestamp, call.now)
    ensures var d := AfterCall(h, c, call); id in d.wallets && d.wallets[id] == c.wallets[id]
  {
    if call.WalletCall? {
      GetAllKeepsWallets(h, c, call.order, call.now);
    }
  }

  lemma {:induction false} CallsKeepFreshWallet(h: History, c: Cache, calls: seq<Call>, id: Id)
    requires id in c.wallets && forall i :: 0 <= i < |calls| ==> Fresh(c.wallets[id].timestamp, calls[i].now)
    ensures var d := AfterCallsFrom(h, c, calls); id in d.wallets && d.wallets[id] == c.wallets[id]
  {
    if calls != [] {
      var n := |calls| - 1;
      CallsKeepFreshWallet(h, c, calls[..n], id);
      CallKeepsFreshWallet(h, AfterCallsFrom(h, c, calls[..n]), calls[n], id);
    }
  }

  /**
   * A wallet built at t is served unchanged at any later instant before t + TTL, whatever calls come in between, and
   * each of its account portfolios is the account as it was at its read time.
   */
  lemma BuiltWalletIsServed(h: History, c: Cache, id: Id, order: seq<Id>, t: int, calls: seq<Call>, order': seq<Id>, now: int)
    requires Good(h, c, t) && Builds(h, c, id, t) && SomeOrder(h, id, order, t)
    requires forall i :: 0 <= i < |calls| ==> calls[i].now <= now
    requires t <= now < t + TTL
    ensures var (d, w) := GetWallet(h, c, id, order, t);
            && w.Some? && GetWallet(h, AfterCallsFrom(h, d, calls), id, order', now).1 == w
            && ReadAsOf(h, c, Answering(h, c, order, t), w.value.accounts, t)
  {
    GoroutinesDoNotInterfere(h, c, order, t);
    AllServedAsOf(h, c, order, t);
    CallsKeepFreshWallet(h, GetWallet(h, c, id, order, t).0, calls, id);
  }

  // ---------------------------------------------------------------- the total of a built wallet

  /** The account's balance at the listed price of its currency; an account that is not known is worth nothing. */
  function AccountWorth(db: Snapshot, id: Id): real {
    if Known(db, id) then Worth(db.account(id).value.balance, db.currency(db.account(id).value.currencyId).value.symbol)
    else 0.0
  }

  /** What the accounts were worth, each at its read time, added up. */
  ghost function WorthOf(h: History, c: Cache, ids: seq<Id>, t: int): real {
    Fold((a: Id) => AccountWorth(h(ReadTime(c, a, t)), a), 0.0, (x: real, y: real) => x + y, ids)
  }

  lemma {:induction false} ServedAreWorth(h: History, c: Cache, ids: seq<Id>, t: int)
    requires Good(h, c, t)
    ensures UsdTotal(ServeAll(h, c, ids, t)) == WorthOf(h, c, ids, t)
  {
    if ids != [] {
      var (init, a) := (ids[..|ids| - 1], ids[|ids| - 1]);
      ServedAreWorth(h, c, init, t);
      ServedAsOf(h, c, a, t);
      var (ps, p) := (ServeAll(h, c, init, t), Serve(h, c, a, t));
      if p.Some? {
        assert (ps + [p.value])[..|ps|] == ps;
        assert p.value.totalUsdValue == AccountWorth(h(ReadTime(c, a, t)), a);
      }
    }
  }

  /**
   * The total of a wallet built at t is the sum, over the accounts listed at t, of balance times price, each as of its read
   * time; for a wallet without accounts it is 0.
   */
  lemma BuiltWalletWorth(h: History, c: Cache, id: Id, order: seq<Id>, t: int)
    requires Good(h, c, t) && SomeOrder(h, id, order, t) && h(t).walletAccounts(id).Some?
    requires !(id in c.wallets && Fresh(c.wallets[id].timestamp, t))
    ensures var w := GetWallet(h, c, id, order, t).1;
            w.Some? && w.value.walletId == id && w.value.walletUsdValue == WorthOf(h, c, h(t).walletAccounts(id).value, t)
  {
    GoroutinesDoNotInterfere(h, c, order, t);
    ServedAreWorth(h, c, order, t);
    FoldIgnoresOrder((a: Id) => AccountWorth(h(ReadTime(c, a, t)), a), 0.0, (x: real, y: real) => x + y,
      order, h(t).walletAccounts(id).value);
  }

  // ---------------------------------------------------------------- when a single TTL is a bound

  /** Every account portfolio of the wallet was read after now - TTL. */
  ghost predicate ReadRecently(h: History, c: Cache, order: seq<Id>, t: int, now: int) {
    forall a :: a in Answering(h, c, order, t) ==> ReadTime(c, a, t) > now - TTL
  }

  /** Every account portfolio of the wallet is what the repositories said at some instant after now - TTL. */
  ghost predicate CurrentRecently(h: History, sources: seq<Id>, ps: seq<AccountPortfolio>, now: int)
    requires |sources| == |ps|
  {
    forall i :: 0 <= i < |ps| ==> ReadWithin(h, sources[i], ps[i], now - TTL, now)
  }

  lemma CachedAnswers(h: History, c: Cache, order: seq<Id>, a: Id, t: int)
    requires a in order && IsCached(c, a, t)
    ensures a in Answering(h, c, order, t)
  {
    AnsweringMembers(h, c, order, t);
  }

  /**
   * All data of a wallet built at t and served at now was read after now - TTL if and only if, at t, no listed account
   * had a cache entry that was fresh and from now - TTL or before.
   */
  lemma ReadRecentlyIff(h: History, c: Cache, id: Id, order: seq<Id>, t: int, now: int)
    requires Good(h, c, t) && Builds(h, c, id, t) && SomeOrder(h, id, order, t) && t <= now < t + TTL
    ensures ReadRecently(h, c, order, t, now)
       <==> forall a :: a in h(t).walletAccounts(id).value && IsCached(c, a, t) ==> c.accounts[a].timestamp > now - TTL
  {
    var ids := h(t).walletAccounts(id).value;
    SameMembers(order, ids);
    AnsweringMembers(h, c, order, t);
    if a :| a in ids && IsCached(c, a, t) && c.accounts[a].timestamp <= now - TTL {
      CachedAnswers(h, c, order, a, t);
      assert ReadTime(c, a, t) <= now - TTL;
    }
  }

  lemma SameMembers(xs: seq<Id>, ys: seq<Id>)
    requires multiset(xs) == multiset(ys)
    ensures forall a :: a in xs <==> a in ys
  {
    assert forall a :: (a in xs <==> a in multiset(xs)) && (a in ys <==> a in multiset(ys));
  }

  /** What a cached account contributes to the wallet is current again after now - TTL. */
  ghost predicate EntryIsCurrent(h: History, c: Cache, a: Id, now: int)
    requires a in c.accounts
  {
    ReadWithin(h, a, c.accounts[a].portfolio, now - TTL, now)
  }

  /**
   * And all of it was current at some instant after now - TTL, however it was read, if and only if each such older
   * entry holds what the repositories said again after now - TTL.
   */
  lemma CurrentRecentlyIff(h: History, c: Cache, id: Id, order: seq<Id>, t: int, now: int)
    requires Good(h, c, t) && Builds(h, c, id, t) && SomeOrder(h, id, order, t) && t <= now < t + TTL
    ensures var (sources, w) := (Answering(h, c, order, t), GetWallet(h, c, id, order, t).1);
            && w.Some? && |sources| == |w.value.accounts|
            && (CurrentRecently(h, sources, w.value.accounts, now) <==>
                  forall a :: a in h(t).walletAccounts(id).value && IsCached(c, a, t) && c.accounts[a].timestamp <= now - TTL
                              ==> EntryIsCurrent(h, c, a, now))
  {
    var (ids, sources, ps) := (h(t).walletAccounts(id).value, Answering(h, c, order, t), ServeAll(h, c, order, t));
    SameMembers(order, ids);
    GoroutinesDoNotInterfere(h, c, order, t);
    AllServedAsOf(h, c, order, t);
    AnsweringMembers(h, c, order, t);
    if CurrentRecently(h, sources, ps, now) {
      forall a | a in ids && IsCached(c, a, t) ensures EntryIsCurrent(h, c, a, now) {
        CachedAnswers(h, c, order, a, t);
        var i :| 0 <= i < |sources| && sources[i] == a;
        ServedAsOf(h, c, a, t);
        assert ps[i] == c.accounts[a].portfolio;
      }
    } else {
      var i :| 0 <= i < |ps| && !ReadWithin(h, sources[i], ps[i], now - TTL, now);
      OldDataIsCached(h, c, sources[i], ps[i], t, now);
      assert sources[i] in sources && sources[i] in ids;
    }
  }

  /** Data that was not current after now - TTL comes from an entry at least that old. */
  lemma OldDataIsCached(h: History, c: Cache, a: Id, p: AccountPortfolio, t: int, now: int)
    requires Good(h, c, t) && Shows(h(ReadTime(c, a, t)), a, p) && t <= now < t + TTL
    requires !ReadWithin(h, a, p, now - TTL, now)
    ensures IsCached(c, a, t) && c.accounts[a].timestamp <= now - TTL && !EntryIsCurrent(h, c, a, now)
  {
    ServedAsOf(h, c, a, t);
  }

  // ---------------------------------------------------------------- twice the TTL is the best bound

  /** One account worth 1 USDT up to time 0 and 2 USDT from then on. */
  function JumpAtZero(t: int): Snapshot {
    Snapshot(_ => Some([1]),
             _ => Some(Account(1, "0xabc", if t <= 0 then 1.0 else 2.0, 1, 0)),
             _ => Some(Currency("USDT")),
             _ => None)
  }

  /** The one account's portfolio, read at time t. */
  function ReadAt(t: int): AccountPortfolio {
    NewAccountPortfolio(1, "0xabc", NewTokenData("USDT", if t <= 0 then 1.0 else 2.0, 1.0, 0, ""))
  }

  lemma ReadAtIsComputed(t: int)
    ensures Compute(JumpAtZero(t), 1) == Some(ReadAt(t))
    ensures forall id :: Compute(JumpAtZero(t), id) == Some(ReadAt(t))
  {
  }

  lemma ReadAtWorth(t: int)
    ensures ReadAt(t).totalUsdValue == if t <= 0 then 1.0 else 2.0
  {
  }

  /** The cache after the account was asked for at 0. */
  lemma AccountIsCached()
    ensures AfterCalls(JumpAtZero, [AccountCall(1, 0)]) == Cache(map[1 := AccountEntry(ReadAt(0), 0)], map[])
  {
    assert [AccountCall(1, 0)][..0] == [];
    ReadAtIsComputed(0);
    assert AfterCalls(JumpAtZero, []) == Cache(map[], map[]);
    assert GetAccount(JumpAtZero, Cache(map[], map[]), 1, 0).0 == Cache(map[1 := AccountEntry(ReadAt(0), 0)], map[]);
  }

  lemma WalletCachesOldData()
    ensures var c1 := Cache(map[1 := AccountEntry(ReadAt(0), 0)], map[]);
            GetAll(JumpAtZero, c1, [1], TTL - 1) == (c1, [ReadAt(0)])
  {
    var c1 := Cache(map[1 := AccountEntry(ReadAt(0), 0)], map[]);
    assert [1][..0] == [];
    assert GetAll(JumpAtZero, c1, [], TTL - 1) == (c1, []);
    assert GetAccount(JumpAtZero, c1, 1, TTL - 1) == (c1, Some(ReadAt(0)));
    assert [] + [ReadAt(0)] == [ReadAt(0)];
  }

  lemma OldDataIsServed()
    ensures var calls := [AccountCall(1, 0), WalletCall(7, [1], TTL - 1)];
            GetWallet(JumpAtZero, AfterCalls(JumpAtZero, calls), 7, [1], 2 * TTL - 2).1
            == Some(WalletPortfolio(7, [ReadAt(0)], UsdTotal([ReadAt(0)])))
  {
    var calls := [AccountCall(1, 0), WalletCall(7, [1], TTL - 1)];
    AccountIsCached();
    WalletCachesOldData();
    assert calls[..1] == [AccountCall(1, 0)];
    assert AfterCalls(JumpAtZero, calls) == AfterCall(JumpAtZero, AfterCalls(JumpAtZero, calls[..1]), calls[1]);
  }

  lemma OldDataIsTooOld()
    ensures !SomeonesDataWithin(JumpAtZero, ReadAt(0), 0, 2 * TTL - 2)
  {
    forall t | 0 < t ensures ReadAt(t) != ReadAt(0) {
      ReadAtWorth(t);
      ReadAtWorth(0);
    }
    forall t, id ensures Compute(JumpAtZero(t), id) == Some(ReadAt(t)) {
      ReadAtIsComputed(t);
    }
  }

  /** Account data read at 0, and at no later instant, is still served at 2 TTL - 2: no bound below 2 TTL - 1 holds. */
  lemma WalletDataCanOutliveTTL()
    ensures var calls := [AccountCall(1, 0), WalletCall(7, [1], TTL - 1)];
            var w := GetWallet(JumpAtZero, AfterCalls(JumpAtZero, calls), 7, [1], 2 * TTL - 2).1;
            && LegalCalls(JumpAtZero, calls)
            && w.Some? && w.value.accounts != []
            && !SomeonesDataWithin(JumpAtZero, w.value.accounts[0], 0, 2 * TTL - 2)
  {
    OldDataIsServed();
    OldDataIsTooOld();
  }
}
