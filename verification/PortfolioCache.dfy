/**
 * Portfolios over a time-to-live cache: a wallet portfolio is cached although it is built from account
 * portfolios that may themselves come from the cache. The repositories are an arbitrary history, one
 * snapshot per instant; each Get is one instant of the clock.
 */
module PortfolioCache {
  import opened Common

  type Id = nat

  datatype Currency = Currency(symbol: string)

  datatype Account = Account(id: Id, walletAddress: string, balance: real, currencyId: Id, chainId: Id)

  /** What the repositories answer at one instant; None stands for an error or a missing document.
      A chain lookup that fails or finds nothing leaves the chain symbol empty. */
  datatype Snapshot = Snapshot(
    walletAccounts: Id -> Option<seq<Id>>,
    account: Id -> Option<Account>,
    currency: Id -> Option<Currency>,
    chainSymbol: Id -> Option<string>)

  type History = int -> Snapshot

  const TTL: int := 300

  // ---------------------------------------------------------------- portfolio values

  datatype TokenData = TokenData(symbol: string, balance: real, price: real, usdValue: real, chainId: Id, chainSymbol: string)

  datatype AccountPortfolio = AccountPortfolio(accountId: Id, walletAddress: string, token: TokenData, totalUsdValue: real)

  datatype WalletPortfolio = WalletPortfolio(walletId: Id, accounts: seq<AccountPortfolio>, walletUsdValue: real)

  function TokenPrice(symbol: string): real {
    if symbol == "BTC" then 40000.0
    else if symbol == "ETH" then 2000.0
    else if symbol == "SOL" then 100.0
    else if symbol == "TRX" then 0.1
    else if symbol == "USDT" || symbol == "USDC" then 1.0
    else 0.0
  }

  function NewTokenData(symbol: string, balance: real, price: real, chainId: Id, chainSymbol: string): TokenData {
    TokenData(symbol, balance, price, balance * price, chainId, chainSymbol)
  }

  function NewAccountPortfolio(accountId: Id, walletAddress: string, token: TokenData): AccountPortfolio {
    AccountPortfolio(accountId, walletAddress, token, token.usdValue)
  }

  function UsdTotal(ps: seq<AccountPortfolio>): real {
    if ps == [] then 0.0 else UsdTotal(ps[..|ps| - 1]) + ps[|ps| - 1].totalUsdValue
  }

  method NewWalletPortfolio(walletId: Id, accounts: seq<AccountPortfolio>) returns (w: WalletPortfolio)
    ensures w == WalletPortfolio(walletId, accounts, UsdTotal(accounts))
  {
    var totalUsdValue := 0.0;
    for i := 0 to |accounts|
      invariant totalUsdValue == UsdTotal(accounts[..i])
    {
      assert accounts[..i + 1][..i] == accounts[..i];
      totalUsdValue := totalUsdValue + accounts[i].totalUsdValue;
    }
    assert accounts[..|accounts|] == accounts;
    return WalletPortfolio(walletId, accounts, totalUsdValue);
  }

  /** An account's portfolio computed from one snapshot; None when the account or its currency is not found. */
  function Compute(db: Snapshot, accountId: Id): Option<AccountPortfolio> {
    match db.account(accountId)
    case None => None
    case Some(a) =>
      match db.currency(a.currencyId)
      case None => None
      case Some(c) =>
        var chain := if a.chainId == 0 then "" else (match db.chainSymbol(a.chainId) case Some(s) => s case None => "");
        Some(NewAccountPortfolio(a.id, a.walletAddress,
          NewTokenData(c.symbol, a.balance, TokenPrice(c.symbol), a.chainId, chain)))
  }

  // ---------------------------------------------------------------- what a computed portfolio shows

  /** The mock prices; every other symbol is worth nothing. */
  function PriceList(): map<string, real> {
    map["BTC" := 40000.0, "ETH" := 2000.0, "SOL" := 100.0, "TRX" := 0.1, "USDT" := 1.0, "USDC" := 1.0]
  }

  /** The balance at the listed price. */
  function Worth(balance: real, symbol: string): real {
    if symbol in PriceList() then balance * PriceList()[symbol] else 0.0
  }

  /** The account and its currency are known. */
  predicate Known(db: Snapshot, id: Id) {
    db.account(id).Some? && db.currency(db.account(id).value.currencyId).Some?
  }

  /** p shows the account as the repositories have it, at its worth in US dollars. */
  predicate Shows(db: Snapshot, id: Id, p: AccountPortfolio) {
    && Known(db, id)
    && var a := db.account(id).value;
       var symbol := db.currency(a.currencyId).value.symbol;
       && p.accountId == a.id && p.walletAddress == a.walletAddress
       && p.totalUsdValue == Worth(a.balance, symbol)
       && p.token.symbol == symbol && p.token.balance == a.balance && p.token.usdValue == Worth(a.balance, symbol)
       && p.token.price == Worth(1.0, symbol) && p.token.chainId == a.chainId
       && (a.chainId != 0 && db.chainSymbol(a.chainId).Some? ==> p.token.chainSymbol == db.chainSymbol(a.chainId).value)
       && (a.chainId == 0 || db.chainSymbol(a.chainId).None? ==> p.token.chainSymbol == "")
  }

  lemma ComputedShows(db: Snapshot, id: Id)
    requires Known(db, id)
    ensures Compute(db, id).Some? && Shows(db, id, Compute(db, id).value)
  {
    var a := db.account(id).value;
    var symbol := db.currency(a.currencyId).value.symbol;
    PricedAsListed(symbol);
    assert a.balance * TokenPrice(symbol) == Worth(a.balance, symbol) && TokenPrice(symbol) == Worth(1.0, symbol);
  }

  lemma ShownIsUnique(db: Snapshot, id: Id, p: AccountPortfolio, q: AccountPortfolio)
    requires Shows(db, id, p) && Shows(db, id, q)
    ensures p == q
  {
  }

  /** What is computed is exactly what shows the account; nothing is for an account that is not known. */
  lemma ComputesWhatShows(db: Snapshot, id: Id)
    ensures Compute(db, id).Some? <==> Known(db, id)
    ensures forall p :: Compute(db, id) == Some(p) <==> Shows(db, id, p)
  {
    if Known(db, id) {
      ComputedShows(db, id);
      forall p | Shows(db, id, p) ensures Compute(db, id) == Some(p) {
        ShownIsUnique(db, id, p, Compute(db, id).value);
      }
    }
  }

  lemma PricedAsListed(symbol: string)
    ensures TokenPrice(symbol) == if symbol in PriceList() then PriceList()[symbol] else 0.0
  {
  }

  // ---------------------------------------------------------------- the cache as a value

  datatype AccountEntry = AccountEntry(portfolio: AccountPortfolio, timestamp: int)

  datatype WalletEntry = WalletEntry(portfolio: WalletPortfolio, timestamp: int)

  datatype Cache = Cache(accounts: map<Id, AccountEntry>, wallets: map<Id, WalletEntry>)

  predicate Fresh(timestamp: int, now: int) {
    now - timestamp < TTL
  }

  function GetAccount(h: History, c: Cache, id: Id, now: int): (Cache, Option<AccountPortfolio>) {
    if id in c.accounts && Fresh(c.accounts[id].timestamp, now) then (c, Some(c.accounts[id].portfolio))
    else
      match Compute(h(now), id)
      case None => (c, None)
      case Some(p) => (c.(accounts := c.accounts[id := AccountEntry(p, now)]), Some(p))
  }

  /** Goroutines in the order in which they append; failing accounts append nothing. */
  function GetAll(h: History, c: Cache, ids: seq<Id>, now: int): (Cache, seq<AccountPortfolio>) {
    if ids == [] then (c, [])
    else
      var (c1, ps) := GetAll(h, c, ids[..|ids| - 1], now);
      var (c2, p) := GetAccount(h, c1, ids[|ids| - 1], now);
      (c2, if p.Some? then ps + [p.value] else ps)
  }

  /** order: the order in which the goroutines of this call finish. */
  function GetWallet(h: History, c: Cache, id: Id, order: seq<Id>, now: int): (Cache, Option<WalletPortfolio>) {
    if id in c.wallets && Fresh(c.wallets[id].timestamp, now) then (c, Some(c.wallets[id].portfolio))
    else
      match h(now).walletAccounts(id)
      case None => (c, None)
      case Some(ids) =>
        if ids == [] then (c, Some(WalletPortfolio(id, [], 0.0)))
        else
          var (c1, ps) := GetAll(h, c, order, now);
          var w := WalletPortfolio(id, ps, UsdTotal(ps));
          (c1.(wallets := c1.wallets[id := WalletEntry(w, now)]), Some(w))
  }

  /** order lists the wallet's accounts in some order, whenever they are fetched at all. */
  ghost predicate SomeOrder(h: History, id: Id, order: seq<Id>, now: int) {
    h(now).walletAccounts(id).Some? ==> multiset(order) == multiset(h(now).walletAccounts(id).value)
  }

  class PortfolioUseCase {
    const history: History
    var cache: Cache

    constructor (history: History)
      ensures this.history == history && cache == Cache(map[], map[])
    {
      this.history := history;
      cache := Cache(map[], map[]);
    }

    method GetAccountPortfolio(id: Id, now: int) returns (r: Option<AccountPortfolio>)
      modifies this
      ensures (cache, r) == GetAccount(history, old(cache), id, now)
    {
      if id in cache.accounts && now - cache.accounts[id].timestamp < TTL {
        return Some(cache.accounts[id].portfolio);
      }
      var db := history(now);
      var account := db.account(id);
      if account.None? {
        return None;
      }
      var currency := db.currency(account.value.currencyId);
      if currency.None? {
        return None;
      }
      var chainSymbol := "";
      if account.value.chainId != 0 {
        var chain := db.chainSymbol(account.value.chainId);
        if chain.Some? {
          chainSymbol := chain.value;
        }
      }
      var price := TokenPrice(currency.value.symbol);
      var token := NewTokenData(currency.value.symbol, account.value.balance, price, account.value.chainId, chainSymbol);
      var result := NewAccountPortfolio(account.value.id, account.value.walletAddress, token);
      cache := cache.(accounts := cache.accounts[id := AccountEntry(result, now)]);
      return Some(result);
    }

    method GetWalletPortfolio(id: Id, now: int) returns (r: Option<WalletPortfolio>, ghost order: seq<Id>)
      modifies this
      ensures SomeOrder(history, id, order, now)
      ensures (cache, r) == GetWallet(history, old(cache), id, order, now)
    {
      order := match history(now).walletAccounts(id) case Some(ids) => ids case None => [];
      if id in cache.wallets && now - cache.wallets[id].timestamp < TTL {
        return Some(cache.wallets[id].portfolio), order;
      }
      var accounts := history(now).walletAccounts(id);
      if accounts.None? {
        return None, order;
      }
      if accounts.value == [] {
        return Some(WalletPortfolio(id, [], 0.0)), order;
      }
      var running := accounts.value;
      var accountPortfolios: seq<AccountPortfolio> := [];
      order := [];
      while running != []
        invariant multiset(order) + multiset(running) == multiset(accounts.value)
        invariant (cache, accountPortfolios) == GetAll(history, old(cache), order, now)
        decreases |running|
      {
        var k :| 0 <= k < |running|;
        var account := running[k];
        assert running == running[..k] + [account] + running[k + 1..];
        var p := GetAccountPortfolio(account, now);
        if p.Some? {
          accountPortfolios := accountPortfolios + [p.value];
        }
        assert (order + [account])[..|order|] == order;
        order := order + [account];
        running := running[..k] + running[k + 1..];
      }
      var w := NewWalletPortfolio(id, accountPortfolios);
      cache := cache.(wallets := cache.wallets[id := WalletEntry(w, now)]);
      return Some(w), order;
    }
  }

  // ---------------------------------------------------------------- one instant of a wallet's goroutines

  function Serve(h: History, c: Cache, id: Id, now: int): Option<AccountPortfolio> {
    GetAccount(h, c, id, now).1
  }

  /** The goroutines' answers if each saw the cache as it was before the call; and the accounts that answered. */
  function ServeAll(h: History, c: Cache, ids: seq<Id>, now: int): seq<AccountPortfolio> {
    if ids == [] then []
    else
      var ps := ServeAll(h, c, ids[..|ids| - 1], now);
      var p := Serve(h, c, ids[|ids| - 1], now);
      if p.Some? then ps + [p.value] else ps
  }

  function Answering(h: History, c: Cache, ids: seq<Id>, now: int): seq<Id> {
    if ids == [] then []
    else
      var xs := Answering(h, c, ids[..|ids| - 1], now);
      if Serve(h, c, ids[|ids| - 1], now).Some? then xs + [ids[|ids| - 1]] else xs
  }

  ghost predicate ServesAlike(h: History, c: Cache, d: Cache, now: int) {
    forall id :: Serve(h, c, id, now) == Serve(h, d, id, now)
  }

  lemma GetKeepsServing(h: History, c: Cache, id: Id, now: int)
    ensures ServesAlike(h, c, GetAccount(h, c, id, now).0, now)
  {
  }

  /** What one goroutine stores never changes what another one of the same instant is served. */
  lemma {:induction false} GoroutinesDoNotInterfere(h: History, c: Cache, ids: seq<Id>, now: int)
    ensures GetAll(h, c, ids, now).1 == ServeAll(h, c, ids, now)
    ensures ServesAlike(h, c, GetAll(h, c, ids, now).0, now)
  {
    if ids != [] {
      var n := |ids|;
      GoroutinesDoNotInterfere(h, c, ids[..n - 1], now);
      GetKeepsServing(h, GetAll(h, c, ids[..n - 1], now).0, ids[n - 1], now);
    }
  }

  ghost function ServedAlone(h: History, c: Cache, id: Id, now: int): multiset<AccountPortfolio> {
    var p := Serve(h, c, id, now);
    if p.Some? then multiset{p.value} else multiset{}
  }

  ghost function Bag(h: History, c: Cache, ids: seq<Id>, now: int): multiset<AccountPortfolio> {
    Fold((id: Id) => ServedAlone(h, c, id, now), multiset{}, AddBags, ids)
  }

  lemma {:induction false} ServeAllBag(h: History, c: Cache, ids: seq<Id>, now: int)
    ensures multiset(ServeAll(h, c, ids, now)) == Bag(h, c, ids, now)
  {
    if ids != [] {
      ServeAllBag(h, c, ids[..|ids| - 1], now);
    }
  }

  lemma ServeAllIgnoresOrder(h: History, c: Cache, xs: seq<Id>, ys: seq<Id>, now: int)
    requires multiset(xs) == multiset(ys)
    ensures multiset(ServeAll(h, c, xs, now)) == multiset(ServeAll(h, c, ys, now))
  {
    ServeAllBag(h, c, xs, now);
    ServeAllBag(h, c, ys, now);
    BagsSwap<AccountPortfolio>();
    FoldIgnoresOrder((id: Id) => ServedAlone(h, c, id, now), multiset{}, AddBags, xs, ys);
  }

  lemma {:induction false} UsdTotalIsFold(ps: seq<AccountPortfolio>)
    ensures UsdTotal(ps) == Fold((p: AccountPortfolio) => p.totalUsdValue, 0.0, (a: real, b: real) => a + b, ps)
  {
    if ps != [] {
      UsdTotalIsFold(ps[..|ps| - 1]);
    }
  }

  lemma UsdTotalIgnoresOrder(xs: seq<AccountPortfolio>, ys: seq<AccountPortfolio>)
    requires multiset(xs) == multiset(ys)
    ensures UsdTotal(xs) == UsdTotal(ys)
  {
    UsdTotalIsFold(xs);
    UsdTotalIsFold(ys);
    FoldIgnoresOrder((p: AccountPortfolio) => p.totalUsdValue, 0.0, (a: real, b: real) => a + b, xs, ys);
  }

  /**
   * In whatever order the goroutines append, the wallet shows the same account portfolios and the same total,
   * and that total is the sum over its accounts.
   */
  lemma WalletTotalIgnoresGoroutineOrder(h: History, c: Cache, id: Id, order1: seq<Id>, order2: seq<Id>, now: int)
    requires SomeOrder(h, id, order1, now) && SomeOrder(h, id, order2, now)
    ensures var r1 := GetWallet(h, c, id, order1, now).1;
            var r2 := GetWallet(h, c, id, order2, now).1;
            && (r1.Some? <==> r2.Some?)
            && (r1.Some? ==> multiset(r1.value.accounts) == multiset(r2.value.accounts)
                             && r1.value.walletUsdValue == r2.value.walletUsdValue)
  {
    GoroutinesDoNotInterfere(h, c, order1, now);
    GoroutinesDoNotInterfere(h, c, order2, now);
    if h(now).walletAccounts(id).Some? {
      ServeAllIgnoresOrder(h, c, order1, order2, now);
      UsdTotalIgnoresOrder(ServeAll(h, c, order1, now), ServeAll(h, c, order2, now));
    }
  }

  // ---------------------------------------------------------------- where served data comes from

  /** p is what the repositories said about the account at some instant after oldest and up to newest. */
  ghost predicate ReadWithin(h: History, id: Id, p: AccountPortfolio, oldest: int, newest: int) {
    exists t :: oldest < t <= newest && Shows(h(t), id, p)
  }

  ghost predicate SomeonesDataWithin(h: History, p: AccountPortfolio, oldest: int, newest: int) {
    exists id :: ReadWithin(h, id, p, oldest, newest)
  }

  /** ps[i] is data about account sources[i], at most a TTL old at time t; no listed account is used twice,
      and none that could be computed at t is missing. */
  ghost predicate Sourced(h: History, ids: seq<Id>, sources: seq<Id>, ps: seq<AccountPortfolio>, t: int) {
    && |sources| == |ps| && multiset(sources) <= multiset(ids)
    && (forall i :: 0 <= i < |ps| ==> ReadWithin(h, sources[i], ps[i], t - TTL, t))
    && (forall id :: id in ids && Known(h(t), id) ==> id in sources)
  }

  /** w was built at time t from the account list of that time and account data at most a TTL older. */
  ghost predicate WalletBuiltAt(h: History, id: Id, w: WalletPortfolio, t: int) {
    && w.walletId == id && w.walletUsdValue == UsdTotal(w.accounts)
    && h(t).walletAccounts(id).Some?
    && exists sources :: Sourced(h, h(t).walletAccounts(id).value, sources, w.accounts, t)
  }

  /** Account entries hold what was read at their timestamp, wallet entries what was built at theirs. */
  ghost predicate Honest(h: History, c: Cache) {
    && (forall id :: id in c.accounts ==> Compute(h(c.accounts[id].timestamp), id) == Some(c.accounts[id].portfolio))
    && (forall id :: id in c.wallets ==> WalletBuiltAt(h, id, c.wallets[id].portfolio, c.wallets[id].timestamp))
  }

  /** No entry is from the future. */
  ghost predicate Past(c: Cache, now: int) {
    && (forall id :: id in c.accounts ==> c.accounts[id].timestamp <= now)
    && (forall id :: id in c.wallets ==> c.wallets[id].timestamp <= now)
  }

  ghost predicate Good(h: History, c: Cache, now: int) {
    Honest(h, c) && Past(c, now)
  }

  /** An account portfolio served at time now was read after now - TTL. */
  lemma AccountStaleness(h: History, c: Cache, id: Id, now: int)
    requires Good(h, c, now)
    ensures var (c', r) := GetAccount(h, c, id, now);
            && Good(h, c', now)
            && (r.Some? ==> ReadWithin(h, id, r.value, now - TTL, now))
            && (r.None? ==> !Known(h(now), id))
  {
    ComputesWhatShows(h(now), id);
    if id in c.accounts {
      ComputesWhatShows(h(c.accounts[id].timestamp), id);
    }
  }

  lemma {:induction false} GetAllKeepsGood(h: History, c: Cache, ids: seq<Id>, now: int)
    requires Good(h, c, now)
    ensures Good(h, GetAll(h, c, ids, now).0, now)
  {
    if ids != [] {
      var n := |ids|;
      GetAllKeepsGood(h, c, ids[..n - 1], now);
      AccountStaleness(h, GetAll(h, c, ids[..n - 1], now).0, ids[n - 1], now);
    }
  }

  /** One more goroutine: its answer has its own account as source; without an answer nothing could be computed. */
  lemma SourcedOneMore(h: History, ids: seq<Id>, sources: seq<Id>, ps: seq<AccountPortfolio>, id: Id,
                       p: Option<AccountPortfolio>, t: int)
    requires Sourced(h, ids, sources, ps, t)
    requires p.Some? ==> ReadWithin(h, id, p.value, t - TTL, t)
    requires p.None? ==> !Known(h(t), id)
    ensures Sourced(h, ids + [id], if p.Some? then sources + [id] else sources, if p.Some? then ps + [p.value] else ps, t)
  {
  }

  lemma {:induction false} ServedDataIsSourced(h: History, c: Cache, ids: seq<Id>, now: int)
    requires Good(h, c, now)
    ensures Sourced(h, ids, Answering(h, c, ids, now), ServeAll(h, c, ids, now), now)
  {
    if ids != [] {
      var (init, id) := (ids[..|ids| - 1], ids[|ids| - 1]);
      ServedDataIsSourced(h, c, init, now);
      AccountStaleness(h, c, id, now);
      SourcedOneMore(h, init, Answering(h, c, init, now), ServeAll(h, c, init, now), id, Serve(h, c, id, now), now);
      assert ids == init + [id];
    }
  }

  lemma SourcedFromAnyOrder(h: History, ids: seq<Id>, order: seq<Id>, sources: seq<Id>, ps: seq<AccountPortfolio>, t: int)
    requires Sourced(h, order, sources, ps, t) && multiset(order) == multiset(ids)
    ensures Sourced(h, ids, sources, ps, t)
  {
    forall id | id in ids ensures id in order {
      assert id in multiset(order);
    }
  }

  lemma FreshWalletIsBuiltNow(h: History, c: Cache, id: Id, order: seq<Id>, now: int)
    requires Good(h, c, now) && h(now).walletAccounts(id).Some?
    requires multiset(order) == multiset(h(now).walletAccounts(id).value)
    ensures var ps := GetAll(h, c, order, now).1;
            WalletBuiltAt(h, id, WalletPortfolio(id, ps, UsdTotal(ps)), now)
  {
    GoroutinesDoNotInterfere(h, c, order, now);
    ServedDataIsSourced(h, c, order, now);
    SourcedFromAnyOrder(h, h(now).walletAccounts(id).value, order, Answering(h, c, order, now),
                        ServeAll(h, c, order, now), now);
  }

  /** A wallet portfolio served at time now was built after now - TTL, so its account data is younger than 2 TTL. */
  lemma WalletStaleness(h: History, c: Cache, id: Id, order: seq<Id>, now: int)
    requires Good(h, c, now) && SomeOrder(h, id, order, now)
    ensures var (c', r) := GetWallet(h, c, id, order, now);
            && Good(h, c', now)
            && (r.Some? ==> exists t :: now - TTL < t <= now && WalletBuiltAt(h, id, r.value, t))
  {
    if id in c.wallets && Fresh(c.wallets[id].timestamp, now) {
      assert WalletBuiltAt(h, id, c.wallets[id].portfolio, c.wallets[id].timestamp);
    } else if h(now).walletAccounts(id).Some? {
      var ids := h(now).walletAccounts(id).value;
      if ids == [] {
        assert Sourced(h, ids, [], [], now);
        assert WalletBuiltAt(h, id, WalletPortfolio(id, [], 0.0), now);
      } else {
        GetAllKeepsGood(h, c, order, now);
        FreshWalletIsBuiltNow(h, c, id, order, now);
      }
    }
  }

  predicate AccountCached(c: Cache, id: Id, now: int) {
    id in c.accounts && now < c.accounts[id].timestamp + 300
  }

  predicate WalletCached(c: Cache, id: Id, now: int) {
    id in c.wallets && now < c.wallets[id].timestamp + 300
  }

  /** A cached entry is served for 300 seconds; otherwise what the repositories say is served and cached, if anything. */
  lemma ServedForFiveMinutes(h: History, c: Cache, id: Id, now: int)
    ensures var (c', r) := GetAccount(h, c, id, now);
            if AccountCached(c, id, now) then c' == c && r == Some(c.accounts[id].portfolio)
            else if !Known(h(now), id) then c' == c && r == None
            else r.Some? && Shows(h(now), id, r.value) && c' == Cache(c.accounts[id := AccountEntry(r.value, now)], c.wallets)
  {
    ComputesWhatShows(h(now), id);
  }

  /** So is a cached wallet, whatever becomes of its accounts; one without accounts is never cached. */
  lemma WalletServedForFiveMinutes(h: History, c: Cache, id: Id, order: seq<Id>, now: int)
    ensures var (c', r) := GetWallet(h, c, id, order, now);
            if WalletCached(c, id, now) then c' == c && r == Some(c.wallets[id].portfolio)
            else
              match h(now).walletAccounts(id)
              case None => c' == c && r == None
              case Some(ids) =>
                if ids == [] then c' == c && r == Some(WalletPortfolio(id, [], 0.0))
                else r.Some? && id in c'.wallets && c'.wallets[id] == WalletEntry(r.value, now)
  {
  }

  // ---------------------------------------------------------------- runs

  datatype Call = AccountCall(id: Id, now: int) | WalletCall(id: Id, order: seq<Id>, now: int)

  ghost predicate LegalCall(h: History, call: Call) {
    call.WalletCall? ==> SomeOrder(h, call.id, call.order, call.now)
  }

  ghost predicate LegalCalls(h: History, calls: seq<Call>) {
    && (forall i :: 0 <= i < |calls| ==> LegalCall(h, calls[i]))
    && (forall i, j :: 0 <= i < j < |calls| ==> calls[i].now <= calls[j].now)
  }

  function AfterCall(h: History, c: Cache, call: Call): Cache {
    match call
    case AccountCall(id, now) => GetAccount(h, c, id, now).0
    case WalletCall(id, order, now) => GetWallet(h, c, id, order, now).0
  }

  function AfterCallsFrom(h: History, c: Cache, calls: seq<Call>): Cache {
    if calls == [] then c else AfterCall(h, AfterCallsFrom(h, c, calls[..|calls| - 1]), calls[|calls| - 1])
  }

  function AfterCalls(h: History, calls: seq<Call>): Cache {
    AfterCallsFrom(h, Cache(map[], map[]), calls)
  }

  lemma {:induction false} RunsKeepGood(h: History, calls: seq<Call>, now: int)
    requires LegalCalls(h, calls)
    requires forall i :: 0 <= i < |calls| ==> calls[i].now <= now
    ensures Good(h, AfterCalls(h, calls), now)
  {
    if calls != [] {
      var n := |calls|;
      var call := calls[n - 1];
      RunsKeepGood(h, calls[..n - 1], call.now);
      assert LegalCall(h, call);
      match call {
        case AccountCall(id, t) => AccountStaleness(h, AfterCalls(h, calls[..n - 1]), id, t);
        case WalletCall(id, order, t) => WalletStaleness(h, AfterCalls(h, calls[..n - 1]), id, order, t);
      }
    }
  }

  /**
   * The compound staleness bound, over every run of calls: an account portfolio served at time t is younger
   * than TTL; a wallet portfolio is younger than TTL and its account data younger than 2 TTL.
   */
  lemma StalenessOverRuns(h: History, calls: seq<Call>, id: Id, order: seq<Id>, now: int)
    requires LegalCalls(h, calls)
    requires forall i :: 0 <= i < |calls| ==> calls[i].now <= now
    requires SomeOrder(h, id, order, now)
    ensures var r := GetAccount(h, AfterCalls(h, calls), id, now).1;
            r.Some? ==> ReadWithin(h, id, r.value, now - TTL, now)
    ensures var w := GetWallet(h, AfterCalls(h, calls), id, order, now).1;
            w.Some? ==>
              && (exists t :: now - TTL < t <= now && WalletBuiltAt(h, id, w.value, t))
              && forall p :: p in w.value.accounts ==> SomeonesDataWithin(h, p, now - 2 * TTL, now)
  {
    var c := AfterCalls(h, calls);
    RunsKeepGood(h, calls, now);
    AccountStaleness(h, c, id, now);
    WalletStaleness(h, c, id, order, now);
    var w := GetWallet(h, c, id, order, now).1;
    if w.Some? {
      var t :| now - TTL < t <= now && WalletBuiltAt(h, id, w.value, t);
      AccountDataAge(h, id, w.value, t, now);
    }
  }

  lemma AccountDataAge(h: History, id: Id, w: WalletPortfolio, t: int, now: int)
    requires now - TTL < t <= now && WalletBuiltAt(h, id, w, t)
    ensures forall p :: p in w.accounts ==> SomeonesDataWithin(h, p, now - 2 * TTL, now)
  {
    var ids := h(t).walletAccounts(id).value;
    var sources :| Sourced(h, ids, sources, w.accounts, t);
    forall i | 0 <= i < |w.accounts| ensures SomeonesDataWithin(h, w.accounts[i], now - 2 * TTL, now) {
      SourcedDataAge(h, ids, sources, w.accounts, i, t, now);
    }
  }

  lemma SourcedDataAge(h: History, ids: seq<Id>, sources: seq<Id>, ps: seq<AccountPortfolio>, i: nat, t: int, now: int)
    requires now - TTL < t <= now && Sourced(h, ids, sources, ps, t) && i < |ps|
    ensures SomeonesDataWithin(h, ps[i], now - 2 * TTL, now)
  {
    WiderWindow(h, sources[i], ps[i], t - TTL, t, now - 2 * TTL, now);
  }

  lemma WiderWindow(h: History, id: Id, p: AccountPortfolio, oldest: int, newest: int, older: int, newer: int)
    requires ReadWithin(h, id, p, oldest, newest) && older <= oldest && newest <= newer
    ensures ReadWithin(h, id, p, older, newer)
  {
    var t :| oldest < t <= newest && Shows(h(t), id, p);
    assert older < t <= newer;
  }
}
