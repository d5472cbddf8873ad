/**
 * Which transfers of an EVM block belong to deposit accounts: one batched lookup of all addresses of the block,
 * compared with looking every transfer up on its own.
 */
module EvmLookup {
  import opened Common
  import opened EvmAmounts

  type ObjectId = nat

  /** id is None when the document's _id is not an object id. */
  datatype Account = Account(id: Option<ObjectId>, walletAddress: string, deleted: bool)

  datatype Dispatch = Dispatch(transfer: Transfer, account: Account)

  function AddressesOf(ts: seq<Transfer>): set<string> {
    set t | t in ts :: Lower(t.to)
  }

  function LowerAll(addresses: seq<string>): set<string> {
    set a | a in addresses :: Lower(a)
  }

  // ---------------------------------------------------------------- the batched lookup

  /** The live accounts whose address is stored exactly as one of the given ones. */
  function ExactMatches(accounts: seq<Account>, addresses: set<string>): seq<Account> {
    if accounts == [] then []
    else
      var a := accounts[|accounts| - 1];
      ExactMatches(accounts[..|accounts| - 1], addresses) + (if !a.deleted && a.walletAddress in addresses then [a] else [])
  }

  /** The same, ignoring the case of the stored address. */
  function LooseMatches(accounts: seq<Account>, addresses: set<string>): seq<Account> {
    if accounts == [] then []
    else
      var a := accounts[|accounts| - 1];
      LooseMatches(accounts[..|accounts| - 1], addresses)
      + (if !a.deleted && Lower(a.walletAddress) in addresses then [a] else [])
  }

  /** The accounts collection as the two queries see it: by exact address, and by address whatever its case. */
  datatype AccountStore = AccountStore(exact: set<string> -> seq<Account>, loose: set<string> -> seq<Account>)

  function StoreOf(accounts: seq<Account>): AccountStore {
    AccountStore(addresses => ExactMatches(accounts, addresses), addresses => LooseMatches(accounts, addresses))
  }

  /** The case-insensitive query runs only when the exact one finds nothing at all. */
  function FindDepositAccounts(store: AccountStore, addresses: set<string>): seq<Account> {
    if addresses == {} then []
    else if store.exact(addresses) != [] then store.exact(addresses)
    else store.loose(addresses)
  }

  /** Later accounts overwrite earlier ones of the same address. */
  function AccountMap(found: seq<Account>): map<string, Account> {
    if found == [] then map[]
    else
      var a := found[|found| - 1];
      AccountMap(found[..|found| - 1])[Lower(a.walletAddress) := a]
  }

  function DispatchBy(m: map<string, Account>, ts: seq<Transfer>): seq<Dispatch> {
    if ts == [] then []
    else
      var t := ts[|ts| - 1];
      DispatchBy(m, ts[..|ts| - 1]) + (if Lower(t.to) in m then [Dispatch(t, m[Lower(t.to)])] else [])
  }

  function BatchMap(store: AccountStore, ts: seq<Transfer>): map<string, Account> {
    AccountMap(FindDepositAccounts(store, AddressesOf(ts)))
  }

  function BatchDispatch(store: AccountStore, ts: seq<Transfer>): seq<Dispatch> {
    DispatchBy(BatchMap(store, ts), ts)
  }

  // ---------------------------------------------------------------- the simple form

  /** The first live account holding the address, whatever its case. */
  function Lookup(accounts: seq<Account>, address: string): Option<Account> {
    if accounts == [] then None
    else
      match Lookup(accounts[..|accounts| - 1], address)
      case Some(a) => Some(a)
      case None =>
        var a := accounts[|accounts| - 1];
        if !a.deleted && Lower(a.walletAddress) == Lower(address) then Some(a) else None
  }

  function DirectDispatch(accounts: seq<Account>, ts: seq<Transfer>): seq<Dispatch> {
    if ts == [] then []
    else
      var t := ts[|ts| - 1];
      var found := Lookup(accounts, t.to);
      DirectDispatch(accounts, ts[..|ts| - 1]) + (if found.Some? then [Dispatch(t, found.value)] else [])
  }

  function TransfersOf(ds: seq<Dispatch>): seq<Transfer> {
    seq(|ds|, i requires 0 <= i < |ds| => ds[i].transfer)
  }

  predicate IsLive(accounts: seq<Account>, a: Account) {
    a in accounts && !a.deleted
  }

  /** The exact query finds nothing, or every live account the block pays to has its address stored in lowercase. */
  ghost predicate Covered(accounts: seq<Account>, addresses: set<string>) {
    || (forall a :: IsLive(accounts, a) ==> a.walletAddress !in addresses)
    || (forall a :: IsLive(accounts, a) && Lower(a.walletAddress) in addresses ==> StoredLower(accounts, a))
  }

  /** Some live account stores a's address in lowercase. */
  ghost predicate StoredLower(accounts: seq<Account>, a: Account) {
    exists b :: IsLive(accounts, b) && b.walletAddress == Lower(a.walletAddress)
  }

  ghost predicate OneAccountPerAddress(accounts: seq<Account>) {
    forall a, b :: IsLive(accounts, a) && IsLive(accounts, b) && Lower(a.walletAddress) == Lower(b.walletAddress) ==> a == b
  }

  // ---------------------------------------------------------------- proofs

  lemma {:induction false} ExactMembers(accounts: seq<Account>, addresses: set<string>)
    ensures forall a :: a in ExactMatches(accounts, addresses) <==> IsLive(accounts, a) && a.walletAddress in addresses
  {
    if accounts != [] {
      ExactMembers(accounts[..|accounts| - 1], addresses);
      assert accounts == accounts[..|accounts| - 1] + [accounts[|accounts| - 1]];
    }
  }

  lemma {:induction false} LooseMembers(accounts: seq<Account>, addresses: set<string>)
    ensures forall a :: a in LooseMatches(accounts, addresses) <==> IsLive(accounts, a) && Lower(a.walletAddress) in addresses
  {
    if accounts != [] {
      LooseMembers(accounts[..|accounts| - 1], addresses);
      assert accounts == accounts[..|accounts| - 1] + [accounts[|accounts| - 1]];
    }
  }

  /** The map holds exactly the found addresses, each with one of its accounts. */
  lemma {:induction false} AccountMapHolds(found: seq<Account>)
    ensures forall x :: x in AccountMap(found) ==> AccountMap(found)[x] in found && Lower(AccountMap(found)[x].walletAddress) == x
    ensures forall a :: a in found ==> Lower(a.walletAddress) in AccountMap(found)
  {
    if found != [] {
      AccountMapHolds(found[..|found| - 1]);
      assert found == found[..|found| - 1] + [found[|found| - 1]];
    }
  }

  lemma {:induction false} LookupFinds(accounts: seq<Account>, address: string)
    ensures match Lookup(accounts, address)
            case Some(a) => IsLive(accounts, a) && Lower(a.walletAddress) == Lower(address)
            case None => forall a :: IsLive(accounts, a) ==> Lower(a.walletAddress) != Lower(address)
  {
    if accounts != [] {
      LookupFinds(accounts[..|accounts| - 1], address);
      assert accounts == accounts[..|accounts| - 1] + [accounts[|accounts| - 1]];
    }
  }

  /** The transfers that pay to one of the given addresses, in order. */
  function Hits(addresses: set<string>, ts: seq<Transfer>): seq<Transfer> {
    if ts == [] then []
    else
      var t := ts[|ts| - 1];
      Hits(addresses, ts[..|ts| - 1]) + (if Lower(t.to) in addresses then [t] else [])
  }

  lemma {:induction false} HitsMembers(addresses: set<string>, ts: seq<Transfer>)
    ensures forall t :: t in Hits(addresses, ts) <==> t in ts && Lower(t.to) in addresses
  {
    if ts != [] {
      HitsMembers(addresses, ts[..|ts| - 1]);
      assert ts == ts[..|ts| - 1] + [ts[|ts| - 1]];
    }
  }

  /** Two address sets select the same transfers iff they agree on the addresses the block pays to. */
  lemma {:induction false} SameHitsIff(k1: set<string>, k2: set<string>, ts: seq<Transfer>)
    ensures Hits(k1, ts) == Hits(k2, ts) <==> forall t :: t in ts ==> (Lower(t.to) in k1 <==> Lower(t.to) in k2)
  {
    HitsMembers(k1, ts);
    HitsMembers(k2, ts);
    if forall t :: t in ts ==> (Lower(t.to) in k1 <==> Lower(t.to) in k2) {
      AgreeingHits(k1, k2, ts);
    } else {
      var t :| t in ts && !(Lower(t.to) in k1 <==> Lower(t.to) in k2);
      assert t in Hits(k1, ts) <==> t !in Hits(k2, ts);
    }
  }

  lemma {:induction false} AgreeingHits(k1: set<string>, k2: set<string>, ts: seq<Transfer>)
    requires forall t :: t in ts ==> (Lower(t.to) in k1 <==> Lower(t.to) in k2)
    ensures Hits(k1, ts) == Hits(k2, ts)
  {
    if ts != [] {
      AgreeingHits(k1, k2, ts[..|ts| - 1]);
    }
  }

  lemma {:induction false} BatchHits(m: map<string, Account>, ts: seq<Transfer>)
    ensures TransfersOf(DispatchBy(m, ts)) == Hits(m.Keys, ts)
  {
    if ts != [] {
      BatchHits(m, ts[..|ts| - 1]);
    }
  }

  /** The addresses held by live accounts, in lowercase. */
  ghost function LiveAddresses(accounts: seq<Account>): set<string> {
    set a | a in accounts && IsLive(accounts, a) :: Lower(a.walletAddress)
  }

  lemma LookupIffLive(accounts: seq<Account>, address: string)
    ensures Lookup(accounts, address).Some? <==> Lower(address) in LiveAddresses(accounts)
  {
    LookupFinds(accounts, address);
  }

  lemma {:induction false} DirectHits(accounts: seq<Account>, ts: seq<Transfer>)
    ensures TransfersOf(DirectDispatch(accounts, ts)) == Hits(LiveAddresses(accounts), ts)
  {
    if ts != [] {
      DirectHits(accounts, ts[..|ts| - 1]);
      LookupIffLive(accounts, ts[|ts| - 1].to);
    }
  }

  /** On an address of the block, the batch map answers iff some account was found for it. */
  lemma BatchKeys(accounts: seq<Account>, addresses: set<string>, x: string)
    requires forall y :: y in addresses ==> IsLower(y)
    requires x in addresses
    ensures x in AccountMap(FindDepositAccounts(StoreOf(accounts), addresses)) <==> FoundByBatch(accounts, addresses, x)
  {
    var found := FindDepositAccounts(StoreOf(accounts), addresses);
    AccountMapHolds(found);
    ExactMembers(accounts, addresses);
    LooseMembers(accounts, addresses);
  }

  ghost predicate FoundByBatch(accounts: seq<Account>, addresses: set<string>, x: string) {
    if ExactMatches(accounts, addresses) != [] then exists a :: IsLive(accounts, a) && a.walletAddress == x
    else x in LiveAddresses(accounts)
  }

  lemma AddressesAreLower(ts: seq<Transfer>)
    ensures forall x :: x in AddressesOf(ts) ==> IsLower(x)
  {
    forall t | t in ts ensures IsLower(Lower(t.to)) {
      LowerIdempotent(t.to);
    }
  }

  lemma CoveredMeansFound(accounts: seq<Account>, addresses: set<string>)
    requires forall y :: y in addresses ==> IsLower(y)
    ensures Covered(accounts, addresses)
       <==> forall x :: x in addresses ==> (FoundByBatch(accounts, addresses, x) <==> x in LiveAddresses(accounts))
  {
    ExactMembers(accounts, addresses);
    if ExactMatches(accounts, addresses) == [] {
      assert forall a :: IsLive(accounts, a) ==> a.walletAddress !in addresses;
    } else {
      var e := ExactMatches(accounts, addresses)[0];
      assert e in ExactMatches(accounts, addresses);
      CoveredByExact(accounts, addresses, e);
    }
  }

  lemma CoveredByExact(accounts: seq<Account>, addresses: set<string>, e: Account)
    requires forall y :: y in addresses ==> IsLower(y)
    requires IsLive(accounts, e) && e.walletAddress in addresses && ExactMatches(accounts, addresses) != []
    ensures Covered(accounts, addresses)
       <==> forall x :: x in addresses ==> (FoundByBatch(accounts, addresses, x) <==> x in LiveAddresses(accounts))
  {
    if Covered(accounts, addresses) {
      forall x | x in addresses
        ensures FoundByBatch(accounts, addresses, x) <==> x in LiveAddresses(accounts)
      {
        assert Lower(x) == x;
        if x in LiveAddresses(accounts) {
          var a :| IsLive(accounts, a) && Lower(a.walletAddress) == x;
          assert StoredLower(accounts, a);
        }
      }
    } else {
      var a :| IsLive(accounts, a) && Lower(a.walletAddress) in addresses && !StoredLower(accounts, a);
      assert !FoundByBatch(accounts, addresses, Lower(a.walletAddress));
    }
  }

  /** Batching dispatches the same transfers, in the same order, as one lookup per transfer iff the block is covered. */
  lemma SameTransfersIff(accounts: seq<Account>, ts: seq<Transfer>)
    ensures TransfersOf(BatchDispatch(StoreOf(accounts), ts)) == TransfersOf(DirectDispatch(accounts, ts))
       <==> Covered(accounts, AddressesOf(ts))
  {
    var m := BatchMap(StoreOf(accounts), ts);
    var addresses := AddressesOf(ts);
    AddressesAreLower(ts);
    BatchHits(m, ts);
    DirectHits(accounts, ts);
    SameHitsIff(m.Keys, LiveAddresses(accounts), ts);
    CoveredMeansFound(accounts, addresses);
    forall x | x in addresses ensures x in m <==> FoundByBatch(accounts, addresses, x) {
      BatchKeys(accounts, addresses, x);
    }
    assert forall t :: t in ts ==> Lower(t.to) in addresses;
  }

  /** An address of the block is answered by the batch map iff a live account holds it. */
  lemma CoveredAnswers(accounts: seq<Account>, ts: seq<Transfer>)
    requires Covered(accounts, AddressesOf(ts))
    ensures forall t :: t in ts ==> (Lower(t.to) in BatchMap(StoreOf(accounts), ts) <==> Lower(t.to) in LiveAddresses(accounts))
  {
    BatchHits(BatchMap(StoreOf(accounts), ts), ts);
    DirectHits(accounts, ts);
    SameTransfersIff(accounts, ts);
    SameHitsIff(BatchMap(StoreOf(accounts), ts).Keys, LiveAddresses(accounts), ts);
  }

  lemma BatchMapIsLive(accounts: seq<Account>, ts: seq<Transfer>)
    ensures var m := BatchMap(StoreOf(accounts), ts);
            forall x :: x in m ==> IsLive(accounts, m[x]) && Lower(m[x].walletAddress) == x
  {
    AccountMapHolds(FindDepositAccounts(StoreOf(accounts), AddressesOf(ts)));
    ExactMembers(accounts, AddressesOf(ts));
    LooseMembers(accounts, AddressesOf(ts));
  }

  lemma {:induction false} AgreeingDispatch(m: map<string, Account>, accounts: seq<Account>, ts: seq<Transfer>)
    requires OneAccountPerAddress(accounts)
    requires forall x :: x in m ==> IsLive(accounts, m[x]) && Lower(m[x].walletAddress) == x
    requires forall t :: t in ts ==> (Lower(t.to) in m <==> Lower(t.to) in LiveAddresses(accounts))
    ensures DispatchBy(m, ts) == DirectDispatch(accounts, ts)
  {
    if ts != [] {
      var t := ts[|ts| - 1];
      AgreeingDispatch(m, accounts, ts[..|ts| - 1]);
      LookupFinds(accounts, t.to);
      LookupIffLive(accounts, t.to);
      assert t in ts;
    }
  }

  /** With one account per address, batching also hands every transfer to the same account iff the block is covered. */
  lemma BatchRefinesDirectIff(accounts: seq<Account>, ts: seq<Transfer>)
    requires OneAccountPerAddress(accounts)
    ensures BatchDispatch(StoreOf(accounts), ts) == DirectDispatch(accounts, ts) <==> Covered(accounts, AddressesOf(ts))
  {
    SameTransfersIff(accounts, ts);
    if Covered(accounts, AddressesOf(ts)) {
      CoveredAnswers(accounts, ts);
      BatchMapIsLive(accounts, ts);
      AgreeingDispatch(BatchMap(StoreOf(accounts), ts), accounts, ts);
    }
  }

  /** When every live account's address is stored in lowercase, every block is covered. */
  lemma LowercaseStoreCovers(accounts: seq<Account>, ts: seq<Transfer>)
    requires forall a :: IsLive(accounts, a) ==> IsLower(a.walletAddress)
    ensures TransfersOf(BatchDispatch(StoreOf(accounts), ts)) == TransfersOf(DirectDispatch(accounts, ts))
    ensures OneAccountPerAddress(accounts) ==> BatchDispatch(StoreOf(accounts), ts) == DirectDispatch(accounts, ts)
  {
    forall a | IsLive(accounts, a) ensures StoredLower(accounts, a) {
      assert Lower(a.walletAddress) == a.walletAddress;
    }
    SameTransfersIff(accounts, ts);
    if OneAccountPerAddress(accounts) {
      BatchRefinesDirectIff(accounts, ts);
    }
  }

  // ---------------------------------------------------------------- which account

  /** Account k of the list is the last one with that address, whatever its case. */
  predicate IsLastWith(accounts: seq<Account>, k: nat, address: string) {
    && k < |accounts| && Lower(accounts[k].walletAddress) == Lower(address)
    && forall j :: k < j < |accounts| ==> Lower(accounts[j].walletAddress) != Lower(address)
  }

  lemma {:induction false} MapHoldsLast(found: seq<Account>, address: string)
    ensures Lower(address) in AccountMap(found) <==> exists k: nat :: IsLastWith(found, k, address)
    ensures forall k: nat :: IsLastWith(found, k, address) ==>
              Lower(address) in AccountMap(found) && AccountMap(found)[Lower(address)] == found[k]
  {
    if found != [] {
      var (init, n) := (found[..|found| - 1], |found| - 1);
      MapHoldsLast(init, address);
      if Lower(found[n].walletAddress) == Lower(address) {
        assert IsLastWith(found, n, address);
      } else {
        forall k: nat ensures IsLastWith(found, k, address) <==> IsLastWith(init, k, address) {
        }
      }
    }
  }

  /** The transfers of the block that reach an account, each with the last account found for its address. */
  ghost predicate ToLastFound(found: seq<Account>, ts: seq<Transfer>, ds: seq<Dispatch>) {
    && (forall i :: 0 <= i < |ds| ==> GoesToLast(found, ds[i]))
    && TransfersOf(ds) == Hits(set a | a in found :: Lower(a.walletAddress), ts)
  }

  ghost predicate GoesToLast(found: seq<Account>, d: Dispatch) {
    exists k: nat :: IsLastWith(found, k, d.transfer.to) && d.account == found[k]
  }

  lemma {:induction false} DispatchesToLast(found: seq<Account>, ts: seq<Transfer>)
    ensures forall i :: 0 <= i < |DispatchBy(AccountMap(found), ts)| ==> GoesToLast(found, DispatchBy(AccountMap(found), ts)[i])
  {
    if ts != [] {
      var t := ts[|ts| - 1];
      DispatchesToLast(found, ts[..|ts| - 1]);
      MapHoldsLast(found, t.to);
    }
  }

  /**
   * For every account store, whatever it answers and however many accounts share an address: the block's transfers to
   * an address that was found are dispatched, in order, each to the last account found for it.
   */
  lemma LastFoundAccountWins(store: AccountStore, ts: seq<Transfer>)
    ensures ToLastFound(FindDepositAccounts(store, AddressesOf(ts)), ts, BatchDispatch(store, ts))
  {
    var found := FindDepositAccounts(store, AddressesOf(ts));
    DispatchesToLast(found, ts);
    AccountMapHolds(found);
    BatchHits(AccountMap(found), ts);
    assert AccountMap(found).Keys == set a | a in found :: Lower(a.walletAddress);
  }

  /** The queries ask for live accounts, by their address as stored or by its lowercase form. */
  predicate Asked(a: Account, addresses: set<string>, exact: bool) {
    !a.deleted && (if exact then a.walletAddress else Lower(a.walletAddress)) in addresses
  }

  /** Account p is the last one of the collection that the query asks for and that has the address. */
  predicate IsLastAsked(accounts: seq<Account>, p: nat, addresses: set<string>, exact: bool, address: string) {
    && p < |accounts| && Asked(accounts[p], addresses, exact) && Lower(accounts[p].walletAddress) == Lower(address)
    && forall q :: p < q < |accounts| && Asked(accounts[q], addresses, exact) ==>
         Lower(accounts[q].walletAddress) != Lower(address)
  }

  function Matches(accounts: seq<Account>, addresses: set<string>, exact: bool): seq<Account> {
    if exact then ExactMatches(accounts, addresses) else LooseMatches(accounts, addresses)
  }

  lemma MatchesAppend(accounts: seq<Account>, addresses: set<string>, exact: bool)
    requires accounts != []
    ensures var n := |accounts| - 1;
            Matches(accounts, addresses, exact) ==
            Matches(accounts[..n], addresses, exact) + (if Asked(accounts[n], addresses, exact) then [accounts[n]] else [])
  {
  }

  /** The answers come in the order of the collection. */
  lemma {:induction false} LastMatchIsLastAsked(accounts: seq<Account>, addresses: set<string>, exact: bool, k: nat,
      address: string)
    requires IsLastWith(Matches(accounts, addresses, exact), k, address)
    ensures exists p: nat :: IsLastAsked(accounts, p, addresses, exact, address)
                             && accounts[p] == Matches(accounts, addresses, exact)[k]
  {
    assert accounts != [];
    var n := |accounts| - 1;
    var (found, before) := (Matches(accounts, addresses, exact), Matches(accounts[..n], addresses, exact));
    MatchesAppend(accounts, addresses, exact);
    if Asked(accounts[n], addresses, exact) && k == |found| - 1 {
      assert IsLastAsked(accounts, n, addresses, exact, address);
    } else {
      assert forall j :: 0 <= j < |before| ==> before[j] == found[j];
      assert Asked(accounts[n], addresses, exact) ==> found[|found| - 1] == accounts[n];
      LastMatchIsLastAsked(accounts[..n], addresses, exact, k, address);
      var p: nat :| IsLastAsked(accounts[..n], p, addresses, exact, address) && accounts[..n][p] == before[k];
      assert accounts[..n][p] == accounts[p];
      LastAskedStays(accounts, p, addresses, exact, address);
    }
  }

  lemma LastAskedStays(accounts: seq<Account>, p: nat, addresses: set<string>, exact: bool, address: string)
    requires accounts != [] && IsLastAsked(accounts[..|accounts| - 1], p, addresses, exact, address)
    requires var a := accounts[|accounts| - 1]; Asked(a, addresses, exact) ==> Lower(a.walletAddress) != Lower(address)
    ensures IsLastAsked(accounts, p, addresses, exact, address)
  {
    var init := accounts[..|accounts| - 1];
    forall q | p < q < |accounts| && Asked(accounts[q], addresses, exact)
      ensures Lower(accounts[q].walletAddress) != Lower(address)
    {
      assert q < |init| ==> init[q] == accounts[q];
    }
  }

  /** With several accounts at an address the last one of the collection gets the transfer. */
  lemma LastAccountWins(accounts: seq<Account>, ts: seq<Transfer>, i: nat)
    requires i < |BatchDispatch(StoreOf(accounts), ts)|
    ensures var (d, addresses) := (BatchDispatch(StoreOf(accounts), ts)[i], AddressesOf(ts));
            exists p: nat :: IsLastAsked(accounts, p, addresses, ExactMatches(accounts, addresses) != [], d.transfer.to)
                             && d.account == accounts[p]
  {
    var (d, addresses) := (BatchDispatch(StoreOf(accounts), ts)[i], AddressesOf(ts));
    var (found, exact) := (FindDepositAccounts(StoreOf(accounts), addresses), ExactMatches(accounts, addresses) != []);
    LastFoundAccountWins(StoreOf(accounts), ts);
    assert GoesToLast(found, d);
    var k: nat :| IsLastWith(found, k, d.transfer.to) && d.account == found[k];
    assert found == Matches(accounts, addresses, exact);
    LastMatchIsLastAsked(accounts, addresses, exact, k, d.transfer.to);
  }

  /** Two accounts at one address: a transfer to it goes to the second. */
  lemma SharedAddressExample()
    ensures var (a, b, t) := (Account(Some(1), "0xa", false), Account(Some(2), "0xa", false), Transfer("0xh", "0xA", "0x1"));
            BatchDispatch(StoreOf([a, b]), [t]) == [Dispatch(t, b)]
  {
    var (a, b, t) := (Account(Some(1), "0xa", false), Account(Some(2), "0xa", false), Transfer("0xh", "0xA", "0x1"));
    assert Lower("0xA") == "0xa" && Lower("0xa") == "0xa";
    assert AddressesOf([t]) == {"0xa"};
    assert [a, b][..1] == [a] && [a][..0] == [] && [t][..0] == [];
    assert ExactMatches([a], {"0xa"}) == [a];
    assert ExactMatches([a, b], {"0xa"}) == [a, b];
    assert IsLastWith([a, b], 1, t.to);
    MapHoldsLast([a, b], t.to);
    assert DispatchBy(AccountMap([a, b]), []) == [];
  }

  /** A mixed-case account is found when it alone is paid, and missed when a lowercase one is paid in the same block. */
  lemma MixedCaseDependsOnTheBlock(a: Account, b: Account, ta: Transfer, tb: Transfer)
    requires !a.deleted && IsLower(a.walletAddress) && Lower(ta.to) == a.walletAddress
    requires !b.deleted && !IsLower(b.walletAddress) && Lower(tb.to) == Lower(b.walletAddress)
    requires a.walletAddress != Lower(b.walletAddress)
    ensures TransfersOf(BatchDispatch(StoreOf([a, b]), [tb])) == TransfersOf(DirectDispatch([a, b], [tb]))
    ensures TransfersOf(BatchDispatch(StoreOf([a, b]), [ta, tb])) != TransfersOf(DirectDispatch([a, b], [ta, tb]))
  {
    LowerIdempotent(b.walletAddress);
    assert AddressesOf([tb]) == {Lower(b.walletAddress)};
    SameTransfersIff([a, b], [tb]);
    assert ta in [ta, tb] && tb in [ta, tb];
    assert AddressesOf([ta, tb]) == {a.walletAddress, Lower(b.walletAddress)};
    assert IsLive([a, b], a) && IsLive([a, b], b) && !StoredLower([a, b], b);
    SameTransfersIff([a, b], [ta, tb]);
  }

  lemma MixedCaseExample()
    ensures var accounts := [Account(Some(1), "a", false), Account(Some(2), "B", false)];
            var ts := [Transfer("h1", "a", "0x1"), Transfer("h2", "b", "0x1")];
            TransfersOf(BatchDispatch(StoreOf(accounts), ts)) != TransfersOf(DirectDispatch(accounts, ts))
  {
    assert Lower("a") == "a" && Lower("b") == "b" && Lower("B") == "b";
    MixedCaseDependsOnTheBlock(Account(Some(1), "a", false), Account(Some(2), "B", false),
      Transfer("h1", "a", "0x1"), Transfer("h2", "b", "0x1"));
  }
}
