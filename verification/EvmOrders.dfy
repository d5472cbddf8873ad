/**
 * What detected deposits do to orders: every transfer to a deposit account moves the account's first pending order
 * to DEPOSIT_CONFIRMING. An order is identified by its position in the collection's natural order.
 */
module EvmOrders {
  import opened Common
  import opened EvmAmounts
  import opened EvmLookup

  datatype Status = Pending | DepositConfirming | OtherStatus(name: string)

  datatype Order = Order(depositAccountIds: seq<ObjectId>, status: Status, amount: real, latestTxHash: string)

  predicate Awaits(o: Order, account: ObjectId) {
    o.status == Pending && account in o.depositAccountIds
  }

  /** FindOne: the first pending order, in natural order, that lists the account. */
  function FindOrder(orders: seq<Order>, account: ObjectId): Option<nat> {
    if orders == [] then None
    else
      match FindOrder(orders[..|orders| - 1], account)
      case Some(i) => Some(i)
      case None => if Awaits(orders[|orders| - 1], account) then Some(|orders| - 1) else None
  }

  lemma {:induction false} FindOrderFinds(orders: seq<Order>, account: ObjectId)
    ensures match FindOrder(orders, account)
            case None => forall j :: 0 <= j < |orders| ==> !Awaits(orders[j], account)
            case Some(i) =>
              && i < |orders| && Awaits(orders[i], account)
              && forall j :: 0 <= j < i ==> !Awaits(orders[j], account)
  {
    if orders != [] {
      FindOrderFinds(orders[..|orders| - 1], account);
    }
  }

  function Confirmed(o: Order, amount: real, hash: string): Order {
    o.(status := DepositConfirming, amount := amount, latestTxHash := hash)
  }

  /**
   * Handing one transfer to its account: the orders afterwards and whether an order was confirmed. storeWorks says
   * whether the order store answers the query and the update.
   */
  function Confirm(orders: seq<Order>, d: Dispatch, storeWorks: bool): (r: (seq<Order>, bool))
    ensures |r.0| == |orders|
  {
    if d.account.id.None? || !storeWorks then (orders, false)
    else
      FindOrderFinds(orders, d.account.id.value);
      match FindOrder(orders, d.account.id.value)
      case None => (orders, false)
      case Some(i) =>
        match ParseTransactionAmount(d.transfer.value)
        case None => (orders, false)
        case Some(amount) => (orders[i := Confirmed(orders[i], amount, d.transfer.hash)], true)
  }

  /** All transfers in turn, and the number of matches; the i-th one finds the store as storeWorks(i) says. */
  function ConfirmAll(orders: seq<Order>, ds: seq<Dispatch>, storeWorks: nat -> bool): (r: (seq<Order>, nat))
    ensures |r.0| == |orders|
  {
    if ds == [] then (orders, 0)
    else
      var n := |ds| - 1;
      var before := ConfirmAll(orders, ds[..n], storeWorks);
      var last := Confirm(before.0, ds[n], storeWorks(n));
      (last.0, if last.1 then before.1 + 1 else before.1)
  }

  // ---------------------------------------------------------------- conservation

  function PendingCount(orders: seq<Order>): nat {
    if orders == [] then 0
    else PendingCount(orders[..|orders| - 1]) + (if orders[|orders| - 1].status == Pending then 1 else 0)
  }

  lemma {:induction false} PendingCountDrops(orders: seq<Order>, i: nat, o: Order)
    requires i < |orders| && orders[i].status == Pending && o.status != Pending
    ensures PendingCount(orders[i := o]) == PendingCount(orders) - 1
  {
    var n := |orders| - 1;
    if i == n {
      assert orders[i := o][..n] == orders[..n];
    } else {
      PendingCountDrops(orders[..n], i, o);
      assert orders[i := o][..n] == orders[..n][i := o];
    }
  }

  /** A pending order was paid by the transfer: it waits for its confirmation, with the transfer's amount and hash. */
  predicate PaidBy(o: Order, o': Order, paid: Transfer) {
    && o.status == Pending && o'.status == DepositConfirming
    && o'.depositAccountIds == o.depositAccountIds
    && ParseTransactionAmount(paid.value) == Some(o'.amount) && o'.latestTxHash == paid.hash
  }

  /** What may have become of an order: it was left alone, or one of the deposits, to an account it lists, has paid it. */
  predicate Settled(o: Order, o': Order, ds: seq<Dispatch>) {
    o' == o || exists k :: 0 <= k < |ds| && PaidAt(o, o', ds, k)
  }

  predicate PaidAt(o: Order, o': Order, ds: seq<Dispatch>, k: nat)
    requires k < |ds|
  {
    && PaidBy(o, o', ds[k].transfer)
    && ds[k].account.id.Some? && ds[k].account.id.value in o.depositAccountIds
  }

  predicate OnlySettled(orders: seq<Order>, orders': seq<Order>, ds: seq<Dispatch>) {
    |orders'| == |orders| && forall i :: 0 <= i < |orders| ==> Settled(orders[i], orders'[i], ds)
  }

  lemma SettledByMore(o: Order, o': Order, before: seq<Dispatch>, ds: seq<Dispatch>, after: seq<Dispatch>)
    requires Settled(o, o', ds)
    ensures Settled(o, o', before + ds + after)
  {
    if o' != o {
      var k :| 0 <= k < |ds| && PaidAt(o, o', ds, k);
      assert (before + ds + after)[|before| + k] == ds[k];
      assert PaidAt(o, o', before + ds + after, |before| + k);
    }
  }

  lemma OnlySettledInTurn(a: seq<Order>, ds: seq<Dispatch>, b: seq<Order>, ds': seq<Dispatch>, c: seq<Order>)
    requires OnlySettled(a, b, ds) && OnlySettled(b, c, ds')
    ensures OnlySettled(a, c, ds + ds')
  {
    forall i | 0 <= i < |a| ensures Settled(a[i], c[i], ds + ds') {
      assert Settled(a[i], b[i], ds) && Settled(b[i], c[i], ds');
      SettledByMore(a[i], b[i], [], ds, ds');
      SettledByMore(b[i], c[i], ds, ds', []);
      assert [] + ds + ds' == ds + ds' && ds + ds' + [] == ds + ds';
    }
  }

  lemma ConfirmConserves(orders: seq<Order>, d: Dispatch, storeWorks: bool)
    ensures var (os, ok) := Confirm(orders, d, storeWorks);
            OnlySettled(orders, os, [d]) && PendingCount(orders) == PendingCount(os) + (if ok then 1 else 0)
  {
    var (os, ok) := Confirm(orders, d, storeWorks);
    if ok {
      FindOrderFinds(orders, d.account.id.value);
      var i := FindOrder(orders, d.account.id.value).value;
      PendingCountDrops(orders, i, os[i]);
      assert PaidAt(orders[i], os[i], [d], 0);
    }
  }

  /**
   * Matches are exactly the drop in pending orders; every order is left alone, or went from PENDING to DEPOSIT_CONFIRMING
   * with the amount and the hash of one of the deposits, to an account that it lists.
   */
  lemma {:induction false} MatchesAreTheDropInPending(orders: seq<Order>, ds: seq<Dispatch>, storeWorks: nat -> bool)
    ensures var (os, matches) := ConfirmAll(orders, ds, storeWorks);
            OnlySettled(orders, os, ds) && PendingCount(orders) == PendingCount(os) + matches
  {
    if ds != [] {
      var n := |ds| - 1;
      MatchesAreTheDropInPending(orders, ds[..n], storeWorks);
      var before := ConfirmAll(orders, ds[..n], storeWorks);
      ConfirmConserves(before.0, ds[n], storeWorks(n));
      OnlySettledInTurn(orders, ds[..n], before.0, [ds[n]], ConfirmAll(orders, ds, storeWorks).0);
      assert ds[..n] + [ds[n]] == ds;
    }
  }

  // ---------------------------------------------------------------- first come, first served

  /** Positions of the orders awaiting a deposit on the account, in natural order. */
  function Awaiting(orders: seq<Order>, account: ObjectId): (r: seq<nat>)
    ensures forall k :: 0 <= k < |r| ==> r[k] < |orders|
  {
    if orders == [] then []
    else
      var n := |orders| - 1;
      Awaiting(orders[..n], account) + (if Awaits(orders[n], account) then [n] else [])
  }

  /** The transfers dispatched to the account, in order. */
  function ReceivedBy(ds: seq<Dispatch>, account: ObjectId): seq<Transfer> {
    if ds == [] then []
    else
      var d := ds[|ds| - 1];
      ReceivedBy(ds[..|ds| - 1], account) + (if d.account.id == Some(account) then [d.transfer] else [])
  }

  lemma {:induction false} AwaitingMembers(orders: seq<Order>, account: ObjectId)
    ensures forall i :: i in Awaiting(orders, account) <==> 0 <= i < |orders| && Awaits(orders[i], account)
  {
    if orders != [] {
      AwaitingMembers(orders[..|orders| - 1], account);
    }
  }

  lemma {:induction false} FindOrderIsFirst(orders: seq<Order>, account: ObjectId)
    ensures FindOrder(orders, account) == if Awaiting(orders, account) == [] then None else Some(Awaiting(orders, account)[0])
  {
    if orders != [] {
      FindOrderIsFirst(orders[..|orders| - 1], account);
    }
  }

  /** Replacing an order that does not await the account by another such order changes nothing for the account. */
  lemma {:induction false} AwaitingElsewhere(orders: seq<Order>, i: nat, o: Order, account: ObjectId)
    requires i < |orders| && !Awaits(orders[i], account) && !Awaits(o, account)
    ensures Awaiting(orders[i := o], account) == Awaiting(orders, account)
  {
    var n := |orders| - 1;
    if i == n {
      assert orders[i := o][..n] == orders[..n];
    } else {
      AwaitingElsewhere(orders[..n], i, o, account);
      assert orders[i := o][..n] == orders[..n][i := o];
    }
  }

  /** Settling the first order of the account leaves the others, in order. */
  lemma {:induction false} AwaitingAfterFirst(orders: seq<Order>, o: Order, account: ObjectId)
    requires Awaiting(orders, account) != [] && !Awaits(o, account)
    ensures Awaiting(orders[Awaiting(orders, account)[0] := o], account) == Awaiting(orders, account)[1..]
  {
    var n := |orders| - 1;
    var i := Awaiting(orders, account)[0];
    if Awaiting(orders[..n], account) == [] {
      assert orders[i := o][..n] == orders[..n];
    } else {
      AwaitingAfterFirst(orders[..n], o, account);
      assert orders[i := o][..n] == orders[..n][i := o];
    }
  }

  predicate OneDepositAccountEach(orders: seq<Order>) {
    forall i :: 0 <= i < |orders| ==> |orders[i].depositAccountIds| <= 1
  }

  function Min(a: nat, b: nat): nat {
    if a < b then a else b
  }

  /** The i-th received transfer pays the i-th awaiting order, as far as both last; the rest keep awaiting. */
  predicate FirstComeFirstServed(orders: seq<Order>, received: seq<Transfer>, orders': seq<Order>, account: ObjectId) {
    var waiting := Awaiting(orders, account);
    var served := Min(|waiting|, |received|);
    && |orders'| == |orders|
    && Awaiting(orders', account) == waiting[served..]
    && forall i :: 0 <= i < served ==>
         PaidBy(orders[waiting[i]], orders'[waiting[i]], received[i])
  }

  /** A transfer to another account. */
  lemma OthersDoNotInterfere(orders: seq<Order>, received: seq<Transfer>, os: seq<Order>, d: Dispatch, account: ObjectId)
    requires FirstComeFirstServed(orders, received, os, account) && OneDepositAccountEach(os)
    requires d.account.id != Some(account)
    ensures FirstComeFirstServed(orders, received, Confirm(os, d, true).0, account)
  {
    if Confirm(os, d, true).1 {
      var b := d.account.id.value;
      FindOrderFinds(os, b);
      var j := FindOrder(os, b).value;
      assert os[j].depositAccountIds == [os[j].depositAccountIds[0]];
      AwaitingElsewhere(os, j, Confirm(os, d, true).0[j], account);
    }
  }

  /** A transfer to the account when none of its orders is left. */
  lemma NothingLeftToServe(orders: seq<Order>, received: seq<Transfer>, os: seq<Order>, d: Dispatch, account: ObjectId)
    requires FirstComeFirstServed(orders, received, os, account)
    requires d.account.id == Some(account) && Awaiting(os, account) == []
    ensures FirstComeFirstServed(orders, received + [d.transfer], Confirm(os, d, true).0, account)
  {
    FindOrderIsFirst(os, account);
  }

  /** The next order to be served is as it was at the start. */
  lemma NextToServe(orders: seq<Order>, ds: seq<Dispatch>, received: seq<Transfer>, os: seq<Order>, account: ObjectId)
    requires FirstComeFirstServed(orders, received, os, account) && OnlySettled(orders, os, ds)
    requires Awaiting(os, account) != []
    ensures |received| < |Awaiting(orders, account)|
    ensures var j := Awaiting(os, account)[0];
            j == Awaiting(orders, account)[|received|] && Awaits(os[j], account) && os[j] == orders[j]
  {
    var j := Awaiting(os, account)[0];
    AwaitingMembers(os, account);
    assert j in Awaiting(os, account);
    assert Settled(orders[j], os[j], ds);
  }

  /** Paying it serves one more. */
  lemma ServedOneMore(orders: seq<Order>, received: seq<Transfer>, os: seq<Order>, paid: Transfer, o: Order,
      account: ObjectId)
    requires FirstComeFirstServed(orders, received, os, account)
    requires |received| < |Awaiting(orders, account)|
    requires var j := Awaiting(orders, account)[|received|];
             Awaits(os[j], account) && os[j] == orders[j] && PaidBy(os[j], o, paid)
    ensures var j := Awaiting(orders, account)[|received|];
            FirstComeFirstServed(orders, received + [paid], os[j := o], account)
  {
    var waiting := Awaiting(orders, account);
    var j := waiting[|received|];
    AwaitingAfterFirst(os, o, account);
    forall i | 0 <= i < |received| ensures PaidBy(orders[waiting[i]], os[j := o][waiting[i]], received[i]) {
      assert PaidBy(orders[waiting[i]], os[waiting[i]], received[i]);
      assert waiting[i] != j;
    }
    assert waiting[|received|..][1..] == waiting[|received| + 1..];
  }

  /** A transfer to the account when some of its orders is left. */
  lemma ServesTheNext(orders: seq<Order>, ds: seq<Dispatch>, received: seq<Transfer>, os: seq<Order>, d: Dispatch,
      account: ObjectId)
    requires FirstComeFirstServed(orders, received, os, account) && OnlySettled(orders, os, ds)
    requires d.account.id == Some(account) && Awaiting(os, account) != []
    requires ParseTransactionAmount(d.transfer.value).Some?
    ensures FirstComeFirstServed(orders, received + [d.transfer], Confirm(os, d, true).0, account)
  {
    NextToServe(orders, ds, received, os, account);
    FindOrderIsFirst(os, account);
    var j := Awaiting(os, account)[0];
    ServedOneMore(orders, received, os, d.transfer, Confirm(os, d, true).0[j], account);
  }

  lemma SingleDepositKept(orders: seq<Order>, ds: seq<Dispatch>, os: seq<Order>)
    requires OneDepositAccountEach(orders) && OnlySettled(orders, os, ds)
    ensures OneDepositAccountEach(os)
  {
    forall i | 0 <= i < |os| ensures |os[i].depositAccountIds| <= 1 {
      assert Settled(orders[i], os[i], ds);
    }
  }

  /**
   * With one deposit account per order, readable amounts and a working store, the deposits of an account settle its
   * orders first come, first served, whatever happens on other accounts in between.
   */
  lemma {:induction false} DepositsAreFirstComeFirstServed(orders: seq<Order>, ds: seq<Dispatch>, storeWorks: nat -> bool,
      account: ObjectId)
    requires OneDepositAccountEach(orders)
    requires forall i :: 0 <= i < |ds| ==> ParseTransactionAmount(ds[i].transfer.value).Some? && storeWorks(i)
    ensures FirstComeFirstServed(orders, ReceivedBy(ds, account), ConfirmAll(orders, ds, storeWorks).0, account)
  {
    if ds != [] {
      var n := |ds| - 1;
      var os := ConfirmAll(orders, ds[..n], storeWorks).0;
      DepositsAreFirstComeFirstServed(orders, ds[..n], storeWorks, account);
      MatchesAreTheDropInPending(orders, ds[..n], storeWorks);
      SingleDepositKept(orders, ds[..n], os);
      NextDeposit(orders, ds[..n], ReceivedBy(ds[..n], account), os, ds[n], account);
    }
  }

  lemma NextDeposit(orders: seq<Order>, ds: seq<Dispatch>, received: seq<Transfer>, os: seq<Order>, d: Dispatch,
      account: ObjectId)
    requires FirstComeFirstServed(orders, received, os, account)
    requires OnlySettled(orders, os, ds) && OneDepositAccountEach(os)
    requires ParseTransactionAmount(d.transfer.value).Some?
    ensures FirstComeFirstServed(orders, received + (if d.account.id == Some(account) then [d.transfer] else []),
              Confirm(os, d, true).0, account)
  {
    if d.account.id != Some(account) {
      OthersDoNotInterfere(orders, received, os, d, account);
      assert received + [] == received;
    } else if Awaiting(os, account) == [] {
      NothingLeftToServe(orders, received, os, d, account);
    } else {
      ServesTheNext(orders, ds, received, os, d, account);
    }
  }

  /** An account with k awaiting orders that receives t transfers has exactly min(k, t) of them confirmed. */
  lemma ConfirmsTheSmallerNumber(orders: seq<Order>, ds: seq<Dispatch>, storeWorks: nat -> bool, account: ObjectId)
    requires OneDepositAccountEach(orders)
    requires forall i :: 0 <= i < |ds| ==> ParseTransactionAmount(ds[i].transfer.value).Some? && storeWorks(i)
    ensures var os := ConfirmAll(orders, ds, storeWorks).0;
            |Awaiting(orders, account)| - |Awaiting(os, account)| == Min(|Awaiting(orders, account)|, |ReceivedBy(ds, account)|)
  {
    DepositsAreFirstComeFirstServed(orders, ds, storeWorks, account);
  }
}
