/**
 * What the accounts that an import stores look like, field by field: the given ones, and those derived for the
 * currencies nobody had.
 */
module ImportFields {
  import opened Common
  import opened AccountImport
  import opened ImportKeys

  /** The chain of a given account: that of its supported currency, unless that is zero. */
  function ChainOf(ans: Answers, g: Account): Id {
    if g.supportedId != 0 && ans.supported.Some? && ans.supported.value.chainId != 0 then ans.supported.value.chainId
    else g.chainId
  }

  function CurrencyOf(ans: Answers, g: Account): Id {
    if g.supportedId != 0 && ans.supported.Some? && ans.supported.value.currencyId != 0 then ans.supported.value.currencyId
    else g.currencyId
  }

  /** a is the given account g with chain, currency and type filled in; its id and its balance are its own. */
  predicate FilledIn(ans: Answers, g: Account, a: Account) {
    && a.walletId == g.walletId && a.userId == g.userId && a.address == g.address && a.secret == g.secret
    && a.supportedId == g.supportedId && a.deleted == g.deleted
    && a.chainId == ChainOf(ans, g) && a.currencyId == CurrencyOf(ans, g)
    && a.kind == (if g.kind == "" then "ACCOUNT_IMPORTED" else g.kind)
  }

  /** The node is asked for the balance unless the account was created here or misses what the question needs. */
  predicate BalanceArrives(ans: Answers, g: Account) {
    && g.address != "" && g.supportedId != 0 && g.kind != "ACCOUNT_CREATED"
    && ans.supportedAgain.Some? && ans.currencyFound && ans.chainFound && ans.balance.Some?
  }

  /** doc is what the i-th given account is stored as, under this id. */
  predicate FromGiven(env: Env, given: seq<Option<Account>>, i: nat, id: Id, doc: Account) {
    && i < |given| && given[i].Some? && doc.id == id
    && var (ans, g) := (env.forAccount(i), given[i].value);
       && FilledIn(ans, g, doc) && (g.id != 0 ==> id == g.id)
       && doc.balance == (if BalanceArrives(ans, g) then ans.balance.value else g.balance)
  }

  /** doc is what a listed currency is stored as, derived from this account. */
  predicate DerivedFrom(ans: Answers, a: Account, sc: SupportedCurrency, id: Id, doc: Account) {
    && doc.walletId == a.walletId && doc.userId == a.userId && doc.address == a.address && doc.secret == a.secret
    && doc.chainId == sc.chainId && doc.currencyId == sc.currencyId && doc.supportedId == sc.id
    && doc.id == id && doc.kind == "ACCOUNT_IMPORTED" && !doc.deleted
    && doc.balance == (if a.kind == "ACCOUNT_CREATED" || ans.balance.None? then 0.0 else ans.balance.value)
  }

  // ---------------------------------------------------------------- the given accounts

  lemma ImportOneFillsIn(env: Env, docs: Docs, given: seq<Option<Account>>, i: nat)
    requires i < |given| && given[i].Some?
    ensures var (docs', a, verdict) := ImportOne(env.forAccount(i), docs, given[i].value);
            && (!verdict.Failed? ==> FilledIn(env.forAccount(i), given[i].value, a))
            && forall id :: id in docs' && (id in docs ==> docs'[id] != docs[id]) ==> FromGiven(env, given, i, id, docs'[id])
  {
  }

  /** Every document is an old one or one of the first n given accounts. */
  ghost predicate OldOrGiven(env: Env, docs: Docs, given: seq<Option<Account>>, n: nat, docs': Docs) {
    forall id :: id in docs' && (id in docs ==> docs'[id] != docs[id]) ==>
      exists i: nat :: i < n && FromGiven(env, given, i, id, docs'[id])
  }

  lemma OneMoreGiven(env: Env, docs: Docs, given: seq<Option<Account>>, n: nat, docs1: Docs, docs2: Docs)
    requires OldOrGiven(env, docs, given, n, docs1)
    requires forall id :: id in docs2 && (id in docs1 ==> docs2[id] != docs1[id]) ==> FromGiven(env, given, n, id, docs2[id])
    ensures OldOrGiven(env, docs, given, n + 1, docs2)
  {
    forall id | id in docs2 && (id in docs ==> docs2[id] != docs[id])
      ensures exists i: nat :: i < n + 1 && FromGiven(env, given, i, id, docs2[id])
    {
      if id in docs1 && docs2[id] == docs1[id] {
        var i: nat :| i < n && FromGiven(env, given, i, id, docs1[id]);
        assert FromGiven(env, given, i, id, docs2[id]);
      } else {
        assert FromGiven(env, given, n, id, docs2[id]);
      }
    }
  }

  /** The first phase stores nothing but given accounts, filled in, also when it fails. */
  lemma {:induction false} OriginalsStoreGiven(env: Env, docs: Docs, given: seq<Option<Account>>, n: nat)
    requires n <= |given|
    ensures OldOrGiven(env, docs, given, n, Originals(env, docs, given, n).docs)
  {
    if n > 0 {
      var p := Originals(env, docs, given, n - 1);
      OriginalsStoreGiven(env, docs, given, n - 1);
      if given[n - 1].Some? {
        ImportOneFillsIn(env, p.docs, given, n - 1);
      }
      OneMoreGiven(env, docs, given, n - 1, p.docs, Originals(env, docs, given, n).docs);
    }
  }

  ghost predicate AllFilledIn(env: Env, given: seq<Option<Account>>, accounts: seq<Option<Account>>, n: nat) {
    && |accounts| == |given|
    && forall i :: 0 <= i < n <= |given| && given[i].Some? && accounts[i].Some? ==>
         FilledIn(env.forAccount(i), given[i].value, accounts[i].value)
  }

  /** Without an error so far it leaves them behind filled in. */
  lemma {:induction false} OriginalsFillIn(env: Env, docs: Docs, given: seq<Option<Account>>, n: nat)
    requires n <= |given| && !Originals(env, docs, given, n).failed
    ensures AllFilledIn(env, given, Originals(env, docs, given, n).accounts, n)
  {
    if n > 0 {
      var p := Originals(env, docs, given, n - 1);
      OriginalsFillIn(env, docs, given, n - 1);
      OriginalsKeepNils(env, docs, given, n - 1);
      if given[n - 1].Some? {
        ImportOneFillsIn(env, p.docs, given, n - 1);
      }
    }
  }

  // ---------------------------------------------------------------- the derived accounts

  /** Account i is the first one on its chain. */
  predicate FirstOnChain(accounts: seq<Account>, i: nat, chainId: Id) {
    && i < |accounts| && accounts[i].chainId == chainId
    && forall k :: 0 <= k < i ==> accounts[k].chainId != chainId
  }

  lemma {:induction false} SourceIsFirst(accounts: seq<Account>, chainId: Id)
    requires SourceFor(accounts, chainId).Some?
    ensures chainId != 0
    ensures exists i: nat :: FirstOnChain(accounts, i, chainId) && accounts[i] == SourceFor(accounts, chainId).value
  {
    if accounts[0].chainId == chainId && chainId != 0 {
      assert FirstOnChain(accounts, 0, chainId);
    } else {
      SourceIsFirst(accounts[1..], chainId);
      var i: nat :| FirstOnChain(accounts[1..], i, chainId) && accounts[1..][i] == SourceFor(accounts, chainId).value;
      FirstOfTail(accounts, i, chainId);
    }
  }

  lemma FirstOfTail(accounts: seq<Account>, i: nat, chainId: Id)
    requires accounts != [] && accounts[0].chainId != chainId && FirstOnChain(accounts[1..], i, chainId)
    ensures FirstOnChain(accounts, i + 1, chainId) && accounts[i + 1] == accounts[1..][i]
  {
    forall k | 0 <= k < i + 1 ensures accounts[k].chainId != chainId {
      assert k > 0 ==> accounts[k] == accounts[1..][k - 1];
    }
  }

  /** doc was derived for the j-th uncovered currency from the first account on its chain. */
  ghost predicate DerivedAt(env: Env, accounts: seq<Account>, todo: seq<SupportedCurrency>, i: nat, j: nat, id: Id,
      doc: Account)
  {
    && j < |todo| && FirstOnChain(accounts, i, todo[j].chainId)
    && DerivedFrom(env.forCurrency(j), accounts[i], todo[j], id, doc)
  }

  lemma DeriveStores(ans: Answers, accounts: seq<Account>, docs: Docs, ids: seq<Id>, sc: SupportedCurrency, id: Id)
    requires var docs' := Derive(ans, accounts, docs, ids, sc).0; id in docs' && (id in docs ==> docs'[id] != docs[id])
    ensures exists i: nat :: FirstOnChain(accounts, i, sc.chainId)
                             && DerivedFrom(ans, accounts[i], sc, id, Derive(ans, accounts, docs, ids, sc).0[id])
  {
    SourceIsFirst(accounts, sc.chainId);
  }

  /** Every document is an old one or one derived for the uncovered currencies. */
  ghost predicate OldOrDerived(env: Env, docs: Docs, accounts: seq<Account>, todo: seq<SupportedCurrency>, docs': Docs) {
    forall id :: id in docs' && (id in docs ==> docs'[id] != docs[id]) ==>
      exists i: nat, j: nat :: DerivedAt(env, accounts, todo, i, j, id, docs'[id])
  }

  lemma OneMoreDerived(env: Env, docs: Docs, accounts: seq<Account>, todo: seq<SupportedCurrency>, docs1: Docs, ids: seq<Id>)
    requires todo != [] && OldOrDerived(env, docs, accounts, todo[..|todo| - 1], docs1)
    ensures var n := |todo| - 1;
            OldOrDerived(env, docs, accounts, todo, Derive(env.forCurrency(n), accounts, docs1, ids, todo[n]).0)
  {
    var n := |todo| - 1;
    var docs2 := Derive(env.forCurrency(n), accounts, docs1, ids, todo[n]).0;
    forall id | id in docs2 && (id in docs ==> docs2[id] != docs[id])
      ensures exists i: nat, j: nat :: DerivedAt(env, accounts, todo, i, j, id, docs2[id])
    {
      if id in docs1 && docs2[id] == docs1[id] {
        var i: nat, j: nat :| DerivedAt(env, accounts, todo[..n], i, j, id, docs1[id]);
        assert DerivedAt(env, accounts, todo, i, j, id, docs2[id]);
      } else {
        DeriveStores(env.forCurrency(n), accounts, docs1, ids, todo[n], id);
        var i: nat :| FirstOnChain(accounts, i, todo[n].chainId)
                      && DerivedFrom(env.forCurrency(n), accounts[i], todo[n], id, docs2[id]);
        assert DerivedAt(env, accounts, todo, i, n, id, docs2[id]);
      }
    }
  }

  /** The second phase stores nothing but accounts derived for uncovered currencies. */
  lemma {:induction false} DeriveAllStoresDerived(env: Env, accounts: seq<Account>, docs: Docs, ids: seq<Id>,
      todo: seq<SupportedCurrency>)
    ensures OldOrDerived(env, docs, accounts, todo, DeriveAll(env, accounts, docs, ids, todo, 0).0)
  {
    if todo != [] {
      var n := |todo| - 1;
      var (docs1, ids1) := DeriveAll(env, accounts, docs, ids, todo[..n], 0);
      DeriveAllStoresDerived(env, accounts, docs, ids, todo[..n]);
      OneMoreDerived(env, docs, accounts, todo, docs1, ids1);
    }
  }

  // ---------------------------------------------------------------- the whole import

  /** Given account i is the first one on that chain. */
  predicate FirstGiven(env: Env, given: seq<Option<Account>>, i: nat, chainId: Id) {
    && i < |given| && given[i].Some? && ChainOf(env.forAccount(i), given[i].value) == chainId
    && forall k :: 0 <= k < i && given[k].Some? ==> ChainOf(env.forAccount(k), given[k].value) != chainId
  }

  /** The currency is listed with non-zero ids, and no given account has its chain and currency. */
  predicate Uncovered(env: Env, given: seq<Option<Account>>, sc: SupportedCurrency) {
    && sc in env.supported && sc.chainId != 0 && sc.currencyId != 0
    && forall k :: 0 <= k < |given| && given[k].Some? ==>
         !(ChainOf(env.forAccount(k), given[k].value) == sc.chainId
           && CurrencyOf(env.forAccount(k), given[k].value) == sc.currencyId)
  }

  /** doc was derived from given account i for the j-th currency that no given account covers. */
  ghost predicate FromGivenCurrency(env: Env, given: seq<Option<Account>>, i: nat, j: nat, id: Id, doc: Account) {
    && !AnyNil(given)
    && var todo := UnaddedOf(NormalisedAll(env, given), env.supported);
       j < |todo| && Uncovered(env, given, todo[j]) && FirstGiven(env, given, i, todo[j].chainId)
       && DerivedFrom(env.forCurrency(j), given[i].value, todo[j], id, doc)
  }

  lemma DerivedFromGiven(env: Env, given: seq<Option<Account>>, accounts: seq<Option<Account>>, i: nat, j: nat, id: Id,
      doc: Account)
    requires !AnyNil(given) && !AnyNil(accounts) && AllFilledIn(env, given, accounts, |given|)
    requires SameKeys(Values(accounts), NormalisedAll(env, given))
    requires DerivedAt(env, Values(accounts), UnaddedOf(Values(accounts), env.supported), i, j, id, doc)
    ensures FromGivenCurrency(env, given, i, j, id, doc)
  {
    SameUnaddedOf(Values(accounts), NormalisedAll(env, given), env.supported);
    var a := Values(accounts)[i];
    assert FilledIn(env.forAccount(i), given[i].value, a);
    forall k | 0 <= k <= i ensures ChainOf(env.forAccount(k), given[k].value) == Values(accounts)[k].chainId {
      assert FilledIn(env.forAccount(k), given[k].value, accounts[k].value);
    }
    UnaddedIsUncovered(env, given, accounts, UnaddedOf(Values(accounts), env.supported)[j]);
  }

  lemma UnaddedIsUncovered(env: Env, given: seq<Option<Account>>, accounts: seq<Option<Account>>, sc: SupportedCurrency)
    requires !AnyNil(given) && !AnyNil(accounts) && AllFilledIn(env, given, accounts, |given|)
    requires sc in UnaddedOf(Values(accounts), env.supported)
    ensures Uncovered(env, given, sc)
  {
    UnaddedMembers(Values(accounts), env.supported, sc);
    forall k | 0 <= k < |given| && given[k].Some?
      ensures !(ChainOf(env.forAccount(k), given[k].value) == sc.chainId
                && CurrencyOf(env.forAccount(k), given[k].value) == sc.currencyId)
    {
      assert FilledIn(env.forAccount(k), given[k].value, accounts[k].value);
      assert Values(accounts)[k] == accounts[k].value;
    }
  }

  lemma PrefixStoresDerived(env: Env, accounts: seq<Account>, docs: Docs, ids: seq<Id>, docs': Docs, ids': seq<Id>, done: nat)
    requires Derived(env, accounts, docs, ids, docs', ids', done)
    ensures OldOrDerived(env, docs, accounts, UnaddedOf(accounts, env.supported), docs')
  {
    var all := UnaddedOf(accounts, env.supported);
    DeriveAllStoresDerived(env, accounts, docs, ids, all[..done]);
    forall id | id in docs' && (id in docs ==> docs'[id] != docs[id])
      ensures exists i: nat, j: nat :: DerivedAt(env, accounts, all, i, j, id, docs'[id])
    {
      var i: nat, j: nat :| DerivedAt(env, accounts, all[..done], i, j, id, docs'[id]);
      assert DerivedAt(env, accounts, all, i, j, id, docs'[id]);
    }
  }

  lemma SecondPhaseStoresDerived(env: Env, docs: Docs, given: seq<Option<Account>>, docs': Docs, ids: seq<Id>, failed: bool,
      id: Id)
    requires IsImport(env, docs, given, docs', ids, failed) && Derives(env, docs, given)
    requires var p := Originals(env, docs, given, |given|); id in docs' && (id in p.docs ==> docs'[id] != p.docs[id])
    ensures exists i: nat, j: nat :: FromGivenCurrency(env, given, i, j, id, docs'[id])
  {
    var p := Originals(env, docs, given, |given|);
    var accounts := Values(p.accounts);
    var done: nat :| Derived(env, accounts, p.docs, p.ids, docs', ids, done);
    PrefixStoresDerived(env, accounts, p.docs, p.ids, docs', ids, done);
    var i: nat, j: nat :| DerivedAt(env, accounts, UnaddedOf(accounts, env.supported), i, j, id, docs'[id]);
    NilsStay(env, docs, given);
    OriginalsFillIn(env, docs, given, |given|);
    OriginalsNormalise(env, docs, given, |given|);
    DerivedFromGiven(env, given, p.accounts, i, j, id, docs'[id]);
  }

  /**
   * Whatever an import stores, also one that fails, is a given account with the chain, currency and type filled in, or was
   * derived for a currency that no given account covers: it has the wallet, the user, the address and the secret of the
   * first given account on the currency's chain, the ids of the currency, type ACCOUNT_IMPORTED, and the balance the node
   * tells, or 0 if it tells none or that account was created here.
   */
  lemma ImportStoresGivenOrDerived(env: Env, docs: Docs, given: seq<Option<Account>>, docs': Docs, ids: seq<Id>, failed: bool,
      id: Id)
    requires IsImport(env, docs, given, docs', ids, failed)
    requires id in docs' && (id in docs ==> docs'[id] != docs[id])
    ensures (exists i: nat :: FromGiven(env, given, i, id, docs'[id]))
            || exists i: nat, j: nat :: FromGivenCurrency(env, given, i, j, id, docs'[id])
  {
    var p := Originals(env, docs, given, |given|);
    OriginalsStoreGiven(env, docs, given, |given|);
    if id in p.docs && docs'[id] == p.docs[id] {
      var i: nat :| i < |given| && FromGiven(env, given, i, id, p.docs[id]);
      assert FromGiven(env, given, i, id, docs'[id]);
    } else if Derives(env, docs, given) {
      SecondPhaseStoresDerived(env, docs, given, docs', ids, failed, id);
    }
  }

  // ---------------------------------------------------------------- duplicates

  /** A live document has these four fields, and none of them is zero or empty. */
  ghost predicate Holds(docs: Docs, address: string, userId: Id, chainId: Id, currencyId: Id) {
    && address != "" && userId != 0 && chainId != 0 && currencyId != 0
    && exists id :: id in docs && !docs[id].deleted && docs[id].address == address && docs[id].userId == userId
                    && docs[id].chainId == chainId && docs[id].currencyId == currencyId
  }

  /**
   * What becomes of a given account whose lookups and duplicate check work: it is a duplicate if and only if a live document
   * has its non-zero fields; otherwise it is inserted if and only if the write works and its id is not taken.
   */
  lemma VerdictIff(ans: Answers, docs: Docs, g: Account)
    requires ans.walletFound && ans.duplicateCheckWorks && (g.supportedId != 0 ==> ans.supported.Some?)
    ensures var verdict := ImportOne(ans, docs, g).2;
            && (verdict.Duplicate? <==> Holds(docs, g.address, g.userId, ChainOf(ans, g), CurrencyOf(ans, g)))
            && (verdict.Inserted? <==> !Holds(docs, g.address, g.userId, ChainOf(ans, g), CurrencyOf(ans, g))
                                       && ans.insertWorks && (if g.id == 0 then ans.newId(docs) else g.id) !in docs)
  {
    var k := Key(g.address, g.userId, ChainOf(ans, g), CurrencyOf(ans, g));
    assert KeyOf(Normalise(ans, g).value) == k;
    assert HasDuplicate(docs, k) <==> Holds(docs, g.address, g.userId, ChainOf(ans, g), CurrencyOf(ans, g));
  }
}
