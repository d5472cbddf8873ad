/**
 * Which keys with a zero part an import adds: those of the given accounts as normalised, then those of the currencies
 * derived from them. They are read off what it is given and what its calls answer, but for how far the import gets.
 */
module ImportKeys {
  import opened Common
  import opened AccountImport

  /** The key of a live given account after normalising, if a part of it is zero. */
  function ZeroKeyOf(ans: Answers, given: Option<Account>): seq<Key> {
    if given.None? || given.value.deleted then []
    else
      match Normalise(ans, given.value)
      case None => []
      case Some(n) => if Findable(KeyOf(n)) then [] else [KeyOf(n)]
  }

  function GivenZeroKeys(env: Env, given: seq<Option<Account>>, n: nat): seq<Key>
    requires n <= |given|
  {
    if n == 0 then [] else GivenZeroKeys(env, given, n - 1) + ZeroKeyOf(env.forAccount(n - 1), given[n - 1])
  }

  /** The given accounts as the first phase leaves them behind, but for their ids and balances. */
  function NormalisedAll(env: Env, given: seq<Option<Account>>): (r: seq<Account>)
    requires !AnyNil(given)
    ensures |r| == |given|
  {
    seq(|given|, i requires 0 <= i < |given| => Normalised(env.forAccount(i), given[i].value))
  }

  function Normalised(ans: Answers, a: Account): Account {
    match Normalise(ans, a) case None => a case Some(n) => n
  }

  function DerivedKey(source: Account, sc: SupportedCurrency): Key {
    Key(source.address, source.userId, sc.chainId, sc.currencyId)
  }

  /** The key of a derived account, if a part of it is zero and all calls work. */
  function DerivedZeroKey(ans: Answers, accounts: seq<Account>, sc: SupportedCurrency): seq<Key> {
    match SourceFor(accounts, sc.chainId)
    case None => []
    case Some(source) =>
      if !ans.currencyFound || !ans.chainFound || !ans.duplicateCheckWorks || !ans.insertWorks then []
      else if Findable(DerivedKey(source, sc)) then []
      else [DerivedKey(source, sc)]
  }

  function DerivedZeroKeys(env: Env, accounts: seq<Account>, scs: seq<SupportedCurrency>, from: nat): seq<Key> {
    if scs == [] then []
    else
      var n := |scs| - 1;
      DerivedZeroKeys(env, accounts, scs[..n], from) + DerivedZeroKey(env.forCurrency(from + n), accounts, scs[n])
  }

  /** All keys with a zero part of an import that handles so many given accounts and derives so many currencies. */
  function ImportZeroKeys(env: Env, given: seq<Option<Account>>, handled: nat, done: nat): seq<Key>
    requires handled <= |given|
  {
    GivenZeroKeys(env, given, handled)
    + (if handled < |given| || AnyNil(given) then []
       else
         var accounts := NormalisedAll(env, given);
         var todo := UnaddedOf(accounts, env.supported);
         DerivedZeroKeys(env, accounts, if done <= |todo| then todo[..done] else [], 0))
  }

  // ---------------------------------------------------------------- adding keys

  /** No two of the keys are the same, and no live document has one of them. */
  ghost predicate AllNew(docs: Docs, keys: seq<Key>) {
    Distinct(keys) && forall k :: k in keys ==> !Present(docs, k)
  }

  /** Of the keys with a zero part exactly these were added, and uniqueness depends on whether they were new. */
  ghost predicate AddsKeys(docs: Docs, docs': Docs, keys: seq<Key>) {
    && (forall k :: k in keys ==> !Findable(k))
    && (forall k :: !Findable(k) ==> (Present(docs', k) <==> Present(docs, k) || k in keys))
    && (FullyUnique(docs') <==> FullyUnique(docs) && AllNew(docs, keys))
  }

  lemma AddsNoKeys(docs: Docs)
    ensures AddsKeys(docs, docs, [])
  {
  }

  lemma AddsInTurn(a: Docs, keys1: seq<Key>, b: Docs, keys2: seq<Key>, c: Docs)
    requires AddsKeys(a, b, keys1) && AddsKeys(b, c, keys2)
    ensures AddsKeys(a, c, keys1 + keys2)
  {
    ConcatDistinct(keys1, keys2);
  }

  lemma PresentAfterInsert(docs: Docs, id: Id, a: Account, k: Key)
    requires id !in docs
    ensures Present(docs[id := a], k) <==> Present(docs, k) || (!a.deleted && k == KeyOf(a))
  {
    var docs' := docs[id := a];
    if Present(docs, k) {
      var other :| other in docs && !docs[other].deleted && KeyOf(docs[other]) == k;
      assert other in docs' && docs'[other] == docs[other];
    } else if !a.deleted && k == KeyOf(a) {
      assert id in docs' && docs'[id] == a;
    }
  }

  /** Its key, if the account is live and a part of the key is zero. */
  function ZeroKey(a: Account): seq<Key> {
    if a.deleted || Findable(KeyOf(a)) then [] else [KeyOf(a)]
  }

  lemma InsertAddsKey(docs: Docs, id: Id, a: Account)
    requires id !in docs && !HasDuplicate(docs, KeyOf(a))
    ensures AddsKeys(docs, docs[id := a], ZeroKey(a))
  {
    forall k ensures Present(docs[id := a], k) <==> Present(docs, k) || (!a.deleted && k == KeyOf(a)) {
      PresentAfterInsert(docs, id, a, k);
    }
    InsertedKey(docs, id, a);
    OlderStaysUnique(docs, id, a);
  }

  // ---------------------------------------------------------------- the given accounts

  lemma ImportOneAddsKey(ans: Answers, docs: Docs, a: Account)
    requires !ImportOne(ans, docs, a).2.Failed?
    ensures AddsKeys(docs, ImportOne(ans, docs, a).0, ZeroKeyOf(ans, Some(a)))
    ensures KeyOf(ImportOne(ans, docs, a).1) == KeyOf(Normalised(ans, a))
  {
    var (docs', a', verdict) := ImportOne(ans, docs, a);
    var n := Normalise(ans, a).value;
    if HasDuplicate(docs, KeyOf(n)) {
      AddsNoKeys(docs);
    } else {
      assert docs' == docs[verdict.id := a'] && ZeroKey(a') == ZeroKeyOf(ans, Some(a));
      InsertAddsKey(docs, verdict.id, a');
    }
  }

  /** Without an error so far, the first n given accounts added their keys, and left themselves behind normalised. */
  lemma {:induction false} OriginalsAddKeys(env: Env, docs: Docs, given: seq<Option<Account>>, n: nat)
    requires n <= |given| && !Originals(env, docs, given, n).failed
    ensures AddsKeys(docs, Originals(env, docs, given, n).docs, GivenZeroKeys(env, given, n))
  {
    if n == 0 {
      AddsNoKeys(docs);
    } else {
      var (p, q) := (Originals(env, docs, given, n - 1), Originals(env, docs, given, n));
      OriginalsAddKeys(env, docs, given, n - 1);
      if given[n - 1].Some? {
        ImportOneAddsKey(env.forAccount(n - 1), p.docs, given[n - 1].value);
      } else {
        AddsNoKeys(p.docs);
      }
      AddsInTurn(docs, GivenZeroKeys(env, given, n - 1), p.docs, ZeroKeyOf(env.forAccount(n - 1), given[n - 1]), q.docs);
    }
  }

  ghost predicate LeftNormalised(env: Env, given: seq<Option<Account>>, accounts: seq<Option<Account>>, n: nat) {
    && |accounts| == |given|
    && forall i :: 0 <= i < n <= |given| && given[i].Some? && accounts[i].Some? ==>
         KeyOf(accounts[i].value) == KeyOf(Normalised(env.forAccount(i), given[i].value))
  }

  lemma {:induction false} OriginalsNormalise(env: Env, docs: Docs, given: seq<Option<Account>>, n: nat)
    requires n <= |given| && !Originals(env, docs, given, n).failed
    ensures LeftNormalised(env, given, Originals(env, docs, given, n).accounts, n)
  {
    if n > 0 {
      var p := Originals(env, docs, given, n - 1);
      OriginalsNormalise(env, docs, given, n - 1);
      OriginalsKeepNils(env, docs, given, n - 1);
      if given[n - 1].Some? {
        ImportOneAddsKey(env.forAccount(n - 1), p.docs, given[n - 1].value);
      }
    }
  }

  /** So many given accounts are handled before the first error, if there is one. */
  ghost predicate HandledFirst(env: Env, docs: Docs, given: seq<Option<Account>>, handled: nat) {
    && handled <= |given| && !Originals(env, docs, given, handled).failed
    && (handled < |given| ==> Originals(env, docs, given, handled + 1).failed)
  }

  /** The account that brings the error adds nothing, nor do those after it. */
  lemma NothingAfterError(env: Env, docs: Docs, given: seq<Option<Account>>, handled: nat)
    requires HandledFirst(env, docs, given, handled)
    ensures Originals(env, docs, given, |given|).docs == Originals(env, docs, given, handled).docs
    ensures Originals(env, docs, given, |given|).failed <==> handled < |given|
  {
    if handled < |given| {
      OriginalsStop(env, docs, given, handled + 1);
    }
  }

  lemma {:induction false} SomeHandledFirst(env: Env, docs: Docs, given: seq<Option<Account>>, n: nat) returns (handled: nat)
    requires n <= |given| && !Originals(env, docs, given, n).failed
    ensures HandledFirst(env, docs, given, handled)
    decreases |given| - n
  {
    handled := n;
    if n < |given| && !Originals(env, docs, given, n + 1).failed {
      handled := SomeHandledFirst(env, docs, given, n + 1);
    }
  }

  // ---------------------------------------------------------------- the derived accounts

  /** A new object id is never taken. */
  ghost predicate FreshIds(env: Env) {
    forall j: nat, d: Docs :: env.forCurrency(j).newId(d) !in d
  }

  lemma ZeroKeyIsInserted(ans: Answers, accounts: seq<Account>, docs: Docs, ids: seq<Id>, sc: SupportedCurrency)
    requires ans.newId(docs) !in docs && DerivedZeroKey(ans, accounts, sc) != []
    ensures ans.newId(docs) in Derive(ans, accounts, docs, ids, sc).0
  {
  }

  lemma DeriveAddsKey(ans: Answers, accounts: seq<Account>, docs: Docs, ids: seq<Id>, sc: SupportedCurrency)
    requires ans.newId(docs) !in docs
    ensures AddsKeys(docs, Derive(ans, accounts, docs, ids, sc).0, DerivedZeroKey(ans, accounts, sc))
  {
    var docs' := Derive(ans, accounts, docs, ids, sc).0;
    AddsNoKeys(docs);
    if DerivedZeroKey(ans, accounts, sc) != [] {
      ZeroKeyIsInserted(ans, accounts, docs, ids, sc);
    }
    if docs' != docs {
      var a := DerivedAccount(ans, docs, SourceFor(accounts, sc.chainId).value, sc);
      assert docs' == docs[a.id := a];
      InsertAddsKey(docs, a.id, a);
    }
  }

  lemma DeriveAddsNext(ans: Answers, accounts: seq<Account>, docs0: Docs, keys: seq<Key>, docs: Docs, ids: seq<Id>,
      sc: SupportedCurrency)
    requires ans.newId(docs) !in docs && AddsKeys(docs0, docs, keys)
    ensures AddsKeys(docs0, Derive(ans, accounts, docs, ids, sc).0, keys + DerivedZeroKey(ans, accounts, sc))
  {
    DeriveAddsKey(ans, accounts, docs, ids, sc);
    AddsInTurn(docs0, keys, docs, DerivedZeroKey(ans, accounts, sc), Derive(ans, accounts, docs, ids, sc).0);
  }

  lemma {:induction false} DeriveAllAddsKeys(env: Env, accounts: seq<Account>, docs: Docs, ids: seq<Id>,
                                             scs: seq<SupportedCurrency>, from: nat)
    requires FreshIds(env)
    ensures AddsKeys(docs, DeriveAll(env, accounts, docs, ids, scs, from).0, DerivedZeroKeys(env, accounts, scs, from))
  {
    if scs == [] {
      AddsNoKeys(docs);
    } else {
      var n := |scs| - 1;
      var ans := env.forCurrency(from + n);
      var (d, i) := DeriveAll(env, accounts, docs, ids, scs[..n], from);
      DeriveAllAddsKeys(env, accounts, docs, ids, scs[..n], from);
      DeriveAddsNext(ans, accounts, docs, DerivedZeroKeys(env, accounts, scs[..n], from), d, i, scs[n]);
    }
  }

  ghost predicate SameKeys(a: seq<Account>, b: seq<Account>) {
    |a| == |b| && forall i :: 0 <= i < |a| ==> KeyOf(a[i]) == KeyOf(b[i])
  }

  lemma {:induction false} SameSource(a: seq<Account>, b: seq<Account>, chainId: Id)
    requires SameKeys(a, b)
    ensures match SourceFor(a, chainId)
            case None => SourceFor(b, chainId) == None
            case Some(x) => SourceFor(b, chainId).Some? && KeyOf(SourceFor(b, chainId).value) == KeyOf(x)
  {
    if a != [] {
      assert KeyOf(a[0]) == KeyOf(b[0]);
      SameSource(a[1..], b[1..], chainId);
    }
  }

  lemma SameUnadded(a: seq<Account>, b: seq<Account>, sc: SupportedCurrency)
    requires SameKeys(a, b)
    ensures Unadded(a, sc) <==> Unadded(b, sc)
  {
    forall i | 0 <= i < |a| ensures a[i].chainId == b[i].chainId && a[i].currencyId == b[i].currencyId {
      assert KeyOf(a[i]) == KeyOf(b[i]);
    }
  }

  lemma {:induction false} SameUnaddedOf(a: seq<Account>, b: seq<Account>, scs: seq<SupportedCurrency>)
    requires SameKeys(a, b)
    ensures UnaddedOf(a, scs) == UnaddedOf(b, scs)
  {
    if scs != [] {
      SameUnaddedOf(a, b, scs[..|scs| - 1]);
      SameUnadded(a, b, scs[|scs| - 1]);
    }
  }

  lemma {:induction false} SameDerivedKeys(env: Env, a: seq<Account>, b: seq<Account>, scs: seq<SupportedCurrency>, from: nat)
    requires SameKeys(a, b)
    ensures DerivedZeroKeys(env, a, scs, from) == DerivedZeroKeys(env, b, scs, from)
  {
    if scs != [] {
      SameDerivedKeys(env, a, b, scs[..|scs| - 1], from);
      SameSource(a, b, scs[|scs| - 1].chainId);
    }
  }

  // ---------------------------------------------------------------- the whole import

  lemma SecondPhaseAddsKeys(env: Env, docs: Docs, given: seq<Option<Account>>, docs': Docs, ids: seq<Id>, done: nat)
    requires Derives(env, docs, given) && FreshIds(env) && !AnyNil(given)
    requires var p := Originals(env, docs, given, |given|); Derived(env, Values(p.accounts), p.docs, p.ids, docs', ids, done)
    ensures var (accounts, p) := (NormalisedAll(env, given), Originals(env, docs, given, |given|));
            var todo := UnaddedOf(accounts, env.supported);
            done <= |todo| && AddsKeys(p.docs, docs', DerivedZeroKeys(env, accounts, todo[..done], 0))
  {
    var (left, p) := (Originals(env, docs, given, |given|).accounts, Originals(env, docs, given, |given|));
    var (a, b) := (Values(left), NormalisedAll(env, given));
    OriginalsNormalise(env, docs, given, |given|);
    assert SameKeys(a, b);
    SameUnaddedOf(a, b, env.supported);
    var todo := UnaddedOf(b, env.supported);
    SameDerivedKeys(env, a, b, todo[..done], 0);
    DeriveAllAddsKeys(env, a, p.docs, p.ids, todo[..done], 0);
  }

  /**
   * An import that handles so many given accounts before its first error and derives so many currencies: all live
   * accounts differ in some part of the key afterwards if and only if they did before, and the keys with a zero part that
   * it adds are new and all different. The keys are those of the given accounts as normalised and of the derived ones.
   */
  lemma FullyUniqueIffZeroKeysAreNew(env: Env, docs: Docs, given: seq<Option<Account>>, docs': Docs, ids: seq<Id>,
      failed: bool, handled: nat, done: nat)
    requires IsImport(env, docs, given, docs', ids, failed) && Starts(env, given) && FreshIds(env)
    requires HandledFirst(env, docs, given, handled)
    requires Derives(env, docs, given) ==>
               var p := Originals(env, docs, given, |given|); Derived(env, Values(p.accounts), p.docs, p.ids, docs', ids, done)
    ensures AddsKeys(docs, docs', ImportZeroKeys(env, given, handled, done))
    ensures FullyUnique(docs') <==> FullyUnique(docs) && AllNew(docs, ImportZeroKeys(env, given, handled, done))
  {
    var p := Originals(env, docs, given, |given|);
    var keys := GivenZeroKeys(env, given, handled);
    OriginalsAddKeys(env, docs, given, handled);
    NothingAfterError(env, docs, given, handled);
    NilsStay(env, docs, given);
    if handled < |given| || AnyNil(given) {
      assert keys + [] == keys;
    } else {
      SecondPhaseAddsKeys(env, docs, given, docs', ids, done);
      var accounts := NormalisedAll(env, given);
      AddsInTurn(docs, keys, p.docs, DerivedZeroKeys(env, accounts, UnaddedOf(accounts, env.supported)[..done], 0), docs');
    }
  }
}
