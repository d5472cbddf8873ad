/**
 * Bulk account import: every given account is normalised and inserted unless a live duplicate exists, then
 * every supported currency not yet covered is given an account on the same chain's address. The currency list
 * is paged through GetBatch in tens and worked off in chunks of five. Ids are object ids; 0 is the zero id.
 */
module AccountImport {
  import opened Common

  type Id = nat

  datatype Account = Account(
    id: Id, walletId: Id, userId: Id, chainId: Id, currencyId: Id, supportedId: Id,
    address: string, secret: string, kind: string, balance: real, deleted: bool)

  datatype SupportedCurrency = SupportedCurrency(id: Id, chainId: Id, currencyId: Id)

  /** The four fields of the duplicate check. */
  datatype Key = Key(address: string, userId: Id, chainId: Id, currencyId: Id)

  type Docs = map<Id, Account>

  /** What the database and the node answer while one account is dealt with, each call on its own: None and false stand
      for errors and missing documents. An account's supported currency is looked up twice. */
  datatype Answers = Answers(
    walletFound: bool,
    supported: Option<SupportedCurrency>,
    supportedAgain: Option<SupportedCurrency>,
    currencyFound: bool,
    chainFound: bool,
    balance: Option<real>,
    duplicateCheckWorks: bool,
    insertWorks: bool,
    newId: Docs -> Id)

  /** Everything outside: the answers for the i-th given account and for the i-th uncovered currency, which pages can
      be read, and when the context is cancelled. */
  datatype Env = Env(
    supported: seq<SupportedCurrency>,
    forAccount: nat -> Answers,
    forCurrency: nat -> Answers,
    pageWorks: nat -> bool,
    aliveAtStart: bool,
    aliveAtAccount: nat -> bool,
    aliveAtPage: nat -> bool,
    aliveAtChunk: (nat, nat) -> bool)

  const BATCH_SIZE := 10
  const CHUNK_SIZE := 5
  const IMPORTED := "ACCOUNT_IMPORTED"
  const CREATED := "ACCOUNT_CREATED"

  function KeyOf(a: Account): Key {
    Key(a.address, a.userId, a.chainId, a.currencyId)
  }

  /** The model's fields are tagged omitempty: a zero id or empty address is not stored, so the filter of the
      duplicate check, which asks for the zero value itself, does not find it. */
  predicate Findable(k: Key) {
    k.address != "" && k.userId != 0 && k.chainId != 0 && k.currencyId != 0
  }

  predicate HasDuplicate(docs: Docs, k: Key) {
    Findable(k) && exists id :: id in docs && !docs[id].deleted && KeyOf(docs[id]) == k
  }

  // ---------------------------------------------------------------- one insert

  /** The store after an insert, and the id inserted if it worked; an id already taken is a duplicate-key error. */
  function Insert(ans: Answers, docs: Docs, a: Account): (Docs, Option<Id>) {
    var id := if a.id == 0 then ans.newId(docs) else a.id;
    if id in docs || !ans.insertWorks then (docs, None)
    else (docs[id := a.(id := id)], Some(id))
  }

  // ---------------------------------------------------------------- the given accounts

  datatype Verdict = Failed | Duplicate | Inserted(id: Id)

  /** Currency, chain and type are filled in from the supported currency; None when a lookup fails. */
  function Normalise(ans: Answers, a: Account): Option<Account> {
    if !ans.walletFound then None
    else if a.supportedId == 0 then Some(a.(kind := if a.kind == "" then IMPORTED else a.kind))
    else
      match ans.supported
      case None => None
      case Some(sc) =>
        Some(a.(currencyId := if sc.currencyId == 0 then a.currencyId else sc.currencyId,
                chainId := if sc.chainId == 0 then a.chainId else sc.chainId,
                kind := if a.kind == "" then IMPORTED else a.kind))
  }

  /** Fetched unless it must not or cannot be. */
  function OriginalBalance(ans: Answers, a: Account): real {
    if a.address == "" || a.supportedId == 0 || a.kind == CREATED then a.balance
    else
      match ans.supportedAgain
      case None => a.balance
      case Some(sc) =>
        if !ans.currencyFound || !ans.chainFound then a.balance
        else match ans.balance case Some(b) => b case None => a.balance
  }

  /** One given account: the store, the account as left behind for the second phase, and what happened. */
  function ImportOne(ans: Answers, docs: Docs, a: Account): (Docs, Account, Verdict) {
    match Normalise(ans, a)
    case None => (docs, a, Failed)
    case Some(n) =>
      if !ans.duplicateCheckWorks then (docs, n, Failed)
      else if HasDuplicate(docs, KeyOf(n)) then (docs, n, Duplicate)
      else
        var b := n.(balance := OriginalBalance(ans, n));
        var (docs', id) := Insert(ans, docs, b);
        match id
        case None => (docs', b, Failed)
        case Some(i) => (docs', b.(id := i), Inserted(i))
  }

  datatype Progress = Progress(docs: Docs, accounts: seq<Option<Account>>, ids: seq<Id>, failed: bool)

  /** Given account i after those before it; an error before it stops everything, a nil account is skipped. */
  function OriginalStep(env: Env, p: Progress, given: Option<Account>, i: nat): (q: Progress)
    requires i < |p.accounts|
    ensures |q.accounts| == |p.accounts|
  {
    if p.failed then p
    else if !env.aliveAtAccount(i) then p.(failed := true)
    else if given.None? then p
    else
      var (docs', a, verdict) := ImportOne(env.forAccount(i), p.docs, given.value);
      Progress(docs', p.accounts[i := Some(a)],
               if verdict.Inserted? then p.ids + [verdict.id] else p.ids,
               verdict.Failed?)
  }

  /** The first n given accounts, stopping at the first error. */
  function Originals(env: Env, docs: Docs, accounts: seq<Option<Account>>, n: nat): (p: Progress)
    requires n <= |accounts|
    ensures |p.accounts| == |accounts|
  {
    if n == 0 then Progress(docs, accounts, [], false)
    else OriginalStep(env, Originals(env, docs, accounts, n - 1), accounts[n - 1], n - 1)
  }

  // ---------------------------------------------------------------- the supported currencies

  /** Neither id is zero and no imported account already has this chain and currency. */
  predicate Unadded(accounts: seq<Account>, sc: SupportedCurrency) {
    && sc.chainId != 0 && sc.currencyId != 0
    && !exists i :: 0 <= i < |accounts| && accounts[i].chainId == sc.chainId && accounts[i].currencyId == sc.currencyId
  }

  function UnaddedOf(accounts: seq<Account>, scs: seq<SupportedCurrency>): seq<SupportedCurrency> {
    if scs == [] then []
    else UnaddedOf(accounts, scs[..|scs| - 1]) + (if Unadded(accounts, scs[|scs| - 1]) then [scs[|scs| - 1]] else [])
  }

  /** existing answers, for non-zero ids, whether an imported account has that chain and currency. */
  ghost predicate HoldsKeysOf(existing: set<(Id, Id)>, accounts: seq<Account>) {
    forall c, u :: c != 0 && u != 0 ==>
      ((c, u) in existing <==> exists i :: 0 <= i < |accounts| && accounts[i].chainId == c && accounts[i].currencyId == u)
  }

  /** The first imported account on that chain. */
  function SourceFor(accounts: seq<Account>, chainId: Id): Option<Account> {
    if accounts == [] then None
    else if accounts[0].chainId != 0 && accounts[0].chainId == chainId then Some(accounts[0])
    else SourceFor(accounts[1..], chainId)
  }

  function DerivedAccount(ans: Answers, docs: Docs, source: Account, sc: SupportedCurrency): Account {
    var balance :=
      if source.kind == CREATED then 0.0
      else match ans.balance case Some(b) => b case None => 0.0;
    Account(ans.newId(docs), source.walletId, source.userId, sc.chainId, sc.currencyId, sc.id,
            source.address, source.secret, IMPORTED, balance, false)
  }

  /** One unadded currency; whatever goes wrong, the import goes on with the next one. */
  function Derive(ans: Answers, accounts: seq<Account>, docs: Docs, ids: seq<Id>, sc: SupportedCurrency): (Docs, seq<Id>) {
    match SourceFor(accounts, sc.chainId)
    case None => (docs, ids)
    case Some(source) =>
      var a := DerivedAccount(ans, docs, source, sc);
      if !ans.currencyFound || !ans.chainFound then (docs, ids)
      else if !ans.duplicateCheckWorks || HasDuplicate(docs, KeyOf(a)) then (docs, ids)
      else
        var (docs', id) := Insert(ans, docs, a);
        (docs', if id.Some? then ids + [id.value] else ids)
  }

  /** All currencies of one flat list, in order; the first of them is number from. */
  function DeriveAll(env: Env, accounts: seq<Account>, docs: Docs, ids: seq<Id>, scs: seq<SupportedCurrency>,
      from: nat): (Docs, seq<Id>)
  {
    if scs == [] then (docs, ids)
    else
      var n := |scs| - 1;
      var (docs', ids') := DeriveAll(env, accounts, docs, ids, scs[..n], from);
      Derive(env.forCurrency(from + n), accounts, docs', ids', scs[n])
  }

  predicate AnyNil(accounts: seq<Option<Account>>) {
    exists i :: 0 <= i < |accounts| && accounts[i].None?
  }

  function Values(accounts: seq<Option<Account>>): seq<Account>
    requires !AnyNil(accounts)
  {
    seq(|accounts|, i requires 0 <= i < |accounts| => accounts[i].value)
  }

  // ---------------------------------------------------------------- the implementation

  class AccountUseCase {
    const env: Env
    var docs: Docs

    constructor (env: Env, docs: Docs)
      ensures this.env == env && this.docs == docs
    {
      this.env, this.docs := env, docs;
    }

    method Create(ans: Answers, a: Account) returns (id: Option<Id>)
      modifies this
      ensures (docs, id) == Insert(ans, old(docs), a)
    {
      var newId := if a.id == 0 then ans.newId(docs) else a.id;
      if newId in docs || !ans.insertWorks {
        return None;
      }
      docs := docs[newId := a.(id := newId)];
      return Some(newId);
    }

    method ImportAccount(ans: Answers, a: Account) returns (updated: Account, verdict: Verdict)
      modifies this
      ensures (docs, updated, verdict) == ImportOne(ans, old(docs), a)
    {
      updated := a;
      if !ans.walletFound {
        return a, Failed;
      }
      if a.supportedId != 0 {
        var sc := ans.supported;
        if sc.None? {
          return a, Failed;
        }
        if sc.value.currencyId != 0 {
          updated := updated.(currencyId := sc.value.currencyId);
        }
        if sc.value.chainId != 0 {
          updated := updated.(chainId := sc.value.chainId);
        }
      }
      if updated.kind == "" {
        updated := updated.(kind := IMPORTED);
      }
      if !ans.duplicateCheckWorks {
        return updated, Failed;
      }
      if HasDuplicate(docs, KeyOf(updated)) {
        return updated, Duplicate;
      }
      updated := updated.(balance := OriginalBalance(ans, updated));
      var id := Create(ans, updated);
      if id.None? {
        return updated, Failed;
      }
      return updated.(id := id.value), Inserted(id.value);
    }

    /** One round of the loop over the given accounts, writing the updated account back into the list. */
    method ProcessOne(accounts: seq<Option<Account>>, createdIDs: seq<Id>, given: Option<Account>, i: nat)
        returns (accounts': seq<Option<Account>>, ids: seq<Id>, failed: bool)
      requires i < |accounts|
      modifies this
      ensures Progress(docs, accounts', ids, failed) ==
              OriginalStep(env, Progress(old(docs), accounts, createdIDs, false), given, i)
    {
      accounts', ids, failed := accounts, createdIDs, false;
      if !env.aliveAtAccount(i) {
        return accounts, createdIDs, true;
      }
      if given.Some? {
        var updated, verdict := ImportAccount(env.forAccount(i), given.value);
        accounts' := accounts[i := Some(updated)];
        if verdict.Inserted? {
          ids := createdIDs + [verdict.id];
        }
        failed := verdict.Failed?;
      }
    }

    method ProcessOriginalAccounts(given: seq<Option<Account>>)
        returns (accounts: seq<Option<Account>>, createdIDs: seq<Id>, failed: bool)
      modifies this
      ensures Progress(docs, accounts, createdIDs, failed) == Originals(env, old(docs), given, |given|)
    {
      accounts, createdIDs, failed := given, [], false;
      for i := 0 to |given|
        invariant |accounts| == |given| && !failed
        invariant Progress(docs, accounts, createdIDs, failed) == Originals(env, old(docs), given, i)
      {
        accounts, createdIDs, failed := ProcessOne(accounts, createdIDs, given[i], i);
        if failed {
          OriginalsStop(env, old(docs), given, i + 1);
          return;
        }
      }
    }

    /** SupportedCurrencyRepositoryAdapter.GetBatch over the full list. */
    method GetBatch(limit: nat, skip: nat) returns (batch: seq<SupportedCurrency>)
      requires 0 < limit
      ensures batch == if skip >= |env.supported| then []
                       else env.supported[skip..if skip + limit > |env.supported| then |env.supported| else skip + limit]
    {
      var startIdx, endIdx := skip, skip + limit;
      if startIdx >= |env.supported| {
        return [];
      }
      if endIdx > |env.supported| {
        endIdx := |env.supported|;
      }
      batch := [];
      for i := startIdx to endIdx
        invariant batch == env.supported[startIdx..i]
      {
        batch := batch + [env.supported[i]];
      }
    }

    method DeriveOne(ans: Answers, accounts: seq<Account>, createdIDs: seq<Id>, sc: SupportedCurrency) returns (ids: seq<Id>)
      modifies this
      ensures (docs, ids) == Derive(ans, accounts, old(docs), createdIDs, sc)
    {
      ids := createdIDs;
      var source := SourceFor(accounts, sc.chainId);
      if source.None? || !ans.currencyFound || !ans.chainFound {
        return;
      }
      var a := DerivedAccount(ans, docs, source.value, sc);
      if !ans.duplicateCheckWorks || HasDuplicate(docs, KeyOf(a)) {
        return;
      }
      var id := Create(ans, a);
      if id.Some? {
        ids := ids + [id.value];
      }
    }

    /** The second phase: pages of ten, filtered, worked off in chunks of five. done counts the currencies
        derived before the phase ended. */
    method DeriveMissing(accounts: seq<Account>, createdIDs: seq<Id>) returns (ids: seq<Id>, failed: bool, done: nat)
      modifies this
      ensures Derived(env, accounts, old(docs), createdIDs, docs, ids, done)
      ensures !failed ==> done == |UnaddedOf(accounts, env.supported)| && PagesCome(env, |env.supported| + 1)
      ensures failed ==> Stops(env, accounts, done)
    {
      ids := createdIDs;
      var existing := ExistingKeys(accounts);
      var processed: nat := 0;
      done := 0;
      while true
        invariant AtPage(env, accounts, processed, done)
        invariant Derived(env, accounts, old(docs), createdIDs, docs, ids, done)
        decreases |env.supported| - processed
      {
        if !env.aliveAtPage(processed) || !env.pageWorks(processed) {
          StopsBefore(env, accounts, processed, done);
          return ids, true, done;
        }
        var batch := GetBatch(BATCH_SIZE, processed);
        if |batch| == 0 {
          LastPage(env, accounts, processed, done);
          return ids, false, done;
        }
        ids, failed, processed, done := DerivePage(accounts, existing, ids, processed, batch, done, old(docs), createdIDs);
        if failed {
          return ids, true, done;
        }
      }
    }

    /** One page, after before derived currencies; docs0 and ids0 are what the phase started from. */
    method DerivePage(accounts: seq<Account>, existing: set<(Id, Id)>, createdIDs: seq<Id>, processed: nat,
        batch: seq<SupportedCurrency>, before: nat, ghost docs0: Docs, ghost ids0: seq<Id>)
        returns (ids: seq<Id>, failed: bool, next: nat, done: nat)
      requires HoldsKeysOf(existing, accounts)
      requires AtPage(env, accounts, processed, before) && PageComes(env, processed) && IsPage(env, processed, batch)
      requires Derived(env, accounts, docs0, ids0, docs, createdIDs, before)
      modifies this
      ensures Derived(env, accounts, docs0, ids0, docs, ids, done)
      ensures failed ==> Stops(env, accounts, done)
      ensures !failed ==> processed < next && AtPage(env, accounts, next, done)
    {
      ghost var docs1 := docs;
      var unadded := FilterUnadded(accounts, existing, batch);
      var k;
      next := processed + |batch|;
      ids, failed, k := DeriveChunks(accounts, createdIDs, unadded, next, before);
      PageDone(env, accounts, docs0, ids0, processed, batch, before, docs1, createdIDs, docs, ids, failed, k);
      done := before + k;
    }

    method DeriveChunks(accounts: seq<Account>, createdIDs: seq<Id>, unadded: seq<SupportedCurrency>, processed: nat, from: nat)
        returns (ids: seq<Id>, failed: bool, done: nat)
      modifies this
      ensures done <= |unadded| && (!failed ==> done == |unadded|)
      ensures failed ==> StopsAtChunk(env, |unadded|, processed, done)
      ensures (docs, ids) == DeriveAll(env, accounts, old(docs), createdIDs, unadded[..done], from)
    {
      ids, failed, done := createdIDs, false, 0;
      var chunkStart := 0;
      while chunkStart < |unadded|
        invariant chunkStart % 5 == 0
        invariant done <= |unadded| && done == if chunkStart < |unadded| then chunkStart else |unadded|
        invariant (docs, ids) == DeriveAll(env, accounts, old(docs), createdIDs, unadded[..done], from)
      {
        if !env.aliveAtChunk(processed, chunkStart) {
          return ids, true, done;
        }
        var chunkEnd := chunkStart + CHUNK_SIZE;
        if chunkEnd > |unadded| {
          chunkEnd := |unadded|;
        }
        ids := DeriveChunk(accounts, ids, unadded, from, chunkStart, chunkEnd, old(docs), createdIDs);
        done := chunkEnd;
        chunkStart := chunkStart + CHUNK_SIZE;
      }
    }

    /** One chunk, after the currencies before it; docs0 and ids0 are what the page started from. */
    method DeriveChunk(accounts: seq<Account>, createdIDs: seq<Id>, unadded: seq<SupportedCurrency>, from: nat, chunkStart: nat,
        chunkEnd: nat, ghost docs0: Docs, ghost ids0: seq<Id>)
        returns (ids: seq<Id>)
      requires chunkStart <= chunkEnd <= |unadded|
      requires (docs, createdIDs) == DeriveAll(env, accounts, docs0, ids0, unadded[..chunkStart], from)
      modifies this
      ensures (docs, ids) == DeriveAll(env, accounts, docs0, ids0, unadded[..chunkEnd], from)
    {
      ids := createdIDs;
      for j := chunkStart to chunkEnd
        invariant (docs, ids) == DeriveAll(env, accounts, docs0, ids0, unadded[..j], from)
      {
        assert unadded[..j + 1][..j] == unadded[..j];
        ids := DeriveOne(env.forCurrency(from + j), accounts, ids, unadded[j]);
      }
    }

    method ExistingKeys(accounts: seq<Account>) returns (existing: set<(Id, Id)>)
      ensures HoldsKeysOf(existing, accounts)
    {
      existing := {};
      for n := 0 to |accounts|
        invariant forall c, u :: c != 0 && u != 0 ==>
                    ((c, u) in existing <==> exists i :: 0 <= i < n && accounts[i].chainId == c && accounts[i].currencyId == u)
      {
        if accounts[n].chainId != 0 && accounts[n].currencyId != 0 {
          existing := existing + {(accounts[n].chainId, accounts[n].currencyId)};
        }
      }
    }

    method FilterUnadded(ghost accounts: seq<Account>, existing: set<(Id, Id)>, batch: seq<SupportedCurrency>)
        returns (unadded: seq<SupportedCurrency>)
      requires HoldsKeysOf(existing, accounts)
      ensures unadded == UnaddedOf(accounts, batch)
    {
      unadded := [];
      for n := 0 to |batch|
        invariant unadded == UnaddedOf(accounts, batch[..n])
      {
        assert batch[..n + 1][..n] == batch[..n];
        var sc := batch[n];
        if sc.chainId != 0 && sc.currencyId != 0 && (sc.chainId, sc.currencyId) !in existing {
          unadded := unadded + [sc];
        }
      }
      assert batch[..|batch|] == batch;
    }

    /** A nil account is a nil dereference in the second phase; the recovered panic returns no ids and no error. */
    method ImportAccounts(given: seq<Option<Account>>) returns (createdIDs: seq<Id>, failed: bool)
      modifies this
      ensures IsImport(env, old(docs), given, docs, createdIDs, failed)
    {
      if !env.aliveAtStart || |given| == 0 {
        return [], true;
      }
      if given[0].None? {
        return [], false;
      }
      if given[0].value.userId == 0 {
        return [], true;
      }
      var accounts;
      accounts, createdIDs, failed := ProcessOriginalAccounts(given);
      if failed {
        return createdIDs, true;
      }
      if AnyNil(accounts) {
        return [], false;
      }
      var done;
      createdIDs, failed, done := DeriveMissing(Values(accounts), createdIDs);
    }
  }

  /** Pages start at every tenth entry of the list, and one last time at its end. */
  predicate PageStart(env: Env, p: nat) {
    p == |env.supported| || (p < |env.supported| && p % 10 == 0)
  }

  predicate PageComes(env: Env, p: nat) {
    env.aliveAtPage(p) && env.pageWorks(p)
  }

  ghost predicate PagesCome(env: Env, end: nat) {
    forall p: nat :: PageStart(env, p) && p < end ==> PageComes(env, p)
  }

  /** Where the page at p ends, and what is known after it came. */
  lemma AfterPage(env: Env, p: nat)
    requires PageStart(env, p) && PagesCome(env, p) && PageComes(env, p)
    ensures p < |env.supported| ==>
              var next := if p + 10 < |env.supported| then p + 10 else |env.supported|;
              PageStart(env, next) && PagesCome(env, next)
    ensures p == |env.supported| ==> PagesCome(env, p + 1)
  {
  }

  /** The second phase ends before a page, with the currencies of the earlier ones derived. */
  predicate StopsAtPage(env: Env, accounts: seq<Account>, p: nat, done: nat) {
    && PageStart(env, p) && !PageComes(env, p)
    && done == |UnaddedOf(accounts, env.supported[..p])|
  }

  /** The context is cancelled before the currency with this number in its page, a multiple of five. */
  predicate StopsAtChunk(env: Env, todo: nat, next: nat, chunkStart: nat) {
    chunkStart < todo && chunkStart % 5 == 0 && !env.aliveAtChunk(next, chunkStart)
  }

  /** The second phase ends within a page, before one of its chunks. */
  predicate StopsInPage(env: Env, accounts: seq<Account>, p: nat, done: nat) {
    && PageStart(env, p) && p < |env.supported|
    && var next := if p + 10 < |env.supported| then p + 10 else |env.supported|;
       var before := |UnaddedOf(accounts, env.supported[..p])|;
       before <= done && StopsAtChunk(env, |UnaddedOf(accounts, env.supported[p..next])|, next, done - before)
  }

  /** Before the page at p, with the currencies of the earlier ones derived. */
  ghost predicate AtPage(env: Env, accounts: seq<Account>, p: nat, done: nat) {
    PageStart(env, p) && PagesCome(env, p) && done == |UnaddedOf(accounts, env.supported[..p])|
  }

  predicate IsPage(env: Env, p: nat, batch: seq<SupportedCurrency>) {
    && p < |env.supported|
    && batch == env.supported[p..if p + 10 < |env.supported| then p + 10 else |env.supported|]
  }

  lemma LastPage(env: Env, accounts: seq<Account>, p: nat, done: nat)
    requires AtPage(env, accounts, p, done) && PageComes(env, p) && p == |env.supported|
    ensures done == |UnaddedOf(accounts, env.supported)| && PagesCome(env, |env.supported| + 1)
  {
    assert env.supported[..p] == env.supported;
    AfterPage(env, p);
  }

  /** What a page comes to, of whose currencies k were derived. */
  lemma PageDone(env: Env, accounts: seq<Account>, docs0: Docs, ids0: seq<Id>, p: nat, batch: seq<SupportedCurrency>,
      before: nat, docs1: Docs, ids1: seq<Id>, docs2: Docs, ids2: seq<Id>, failed: bool, k: nat)
    requires AtPage(env, accounts, p, before) && PageComes(env, p) && IsPage(env, p, batch)
    requires Derived(env, accounts, docs0, ids0, docs1, ids1, before)
    requires k <= |UnaddedOf(accounts, batch)|
    requires (docs2, ids2) == DeriveAll(env, accounts, docs1, ids1, UnaddedOf(accounts, batch)[..k], before)
    requires failed ==> StopsAtChunk(env, |UnaddedOf(accounts, batch)|, p + |batch|, k)
    requires !failed ==> k == |UnaddedOf(accounts, batch)|
    ensures Derived(env, accounts, docs0, ids0, docs2, ids2, before + k)
    ensures failed ==> Stops(env, accounts, before + k)
    ensures !failed ==> AtPage(env, accounts, p + |batch|, before + k)
  {
    DerivedOnPage(env, accounts, docs0, ids0, p, batch, before, docs1, ids1, docs2, ids2, k);
    if failed {
      StopsWithin(env, accounts, p, batch, before + k);
    } else {
      PageGoesOn(env, accounts, p, batch, before);
    }
  }

  lemma DerivedOnPage(env: Env, accounts: seq<Account>, docs0: Docs, ids0: seq<Id>, p: nat, batch: seq<SupportedCurrency>,
      before: nat, docs1: Docs, ids1: seq<Id>, docs2: Docs, ids2: seq<Id>, k: nat)
    requires IsPage(env, p, batch) && before == |UnaddedOf(accounts, env.supported[..p])| && k <= |UnaddedOf(accounts, batch)|
    requires Derived(env, accounts, docs0, ids0, docs1, ids1, before)
    requires (docs2, ids2) == DeriveAll(env, accounts, docs1, ids1, UnaddedOf(accounts, batch)[..k], before)
    ensures Derived(env, accounts, docs0, ids0, docs2, ids2, before + k)
  {
    assert batch == env.supported[p..p + |batch|];
    NextPage(env, accounts, docs0, ids0, p, batch, docs1, ids1, k);
  }

  lemma PageGoesOn(env: Env, accounts: seq<Account>, p: nat, batch: seq<SupportedCurrency>, before: nat)
    requires AtPage(env, accounts, p, before) && PageComes(env, p) && IsPage(env, p, batch)
    ensures AtPage(env, accounts, p + |batch|, before + |UnaddedOf(accounts, batch)|)
  {
    AfterPage(env, p);
    PageContinuesTodo(accounts, env.supported, p, batch, 0);
  }

  /** The second phase ends early after deriving so many currencies. */
  ghost predicate Stops(env: Env, accounts: seq<Account>, done: nat) {
    exists p: nat :: StopsAtPage(env, accounts, p, done) || StopsInPage(env, accounts, p, done)
  }

  lemma StopsBefore(env: Env, accounts: seq<Account>, p: nat, done: nat)
    requires AtPage(env, accounts, p, done) && !PageComes(env, p)
    ensures Stops(env, accounts, done)
  {
    assert StopsAtPage(env, accounts, p, done);
  }

  lemma StopsWithin(env: Env, accounts: seq<Account>, p: nat, batch: seq<SupportedCurrency>, done: nat)
    requires PageStart(env, p) && IsPage(env, p, batch)
    requires var before := |UnaddedOf(accounts, env.supported[..p])|;
             before <= done && StopsAtChunk(env, |UnaddedOf(accounts, batch)|, p + |batch|, done - before)
    ensures Stops(env, accounts, done)
  {
    assert StopsInPage(env, accounts, p, done);
  }

  /** The outcome of an import: the store, the returned ids and whether an error is returned. */
  ghost predicate IsImport(env: Env, docs: Docs, given: seq<Option<Account>>, docs': Docs, ids: seq<Id>, failed: bool) {
    if !env.aliveAtStart || given == [] then docs' == docs && ids == [] && failed
    else if given[0].None? then docs' == docs && ids == [] && !failed
    else if given[0].value.userId == 0 then docs' == docs && ids == [] && failed
    else
      var p := Originals(env, docs, given, |given|);
      if p.failed then docs' == p.docs && ids == p.ids && failed
      else if AnyNil(p.accounts) then docs' == p.docs && ids == [] && !failed
      else
        var accounts := Values(p.accounts);
        var todo := UnaddedOf(accounts, env.supported);
        exists done: nat ::
          && Derived(env, accounts, p.docs, p.ids, docs', ids, done)
          && (if failed then Stops(env, accounts, done) else done == |todo| && PagesCome(env, |env.supported| + 1))
  }

  /** The first done unadded currencies, in list order, have been worked off in one flat loop. */
  ghost predicate Derived(env: Env, accounts: seq<Account>, docs: Docs, ids: seq<Id>, docs': Docs, ids': seq<Id>, done: nat) {
    && done <= |UnaddedOf(accounts, env.supported)|
    && (docs', ids') == DeriveAll(env, accounts, docs, ids, UnaddedOf(accounts, env.supported)[..done], 0)
  }

  lemma {:induction false} UnaddedConcat(accounts: seq<Account>, a: seq<SupportedCurrency>, b: seq<SupportedCurrency>)
    ensures UnaddedOf(accounts, a + b) == UnaddedOf(accounts, a) + UnaddedOf(accounts, b)
  {
    if b == [] {
      assert a + b == a;
    } else {
      UnaddedConcat(accounts, a, b[..|b| - 1]);
      assert (a + b)[..|a + b| - 1] == a + b[..|b| - 1];
    }
  }

  lemma UnaddedPrefix(accounts: seq<Account>, scs: seq<SupportedCurrency>, n: nat)
    requires n <= |scs|
    ensures UnaddedOf(accounts, scs[..n]) <= UnaddedOf(accounts, scs)
  {
    assert scs == scs[..n] + scs[n..];
    UnaddedConcat(accounts, scs[..n], scs[n..]);
  }

  /** Working off k more unadded currencies of the next page continues the flat loop. */
  lemma NextPage(env: Env, accounts: seq<Account>, docs: Docs, ids: seq<Id>, processed: nat,
                 batch: seq<SupportedCurrency>, docs1: Docs, ids1: seq<Id>, k: nat)
    requires processed + |batch| <= |env.supported| && batch == env.supported[processed..processed + |batch|]
    requires k <= |UnaddedOf(accounts, batch)|
    requires Derived(env, accounts, docs, ids, docs1, ids1, |UnaddedOf(accounts, env.supported[..processed])|)
    ensures var (docs2, ids2) := DeriveAll(env, accounts, docs1, ids1, UnaddedOf(accounts, batch)[..k],
                                |UnaddedOf(accounts, env.supported[..processed])|);
            Derived(env, accounts, docs, ids, docs2, ids2, |UnaddedOf(accounts, env.supported[..processed])| + k)
    ensures k == |UnaddedOf(accounts, batch)| ==>
              |UnaddedOf(accounts, env.supported[..processed + |batch|])| == |UnaddedOf(accounts, env.supported[..processed])| + k
  {
    PageContinuesTodo(accounts, env.supported, processed, batch, k);
    DeriveAllConcat(env, accounts, docs, ids, UnaddedOf(accounts, env.supported[..processed]),
                    UnaddedOf(accounts, batch)[..k], 0);
  }

  lemma PageContinuesTodo(accounts: seq<Account>, scs: seq<SupportedCurrency>, processed: nat,
                          batch: seq<SupportedCurrency>, k: nat)
    requires processed + |batch| <= |scs| && batch == scs[processed..processed + |batch|]
    requires k <= |UnaddedOf(accounts, batch)|
    ensures var todo := UnaddedOf(accounts, scs);
            var before := UnaddedOf(accounts, scs[..processed]);
            && |before| + k <= |todo|
            && todo[..|before|] == before
            && todo[..|before| + k] == before + UnaddedOf(accounts, batch)[..k]
    ensures UnaddedOf(accounts, scs[..processed + |batch|]) == UnaddedOf(accounts, scs[..processed]) + UnaddedOf(accounts, batch)
  {
    var n := processed + |batch|;
    assert scs[..n] == scs[..processed] + batch;
    UnaddedConcat(accounts, scs[..processed], batch);
    UnaddedPrefix(accounts, scs, n);
  }

  lemma {:induction false} DeriveAllConcat(env: Env, accounts: seq<Account>, docs: Docs, ids: seq<Id>,
                                           a: seq<SupportedCurrency>, b: seq<SupportedCurrency>, from: nat)
    ensures var (d1, i1) := DeriveAll(env, accounts, docs, ids, a, from);
            DeriveAll(env, accounts, docs, ids, a + b, from) == DeriveAll(env, accounts, d1, i1, b, from + |a|)
  {
    if b == [] {
      assert a + b == a;
    } else {
      DeriveAllConcat(env, accounts, docs, ids, a, b[..|b| - 1], from);
      assert (a + b)[..|a + b| - 1] == a + b[..|b| - 1];
    }
  }

  lemma {:induction false} OriginalsStop(env: Env, docs: Docs, accounts: seq<Option<Account>>, n: nat)
    requires n <= |accounts| && Originals(env, docs, accounts, n).failed
    ensures Originals(env, docs, accounts, |accounts|) == Originals(env, docs, accounts, n)
    decreases |accounts| - n
  {
    if n < |accounts| {
      OriginalsStop(env, docs, accounts, n + 1);
    }
  }

  // ---------------------------------------------------------------- returned ids

  /** Exactly the accounts named by ids were added, each once; every older document is as it was. */
  ghost predicate Added(docs: Docs, docs': Docs, ids: seq<Id>) {
    && docs'.Keys == docs.Keys + (set id | id in ids)
    && (forall id :: id in docs ==> docs'[id] == docs[id])
    && (forall id :: id in ids ==> id !in docs)
    && Distinct(ids)
  }

  lemma AddOneMore(docs: Docs, docs1: Docs, ids: seq<Id>, id: Id, a: Account)
    requires Added(docs, docs1, ids) && id !in docs1
    ensures Added(docs, docs1[id := a], ids + [id])
  {
    var docs2 := docs1[id := a];
    assert forall x :: x in ids ==> x in docs1;
    assert (set x | x in ids + [id]) == (set x | x in ids) + {id};
  }

  lemma ImportOneAdds(ans: Answers, docs: Docs, docs1: Docs, ids: seq<Id>, a: Account)
    requires Added(docs, docs1, ids)
    ensures var (docs2, a', verdict) := ImportOne(ans, docs1, a);
            Added(docs, docs2, if verdict.Inserted? then ids + [verdict.id] else ids)
  {
    var (docs2, a', verdict) := ImportOne(ans, docs1, a);
    if verdict.Inserted? {
      AddOneMore(docs, docs1, ids, verdict.id, docs2[verdict.id]);
    }
  }

  ghost predicate SameNils(a: seq<Option<Account>>, b: seq<Option<Account>>) {
    |a| == |b| && forall i :: 0 <= i < |a| ==> (a[i].None? <==> b[i].None?)
  }

  lemma OriginalStepAdds(env: Env, docs: Docs, p: Progress, given: Option<Account>, i: nat)
    requires i < |p.accounts| && Added(docs, p.docs, p.ids)
    ensures var q := OriginalStep(env, p, given, i); Added(docs, q.docs, q.ids)
  {
    if given.Some? {
      ImportOneAdds(env.forAccount(i), docs, p.docs, p.ids, given.value);
    }
  }

  lemma OriginalStepKeepsNils(env: Env, p: Progress, given: Option<Account>, i: nat)
    requires i < |p.accounts| && (given.None? <==> p.accounts[i].None?)
    ensures SameNils(OriginalStep(env, p, given, i).accounts, p.accounts)
  {
  }

  lemma {:induction false} OriginalsAdd(env: Env, docs: Docs, accounts: seq<Option<Account>>, n: nat)
    requires n <= |accounts|
    ensures var p := Originals(env, docs, accounts, n); Added(docs, p.docs, p.ids)
  {
    if n == 0 {
      AddedNothing(docs);
    } else {
      OriginalsAdd(env, docs, accounts, n - 1);
      OriginalStepAdds(env, docs, Originals(env, docs, accounts, n - 1), accounts[n - 1], n - 1);
    }
  }

  lemma {:induction false} OriginalsKeepNils(env: Env, docs: Docs, accounts: seq<Option<Account>>, n: nat)
    requires n <= |accounts|
    ensures SameNils(Originals(env, docs, accounts, n).accounts, accounts)
  {
    if n > 0 {
      OriginalsKeepNils(env, docs, accounts, n - 1);
      OriginalStepKeepsNils(env, Originals(env, docs, accounts, n - 1), accounts[n - 1], n - 1);
    }
  }

  lemma DeriveAdds(ans: Answers, accounts: seq<Account>, docs: Docs, docs1: Docs, ids: seq<Id>, sc: SupportedCurrency)
    requires Added(docs, docs1, ids)
    ensures var (docs2, ids2) := Derive(ans, accounts, docs1, ids, sc);
            Added(docs, docs2, ids2)
  {
    var (docs2, ids2) := Derive(ans, accounts, docs1, ids, sc);
    if ids2 != ids {
      var id := ids2[|ids|];
      AddOneMore(docs, docs1, ids, id, docs2[id]);
    }
  }

  lemma {:induction false} DeriveAllAdds(env: Env, accounts: seq<Account>, docs: Docs, docs1: Docs, ids: seq<Id>,
                                         scs: seq<SupportedCurrency>, from: nat)
    requires Added(docs, docs1, ids)
    ensures var (docs2, ids2) := DeriveAll(env, accounts, docs1, ids, scs, from);
            Added(docs, docs2, ids2)
  {
    if scs != [] {
      var n := |scs| - 1;
      DeriveAllAdds(env, accounts, docs, docs1, ids, scs[..n], from);
      var (d, i) := DeriveAll(env, accounts, docs1, ids, scs[..n], from);
      DeriveAdds(env.forCurrency(from + n), accounts, docs, d, i, scs[n]);
    }
  }

  /** The import gets past its checks of the first account. */
  predicate Starts(env: Env, given: seq<Option<Account>>) {
    env.aliveAtStart && given != [] && given[0].Some? && given[0].value.userId != 0
  }

  /** A nil account after the first, reached after a first phase that inserted something. */
  ghost predicate LosesIds(env: Env, docs: Docs, given: seq<Option<Account>>) {
    && Starts(env, given) && AnyNil(given)
    && var p := Originals(env, docs, given, |given|); !p.failed && p.ids != []
  }

  lemma NilsStay(env: Env, docs: Docs, given: seq<Option<Account>>)
    ensures AnyNil(Originals(env, docs, given, |given|).accounts) <==> AnyNil(given)
  {
    OriginalsKeepNils(env, docs, given, |given|);
  }

  lemma SecondPhaseAdds(env: Env, docs: Docs, given: seq<Option<Account>>, docs': Docs, ids: seq<Id>, failed: bool)
    requires IsImport(env, docs, given, docs', ids, failed)
    requires Starts(env, given) && !AnyNil(given) && !Originals(env, docs, given, |given|).failed
    ensures Added(docs, docs', ids)
  {
    var p := Originals(env, docs, given, |given|);
    NilsStay(env, docs, given);
    OriginalsAdd(env, docs, given, |given|);
    var accounts := Values(p.accounts);
    var done: nat :| Derived(env, accounts, p.docs, p.ids, docs', ids, done);
    DeriveAllAdds(env, accounts, docs, p.docs, p.ids, UnaddedOf(accounts, env.supported)[..done], 0);
  }

  /**
   * The returned ids are exactly those of the accounts inserted, on success and on every error return alike,
   * if and only if no recovered nil dereference loses them.
   */
  lemma ReturnedIdsAreInsertedIff(env: Env, docs: Docs, given: seq<Option<Account>>, docs': Docs, ids: seq<Id>, failed: bool)
    requires IsImport(env, docs, given, docs', ids, failed)
    ensures Added(docs, docs', ids) <==> !LosesIds(env, docs, given)
    ensures !AnyNil(given) ==> Added(docs, docs', ids)
  {
    if !Starts(env, given) {
      AddedNothing(docs);
    } else {
      FirstPhaseIds(env, docs, given);
      NilsStay(env, docs, given);
      if !AnyNil(given) && !Originals(env, docs, given, |given|).failed {
        SecondPhaseAdds(env, docs, given, docs', ids, failed);
      }
    }
  }

  lemma FirstPhaseIds(env: Env, docs: Docs, given: seq<Option<Account>>)
    ensures var p := Originals(env, docs, given, |given|);
            Added(docs, p.docs, p.ids) && (Added(docs, p.docs, []) <==> p.ids == [])
  {
    OriginalsAdd(env, docs, given, |given|);
    var p := Originals(env, docs, given, |given|);
    if p.ids != [] {
      assert p.ids[0] in p.ids && p.ids[0] in p.docs && p.ids[0] !in docs;
    }
  }

  // ---------------------------------------------------------------- uniqueness

  /** No two live accounts share a findable key. */
  ghost predicate Unique(docs: Docs) {
    forall i, j ::
      (i in docs && j in docs && i != j && !docs[i].deleted && !docs[j].deleted && Findable(KeyOf(docs[i])))
      ==> KeyOf(docs[i]) != KeyOf(docs[j])
  }

  /** No two live accounts share any key. */
  ghost predicate FullyUnique(docs: Docs) {
    forall i, j ::
      (i in docs && j in docs && i != j && !docs[i].deleted && !docs[j].deleted) ==> KeyOf(docs[i]) != KeyOf(docs[j])
  }

  lemma InsertKeepsUnique(ans: Answers, docs: Docs, a: Account)
    requires Unique(docs) && !HasDuplicate(docs, KeyOf(a))
    ensures Unique(Insert(ans, docs, a).0)
  {
  }

  lemma {:induction false} OriginalsKeepUnique(env: Env, docs: Docs, accounts: seq<Option<Account>>, n: nat)
    requires n <= |accounts| && Unique(docs)
    ensures Unique(Originals(env, docs, accounts, n).docs)
  {
    if n > 0 {
      OriginalsKeepUnique(env, docs, accounts, n - 1);
      var p := Originals(env, docs, accounts, n - 1);
      if accounts[n - 1].Some? {
        ImportOneKeepsUnique(env.forAccount(n - 1), p.docs, accounts[n - 1].value);
      }
    }
  }

  lemma ImportOneKeepsUnique(ans: Answers, docs: Docs, a: Account)
    requires Unique(docs)
    ensures Unique(ImportOne(ans, docs, a).0)
  {
    var n := Normalise(ans, a);
    if n.Some? && !HasDuplicate(docs, KeyOf(n.value)) {
      InsertKeepsUnique(ans, docs, n.value.(balance := OriginalBalance(ans, n.value)));
    }
  }

  lemma {:induction false} DeriveAllKeepsUnique(env: Env, accounts: seq<Account>, docs: Docs, ids: seq<Id>,
                                                scs: seq<SupportedCurrency>, from: nat)
    requires Unique(docs)
    ensures Unique(DeriveAll(env, accounts, docs, ids, scs, from).0)
  {
    if scs != [] {
      var n := |scs| - 1;
      DeriveAllKeepsUnique(env, accounts, docs, ids, scs[..n], from);
      var (d, i) := DeriveAll(env, accounts, docs, ids, scs[..n], from);
      DeriveKeepsUnique(env.forCurrency(from + n), accounts, d, i, scs[n]);
    }
  }

  lemma DeriveKeepsUnique(ans: Answers, accounts: seq<Account>, docs: Docs, ids: seq<Id>, sc: SupportedCurrency)
    requires Unique(docs)
    ensures Unique(Derive(ans, accounts, docs, ids, sc).0)
  {
    var source := SourceFor(accounts, sc.chainId);
    if source.Some? {
      var a := DerivedAccount(ans, docs, source.value, sc);
      if !HasDuplicate(docs, KeyOf(a)) {
        InsertKeepsUnique(ans, docs, a);
      }
    }
  }

  /** Every import, successful or not, keeps live accounts unique on every key without a zero part. */
  lemma ImportKeepsUnique(env: Env, docs: Docs, given: seq<Option<Account>>, docs': Docs, ids: seq<Id>, failed: bool)
    requires IsImport(env, docs, given, docs', ids, failed)
    requires Unique(docs)
    ensures Unique(docs')
  {
    OriginalsKeepUnique(env, docs, given, |given|);
    var p := Originals(env, docs, given, |given|);
    if Starts(env, given) && !p.failed && !AnyNil(p.accounts) {
      var accounts := Values(p.accounts);
      var done: nat :| Derived(env, accounts, p.docs, p.ids, docs', ids, done);
      DeriveAllKeepsUnique(env, accounts, p.docs, p.ids, UnaddedOf(accounts, env.supported)[..done], 0);
    }
  }

  ghost predicate Present(docs: Docs, k: Key) {
    exists id :: id in docs && !docs[id].deleted && KeyOf(docs[id]) == k
  }

  /** Inserting a live account keeps all keys unique if and only if its key is findable or was not yet present. */
  lemma InsertIsUniqueIff(ans: Answers, docs: Docs, a: Account)
    requires FullyUnique(docs) && !HasDuplicate(docs, KeyOf(a)) && !a.deleted
    requires Insert(ans, docs, a).1.Some?
    ensures FullyUnique(Insert(ans, docs, a).0) <==> Findable(KeyOf(a)) || !Present(docs, KeyOf(a))
  {
    var (docs', id) := Insert(ans, docs, a);
    if Present(docs, KeyOf(a)) {
      var other :| other in docs && !docs[other].deleted && KeyOf(docs[other]) == KeyOf(a);
      assert other in docs' && id.value in docs' && other != id.value;
    }
  }

  // ---------------------------------------------------------------- uniqueness of all keys, over a whole import

  /** At most one document was added, and its key found no duplicate. */
  ghost predicate OneInsert(docs: Docs, docs': Docs) {
    docs' == docs || exists id: Id, a: Account :: id !in docs && docs' == docs[id := a] && !HasDuplicate(docs, KeyOf(a))
  }

  /** A live document was added under a key with a zero part that was present already. */
  ghost predicate RepeatsKey(docs: Docs, docs': Docs) {
    exists id :: id in docs' && id !in docs && !docs'[id].deleted
                 && !Findable(KeyOf(docs'[id])) && Present(docs, KeyOf(docs'[id]))
  }

  lemma OneInsertIsUniqueIff(docs: Docs, docs': Docs)
    requires OneInsert(docs, docs')
    ensures FullyUnique(docs') <==> FullyUnique(docs) && !RepeatsKey(docs, docs')
  {
    if docs' != docs {
      var id: Id, a: Account :| id !in docs && docs' == docs[id := a] && !HasDuplicate(docs, KeyOf(a));
      assert docs'[id] == a;
      InsertedKey(docs, id, a);
      OlderStaysUnique(docs, id, a);
    }
  }

  lemma OlderStaysUnique(docs: Docs, id: Id, a: Account)
    requires id !in docs
    ensures FullyUnique(docs[id := a]) ==> FullyUnique(docs)
    ensures FullyUnique(docs) && (a.deleted || !Present(docs, KeyOf(a))) ==> FullyUnique(docs[id := a])
  {
    var docs' := docs[id := a];
    assert forall i :: i in docs ==> i in docs' && docs'[i] == docs[i];
  }

  /** A live document under a key already present breaks uniqueness; a findable key is not present then. */
  lemma InsertedKey(docs: Docs, id: Id, a: Account)
    requires id !in docs && !HasDuplicate(docs, KeyOf(a))
    ensures RepeatsKey(docs, docs[id := a]) <==> !a.deleted && Present(docs, KeyOf(a))
    ensures RepeatsKey(docs, docs[id := a]) ==> !FullyUnique(docs[id := a])
  {
    var docs' := docs[id := a];
    if !a.deleted && Present(docs, KeyOf(a)) {
      var other :| other in docs && !docs[other].deleted && KeyOf(docs[other]) == KeyOf(a);
      assert id in docs' && docs'[id] == a && other in docs' && docs'[other] == docs[other];
    }
  }

  ghost predicate OriginalsRepeat(env: Env, docs: Docs, accounts: seq<Option<Account>>, n: nat)
    requires n <= |accounts|
  {
    n > 0 &&
    (OriginalsRepeat(env, docs, accounts, n - 1)
     || RepeatsKey(Originals(env, docs, accounts, n - 1).docs, Originals(env, docs, accounts, n).docs))
  }

  ghost predicate DeriveRepeats(env: Env, accounts: seq<Account>, docs: Docs, ids: seq<Id>, scs: seq<SupportedCurrency>,
      from: nat)
  {
    scs != [] &&
    var init := scs[..|scs| - 1];
    DeriveRepeats(env, accounts, docs, ids, init, from)
    || RepeatsKey(DeriveAll(env, accounts, docs, ids, init, from).0, DeriveAll(env, accounts, docs, ids, scs, from).0)
  }

  lemma InsertIsOneInsert(ans: Answers, docs: Docs, a: Account)
    requires !HasDuplicate(docs, KeyOf(a))
    ensures OneInsert(docs, Insert(ans, docs, a).0)
  {
    var (docs', id) := Insert(ans, docs, a);
    if id.Some? {
      var b := a.(id := id.value);
      assert KeyOf(b) == KeyOf(a) && docs' == docs[id.value := b];
    }
  }

  lemma ImportOneIsOneInsert(ans: Answers, docs: Docs, a: Account)
    ensures OneInsert(docs, ImportOne(ans, docs, a).0)
  {
    var n := Normalise(ans, a);
    if n.Some? && !HasDuplicate(docs, KeyOf(n.value)) {
      InsertIsOneInsert(ans, docs, n.value.(balance := OriginalBalance(ans, n.value)));
    }
  }

  lemma OriginalStepIsOneInsert(env: Env, p: Progress, given: Option<Account>, i: nat)
    requires i < |p.accounts|
    ensures OneInsert(p.docs, OriginalStep(env, p, given, i).docs)
  {
    if given.Some? {
      ImportOneIsOneInsert(env.forAccount(i), p.docs, given.value);
    }
  }

  lemma DeriveIsOneInsert(ans: Answers, accounts: seq<Account>, docs: Docs, ids: seq<Id>, sc: SupportedCurrency)
    ensures OneInsert(docs, Derive(ans, accounts, docs, ids, sc).0)
  {
    var source := SourceFor(accounts, sc.chainId);
    if source.Some? {
      var a := DerivedAccount(ans, docs, source.value, sc);
      if !HasDuplicate(docs, KeyOf(a)) {
        InsertIsOneInsert(ans, docs, a);
      }
    }
  }

  lemma {:induction false} OriginalsFullyUniqueIff(env: Env, docs: Docs, accounts: seq<Option<Account>>, n: nat)
    requires n <= |accounts|
    ensures FullyUnique(Originals(env, docs, accounts, n).docs) <==> FullyUnique(docs) && !OriginalsRepeat(env, docs, accounts, n)
  {
    if n > 0 {
      var p := Originals(env, docs, accounts, n - 1);
      OriginalsFullyUniqueIff(env, docs, accounts, n - 1);
      OriginalStepIsOneInsert(env, p, accounts[n - 1], n - 1);
      OneInsertIsUniqueIff(p.docs, Originals(env, docs, accounts, n).docs);
    }
  }

  lemma {:induction false} DeriveAllFullyUniqueIff(env: Env, accounts: seq<Account>, docs: Docs, ids: seq<Id>,
                                                   scs: seq<SupportedCurrency>, from: nat)
    ensures FullyUnique(DeriveAll(env, accounts, docs, ids, scs, from).0)
       <==> FullyUnique(docs) && !DeriveRepeats(env, accounts, docs, ids, scs, from)
  {
    if scs != [] {
      var n := |scs| - 1;
      var (d, i) := DeriveAll(env, accounts, docs, ids, scs[..n], from);
      DeriveAllFullyUniqueIff(env, accounts, docs, ids, scs[..n], from);
      DeriveIsOneInsert(env.forCurrency(from + n), accounts, d, i, scs[n]);
      OneInsertIsUniqueIff(d, DeriveAll(env, accounts, docs, ids, scs, from).0);
    }
  }

  /** The import goes on to its second phase. */
  ghost predicate Derives(env: Env, docs: Docs, given: seq<Option<Account>>) {
    && Starts(env, given)
    && var p := Originals(env, docs, given, |given|); !p.failed && !AnyNil(p.accounts)
  }

  /** Some insert of the import, whose second phase derived done currencies, repeated a key with a zero part. */
  ghost predicate ImportRepeats(env: Env, docs: Docs, given: seq<Option<Account>>, done: nat) {
    && Starts(env, given)
    && var p := Originals(env, docs, given, |given|);
       || OriginalsRepeat(env, docs, given, |given|)
       || (Derives(env, docs, given)
           && var todo := UnaddedOf(Values(p.accounts), env.supported);
              done <= |todo| && DeriveRepeats(env, Values(p.accounts), p.docs, p.ids, todo[..done], 0))
  }

  /**
   * Over a whole import, successful or not: all live accounts differ in some part of the key afterwards if and only if
   * they did before and no insert repeated a key with a zero id or an empty address.
   */
  lemma ImportIsFullyUniqueIff(env: Env, docs: Docs, given: seq<Option<Account>>, docs': Docs, ids: seq<Id>, failed: bool,
      done: nat)
    requires IsImport(env, docs, given, docs', ids, failed)
    requires Derives(env, docs, given) ==>
               var p := Originals(env, docs, given, |given|); Derived(env, Values(p.accounts), p.docs, p.ids, docs', ids, done)
    ensures FullyUnique(docs') <==> FullyUnique(docs) && !ImportRepeats(env, docs, given, done)
  {
    if Starts(env, given) {
      OriginalsFullyUniqueIff(env, docs, given, |given|);
      if Derives(env, docs, given) {
        var p := Originals(env, docs, given, |given|);
        DeriveAllFullyUniqueIff(env, Values(p.accounts), p.docs, p.ids, UnaddedOf(Values(p.accounts), env.supported)[..done], 0);
      }
    }
  }

  // ---------------------------------------------------------------- completeness

  /** Every call works, and a new object id is neither zero nor taken. */
  ghost predicate AllWorks(ans: Answers) {
    && ans.currencyFound && ans.chainFound && ans.duplicateCheckWorks && ans.insertWorks
    && forall d: Docs :: ans.newId(d) != 0 && ans.newId(d) !in d
  }

  /** If the currency is uncovered, all calls work at one of its places in the list of uncovered ones. */
  ghost predicate LookupsSucceed(env: Env, accounts: seq<Account>, sc: SupportedCurrency) {
    var todo := UnaddedOf(accounts, env.supported);
    sc in todo ==> exists j: nat :: j < |todo| && todo[j] == sc && AllWorks(env.forCurrency(j))
  }

  lemma PresentPersists(docs: Docs, docs': Docs, ids: seq<Id>, k: Key)
    requires Added(docs, docs', ids) && Present(docs, k)
    ensures Present(docs', k)
  {
    var id :| id in docs && !docs[id].deleted && KeyOf(docs[id]) == k;
    assert id in docs' && docs'[id] == docs[id];
  }

  lemma ImportOnePresent(ans: Answers, docs: Docs, a: Account)
    requires !ImportOne(ans, docs, a).2.Failed? && !a.deleted
    ensures Present(ImportOne(ans, docs, a).0, KeyOf(ImportOne(ans, docs, a).1))
  {
    var (docs', a', verdict) := ImportOne(ans, docs, a);
    if verdict.Inserted? {
      assert verdict.id in docs' && docs'[verdict.id] == a';
    }
  }

  /** The first n accounts that are not nil have a live counterpart under their key. */
  ghost predicate PresentUpTo(p: Progress, n: nat) {
    forall i :: 0 <= i < n <= |p.accounts| && p.accounts[i].Some? ==> Present(p.docs, KeyOf(p.accounts[i].value))
  }

  lemma OriginalStepPresent(env: Env, p: Progress, given: Option<Account>, n: nat)
    requires n < |p.accounts| && PresentUpTo(p, n) && !p.failed && !OriginalStep(env, p, given, n).failed
    requires given.None? <==> p.accounts[n].None?
    requires given.Some? ==> !given.value.deleted
    ensures PresentUpTo(OriginalStep(env, p, given, n), n + 1)
  {
    if given.Some? {
      var (docs', a', verdict) := ImportOne(env.forAccount(n), p.docs, given.value);
      ImportOnePresent(env.forAccount(n), p.docs, given.value);
      AddedNothing(p.docs);
      ImportOneAdds(env.forAccount(n), p.docs, p.docs, [], given.value);
      forall i | 0 <= i < n && p.accounts[i].Some? ensures Present(docs', KeyOf(p.accounts[i].value)) {
        PresentPersists(p.docs, docs', if verdict.Inserted? then [verdict.id] else [], KeyOf(p.accounts[i].value));
      }
    }
  }

  /** After a first phase without error every given account has a live counterpart under its final key. */
  lemma {:induction false} OriginalsPresent(env: Env, docs: Docs, accounts: seq<Option<Account>>, n: nat)
    requires n <= |accounts| && !Originals(env, docs, accounts, n).failed
    requires forall i :: 0 <= i < |accounts| && accounts[i].Some? ==> !accounts[i].value.deleted
    ensures PresentUpTo(Originals(env, docs, accounts, n), n)
  {
    if n > 0 {
      var p := Originals(env, docs, accounts, n - 1);
      OriginalsPresent(env, docs, accounts, n - 1);
      OriginalsKeepNils(env, docs, accounts, n - 1);
      OriginalStepPresent(env, p, accounts[n - 1], n - 1);
    }
  }

  lemma AddedNothing(docs: Docs)
    ensures Added(docs, docs, [])
  {
  }

  lemma DerivePresent(ans: Answers, accounts: seq<Account>, docs: Docs, ids: seq<Id>, sc: SupportedCurrency, source: Account)
    requires AllWorks(ans)
    requires SourceFor(accounts, sc.chainId) == Some(source)
    ensures Present(Derive(ans, accounts, docs, ids, sc).0, Key(source.address, source.userId, sc.chainId, sc.currencyId))
  {
    var a := DerivedAccount(ans, docs, source, sc);
    if !HasDuplicate(docs, KeyOf(a)) {
      var docs' := Derive(ans, accounts, docs, ids, sc).0;
      assert a.id in docs' && docs'[a.id] == a;
    }
  }

  lemma {:induction false} DeriveAllPresent(env: Env, accounts: seq<Account>, docs: Docs, ids: seq<Id>,
                                            scs: seq<SupportedCurrency>, from: nat, j: nat, source: Account)
    requires j < |scs| && AllWorks(env.forCurrency(from + j)) && SourceFor(accounts, scs[j].chainId) == Some(source)
    ensures Present(DeriveAll(env, accounts, docs, ids, scs, from).0,
                    Key(source.address, source.userId, scs[j].chainId, scs[j].currencyId))
  {
    var n := |scs| - 1;
    var (d, i) := DeriveAll(env, accounts, docs, ids, scs[..n], from);
    var ans := env.forCurrency(from + n);
    if j == n {
      DerivePresent(ans, accounts, d, i, scs[j], source);
    } else {
      DeriveAllPresent(env, accounts, docs, ids, scs[..n], from, j, source);
      AddedNothing(d);
      DeriveAdds(ans, accounts, d, d, [], scs[n]);
      DeriveIgnoresIds(ans, accounts, d, [], i, scs[n]);
      PresentPersists(d, Derive(ans, accounts, d, [], scs[n]).0, Derive(ans, accounts, d, [], scs[n]).1,
                      Key(source.address, source.userId, scs[j].chainId, scs[j].currencyId));
    }
  }

  lemma DeriveIgnoresIds(ans: Answers, accounts: seq<Account>, docs: Docs, ids1: seq<Id>, ids2: seq<Id>, sc: SupportedCurrency)
    ensures Derive(ans, accounts, docs, ids1, sc).0 == Derive(ans, accounts, docs, ids2, sc).0
  {
  }

  lemma {:induction false} SourceExists(accounts: seq<Account>, chainId: Id)
    requires chainId != 0
    ensures SourceFor(accounts, chainId).Some? <==> exists i :: 0 <= i < |accounts| && accounts[i].chainId == chainId
    ensures SourceFor(accounts, chainId).Some? ==>
              SourceFor(accounts, chainId).value in accounts && SourceFor(accounts, chainId).value.chainId == chainId
  {
    if accounts != [] {
      SourceExists(accounts[1..], chainId);
      if accounts[0].chainId != chainId && SourceFor(accounts, chainId).None? {
        forall i | 0 <= i < |accounts| ensures accounts[i].chainId != chainId {
          assert i > 0 ==> accounts[i] == accounts[1..][i - 1];
        }
      }
    }
  }

  lemma {:induction false} UnaddedMembers(accounts: seq<Account>, scs: seq<SupportedCurrency>, sc: SupportedCurrency)
    ensures sc in UnaddedOf(accounts, scs) <==> sc in scs && Unadded(accounts, sc)
  {
    if scs != [] {
      UnaddedMembers(accounts, scs[..|scs| - 1], sc);
      assert scs == scs[..|scs| - 1] + [scs[|scs| - 1]];
    }
  }

  /** A live account for that chain and currency with the address and user of an imported account. */
  ghost predicate Covered(docs: Docs, accounts: seq<Account>, sc: SupportedCurrency) {
    exists a :: a in accounts && Present(docs, Key(a.address, a.userId, sc.chainId, sc.currencyId))
  }

  /**
   * A successful import is complete: every supported currency with non-zero ids, on a chain that some imported
   * account has, ends up covered.
   */
  lemma ImportIsComplete(env: Env, docs: Docs, given: seq<Option<Account>>, docs': Docs, ids: seq<Id>, sc: SupportedCurrency)
    requires IsImport(env, docs, given, docs', ids, false) && given != [] && !AnyNil(given)
    requires forall i :: 0 <= i < |given| && given[i].Some? ==> !given[i].value.deleted
    requires sc in env.supported && sc.chainId != 0 && sc.currencyId != 0
    ensures var p := Originals(env, docs, given, |given|);
            && !AnyNil(p.accounts)
            && var accounts := Values(p.accounts);
               (exists a :: a in accounts && a.chainId == sc.chainId) && LookupsSucceed(env, accounts, sc)
               ==> Covered(docs', accounts, sc)
  {
    var p := Originals(env, docs, given, |given|);
    OriginalsKeepNils(env, docs, given, |given|);
    OriginalsPresent(env, docs, given, |given|);
    assert !AnyNil(p.accounts);
    var accounts := Values(p.accounts);
    if (exists a :: a in accounts && a.chainId == sc.chainId) && LookupsSucceed(env, accounts, sc) {
      SecondPhaseCovers(env, accounts, p.docs, p.ids, docs', ids, sc);
    }
  }

  lemma SecondPhaseCovers(env: Env, accounts: seq<Account>, docs: Docs, ids: seq<Id>, docs': Docs, ids': seq<Id>,
                          sc: SupportedCurrency)
    requires LookupsSucceed(env, accounts, sc)
    requires Derived(env, accounts, docs, ids, docs', ids', |UnaddedOf(accounts, env.supported)|)
    requires forall a :: a in accounts ==> Present(docs, KeyOf(a))
    requires sc in env.supported && sc.chainId != 0 && sc.currencyId != 0
    requires exists a :: a in accounts && a.chainId == sc.chainId
    ensures Covered(docs', accounts, sc)
  {
    var todo := UnaddedOf(accounts, env.supported);
    assert todo[..|todo|] == todo;
    SourceExists(accounts, sc.chainId);
    if Unadded(accounts, sc) {
      UnaddedMembers(accounts, env.supported, sc);
      var j: nat :| j < |todo| && todo[j] == sc && AllWorks(env.forCurrency(j));
      DeriveAllPresent(env, accounts, docs, ids, todo, 0, j, SourceFor(accounts, sc.chainId).value);
    } else {
      var i :| 0 <= i < |accounts| && accounts[i].chainId == sc.chainId && accounts[i].currencyId == sc.currencyId;
      assert accounts[i] in accounts;
      AddedNothing(docs);
      DeriveAllAdds(env, accounts, docs, docs, [], todo, 0);
      DeriveAllIgnoresIds(env, accounts, docs, [], ids, todo, 0);
      var (d, inserted) := DeriveAll(env, accounts, docs, [], todo, 0);
      PresentPersists(docs, d, inserted, KeyOf(accounts[i]));
    }
  }

  lemma {:induction false} DeriveAllIgnoresIds(env: Env, accounts: seq<Account>, docs: Docs, ids1: seq<Id>, ids2: seq<Id>,
                                               scs: seq<SupportedCurrency>, from: nat)
    ensures DeriveAll(env, accounts, docs, ids1, scs, from).0 == DeriveAll(env, accounts, docs, ids2, scs, from).0
  {
    if scs != [] {
      DeriveAllIgnoresIds(env, accounts, docs, ids1, ids2, scs[..|scs| - 1], from);
    }
  }

  // ---------------------------------------------------------------- two inputs that show the conditions are needed

  /** An environment in which everything works and no currency is supported. */
  function Obliging(): Env {
    Env([], _ => ObligingAnswers(), _ => ObligingAnswers(), _ => true, true, _ => true, _ => true, (_, _) => true)
  }

  function ObligingAnswers(): Answers {
    Answers(true, None, None, true, true, None, true, true, d => |d| + 1)
  }

  function Imported(address: string): Account {
    Account(0, 1, 1, 0, 0, 0, address, "", "", 0.0, false)
  }

  /** An account without a supported currency has zero chain and currency ids; given twice, it is stored twice. */
  lemma ZeroKeyIsImportedTwice()
    ensures var given := [Some(Imported("0xa")), Some(Imported("0xa"))];
            var p := Originals(Obliging(), map[], given, 2);
            !p.failed && p.ids == [1, 2] && FullyUnique(map[]) && !FullyUnique(p.docs)
  {
    var given := [Some(Imported("0xa")), Some(Imported("0xa"))];
    var p1 := Originals(Obliging(), map[], given, 1);
    assert p1 == Progress(map[1 := p1.docs[1]], [p1.accounts[0], given[1]], [1], false);
    var p2 := Originals(Obliging(), map[], given, 2);
    assert p2.ids == [1, 2] && 1 in p2.docs && 2 in p2.docs;
    assert KeyOf(p2.docs[1]) == KeyOf(p2.docs[2]);
  }

  /** A nil second account: the first one is stored, yet the caller gets neither its id nor an error. */
  lemma NilAccountLosesIds()
    ensures var given := [Some(Imported("0xa")), None];
            var p := Originals(Obliging(), map[], given, 2);
            p.ids == [1] && IsImport(Obliging(), map[], given, p.docs, [], false) && LosesIds(Obliging(), map[], given)
  {
    var given := [Some(Imported("0xa")), None];
    var p1 := Originals(Obliging(), map[], given, 1);
    assert p1.ids == [1] && !p1.failed;
    assert given[1].None?;
    NilsStay(Obliging(), map[], given);
  }
}
