/**
 * The dynamic EVM worker: every minute the set of running chain workers is reconciled with the chains that
 * have pending orders. Workers are numbered in the order they are started; cancelling is counted, so that
 * cancelling twice or never would show.
 */
module ChainReconciler {
  import opened Common

  const SUPPORTED: set<string> := {"eth", "matic", "op", "bsc"}

  datatype ChainWorker = ChainWorker(chainSymbol: string, cancels: nat)

  /** The table of supported chains, the active chains by number of their worker, every worker ever started,
      and the startup delay slept so far. */
  datatype Fleet = Fleet(table: set<string>, active: map<string, nat>, workers: seq<ChainWorker>, seconds: nat)

  predicate Supports(table: set<string>, chain: string) {
    Lower(chain) in table
  }

  function Required(chains: seq<string>): set<string> {
    set c | c in chains
  }

  // ---------------------------------------------------------------- one reconcile, as a function

  predicate Matches(f: Fleet, chains: seq<string>) {
    |chains| == |f.active| && forall c :: c in f.active ==> c in chains
  }

  /** Worker i runs for an active chain that is not required. */
  predicate Leaving(f: Fleet, chains: seq<string>, i: nat) {
    exists c :: c in f.active && c !in chains && f.active[c] == i
  }

  function StopOthers(f: Fleet, chains: seq<string>): Fleet {
    Fleet(f.table, map c | c in f.active && c in chains :: f.active[c],
          seq(|f.workers|, i requires 0 <= i < |f.workers| =>
            if Leaving(f, chains, i) then f.workers[i].(cancels := f.workers[i].cancels + 1) else f.workers[i]),
          f.seconds)
  }

  /** Cancelling the worker of one active chain and dropping the chain. */
  function StopChain(f: Fleet, chain: string): Fleet
    requires chain in f.active && f.active[chain] < |f.workers|
  {
    var w := f.active[chain];
    Fleet(f.table, f.active - {chain}, f.workers[w := f.workers[w].(cancels := f.workers[w].cancels + 1)], f.seconds)
  }

  function StartOne(f: Fleet, chain: string): Fleet {
    if chain in f.active || !Supports(f.table, chain) then f
    else Fleet(f.table, f.active[chain := |f.workers|], f.workers + [ChainWorker(Lower(chain), 0)], f.seconds + 2 * |f.active|)
  }

  function StartAll(f: Fleet, chains: seq<string>): Fleet {
    if chains == [] then f else StartOne(StartAll(f, chains[..|chains| - 1]), chains[|chains| - 1])
  }

  function FullReconcile(f: Fleet, chains: seq<string>): Fleet {
    StartAll(StopOthers(f, chains), chains)
  }

  function Reconcile(f: Fleet, chains: seq<string>): Fleet {
    if Matches(f, chains) then f else FullReconcile(f, chains)
  }

  // ---------------------------------------------------------------- the invariant

  /** Distinct chains have distinct workers of their own symbol. */
  ghost predicate WellNumbered(f: Fleet) {
    && (forall c :: c in f.active ==>
          f.active[c] < |f.workers| && Supports(f.table, c) && f.workers[f.active[c]].chainSymbol == Lower(c))
    && (forall c, d :: c in f.active && d in f.active && f.active[c] == f.active[d] ==> c == d)
  }

  ghost predicate Runs(f: Fleet, i: nat) {
    exists c :: c in f.active && f.active[c] == i
  }

  /** The workers started and not cancelled are exactly the active ones; the others were cancelled exactly once. */
  ghost predicate Valid(f: Fleet) {
    && WellNumbered(f)
    && forall i :: 0 <= i < |f.workers| ==> f.workers[i].cancels == if Runs(f, i) then 0 else 1
  }

  // ---------------------------------------------------------------- the implementation

  class Worker {
    const supportedChains: set<string>
    var activeChains: map<string, nat>
    var workers: seq<ChainWorker>
    var seconds: nat

    ghost function Now(): Fleet
      reads this
    {
      Fleet(supportedChains, activeChains, workers, seconds)
    }

    constructor ()
      ensures Now() == Fleet(SUPPORTED, map[], [], 0)
    {
      supportedChains := SUPPORTED;
      activeChains, workers, seconds := map[], [], 0;
    }

    method ChainsMatchCurrentState(requiredChains: seq<string>) returns (r: bool)
      ensures r == Matches(Now(), requiredChains)
    {
      if |requiredChains| != |activeChains| {
        return false;
      }
      var requiredMap: set<string> := {};
      for i := 0 to |requiredChains|
        invariant requiredMap == Required(requiredChains[..i])
      {
        requiredMap := requiredMap + {requiredChains[i]};
        assert requiredChains[..i + 1] == requiredChains[..i] + [requiredChains[i]];
      }
      assert requiredChains[..|requiredChains|] == requiredChains;
      var todo := activeChains.Keys;
      while todo != {}
        invariant todo <= activeChains.Keys
        invariant forall c :: c in activeChains && c !in todo ==> c in requiredChains
        decreases |todo|
      {
        var c :| c in todo;
        if c !in requiredMap {
          return false;
        }
        todo := todo - {c};
      }
      return true;
    }

    method StartChainWorker(chain: string)
      requires chain !in activeChains
      modifies this
      ensures Now() == StartOne(old(Now()), chain)
    {
      var chainSymbol := Lower(chain);
      if chainSymbol !in supportedChains {
        return;
      }
      seconds := seconds + 2 * |activeChains|;
      activeChains := activeChains[chain := |workers|];
      workers := workers + [ChainWorker(chainSymbol, 0)];
    }

    method StopChainWorker(chain: string)
      requires chain in activeChains && activeChains[chain] < |workers|
      modifies this
      ensures Now() == StopChain(old(Now()), chain)
    {
      var w := activeChains[chain];
      workers := workers[w := workers[w].(cancels := workers[w].cancels + 1)];
      activeChains := activeChains - {chain};
    }

    /** Ranging over the active map in any order while deleting from it. */
    method StopChainsWithoutOrders(chains: seq<string>)
      requires WellNumbered(Now())
      modifies this
      ensures Now() == StopOthers(old(Now()), chains)
    {
      ghost var f := Now();
      var todo := activeChains.Keys;
      NothingStopped(f, chains);
      while todo != {}
        invariant todo <= f.active.Keys
        invariant Now() == StopSome(f, chains, todo)
        decreases |todo|
      {
        var c :| c in todo;
        StopSomeStep(f, chains, todo, c);
        if c !in chains {
          StopChainWorker(c);
        }
        todo := todo - {c};
      }
      AllStopped(f, chains);
    }

    method ManageChainsBasedOnOrders(chainsWithOrders: seq<string>)
      requires WellNumbered(Now())
      modifies this
      ensures Now() == Reconcile(old(Now()), chainsWithOrders)
    {
      var same := ChainsMatchCurrentState(chainsWithOrders);
      if same {
        return;
      }
      ghost var f := Now();
      StopChainsWithoutOrders(chainsWithOrders);
      for i := 0 to |chainsWithOrders|
        invariant Now() == StartAll(StopOthers(f, chainsWithOrders), chainsWithOrders[..i])
      {
        assert chainsWithOrders[..i + 1][..i] == chainsWithOrders[..i];
        if chainsWithOrders[i] !in activeChains {
          StartChainWorker(chainsWithOrders[i]);
        }
      }
      assert chainsWithOrders[..|chainsWithOrders|] == chainsWithOrders;
    }

    method StopAllChains()
      requires WellNumbered(Now())
      modifies this
      ensures Now() == StopOthers(old(Now()), [])
    {
      StopChainsWithoutOrders([]);
    }
  }

  ghost predicate StoppedSoFar(f: Fleet, chains: seq<string>, todo: set<string>, i: nat) {
    exists c :: c in f.active && c !in todo && c !in chains && f.active[c] == i
  }

  /** The fleet when the active chains outside todo have been visited. */
  ghost function StopSome(f: Fleet, chains: seq<string>, todo: set<string>): Fleet {
    Fleet(f.table, map c | c in f.active && (c in todo || c in chains) :: f.active[c],
          seq(|f.workers|, i requires 0 <= i < |f.workers| =>
            if StoppedSoFar(f, chains, todo, i) then f.workers[i].(cancels := f.workers[i].cancels + 1) else f.workers[i]),
          f.seconds)
  }

  lemma NothingStopped(f: Fleet, chains: seq<string>)
    ensures StopSome(f, chains, f.active.Keys) == f
  {
    assert StopSome(f, chains, f.active.Keys).active == f.active;
    assert StopSome(f, chains, f.active.Keys).workers == f.workers;
  }

  lemma AllStopped(f: Fleet, chains: seq<string>)
    ensures StopSome(f, chains, {}) == StopOthers(f, chains)
  {
    forall i: nat ensures StoppedSoFar(f, chains, {}, i) == Leaving(f, chains, i) {
    }
    assert StopSome(f, chains, {}).workers == StopOthers(f, chains).workers;
    assert StopSome(f, chains, {}).active == StopOthers(f, chains).active;
  }

  lemma StopSomeStep(f: Fleet, chains: seq<string>, todo: set<string>, c: string)
    requires WellNumbered(f) && c in todo && todo <= f.active.Keys
    ensures var g := StopSome(f, chains, todo);
            && c in g.active && g.active[c] < |g.workers|
            && StopSome(f, chains, todo - {c}) == if c in chains then g else StopChain(g, c)
  {
    var g := StopSome(f, chains, todo);
    var h := StopSome(f, chains, todo - {c});
    if c in chains {
      assert h.active == g.active;
      KeepOne(f, chains, todo, c);
      assert h.workers == g.workers;
    } else {
      assert h.active == g.active - {c};
      StopOne(f, chains, todo, c);
      assert h.workers == StopChain(g, c).workers;
    }
  }

  lemma StopOne(f: Fleet, chains: seq<string>, todo: set<string>, c: string)
    requires WellNumbered(f) && c in todo && todo <= f.active.Keys && c !in chains
    ensures forall i :: StoppedSoFar(f, chains, todo - {c}, i) <==> StoppedSoFar(f, chains, todo, i) || i == f.active[c]
    ensures !StoppedSoFar(f, chains, todo, f.active[c])
  {
    forall i ensures StoppedSoFar(f, chains, todo - {c}, i) <==> StoppedSoFar(f, chains, todo, i) || i == f.active[c] {
      if StoppedSoFar(f, chains, todo, i) {
        var d :| d in f.active && d !in todo && d !in chains && f.active[d] == i;
        assert d !in todo - {c};
      }
    }
  }

  lemma KeepOne(f: Fleet, chains: seq<string>, todo: set<string>, c: string)
    requires c in chains
    ensures forall i :: StoppedSoFar(f, chains, todo - {c}, i) <==> StoppedSoFar(f, chains, todo, i)
  {
    forall i ensures StoppedSoFar(f, chains, todo - {c}, i) <==> StoppedSoFar(f, chains, todo, i) {
      if StoppedSoFar(f, chains, todo - {c}, i) {
        var d :| d in f.active && d !in todo - {c} && d !in chains && f.active[d] == i;
        assert d !in todo;
      }
    }
  }

  // ---------------------------------------------------------------- the early exit

  lemma {:induction false} RequiredSize(chains: seq<string>)
    ensures |Required(chains)| <= |chains|
  {
    if chains != [] {
      var n := |chains|;
      RequiredSize(chains[..n - 1]);
      assert chains == chains[..n - 1] + [chains[n - 1]];
      assert Required(chains) == Required(chains[..n - 1]) + {chains[n - 1]};
    }
  }

  lemma SubsetOfEqualSize(a: set<string>, b: set<string>)
    requires a <= b && |b| <= |a|
    ensures a == b
  {
    assert |b - a| == |b| - |a|;
  }

  /** The pigeonhole argument: a list as long as the active set that covers it names exactly the active chains. */
  lemma MatchMeansEqual(f: Fleet, chains: seq<string>)
    requires Matches(f, chains)
    ensures f.active.Keys == Required(chains)
  {
    RequiredSize(chains);
    assert |f.active| == |f.active.Keys|;
    SubsetOfEqualSize(f.active.Keys, Required(chains));
  }

  lemma {:induction false} StartAllIdle(f: Fleet, chains: seq<string>)
    requires forall c :: c in chains ==> c in f.active
    ensures StartAll(f, chains) == f
  {
    if chains != [] {
      StartAllIdle(f, chains[..|chains| - 1]);
    }
  }

  /** Whenever the early exit is taken, the full reconcile would have changed nothing. */
  lemma EarlyExitIsExact(f: Fleet, chains: seq<string>)
    requires Matches(f, chains)
    ensures FullReconcile(f, chains) == f
  {
    MatchMeansEqual(f, chains);
    var g := StopOthers(f, chains);
    assert g.active == f.active;
    assert g.workers == f.workers;
    forall c | c in chains ensures c in f.active {
      assert c in Required(chains);
    }
    StartAllIdle(f, chains);
  }

  // ---------------------------------------------------------------- what a reconcile achieves

  lemma StopOthersValid(f: Fleet, chains: seq<string>)
    requires Valid(f)
    ensures Valid(StopOthers(f, chains))
  {
    var g := StopOthers(f, chains);
    forall i | 0 <= i < |g.workers| ensures g.workers[i].cancels == if Runs(g, i) then 0 else 1 {
      if Leaving(f, chains, i) {
        var c :| c in f.active && c !in chains && f.active[c] == i;
        assert Runs(f, i);
        assert !Runs(g, i);
      } else if Runs(f, i) {
        var c :| c in f.active && f.active[c] == i;
        assert c in g.active && g.active[c] == i;
      } else {
        assert !Runs(g, i);
      }
    }
  }

  lemma StartOneValid(f: Fleet, chain: string)
    requires Valid(f)
    ensures Valid(StartOne(f, chain))
  {
    var g := StartOne(f, chain);
    if g != f {
      assert g.active[chain] == |f.workers|;
      forall i | 0 <= i < |g.workers| ensures g.workers[i].cancels == if Runs(g, i) then 0 else 1 {
        if i < |f.workers| && Runs(f, i) {
          var c :| c in f.active && f.active[c] == i;
          assert c in g.active && g.active[c] == i;
        }
      }
    }
  }

  lemma {:induction false} StartAllValid(f: Fleet, chains: seq<string>)
    requires Valid(f)
    ensures Valid(StartAll(f, chains))
  {
    if chains != [] {
      var n := |chains|;
      StartAllValid(f, chains[..n - 1]);
      StartOneValid(StartAll(f, chains[..n - 1]), chains[n - 1]);
    }
  }

  /** Running chains keep their worker; no worker record of the past changes. */
  lemma {:induction false} StartAllKeeps(f: Fleet, chains: seq<string>)
    ensures f.workers <= StartAll(f, chains).workers
    ensures forall c :: c in f.active ==> c in StartAll(f, chains).active && StartAll(f, chains).active[c] == f.active[c]
  {
    if chains != [] {
      StartAllKeeps(f, chains[..|chains| - 1]);
    }
  }

  lemma WantedAppend(table: set<string>, chains: seq<string>, c: string)
    ensures Wanted(table, chains + [c]) == Wanted(table, chains) + (if Supports(table, c) then {c} else {})
  {
  }

  lemma StartOneAdds(f: Fleet, c: string)
    ensures StartOne(f, c).table == f.table
    ensures StartOne(f, c).active.Keys == f.active.Keys + (if Supports(f.table, c) then {c} else {})
  {
  }

  lemma SetAssoc(a: set<string>, b: set<string>, c: set<string>)
    ensures (a + b) + c == a + (b + c)
  {
  }

  lemma {:induction false} StartAllAdds(f: Fleet, chains: seq<string>)
    ensures StartAll(f, chains).table == f.table
    ensures StartAll(f, chains).active.Keys == f.active.Keys + Wanted(f.table, chains)
  {
    if chains == [] {
      assert Wanted(f.table, chains) == {};
    } else {
      var n := |chains|;
      var (init, c) := (chains[..n - 1], chains[n - 1]);
      var g := StartAll(f, init);
      StartAllAdds(f, init);
      StartOneAdds(g, c);
      assert chains == init + [c];
      WantedAppend(f.table, init, c);
      SetAssoc(f.active.Keys, Wanted(f.table, init), if Supports(f.table, c) then {c} else {});
    }
  }

  /** Each start sleeps two seconds per chain active at that moment. */
  lemma {:induction false} StartAllSleeps(f: Fleet, chains: seq<string>)
    ensures var g := StartAll(f, chains);
            && |f.active| <= |g.active|
            && |g.workers| - |f.workers| == |g.active| - |f.active|
            && g.seconds - f.seconds == |g.active| * (|g.active| - 1) - |f.active| * (|f.active| - 1)
  {
    if chains != [] {
      StartAllSleeps(f, chains[..|chains| - 1]);
      SleepOne(StartAll(f, chains[..|chains| - 1]), chains[|chains| - 1]);
    }
  }

  lemma SleepOne(f: Fleet, chain: string)
    ensures var g := StartOne(f, chain);
            && |g.active| == |f.active| + (if chain in f.active || !Supports(f.table, chain) then 0 else 1)
            && |g.workers| - |f.workers| == |g.active| - |f.active|
            && g.seconds - f.seconds == |g.active| * (|g.active| - 1) - |f.active| * (|f.active| - 1)
  {
  }

  /** The chains that stay, and those that are started. */
  ghost function Survivors(f: Fleet, chains: seq<string>): set<string> {
    set c | c in f.active && c in chains
  }

  ghost function Wanted(table: set<string>, chains: seq<string>): set<string> {
    set c | c in chains && Supports(table, c)
  }

  /**
   * After a reconcile the active chains are exactly the required ones that are supported, whatever duplicates,
   * unsupported names or letter case the list has; the bookkeeping of workers is still exact.
   */
  lemma ReconcileReachesRequired(f: Fleet, chains: seq<string>)
    requires Valid(f)
    ensures Valid(Reconcile(f, chains)) && Reconcile(f, chains).table == f.table
    ensures Reconcile(f, chains).active.Keys == Wanted(f.table, chains)
  {
    if Matches(f, chains) {
      EarlyExitIsExact(f, chains);
    }
    var g := StopOthers(f, chains);
    StopOthersValid(f, chains);
    StartAllValid(g, chains);
    StartAllAdds(g, chains);
  }

  /** On the lists that the order query produces: supported lower-case symbols. */
  lemma ReconcileReachesList(f: Fleet, chains: seq<string>)
    requires Valid(f)
    requires forall c :: c in chains ==> IsLower(c) && c in f.table
    ensures Reconcile(f, chains).active.Keys == Required(chains)
  {
    ReconcileReachesRequired(f, chains);
  }

  /** A chain that stays required keeps its very worker; its number never reappears for another chain. */
  lemma SurvivorsAreNotRestarted(f: Fleet, chains: seq<string>, c: string)
    requires Valid(f) && c in f.active && c in chains
    ensures var g := Reconcile(f, chains);
            && c in g.active && g.active[c] == f.active[c] < |g.workers|
            && g.workers[g.active[c]] == f.workers[f.active[c]]
  {
    if !Matches(f, chains) {
      var g := StopOthers(f, chains);
      StartAllKeeps(g, chains);
      assert !Leaving(f, chains, f.active[c]);
    }
  }

  /** A chain that is no longer required has its worker cancelled exactly once, never again by later reconciles. */
  lemma LeaversAreCancelledOnce(f: Fleet, chains: seq<string>, c: string)
    requires Valid(f) && c in f.active && c !in chains
    ensures var g := Reconcile(f, chains);
            c !in g.active && f.active[c] < |g.workers|
            && f.workers[f.active[c]].cancels == 0 && g.workers[f.active[c]].cancels == 1
  {
    assert Runs(f, f.active[c]);
    MatchExcludes(f, chains, c);
    var g := StopOthers(f, chains);
    StartAllKeeps(g, chains);
    StartAllAdds(g, chains);
    assert Leaving(f, chains, f.active[c]);
  }

  lemma MatchExcludes(f: Fleet, chains: seq<string>, c: string)
    requires c in f.active && c !in chains
    ensures !Matches(f, chains)
  {
  }

  /** Starting k new chains beside n survivors sleeps k * (2n + k - 1) seconds. */
  lemma StartupDelay(f: Fleet, chains: seq<string>)
    ensures var n := |Survivors(f, chains)|;
            var k := |Wanted(f.table, chains) - f.active.Keys|;
            Reconcile(f, chains).seconds - f.seconds == k * (2 * n + k - 1)
  {
    var (n, k) := (|Survivors(f, chains)|, |Wanted(f.table, chains) - f.active.Keys|);
    EitherWayFull(f, chains);
    FullDelay(f, chains, n, k);
    SumOfDelays(n, k);
  }

  lemma EitherWayFull(f: Fleet, chains: seq<string>)
    ensures Reconcile(f, chains) == FullReconcile(f, chains)
  {
    if Matches(f, chains) {
      EarlyExitIsExact(f, chains);
    }
  }

  lemma FullDelay(f: Fleet, chains: seq<string>, n: nat, k: nat)
    requires n == |Survivors(f, chains)| && k == |Wanted(f.table, chains) - f.active.Keys|
    ensures FullReconcile(f, chains).seconds - f.seconds == (n + k) * (n + k - 1) - n * (n - 1)
  {
    KeysAfter(f, chains);
    StartAllSleeps(StopOthers(f, chains), chains);
  }

  lemma DisjointSizes(a: set<string>, b: set<string>)
    requires a !! b
    ensures |a + b| == |a| + |b|
  {
  }

  lemma StayersAre(f: Fleet, chains: seq<string>)
    ensures StopOthers(f, chains).active.Keys == Survivors(f, chains)
    ensures StopOthers(f, chains).table == f.table
  {
  }

  lemma StartersAre(f: Fleet, chains: seq<string>)
    ensures Survivors(f, chains) + Wanted(f.table, chains) == Survivors(f, chains) + (Wanted(f.table, chains) - f.active.Keys)
    ensures Survivors(f, chains) !! (Wanted(f.table, chains) - f.active.Keys)
  {
  }

  lemma KeysAfter(f: Fleet, chains: seq<string>)
    ensures |StopOthers(f, chains).active| == |Survivors(f, chains)|
    ensures |FullReconcile(f, chains).active| == |Survivors(f, chains)| + |Wanted(f.table, chains) - f.active.Keys|
  {
    StayersAre(f, chains);
    StartersAre(f, chains);
    StartAllAdds(StopOthers(f, chains), chains);
    DisjointSizes(Survivors(f, chains), Wanted(f.table, chains) - f.active.Keys);
    SizeIsKeys(StopOthers(f, chains).active);
    SizeIsKeys(FullReconcile(f, chains).active);
  }

  lemma SizeIsKeys(m: map<string, nat>)
    ensures |m| == |m.Keys|
  {
  }

  lemma SumOfDelays(n: int, k: int)
    ensures (n + k) * (n + k - 1) - n * (n - 1) == k * (2 * n + k - 1)
  {
  }

  // ---------------------------------------------------------------- runs

  function AfterChecks(checks: seq<seq<string>>): Fleet {
    if checks == [] then Fleet(SUPPORTED, map[], [], 0)
    else Reconcile(AfterChecks(checks[..|checks| - 1]), checks[|checks| - 1])
  }

  lemma {:induction false} ChecksKeepValid(checks: seq<seq<string>>)
    ensures Valid(AfterChecks(checks)) && AfterChecks(checks).table == SUPPORTED
    ensures checks != [] ==> AfterChecks(checks).active.Keys == Wanted(SUPPORTED, checks[|checks| - 1])
  {
    if checks != [] {
      var n := |checks|;
      ChecksKeepValid(checks[..n - 1]);
      ReconcileReachesRequired(AfterChecks(checks[..n - 1]), checks[n - 1]);
    }
  }

  /**
   * Over any sequence of checks: the workers started and never cancelled are exactly those of the active
   * chains, every other one was cancelled exactly once, and the active chains are the supported ones of the last check.
   * Stopping all chains then leaves every worker ever started cancelled exactly once.
   */
  lemma WorkersOverRuns(checks: seq<seq<string>>)
    ensures Valid(AfterChecks(checks))
    ensures checks != [] ==>
              forall c :: c in AfterChecks(checks).active <==>
                          c in checks[|checks| - 1] && Lower(c) in {"eth", "matic", "op", "bsc"}
    ensures var g := StopOthers(AfterChecks(checks), []);
            g.active == map[] && forall i :: 0 <= i < |g.workers| ==> g.workers[i].cancels == 1
  {
    ChecksKeepValid(checks);
    StopOthersValid(AfterChecks(checks), []);
  }
}
