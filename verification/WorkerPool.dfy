/**
 * The fan-out/fan-in pool shared by the btc, sol and trx workers: main sends every account over a buffered
 * channel and closes it, min(maxWorkers, n) goroutines drain it, and main collects n results. One Action is
 * one indivisible step of one goroutine; a schedule is any sequence of enabled actions.
 */
module WorkerPool {
  import opened Common

  datatype Account = Account(id: nat, walletAddress: string)

  /** What a worker sends on the results channel: nil or an error, kept here with its account. */
  datatype Outcome = Outcome(account: Account, ok: bool)

  datatype Worker = Idle | Busy(account: Account) | Reporting(done: Outcome) | Exited

  datatype Main = Sending(next: nat) | Collecting | Returned

  datatype Pool = Pool(
    main: Main,
    jobs: seq<Account>,
    closed: bool,
    workers: seq<Worker>,
    results: seq<Outcome>,
    collected: seq<Outcome>,
    successCount: nat,
    errorCount: nat)

  datatype Action =
    | Send
    | Close
    | Take(w: nat)
    | Process(w: nat, ok: bool)
    | Report(w: nat)
    | Exit(w: nat)
    | Collect
    | Return

  function WorkerCount(n: nat, maxWorkers: nat): nat {
    if n < maxWorkers then n else maxWorkers
  }

  function Init(accounts: seq<Account>, maxWorkers: nat): Pool {
    if accounts == [] then
      Pool(Returned, [], true, [], [], [], 0, 0)
    else
      Pool(Sending(0), [], false, seq(WorkerCount(|accounts|, maxWorkers), _ => Idle), [], [], 0, 0)
  }

  /** Both channels have capacity |accounts|, so a full channel blocks its sender. */
  predicate Enabled(accounts: seq<Account>, s: Pool, act: Action) {
    match act
    case Send => s.main.Sending? && s.main.next < |accounts| && |s.jobs| < |accounts|
    case Close => s.main.Sending? && s.main.next == |accounts|
    case Take(w) => w < |s.workers| && s.workers[w].Idle? && s.jobs != []
    case Process(w, _) => w < |s.workers| && s.workers[w].Busy?
    case Report(w) => w < |s.workers| && s.workers[w].Reporting? && |s.results| < |accounts|
    case Exit(w) => w < |s.workers| && s.workers[w].Idle? && s.closed && s.jobs == []
    case Collect => s.main.Collecting? && |s.collected| < |accounts| && s.results != []
    case Return => s.main.Collecting? && |s.collected| == |accounts|
  }

  function Apply(accounts: seq<Account>, s: Pool, act: Action): Pool
    requires Enabled(accounts, s, act)
  {
    match act
    case Send => s.(jobs := s.jobs + [accounts[s.main.next]], main := Sending(s.main.next + 1))
    case Close => s.(closed := true, main := Collecting)
    case Take(w) => s.(workers := s.workers[w := Busy(s.jobs[0])], jobs := s.jobs[1..])
    case Process(w, ok) => s.(workers := s.workers[w := Reporting(Outcome(s.workers[w].account, ok))])
    case Report(w) => s.(workers := s.workers[w := Idle], results := s.results + [s.workers[w].done])
    case Exit(w) => s.(workers := s.workers[w := Exited])
    case Collect =>
      var r := s.results[0];
      s.(results := s.results[1..], collected := s.collected + [r],
         successCount := if r.ok then s.successCount + 1 else s.successCount,
         errorCount := if r.ok then s.errorCount else s.errorCount + 1)
    case Return => s.(main := Returned)
  }

  // ---------------------------------------------------------------- what a state holds

  ghost function Accounts(os: seq<Outcome>): multiset<Account> {
    if os == [] then multiset{} else Accounts(os[..|os| - 1]) + multiset{os[|os| - 1].account}
  }

  ghost function Held(w: Worker): multiset<Account> {
    match w
    case Busy(a) => multiset{a}
    case Reporting(o) => multiset{o.account}
    case _ => multiset{}
  }

  ghost function InFlight(ws: seq<Worker>): multiset<Account> {
    if ws == [] then multiset{} else InFlight(ws[..|ws| - 1]) + Held(ws[|ws| - 1])
  }

  function Successes(os: seq<Outcome>): nat {
    if os == [] then 0 else Successes(os[..|os| - 1]) + (if os[|os| - 1].ok then 1 else 0)
  }

  function SentCount(accounts: seq<Account>, s: Pool): nat {
    if s.main.Sending? then s.main.next else |accounts|
  }

  /** Queued + in flight + in results + collected. */
  ghost function Contents(s: Pool): multiset<Account> {
    multiset(s.jobs) + InFlight(s.workers) + Accounts(s.results) + Accounts(s.collected)
  }

  /** Conservation: the accounts sent so far are exactly the pool's contents. */
  ghost predicate Conserved(accounts: seq<Account>, s: Pool) {
    Holds(accounts, SentCount(accounts, s), Contents(s))
  }

  /** Who may be where: exited workers only after a drained close, and what the counters mean. */
  ghost predicate Orderly(accounts: seq<Account>, s: Pool) {
    && (s.closed <==> !s.main.Sending?)
    && (forall w :: 0 <= w < |s.workers| && s.workers[w].Exited? ==> s.closed && s.jobs == [])
    && (s.main.Returned? ==> |s.collected| == |accounts|)
    && (accounts != [] ==> s.workers != [])
    && s.successCount == Successes(s.collected)
    && s.successCount + s.errorCount == |s.collected|
  }

  ghost predicate Inv(accounts: seq<Account>, s: Pool) {
    Conserved(accounts, s) && Orderly(accounts, s)
  }

  lemma AccountsAppend(os: seq<Outcome>, o: Outcome)
    ensures Accounts(os + [o]) == Accounts(os) + multiset{o.account}
    ensures Successes(os + [o]) == Successes(os) + (if o.ok then 1 else 0)
  {
    assert (os + [o])[..|os|] == os;
  }

  lemma {:induction false} AccountsHead(os: seq<Outcome>)
    requires os != []
    ensures Accounts(os) == multiset{os[0].account} + Accounts(os[1..])
  {
    var n := |os|;
    if n == 1 {
      assert os[..0] == [] && os[1..] == [];
    } else {
      var (mid, last) := (os[..n - 1][1..], os[n - 1]);
      AccountsHead(os[..n - 1]);
      assert os[1..] == mid + [last];
      AccountsAppend(mid, last);
      AddAssoc(multiset{os[0].account}, Accounts(mid), multiset{last.account});
    }
  }

  lemma {:induction false} AccountsSize(os: seq<Outcome>)
    ensures |Accounts(os)| == |os|
  {
    if os != [] {
      AccountsSize(os[..|os| - 1]);
    }
  }

  lemma {:induction false} InFlightIsFold(ws: seq<Worker>)
    ensures InFlight(ws) == Fold(Held, multiset{}, AddBags, ws)
  {
    if ws != [] {
      InFlightIsFold(ws[..|ws| - 1]);
    }
  }

  lemma InFlightUpdate(ws: seq<Worker>, w: nat, x: Worker)
    requires w < |ws|
    ensures InFlight(ws[w := x]) + Held(ws[w]) == InFlight(ws) + Held(x)
  {
    InFlightIsFold(ws);
    InFlightIsFold(ws[w := x]);
    BagsSwap<Account>();
    FoldUpdate(Held, multiset{}, AddBags, ws, w, x);
  }

  lemma {:induction false} AllIdleHoldNothing(ws: seq<Worker>)
    requires forall w :: 0 <= w < |ws| ==> ws[w].Idle? || ws[w].Exited?
    ensures InFlight(ws) == multiset{}
  {
    if ws != [] {
      AllIdleHoldNothing(ws[..|ws| - 1]);
    }
  }

  lemma HeadTail(jobs: seq<Account>)
    requires jobs != []
    ensures multiset(jobs) == multiset{jobs[0]} + multiset(jobs[1..])
  {
    assert jobs == [jobs[0]] + jobs[1..];
  }

  lemma InvInit(accounts: seq<Account>, maxWorkers: nat)
    requires 0 < maxWorkers
    ensures Inv(accounts, Init(accounts, maxWorkers))
  {
    AllIdleHoldNothing(Init(accounts, maxWorkers).workers);
    assert accounts[..0] == [];
  }

  lemma TakeKeepsContents(accounts: seq<Account>, s: Pool, w: nat)
    requires Enabled(accounts, s, Take(w))
    ensures Contents(Apply(accounts, s, Take(w))) == Contents(s)
  {
    var t := Apply(accounts, s, Take(w));
    HeadTail(s.jobs);
    InFlightUpdate(s.workers, w, Busy(s.jobs[0]));
    assert InFlight(t.workers) == InFlight(s.workers) + multiset{s.jobs[0]};
    assert multiset(t.jobs) + InFlight(t.workers) == multiset(s.jobs) + InFlight(s.workers);
  }

  lemma WorkerChangeKeepsContents(s: Pool, w: nat, x: Worker)
    requires w < |s.workers| && Held(x) == Held(s.workers[w])
    ensures Contents(s.(workers := s.workers[w := x])) == Contents(s)
  {
    InFlightUpdate(s.workers, w, x);
    Cancel(InFlight(s.workers[w := x]), InFlight(s.workers), Held(x));
  }

  lemma ReportKeepsContents(accounts: seq<Account>, s: Pool, w: nat)
    requires Enabled(accounts, s, Report(w))
    ensures Contents(Apply(accounts, s, Report(w))) == Contents(s)
  {
    var t := Apply(accounts, s, Report(w));
    var o := s.workers[w].done;
    InFlightUpdate(s.workers, w, Idle);
    AccountsAppend(s.results, o);
    assert InFlight(t.workers) + multiset{o.account} == InFlight(s.workers);
    assert InFlight(t.workers) + Accounts(t.results) == InFlight(s.workers) + Accounts(s.results);
  }

  lemma CollectKeepsContents(accounts: seq<Account>, s: Pool)
    requires Enabled(accounts, s, Collect)
    ensures Contents(Apply(accounts, s, Collect)) == Contents(s)
  {
    AccountsHead(s.results);
    AccountsAppend(s.collected, s.results[0]);
  }

  lemma OnlySendChangesContents(accounts: seq<Account>, s: Pool, act: Action)
    requires Enabled(accounts, s, act) && act != Send
    ensures Contents(Apply(accounts, s, act)) == Contents(s)
  {
    match act {
      case Take(w) => TakeKeepsContents(accounts, s, w);
      case Process(w, ok) => WorkerChangeKeepsContents(s, w, Reporting(Outcome(s.workers[w].account, ok)));
      case Report(w) => ReportKeepsContents(accounts, s, w);
      case Exit(w) => WorkerChangeKeepsContents(s, w, Exited);
      case Collect => CollectKeepsContents(accounts, s);
      case _ =>
    }
  }

  lemma SendAddsContents(accounts: seq<Account>, s: Pool)
    requires Enabled(accounts, s, Send)
    ensures Contents(Apply(accounts, s, Send)) == Contents(s) + multiset{accounts[s.main.next]}
  {
    var (a, b, c) := (InFlight(s.workers), Accounts(s.results), Accounts(s.collected));
    AddInFront(multiset(s.jobs), multiset{accounts[s.main.next]}, a, b, c);
  }

  lemma AddInFront<T>(j: multiset<T>, x: multiset<T>, a: multiset<T>, b: multiset<T>, c: multiset<T>)
    ensures (j + x) + a + b + c == (j + a + b + c) + x
  {
  }

  /** Conservation, with the number of accounts sent and the contents named. */
  ghost predicate Holds(accounts: seq<Account>, sent: nat, contents: multiset<Account>) {
    sent <= |accounts| && multiset(accounts[..sent]) == contents
  }

  lemma SentOneMore(accounts: seq<Account>, k: nat, before: multiset<Account>)
    requires k < |accounts| && Holds(accounts, k, before)
    ensures Holds(accounts, k + 1, before + multiset{accounts[k]})
  {
    assert accounts[..k + 1] == accounts[..k] + [accounts[k]];
  }

  lemma SendConserves(accounts: seq<Account>, s: Pool)
    requires Conserved(accounts, s) && Enabled(accounts, s, Send)
    ensures Conserved(accounts, Apply(accounts, s, Send))
  {
    SendAddsContents(accounts, s);
    SentOneMore(accounts, s.main.next, Contents(s));
  }

  lemma ConservedStep(accounts: seq<Account>, s: Pool, act: Action)
    requires Conserved(accounts, s) && Enabled(accounts, s, act)
    ensures Conserved(accounts, Apply(accounts, s, act))
  {
    if act == Send {
      SendConserves(accounts, s);
    } else {
      OnlySendChangesContents(accounts, s, act);
      assert SentCount(accounts, Apply(accounts, s, act)) == SentCount(accounts, s);
    }
  }

  lemma CollectIsOrderly(accounts: seq<Account>, s: Pool)
    requires Orderly(accounts, s) && Enabled(accounts, s, Collect)
    ensures Orderly(accounts, Apply(accounts, s, Collect))
  {
    AccountsAppend(s.collected, s.results[0]);
  }

  lemma OrderlyStep(accounts: seq<Account>, s: Pool, act: Action)
    requires Orderly(accounts, s) && Enabled(accounts, s, act)
    ensures Orderly(accounts, Apply(accounts, s, act))
  {
    if act == Collect {
      CollectIsOrderly(accounts, s);
    }
  }

  lemma InvStep(accounts: seq<Account>, s: Pool, act: Action)
    requires Inv(accounts, s) && Enabled(accounts, s, act)
    ensures Inv(accounts, Apply(accounts, s, act))
  {
    ConservedStep(accounts, s, act);
    OrderlyStep(accounts, s, act);
  }

  // ---------------------------------------------------------------- schedules

  predicate Legal(accounts: seq<Account>, s: Pool, acts: seq<Action>)
    decreases |acts|
  {
    acts == [] || (Enabled(accounts, s, acts[0]) && Legal(accounts, Apply(accounts, s, acts[0]), acts[1..]))
  }

  function Exec(accounts: seq<Account>, s: Pool, acts: seq<Action>): Pool
    requires Legal(accounts, s, acts)
    decreases |acts|
  {
    if acts == [] then s else Exec(accounts, Apply(accounts, s, acts[0]), acts[1..])
  }

  ghost function ProcessedBy(accounts: seq<Account>, s: Pool, act: Action): multiset<Outcome>
    requires Enabled(accounts, s, act)
  {
    if act.Process? then multiset{Outcome(s.workers[act.w].account, act.ok)} else multiset{}
  }

  /** The outcomes produced along a schedule, one per Process action. */
  ghost function Processed(accounts: seq<Account>, s: Pool, acts: seq<Action>): multiset<Outcome>
    requires Legal(accounts, s, acts)
    decreases |acts|
  {
    if acts == [] then multiset{}
    else
      ProcessedBy(accounts, s, acts[0]) + Processed(accounts, Apply(accounts, s, acts[0]), acts[1..])
  }

  lemma {:induction false} ReachableInv(accounts: seq<Account>, s: Pool, acts: seq<Action>)
    requires Inv(accounts, s) && Legal(accounts, s, acts)
    ensures Inv(accounts, Exec(accounts, s, acts))
    decreases |acts|
  {
    if acts != [] {
      InvStep(accounts, s, acts[0]);
      ReachableInv(accounts, Apply(accounts, s, acts[0]), acts[1..]);
    }
  }

  /** Every reachable state of every interleaving accounts for every sent account exactly once. */
  lemma ConservationInEveryInterleaving(accounts: seq<Account>, maxWorkers: nat, acts: seq<Action>, s: Pool)
    requires 0 < maxWorkers
    requires Legal(accounts, Init(accounts, maxWorkers), acts) && s == Exec(accounts, Init(accounts, maxWorkers), acts)
    ensures Conserved(accounts, s)
    ensures s.successCount == Successes(s.collected) && s.successCount + s.errorCount == |s.collected|
  {
    InvInit(accounts, maxWorkers);
    ReachableInv(accounts, Init(accounts, maxWorkers), acts);
  }

  // ---------------------------------------------------------------- progress and termination

  /** Main has returned and every goroutine has left its range loop. */
  predicate Final(s: Pool) {
    s.main.Returned? && forall w :: 0 <= w < |s.workers| ==> s.workers[w].Exited?
  }

  function WorkerSteps(w: Worker): nat {
    match w
    case Idle => 1
    case Busy(_) => 4
    case Reporting(_) => 3
    case Exited => 0
  }

  function AllWorkerSteps(ws: seq<Worker>): nat {
    if ws == [] then 0 else AllWorkerSteps(ws[..|ws| - 1]) + WorkerSteps(ws[|ws| - 1])
  }

  /** Steps still to be taken: five per unsent account, four per queued one, and so on. */
  function StepsLeft(accounts: seq<Account>, s: Pool): int {
    5 * (|accounts| - SentCount(accounts, s)) + 4 * |s.jobs| + AllWorkerSteps(s.workers) + |s.results|
    + (match s.main case Sending(_) => 2 case Collecting => 1 case Returned => 0)
  }

  lemma {:induction false} WorkerStepsAreFold(ws: seq<Worker>)
    ensures AllWorkerSteps(ws) == Fold(w => WorkerSteps(w), 0, (m: int, n: int) => m + n, ws)
  {
    if ws != [] {
      WorkerStepsAreFold(ws[..|ws| - 1]);
    }
  }

  lemma WorkerStepsUpdate(ws: seq<Worker>, w: nat, x: Worker)
    requires w < |ws|
    ensures AllWorkerSteps(ws[w := x]) + WorkerSteps(ws[w]) == AllWorkerSteps(ws) + WorkerSteps(x)
  {
    WorkerStepsAreFold(ws);
    WorkerStepsAreFold(ws[w := x]);
    FoldUpdate(w => WorkerSteps(w), 0, (m: int, n: int) => m + n, ws, w, x);
  }

  /** Every step of every goroutine uses up exactly one. */
  lemma StepsLeftDropsByOne(accounts: seq<Account>, s: Pool, act: Action)
    requires Enabled(accounts, s, act)
    ensures StepsLeft(accounts, Apply(accounts, s, act)) == StepsLeft(accounts, s) - 1
  {
    var t := Apply(accounts, s, act);
    match act {
      case Take(w) => WorkerStepsUpdate(s.workers, w, t.workers[w]);
      case Process(w, ok) => WorkerStepsUpdate(s.workers, w, t.workers[w]);
      case Report(w) => WorkerStepsUpdate(s.workers, w, t.workers[w]);
      case Exit(w) => WorkerStepsUpdate(s.workers, w, t.workers[w]);
      case _ =>
    }
  }

  lemma {:induction false} StepsAlongSchedule(accounts: seq<Account>, s: Pool, acts: seq<Action>)
    requires Legal(accounts, s, acts)
    ensures StepsLeft(accounts, Exec(accounts, s, acts)) == StepsLeft(accounts, s) - |acts|
    decreases |acts|
  {
    if acts != [] {
      StepsLeftDropsByOne(accounts, s, acts[0]);
      StepsAlongSchedule(accounts, Apply(accounts, s, acts[0]), acts[1..]);
    }
  }

  lemma {:induction false} IdleSteps(n: nat)
    ensures AllWorkerSteps(seq(n, _ => Idle)) == n
  {
    if n > 0 {
      IdleSteps(n - 1);
      assert seq(n, _ => Idle)[..n - 1] == seq(n - 1, _ => Idle);
    }
  }

  lemma {:induction false} ExitedSteps(ws: seq<Worker>)
    requires forall w :: 0 <= w < |ws| ==> ws[w].Exited?
    ensures AllWorkerSteps(ws) == 0
  {
    if ws != [] {
      ExitedSteps(ws[..|ws| - 1]);
    }
  }

  lemma {:induction false} HolderInFlight(ws: seq<Worker>, w: nat)
    requires w < |ws|
    ensures Held(ws[w]) <= InFlight(ws)
  {
    if w < |ws| - 1 {
      HolderInFlight(ws[..|ws| - 1], w);
    }
  }

  lemma InvSizes(accounts: seq<Account>, s: Pool)
    requires Inv(accounts, s)
    ensures SentCount(accounts, s) == |s.jobs| + |InFlight(s.workers)| + |s.results| + |s.collected|
  {
    AccountsSize(s.results);
    AccountsSize(s.collected);
    var k := SentCount(accounts, s);
    assert |multiset(accounts[..k])| == k;
  }

  lemma ReportIsEnabled(accounts: seq<Account>, s: Pool, w: nat)
    requires Inv(accounts, s) && w < |s.workers| && s.workers[w].Reporting?
    ensures Enabled(accounts, s, Report(w))
  {
    InvSizes(accounts, s);
    HolderInFlight(s.workers, w);
    assert s.workers[w].done.account in Held(s.workers[w]);
    assert InFlight(s.workers) != multiset{};
  }

  lemma NoDeadlock(accounts: seq<Account>, s: Pool) returns (act: Action)
    requires Inv(accounts, s) && !Final(s)
    ensures Enabled(accounts, s, act)
  {
    InvSizes(accounts, s);
    if w :| 0 <= w < |s.workers| && s.workers[w].Busy? {
      act := Process(w, true);
    } else if w :| 0 <= w < |s.workers| && s.workers[w].Reporting? {
      ReportIsEnabled(accounts, s, w);
      act := Report(w);
    } else {
      AllIdleHoldNothing(s.workers);
      if s.main.Sending? {
        act := if s.main.next < |accounts| then Send else Close;
      } else if s.main.Collecting? && |s.collected| == |accounts| {
        act := Return;
      } else if s.main.Collecting? && s.results != [] {
        act := Collect;
      } else if s.main.Collecting? {
        act := Take(0);
      } else {
        var w :| 0 <= w < |s.workers| && !s.workers[w].Exited?;
        act := Exit(w);
      }
    }
  }

  lemma InitSteps(accounts: seq<Account>, maxWorkers: nat)
    requires accounts != []
    ensures StepsLeft(accounts, Init(accounts, maxWorkers)) == 5 * |accounts| + WorkerCount(|accounts|, maxWorkers) + 2
  {
    IdleSteps(WorkerCount(|accounts|, maxWorkers));
  }

  /** In a reachable state, "finished", "nothing enabled" and "no steps left" are the same thing. */
  lemma FinalIffNoStepsLeft(accounts: seq<Account>, s: Pool)
    requires Inv(accounts, s)
    ensures Final(s) <==> StepsLeft(accounts, s) == 0
    ensures Final(s) <==> forall act :: !Enabled(accounts, s, act)
    ensures 0 <= StepsLeft(accounts, s)
  {
    if Final(s) {
      ExitedSteps(s.workers);
      AllHandled(accounts, s);
    } else {
      var act := NoDeadlock(accounts, s);
      ConservedStep(accounts, s, act);
      StepsLeftDropsByOne(accounts, s, act);
    }
  }

  /**
   * No interleaving can get stuck, and all of them have the same length: a schedule is complete
   * if and only if it has taken 5n + min(maxWorkers, n) + 2 steps; none is longer.
   */
  lemma EveryInterleavingTerminates(accounts: seq<Account>, maxWorkers: nat, acts: seq<Action>, s: Pool)
    requires 0 < maxWorkers && accounts != []
    requires Legal(accounts, Init(accounts, maxWorkers), acts) && s == Exec(accounts, Init(accounts, maxWorkers), acts)
    ensures |acts| <= 5 * |accounts| + WorkerCount(|accounts|, maxWorkers) + 2
    ensures Final(s) <==> |acts| == 5 * |accounts| + WorkerCount(|accounts|, maxWorkers) + 2
    ensures Final(s) <==> forall act :: !Enabled(accounts, s, act)
  {
    InvInit(accounts, maxWorkers);
    ReachableInv(accounts, Init(accounts, maxWorkers), acts);
    InitSteps(accounts, maxWorkers);
    StepsAlongSchedule(accounts, Init(accounts, maxWorkers), acts);
    FinalIffNoStepsLeft(accounts, s);
  }

  /** Once main has returned nothing is queued, in flight or uncollected. */
  lemma AllHandled(accounts: seq<Account>, s: Pool)
    requires Inv(accounts, s) && s.main.Returned?
    ensures s.jobs == [] && s.results == [] && InFlight(s.workers) == multiset{}
    ensures Accounts(s.collected) == multiset(accounts)
  {
    InvSizes(accounts, s);
    assert accounts[..|accounts|] == accounts;
    assert |InFlight(s.workers)| == 0;
  }

  // ---------------------------------------------------------------- exactly once

  ghost function HeldOutcome(w: Worker): multiset<Outcome> {
    if w.Reporting? then multiset{w.done} else multiset{}
  }

  ghost function ReportingOutcomes(ws: seq<Worker>): multiset<Outcome> {
    if ws == [] then multiset{} else ReportingOutcomes(ws[..|ws| - 1]) + HeldOutcome(ws[|ws| - 1])
  }

  lemma {:induction false} ReportingIsFold(ws: seq<Worker>)
    ensures ReportingOutcomes(ws) == Fold(HeldOutcome, multiset{}, AddBags, ws)
  {
    if ws != [] {
      ReportingIsFold(ws[..|ws| - 1]);
    }
  }

  lemma ReportingUpdate(ws: seq<Worker>, w: nat, x: Worker)
    requires w < |ws|
    ensures ReportingOutcomes(ws[w := x]) + HeldOutcome(ws[w]) == ReportingOutcomes(ws) + HeldOutcome(x)
  {
    ReportingIsFold(ws);
    ReportingIsFold(ws[w := x]);
    BagsSwap<Outcome>();
    FoldUpdate(HeldOutcome, multiset{}, AddBags, ws, w, x);
  }

  /** Outcomes that exist in a state, wherever they are. */
  ghost function Produced(s: Pool): multiset<Outcome> {
    ReportingOutcomes(s.workers) + multiset(s.results) + multiset(s.collected)
  }

  lemma ReportKeepsProduced(accounts: seq<Account>, s: Pool, w: nat)
    requires Enabled(accounts, s, Report(w))
    ensures Produced(Apply(accounts, s, Report(w))) == Produced(s)
  {
    var t := Apply(accounts, s, Report(w));
    ReportingUpdate(s.workers, w, Idle);
    assert ReportingOutcomes(t.workers) + multiset{s.workers[w].done} == ReportingOutcomes(s.workers);
    assert multiset(t.results) == multiset(s.results) + multiset{s.workers[w].done};
  }

  lemma WorkerChangeProduces(s: Pool, w: nat, x: Worker)
    requires w < |s.workers| && !s.workers[w].Reporting?
    ensures ReportingOutcomes(s.workers[w := x]) == ReportingOutcomes(s.workers) + HeldOutcome(x)
  {
    ReportingUpdate(s.workers, w, x);
    assert HeldOutcome(s.workers[w]) == multiset{};
  }

  lemma ProcessProduces(accounts: seq<Account>, s: Pool, w: nat, ok: bool)
    requires Enabled(accounts, s, Process(w, ok))
    ensures Produced(Apply(accounts, s, Process(w, ok)))
            == Produced(s) + multiset{Outcome(s.workers[w].account, ok)}
  {
    WorkerChangeProduces(s, w, Reporting(Outcome(s.workers[w].account, ok)));
  }

  lemma CollectKeepsProduced(accounts: seq<Account>, s: Pool)
    requires Enabled(accounts, s, Collect)
    ensures Produced(Apply(accounts, s, Collect)) == Produced(s)
  {
    assert s.results == [s.results[0]] + s.results[1..];
  }

  lemma ProducedStep(accounts: seq<Account>, s: Pool, act: Action)
    requires Enabled(accounts, s, act)
    ensures Produced(Apply(accounts, s, act)) == Produced(s) + ProcessedBy(accounts, s, act)
  {
    match act {
      case Take(w) => WorkerChangeProduces(s, w, Busy(s.jobs[0]));
      case Process(w, ok) => ProcessProduces(accounts, s, w, ok);
      case Report(w) => ReportKeepsProduced(accounts, s, w);
      case Exit(w) => WorkerChangeProduces(s, w, Exited);
      case Collect => CollectKeepsProduced(accounts, s);
      case _ =>
    }
  }

  lemma {:induction false} ProducedAlongSchedule(accounts: seq<Account>, s: Pool, acts: seq<Action>)
    requires Legal(accounts, s, acts)
    ensures Produced(Exec(accounts, s, acts)) == Produced(s) + Processed(accounts, s, acts)
    decreases |acts|
  {
    if acts != [] {
      ProducedStep(accounts, s, acts[0]);
      ProducedAlongSchedule(accounts, Apply(accounts, s, acts[0]), acts[1..]);
    }
  }

  lemma {:induction false} NothingReporting(ws: seq<Worker>)
    requires InFlight(ws) == multiset{}
    ensures ReportingOutcomes(ws) == multiset{}
  {
    if ws != [] {
      var x := ws[|ws| - 1];
      assert Held(x) == multiset{};
      assert HeldOutcome(x) == multiset{};
      NothingReporting(ws[..|ws| - 1]);
    }
  }

  lemma {:induction false} IdleReportNothing(n: nat)
    ensures ReportingOutcomes(seq(n, _ => Idle)) == multiset{}
  {
    if n > 0 {
      IdleReportNothing(n - 1);
      assert seq(n, _ => Idle)[..n - 1] == seq(n - 1, _ => Idle);
    }
  }

  lemma NothingProducedYet(accounts: seq<Account>, maxWorkers: nat)
    ensures Produced(Init(accounts, maxWorkers)) == multiset{}
  {
    IdleReportNothing(WorkerCount(|accounts|, maxWorkers));
  }

  lemma AllProducedIsCollected(accounts: seq<Account>, s: Pool)
    requires Inv(accounts, s) && s.main.Returned?
    ensures Produced(s) == multiset(s.collected)
  {
    AllHandled(accounts, s);
    NothingReporting(s.workers);
  }

  /**
   * When main returns, in whatever interleaving: the Process steps taken are exactly the collected outcomes,
   * their accounts are exactly the accounts given (each processed once), and successes + failures = n.
   */
  lemma EachAccountProcessedExactlyOnce(accounts: seq<Account>, maxWorkers: nat, acts: seq<Action>, s: Pool)
    requires 0 < maxWorkers
    requires Legal(accounts, Init(accounts, maxWorkers), acts) && s == Exec(accounts, Init(accounts, maxWorkers), acts)
    requires s.main.Returned?
    ensures Processed(accounts, Init(accounts, maxWorkers), acts) == multiset(s.collected)
    ensures Accounts(s.collected) == multiset(accounts)
    ensures s.successCount + s.errorCount == |accounts| && s.successCount == Successes(s.collected)
  {
    InvInit(accounts, maxWorkers);
    ReachableInv(accounts, Init(accounts, maxWorkers), acts);
    AllHandled(accounts, s);
    ProducedAlongSchedule(accounts, Init(accounts, maxWorkers), acts);
    NothingProducedYet(accounts, maxWorkers);
    AllProducedIsCollected(accounts, s);
  }

  // ---------------------------------------------------------------- the three callers

  /** How many accounts fail when account a's processing returns an error iff !outcome(a). */
  function Failures(accounts: seq<Account>, outcome: Account -> bool): nat {
    if accounts == [] then 0
    else Failures(accounts[..|accounts| - 1], outcome) + (if outcome(accounts[|accounts| - 1]) then 0 else 1)
  }

  lemma {:induction false} FailuresAreFold(accounts: seq<Account>, outcome: Account -> bool)
    ensures Failures(accounts, outcome)
            == Fold((a: Account) => if outcome(a) then 0 else 1, 0, (m: int, n: int) => m + n, accounts)
  {
    if accounts != [] {
      FailuresAreFold(accounts[..|accounts| - 1], outcome);
    }
  }

  /** The number of failures does not depend on the order in which results arrive. */
  lemma FailuresIgnoreOrder(xs: seq<Account>, ys: seq<Account>, outcome: Account -> bool)
    requires multiset(xs) == multiset(ys)
    ensures Failures(xs, outcome) == Failures(ys, outcome)
  {
    FailuresAreFold(xs, outcome);
    FailuresAreFold(ys, outcome);
    FoldIgnoresOrder((a: Account) => if outcome(a) then 0 else 1, 0, (m: int, n: int) => m + n, xs, ys);
  }

  ghost function AccountSeq(os: seq<Outcome>): seq<Account> {
    seq(|os|, i requires 0 <= i < |os| => os[i].account)
  }

  lemma {:induction false} SuccessesOf(os: seq<Outcome>, outcome: Account -> bool)
    requires forall o :: o in os ==> o.ok == outcome(o.account)
    ensures |os| - Successes(os) == Failures(AccountSeq(os), outcome)
    ensures multiset(AccountSeq(os)) == Accounts(os)
  {
    if os != [] {
      var n := |os|;
      SuccessesOf(os[..n - 1], outcome);
      assert AccountSeq(os)[..n - 1] == AccountSeq(os[..n - 1]);
      assert AccountSeq(os) == AccountSeq(os[..n - 1]) + [os[n - 1].account];
    }
  }

  /** Results carry what processing their account returned. */
  ghost predicate Faithful(s: Pool, outcome: Account -> bool) {
    && (forall w :: 0 <= w < |s.workers| && s.workers[w].Reporting? ==>
          s.workers[w].done.ok == outcome(s.workers[w].done.account))
    && (forall o :: o in s.results ==> o.ok == outcome(o.account))
    && (forall o :: o in s.collected ==> o.ok == outcome(o.account))
  }

  predicate Honest(s: Pool, act: Action, outcome: Account -> bool) {
    act.Process? && act.w < |s.workers| && s.workers[act.w].Busy? ==> act.ok == outcome(s.workers[act.w].account)
  }

  lemma FaithfulStep(accounts: seq<Account>, s: Pool, act: Action, outcome: Account -> bool)
    requires Faithful(s, outcome) && Enabled(accounts, s, act) && Honest(s, act, outcome)
    ensures Faithful(Apply(accounts, s, act), outcome)
  {
  }

  lemma FinishedCounts(accounts: seq<Account>, s: Pool, outcome: Account -> bool)
    requires Inv(accounts, s) && Faithful(s, outcome) && s.main.Returned?
    ensures s.errorCount == Failures(accounts, outcome) && s.successCount + s.errorCount == |accounts|
  {
    AllHandled(accounts, s);
    SuccessesOf(s.collected, outcome);
    FailuresIgnoreOrder(AccountSeq(s.collected), accounts, outcome);
  }

  /** The scheduler: any enabled step may be the next one; processing an account returns its own outcome. */
  method NextStep(accounts: seq<Account>, s: Pool, outcome: Account -> bool) returns (act: Action)
    requires Inv(accounts, s) && !Final(s)
    ensures Enabled(accounts, s, act) && Honest(s, act, outcome)
  {
    ghost var enabled := NoDeadlock(accounts, s);
    var pick: Action :| Enabled(accounts, s, pick);
    if pick.Process? {
      assert Enabled(accounts, s, pick);
      act := Process(pick.w, outcome(s.workers[pick.w].account));
    } else {
      act := pick;
    }
  }

  ghost predicate Running(accounts: seq<Account>, s: Pool, outcome: Account -> bool) {
    Inv(accounts, s) && Faithful(s, outcome) && 0 <= StepsLeft(accounts, s)
  }

  lemma RunningInit(accounts: seq<Account>, maxWorkers: nat, outcome: Account -> bool)
    requires 0 < maxWorkers
    ensures Running(accounts, Init(accounts, maxWorkers), outcome)
  {
    InvInit(accounts, maxWorkers);
    FinalIffNoStepsLeft(accounts, Init(accounts, maxWorkers));
    InitFaithful(accounts, maxWorkers, outcome);
  }

  lemma InitFaithful(accounts: seq<Account>, maxWorkers: nat, outcome: Account -> bool)
    ensures Faithful(Init(accounts, maxWorkers), outcome)
  {
  }

  lemma RunningStep(accounts: seq<Account>, s: Pool, act: Action, outcome: Account -> bool)
    requires Running(accounts, s, outcome) && Enabled(accounts, s, act) && Honest(s, act, outcome)
    ensures Running(accounts, Apply(accounts, s, act), outcome)
    ensures StepsLeft(accounts, Apply(accounts, s, act)) < StepsLeft(accounts, s)
  {
    StepsLeftDropsByOne(accounts, s, act);
    InvStep(accounts, s, act);
    FaithfulStep(accounts, s, act, outcome);
    FinalIffNoStepsLeft(accounts, Apply(accounts, s, act));
  }

  method RunPool(accounts: seq<Account>, maxWorkers: nat, outcome: Account -> bool)
      returns (successCount: nat, errorCount: nat)
    requires 0 < maxWorkers
    ensures errorCount == Failures(accounts, outcome)
    ensures successCount + errorCount == |accounts|
  {
    var s := Init(accounts, maxWorkers);
    RunningInit(accounts, maxWorkers, outcome);
    while !s.main.Returned?
      invariant Running(accounts, s, outcome)
      decreases StepsLeft(accounts, s)
    {
      var act := NextStep(accounts, s, outcome);
      RunningStep(accounts, s, act, outcome);
      s := Apply(accounts, s, act);
    }
    FinishedCounts(accounts, s, outcome);
    return s.successCount, s.errorCount;
  }

  lemma {:induction false} SomeFailure(accounts: seq<Account>, outcome: Account -> bool)
    ensures Failures(accounts, outcome) > 0 <==> exists a :: a in accounts && !outcome(a)
  {
    if accounts != [] {
      var n := |accounts|;
      SomeFailure(accounts[..n - 1], outcome);
      assert accounts == accounts[..n - 1] + [accounts[n - 1]];
    }
  }

  /** The Solana caller reports an error if and only if some account failed; btc and trx never do. */
  method ProcessSolanaAccounts(accounts: seq<Account>, outcome: Account -> bool) returns (failed: bool)
    ensures failed <==> exists a :: a in accounts && !outcome(a)
  {
    var successCount, errorCount := RunPool(accounts, 5, outcome);
    SomeFailure(accounts, outcome);
    failed := errorCount > 0;
  }
}
