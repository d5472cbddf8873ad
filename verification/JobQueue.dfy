/**
 * The Bull-compatible job queue for regular jobs: Redis lists wait, active, completed and failed, the stored
 * job records, and one processor that pops, activates, handles and finishes one job per iteration. Other
 * clients may add jobs between any two of its steps. Each Redis pipeline is one step.
 */
module JobQueue {
  import opened Common

  type Id = string

  datatype JobState = JobWaiting | JobActive | JobCompleted | JobFailed

  datatype Job = Job(id: Id, data: string, state: JobState)

  /** Where the processor is: between iterations, with a popped id in hand, or running the handler of a job. */
  datatype Processor = Between | Popped(id: Id) | Handling(job: Job)

  datatype Done = Done(id: Id, ok: bool)

  /** The Redis contents and the processor, with two histories kept since the last clear: ids added, jobs finished. */
  datatype Queue = Queue(
    wait: seq<Id>,
    active: seq<Id>,
    completed: seq<Id>,
    failed: seq<Id>,
    jobs: map<Id, Job>,
    processor: Processor,
    added: seq<Id>,
    finished: seq<Done>)

  datatype Event = Add(id: Id, data: string) | Pop | Activate | Finish(ok: bool) | Clear

  /** Redis LREM with count 0: removes every occurrence. */
  function LRem(xs: seq<Id>, id: Id): seq<Id> {
    if xs == [] then [] else (if xs[0] == id then [] else [xs[0]]) + LRem(xs[1..], id)
  }

  predicate Enabled(q: Queue, e: Event) {
    match e
    case Pop => q.processor.Between?
    case Activate => q.processor.Popped?
    case Finish(_) => q.processor.Handling?
    case _ => true
  }

  function Step(q: Queue, e: Event): Queue
    requires Enabled(q, e)
  {
    match e
    case Add(id, data) =>
      q.(wait := q.wait + [id], jobs := q.jobs[id := Job(id, data, JobWaiting)], added := q.added + [id])
    case Pop =>
      if q.wait == [] then q else q.(processor := Popped(q.wait[0]), wait := q.wait[1..])
    case Activate =>
      var id := q.processor.id;
      if id !in q.jobs then q.(processor := Between)
      else
        var job := q.jobs[id].(state := JobActive);
        q.(jobs := q.jobs[id := job], active := q.active + [id], processor := Handling(job))
    case Finish(ok) =>
      var id := q.processor.job.id;
      q.(jobs := q.jobs[id := q.processor.job.(state := if ok then JobCompleted else JobFailed)],
         active := LRem(q.active, id),
         completed := if ok then [id] + q.completed else q.completed,
         failed := if ok then q.failed else [id] + q.failed,
         processor := Between,
         finished := q.finished + [Done(id, ok)])
    case Clear =>
      q.(wait := [], active := [], completed := [], failed := [], added := [], finished := [])
  }

  // ---------------------------------------------------------------- the implementation

  class QueueManager {
    var wait: seq<Id>
    var active: seq<Id>
    var completed: seq<Id>
    var failed: seq<Id>
    var jobs: map<Id, Job>
    var processor: Processor
    ghost var added: seq<Id>
    ghost var finished: seq<Done>

    ghost function Now(): Queue
      reads this
    {
      Queue(wait, active, completed, failed, jobs, processor, added, finished)
    }

    constructor ()
      ensures Now() == Empty()
    {
      wait, active, completed, failed, jobs, processor := [], [], [], [], map[], Between;
      added, finished := [], [];
    }

    method AddJob(id: Id, data: string)
      modifies this
      ensures Now() == Step(old(Now()), Add(id, data))
      ensures wait == old(wait) + [id] && jobs == old(jobs)[id := Job(id, data, JobWaiting)]
    {
      wait := wait + [id];
      jobs := jobs[id := Job(id, data, JobWaiting)];
      added := added + [id];
    }

    method PopJob()
      requires processor.Between?
      modifies this
      ensures Now() == Step(old(Now()), Pop)
    {
      if wait != [] {
        processor, wait := Popped(wait[0]), wait[1..];
      }
    }

    method ActivateJob()
      requires processor.Popped?
      modifies this
      ensures Now() == Step(old(Now()), Activate)
    {
      var id := processor.id;
      if id !in jobs {
        processor := Between;
        return;
      }
      var job := jobs[id].(state := JobActive);
      jobs := jobs[id := job];
      active := active + [id];
      processor := Handling(job);
    }

    method FinishJob(handlerOk: bool)
      requires processor.Handling?
      modifies this
      ensures Now() == Step(old(Now()), Finish(handlerOk))
    {
      var job := processor.job.(state := if handlerOk then JobCompleted else JobFailed);
      jobs := jobs[job.id := job];
      active := LRem(active, job.id);
      if handlerOk {
        completed := [job.id] + completed;
      } else {
        failed := [job.id] + failed;
      }
      processor := Between;
      finished := finished + [Done(job.id, handlerOk)];
    }

    method ClearQueue()
      modifies this
      ensures Now() == Step(old(Now()), Clear)
    {
      wait, active, completed, failed := [], [], [], [];
      added, finished := [], [];
    }

    /** One uninterrupted iteration of the processing loop. */
    method ProcessNext(handler: string -> bool)
      requires Inv(Now()) && processor.Between?
      modifies this
      ensures Inv(Now()) && processor.Between? && added == old(added)
      ensures old(wait) == [] ==> Now() == old(Now())
      ensures old(wait) != [] ==>
                var job := old(Front(Now()));
                var ok := handler(job.data);
                && wait == old(wait[1..])
                && finished == old(finished) + [Done(job.id, ok)]
                && completed == (if ok then [job.id] + old(completed) else old(completed))
                && failed == (if ok then old(failed) else [job.id] + old(failed))
    {
      ghost var q0 := Now();
      InvStep(q0, Pop);
      PopJob();
      if processor.Between? {
        return;
      }
      ghost var q1 := Now();
      InvStep(q1, Activate);
      ActivateJob();
      ghost var q2 := Now();
      var ok := handler(processor.job.data);
      InvStep(q2, Finish(ok));
      FinishJob(ok);
    }

    method GetQueueStatus() returns (waiting: nat, act: nat, done: nat, broken: nat, total: nat)
      ensures waiting == |wait| && act == |active| && done == |completed| && broken == |failed|
      ensures Inv(Now()) ==> total == |added| - (if processor.Popped? then 1 else 0)
    {
      waiting, act, done, broken := |wait|, |active|, |completed|, |failed|;
      total := waiting + act + done + broken;
      if Inv(Now()) {
        PartitionSizes(Now());
      }
    }
  }

  // ---------------------------------------------------------------- the invariant

  function Empty(): Queue {
    Queue([], [], [], [], map[], Between, [], [])
  }

  function Ids(ds: seq<Done>): seq<Id> {
    if ds == [] then [] else Ids(ds[..|ds| - 1]) + [ds[|ds| - 1].id]
  }

  /** The ids that finished with the given outcome, newest first. */
  function Newest(ds: seq<Done>, ok: bool): seq<Id> {
    if ds == [] then []
    else (if ds[|ds| - 1].ok == ok then [ds[|ds| - 1].id] else []) + Newest(ds[..|ds| - 1], ok)
  }

  function InHand(p: Processor): seq<Id> {
    match p
    case Between => []
    case Popped(id) => [id]
    case Handling(job) => [job.id]
  }

  /** First in, first out: what was added is what finished, then what is in hand, then what waits. */
  ghost predicate Fifo(q: Queue) {
    q.added == Ids(q.finished) + InHand(q.processor) + q.wait
  }

  /** The lists and their order. */
  ghost predicate Ordered(q: Queue) {
    && Fifo(q) && Distinct(q.added)
    && q.completed == Newest(q.finished, true) && q.failed == Newest(q.finished, false)
    && q.active == (if q.processor.Handling? then [q.processor.job.id] else [])
  }

  ghost predicate HasState(q: Queue, id: Id, state: JobState) {
    id in q.jobs && q.jobs[id].id == id && q.jobs[id].state == state
  }

  /** The stored job records. */
  ghost predicate Stored(q: Queue) {
    && (forall d :: d in q.finished ==> HasState(q, d.id, if d.ok then JobCompleted else JobFailed))
    && (forall id :: id in q.wait ==> HasState(q, id, JobWaiting))
    && (q.processor.Popped? ==> HasState(q, q.processor.id, JobWaiting))
    && (q.processor.Handling? ==> HasState(q, q.processor.job.id, JobActive) && q.jobs[q.processor.job.id] == q.processor.job)
  }

  ghost predicate Inv(q: Queue) {
    Ordered(q) && Stored(q)
  }

  lemma IdsAppend(ds: seq<Done>, d: Done)
    ensures Ids(ds + [d]) == Ids(ds) + [d.id]
    ensures Newest(ds + [d], d.ok) == [d.id] + Newest(ds, d.ok)
    ensures Newest(ds + [d], !d.ok) == Newest(ds, !d.ok)
  {
    assert (ds + [d])[..|ds|] == ds;
  }

  lemma {:induction false} IdsMembers(ds: seq<Done>)
    ensures |Ids(ds)| == |ds| && forall i :: 0 <= i < |ds| ==> Ids(ds)[i] == ds[i].id
  {
    if ds != [] {
      IdsMembers(ds[..|ds| - 1]);
    }
  }

  /** The record of the job at the head of the wait list. */
  ghost function Front(q: Queue): Job
    requires Inv(q) && q.wait != []
  {
    assert q.wait[0] in q.wait;
    q.jobs[q.wait[0]]
  }

  lemma InvStep(q: Queue, e: Event)
    requires Inv(q) && Enabled(q, e)
    requires e.Add? ==> e.id !in q.added
    requires e.Clear? ==> q.processor.Between?
    ensures Inv(Step(q, e))
  {
    match e {
      case Add(id, data) => AddKeepsInv(q, id, data);
      case Pop => PopKeepsInv(q);
      case Activate => ActivateKeepsInv(q);
      case Finish(ok) => FinishKeepsInv(q, ok);
      case Clear =>
    }
  }

  lemma FinishedWereAdded(q: Queue)
    requires Fifo(q)
    ensures forall d :: d in q.finished ==> d.id in q.added
  {
    IdsMembers(q.finished);
    forall d | d in q.finished ensures d.id in q.added {
      var i :| 0 <= i < |q.finished| && q.finished[i] == d;
      assert q.added[i] == d.id;
    }
  }

  /** With distinct ids, the one in hand is neither finished nor waiting. */
  lemma InHandIsElsewhere(q: Queue, id: Id)
    requires Inv(q) && InHand(q.processor) == [id]
    ensures id !in q.wait && id in q.added && forall d :: d in q.finished ==> d.id != id
  {
    IdsMembers(q.finished);
    var k := |q.finished|;
    assert q.added[k] == id;
    forall i | 0 <= i < |q.wait| ensures q.wait[i] != id {
      assert q.added[k + 1 + i] == q.wait[i];
    }
    forall i | 0 <= i < |q.finished| ensures q.finished[i].id != id {
      assert q.added[i] == q.finished[i].id;
    }
  }

  lemma AddKeepsInv(q: Queue, id: Id, data: string)
    requires Inv(q) && id !in q.added
    ensures Inv(Step(q, Add(id, data)))
  {
    FinishedWereAdded(q);
    forall i | 0 <= i < |q.wait| ensures q.wait[i] in q.added {
      assert q.added[|q.added| - |q.wait| + i] == q.wait[i];
    }
    if q.processor != Between {
      InHandIsElsewhere(q, InHand(q.processor)[0]);
    }
    AddKeepsOrdered(q, id, data);
    AddKeepsStored(q, id, data);
  }

  lemma AddKeepsOrdered(q: Queue, id: Id, data: string)
    requires Ordered(q) && id !in q.added
    ensures Ordered(Step(q, Add(id, data)))
  {
  }

  lemma AddKeepsStored(q: Queue, id: Id, data: string)
    requires Stored(q)
    requires id !in q.wait && InHand(q.processor) != [id] && forall d :: d in q.finished ==> d.id != id
    ensures Stored(Step(q, Add(id, data)))
  {
    if q.processor != Between {
      assert InHand(q.processor)[0] != id;
    }
  }

  lemma PopKeepsInv(q: Queue)
    requires Inv(q) && q.processor.Between?
    ensures Inv(Step(q, Pop))
  {
    if q.wait != [] {
      assert q.wait[0] in q.wait;
      assert q.wait == [q.wait[0]] + q.wait[1..];
      forall id | id in q.wait[1..] ensures HasState(q, id, JobWaiting) {
        assert id in q.wait;
      }
    }
  }

  lemma ActivateKeepsInv(q: Queue)
    requires Inv(q) && q.processor.Popped?
    ensures Inv(Step(q, Activate))
  {
    InHandIsElsewhere(q, q.processor.id);
    ActivateKeepsOrdered(q);
    ActivateKeepsStored(q);
  }

  lemma ActivateKeepsOrdered(q: Queue)
    requires Ordered(q) && q.processor.Popped? && q.processor.id in q.jobs && q.jobs[q.processor.id].id == q.processor.id
    ensures Ordered(Step(q, Activate))
  {
  }

  lemma ActivateKeepsStored(q: Queue)
    requires Stored(q) && q.processor.Popped?
    requires q.processor.id !in q.wait && forall d :: d in q.finished ==> d.id != q.processor.id
    ensures Stored(Step(q, Activate))
  {
  }

  lemma FinishKeepsInv(q: Queue, ok: bool)
    requires Inv(q) && q.processor.Handling?
    ensures Inv(Step(q, Finish(ok)))
  {
    InHandIsElsewhere(q, q.processor.job.id);
    FinishKeepsOrdered(q, ok);
    FinishKeepsStored(q, ok);
  }

  lemma FinishKeepsOrdered(q: Queue, ok: bool)
    requires Ordered(q) && q.processor.Handling?
    ensures Ordered(Step(q, Finish(ok)))
  {
    var id := q.processor.job.id;
    var t := Step(q, Finish(ok));
    IdsAppend(q.finished, Done(id, ok));
    assert Fifo(t) by {
      assert Ids(t.finished) + InHand(t.processor) == Ids(q.finished) + InHand(q.processor);
    }
    assert q.active == [id] && LRem([id], id) == [];
  }

  lemma FinishKeepsStored(q: Queue, ok: bool)
    requires Stored(q) && q.processor.Handling?
    requires q.processor.job.id !in q.wait && forall d :: d in q.finished ==> d.id != q.processor.job.id
    ensures Stored(Step(q, Finish(ok)))
  {
  }

  /** A clear keeps the books if and only if the processor is between iterations. */
  lemma ClearKeepsInvIffBetween(q: Queue)
    requires Inv(q)
    ensures Inv(Step(q, Clear)) <==> q.processor.Between?
  {
  }

  /** A job is added, popped and handled; clearing then leaves it active although nothing was added. */
  lemma ClearWhileHandlingExample()
    ensures var es := [Add("1", ""), Pop, Activate];
            LegalRun(Empty(), es) && Inv(Run(Empty(), es)) && !Inv(Step(Run(Empty(), es), Clear))
  {
    var es := [Add("1", ""), Pop, Activate];
    var q := Step(Step(Step(Empty(), Add("1", "")), Pop), Activate);
    assert es[1..] == [Pop, Activate] && es[1..][1..] == [Activate] && [Activate][1..] == [];
    assert LegalRun(q, []) && LegalRun(Step(Step(Empty(), Add("1", "")), Pop), [Activate]);
    assert LegalRun(Step(Empty(), Add("1", "")), [Pop, Activate]);
    RunKeepsInv(Empty(), es);
    assert Run(Empty(), es) == q;
    ClearKeepsInvIffBetween(q);
  }

  /** Adding keeps the books if and only if the id is new since the last clear. */
  lemma AddKeepsInvIffNew(q: Queue, id: Id, data: string)
    requires Inv(q)
    ensures Inv(Step(q, Add(id, data))) <==> id !in q.added
  {
    if id in q.added {
      var i :| 0 <= i < |q.added| && q.added[i] == id;
      var xs := q.added + [id];
      assert xs[i] == xs[|q.added|];
    } else {
      AddKeepsInv(q, id, data);
    }
  }

  // ---------------------------------------------------------------- runs

  ghost predicate LegalRun(q: Queue, es: seq<Event>)
    decreases |es|
  {
    es == [] || (
      && Enabled(q, es[0])
      && (es[0].Add? ==> es[0].id !in q.added)
      && (es[0].Clear? ==> q.processor.Between?)
      && LegalRun(Step(q, es[0]), es[1..]))
  }

  ghost function Run(q: Queue, es: seq<Event>): Queue
    requires LegalRun(q, es)
    decreases |es|
  {
    if es == [] then q else Run(Step(q, es[0]), es[1..])
  }

  lemma {:induction false} RunKeepsInv(q: Queue, es: seq<Event>)
    requires Inv(q) && LegalRun(q, es)
    ensures Inv(Run(q, es))
    decreases |es|
  {
    if es != [] {
      InvStep(q, es[0]);
      RunKeepsInv(Step(q, es[0]), es[1..]);
    }
  }

  lemma {:induction false} NewestPartition(ds: seq<Done>)
    ensures multiset(Newest(ds, true)) + multiset(Newest(ds, false)) == multiset(Ids(ds))
  {
    if ds != [] {
      NewestPartition(ds[..|ds| - 1]);
    }
  }

  lemma {:induction false} NewestMembers(ds: seq<Done>, ok: bool)
    ensures forall id :: id in Newest(ds, ok) <==> Done(id, ok) in ds
  {
    if ds != [] {
      var n := |ds|;
      NewestMembers(ds[..n - 1], ok);
      assert ds == ds[..n - 1] + [ds[n - 1]];
    }
  }

  ghost function Everywhere(q: Queue): multiset<Id> {
    multiset(q.wait) + PoppedId(q.processor) + multiset(q.active) + multiset(q.completed) + multiset(q.failed)
  }

  ghost function PoppedId(p: Processor): multiset<Id> {
    if p.Popped? then multiset{p.id} else multiset{}
  }

  lemma FifoPartition(q: Queue)
    requires Fifo(q)
    ensures multiset(q.added) == multiset(Ids(q.finished)) + multiset(InHand(q.processor)) + multiset(q.wait)
  {
  }

  lemma Regroup(w: multiset<Id>, p: multiset<Id>, a: multiset<Id>, c: multiset<Id>, f: multiset<Id>)
    ensures w + p + a + c + f == (c + f) + (p + a) + w
  {
  }

  lemma InvPartitions(q: Queue)
    requires Inv(q)
    ensures Everywhere(q) == multiset(q.added)
  {
    NewestPartition(q.finished);
    FifoPartition(q);
    assert PoppedId(q.processor) + multiset(q.active) == multiset(InHand(q.processor));
    Regroup(multiset(q.wait), PoppedId(q.processor), multiset(q.active), multiset(q.completed), multiset(q.failed));
  }

  lemma PartitionSizes(q: Queue)
    requires Inv(q)
    ensures |q.wait| + |q.active| + |q.completed| + |q.failed| == |q.added| - (if q.processor.Popped? then 1 else 0)
  {
    InvPartitions(q);
    assert |multiset(q.added)| == |q.added|;
  }

  /**
   * Over every interleaving of adding clients with the processor: the ids in wait, in hand, active, completed
   * and failed are exactly those added since the last clear, each once; and jobs are taken in the order added.
   */
  lemma JobIdsAreConserved(es: seq<Event>, q: Queue)
    requires LegalRun(Empty(), es) && q == Run(Empty(), es)
    ensures Everywhere(q) == multiset(q.added) && Distinct(q.added)
    ensures q.added == Ids(q.finished) + InHand(q.processor) + q.wait
    ensures q.completed == Newest(q.finished, true) && q.failed == Newest(q.finished, false)
  {
    RunKeepsInv(Empty(), es);
    InvPartitions(q);
  }

  lemma IdIsFinishedOrWaiting(q: Queue, id: Id)
    requires Ordered(q) && q.processor.Between? && id in q.added
    ensures id in q.wait || exists ok :: Done(id, ok) in q.finished
  {
    IdsMembers(q.finished);
    var i :| 0 <= i < |q.added| && q.added[i] == id;
    if i < |q.finished| {
      assert q.finished[i].id == id;
      assert Done(id, q.finished[i].ok) in q.finished;
    } else {
      assert q.wait[i - |q.finished|] == id;
    }
  }

  /** Between iterations nothing is active and a stored state is final exactly for the ids in the final lists. */
  lemma StoredStateMatchesList(es: seq<Event>, q: Queue, id: Id)
    requires LegalRun(Empty(), es) && q == Run(Empty(), es)
    requires q.processor.Between? && id in q.added
    ensures q.active == [] && id in q.jobs
    ensures q.jobs[id].state == JobCompleted <==> id in q.completed
    ensures q.jobs[id].state == JobFailed <==> id in q.failed
    ensures q.jobs[id].state == JobWaiting <==> id in q.wait
  {
    RunKeepsInv(Empty(), es);
    ListsDetermineState(q, id);
  }

  lemma ListsDetermineState(q: Queue, id: Id)
    requires Inv(q) && q.processor.Between? && id in q.added
    ensures id in q.jobs
    ensures id in q.completed <==> HasState(q, id, JobCompleted)
    ensures id in q.failed <==> HasState(q, id, JobFailed)
    ensures id in q.wait <==> HasState(q, id, JobWaiting)
    ensures q.jobs[id].id == id
  {
    IdIsFinishedOrWaiting(q, id);
    NewestMembers(q.finished, true);
    NewestMembers(q.finished, false);
  }

  // ---------------------------------------------------------------- payloads

  /** The additions of a run since its last clear, in order, after those before it. */
  function AddsAfter(before: seq<Event>, es: seq<Event>): seq<Event>
    decreases |es|
  {
    if es == [] then before
    else AddsAfter(match es[0] case Add(_, _) => before + [es[0]] case Clear => [] case _ => before, es[1..])
  }

  /** The additions have the ids of the queue, and their records the data they were given. */
  ghost predicate CarriesData(q: Queue, adds: seq<Event>) {
    && |adds| == |q.added|
    && forall k :: 0 <= k < |adds| ==> HasData(q, k, adds[k])
  }

  ghost predicate HasData(q: Queue, k: nat, e: Event) {
    && e.Add? && k < |q.added| && q.added[k] == e.id
    && e.id in q.jobs && q.jobs[e.id].id == e.id && q.jobs[e.id].data == e.data
  }

  lemma AddCarriesData(q: Queue, adds: seq<Event>, id: Id, data: string)
    requires CarriesData(q, adds) && id !in q.added
    ensures CarriesData(Step(q, Add(id, data)), adds + [Add(id, data)])
  {
    var (t, adds') := (Step(q, Add(id, data)), adds + [Add(id, data)]);
    forall k | 0 <= k < |adds'| ensures HasData(t, k, adds'[k]) {
      if k < |adds| {
        assert HasData(q, k, adds[k]);
        assert q.added[k] in q.added;
      }
    }
  }

  /** Popping, activating and finishing leave the data of every record alone. */
  lemma OtherStepsCarryData(q: Queue, adds: seq<Event>, e: Event)
    requires Inv(q) && CarriesData(q, adds) && Enabled(q, e) && !e.Add? && !e.Clear?
    ensures CarriesData(Step(q, e), adds)
  {
    var t := Step(q, e);
    forall k | 0 <= k < |adds| ensures HasData(t, k, adds[k]) {
      assert HasData(q, k, adds[k]);
    }
  }

  lemma {:induction false} RunCarriesData(q: Queue, adds: seq<Event>, es: seq<Event>)
    requires Inv(q) && LegalRun(q, es) && CarriesData(q, adds)
    ensures CarriesData(Run(q, es), AddsAfter(adds, es))
    decreases |es|
  {
    if es != [] {
      var e := es[0];
      InvStep(q, e);
      match e {
        case Add(id, data) =>
          AddCarriesData(q, adds, id, data);
          RunCarriesData(Step(q, e), adds + [e], es[1..]);
        case Clear =>
          RunCarriesData(Step(q, e), [], es[1..]);
        case _ =>
          OtherStepsCarryData(q, adds, e);
          RunCarriesData(Step(q, e), adds, es[1..]);
      }
    }
  }

  /**
   * Over every legal run: each job added since the last clear, waiting, in hand or finished, is stored with the data it was
   * added with; and the job in hand is the next one after the finished ones, so the handler of the k-th job gets the data of
   * the k-th addition.
   */
  lemma JobsKeepTheirData(es: seq<Event>, q: Queue, adds: seq<Event>)
    requires LegalRun(Empty(), es) && q == Run(Empty(), es) && adds == AddsAfter([], es)
    ensures |adds| == |q.added|
    ensures forall k :: 0 <= k < |adds| ==>
              && adds[k].Add? && adds[k].id == q.added[k] && adds[k].id in q.jobs
              && q.jobs[adds[k].id].id == adds[k].id && q.jobs[adds[k].id].data == adds[k].data
    ensures q.processor.Handling? ==>
              && |q.finished| < |adds|
              && var next := adds[|q.finished|]; q.processor.job == Job(next.id, next.data, JobActive)
  {
    RunKeepsInv(Empty(), es);
    RunCarriesData(Empty(), [], es);
    forall k | 0 <= k < |adds|
      ensures adds[k].Add? && adds[k].id == q.added[k] && adds[k].id in q.jobs
      ensures q.jobs[adds[k].id].id == adds[k].id && q.jobs[adds[k].id].data == adds[k].data
    {
      assert HasData(q, k, adds[k]);
    }
    if q.processor.Handling? {
      IdsMembers(q.finished);
      var k := |q.finished|;
      assert q.added[k] == q.processor.job.id;
      assert HasData(q, k, adds[k]);
    }
  }
}
