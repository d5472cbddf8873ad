/**
 * Which slots any run of the Solana monitor attempts and which it leaves out, wherever its jobs start over.
 */
module MonitorRuns {
  import opened Common
  import opened BlockMonitors

  /** Where the attempts of a job end. */
  ghost function End(q: Progress, job: Job): int {
    if HasNewWork(q, job) then LastRead(q, job) + Scan(LastRead(q, job), job.tip.height, job.deadline).0 else LastRead(q, job)
  }

  /** The job attempts the slot: it lies above the watermark, and the deadline is not seen before it. */
  ghost predicate Reaches(q: Progress, job: Job, h: int) {
    LastRead(q, job) < h <= End(q, job)
  }

  /** The job stores a tip, being cut before a batch or starting over, and the slot lies beyond its attempts. */
  ghost predicate PassesOver(q: Progress, job: Job, h: int) {
    Jumps(q, job) && End(q, job) < h <= job.tip.height
  }

  ghost predicate ReachesAt(p: Progress, es: seq<Event>, i: nat, h: int) {
    i < |es| && es[i].Tick? && Reaches(SolanaRun(p, es[..i]), es[i].job, h)
  }

  ghost predicate PassesOverAt(p: Progress, es: seq<Event>, i: nat, h: int) {
    i < |es| && es[i].Tick? && PassesOver(SolanaRun(p, es[..i]), es[i].job, h)
  }

  lemma SameBefore(p: Progress, es: seq<Event>, i: nat, h: int)
    requires i < |es| - 1
    ensures ReachesAt(p, es, i, h) <==> ReachesAt(p, es[..|es| - 1], i, h)
    ensures PassesOverAt(p, es, i, h) <==> PassesOverAt(p, es[..|es| - 1], i, h)
  {
    assert es[..|es| - 1][..i] == es[..i];
  }

  // ---------------------------------------------------------------- attempted slots

  lemma StepReaches(q: Progress, job: Job, h: int)
    ensures q.attempted <= SolanaStep(q, job).attempted
    ensures h in Since(q, SolanaStep(q, job)) <==> Reaches(q, job, h)
  {
    var r := SolanaStep(q, job);
    if HasNewWork(q, job) {
      assert Since(q, r) == Range(LastRead(q, job) + 1, End(q, job) + 1);
      RangeMembers(LastRead(q, job) + 1, End(q, job) + 1);
    } else {
      assert Since(q, r) == [];
    }
  }

  lemma EventReaches(q: Progress, e: Event, h: int)
    ensures q.attempted <= Apply(q, e).attempted
    ensures h in Since(q, Apply(q, e)) <==> e.Tick? && Reaches(q, e.job, h)
  {
    if e.Tick? {
      StepReaches(q, e.job, h);
    } else {
      assert Since(q, Apply(q, e)) == [];
    }
  }

  /** Over any run the attempted slots are exactly those that some job reaches before its deadline. */
  lemma {:induction false} AttemptedIff(p: Progress, es: seq<Event>, h: int)
    ensures p.attempted <= SolanaRun(p, es).attempted
    ensures h in Since(p, SolanaRun(p, es)) <==> exists i: nat :: ReachesAt(p, es, i, h)
  {
    if es != [] {
      var n := |es| - 1;
      var q := SolanaRun(p, es[..n]);
      AttemptedIff(p, es[..n], h);
      EventReaches(q, es[n], h);
      SinceConcat(p, q, SolanaRun(p, es));
      ReachedIff(p, es[..n], es, h);
    }
  }

  lemma ReachedIff(p: Progress, init: seq<Event>, es: seq<Event>, h: int)
    requires es != [] && init == es[..|es| - 1]
    ensures (exists i: nat :: ReachesAt(p, es, i, h)) <==>
            (exists i: nat :: ReachesAt(p, init, i, h)) || ReachesAt(p, es, |es| - 1, h)
  {
    if i: nat :| ReachesAt(p, es, i, h) {
      if i < |es| - 1 {
        SameBefore(p, es, i, h);
      }
    }
    if i: nat :| ReachesAt(p, init, i, h) {
      SameBefore(p, es, i, h);
    }
  }

  // ---------------------------------------------------------------- left out slots

  lemma {:induction false} PeakIsAbove(p: Progress, es: seq<Event>, i: nat)
    requires i <= |es|
    ensures SolanaRun(p, es[..i]).last <= Peak(p, es)
  {
    if i < |es| {
      PeakIsAbove(p, es[..|es| - 1], i);
      assert es[..|es| - 1][..i] == es[..i];
    } else {
      assert es[..i] == es;
    }
  }

  /** A job that takes the watermark past a slot it does not attempt passes over it. */
  lemma StepPassesOver(q: Progress, job: Job, h: int)
    requires Small(q, job) && q.last < h <= SolanaStep(q, job).last && !Reaches(q, job, h)
    ensures PassesOver(q, job, h)
  {
    SmallStep(q, job);
    if HasNewWork(q, job) {
      DeadlineAccount(q.last, job.tip.height, job.deadline);
    }
  }

  lemma {:induction false} SomeJobPassesOver(p: Progress, es: seq<Event>, h: int)
    requires Exact(p, es) && p.last < h <= Peak(p, es) && forall j: nat :: !ReachesAt(p, es, j, h)
    ensures exists i: nat :: PassesOverAt(p, es, i, h)
  {
    var n := |es| - 1;
    var (init, q) := (es[..n], SolanaRun(p, es[..n]));
    forall i: nat ensures !ReachesAt(p, init, i, h) {
      if i < n {
        SameBefore(p, es, i, h);
      }
    }
    if h <= Peak(p, init) {
      SomeJobPassesOver(p, init, h);
      var i: nat :| PassesOverAt(p, init, i, h);
      SameBefore(p, es, i, h);
    } else {
      PeakIsAbove(p, init, n);
      assert init[..n] == init;
      WatermarksStaySmall(p, init);
      assert !ReachesAt(p, es, n, h);
      StepPassesOver(q, es[n].job, h);
      assert PassesOverAt(p, es, n, h);
    }
  }

  lemma PassedOverIsBelowPeak(p: Progress, es: seq<Event>, i: nat, h: int)
    requires PassesOverAt(p, es, i, h)
    ensures h <= Peak(p, es)
  {
    PeakIsAbove(p, es, i + 1);
    assert es[..i + 1][..i] == es[..i];
  }

  /**
   * Over any run, wherever its jobs start over: a slot up to the highest watermark is left out if and only if some job
   * passed over it, storing a tip after it was cut before a batch or because it found no watermark, and no job reached it.
   */
  lemma LeftOutIff(p: Progress, es: seq<Event>, h: int)
    requires Exact(p, es) && p.last < h
    ensures p.attempted <= SolanaRun(p, es).attempted
    ensures h <= Peak(p, es) && h !in Since(p, SolanaRun(p, es))
       <==> (exists i: nat :: PassesOverAt(p, es, i, h)) && !(exists i: nat :: ReachesAt(p, es, i, h))
  {
    AttemptedIff(p, es, h);
    if i: nat :| PassesOverAt(p, es, i, h) {
      PassedOverIsBelowPeak(p, es, i, h);
    }
    if h <= Peak(p, es) && h !in Since(p, SolanaRun(p, es)) {
      SomeJobPassesOver(p, es, h);
    }
  }

  // ---------------------------------------------------------------- batches of ten

  /** Batch b is the slots last+10b+1 to last+10b+10, cut at the tip, and the batches reach the tip and no further. */
  lemma BatchesAreTens(last: int, cur: int, b: nat)
    requires 0 <= last < cur < TWO_64 && LastBatchFits(last, cur) && b < Batches(last, cur)
    ensures BatchStart(last, b) == last + 10 * b + 1
    ensures BatchEnd(last, cur, b) == if last + 10 * b + 10 < cur then last + 10 * b + 10 else cur
    ensures last + 10 * (Batches(last, cur) - 1) < cur <= last + 10 * Batches(last, cur)
  {
    BatchCount(last, cur);
    BatchExtent(last, cur, b);
  }

  /**
   * The context is looked at once before each batch and once before each slot: a deadline that lasts for d looks is first
   * seen before batch b if d counts b batches and their 10b slots, and before the r-th slot of batch b if d counts b + 1
   * batches and the 10b + r - 1 slots before it.
   */
  lemma DeadlineIsSeenAt(last: int, cur: int, b: nat, r: nat)
    requires 0 <= last < cur && LastBatchFits(last, cur)
    requires last + 10 * b < cur && 1 <= r <= 10 && last + 10 * b + r <= cur
    ensures FirstSeen(last, cur, Some(b + 10 * b)) == SeenBeforeBatch(b)
    ensures FirstSeen(last, cur, Some((b + 1) + (10 * b + r - 1))) == SeenBeforeSlot(last + 10 * b + r, r == 1)
  {
    BatchCount(last, cur);
    ElevenLooks(b, r);
  }

  lemma ElevenLooks(b: nat, r: nat)
    requires 1 <= r <= 10
    ensures (b + 10 * b) / 11 == b && (b + 10 * b) % 11 == 0
    ensures ((b + 1) + (10 * b + r - 1)) / 11 == b && ((b + 1) + (10 * b + r - 1)) % 11 == r
  {
  }

  // ---------------------------------------------------------------- reported errors

  /** A job learnt tip and watermark. */
  predicate Learnt(job: Job) {
    job.cacheReads && job.tip.Fetched?
  }

  /** An error leaves the watermark alone, and is reported whenever tip or watermark were not learnt. */
  lemma ErrorsKeepWatermark(p: Progress, job: Job)
    ensures !StepSucceeds(p, job) ==> SolanaStep(p, job).last == p.last && BitcoinStep(p, job).last == p.last
    ensures !Learnt(job) ==> !StepSucceeds(p, job)
  {
  }

  /** The linear monitor reports success if and only if it learnt both and the watermark has reached the tip. */
  lemma LinearSucceedsIffCaughtUp(p: Progress, job: Job)
    requires Small(p, job)
    ensures StepSucceeds(p, job) <==>
            Learnt(job) && if p.last == 0 == job.tip.height then job.cacheWrites else job.tip.height <= BitcoinStep(p, job).last
  {
    SmallStep(p, job);
  }

  /**
   * The batched one does so too, except that a deadline seen before a slot is no error: then it reports success if and only
   * if the watermark was written, and that lies below the tip.
   */
  lemma BatchedSucceedsIff(p: Progress, job: Job)
    requires Small(p, job)
    ensures var cut := HasNewWork(p, job) && FirstSeen(p.last, job.tip.height, job.deadline).SeenBeforeSlot?;
            && (!cut ==>
                  (StepSucceeds(p, job) <==>
                   Learnt(job) && if p.last == 0 == job.tip.height then job.cacheWrites
                                  else job.tip.height <= SolanaStep(p, job).last))
            && (cut ==> (StepSucceeds(p, job) <==> job.cacheWrites) && SolanaStep(p, job).last < job.tip.height)
  {
    SmallStep(p, job);
    if HasNewWork(p, job) {
      DeadlineAccount(p.last, job.tip.height, job.deadline);
      ScanBounds(p.last, job.tip.height, job.deadline);
    }
  }
}
