/**
 * The two block monitors. Bitcoin walks the new heights in one loop; Solana walks them in batches of ten
 * under a deadline that is polled before every batch and before every slot. Each keeps one watermark in a cache.
 */
module BlockMonitors {
  import opened Common
  import opened JsonNumbers

  datatype Fetch = Unavailable | Fetched(height: uint64)

  const BATCH_SIZE: int := 10

  /** One check before the batch and one before each of its slots. */
  const CHECKS_PER_BATCH: int := 11

  /** The environment of one job: does reading and writing the cache work, what tip is reported, and how many
      polls of the processing context pass before it is seen expired (None: it never is); overflow is what the
      platform makes of a cached number that reads back as 2^64. */
  datatype Job = Job(cacheReads: bool, tip: Fetch, deadline: Option<nat>, cacheWrites: bool, overflow: uint64)

  /** The watermark as it was cached (0 when missing or unreadable) and the history of attempted heights. */
  datatype Progress = Progress(last: uint64, attempted: seq<int>)

  // ---------------------------------------------------------------- closed forms

  function Batches(last: int, cur: int): int {
    (cur - last) / BATCH_SIZE + (if (cur - last) % BATCH_SIZE > 0 then 1 else 0)
  }

  function LastBatchStart(last: int, cur: int): int {
    last + 1 + (Batches(last, cur) - 1) * BATCH_SIZE
  }

  /** The unclamped end of the last batch is a representable slot number. */
  predicate LastBatchFits(last: int, cur: int) {
    LastBatchStart(last, cur) + BATCH_SIZE - 1 < TWO_64
  }

  /** Slots the batches cover: all of them, unless the end of the last batch wraps and empties it. */
  function Covered(last: int, cur: int): int {
    if LastBatchFits(last, cur) then cur - last else (Batches(last, cur) - 1) * BATCH_SIZE
  }

  /** How often the context is polled when it never expires. */
  function Polls(last: int, cur: int): int {
    Covered(last, cur) + Batches(last, cur)
  }

  datatype Cut = NeverSeen | SeenBeforeBatch(b: nat) | SeenBeforeSlot(slot: int, startsBatch: bool)

  /** Which poll sees the expired deadline first. */
  function FirstSeen(last: int, cur: int, deadline: Option<nat>): Cut {
    if deadline.None? || deadline.value >= Polls(last, cur) then NeverSeen
    else
      var b := deadline.value / CHECKS_PER_BATCH;
      var r := deadline.value % CHECKS_PER_BATCH;
      if r == 0 then SeenBeforeBatch(b) else SeenBeforeSlot(last + b * BATCH_SIZE + r, r == 1)
  }

  /** How many of the slots last+1, last+2, ... are attempted, and which watermark is then stored. */
  function Scan(last: int, cur: int, deadline: Option<nat>): (int, int) {
    match FirstSeen(last, cur, deadline)
    case NeverSeen => (Covered(last, cur), cur)
    case SeenBeforeBatch(b) => (b * BATCH_SIZE, cur)
    case SeenBeforeSlot(slot, startsBatch) => (slot - 1 - last, if startsBatch then last else slot - 1)
  }

  /** The watermark as a job reads it: it was cached as a JSON number. */
  function LastRead(p: Progress, job: Job): uint64 {
    ReadBack(p.last, job.overflow)
  }

  predicate HasNewWork(p: Progress, job: Job) {
    job.cacheReads && job.tip.Fetched? && 0 < LastRead(p, job) < job.tip.height
  }

  /** Without a watermark the tip becomes one and nothing is attempted. */
  predicate Initialises(p: Progress, job: Job) {
    job.cacheReads && job.tip.Fetched? && LastRead(p, job) == 0
  }

  function SolanaStep(p: Progress, job: Job): Progress {
    if Initialises(p, job) then (if job.cacheWrites then p.(last := job.tip.height) else p)
    else if !HasNewWork(p, job) then p
    else
      var last := LastRead(p, job);
      ScanBounds(last, job.tip.height, job.deadline);
      var (count, stored) := Scan(last, job.tip.height, job.deadline);
      Progress(if job.cacheWrites then stored else p.last, p.attempted + Range(last + 1, last + 1 + count))
  }

  function BitcoinStep(p: Progress, job: Job): Progress {
    if Initialises(p, job) then (if job.cacheWrites then p.(last := job.tip.height) else p)
    else if !HasNewWork(p, job) then p
    else
      Progress(if job.cacheWrites then job.tip.height else p.last,
        p.attempted + Range(LastRead(p, job) + 1, job.tip.height + 1))
  }

  predicate StepSucceeds(p: Progress, job: Job) {
    && job.cacheReads && job.tip.Fetched?
    && (Initialises(p, job) || HasNewWork(p, job) ==> job.cacheWrites)
  }

  /** The loop up to the tip ends: its counter can pass the tip. */
  predicate LinearEnds(p: Progress, job: Job) {
    HasNewWork(p, job) ==> job.tip.height < TWO_64 - 1
  }

  /** The loop over the last batch ends: its counter can pass the end of the batch. */
  predicate BatchesEnd(p: Progress, job: Job) {
    HasNewWork(p, job) ==> LastBatchEnds(LastRead(p, job), job.tip.height)
  }

  predicate LastBatchEnds(last: int, cur: int) {
    BatchEnd(last, cur, Batches(last, cur) - 1) < TWO_64 - 1
  }

  lemma BatchCount(last: int, cur: int)
    requires last < cur
    ensures 1 <= Batches(last, cur)
    ensures (Batches(last, cur) - 1) * BATCH_SIZE < cur - last <= Batches(last, cur) * BATCH_SIZE
  {
  }

  lemma ScanBounds(last: int, cur: int, deadline: Option<nat>)
    requires 0 <= last < cur
    ensures var (count, stored) := Scan(last, cur, deadline);
            0 <= count <= cur - last && last <= stored <= cur
  {
    BatchCount(last, cur);
  }

  // ---------------------------------------------------------------- the batches

  function BatchStart(last: int, b: int): uint64 {
    AddU64(last + 1, b * BATCH_SIZE)
  }

  function BatchEnd(last: int, cur: int, b: int): int {
    var end := AddU64(BatchStart(last, b), BATCH_SIZE - 1);
    if end > cur then cur else end
  }

  function BatchLength(last: int, cur: int, b: int): int {
    if b < Batches(last, cur) - 1 then BATCH_SIZE else Covered(last, cur) - b * BATCH_SIZE
  }

  lemma BatchExtent(last: int, cur: int, b: int)
    requires 0 <= last < cur < TWO_64 && 0 <= b < Batches(last, cur)
    ensures BatchStart(last, b) == last + 1 + b * BATCH_SIZE
    ensures 0 <= BatchLength(last, cur, b) <= BATCH_SIZE
    ensures b * BATCH_SIZE + BatchLength(last, cur, b) <= Covered(last, cur)
    ensures BatchLength(last, cur, b) > 0 ==> BatchEnd(last, cur, b) == BatchStart(last, b) + BatchLength(last, cur, b) - 1
    ensures BatchLength(last, cur, b) == 0 ==> BatchEnd(last, cur, b) < BatchStart(last, b)
  {
    BatchCount(last, cur);
  }

  lemma EveryBatchEnds(last: int, cur: int, b: int)
    requires 0 <= last < cur < TWO_64 && 0 <= b < Batches(last, cur) && LastBatchEnds(last, cur)
    ensures BatchEnd(last, cur, b) < TWO_64 - 1
  {
    BatchCount(last, cur);
    BatchExtent(last, cur, b);
  }

  lemma CheckNumber(b: int, r: int)
    requires 0 <= r < CHECKS_PER_BATCH
    ensures (CHECKS_PER_BATCH * b + r) / CHECKS_PER_BATCH == b && (CHECKS_PER_BATCH * b + r) % CHECKS_PER_BATCH == r
  {
  }

  lemma SeenBefore(last: int, cur: int, b: int, j: int)
    requires 0 <= last < cur < TWO_64 && 0 <= b < Batches(last, cur)
    requires -1 <= j < BatchLength(last, cur, b)
    ensures FirstSeen(last, cur, Some(CHECKS_PER_BATCH * b + 1 + j))
            == if j == -1 then SeenBeforeBatch(b) else SeenBeforeSlot(last + 1 + b * BATCH_SIZE + j, j == 0)
  {
    BatchExtent(last, cur, b);
    BatchCount(last, cur);
    CheckNumber(b, 1 + j);
  }

  predicate Expired(deadline: Option<nat>, poll: nat) {
    deadline.Some? && deadline.value <= poll
  }

  class SolanaBlockMonitor {
    var lastProcessed: uint64
    var attempted: seq<int>

    ghost function Now(): Progress
      reads this
    {
      Progress(lastProcessed, attempted)
    }

    /** The loop over one batch: either every slot is attempted, or the deadline is seen before slot cut. */
    method ProcessSlots(startSlot: uint64, endSlot: uint64, deadline: Option<nat>, polled: nat)
        returns (polls: nat, cut: Option<uint64>)
      requires endSlot < TWO_64 - 1
      requires polled > 0 && !Expired(deadline, polled - 1)
      modifies this`attempted
      ensures var n := if startSlot <= endSlot then endSlot - startSlot + 1 else 0;
              var seen := if deadline.Some? && deadline.value < polled + n then deadline.value - polled else n;
              && attempted == old(attempted) + Range(startSlot, startSlot + seen)
              && cut == (if seen < n then Some(startSlot + seen) else None)
              && polls == polled + seen + (if seen < n then 1 else 0)
    {
      polls, cut := polled, None;
      var slot := startSlot;
      while slot <= endSlot
        invariant startSlot <= slot && (slot <= endSlot + 1 || slot == startSlot)
        invariant polls == polled + (slot - startSlot) && !Expired(deadline, polls - 1)
        invariant attempted == old(attempted) + Range(startSlot, slot)
        invariant cut == None
      {
        var expired := Expired(deadline, polls);
        polls := polls + 1;
        if expired {
          cut := Some(slot);
          break;
        }
        attempted := attempted + [slot];
        slot := slot + 1;
      }
    }

    method ProcessBlockMonitorJob(job: Job) returns (ok: bool)
      requires BatchesEnd(Now(), job)
      modifies this
      ensures Now() == SolanaStep(old(Now()), job)
      ensures ok <==> StepSucceeds(old(Now()), job)
    {
      if !job.cacheReads || job.tip.Unavailable? {
        return false;
      }
      var last, currentSlot := ReadBack(lastProcessed, job.overflow), job.tip.height;
      if last == 0 {
        if !job.cacheWrites {
          return false;
        }
        lastProcessed := currentSlot;
        return true;
      }
      if currentSlot > last {
        ghost var cut;
        currentSlot, cut := ProcessBatches(last, currentSlot, job.deadline);
        if !job.cacheWrites {
          return false;
        }
        lastProcessed := currentSlot;
      }
      return true;
    }

    /** One batch: its clamped bounds, its slots, and the overwritten currentSlot when the deadline is seen. */
    method ProcessBatch(last: uint64, currentSlot: uint64, deadline: Option<nat>, batchIndex: nat, polled: nat)
        returns (polls: nat, newCurrentSlot: uint64, cut: Option<uint64>)
      requires last < currentSlot && batchIndex < Batches(last, currentSlot) && LastBatchEnds(last, currentSlot)
      requires polled > 0 && !Expired(deadline, polled - 1)
      modifies this`attempted
      ensures var n := BatchLength(last, currentSlot, batchIndex);
              var seen := SeenInBatch(last, currentSlot, deadline, batchIndex, polled);
              var start := last + 1 + batchIndex * BATCH_SIZE;
              && attempted == old(attempted) + Range(start, start + seen)
              && polls == polled + seen + (if seen < n then 1 else 0)
              && newCurrentSlot == (if seen == n then currentSlot else if seen == 0 then last else start + seen - 1)
              && cut == (if seen < n then Some(start + seen) else None)
    {
      BatchExtent(last, currentSlot, batchIndex);
      EveryBatchEnds(last, currentSlot, batchIndex);
      var startSlot := AddU64(last + 1, batchIndex * BATCH_SIZE);
      var endSlot := AddU64(startSlot, BATCH_SIZE - 1);
      if endSlot > currentSlot {
        endSlot := currentSlot;
      }
      polls, cut := ProcessSlots(startSlot, endSlot, deadline, polled);
      newCurrentSlot := currentSlot;
      if cut.Some? {
        newCurrentSlot := if cut.value > startSlot then cut.value - 1 else last;
      }
    }

    /** One round of the loop over the batches, entered before its deadline check passed. */
    method NextBatch(last: uint64, tip: uint64, deadline: Option<nat>, batchIndex: nat, polled: nat, currentSlot: uint64,
        ghost count: nat)
        returns (polls: nat, newCurrentSlot: uint64, ghost newCount: nat, ghost cut: Cut)
      requires last < tip && batchIndex < Batches(last, tip) && LastBatchEnds(last, tip)
      requires Walked(last, tip, deadline, batchIndex, polled, currentSlot, count, NeverSeen) && !Expired(deadline, polled)
      modifies this`attempted
      ensures Walked(last, tip, deadline, batchIndex + 1, polls, newCurrentSlot, newCount, cut)
      ensures count <= newCount && attempted == old(attempted) + Range(last + 1 + count, last + 1 + newCount)
    {
      WalkBatch(last, tip, deadline, batchIndex, polled + 1, currentSlot, count);
      newCount := count + SeenInBatch(last, tip, deadline, batchIndex, polled + 1);
      var broke;
      polls, newCurrentSlot, broke := ProcessBatch(last, tip, deadline, batchIndex, polled + 1);
      cut := if broke.Some? then SeenBeforeSlot(broke.value, broke.value == last + 1 + batchIndex * BATCH_SIZE) else NeverSeen;
    }

    /**
     * The loop over the batches; returns the slot to be stored as the new watermark. cut records where the loops
     * themselves first found the deadline expired: at the check before a batch, or where the inner loop broke off.
     */
    method ProcessBatches(last: uint64, tip: uint64, deadline: Option<nat>) returns (currentSlot: uint64, ghost cut: Cut)
      requires last < tip && LastBatchEnds(last, tip)
      modifies this`attempted
      ensures cut == FirstSeen(last, tip, deadline)
      ensures currentSlot == Scan(last, tip, deadline).1
      ensures attempted == old(attempted) + Range(last + 1, last + 1 + Scan(last, tip, deadline).0)
      ensures LastBatchFits(last, tip) ==> IsAccount(last, tip, cut, |attempted| - |old(attempted)|, currentSlot)
    {
      currentSlot, cut := RunBatches(last, tip, deadline);
      ScanBounds(last, tip, deadline);
      if LastBatchFits(last, tip) {
        DeadlineAccount(last, tip, deadline);
      }
    }

    method RunBatches(last: uint64, tip: uint64, deadline: Option<nat>) returns (currentSlot: uint64, ghost cut: Cut)
      requires last < tip && LastBatchEnds(last, tip)
      modifies this`attempted
      ensures cut == FirstSeen(last, tip, deadline)
      ensures currentSlot == Scan(last, tip, deadline).1
      ensures attempted == old(attempted) + Range(last + 1, last + 1 + Scan(last, tip, deadline).0)
    {
      currentSlot := tip;
      var batches := (currentSlot - last) / BATCH_SIZE;
      if (currentSlot - last) % BATCH_SIZE > 0 {
        batches := batches + 1;
      }
      BatchCount(last, tip);
      var polls: nat, batchIndex: nat := 0, 0;
      ghost var count: nat := 0;
      cut := NeverSeen;
      while batchIndex < batches
        invariant batchIndex <= batches
        invariant Walked(last, tip, deadline, batchIndex, polls, currentSlot, count, cut)
        invariant attempted == old(attempted) + Range(last + 1, last + 1 + count)
      {
        if Expired(deadline, polls) {
          if cut.NeverSeen? {
            cut := SeenBeforeBatch(batchIndex);
          }
          break;
        }
        WalkGoesOn(last, tip, deadline, batchIndex, polls, currentSlot, count, cut);
        ghost var newCount: nat;
        ghost var before := attempted;
        polls, currentSlot, newCount, cut := NextBatch(last, tip, deadline, batchIndex, polls, currentSlot, count);
        RangeGoesOn(old(attempted), before, attempted, last + 1, last + 1 + count, last + 1 + newCount);
        count := newCount;
        batchIndex := batchIndex + 1;
      }
      WalkEnds(last, tip, deadline, batchIndex, polls, currentSlot, count, cut);
    }
  }

  /** Slots covered by the first b batches. */
  function CoveredBy(last: int, cur: int, b: int): int {
    if b < Batches(last, cur) then b * BATCH_SIZE else Covered(last, cur)
  }

  /** Before batch b, with every earlier batch complete and the deadline not yet seen. */
  ghost predicate Reached(last: int, cur: int, deadline: Option<nat>, b: int, polls: int, currentSlot: int) {
    && 0 <= polls == CoveredBy(last, cur, b) + b
    && (polls == 0 || !Expired(deadline, polls - 1))
    && currentSlot == cur
  }

  /** The deadline was seen inside a batch; the next poll will see it again. */
  ghost predicate CutShort(last: int, cur: int, deadline: Option<nat>, polls: int, currentSlot: int) {
    && 0 <= polls
    && FirstSeen(last, cur, deadline).SeenBeforeSlot?
    && Expired(deadline, polls)
    && currentSlot == Scan(last, cur, deadline).1
  }

  ghost predicate Walked(last: int, cur: int, deadline: Option<nat>, b: int, polls: int, currentSlot: int, count: int, cut: Cut) {
    || (Reached(last, cur, deadline, b, polls, currentSlot) && count == CoveredBy(last, cur, b) && cut == NeverSeen)
    || (CutShort(last, cur, deadline, polls, currentSlot) && count == Scan(last, cur, deadline).0
        && cut == FirstSeen(last, cur, deadline))
  }

  /** Slots of batch b attempted when its first slot is checked at the given poll. */
  function SeenInBatch(last: int, cur: int, deadline: Option<nat>, b: int, poll: int): int {
    var n := BatchLength(last, cur, b);
    if deadline.Some? && deadline.value < poll + n then deadline.value - poll else n
  }

  lemma WalkBatch(last: int, cur: int, deadline: Option<nat>, b: int, poll: int, currentSlot: int, count: int)
    requires 0 <= last < cur < TWO_64 && 0 <= b < Batches(last, cur)
    requires 0 < poll && !Expired(deadline, poll - 1)
    requires Walked(last, cur, deadline, b, poll - 1, currentSlot, count, NeverSeen)
    ensures currentSlot == cur && count == b * BATCH_SIZE
    ensures var n := BatchLength(last, cur, b);
            var seen := SeenInBatch(last, cur, deadline, b, poll);
            && 0 <= seen <= n
            && (if seen < n
                then Walked(last, cur, deadline, b + 1, poll + seen + 1,
                            if seen == 0 then last else last + b * BATCH_SIZE + seen, count + seen,
                            SeenBeforeSlot(last + 1 + b * BATCH_SIZE + seen, seen == 0))
                else Walked(last, cur, deadline, b + 1, poll + seen, cur, count + seen, NeverSeen))
  {
    BatchExtent(last, cur, b);
    BatchComplete(last, cur, b);
    var n := BatchLength(last, cur, b);
    var seen := SeenInBatch(last, cur, deadline, b, poll);
    if seen < n {
      SeenBefore(last, cur, b, seen);
    }
  }

  /** Once the deadline has been seen, the check before the next batch sees it too. */
  lemma WalkGoesOn(last: int, cur: int, deadline: Option<nat>, b: int, polls: int, currentSlot: int, count: int, cut: Cut)
    requires Walked(last, cur, deadline, b, polls, currentSlot, count, cut) && 0 <= polls && !Expired(deadline, polls)
    ensures cut == NeverSeen
  {
  }

  /** The loop is left at the end of the batches or at a check that finds the deadline expired. */
  lemma WalkEnds(last: int, cur: int, deadline: Option<nat>, b: nat, polls: int, currentSlot: int, count: int, cut: Cut)
    requires 0 <= last < cur < TWO_64 && b <= Batches(last, cur) && 0 <= polls
    requires var seen := b < Batches(last, cur) && cut == SeenBeforeBatch(b);
             && Walked(last, cur, deadline, b, polls, currentSlot, count, if seen then NeverSeen else cut)
             && (b == Batches(last, cur) || (Expired(deadline, polls) && cut != NeverSeen))
    ensures Scan(last, cur, deadline) == (count, currentSlot) && FirstSeen(last, cur, deadline) == cut
  {
    BatchCount(last, cur);
    if b < Batches(last, cur) && Reached(last, cur, deadline, b, polls, currentSlot) {
      BatchExtent(last, cur, b);
      SeenBefore(last, cur, b, -1);
    }
  }

  lemma BatchComplete(last: int, cur: int, b: int)
    requires 0 <= last < cur < TWO_64 && 0 <= b < Batches(last, cur)
    ensures CoveredBy(last, cur, b + 1) == b * BATCH_SIZE + BatchLength(last, cur, b)
  {
    BatchCount(last, cur);
  }

  class BitcoinBlockMonitor {
    var lastProcessed: uint64
    var attempted: seq<int>

    ghost function Now(): Progress
      reads this
    {
      Progress(lastProcessed, attempted)
    }

    method ProcessBlockMonitorJob(job: Job) returns (ok: bool)
      requires LinearEnds(Now(), job)
      modifies this
      ensures Now() == BitcoinStep(old(Now()), job)
      ensures ok <==> StepSucceeds(old(Now()), job)
    {
      if !job.cacheReads || job.tip.Unavailable? {
        return false;
      }
      var last, currentHeight := ReadBack(lastProcessed, job.overflow), job.tip.height;
      if last == 0 {
        if !job.cacheWrites {
          return false;
        }
        lastProcessed := currentHeight;
        return true;
      }
      if currentHeight > last {
        var height := last + 1;
        while height <= currentHeight
          invariant last + 1 <= height <= currentHeight + 1
          invariant attempted == old(attempted) + Range(last + 1, height)
          invariant lastProcessed == old(lastProcessed)
        {
          attempted := attempted + [height];
          height := height + 1;
        }
        if !job.cacheWrites {
          return false;
        }
        lastProcessed := currentHeight;
      }
      return true;
    }
  }

  // ---------------------------------------------------------------- batched against linear

  function SlotsOf(last: int, cur: int, b: int): seq<int> {
    Range(BatchStart(last, b), BatchEnd(last, cur, b) + 1)
  }

  /** The slots of the first b batches, one batch after the other, with their clamped and wrapping bounds. */
  function BatchesUpTo(last: int, cur: int, b: nat): seq<int> {
    if b == 0 then []
    else BatchesUpTo(last, cur, b - 1) + SlotsOf(last, cur, b - 1)
  }

  lemma {:induction false} BatchesArePrefixes(last: int, cur: int, b: nat)
    requires 0 <= last < cur < TWO_64 && b <= Batches(last, cur)
    ensures CoveredBy(last, cur, b) >= 0
    ensures BatchesUpTo(last, cur, b) == Range(last + 1, last + 1 + CoveredBy(last, cur, b))
  {
    if b == 0 {
      BatchCount(last, cur);
    } else {
      BatchesArePrefixes(last, cur, b - 1);
      BatchSlots(last, cur, b - 1);
      var (k, m) := (CoveredBy(last, cur, b - 1), CoveredBy(last, cur, b));
      AppendSlots(last + 1, k, m, BatchesUpTo(last, cur, b - 1), SlotsOf(last, cur, b - 1));
    }
  }

  lemma AppendSlots(first: int, k: int, m: int, before: seq<int>, slots: seq<int>)
    requires 0 <= k <= m && before == Range(first, first + k) && slots == Range(first + k, first + m)
    ensures before + slots == Range(first, first + m)
  {
    RangeConcat(first, first + k, first + m);
  }

  lemma BatchSlots(last: int, cur: int, b: int)
    requires 0 <= last < cur < TWO_64 && 0 <= b < Batches(last, cur)
    ensures 0 <= CoveredBy(last, cur, b) <= CoveredBy(last, cur, b + 1)
    ensures SlotsOf(last, cur, b)
            == Range(last + 1 + CoveredBy(last, cur, b), last + 1 + CoveredBy(last, cur, b + 1))
  {
    BatchExtent(last, cur, b);
    BatchComplete(last, cur, b);
  }

  /** The clamped batches concatenate to exactly last+1..cur if and only if the last batch's end does not wrap. */
  lemma BatchesConcatenateIff(last: int, cur: int)
    requires 0 <= last < cur < TWO_64
    ensures BatchesUpTo(last, cur, Batches(last, cur)) == Range(last + 1, cur + 1) <==> LastBatchFits(last, cur)
    ensures cur < TWO_64 - BATCH_SIZE ==> LastBatchFits(last, cur)
  {
    BatchCount(last, cur);
    BatchesArePrefixes(last, cur, Batches(last, cur));
    if !LastBatchFits(last, cur) {
      assert |Range(last + 1, last + 1 + Covered(last, cur))| < |Range(last + 1, cur + 1)|;
    }
  }

  /** Without a deadline the batched job does what the linear job does, unless the last batch's end wraps. */
  lemma BatchedRefinesLinearIff(p: Progress, job: Job)
    requires LinearEnds(p, job)
    requires job.deadline == None
    ensures SolanaStep(p, job) == BitcoinStep(p, job)
            <==> (HasNewWork(p, job) ==> LastBatchFits(LastRead(p, job), job.tip.height))
  {
    if HasNewWork(p, job) {
      var last, cur := LastRead(p, job), job.tip.height;
      BatchCount(last, cur);
      if !LastBatchFits(last, cur) {
        assert |SolanaStep(p, job).attempted| < |BitcoinStep(p, job).attempted|;
      }
    }
  }

  // ---------------------------------------------------------------- the deadline

  /**
   * Exact account of the deadline, over the place where it was first seen. The stored watermark passes the last
   * attempted slot if and only if that was before a batch; then the rest up to the tip is skipped. Seen before slot
   * s, every slot up to s - 1 was attempted, and the watermark is s - 1, or the old one when s starts a batch.
   */
  predicate IsAccount(last: int, cur: int, cut: Cut, count: int, stored: int) {
    && (stored > last + count <==> cut.SeenBeforeBatch?)
    && (cut.NeverSeen? <==> count == cur - last)
    && (cut.SeenBeforeBatch? ==> stored == cur && count == cut.b * BATCH_SIZE)
    && (cut.SeenBeforeSlot? ==>
          && last + count == cut.slot - 1 < cur
          && stored == (if (cut.slot - last - 1) % BATCH_SIZE == 0 then last else cut.slot - 1))
  }

  lemma DeadlineAccount(last: int, cur: int, deadline: Option<nat>)
    requires 0 <= last < cur && LastBatchFits(last, cur)
    ensures var (count, stored) := Scan(last, cur, deadline);
            IsAccount(last, cur, FirstSeen(last, cur, deadline), count, stored)
  {
    BatchCount(last, cur);
  }

  // ---------------------------------------------------------------- runs

  /** The cached watermark expires two minutes after it was stored, at any point between two jobs. */
  datatype Event = Tick(job: Job) | Expires

  function Apply(p: Progress, e: Event): Progress {
    match e
    case Tick(job) => SolanaStep(p, job)
    case Expires => p.(last := 0)
  }

  ghost function SolanaRun(p: Progress, es: seq<Event>): Progress {
    if es == [] then p else Apply(SolanaRun(p, es[..|es| - 1]), es[|es| - 1])
  }

  /** The highest watermark ever stored, from p on. */
  ghost function Peak(p: Progress, es: seq<Event>): int {
    if es == [] then p.last
    else
      var (peak, last) := (Peak(p, es[..|es| - 1]), SolanaRun(p, es).last);
      if last > peak then last else peak
  }

  /** All tips and the first watermark are at most 2^53, so every stored watermark is read back as it was. */
  ghost predicate Exact(p: Progress, es: seq<Event>) {
    p.last <= TWO_53 && forall i :: 0 <= i < |es| && es[i].Tick? && es[i].job.tip.Fetched? ==> es[i].job.tip.height <= TWO_53
  }

  /** This job starts over at its tip. */
  predicate Restarts(p: Progress, job: Job) {
    Initialises(p, job) && job.cacheWrites
  }

  /** No job starts over below the highest watermark stored before. */
  ghost predicate NeverRestartsBelow(p: Progress, es: seq<Event>) {
    es == [] ||
    var (init, e) := (es[..|es| - 1], es[|es| - 1]);
    && NeverRestartsBelow(p, init)
    && (e.Tick? && Restarts(SolanaRun(p, init), e.job) ==> e.job.tip.height >= Peak(p, init))
  }

  /** The slots attempted since p. */
  ghost function Since(p: Progress, q: Progress): seq<int>
    requires p.attempted <= q.attempted
  {
    q.attempted[|p.attempted|..]
  }

  ghost function Highest(low: int, s: seq<int>): int {
    if s == [] then low
    else
      var (top, x) := (Highest(low, s[..|s| - 1]), s[|s| - 1]);
      if x > top then x else top
  }

  lemma {:induction false} HighestIsHighest(low: int, s: seq<int>)
    ensures low <= Highest(low, s) && (Highest(low, s) == low || Highest(low, s) in s)
    ensures forall h :: h in s ==> h <= Highest(low, s)
  {
    if s != [] {
      HighestIsHighest(low, s[..|s| - 1]);
      assert s == s[..|s| - 1] + [s[|s| - 1]];
    }
  }

  /** This job stores a watermark although the deadline cut it before a batch. */
  ghost predicate SkipsSlots(p: Progress, job: Job) {
    && HasNewWork(p, job) && job.cacheWrites
    && FirstSeen(LastRead(p, job), job.tip.height, job.deadline).SeenBeforeBatch?
  }

  /** This job stores its tip without having attempted all slots up to it: it was cut, or it starts over. */
  ghost predicate Jumps(p: Progress, job: Job) {
    SkipsSlots(p, job) || Restarts(p, job)
  }

  /** So it does, and its tip lies above every slot attempted since p, this job's included. */
  ghost predicate JumpsUntried(p: Progress, q: Progress, job: Job) {
    && Jumps(q, job)
    && p.attempted <= SolanaStep(q, job).attempted
    && job.tip.height > Highest(p.last, Since(p, SolanaStep(q, job)))
  }

  ghost predicate SomeJobJumpsUntried(p: Progress, es: seq<Event>) {
    es != [] &&
    var (init, e) := (es[..|es| - 1], es[|es| - 1]);
    SomeJobJumpsUntried(p, init) || (e.Tick? && JumpsUntried(p, SolanaRun(p, init), e.job))
  }

  /** Some slot above the watermark of p and up to peak has not been attempted since p. */
  ghost predicate HasGap(p: Progress, q: Progress, peak: int) {
    p.attempted <= q.attempted && exists h :: p.last < h <= peak && h !in Since(p, q)
  }

  /** Such a slot, and later jobs go on above it. */
  ghost predicate LastingGap(p: Progress, q: Progress, peak: int) {
    && p.attempted <= q.attempted
    && exists h :: p.last < h <= peak && h !in Since(p, q) && (q.last == 0 || h <= q.last)
  }

  /** All slots above the watermark of p up to the highest attempted one were attempted, and no watermark is beyond it. */
  ghost predicate Solid(p: Progress, q: Progress, peak: int) {
    && p.attempted <= q.attempted
    && q.last <= peak <= Highest(p.last, Since(p, q)) && p.last <= peak
    && forall h :: p.last < h <= Highest(p.last, Since(p, q)) ==> h in Since(p, q)
  }

  ghost predicate Small(q: Progress, job: Job) {
    q.last <= TWO_53 && (job.tip.Fetched? ==> job.tip.height <= TWO_53)
  }

  lemma SmallStep(q: Progress, job: Job)
    requires Small(q, job)
    ensures LastRead(q, job) == q.last
    ensures SolanaStep(q, job).last <= TWO_53
    ensures HasNewWork(q, job) ==> LastBatchFits(q.last, job.tip.height)
  {
    SmallComesBack(q.last, job.overflow);
    if HasNewWork(q, job) {
      ScanBounds(q.last, job.tip.height, job.deadline);
      BatchCount(q.last, job.tip.height);
    }
  }

  /** A job only attempts slots above the watermark, and lowers it only where there was none. */
  lemma StepIsMonotone(q: Progress, job: Job)
    requires Small(q, job)
    ensures q.last <= SolanaStep(q, job).last
    ensures q.attempted <= SolanaStep(q, job).attempted
    ensures forall h :: h in Since(q, SolanaStep(q, job)) ==> 0 < q.last < h
  {
    SmallStep(q, job);
    if HasNewWork(q, job) {
      ScanBounds(q.last, job.tip.height, job.deadline);
    }
  }

  lemma SinceConcat(p: Progress, q: Progress, r: Progress)
    requires p.attempted <= q.attempted <= r.attempted
    ensures Since(p, r) == Since(p, q) + Since(q, r)
  {
    assert r.attempted[..|q.attempted|] == q.attempted;
  }

  /** Attempting low+1, ..., low+count on top of a solid stretch that reaches low keeps it solid. */
  lemma SolidStretch(first: int, s: seq<int>, low: int, count: nat)
    requires low <= Highest(first, s)
    requires forall h :: first < h <= Highest(first, s) ==> h in s
    ensures var t := s + Range(low + 1, low + 1 + count);
            && Highest(first, t) == (if low + count > Highest(first, s) then low + count else Highest(first, s))
            && forall h :: first < h <= Highest(first, t) ==> h in t
  {
    var t := s + Range(low + 1, low + 1 + count);
    HighestIsHighest(first, s);
    HighestIsHighest(first, t);
    RangeMembers(low + 1, low + 1 + count);
    HighestInsideIsHighest(first, s, t);
    assert count > 0 ==> low + count in t;
  }

  lemma HighestInsideIsHighest(first: int, s: seq<int>, t: seq<int>)
    requires forall h :: h in s ==> h in t
    ensures Highest(first, s) <= Highest(first, t)
  {
    HighestIsHighest(first, s);
    HighestIsHighest(first, t);
  }

  lemma StepSince(p: Progress, q: Progress, job: Job)
    requires p.attempted <= q.attempted && Small(q, job) && HasNewWork(q, job)
    ensures var (count, stored) := Scan(q.last, job.tip.height, job.deadline);
            && p.attempted <= SolanaStep(q, job).attempted && count >= 0
            && Since(p, SolanaStep(q, job)) == Since(p, q) + Range(q.last + 1, q.last + 1 + count)
  {
    SmallStep(q, job);
    ScanBounds(q.last, job.tip.height, job.deadline);
  }

  function Max(a: int, b: int): int {
    if a > b then a else b
  }

  /** A job that jumps over no untried slots keeps the stretch solid, wherever it starts over. */
  lemma StepStaysSolid(p: Progress, q: Progress, job: Job, peak: int)
    requires Small(q, job) && Solid(p, q, peak) && !JumpsUntried(p, q, job)
    ensures Solid(p, SolanaStep(q, job), Max(peak, SolanaStep(q, job).last))
  {
    SmallStep(q, job);
    if HasNewWork(q, job) {
      StepSince(p, q, job);
      SolidStretch(p.last, Since(p, q), q.last, Scan(q.last, job.tip.height, job.deadline).0);
      DeadlineAccount(q.last, job.tip.height, job.deadline);
    }
  }

  /** A job that jumps over untried slots leaves a gap. */
  lemma JumpLeavesGap(p: Progress, q: Progress, job: Job, peak: int)
    requires Small(q, job) && p.attempted <= q.attempted && JumpsUntried(p, q, job)
    ensures LastingGap(p, SolanaStep(q, job), Max(peak, SolanaStep(q, job).last))
  {
    var r := SolanaStep(q, job);
    SmallStep(q, job);
    HighestIsHighest(p.last, Since(p, r));
    var h := job.tip.height;
    assert r.last == h && p.last < h && h !in Since(p, r);
  }

  /** No later job closes a gap, unless it starts over below a watermark stored before. */
  lemma GapStays(p: Progress, q: Progress, job: Job, peak: int)
    requires Small(q, job) && LastingGap(p, q, peak)
    requires Restarts(q, job) ==> job.tip.height >= peak
    ensures LastingGap(p, SolanaStep(q, job), Max(peak, SolanaStep(q, job).last))
  {
    var r := SolanaStep(q, job);
    var h :| p.last < h <= peak && h !in Since(p, q) && (q.last == 0 || h <= q.last);
    SmallStep(q, job);
    StepIsMonotone(q, job);
    SinceConcat(p, q, r);
    assert h !in Since(p, r) && (r.last == 0 || h <= r.last);
  }

  lemma {:induction false} WatermarksStaySmall(p: Progress, es: seq<Event>)
    requires Exact(p, es)
    ensures SolanaRun(p, es).last <= TWO_53
  {
    if es != [] {
      WatermarksStaySmall(p, es[..|es| - 1]);
      if es[|es| - 1].Tick? {
        SmallStep(SolanaRun(p, es[..|es| - 1]), es[|es| - 1].job);
      }
    }
  }

  /** With no jump over untried slots nothing is left out, whatever expires and wherever jobs start over. */
  lemma {:induction false} NothingLeftOut(p: Progress, es: seq<Event>)
    requires Exact(p, es) && !SomeJobJumpsUntried(p, es)
    ensures Solid(p, SolanaRun(p, es), Peak(p, es))
  {
    if es != [] {
      var (init, e) := (es[..|es| - 1], es[|es| - 1]);
      NothingLeftOut(p, init);
      WatermarksStaySmall(p, init);
      if e.Tick? {
        StepStaysSolid(p, SolanaRun(p, init), e.job, Peak(p, init));
      }
    }
  }

  lemma {:induction false} JumpsLeaveGaps(p: Progress, es: seq<Event>)
    requires Exact(p, es) && SomeJobJumpsUntried(p, es) && NeverRestartsBelow(p, es)
    ensures LastingGap(p, SolanaRun(p, es), Peak(p, es))
  {
    var (init, e) := (es[..|es| - 1], es[|es| - 1]);
    var q := SolanaRun(p, init);
    WatermarksStaySmall(p, init);
    if SomeJobJumpsUntried(p, init) {
      JumpsLeaveGaps(p, init);
      if e.Tick? {
        GapStays(p, q, e.job, Peak(p, init));
      } else {
        var h :| p.last < h <= Peak(p, init) && h !in Since(p, q) && (q.last == 0 || h <= q.last);
        assert h !in Since(p, SolanaRun(p, es));
      }
    } else {
      NothingLeftOut(p, init);
      JumpLeavesGap(p, q, e.job, Peak(p, init));
    }
  }

  /**
   * Over any run, with any number of expiries, in which no job starts over below a watermark stored before: some slot up
   * to the highest watermark is left out if and only if some job stored a tip above every slot attempted so far, because
   * it was cut before a batch or started over.
   */
  lemma RunLeavesGapIff(p: Progress, es: seq<Event>)
    requires Exact(p, es) && NeverRestartsBelow(p, es)
    ensures p.attempted <= SolanaRun(p, es).attempted
    ensures HasGap(p, SolanaRun(p, es), Peak(p, es)) <==> SomeJobJumpsUntried(p, es)
  {
    if SomeJobJumpsUntried(p, es) {
      JumpsLeaveGaps(p, es);
    } else {
      NothingLeftOut(p, es);
    }
  }

  lemma {:induction false} WithoutExpiryNoRestart(p: Progress, es: seq<Event>)
    requires Exact(p, es) && 0 < p.last && forall i :: 0 <= i < |es| ==> es[i].Tick?
    ensures NeverRestartsBelow(p, es) && 0 < SolanaRun(p, es).last
  {
    if es != [] {
      var (init, e) := (es[..|es| - 1], es[|es| - 1]);
      WithoutExpiryNoRestart(p, init);
      WatermarksStaySmall(p, init);
      SmallStep(SolanaRun(p, init), e.job);
      StepIsMonotone(SolanaRun(p, init), e.job);
    }
  }

  predicate Reports(e: Event) {
    e.Tick? && e.job.tip.Fetched?
  }

  ghost predicate TipsNeverFall(p: Progress, es: seq<Event>) {
    && (forall i :: 0 <= i < |es| && Reports(es[i]) ==> p.last <= es[i].job.tip.height)
    && (forall i, j :: 0 <= i < j < |es| && Reports(es[i]) && Reports(es[j]) ==> es[i].job.tip.height <= es[j].job.tip.height)
  }

  lemma {:induction false} PeakBelowTips(p: Progress, es: seq<Event>, top: int)
    requires Exact(p, es) && p.last <= top
    requires forall i :: 0 <= i < |es| && Reports(es[i]) ==> es[i].job.tip.height <= top
    ensures SolanaRun(p, es).last <= Peak(p, es) <= top
  {
    if es != [] {
      var (init, e) := (es[..|es| - 1], es[|es| - 1]);
      PeakBelowTips(p, init, top);
      WatermarksStaySmall(p, init);
      if e.Tick? && HasNewWork(SolanaRun(p, init), e.job) {
        SmallStep(SolanaRun(p, init), e.job);
        ScanBounds(SolanaRun(p, init).last, e.job.tip.height, e.job.deadline);
      }
    }
  }

  lemma {:induction false} RisingTipsNeverRestartBelow(p: Progress, es: seq<Event>)
    requires Exact(p, es) && TipsNeverFall(p, es)
    ensures NeverRestartsBelow(p, es)
  {
    if es != [] {
      var (init, e) := (es[..|es| - 1], es[|es| - 1]);
      RisingTipsNeverRestartBelow(p, init);
      if Reports(e) {
        PeakBelowTips(p, init, e.job.tip.height);
      }
    }
  }

  /** In particular over every run without expiry, and over every run whose tips never fall. */
  lemma OrdinaryRunLeavesGapIff(p: Progress, es: seq<Event>)
    requires Exact(p, es)
    requires (0 < p.last && forall i :: 0 <= i < |es| ==> es[i].Tick?) || TipsNeverFall(p, es)
    ensures p.attempted <= SolanaRun(p, es).attempted
    ensures HasGap(p, SolanaRun(p, es), Peak(p, es)) <==> SomeJobJumpsUntried(p, es)
  {
    if TipsNeverFall(p, es) {
      RisingTipsNeverRestartBelow(p, es);
    } else {
      WithoutExpiryNoRestart(p, es);
    }
    RunLeavesGapIff(p, es);
  }

  ghost predicate NeverJumps(p: Progress, es: seq<Event>) {
    es == [] ||
    var (init, e) := (es[..|es| - 1], es[|es| - 1]);
    NeverJumps(p, init) && (e.Tick? ==> !Jumps(SolanaRun(p, init), e.job))
  }

  lemma {:induction false} NeverJumpingJumpsOverNothing(p: Progress, es: seq<Event>)
    requires NeverJumps(p, es)
    ensures !SomeJobJumpsUntried(p, es)
  {
    if es != [] {
      NeverJumpingJumpsOverNothing(p, es[..|es| - 1]);
    }
  }

  /** Over any run in which no deadline is first seen before a batch and no job starts over, no slot is missing. */
  lemma NoGapUnlessCutBeforeBatch(p: Progress, es: seq<Event>)
    requires Exact(p, es) && NeverJumps(p, es)
    ensures p.attempted <= SolanaRun(p, es).attempted
    ensures forall h :: p.last < h <= Peak(p, es) ==> h in Since(p, SolanaRun(p, es))
  {
    NeverJumpingJumpsOverNothing(p, es);
    NothingLeftOut(p, es);
  }

  lemma {:induction false} LaterRunsStayAbove(p: Progress, es: seq<Event>)
    requires Exact(p, es) && NeverRestartsBelow(p, es)
    ensures p.attempted <= SolanaRun(p, es).attempted && p.last <= Peak(p, es)
    ensures SolanaRun(p, es).last == 0 || p.last <= SolanaRun(p, es).last
    ensures forall h :: h in Since(p, SolanaRun(p, es)) ==> p.last < h
  {
    if es != [] {
      var (init, e) := (es[..|es| - 1], es[|es| - 1]);
      var q := SolanaRun(p, init);
      LaterRunsStayAbove(p, init);
      if e.Tick? {
        WatermarksStaySmall(p, init);
        SmallStep(q, e.job);
        StepIsMonotone(q, e.job);
        SinceConcat(p, q, SolanaStep(q, e.job));
      } else {
        assert Since(p, SolanaRun(p, es)) == Since(p, q);
      }
    }
  }

  /**
   * A cut before a batch loses slots for good: the first slot after those of the job is at most the new watermark, and
   * neither this job nor any later run attempts it.
   */
  lemma CutBeforeBatchLosesSlotsForGood(p: Progress, job: Job, later: seq<Event>)
    requires Small(p, job) && Exact(SolanaStep(p, job), later) && NeverRestartsBelow(SolanaStep(p, job), later)
    requires SkipsSlots(p, job)
    ensures p.attempted <= SolanaRun(SolanaStep(p, job), later).attempted
    ensures var q := SolanaStep(p, job);
            var lost := p.last + 1 + (|q.attempted| - |p.attempted|);
            lost <= q.last && lost !in Since(p, SolanaRun(q, later))
  {
    var q := SolanaStep(p, job);
    SmallStep(p, job);
    StepSince(p, p, job);
    DeadlineAccount(p.last, job.tip.height, job.deadline);
    LaterRunsStayAbove(q, later);
    SinceConcat(p, q, SolanaRun(q, later));
    var count := Scan(p.last, job.tip.height, job.deadline).0;
    RangeMembers(p.last + 1, p.last + 1 + count);
  }

  /**
   * A job that should find new heights takes up exactly after the stored watermark if and only if that is a double (or
   * the platform happens to turn 2^64 into it).
   */
  lemma TakesUpWhereStoredIff(p: Progress, job: Job)
    requires job.cacheReads && job.tip.Fetched? && 0 < p.last < job.tip.height
    ensures BitcoinStep(p, job).attempted == p.attempted + Range(p.last + 1, job.tip.height + 1)
       <==> if Nearest(p.last) < TWO_64 then IsDouble(p.last) else job.overflow == p.last
  {
    if Nearest(p.last) < TWO_64 {
      ComesBackIff(p.last, job.overflow);
    }
    if LastRead(p, job) != p.last {
      assert |BitcoinStep(p, job).attempted| != |p.attempted + Range(p.last + 1, job.tip.height + 1)|;
    }
  }

  // ---------------------------------------------------------------- inputs that show the conditions are needed

  lemma OneEvent(p: Progress, e: Event)
    ensures SolanaRun(p, [e]) == Apply(p, e)
  {
    assert [e][..0] == [];
  }

  lemma OneMoreEvent(p: Progress, es: seq<Event>, e: Event)
    ensures SolanaRun(p, es + [e]) == Apply(SolanaRun(p, es), e)
    ensures Peak(p, es + [e]) == Max(Peak(p, es), SolanaRun(p, es + [e]).last)
  {
    assert (es + [e])[..|es|] == es;
  }

  /** Watermark 10, tip 30, deadline seen at the very first check: nothing is attempted and 30 is stored. */
  lemma CutAtOnceExample()
    ensures var (p, job) := (Progress(10, []), Job(true, Fetched(30), Some(0), true, 0));
            SolanaRun(p, [Tick(job)]) == Progress(30, []) && HasGap(p, SolanaRun(p, [Tick(job)]), 30)
  {
    var (p, job) := (Progress(10, []), Job(true, Fetched(30), Some(0), true, 0));
    OneEvent(p, Tick(job));
    SmallComesBack(10, 0);
    assert Range(11, 11) == [];
    assert 11 !in Since(p, SolanaRun(p, [Tick(job)]));
  }

  /** The same cut after a job whose cache write failed leaves nothing out. */
  lemma CutAfterFailedWriteExample()
    ensures var es := [Tick(Job(true, Fetched(30), None, false, 0))] + [Tick(Job(true, Fetched(30), Some(0), true, 0))];
            && !NeverJumps(Progress(10, []), es)
            && SolanaRun(Progress(10, []), es).last == 30 && !HasGap(Progress(10, []), SolanaRun(Progress(10, []), es), 30)
  {
    var p := Progress(10, []);
    var (first, second) := (Job(true, Fetched(30), None, false, 0), Job(true, Fetched(30), Some(0), true, 0));
    OneEvent(p, Tick(first));
    OneMoreEvent(p, [Tick(first)], Tick(second));
    SmallComesBack(10, 0);
    var q := SolanaStep(p, first);
    assert q == Progress(10, Range(11, 31));
    assert SolanaStep(q, second) == Progress(30, Range(11, 31) + Range(11, 11));
    assert SkipsSlots(q, second);
    assert ([Tick(first)] + [Tick(second)])[..1] == [Tick(first)];
    RangeMembers(11, 31);
  }

  /** Watermark 30 expires and the next job finds tip 50: it stores 50 and slots 31 to 50 are never attempted. */
  lemma ExpiryGapExample()
    ensures var (p, es) := (Progress(30, []), [Expires] + [Tick(Job(true, Fetched(50), None, true, 0))]);
            SolanaRun(p, es) == Progress(50, []) && HasGap(p, SolanaRun(p, es), 50)
  {
    var (p, job) := (Progress(30, []), Job(true, Fetched(50), None, true, 0));
    OneEvent(p, Expires);
    OneMoreEvent(p, [Expires], Tick(job));
    SmallComesBack(0, 0);
    assert 31 !in Since(p, SolanaRun(p, [Expires] + [Tick(job)]));
  }

  /** After another expiry a job that starts over at 30, below that watermark, lets the next one make up for them. */
  lemma RestartBelowFillsGapExample()
    ensures var first := [Expires] + [Tick(Job(true, Fetched(50), None, true, 0))];
            var es := first + [Expires] + [Tick(Job(true, Fetched(30), None, true, 0))]
                      + [Tick(Job(true, Fetched(50), None, true, 0))];
            && SolanaRun(Progress(30, []), es) == Progress(50, Range(31, 51))
            && !HasGap(Progress(30, []), SolanaRun(Progress(30, []), es), 50)
  {
    var (p, low, high) := (Progress(30, []), Job(true, Fetched(30), None, true, 0), Job(true, Fetched(50), None, true, 0));
    var first := [Expires] + [Tick(high)];
    OneEvent(p, Expires);
    OneMoreEvent(p, [Expires], Tick(high));
    OneMoreEvent(p, first, Expires);
    OneMoreEvent(p, first + [Expires], Tick(low));
    OneMoreEvent(p, first + [Expires] + [Tick(low)], Tick(high));
    SmallComesBack(0, 0);
    SmallComesBack(30, 0);
    assert SolanaStep(Progress(30, []), high) == Progress(50, [] + Range(31, 51));
    RangeMembers(31, 51);
  }

  /** Above 2^53 a stored watermark may read back greater: the slot after it is then never attempted. */
  lemma LargeWatermarkSkipsASlot()
    ensures var (p, job) := (Progress(TWO_53 + 3, []), Job(true, Fetched(TWO_53 + 6), None, true, 0));
            && SolanaStep(p, job).last == TWO_53 + 6
            && TWO_53 + 4 !in SolanaStep(p, job).attempted
  {
    var (p, job) := (Progress(TWO_53 + 3, []), Job(true, Fetched(TWO_53 + 6), None, true, 0));
    LargeNumbersMove(0);
    RangeMembers(TWO_53 + 5, TWO_53 + 7);
    assert LastRead(p, job) == TWO_53 + 4;
  }
}
