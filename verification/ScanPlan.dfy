/** Which heights an iteration scans, and the ordered, bounded download of its batches. */
module ScanPlan {
  import opened Common

  datatype ScanBatch = ScanBatch(start: nat, end: nat)

  function SatAdd(a: nat, b: nat): nat { Min(a + b, U32_MAX) }

  function SatSub(a: nat, b: nat): nat { if a >= b then a - b else 0 }

  /** First height of the forward scan. `last` is a signed column; heights are unsigned 32-bit. */
  function ForwardStart(birthday: nat, last: int, tip: nat): nat {
    if last <= 0 then birthday
    else Max(if last <= U32_MAX then SatAdd(Min(last, tip), 1) else SatAdd(tip, 1), birthday)
  }

  /** The window that is scanned again in case the chain was reorganized. */
  function OverlapBatch(birthday: nat, last: int, tip: nat, finality: nat): Option<ScanBatch> {
    if last <= 0 || last > U32_MAX then None
    else
      var end := Min(last, tip);
      if end < birthday then None
      else Some(ScanBatch(Max(SatSub(end, SatSub(finality, 1)), birthday), end))
  }

  function NextScanBatch(next: nat, final: nat, size: nat): Option<ScanBatch> {
    if next > final then None
    else Some(ScanBatch(next, Min(SatAdd(next, SatSub(size, 1)), final)))
  }

  /** The height recorded when the iteration completes. */
  function ScannedThrough(birthday: nat, last: int, tip: nat): int {
    if ForwardStart(birthday, last, tip) <= tip then tip
    else Min(tip, if 0 <= last <= U32_MAX then last else 0)
  }

  /**
   * Overlap and forward scan leave no height between them and reach the tip. The overlap window holds
   * as many heights as the finality depth, unless the birthday cuts it. A recorded height that is no
   * unsigned 32-bit number leaves nothing to scan.
   */
  lemma WindowsMeet(birthday: nat, last: int, tip: nat, finality: nat)
    requires tip < U32_MAX
    ensures var overlap := OverlapBatch(birthday, last, tip, finality);
      var start := ForwardStart(birthday, last, tip);
      && (overlap.Some? ==> birthday <= overlap.value.start <= overlap.value.end == Min(last, tip)
                            && start == overlap.value.end + 1)
      && (overlap.Some? ==>
           overlap.value.end - overlap.value.start + 1 == Min(Max(finality, 1), overlap.value.end - birthday + 1))
      && (overlap.None? && last <= U32_MAX ==> start == birthday && (last <= 0 || Min(last, tip) < birthday))
      && (last > U32_MAX ==> overlap.None? && start > tip)
  {
  }

  /** A completed iteration has scanned through the tip unless the wallet is born above it. */
  lemma ThroughExactly(birthday: nat, last: int, tip: nat)
    requires tip < U32_MAX
    ensures 0 <= ScannedThrough(birthday, last, tip) <= tip
    ensures last <= U32_MAX ==>
      ScannedThrough(birthday, last, tip) == if birthday <= tip then tip else Max(Min(last, tip), 0)
  {
  }

  // ------------------------------------------------------------------ batches

  /** The batches from `next` through `final`, as the downloader asks for them one after the other. */
  function Batches(next: nat, final: nat, size: nat): seq<ScanBatch>
    requires final < U32_MAX
    decreases if next <= final then final - next + 1 else 0
  {
    var b := NextScanBatch(next, final, size);
    if b.None? then [] else [b.value] + Batches(SatAdd(b.value.end, 1), final, size)
  }

  /** The batches tile the range: contiguous, in order, all but the last exactly as large as asked for. */
  lemma {:induction false} BatchesTile(next: nat, final: nat, size: nat)
    requires final < U32_MAX
    ensures var bs := Batches(next, final, size);
      && (next > final <==> bs == [])
      && (bs != [] ==> bs[0].start == next && bs[|bs| - 1].end == final)
      && (forall i :: 0 <= i < |bs| ==> bs[i].start <= bs[i].end < bs[i].start + Max(size, 1))
      && (forall i :: 0 <= i < |bs| - 1 ==> bs[i].end + 1 == bs[i].start + Max(size, 1))
      && (forall i :: 0 <= i < |bs| - 1 ==> bs[i + 1].start == bs[i].end + 1)
    decreases if next <= final then final - next + 1 else 0
  {
    var b := NextScanBatch(next, final, size);
    if b.Some? {
      BatchesTile(SatAdd(b.value.end, 1), final, size);
    }
  }

  /** After the last batch there is no next one exactly when the final height is below the largest u32. */
  lemma BatchingStops(next: nat, final: nat, size: nat)
    requires next <= final <= U32_MAX
    ensures NextScanBatch(SatAdd(final, 1), final, size).None? <==> final < U32_MAX
  {
  }

  // ------------------------------------------------------------------ the decision of an iteration

  datatype ScanRangePlan = ScanRangePlan(
    firstBatch: Option<ScanBatch>, finalHeight: Option<nat>, batchSize: nat,
    shouldMarkCatchingUp: bool, isCaughtUp: bool)

  datatype SyncScanDecision = SyncScanDecision(overlap: Option<ScanBatch>, forwardStart: nat, plan: ScanRangePlan)

  function PlanScanRange(next: nat, tip: nat, threshold: nat, size: nat): ScanRangePlan {
    if next > tip then ScanRangePlan(None, None, size, false, true)
    else ScanRangePlan(NextScanBatch(next, tip, size), Some(tip), size, tip - next + 1 >= threshold, false)
  }

  function BuildSyncScanDecision(
    birthday: nat, last: int, tip: nat, threshold: nat, size: nat, finality: nat): SyncScanDecision
  {
    var start := ForwardStart(birthday, last, tip);
    SyncScanDecision(OverlapBatch(birthday, last, tip, finality), start, PlanScanRange(start, tip, threshold, size))
  }

  /** The windows one iteration scans, in order. */
  function Windows(d: SyncScanDecision): seq<ScanBatch>
    requires d.plan.finalHeight.Some? ==> d.plan.finalHeight.value < U32_MAX
  {
    (if d.overlap.Some? then [d.overlap.value] else [])
    + (if d.plan.firstBatch.Some? && d.plan.finalHeight.Some?
       then Batches(d.plan.firstBatch.value.start, d.plan.finalHeight.value, d.plan.batchSize) else [])
  }

  predicate Contiguous(bs: seq<ScanBatch>) {
    && (forall i :: 0 <= i < |bs| ==> bs[i].start <= bs[i].end)
    && forall i :: 0 <= i < |bs| - 1 ==> bs[i + 1].start == bs[i].end + 1
  }

  /**
   * An iteration scans every height from its first window to the tip exactly once, starts no later
   * than the heights not scanned yet, and the parts of the plan it relies on are there.
   */
  lemma DecisionTiles(birthday: nat, last: int, tip: nat, threshold: nat, size: nat, finality: nat)
    requires birthday <= tip < U32_MAX && last <= U32_MAX
    ensures var d := BuildSyncScanDecision(birthday, last, tip, threshold, size, finality);
      && Windows(d) != [] && Contiguous(Windows(d))
      && birthday <= Windows(d)[0].start <= Max(Min(last, tip) + 1, birthday)
      && Windows(d)[|Windows(d)| - 1].end == tip
      && (d.plan.firstBatch.Some? <==> d.plan.finalHeight.Some?) && (d.plan.firstBatch.None? <==> d.plan.isCaughtUp)
  {
    hide Batches, OverlapBatch, ForwardStart, SatAdd, SatSub;
    var d := BuildSyncScanDecision(birthday, last, tip, threshold, size, finality);
    WindowsMeet(birthday, last, tip, finality);
    var forward := Batches(d.forwardStart, tip, size);
    BatchesTile(d.forwardStart, tip, size);
    if d.overlap.Some? {
      Prepend(d.overlap.value, forward);
      assert d.forwardStart > tip ==> Windows(d) == [d.overlap.value] + forward;
    }
  }

  lemma Prepend(b: ScanBatch, bs: seq<ScanBatch>)
    requires b.start <= b.end && Contiguous(bs) && (bs != [] ==> bs[0].start == b.end + 1)
    ensures Contiguous([b] + bs)
  {
    var all := [b] + bs;
    forall i | 0 <= i < |all| - 1 ensures all[i + 1].start == all[i].end + 1 {
      assert i > 0 ==> all[i] == bs[i - 1] && all[i + 1] == bs[i];
    }
  }

  /** The worker announces that it is catching up exactly if the heights to scan reach the threshold. */
  lemma PlanExactly(birthday: nat, last: int, tip: nat, threshold: nat, size: nat, finality: nat)
    requires birthday <= tip < U32_MAX
    ensures var d := BuildSyncScanDecision(birthday, last, tip, threshold, size, finality);
      && (d.plan.isCaughtUp <==> last > 0 && last >= tip)
      && (d.plan.shouldMarkCatchingUp <==> !d.plan.isCaughtUp && tip - d.forwardStart + 1 >= threshold)
      && (!d.plan.isCaughtUp ==> d.forwardStart == Max(last + 1, birthday) || (last <= 0 && d.forwardStart == birthday))
  {
  }

  // ------------------------------------------------------------------ downloader

  /** What awaiting one spawned fetch yields. */
  datatype Fetched<T> = Loaded(value: T) | FetchFailed | TaskFailed

  /** The results handed over in height order: everything up to and including the first failure. */
  ghost predicate IsOrderedPrefix<T>(sent: seq<Fetched<T>>, batches: seq<ScanBatch>, fetch: ScanBatch -> Fetched<T>) {
    && |sent| <= |batches|
    && (forall i :: 0 <= i < |sent| ==> sent[i] == fetch(batches[i]) && !sent[i].TaskFailed?)
    && (forall i :: 0 <= i < |sent| - 1 ==> sent[i].Loaded?)
  }

  /**
   * Keeps up to `concurrency` fetches in flight and sends their results in height order. `room` is
   * how many results the receiver takes before it is dropped. The order in which the fetches
   * complete does not matter, because only the oldest one is awaited.
   */
  method RunOrderedDownloads<T>(
    first: ScanBatch, final: nat, size: nat, concurrency: nat, room: nat, fetch: ScanBatch -> Fetched<T>)
    returns (sent: seq<Fetched<T>>, ok: bool)
    requires final < U32_MAX
    requires NextScanBatch(first.start, final, size) == Some(first)
    ensures var batches := Batches(first.start, final, size);
      && IsOrderedPrefix(sent, batches, fetch)
      && |sent| <= room
      && (ok && |sent| < room ==> |sent| == |batches| || (sent != [] && sent[|sent| - 1].FetchFailed?))
      && (!ok ==> |sent| < |batches| && fetch(batches[|sent|]).TaskFailed? && forall r :: r in sent ==> r.Loaded?)
  {
    ghost var batches := Batches(first.start, final, size);
    sent := [];
    var inFlight: seq<ScanBatch> := [];
    var next := Some(first);
    while true
      invariant IsOrderedPrefix(sent, batches, fetch) && |sent| <= room
      invariant forall r :: r in sent ==> r.Loaded?
      invariant |inFlight| <= Max(concurrency, 1)
      invariant |sent| + |inFlight| <= |batches|
      invariant inFlight == batches[|sent|..|sent| + |inFlight|]
      invariant IsRest(next, batches, |sent| + |inFlight|, final, size)
      decreases |batches| - |sent|
    {
      inFlight, next := SpawnFetches(inFlight, next, final, size, concurrency, batches, |sent|);
      if inFlight == [] {
        return sent, true;
      }
      var result := fetch(inFlight[0]);
      assert inFlight[0] == batches[|sent|];
      if result.TaskFailed? {
        return sent, false;
      }
      if |sent| >= room {
        return sent, true;
      }
      sent := sent + [result];
      inFlight := inFlight[1..];
      assert inFlight == batches[|sent|..|sent| + |inFlight|];
      if result.FetchFailed? {
        return sent, true;
      }
    }
  }

  /** Spawns fetches until the window is full or no batch is left. */
  method SpawnFetches(
    running: seq<ScanBatch>, upcoming: Option<ScanBatch>, final: nat, size: nat, concurrency: nat,
    ghost batches: seq<ScanBatch>, ghost done: nat)
    returns (inFlight: seq<ScanBatch>, next: Option<ScanBatch>)
    requires final < U32_MAX
    requires |running| <= Max(concurrency, 1) && done + |running| <= |batches|
    requires running == batches[done..done + |running|]
    requires IsRest(upcoming, batches, done + |running|, final, size)
    ensures |inFlight| <= Max(concurrency, 1) && done + |inFlight| <= |batches|
    ensures inFlight == batches[done..done + |inFlight|]
    ensures IsRest(next, batches, done + |inFlight|, final, size)
    ensures inFlight == [] ==> done == |batches|
    ensures running <= inFlight && (|inFlight| == Max(concurrency, 1) || next.None?)
  {
    inFlight, next := running, upcoming;
    while |inFlight| < Max(concurrency, 1) && next.Some?
      invariant |inFlight| <= Max(concurrency, 1)
      invariant done + |inFlight| <= |batches|
      invariant inFlight == batches[done..done + |inFlight|]
      invariant IsRest(next, batches, done + |inFlight|, final, size)
      invariant running <= inFlight
      decreases Max(concurrency, 1) - |inFlight|
    {
      RestStep(next, batches, done + |inFlight|, final, size);
      inFlight := inFlight + [next.value];
      next := NextScanBatch(SatAdd(next.value.end, 1), final, size);
    }
  }

  /** `next` is the batch at position `k`, or there is none left. */
  ghost predicate IsRest(next: Option<ScanBatch>, batches: seq<ScanBatch>, k: nat, final: nat, size: nat)
    requires final < U32_MAX && k <= |batches|
  {
    && (next.None? ==> k == |batches|)
    && (next.Some? ==> next == NextScanBatch(next.value.start, final, size)
                       && batches[k..] == Batches(next.value.start, final, size))
  }

  lemma RestStep(next: Option<ScanBatch>, batches: seq<ScanBatch>, k: nat, final: nat, size: nat)
    requires final < U32_MAX && k <= |batches|
    requires IsRest(next, batches, k, final, size) && next.Some?
    ensures k < |batches| && batches[k] == next.value
    ensures IsRest(NextScanBatch(SatAdd(next.value.end, 1), final, size), batches, k + 1, final, size)
  {
    var after := SatAdd(next.value.end, 1);
    assert batches[k..] == [next.value] + Batches(after, final, size);
    assert batches[k + 1..] == batches[k..][1..] == Batches(after, final, size);
    BatchesTile(after, final, size);
  }
}
