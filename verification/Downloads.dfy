/**
 * The batch downloader with its environment: fetches run at the same time and arrive in any order,
 * with any result, and the receiver may go away at any moment.
 */
module Downloads {
  import opened Common
  import opened ScanPlan

  /** `arrived` remembers the result of every fetch that completed; `ended` tells how the downloader returned. */
  datatype Pipe<T> = Pipe(
    sent: seq<Fetched<T>>, inFlight: seq<ScanBatch>, arrived: map<ScanBatch, Fetched<T>>,
    next: Option<ScanBatch>, gone: bool, ended: Option<bool>)

  datatype Plan = Plan(first: ScanBatch, final: nat, size: nat, concurrency: nat)

  predicate ValidPlan(p: Plan) {
    p.final < U32_MAX && NextScanBatch(p.first.start, p.final, p.size) == Some(p.first)
  }

  function Window(p: Plan): nat { Max(p.concurrency, 1) }

  function Wanted(p: Plan): seq<ScanBatch>
    requires ValidPlan(p)
  {
    Batches(p.first.start, p.final, p.size)
  }

  // ------------------------------------------------------------------ steps

  ghost predicate Spawns<T(!new)>(s: Pipe<T>, s': Pipe<T>, p: Plan) {
    && s.ended.None? && |s.inFlight| < Window(p) && s.next.Some?
    && s' == s.(inFlight := s.inFlight + [s.next.value],
                next := NextScanBatch(SatAdd(s.next.value.end, 1), p.final, p.size))
  }

  /** Any fetch in flight may complete, in any order and with any result. */
  ghost predicate Arrives<T(!new)>(s: Pipe<T>, s': Pipe<T>, b: ScanBatch, r: Fetched<T>) {
    s.ended.None? && b in s.inFlight && b !in s.arrived && s' == s.(arrived := s.arrived[b := r])
  }

  /** Once the window is full or no batch is left, the oldest fetch is awaited and its result sent. */
  ghost predicate Sends<T(!new)>(s: Pipe<T>, s': Pipe<T>, p: Plan) {
    && s.ended.None? && (|s.inFlight| >= Window(p) || s.next.None?)
    && s.inFlight != [] && s.inFlight[0] in s.arrived
    && var r := s.arrived[s.inFlight[0]];
       s' == if r.TaskFailed? then s.(inFlight := [], ended := Some(false))
             else if s.gone then s.(inFlight := [], ended := Some(true))
             else if r.FetchFailed? then s.(sent := s.sent + [r], inFlight := [], ended := Some(true))
             else s.(sent := s.sent + [r], inFlight := s.inFlight[1..])
  }

  ghost predicate Leaves<T(!new)>(s: Pipe<T>, s': Pipe<T>) {
    s' == s.(gone := true)
  }

  ghost predicate Finishes<T(!new)>(s: Pipe<T>, s': Pipe<T>) {
    s.ended.None? && s.inFlight == [] && s.next.None? && s' == s.(ended := Some(true))
  }

  ghost predicate PipeStep<T(!new)>(s: Pipe<T>, s': Pipe<T>, p: Plan) {
    || Spawns(s, s', p)
    || (exists b, r :: Arrives(s, s', b, r))
    || Sends(s, s', p)
    || Leaves(s, s')
    || Finishes(s, s')
  }

  ghost predicate IsPipeRun<T(!new)>(run: seq<Pipe<T>>, p: Plan) {
    && |run| > 0 && run[0] == Pipe([], [], map[], Some(p.first), false, None)
    && forall i :: 0 <= i < |run| - 1 ==> PipeStep(run[i], run[i + 1], p)
  }

  // ------------------------------------------------------------------ what holds

  /** Sent, in flight and still to come are together always the whole sequence of batches, in order. */
  ghost predicate PipeOk<T>(s: Pipe<T>, p: Plan)
    requires ValidPlan(p)
  {
    var bs := Wanted(p);
    && |s.inFlight| <= Window(p)
    && |s.sent| <= |bs|
    && (forall i :: 0 <= i < |s.sent| ==> bs[i] in s.arrived && s.sent[i] == s.arrived[bs[i]] && !s.sent[i].TaskFailed?)
    && (forall i :: 0 <= i < |s.sent| - 1 ==> s.sent[i].Loaded?)
    && (s.ended.None? ==> forall r :: r in s.sent ==> r.Loaded?)
    && (s.ended.None? ==>
         && |s.sent| + |s.inFlight| <= |bs|
         && s.inFlight == bs[|s.sent|..|s.sent| + |s.inFlight|]
         && IsRest(s.next, bs, |s.sent| + |s.inFlight|, p.final, p.size))
    && (s.ended == Some(true) ==>
         s.gone || |s.sent| == |bs| || (s.sent != [] && s.sent[|s.sent| - 1].FetchFailed?))
    && (s.ended == Some(false) ==>
         |s.sent| < |bs| && bs[|s.sent|] in s.arrived && s.arrived[bs[|s.sent|]].TaskFailed?)
  }

  lemma SpawnKeeps<T(!new)>(s: Pipe<T>, s': Pipe<T>, p: Plan)
    requires ValidPlan(p) && PipeOk(s, p) && Spawns(s, s', p)
    ensures PipeOk(s', p)
  {
    var bs := Wanted(p);
    RestStep(s.next, bs, |s.sent| + |s.inFlight|, p.final, p.size);
  }

  lemma SendKeeps<T(!new)>(s: Pipe<T>, s': Pipe<T>, p: Plan)
    requires ValidPlan(p) && PipeOk(s, p) && Sends(s, s', p)
    ensures PipeOk(s', p)
  {
    var bs := Wanted(p);
    assert s.inFlight[0] == bs[|s.sent|];
    assert s.inFlight[1..] == bs[|s.sent| + 1..|s.sent| + |s.inFlight|];
  }

  lemma ArrivalKeeps<T(!new)>(s: Pipe<T>, s': Pipe<T>, p: Plan, b: ScanBatch, r: Fetched<T>)
    requires ValidPlan(p) && PipeOk(s, p) && Arrives(s, s', b, r)
    ensures PipeOk(s', p)
  {
    hide IsRest, Wanted;
  }

  lemma EndKeeps<T(!new)>(s: Pipe<T>, s': Pipe<T>, p: Plan)
    requires ValidPlan(p) && PipeOk(s, p) && (Leaves(s, s') || Finishes(s, s'))
    ensures PipeOk(s', p)
  {
    hide Wanted;
  }

  lemma PipeStepKeeps<T(!new)>(s: Pipe<T>, s': Pipe<T>, p: Plan)
    requires ValidPlan(p) && PipeOk(s, p) && PipeStep(s, s', p)
    ensures PipeOk(s', p)
  {
    hide PipeOk, Spawns, Arrives, Sends, Leaves, Finishes;
    if Spawns(s, s', p) { SpawnKeeps(s, s', p); }
    else if Sends(s, s', p) { SendKeeps(s, s', p); }
    else if Leaves(s, s') || Finishes(s, s') { EndKeeps(s, s', p); }
    else {
      var b, r :| Arrives(s, s', b, r);
      ArrivalKeeps(s, s', p, b, r);
    }
  }

  /**
   * In whatever order the fetches complete: at most `concurrency` are in flight, sent, in flight and
   * remaining are the whole batch sequence, and what was sent are the results of the first batches
   * in height order, all loaded but possibly the last.
   */
  lemma {:induction false} DownloadsInOrder<T(!new)>(run: seq<Pipe<T>>, p: Plan, k: nat)
    requires ValidPlan(p) && IsPipeRun(run, p) && k < |run|
    ensures PipeOk(run[k], p)
  {
    if k == 0 {
      assert Wanted(p)[0..] == Wanted(p);
    } else {
      DownloadsInOrder(run, p, k - 1);
      assert PipeStep(run[k - 1], run[k], p);
      PipeStepKeeps(run[k - 1], run[k], p);
    }
  }
}
