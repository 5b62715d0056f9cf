/** From the mempool to a block: no run revokes a receipt whose transaction stays alive. */
module Handoff {
  import opened Common
  import opened Sums
  import opened Receipts
  import opened TotalsIndex
  import opened Reconciliation
  import opened Database
  import opened ScanPlan
  import opened Convergence
  import opened SyncProtocol
  import opened SyncRuns
  import opened SyncDepths
  import opened SyncResults

  /** The transaction is in the mempool or in a block. */
  predicate Alive(env: Env, u: Uid) {
    u.txid in env.mempool || u in env.chain
  }

  /** Once mined, the receipt stays where it is. */
  predicate StaysMined(env: Env, env': Env, u: Uid) {
    u in env.chain ==> u in env'.chain && env'.chain[u] == env.chain[u]
  }

  predicate IsActive(l: Ledger, u: Uid) {
    u in l && l[u].active
  }

  /** A mined row says what the chain says. */
  ghost predicate Agrees(l: Ledger, c: Chain, u: Uid) {
    u in ActiveMined(l) ==> u in c && c[u] == ActiveMined(l)[u]
  }

  ghost predicate HandsOver(s: Sys, u: Uid) {
    && Agrees(s.db.ledger, s.env.chain, u)
    && (s.local.phase.Sampled? ==> Agrees(s.db.ledger, s.local.target, u))
    && ((s.local.phase.Snapped? || s.local.phase.Checked?) && IsActive(s.db.ledger, u)
        ==> u.txid in s.local.txids || u in s.local.seen)
  }

  /** A scan of the current chain revokes nothing that is on it. */
  lemma ScanKeepsActive(l: Ledger, scan: Scan, c: Chain, b: ScanBatch, tip: nat, report: nat, u: Uid)
    requires IsScan(scan, c, b.start, b.end, tip, report) && Agrees(l, c, u)
    ensures var l' := Reconciled(l, scan, b.start, b.end);
      Agrees(l', c, u) && (IsActive(l, u) ==> IsActive(l', u))
  {
    assert u in scan <==> u in Between(c, b.start, b.end);
  }

  lemma ReconcileHandsOver(s: Sys, db': Db, b: ScanBatch, rs: seq<Attributed>, p: Settings, u: Uid)
    requires Reconciles(s, db', b, rs, p) && Agrees(s.db.ledger, s.env.chain, u)
    ensures Agrees(db'.ledger, s.env.chain, u) && (IsActive(s.db.ledger, u) ==> IsActive(db'.ledger, u))
  {
    ScanKeepsActive(s.db.ledger, ScanMap(rs), s.env.chain, b, s.local.tip, p.cfg.report, u);
  }

  lemma ScanHandsOver(s: Sys, s': Sys, p: Settings, u: Uid)
    requires HandsOver(s, u) && (OverlapStep(s, s', p) || BatchStep(s, s', p))
    ensures HandsOver(s', u) && (IsActive(s.db.ledger, u) ==> IsActive(s'.db.ledger, u))
  {
    hide Reconciles, Overlap, ForwardStart, NextScanBatch, Agrees, IsActive;
    if OverlapStep(s, s', p) {
      if Overlap(s.local, p).Some? {
        var rs :| Reconciles(s, s'.db, Overlap(s.local, p).value, rs, p);
        ReconcileHandsOver(s, s'.db, Overlap(s.local, p).value, rs, p, u);
      }
    } else {
      var b := NextScanBatch(s.local.next, s.local.tip, p.batchSize).value;
      var mid := s'.db.(lastSeenTip := s.db.lastSeenTip, lastScanned := s.db.lastScanned);
      var rs :| Reconciles(s, mid, b, rs, p);
      ReconcileHandsOver(s, mid, b, rs, p, u);
    }
  }

  /** What was on the chain when the tip was sampled is not above the tip. */
  lemma CleanHandsOver(s: Sys, s': Sys, p: Settings, u: Uid)
    requires HandsOver(s, u) && OnTarget(s, p) && CleanStep(s, s', p)
    ensures HandsOver(s', u) && (IsActive(s.db.ledger, u) ==> IsActive(s'.db.ledger, u))
  {
    hide Between, Above, RecomputeAll, RevokeTouched;
    assert u in ActiveMined(s.db.ledger) ==> s.db.ledger[u].height <= s.local.tip;
    assert IsActive(s.db.ledger, u) ==> !AboveTip(s.db.ledger[u], s.local.tip);
  }

  lemma CleaningIsBusy(s: Sys, s': Sys, p: Settings)
    requires CleanStep(s, s', p)
    ensures !Waiting(s.local)
  {
    hide AfterReceipts;
  }

  lemma MatureHandsOver(s: Sys, s': Sys, p: Settings, u: Uid)
    requires HandsOver(s, u) && MatureStep(s, s', p)
    ensures HandsOver(s', u) && (IsActive(s.db.ledger, u) ==> IsActive(s'.db.ledger, u))
  {
    hide RecomputeAll, MatureTouched;
    MatureKeepsMined(s.db.ledger, s.local.tip, p.cfg.report);
  }

  /** A snapshot revokes a receipt exactly if it may, and the receipt is provisional and gone. */
  lemma SnapshotRevokesExactly(
    l: Ledger, txids: set<string>, scan: Scan, now: Time, report: nat, revokeMissing: bool, u: Uid)
    requires IsActive(l, u)
    ensures !IsActive(Snapshotted(l, txids, scan, now, report, revokeMissing), u)
       <==> revokeMissing && u !in ActiveMined(l) && u.txid !in txids && u !in scan
  {
  }

  lemma SnapshotHandsOver(s: Sys, db': Db, tip: nat, revoke: bool, p: Settings, u: Uid)
    requires SnapshotApplied(s, db', tip, revoke, p)
    requires Agrees(s.db.ledger, s.env.chain, u)
    requires revoke && IsActive(s.db.ledger, u) ==> u.txid in s.local.txids || u in ActiveMined(s.db.ledger)
    ensures Agrees(db'.ledger, s.env.chain, u) && (IsActive(s.db.ledger, u) ==> IsActive(db'.ledger, u))
  {
    hide Attributable, Snapshotted, SnapshotTouched, RecomputeAll, ActiveMined, IsActive;
    var now: Time :| var op := Snapshot(s.local.txids, s.local.rs, now, tip, revoke);
      Attributable(s.db, op) && db' == AfterReceipts(s.db, op, p.cfg);
    SnapshotMined(s, db', tip, revoke, p, u);
    KnownOf(s.db, Snapshot(s.local.txids, s.local.rs, now, tip, revoke));
    if IsActive(s.db.ledger, u) {
      SnapshotRevokesExactly(s.db.ledger, s.local.txids, ScanMap(s.local.rs), now, p.cfg.report, revoke, u);
    }
  }

  /**
   * The order of the steps matters here: missing receipts are revoked only if the tip had not moved
   * when the snapshot was in hand, and then the ledger holds every block the snapshot could miss.
   */
  lemma ApplyHandsOver(s: Sys, s': Sys, p: Settings, u: Uid)
    requires HandsOver(s, u) && PhaseOk(s, p) && ApplyStep(s, s', p)
    ensures HandsOver(s', u) && (IsActive(s.db.ledger, u) ==> IsActive(s'.db.ledger, u))
  {
    hide Agrees, IsActive, SnapshotApplied, ReadingOk;
    SnapshotHandsOver(s, s'.db, s.local.tip, s.local.revoke, p, u);
  }

  lemma PeekHandsOver(s: Sys, s': Sys, p: Settings, u: Uid)
    requires HandsOver(s, u) && PeekApplyStep(s, s', p)
    ensures HandsOver(s', u) && (IsActive(s.db.ledger, u) ==> IsActive(s'.db.ledger, u))
  {
    hide Agrees, IsActive, SnapshotApplied;
    SnapshotHandsOver(s, s'.db, s.settled.value, false, p, u);
  }

  /** The steps that leave the ledger alone, and those of the network. */
  lemma WorkerHandsOver(s: Sys, s': Sys, p: Settings, u: Uid)
    requires HandsOver(s, u) && Alive(s.env, u)
    requires || SampleStep(s, s', p) || SnapStep(s, s', p) || CheckStep(s, s', p) || CompleteStep(s, s', p)
             || PeekStep(s, s', p) || AbortStep(s, s', p) || PeekAbortStep(s, s', p) || MarkStep(s, s', p)
    ensures HandsOver(s', u) && s'.db.ledger == s.db.ledger
  {
    hide Agrees, Overlap, ScannedThrough, TakenOver, ActiveMined, ForwardStart;
  }

  lemma NetworkHandsOver(s: Sys, s': Sys, p: Settings, u: Uid)
    requires HandsOver(s, u) && NetworkStep(s, s', p) && StaysMined(s.env, s'.env, u)
    ensures HandsOver(s', u) && s'.db.ledger == s.db.ledger
  {
    hide EnvOk, ForksAbove, BlockMined, MempoolChanged, ActiveMined;
  }

  lemma OtherHandsOver(s: Sys, s': Sys, p: Settings, u: Uid)
    requires HandsOver(s, u) && OtherStep(s, s', p)
    ensures HandsOver(s', u) && s'.db.ledger == s.db.ledger
  {
    hide Agrees;
  }

  lemma StepHandsOver(s: Sys, s': Sys, p: Settings, u: Uid)
    requires HandsOver(s, u) && LedgerOk(s, p) && SysStep(s, s', p)
    requires Alive(s.env, u) && StaysMined(s.env, s'.env, u)
    ensures HandsOver(s', u) && (IsActive(s.db.ledger, u) ==> IsActive(s'.db.ledger, u))
  {
    hide HandsOver, PhaseOk, OnTarget, Held, EnvOk, Above, IsActive, SampleStep, CleanStep, OverlapStep, BatchStep, MatureStep,
         SnapStep, CheckStep, ApplyStep, CompleteStep, PeekStep, PeekApplyStep, AbortStep, PeekAbortStep, MarkStep, NetworkStep, OtherStep;
    if OverlapStep(s, s', p) || BatchStep(s, s', p) { ScanHandsOver(s, s', p, u); }
    else if CleanStep(s, s', p) { CleaningIsBusy(s, s', p); CleanHandsOver(s, s', p, u); }
    else if MatureStep(s, s', p) { MatureHandsOver(s, s', p, u); }
    else if ApplyStep(s, s', p) { ApplyHandsOver(s, s', p, u); }
    else if PeekApplyStep(s, s', p) { PeekHandsOver(s, s', p, u); }
    else if NetworkStep(s, s', p) { NetworkHandsOver(s, s', p, u); }
    else if OtherStep(s, s', p) { OtherHandsOver(s, s', p, u); }
    else { WorkerHandsOver(s, s', p, u); }
  }

  // ------------------------------------------------------------------ all runs

  /** From state `b` on the transaction is in the mempool or in a block that is not reorganized away. */
  ghost predicate KeptAlive(run: seq<Sys>, u: Uid, b: nat) {
    && (forall k :: b <= k < |run| ==> Alive(run[k].env, u))
    && (forall k :: b <= k < |run| - 1 ==> StaysMined(run[k].env, run[k + 1].env, u))
  }

  /** A receipt that is not recorded as active agrees with any chain. */
  lemma UnrecordedHandsOver(s: Sys, u: Uid)
    requires !IsActive(s.db.ledger, u)
    ensures HandsOver(s, u)
  {
  }

  lemma {:induction false} RunHandsOver(run: seq<Sys>, required: Option<nat>, p: Settings, u: Uid, b: nat, k: nat)
    requires 0 < p.cfg.maxAttempts <= U32_MAX
    requires IsSyncRun(run, required, p) && KeptAlive(run, u, b) && b <= k < |run|
    requires !IsActive(run[b].db.ledger, u)
    ensures HandsOver(run[k], u)
    ensures k > b && IsActive(run[k - 1].db.ledger, u) ==> IsActive(run[k].db.ledger, u)
    decreases k
  {
    hide SysStep, HandsOver, LedgerOk, DbOk, DepthsOk, IsActive;
    if k == b {
      UnrecordedHandsOver(run[b], u);
    } else {
      RunHandsOver(run, required, p, u, b, k - 1);
      SyncRunsAreOk(run, required, p, k - 1);
      assert SysStep(run[k - 1], run[k], p);
      StepHandsOver(run[k - 1], run[k], p, u);
    }
  }

  /**
   * No false zero: whenever a transaction appears, before its receipt is recorded, and stays in the
   * mempool until it is mined for good, the receipt stays active from the moment it is recorded:
   * while the transaction waits, while it moves into a block and from then on, whatever else
   * happens to the chain, between the worker's steps and to its iterations.
   */
  lemma {:induction false} NoFalseZero(
    run: seq<Sys>, required: Option<nat>, p: Settings, u: Uid, b: nat, i: nat, k: nat)
    requires 0 < p.cfg.maxAttempts <= U32_MAX
    requires IsSyncRun(run, required, p) && KeptAlive(run, u, b) && b <= i <= k < |run|
    requires !IsActive(run[b].db.ledger, u) && IsActive(run[i].db.ledger, u)
    ensures IsActive(run[k].db.ledger, u)
    decreases k
  {
    hide IsSyncRun, KeptAlive, IsActive;
    if i < k {
      NoFalseZero(run, required, p, u, b, i, k - 1);
      RunHandsOver(run, required, p, u, b, k);
    }
  }

  // ------------------------------------------------------------------ what the receipt counts for

  /** In mempool mode an active row counts, and a provisional one was first seen at `f` or later. */
  predicate KeepsCounting(l: Ledger, u: Uid, f: Time) {
    && (IsActive(l, u) ==> l[u].eligible)
    && (u in l && l[u].kind.Mempool? ==> l[u].firstSeen >= f)
  }

  ghost predicate SnapshotAt(s: Sys, db': Db, now: Time, tip: nat, revoke: bool, p: Settings) {
    db' == AfterReceipts(s.db, Snapshot(s.local.txids, s.local.rs, now, tip, revoke), p.cfg)
  }

  ghost predicate SnapshotBefore(s: Sys, db': Db, limit: Time, tip: nat, revoke: bool, p: Settings) {
    exists now: Time :: now < limit && SnapshotAt(s, db', now, tip, revoke, p)
  }

  /** A snapshot is applied before the 24 hours from `f` are over, and a reading of `u` is no older than `f`. */
  ghost predicate InTime(s: Sys, s': Sys, p: Settings, u: Uid, f: Time) {
    && (ApplyStep(s, s', p) ==> SnapshotBefore(s, s'.db, f + FRESH_SECONDS, s.local.tip, s.local.revoke, p))
    && (PeekApplyStep(s, s', p) ==> SnapshotBefore(s, s'.db, f + FRESH_SECONDS, s.settled.value, false, p))
    && (ApplyStep(s, s', p) || PeekApplyStep(s, s', p)
        ==> forall r :: r in s.local.rs && r.uid == u ==> r.firstSeen >= f)
  }

  /** What an operation must bring along for the row to go on counting. */
  predicate BringsCounting(op: ReceiptOp, u: Uid, f: Time) {
    match op
    case Apply(rs, tip) => false
    case Reconcile(rs, lo, hi, tip) => u in ScanMap(rs) ==> ScanMap(rs)[u].kind.Mined? && ScanMap(rs)[u].eligible
    case Snapshot(txids, rs, now, tip, revoke) =>
      now < f + FRESH_SECONDS && (u in ScanMap(rs) ==> ScanMap(rs)[u].firstSeen >= f)
    case _ => true
  }

  lemma ReceiptsKeepCounting(db: Db, op: ReceiptOp, cfg: Config, u: Uid, f: Time)
    requires cfg.report == 0 && KeepsCounting(db.ledger, u, f) && BringsCounting(op, u, f)
    ensures KeepsCounting(AfterReceipts(db, op, cfg).ledger, u, f)
  {
    hide ScanMap, Touched, Known, RecomputeAll, InWindow;
  }

  lemma ReconcileKeepsCounting(s: Sys, db': Db, b: ScanBatch, rs: seq<Attributed>, p: Settings, u: Uid, f: Time)
    requires p.cfg.report == 0 && KeepsCounting(s.db.ledger, u, f) && Reconciles(s, db', b, rs, p)
    ensures KeepsCounting(db'.ledger, u, f)
  {
    hide ScanMap, AfterReceipts, KeepsCounting, Attributable;
    ReceiptsKeepCounting(s.db, Reconcile(rs, b.start, b.end, s.local.tip), p.cfg, u, f);
  }

  lemma ScanKeepsCounting(s: Sys, s': Sys, p: Settings, u: Uid, f: Time)
    requires p.cfg.report == 0 && KeepsCounting(s.db.ledger, u, f) && (OverlapStep(s, s', p) || BatchStep(s, s', p))
    ensures KeepsCounting(s'.db.ledger, u, f)
  {
    hide Reconciles, Overlap, ForwardStart, NextScanBatch, KeepsCounting;
    if OverlapStep(s, s', p) {
      if Overlap(s.local, p).Some? {
        var rs :| Reconciles(s, s'.db, Overlap(s.local, p).value, rs, p);
        ReconcileKeepsCounting(s, s'.db, Overlap(s.local, p).value, rs, p, u, f);
      }
    } else {
      var b := NextScanBatch(s.local.next, s.local.tip, p.batchSize).value;
      var mid := s'.db.(lastSeenTip := s.db.lastSeenTip, lastScanned := s.db.lastScanned);
      var rs :| Reconciles(s, mid, b, rs, p);
      ReconcileKeepsCounting(s, mid, b, rs, p, u, f);
    }
  }

  lemma SnapshotKeepsCounting(s: Sys, db': Db, tip: nat, revoke: bool, p: Settings, u: Uid, f: Time)
    requires p.cfg.report == 0 && KeepsCounting(s.db.ledger, u, f)
    requires SnapshotBefore(s, db', f + FRESH_SECONDS, tip, revoke, p)
    requires forall r :: r in s.local.rs && r.uid == u ==> r.firstSeen >= f
    ensures KeepsCounting(db'.ledger, u, f)
  {
    hide AfterReceipts, KeepsCounting;
    var now: Time :| now < f + FRESH_SECONDS && SnapshotAt(s, db', now, tip, revoke, p);
    ReceiptsKeepCounting(s.db, Snapshot(s.local.txids, s.local.rs, now, tip, revoke), p.cfg, u, f);
  }

  lemma CleanKeepsCounting(s: Sys, s': Sys, p: Settings, u: Uid, f: Time)
    requires p.cfg.report == 0 && KeepsCounting(s.db.ledger, u, f) && (CleanStep(s, s', p) || MatureStep(s, s', p))
    ensures KeepsCounting(s'.db.ledger, u, f)
  {
    hide AfterReceipts, KeepsCounting;
    ReceiptsKeepCounting(s.db, RevokeAbove(s.local.tip), p.cfg, u, f);
    ReceiptsKeepCounting(s.db, Mature(s.local.tip), p.cfg, u, f);
  }

  lemma StepKeepsCounting(s: Sys, s': Sys, p: Settings, u: Uid, f: Time)
    requires p.cfg.report == 0 && KeepsCounting(s.db.ledger, u, f) && SysStep(s, s', p) && InTime(s, s', p, u, f)
    ensures KeepsCounting(s'.db.ledger, u, f)
  {
    hide KeepsCounting, SnapshotBefore, CleanStep, OverlapStep, BatchStep, MatureStep, ApplyStep, PeekApplyStep;
    if OverlapStep(s, s', p) || BatchStep(s, s', p) { ScanKeepsCounting(s, s', p, u, f); }
    else if CleanStep(s, s', p) || MatureStep(s, s', p) { CleanKeepsCounting(s, s', p, u, f); }
    else if ApplyStep(s, s', p) { SnapshotKeepsCounting(s, s'.db, s.local.tip, s.local.revoke, p, u, f); }
    else if PeekApplyStep(s, s', p) {
      SettledWhenPeeked(s, s', p);
      SnapshotKeepsCounting(s, s'.db, s.settled.value, false, p, u, f);
    } else { RestKeepsLedger(s, s', p); }
  }

  lemma SettledWhenPeeked(s: Sys, s': Sys, p: Settings)
    requires PeekApplyStep(s, s', p)
    ensures s.settled.Some?
  {
  }

  lemma RestKeepsLedger(s: Sys, s': Sys, p: Settings)
    requires || SampleStep(s, s', p) || SnapStep(s, s', p) || CheckStep(s, s', p) || CompleteStep(s, s', p)
             || PeekStep(s, s', p) || AbortStep(s, s', p) || PeekAbortStep(s, s', p) || MarkStep(s, s', p)
             || NetworkStep(s, s', p) || OtherStep(s, s', p)
    ensures s'.db.ledger == s.db.ledger
  {
    hide EnvOk, ForksAbove, BlockMined, Overlap, ForwardStart, ScannedThrough, TakenOver, ActiveMined, ReadsMempool;
  }

  /** All snapshots applied from state `b` on are applied in time. */
  ghost predicate AllInTime(run: seq<Sys>, p: Settings, u: Uid, b: nat, f: Time) {
    forall k :: b <= k < |run| - 1 ==> InTime(run[k], run[k + 1], p, u, f)
  }

  lemma {:induction false} RunKeepsCounting(
    run: seq<Sys>, required: Option<nat>, p: Settings, u: Uid, b: nat, k: nat, f: Time)
    requires p.cfg.report == 0 && IsSyncRun(run, required, p) && AllInTime(run, p, u, b, f) && b <= k < |run|
    requires KeepsCounting(run[b].db.ledger, u, f)
    ensures KeepsCounting(run[k].db.ledger, u, f)
    decreases k
  {
    hide SysStep, InTime, KeepsCounting;
    if b < k {
      RunKeepsCounting(run, required, p, u, b, k - 1, f);
      assert SysStep(run[k - 1], run[k], p);
      StepKeepsCounting(run[k - 1], run[k], p, u, f);
    }
  }

  /**
   * In mempool mode the total a shop is told holds the receipt's value all along: from the moment it
   * is recorded, through the mempool while its 24 hours last, into a block and from then on.
   */
  lemma TotalHoldsReceipt(
    run: seq<Sys>, required: Option<nat>, p: Settings, u: Uid, b: nat, i: nat, k: nat, f: Time)
    requires 0 < p.cfg.maxAttempts <= U32_MAX && p.cfg.report == 0
    requires IsSyncRun(run, required, p) && KeptAlive(run, u, b) && AllInTime(run, p, u, b, f) && b <= i <= k < |run|
    requires !IsActive(run[b].db.ledger, u) && IsActive(run[i].db.ledger, u)
    requires u in run[b].db.ledger && run[b].db.ledger[u].kind.Mempool? ==> run[b].db.ledger[u].firstSeen >= f
    ensures var db := run[k].db;
      && IsActive(db.ledger, u) && db.ledger[u].addr in db.box.index
      && db.box.index[db.ledger[u].addr].reported.total >= db.ledger[u].value
  {
    hide IsSyncRun, KeptAlive, AllInTime, LedgerOk, DepthsOk;
    NoFalseZero(run, required, p, u, b, i, k);
    RunKeepsCounting(run, required, p, u, b, k, f);
    SyncRunsAreOk(run, required, p, k);
    TotalCovers(run[k].db, p.cfg, u);
  }

  lemma TotalCovers(db: Db, cfg: Config, u: Uid)
    requires RowsKnown(db) && IndexAgrees(db.ledger, db.box.index, cfg.finality, db.required)
    requires IsActive(db.ledger, u) && db.ledger[u].eligible
    ensures db.ledger[u].addr in db.box.index
    ensures db.box.index[db.ledger[u].addr].reported.total >= db.ledger[u].value
  {
    var a := db.ledger[u].addr;
    assert EntryAgrees(db.ledger, a, db.box.index[a], cfg.finality, db.required);
    assert u in Eligible(db.ledger, a);
    TotalRemove(Eligible(db.ledger, a), u);
  }
}
