/** Stored depths and per-depth arrays follow the tip along the runs of the sync protocol. */
module SyncDepths {
  import opened Common
  import opened Receipts
  import opened TotalsIndex
  import opened Reconciliation
  import opened Outbox
  import opened Database
  import opened ScanPlan
  import opened Convergence
  import opened SyncProtocol

  /** From the maturity pass on, and until the next iteration starts, every row is current. */
  ghost predicate RowsOk(s: Sys, p: Settings) {
    match s.local.phase
    case Idle => s.settled.Some? ==> RowsCurrent(s.db.ledger, s.settled.value, p.cfg.report)
    case Peeked => s.settled.Some? ==> RowsCurrent(s.db.ledger, s.settled.value, p.cfg.report)
    case Sampled => true
    case Cleaned => true
    case Scanning => true
    case _ => RowsCurrent(s.db.ledger, s.local.tip, p.cfg.report)
  }

  ghost predicate DepthsOk(s: Sys, p: Settings) {
    RowsKnown(s.db) && RowsOk(s, p)
  }

  /** The array of one address: as stored before an iteration, at the tip after its maturity pass. */
  ghost predicate ArrayOk(s: Sys, a: AddressId)
    requires a in s.db.box.index
  {
    match s.local.phase
    case Idle => if s.settled.Some? then ReadsAt(s.db, a, s.settled.value) else ReadsStored(s.db, a)
    case Peeked => if s.settled.Some? then ReadsAt(s.db, a, s.settled.value) else ReadsStored(s.db, a)
    case Sampled => ReadsStored(s.db, a)
    case Cleaned => ReadsAt(s.db, a, s.local.tip) || ReadsStored(s.db, a)
    case Scanning => ReadsAt(s.db, a, s.local.tip) || ReadsStored(s.db, a)
    case _ => ReadsAt(s.db, a, s.local.tip)
  }

  /** An address that does not exist yet has no array to follow. */
  ghost predicate Follows(s: Sys, a: AddressId) {
    a in s.db.box.index ==> ArrayOk(s, a)
  }

  // ------------------------------------------------------------------ databases

  lemma SettledIsStored(db: Db, a: AddressId, tip: nat, report: nat)
    requires a in db.box.index && RowsCurrent(db.ledger, tip, report) && ReadsAt(db, a, tip)
    ensures ReadsStored(db, a)
  {
    CurrentIsStored(db, a, tip, report);
  }

  lemma RecordKeepsArray(db: Db, db': Db, a: AddressId)
    requires db' == db.(lastSeenTip := db'.lastSeenTip, lastScanned := db'.lastScanned) && a in db.box.index
    ensures forall t: nat :: ReadsAt(db', a, t) <==> ReadsAt(db, a, t)
    ensures ReadsStored(db', a) <==> ReadsStored(db, a)
  {
  }

  lemma OthersKeepRows(db: Db, op: Op, cfg: Config)
    requires Enabled(db, op) && !op.Receive? && !op.Record? && RowsKnown(db)
    ensures Next(db, op, cfg).ledger == db.ledger && RowsKnown(Next(db, op, cfg))
    ensures db.box.index.Keys <= Next(db, op, cfg).box.index.Keys
  {
    if op.Enqueue? {
      EnqueueAllAmounts(db.box, op.addrs, op.now);
    } else if op.Finish? {
      FinishAmounts(db.box, op.i, op.outcome, op.now, op.next, cfg.maxAttempts);
    }
  }

  lemma MaintenanceAttributable(db: Db, tip: nat)
    ensures Attributable(db, RevokeAbove(tip)) && Attributable(db, Mature(tip))
  {
  }

  lemma MaturedRows(db: Db, tip: nat, cfg: Config)
    ensures RowsCurrent(AfterReceipts(db, Mature(tip), cfg).ledger, tip, cfg.report)
  {
  }

  lemma SameAddresses(db: Db, op: ReceiptOp, cfg: Config)
    ensures AfterReceipts(db, op, cfg).box.index.Keys == db.box.index.Keys
  {
    hide LedgerAfter, Touched, Known;
  }

  // ------------------------------------------------------------------ the transactions of an iteration

  /** The transactions of a step, at the tip of the iteration. */
  ghost predicate Writes(s: Sys, s': Sys, op: ReceiptOp, tip: nat, p: Settings) {
    && Attributable(s.db, op) && op.tip == tip
    && s'.db == AfterReceipts(s.db, op, p.cfg).(lastSeenTip := s'.db.lastSeenTip, lastScanned := s'.db.lastScanned)
  }

  lemma CleanWrites(s: Sys, s': Sys, p: Settings)
    requires CleanStep(s, s', p)
    ensures s'.db == s.db || Writes(s, s', RevokeAbove(s.local.tip), s.local.tip, p)
  {
    hide AfterReceipts, Attributable;
    MaintenanceAttributable(s.db, s.local.tip);
    StatusKept(s.db, RevokeAbove(s.local.tip), p.cfg);
  }

  lemma MatureWrites(s: Sys, s': Sys, p: Settings)
    requires MatureStep(s, s', p)
    ensures Writes(s, s', Mature(s.local.tip), s.local.tip, p)
  {
    hide AfterReceipts, Attributable;
    MaintenanceAttributable(s.db, s.local.tip);
    StatusKept(s.db, Mature(s.local.tip), p.cfg);
  }

  lemma StatusKept(db: Db, op: ReceiptOp, cfg: Config)
    ensures AfterReceipts(db, op, cfg).lastSeenTip == db.lastSeenTip
    ensures AfterReceipts(db, op, cfg).lastScanned == db.lastScanned
  {
    hide LedgerAfter, Touched, RecomputeAll, Known;
  }

  lemma ScanWrites(s: Sys, s': Sys, p: Settings) returns (op: ReceiptOp)
    requires OverlapStep(s, s', p) || BatchStep(s, s', p)
    ensures s'.db == s.db || Writes(s, s', op, s.local.tip, p)
  {
    hide AfterReceipts, Attributable, IsScan, Overlap, ForwardStart, NextScanBatch;
    op := RevokeAbove(0);
    if OverlapStep(s, s', p) {
      if Overlap(s.local, p).Some? {
        var b := Overlap(s.local, p).value;
        var rs :| Reconciles(s, s'.db, b, rs, p);
        op := Reconcile(rs, b.start, b.end, s.local.tip);
      }
    } else {
      var b := NextScanBatch(s.local.next, s.local.tip, p.batchSize).value;
      var mid := s'.db.(lastSeenTip := s.db.lastSeenTip, lastScanned := s.db.lastScanned);
      var rs :| Reconciles(s, mid, b, rs, p);
      op := Reconcile(rs, b.start, b.end, s.local.tip);
    }
  }

  lemma MempoolWrites(s: Sys, s': Sys, tip: nat, revoke: bool, p: Settings) returns (op: ReceiptOp)
    requires SnapshotApplied(s, s'.db, tip, revoke, p)
    ensures op.Snapshot? && Writes(s, s', op, tip, p)
    ensures RowsCurrent(s.db.ledger, tip, p.cfg.report) ==> RowsCurrent(s'.db.ledger, tip, p.cfg.report)
  {
    hide AfterReceipts, Attributable, RowsCurrent;
    var now: Time :| var o := Snapshot(s.local.txids, s.local.rs, now, tip, revoke);
      Attributable(s.db, o) && s'.db == AfterReceipts(s.db, o, p.cfg);
    op := Snapshot(s.local.txids, s.local.rs, now, tip, revoke);
    if RowsCurrent(s.db.ledger, tip, p.cfg.report) { SnapshotRows(s.db, op, p.cfg); }
  }

  lemma SnapshotRows(db: Db, op: ReceiptOp, cfg: Config)
    requires op.Snapshot? && RowsCurrent(db.ledger, op.tip, cfg.report)
    ensures RowsCurrent(AfterReceipts(db, op, cfg).ledger, op.tip, cfg.report)
  {
    hide RowsCurrent, ScanMap, RecomputeAll, SnapshotTouched, Known, Snapshotted;
    SnapshotKeepsCurrent(db.ledger, op.txids, ScanMap(op.rs), op.now, cfg.report, op.revokeMissing, op.tip);
  }

  lemma WritesKnown(s: Sys, s': Sys, op: ReceiptOp, tip: nat, p: Settings)
    requires Writes(s, s', op, tip, p) && RowsKnown(s.db)
    ensures RowsKnown(s'.db) && s'.db.box.index.Keys == s.db.box.index.Keys
  {
    hide AfterReceipts, Attributable;
    ReceiptsKeepRows(s.db, op, p.cfg);
    SameAddresses(s.db, op, p.cfg);
  }

  // ------------------------------------------------------------------ rows

  lemma StepRows(s: Sys, s': Sys, p: Settings)
    requires DepthsOk(s, p) && WorkerStep(s, s', p)
    ensures DepthsOk(s', p)
  {
    hide RowsCurrent, RowsKnown, SnapshotApplied, Reconciles, Overlap, ForwardStart, NextScanBatch, ScannedThrough,
         TakenOver, ReadsMempool, AfterReceipts, ActiveMined, Writes, Attributable;
    if CleanStep(s, s', p) {
      CleanWrites(s, s', p);
      if s'.db != s.db { WritesKnown(s, s', RevokeAbove(s.local.tip), s.local.tip, p); }
    } else if OverlapStep(s, s', p) || BatchStep(s, s', p) {
      var op := ScanWrites(s, s', p);
      if s'.db != s.db { WritesKnown(s, s', op, s.local.tip, p); }
    } else if MatureStep(s, s', p) {
      MatureWrites(s, s', p);
      WritesKnown(s, s', Mature(s.local.tip), s.local.tip, p);
      MaturedRows(s.db, s.local.tip, p.cfg);
    } else if ApplyStep(s, s', p) {
      var op := MempoolWrites(s, s', s.local.tip, s.local.revoke, p);
      WritesKnown(s, s', op, s.local.tip, p);
    } else if PeekApplyStep(s, s', p) {
      var op := MempoolWrites(s, s', s.settled.value, false, p);
      WritesKnown(s, s', op, s.settled.value, p);
    } else if MarkStep(s, s', p) || CompleteStep(s, s', p) {
      RecordKnown(s.db, s'.db);
    }
  }

  lemma RecordKnown(db: Db, db': Db)
    requires db' == db.(lastSeenTip := db'.lastSeenTip, lastScanned := db'.lastScanned)
    ensures RowsKnown(db') <==> RowsKnown(db)
  {
  }

  lemma OtherDepths(s: Sys, s': Sys, p: Settings)
    requires DepthsOk(s, p) && OtherStep(s, s', p)
    ensures DepthsOk(s', p)
  {
    hide RowsCurrent, RowsKnown, Enabled, Next;
    var op: Op :| !op.Receive? && !op.Record? && Enabled(s.db, op) && s' == s.(db := Next(s.db, op, p.cfg));
    OthersKeepRows(s.db, op, p.cfg);
  }

  /** Every step of every actor keeps the stored depths. */
  lemma StepDepths(s: Sys, s': Sys, p: Settings)
    requires DepthsOk(s, p) && SysStep(s, s', p)
    ensures DepthsOk(s', p)
  {
    hide WorkerStep, OtherStep, RowsCurrent, RowsKnown, EnvOk, ForksAbove, BlockMined;
    if WorkerStep(s, s', p) {
      StepRows(s, s', p);
    } else if OtherStep(s, s', p) {
      OtherDepths(s, s', p);
    }
  }

  // ------------------------------------------------------------------ arrays

  lemma WrittenArray(s: Sys, s': Sys, op: ReceiptOp, tip: nat, p: Settings, a: AddressId)
    requires Writes(s, s', op, tip, p) && a in s.db.box.index
    ensures a in s'.db.box.index
    ensures ReadsAt(s.db, a, tip) ==> ReadsAt(s'.db, a, tip)
    ensures ReadsStored(s.db, a) ==> ReadsAt(s'.db, a, tip) || ReadsStored(s'.db, a)
  {
    hide AfterReceipts, ReadsAt, ReadsStored, Attributable;
    ReceiptsFollow(s.db, op, p.cfg, a);
    RecordKeepsArray(AfterReceipts(s.db, op, p.cfg), s'.db, a);
  }

  lemma SampleFollows(s: Sys, s': Sys, p: Settings, a: AddressId)
    requires DepthsOk(s, p) && (SampleStep(s, s', p) || PeekAbortStep(s, s', p)) && Follows(s, a)
    ensures Follows(s', a)
  {
    hide ReadsAt, ReadsStored, RowsCurrent, RowsKnown, Overlap;
    if a in s.db.box.index && s.settled.Some? {
      SettledIsStored(s.db, a, s.settled.value, p.cfg.report);
    }
  }

  lemma ScanFollows(s: Sys, s': Sys, p: Settings, a: AddressId)
    requires CleanStep(s, s', p) || OverlapStep(s, s', p) || BatchStep(s, s', p)
    requires a in s.db.box.index && Follows(s, a)
    ensures Follows(s', a)
  {
    hide ReadsAt, ReadsStored, Writes, Reconciles, Overlap, ForwardStart, NextScanBatch, AfterReceipts;
    if CleanStep(s, s', p) {
      CleanWrites(s, s', p);
      if s'.db != s.db { WrittenArray(s, s', RevokeAbove(s.local.tip), s.local.tip, p, a); }
    } else {
      var op := ScanWrites(s, s', p);
      if s'.db != s.db { WrittenArray(s, s', op, s.local.tip, p, a); }
    }
  }

  lemma MatureFollows(s: Sys, s': Sys, p: Settings, a: AddressId)
    requires MatureStep(s, s', p) && a in s.db.box.index && Follows(s, a)
    ensures Follows(s', a)
  {
    hide ReadsAt, ReadsStored, AfterReceipts;
    MaintenanceAttributable(s.db, s.local.tip);
    MaturityCompletes(s.db, s.local.tip, p.cfg, a);
  }

  lemma MempoolFollows(s: Sys, s': Sys, p: Settings, a: AddressId)
    requires (ApplyStep(s, s', p) || PeekApplyStep(s, s', p)) && a in s.db.box.index && Follows(s, a)
    ensures Follows(s', a)
  {
    hide ReadsAt, ReadsStored, SnapshotApplied, Writes, RowsCurrent;
    if ApplyStep(s, s', p) {
      var op := MempoolWrites(s, s', s.local.tip, s.local.revoke, p);
      WrittenArray(s, s', op, s.local.tip, p, a);
    } else {
      var op := MempoolWrites(s, s', s.settled.value, false, p);
      WrittenArray(s, s', op, s.settled.value, p, a);
    }
  }

  lemma RecordFollows(s: Sys, s': Sys, p: Settings, a: AddressId)
    requires (CompleteStep(s, s', p) || MarkStep(s, s', p)) && a in s.db.box.index && Follows(s, a)
    ensures Follows(s', a)
  {
    hide ReadsAt, ReadsStored, ScannedThrough, ForwardStart;
    RecordKeepsArray(s.db, s'.db, a);
  }

  lemma IdleFollows(s: Sys, s': Sys, p: Settings, a: AddressId)
    requires || SnapStep(s, s', p) || CheckStep(s, s', p) || PeekStep(s, s', p) || NetworkStep(s, s', p)
             || (AbortStep(s, s', p) && s.local.phase.Sampled?)
    requires Follows(s, a)
    ensures Follows(s', a)
  {
    hide ReadsAt, ReadsStored, EnvOk, ForksAbove, BlockMined, ReadsMempool, ActiveMined;
  }

  lemma OtherFollows(s: Sys, s': Sys, p: Settings, a: AddressId)
    requires DepthsOk(s, p) && OtherStep(s, s', p) && Follows(s, a)
    ensures Follows(s', a)
  {
    hide ReadsAt, ReadsStored, RowsCurrent, RowsKnown, Enabled, Next;
    var op: Op :| !op.Receive? && !op.Record? && Enabled(s.db, op) && s' == s.(db := Next(s.db, op, p.cfg));
    OthersKeepRows(s.db, op, p.cfg);
    if a in s'.db.box.index {
      OthersKeepArrays(s.db, op, p.cfg, a);
    }
  }

  lemma AfterAddresses(db: Db, op: ReceiptOp, cfg: Config)
    ensures AfterReceipts(db, op, cfg).box.index.Keys == db.box.index.Keys
  {
    hide LedgerAfter, Touched, Known, Recomputed;
  }

  lemma ReceiptAddresses(s: Sys, s': Sys, p: Settings)
    requires || CleanStep(s, s', p) || OverlapStep(s, s', p) || BatchStep(s, s', p) || MatureStep(s, s', p)
             || ApplyStep(s, s', p) || PeekApplyStep(s, s', p)
    ensures s'.db.box.index.Keys == s.db.box.index.Keys
  {
    hide AfterReceipts, IsScan, Overlap, ForwardStart, NextScanBatch, ScannedThrough, Attributable, ActiveMined;
    forall db: Db, op: ReceiptOp ensures AfterReceipts(db, op, p.cfg).box.index.Keys == db.box.index.Keys {
      AfterAddresses(db, op, p.cfg);
    }
  }

  lemma WorkerAddresses(s: Sys, s': Sys, p: Settings)
    requires WorkerStep(s, s', p) || NetworkStep(s, s', p)
    ensures s'.db.box.index.Keys == s.db.box.index.Keys
  {
    hide CleanStep, OverlapStep, BatchStep, MatureStep, ApplyStep, PeekApplyStep, EnvOk, ForksAbove, BlockMined,
         Overlap, ForwardStart, ScannedThrough, TakenOver, ActiveMined;
    if || CleanStep(s, s', p) || OverlapStep(s, s', p) || BatchStep(s, s', p) || MatureStep(s, s', p)
       || ApplyStep(s, s', p) || PeekApplyStep(s, s', p) {
      ReceiptAddresses(s, s', p);
    }
  }

  /** Every step that does not interrupt an iteration keeps the array of an address on its way. */
  lemma StepFollows(s: Sys, s': Sys, p: Settings, a: AddressId)
    requires DepthsOk(s, p) && SysStep(s, s', p) && !Interrupts(s, s', p) && Follows(s, a)
    ensures Follows(s', a)
  {
    hide DepthsOk, ArrayOk, SampleStep, CleanStep, OverlapStep, BatchStep, MatureStep, SnapStep, CheckStep, ApplyStep, CompleteStep,
         PeekStep, PeekApplyStep, AbortStep, PeekAbortStep, NetworkStep, OtherStep, MarkStep;
    if OtherStep(s, s', p) {
      OtherFollows(s, s', p, a);
    } else {
      WorkerAddresses(s, s', p);
      if a in s.db.box.index {
        if SampleStep(s, s', p) || PeekAbortStep(s, s', p) { SampleFollows(s, s', p, a); }
        else if CleanStep(s, s', p) || OverlapStep(s, s', p) || BatchStep(s, s', p) { ScanFollows(s, s', p, a); }
        else if MatureStep(s, s', p) { MatureFollows(s, s', p, a); }
        else if ApplyStep(s, s', p) || PeekApplyStep(s, s', p) { MempoolFollows(s, s', p, a); }
        else if CompleteStep(s, s', p) || MarkStep(s, s', p) { RecordFollows(s, s', p, a); }
        else { IdleFollows(s, s', p, a); }
      }
    }
  }

  // ------------------------------------------------------------------ one iteration, whatever came before

  ghost predicate HasOutdated(l: Ledger, a: AddressId, tip: nat, report: nat) {
    exists u :: u in l && l[u].addr == a && Outdated(l[u], tip, report)
  }

  /**
   * Within an iteration that found ledger `l0` and entry `t0`: the address was recomputed at the tip,
   * or it is as it was found, and after the maturity pass none of its rows was outdated.
   */
  ghost predicate Renewed(s: Sys, l0: Ledger, t0: Entry, a: AddressId, p: Settings) {
    && a in s.db.box.index
    && (s.db.box.index[a].tip == s.local.tip
        || (Unmoved(l0, s.db.ledger, a)
            && s.db.box.index[a].reported == t0.reported && s.db.box.index[a].tip == t0.tip
            && (PastMaturity(s) ==> !HasOutdated(l0, a, s.local.tip, p.cfg.report))))
  }

  predicate PastMaturity(s: Sys) {
    s.local.phase.Maturing? || s.local.phase.Snapped? || s.local.phase.Checked? || s.local.phase.Applied?
  }

  lemma UnmovedChain(l: Ledger, l': Ledger, l'': Ledger, a: AddressId)
    requires Unmoved(l, l', a) && Unmoved(l', l'', a)
    ensures Unmoved(l, l'', a)
  {
    forall u ensures Sighting(l, u, a) == Sighting(l'', u, a) {
      assert Sighting(l, u, a) == Sighting(l', u, a) == Sighting(l'', u, a);
    }
  }

  /** A transaction at the tip of the iteration recomputes an address or leaves it alone. */
  lemma WriteRenews(s: Sys, s': Sys, op: ReceiptOp, p: Settings, a: AddressId)
    requires Writes(s, s', op, s.local.tip, p) && a in s.db.box.index
    ensures a in s'.db.box.index
    ensures s'.db.box.index[a].tip == s.local.tip
      || (Unmoved(s.db.ledger, s'.db.ledger, a) && s'.db.box.index[a] == s.db.box.index[a]
          && a !in Touched(s.db.ledger, op, p.cfg))
  {
    hide LedgerAfter, Touched, ReportedAt, Unmoved, KeepsAddresses;
    if a !in Touched(s.db.ledger, op, p.cfg) {
      TouchesWhatMoves(s.db.ledger, op, p.cfg, a);
    }
  }

  lemma WriteKeepsRenewed(s: Sys, s': Sys, op: ReceiptOp, l0: Ledger, t0: Entry, a: AddressId, p: Settings)
    requires Writes(s, s', op, s.local.tip, p) && Renewed(s, l0, t0, a, p)
    requires s'.local.tip == s.local.tip && (PastMaturity(s') ==> PastMaturity(s))
    ensures Renewed(s', l0, t0, a, p)
  {
    hide Writes, Unmoved, HasOutdated, Touched;
    WriteRenews(s, s', op, p, a);
    if s'.db.box.index[a].tip != s.local.tip {
      UnmovedChain(l0, s.db.ledger, s'.db.ledger, a);
    }
  }

  /** Rows the maturity pass does not touch were current already when the iteration began. */
  lemma UntouchedIsCurrent(l0: Ledger, l: Ledger, a: AddressId, tip: nat, report: nat)
    requires Unmoved(l0, l, a) && a !in MatureTouched(l, tip, report)
    ensures !HasOutdated(l0, a, tip, report)
  {
    forall u | u in l0 && l0[u].addr == a ensures !Outdated(l0[u], tip, report) {
      assert Sighting(l0, u, a) == Sighting(l, u, a);
      assert u in l && l[u].addr == a && l[u].(firstSeen := 0) == l0[u].(firstSeen := 0);
      assert Outdated(l[u], tip, report) <==> Outdated(l0[u], tip, report);
    }
  }

  lemma MatureKeepsRenewed(s: Sys, s': Sys, l0: Ledger, t0: Entry, a: AddressId, p: Settings)
    requires MatureStep(s, s', p) && Renewed(s, l0, t0, a, p)
    ensures Renewed(s', l0, t0, a, p)
  {
    hide Unmoved, HasOutdated, MatureTouched, AfterReceipts, Writes;
    MatureWrites(s, s', p);
    WriteRenews(s, s', Mature(s.local.tip), p, a);
    if s'.db.box.index[a].tip != s.local.tip {
      if s.db.box.index[a].tip != s.local.tip {
        UntouchedIsCurrent(l0, s.db.ledger, a, s.local.tip, p.cfg.report);
        UnmovedChain(l0, s.db.ledger, s'.db.ledger, a);
      }
    }
  }

  lemma OtherKeepsRenewed(s: Sys, s': Sys, l0: Ledger, t0: Entry, a: AddressId, p: Settings)
    requires DepthsOk(s, p) && OtherStep(s, s', p) && Renewed(s, l0, t0, a, p)
    ensures Renewed(s', l0, t0, a, p)
  {
    hide Unmoved, HasOutdated, Enabled, Next;
    var op: Op :| !op.Receive? && !op.Record? && Enabled(s.db, op) && s' == s.(db := Next(s.db, op, p.cfg));
    OthersKeepFigures(s.db, op, p.cfg, a);
  }

  lemma OthersKeepFigures(db: Db, op: Op, cfg: Config, a: AddressId)
    requires Enabled(db, op) && !op.Receive? && !op.Record? && a in db.box.index
    ensures Next(db, op, cfg).ledger == db.ledger && a in Next(db, op, cfg).box.index
    ensures var t, t' := db.box.index[a], Next(db, op, cfg).box.index[a]; t'.reported == t.reported && t'.tip == t.tip
  {
    hide EnqueuedAll, Finished;
    if op.Enqueue? {
      EnqueueAllAmounts(db.box, op.addrs, op.now);
    } else if op.Finish? {
      FinishAmounts(db.box, op.i, op.outcome, op.now, op.next, cfg.maxAttempts);
    }
    var t, t' := db.box.index[a], Next(db, op, cfg).box.index[a];
    assert Amounts(t') == Amounts(t);
    assert t.reported == Amounts(t).reported && t'.reported == Amounts(t').reported;
    assert t.tip == Amounts(t).tip && t'.tip == Amounts(t').tip;
  }

  lemma IdleKeepsRenewed(s: Sys, s': Sys, l0: Ledger, t0: Entry, a: AddressId, p: Settings)
    requires SnapStep(s, s', p) || CheckStep(s, s', p) || NetworkStep(s, s', p) || MarkStep(s, s', p)
    requires Renewed(s, l0, t0, a, p)
    ensures Renewed(s', l0, t0, a, p)
  {
    hide Unmoved, HasOutdated, EnvOk, ForksAbove, BlockMined, ReadsMempool, ForwardStart;
  }

  lemma WorkKeepsRenewed(s: Sys, s': Sys, l0: Ledger, t0: Entry, a: AddressId, p: Settings)
    requires CleanStep(s, s', p) || OverlapStep(s, s', p) || BatchStep(s, s', p) || ApplyStep(s, s', p)
    requires Renewed(s, l0, t0, a, p)
    ensures Renewed(s', l0, t0, a, p)
  {
    hide Unmoved, HasOutdated, Writes, Reconciles, Overlap, ForwardStart, NextScanBatch, AfterReceipts, SnapshotApplied, RowsCurrent;
    if CleanStep(s, s', p) {
      CleanWrites(s, s', p);
      if s'.db != s.db { WriteKeepsRenewed(s, s', RevokeAbove(s.local.tip), l0, t0, a, p); }
    } else if ApplyStep(s, s', p) {
      var op := MempoolWrites(s, s', s.local.tip, s.local.revoke, p);
      WriteKeepsRenewed(s, s', op, l0, t0, a, p);
    } else {
      var op := ScanWrites(s, s', p);
      if s'.db != s.db { WriteKeepsRenewed(s, s', op, l0, t0, a, p); }
    }
  }

  /** The steps of one iteration, between its first and its last. */
  lemma StepRenews(s: Sys, s': Sys, l0: Ledger, t0: Entry, a: AddressId, p: Settings)
    requires DepthsOk(s, p) && SysStep(s, s', p) && Renewed(s, l0, t0, a, p)
    requires !Waiting(s.local) && !Waiting(s'.local)
    ensures Renewed(s', l0, t0, a, p)
  {
    hide DepthsOk, Renewed, CleanStep, OverlapStep, BatchStep, MatureStep, SnapStep, CheckStep, ApplyStep, NetworkStep,
         OtherStep, MarkStep;
    if OtherStep(s, s', p) { OtherKeepsRenewed(s, s', l0, t0, a, p); }
    else if MatureStep(s, s', p) { MatureKeepsRenewed(s, s', l0, t0, a, p); }
    else if CleanStep(s, s', p) || OverlapStep(s, s', p) || BatchStep(s, s', p) || ApplyStep(s, s', p) {
      WorkKeepsRenewed(s, s', l0, t0, a, p);
    }
    else { IdleKeepsRenewed(s, s', l0, t0, a, p); }
  }
}
