/** What the sync protocol achieves over whole runs: convergence, current depths, chain totals. */
module SyncResults {
  import opened Common
  import opened Sums
  import opened Receipts
  import opened TotalsIndex
  import opened Reconciliation
  import opened Outbox
  import opened Database
  import opened ScanPlan
  import opened Convergence
  import opened SyncProtocol
  import opened SyncRuns
  import opened SyncDepths

  // ------------------------------------------------------------------ every reachable state

  /** Unless receipts count while still in the mempool, the ledger holds mined rows only. */
  ghost predicate MinedOnly(l: Ledger, report: nat) {
    report != 0 ==> forall u :: u in l ==> l[u].kind.Mined?
  }

  ghost predicate KindsOk(s: Sys, p: Settings) {
    && MinedOnly(s.db.ledger, p.cfg.report)
    && (s.local.phase.Snapped? || s.local.phase.Checked? || s.local.phase.Applied? || s.local.phase.Peeked?
        ==> p.cfg.report == 0)
  }

  ghost predicate SysOk(s: Sys, p: Settings) {
    DbOk(s.db, p.cfg) && LedgerOk(s, p) && DepthsOk(s, p) && KindsOk(s, p)
  }

  /** Receipt transactions of the worker keep the invariants of the database. */
  lemma ReceiveKeeps(db: Db, op: ReceiptOp, cfg: Config)
    requires 0 < cfg.maxAttempts <= U32_MAX
    requires DbOk(db, cfg) && Attributable(db, op)
    ensures DbOk(AfterReceipts(db, op, cfg), cfg)
  {
    hide DbOk, AfterReceipts;
    StepKeeps(db, Receive(op), cfg);
  }

  lemma RecordKeeps(db: Db, tip: int, scanned: int, cfg: Config)
    requires 0 < cfg.maxAttempts <= U32_MAX && DbOk(db, cfg)
    ensures DbOk(db.(lastSeenTip := tip, lastScanned := scanned), cfg)
  {
    hide DbOk;
    StepKeeps(db, Record(tip, scanned), cfg);
  }

  lemma ReconcileKeepsDb(s: Sys, db': Db, b: ScanBatch, rs: seq<Attributed>, p: Settings)
    requires 0 < p.cfg.maxAttempts <= U32_MAX && DbOk(s.db, p.cfg) && Reconciles(s, db', b, rs, p)
    ensures DbOk(db', p.cfg)
    ensures MinedOnly(s.db.ledger, p.cfg.report) ==> MinedOnly(db'.ledger, p.cfg.report)
  {
    hide DbOk;
    ReceiveKeeps(s.db, Reconcile(rs, b.start, b.end, s.local.tip), p.cfg);
  }

  lemma SnapshotKeepsDb(s: Sys, db': Db, tip: nat, revoke: bool, p: Settings)
    requires 0 < p.cfg.maxAttempts <= U32_MAX && DbOk(s.db, p.cfg) && SnapshotApplied(s, db', tip, revoke, p)
    ensures DbOk(db', p.cfg)
  {
    hide DbOk, AfterReceipts;
    var now: Time :| var op := Snapshot(s.local.txids, s.local.rs, now, tip, revoke);
      Attributable(s.db, op) && db' == AfterReceipts(s.db, op, p.cfg);
    ReceiveKeeps(s.db, Snapshot(s.local.txids, s.local.rs, now, tip, revoke), p.cfg);
  }

  /** The worker's database transactions. */
  lemma ScanKeepsDb(s: Sys, s': Sys, p: Settings)
    requires 0 < p.cfg.maxAttempts <= U32_MAX && DbOk(s.db, p.cfg) && MinedOnly(s.db.ledger, p.cfg.report)
    requires OverlapStep(s, s', p) || BatchStep(s, s', p)
    ensures DbOk(s'.db, p.cfg) && MinedOnly(s'.db.ledger, p.cfg.report)
  {
    hide DbOk, Reconciles, Overlap, ForwardStart, NextScanBatch, MinedOnly;
    if OverlapStep(s, s', p) {
      if Overlap(s.local, p).Some? {
        var rs :| Reconciles(s, s'.db, Overlap(s.local, p).value, rs, p);
        ReconcileKeepsDb(s, s'.db, Overlap(s.local, p).value, rs, p);
      }
    } else {
      var b := NextScanBatch(s.local.next, s.local.tip, p.batchSize).value;
      var mid := s'.db.(lastSeenTip := s.db.lastSeenTip, lastScanned := s.db.lastScanned);
      var rs :| Reconciles(s, mid, b, rs, p);
      ReconcileKeepsDb(s, mid, b, rs, p);
      RecordKeeps(mid, s'.db.lastSeenTip, s'.db.lastScanned, p.cfg);
    }
  }

  lemma MaintenanceKeepsDb(s: Sys, s': Sys, p: Settings)
    requires 0 < p.cfg.maxAttempts <= U32_MAX && DbOk(s.db, p.cfg) && MinedOnly(s.db.ledger, p.cfg.report)
    requires CleanStep(s, s', p) || MatureStep(s, s', p)
    ensures DbOk(s'.db, p.cfg) && MinedOnly(s'.db.ledger, p.cfg.report)
  {
    hide DbOk;
    MaintenanceAttributable(s.db, s.local.tip);
    ReceiveKeeps(s.db, RevokeAbove(s.local.tip), p.cfg);
    ReceiveKeeps(s.db, Mature(s.local.tip), p.cfg);
  }

  lemma MempoolKeepsDb(s: Sys, s': Sys, p: Settings)
    requires 0 < p.cfg.maxAttempts <= U32_MAX && DbOk(s.db, p.cfg)
    requires PeekApplyStep(s, s', p) || ApplyStep(s, s', p)
    ensures DbOk(s'.db, p.cfg)
  {
    hide DbOk, SnapshotApplied;
    if ApplyStep(s, s', p) {
      SnapshotKeepsDb(s, s'.db, s.local.tip, s.local.revoke, p);
    } else {
      SnapshotKeepsDb(s, s'.db, s.settled.value, false, p);
    }
  }

  lemma OtherKeepsDb(s: Sys, s': Sys, p: Settings)
    requires 0 < p.cfg.maxAttempts <= U32_MAX && DbOk(s.db, p.cfg) && OtherStep(s, s', p)
    ensures DbOk(s'.db, p.cfg) && s'.db.ledger == s.db.ledger
  {
    hide DbOk;
    var op: Op :| !op.Receive? && !op.Record? && Enabled(s.db, op) && s' == s.(db := Next(s.db, op, p.cfg));
    StepKeeps(s.db, op, p.cfg);
  }

  lemma StepDb(s: Sys, s': Sys, p: Settings)
    requires 0 < p.cfg.maxAttempts <= U32_MAX && DbOk(s.db, p.cfg) && KindsOk(s, p) && SysStep(s, s', p)
    ensures DbOk(s'.db, p.cfg) && KindsOk(s', p)
  {
    hide DbOk, SnapshotApplied, Reconciles, Overlap, ForwardStart, NextScanBatch, MinedOnly, AfterReceipts, EnvOk, ForksAbove,
         TakenOver, BlockMined, ReadsMempool, ScannedThrough;
    if OverlapStep(s, s', p) || BatchStep(s, s', p) {
      ScanKeepsDb(s, s', p);
    } else if CleanStep(s, s', p) || MatureStep(s, s', p) {
      MaintenanceKeepsDb(s, s', p);
    } else if ApplyStep(s, s', p) || PeekApplyStep(s, s', p) {
      MempoolKeepsDb(s, s', p);
      AnyKind(s'.db.ledger);
    } else if CompleteStep(s, s', p) || MarkStep(s, s', p) {
      RecordKeeps(s.db, s'.db.lastSeenTip, s'.db.lastScanned, p.cfg);
    } else if OtherStep(s, s', p) {
      OtherKeepsDb(s, s', p);
    }
  }

  lemma AnyKind(l: Ledger)
    ensures MinedOnly(l, 0)
  {
  }

  lemma StepKeepsSys(s: Sys, s': Sys, p: Settings)
    requires 0 < p.cfg.maxAttempts <= U32_MAX && SysOk(s, p) && SysStep(s, s', p)
    ensures SysOk(s', p)
  {
    hide DbOk, LedgerOk, DepthsOk, KindsOk, SysStep;
    StepDb(s, s', p);
    StepLedger(s, s', p);
    StepDepths(s, s', p);
  }

  lemma StartOk(env: Env, required: Option<nat>, p: Settings)
    requires EnvOk(env, p.birthday)
    ensures SysOk(Start(env, required), p)
  {
    InitialOk(required, p.cfg);
    assert Between(env.chain, 0, -1) == map[];
  }

  /** Whatever the network does between iterations and wherever one is interrupted. */
  lemma {:induction false} SyncRunsAreOk(run: seq<Sys>, required: Option<nat>, p: Settings, k: nat)
    requires 0 < p.cfg.maxAttempts <= U32_MAX
    requires IsSyncRun(run, required, p) && k < |run|
    ensures SysOk(run[k], p)
  {
    hide SysOk, SysStep;
    if k == 0 {
      StartOk(run[0].env, required, p);
    } else {
      SyncRunsAreOk(run, required, p, k - 1);
      assert SysStep(run[k - 1], run[k], p);
      StepKeepsSys(run[k - 1], run[k], p);
    }
  }

  // ------------------------------------------------------------------ what a completed iteration leaves

  /** The iteration that ends with step `k` completed. */
  ghost predicate Completes(run: seq<Sys>, k: nat, p: Settings) {
    k + 1 < |run| && CompleteStep(run[k], run[k + 1], p)
  }

  /**
   * Reorg convergence: after every completed iteration the active mined receipts are exactly the
   * best chain's receipts up to the tip the iteration sampled.
   */
  lemma LedgerConverges(run: seq<Sys>, required: Option<nat>, p: Settings, k: nat)
    requires 0 < p.cfg.maxAttempts <= U32_MAX
    requires IsSyncRun(run, required, p) && Completes(run, k, p)
    ensures var s := run[k + 1];
      && s.settled.Some? && s.db.lastSeenTip == s.settled.value <= s.env.tip
      && ActiveMined(s.db.ledger) == Between(s.env.chain, 0, s.settled.value)
  {
    SyncRunsAreOk(run, required, p, k);
    CompletedChain(run[k], run[k + 1], p);
  }

  lemma CompletedChain(s: Sys, s': Sys, p: Settings)
    requires LedgerOk(s, p) && CompleteStep(s, s', p)
    ensures s'.settled == Some(s.local.tip) && s'.db.lastSeenTip == s.local.tip <= s'.env.tip
    ensures ActiveMined(s'.db.ledger) == Between(s'.env.chain, 0, s.local.tip)
  {
    hide Held, EnvOk, ReadingOk, Above, ScannedThrough;
  }

  /**
   * An idle worker over any ledger, such as the one an iteration leaves in which the chain was
   * reorganized: all that is asked is that below the floor its mined receipts are the chain's.
   */
  ghost predicate AnyLedger(s: Sys, p: Settings) {
    && s.local.phase.Idle? && EnvOk(s.env, p.birthday)
    && s.base == ActiveMined(s.db.ledger) && Above(s.base, p.birthday) && Held(s.db.ledger, s.db.lastScanned)
    && ForksAbove(s.env, s.base, s.floor)
  }

  ghost predicate IsStretch(run: seq<Sys>, p: Settings) {
    && |run| > 0 && AnyLedger(run[0], p)
    && forall i :: 0 <= i < |run| - 1 ==> SysStep(run[i], run[i + 1], p)
  }

  lemma AnyLedgerIsOk(s: Sys, p: Settings)
    requires AnyLedger(s, p)
    ensures LedgerOk(s, p)
  {
  }

  lemma {:induction false} StretchLedger(run: seq<Sys>, p: Settings, k: nat)
    requires IsStretch(run, p) && k < |run|
    ensures LedgerOk(run[k], p)
  {
    hide LedgerOk, AnyLedger, SysStep;
    if k == 0 {
      AnyLedgerIsOk(run[0], p);
    } else {
      StretchLedger(run, p, k - 1);
      assert SysStep(run[k - 1], run[k], p);
      StepLedger(run[k - 1], run[k], p);
    }
  }

  /**
   * Whatever was left in the ledger, a mixture of two chains included, the next iteration that
   * completes repairs it, as do all later ones: none of them needs the ledger to have been right.
   */
  lemma LedgerHeals(run: seq<Sys>, p: Settings, k: nat)
    requires IsStretch(run, p) && Completes(run, k, p)
    ensures var s := run[k + 1];
      && s.settled.Some? && s.db.lastSeenTip == s.settled.value <= s.env.tip
      && ActiveMined(s.db.ledger) == Between(s.env.chain, 0, s.settled.value)
  {
    StretchLedger(run, p, k);
    CompletedChain(run[k], run[k + 1], p);
  }

  /** When the array of an address is the one at `tip`: its receipts reach the slots they reached when it was last computed. */
  ghost predicate ArrayFits(db: Db, a: AddressId, tip: nat)
    requires a in db.box.index
  {
    db.required.Some? ==> SameDepths(db.ledger, a, db.box.index[a].tip, tip, db.required.value)
  }

  lemma ReadsExactly(db: Db, a: AddressId, tip: nat, finality: nat)
    requires IndexAgrees(db.ledger, db.box.index, finality, db.required) && a in db.box.index
    ensures ReadsAt(db, a, tip) <==> ArrayFits(db, a, tip)
  {
    var t := db.box.index[a];
    assert EntryAgrees(db.ledger, a, t, finality, db.required);
    if db.required.Some? {
      ArraysCoincide(db.ledger, a, t.tip, tip, db.required.value);
    }
  }

  /**
   * Exactly when the maturity pass leaves the right array, by what is known before it: it touches
   * the address, or no receipt reaches another slot than when the array was last computed.
   */
  lemma MaturityRepairs(db: Db, tip: nat, cfg: Config, a: AddressId)
    requires IndexAgrees(db.ledger, db.box.index, cfg.finality, db.required) && a in db.box.index
    ensures var db' := AfterReceipts(db, Mature(tip), cfg);
      && a in db'.box.index
      && (ReadsAt(db', a, tip) <==> a in MatureTouched(db.ledger, tip, cfg.report) || ArrayFits(db, a, tip))
  {
    hide IndexAgrees, ReadsAt, ArrayFits, MatureTouched, AfterReceipts;
    MaintenanceAttributable(db, tip);
    MaturityExactly(db, tip, cfg, a);
    ReadsExactly(db, a, tip, cfg.finality);
  }

  /**
   * Depths at the tip: after every completed iteration, whatever was interrupted before, every
   * active mined receipt stores its depth and eligibility for the sampled tip, and an address reads
   * the array that a computation from scratch gives at that tip exactly if no receipt reaches
   * another slot than at the tip the array was last computed for.
   */
  lemma DepthsConverge(run: seq<Sys>, required: Option<nat>, p: Settings, k: nat)
    requires 0 < p.cfg.maxAttempts <= U32_MAX
    requires IsSyncRun(run, required, p) && Completes(run, k, p)
    ensures var s := run[k + 1];
      && s.settled.Some?
      && (forall u :: u in s.db.ledger && s.db.ledger[u].active && s.db.ledger[u].kind.Mined? ==>
           var row := s.db.ledger[u];
           row.depth == DepthAt(s.settled.value, row.height) && row.eligible == (row.depth >= p.cfg.report))
      && (forall a :: a in s.db.box.index ==> (ReadsAt(s.db, a, s.settled.value) <==> ArrayFits(s.db, a, s.settled.value)))
  {
    hide IsSyncRun, LedgerOk, KindsOk, ReadsAt, ArrayFits, IndexAgrees, CompleteStep;
    SyncRunsAreOk(run, required, p, k + 1);
    var s := run[k + 1];
    SettledDepths(run[k], s, p);
    forall a | a in s.db.box.index ensures ReadsAt(s.db, a, s.settled.value) <==> ArrayFits(s.db, a, s.settled.value) {
      ReadsExactly(s.db, a, s.settled.value, p.cfg.finality);
    }
  }

  lemma SettledDepths(s0: Sys, s: Sys, p: Settings)
    requires CompleteStep(s0, s, p) && DepthsOk(s, p)
    ensures s.settled.Some? && RowsCurrent(s.db.ledger, s.settled.value, p.cfg.report)
  {
    hide RowsCurrent, ScannedThrough;
  }

  // ------------------------------------------------------------------ arrays after interruptions

  /** No iteration is interrupted after writing between states `i` and `k`. */
  ghost predicate Uninterrupted(run: seq<Sys>, i: nat, k: nat, p: Settings)
    requires i <= k < |run|
  {
    forall j :: i <= j < k ==> !Interrupts(run[j], run[j + 1], p)
  }

  /** An address whose array is right keeps a right array over any stretch without an interruption. */
  lemma {:induction false} ArraysStayRight(run: seq<Sys>, required: Option<nat>, p: Settings, i: nat, k: nat, a: AddressId)
    requires 0 < p.cfg.maxAttempts <= U32_MAX
    requires IsSyncRun(run, required, p) && i <= k < |run| && Uninterrupted(run, i, k, p)
    requires Follows(run[i], a)
    ensures Follows(run[k], a)
    decreases k
  {
    hide Follows, SysStep, Interrupts, DbOk, LedgerOk, DepthsOk, KindsOk;
    if i < k {
      assert !Interrupts(run[k - 1], run[k], p) && SysStep(run[k - 1], run[k], p);
      ArraysStayRight(run, required, p, i, k - 1, a);
      SyncRunsAreOk(run, required, p, k - 1);
      StepFollows(run[k - 1], run[k], p, a);
    }
  }

  lemma SettledArray(s0: Sys, s: Sys, p: Settings, a: AddressId)
    requires CompleteStep(s0, s, p) && a in s.db.box.index
    ensures s.settled.Some? && (Follows(s, a) <==> ReadsAt(s.db, a, s.settled.value))
  {
    hide ScannedThrough, ReadsAt;
  }

  /**
   * The arrays of every address are those of the tip after a completed iteration if none was
   * interrupted since the start, or since the last completed iteration after which the address
   * read the right array.
   */
  lemma ArraysConverge(run: seq<Sys>, required: Option<nat>, p: Settings, k: nat, a: AddressId)
    requires 0 < p.cfg.maxAttempts <= U32_MAX
    requires IsSyncRun(run, required, p) && Completes(run, k, p) && a in run[k + 1].db.box.index
    requires Uninterrupted(run, 0, k + 1, p)
      || exists j :: 0 <= j <= k && Completes(run, j, p) && Uninterrupted(run, j + 1, k + 1, p)
           && run[j + 1].settled.Some?
           && (a in run[j + 1].db.box.index ==> ReadsAt(run[j + 1].db, a, run[j + 1].settled.value))
    ensures run[k + 1].settled.Some? && ReadsAt(run[k + 1].db, a, run[k + 1].settled.value)
  {
    hide Follows, SysStep, Uninterrupted, CompleteStep, ReadsAt;
    if Uninterrupted(run, 0, k + 1, p) {
      assert Follows(run[0], a) by { NothingToFollow(run[0].env, required, a); }
      ArraysStayRight(run, required, p, 0, k + 1, a);
    } else {
      var j :| 0 <= j <= k && Completes(run, j, p) && Uninterrupted(run, j + 1, k + 1, p)
        && run[j + 1].settled.Some?
        && (a in run[j + 1].db.box.index ==> ReadsAt(run[j + 1].db, a, run[j + 1].settled.value));
      if a in run[j + 1].db.box.index {
        SettledArray(run[j], run[j + 1], p, a);
      } else {
        UnknownFollows(run[j + 1], a);
      }
      ArraysStayRight(run, required, p, j + 1, k + 1, a);
    }
    SettledArray(run[k], run[k + 1], p, a);
  }

  lemma NothingToFollow(env: Env, required: Option<nat>, a: AddressId)
    ensures Follows(Start(env, required), a)
  {
  }

  lemma UnknownFollows(s: Sys, a: AddressId)
    requires a !in s.db.box.index
    ensures Follows(s, a)
  {
  }

  /** States `j + 1` through `k` belong to one iteration that starts with step `j` and completes with step `k`. */
  ghost predicate Iterates(run: seq<Sys>, j: nat, k: nat, p: Settings) {
    && j < k && Completes(run, k, p) && SampleStep(run[j], run[j + 1], p)
    && forall i :: j < i <= k ==> !Waiting(run[i].local)
  }

  lemma {:induction false} IterationRenews(
    run: seq<Sys>, required: Option<nat>, p: Settings, j: nat, k: nat, i: nat, a: AddressId)
    requires 0 < p.cfg.maxAttempts <= U32_MAX
    requires IsSyncRun(run, required, p) && Iterates(run, j, k, p) && j < i <= k
    requires a in run[j].db.box.index
    ensures Renewed(run[i], run[j].db.ledger, run[j].db.box.index[a], a, p)
    ensures run[i].local.tip == run[j].env.tip
    decreases i
  {
    hide Renewed, SysStep, DbOk, LedgerOk, DepthsOk, KindsOk, CompleteStep, Waiting, SampleStep;
    if i == j + 1 {
      SampleRenews(run[j], run[i], p, a);
    } else {
      IterationRenews(run, required, p, j, k, i - 1, a);
      SyncRunsAreOk(run, required, p, i - 1);
      assert SysStep(run[i - 1], run[i], p);
      StepRenews(run[i - 1], run[i], run[j].db.ledger, run[j].db.box.index[a], a, p);
      SameTip(run[i - 1], run[i], p);
    }
  }

  lemma SampleRenews(s: Sys, s': Sys, p: Settings, a: AddressId)
    requires SampleStep(s, s', p) && a in s.db.box.index
    ensures Renewed(s', s.db.ledger, s.db.box.index[a], a, p) && s'.local.tip == s.env.tip
  {
    hide HasOutdated, Overlap;
  }

  lemma SameTip(s: Sys, s': Sys, p: Settings)
    requires SysStep(s, s', p) && !Waiting(s.local)
    ensures s'.local.tip == s.local.tip
  {
    hide Reconciles, SnapshotApplied, AfterReceipts, Overlap, ForwardStart, NextScanBatch, ScannedThrough, EnvOk, BlockMined,
         ForksAbove, ReadsMempool, ActiveMined, TakenOver, Enabled, Next;
  }

  /**
   * What an iteration does for an address, whatever was interrupted before it: it completes with the
   * right array exactly if it recomputed the address or the array was right already. It recomputes
   * every address that has a row which is not current for the new tip when the iteration starts,
   * and every address one of whose rows it moves.
   */
  lemma IterationHeals(run: seq<Sys>, required: Option<nat>, p: Settings, j: nat, k: nat, a: AddressId)
    requires 0 < p.cfg.maxAttempts <= U32_MAX
    requires IsSyncRun(run, required, p) && Iterates(run, j, k, p) && a in run[j].db.box.index
    ensures var s0, s := run[j], run[k + 1];
      && a in s.db.box.index && s.settled == Some(s0.env.tip)
      && (HasOutdated(s0.db.ledger, a, s0.env.tip, p.cfg.report) ==> s.db.box.index[a].tip == s0.env.tip)
      && (ReadsAt(s.db, a, s0.env.tip) <==> s.db.box.index[a].tip == s0.env.tip || ReadsAt(s0.db, a, s0.env.tip))
      && (s.db.box.index[a].tip != s0.env.tip ==> Unmoved(s0.db.ledger, s.db.ledger, a))
  {
    hide IsSyncRun, Renewed, Waiting, SampleStep, CompleteStep, HasOutdated, ReadsAt, Unmoved, SysOk;
    IterationRenews(run, required, p, j, k, k, a);
    SyncRunsAreOk(run, required, p, k + 1);
    CompletedRenewed(run[k], run[k + 1], run[j], p, a);
    RequiredIsFixed(run, required, p, j);
    RequiredIsFixed(run, required, p, k + 1);
    RenewedReads(run[j], run[k + 1], p, a);
  }

  lemma RenewedReads(s0: Sys, s: Sys, p: Settings, a: AddressId)
    requires SysOk(s, p) && a in s0.db.box.index && a in s.db.box.index && s.db.required == s0.db.required
    requires s.db.box.index[a].tip == s0.env.tip
      || (Unmoved(s0.db.ledger, s.db.ledger, a)
          && s.db.box.index[a].reported == s0.db.box.index[a].reported
          && !HasOutdated(s0.db.ledger, a, s0.env.tip, p.cfg.report))
    ensures s.db.box.index[a].tip == s0.env.tip ==> ReadsAt(s.db, a, s0.env.tip)
    ensures s.db.box.index[a].tip != s0.env.tip ==>
      (ReadsAt(s.db, a, s0.env.tip) <==> ReadsAt(s0.db, a, s0.env.tip))
  {
    hide LedgerOk, KindsOk, DepthsOk, OutboxOk, AttemptsOk, RowsKnown, IndexAgrees, ReadsAt, Unmoved, HasOutdated;
    ReadsExactly(s.db, a, s0.env.tip, p.cfg.finality);
    if s.db.box.index[a].tip == s0.env.tip {
      assert ArrayFits(s.db, a, s0.env.tip);
    } else {
      SameReading(s0.db, s.db, a, s0.env.tip);
    }
  }

  lemma CompletedRenewed(s: Sys, s': Sys, s0: Sys, p: Settings, a: AddressId)
    requires CompleteStep(s, s', p) && a in s0.db.box.index && s.local.tip == s0.env.tip
    requires Renewed(s, s0.db.ledger, s0.db.box.index[a], a, p)
    ensures a in s'.db.box.index && s'.settled == Some(s0.env.tip)
    ensures s'.db.box.index[a].tip == s0.env.tip
      || (Unmoved(s0.db.ledger, s'.db.ledger, a)
          && s'.db.box.index[a].reported == s0.db.box.index[a].reported
          && !HasOutdated(s0.db.ledger, a, s0.env.tip, p.cfg.report))
  {
    hide Unmoved, HasOutdated, ScannedThrough;
  }

  lemma SameReading(db: Db, db': Db, a: AddressId, tip: nat)
    requires a in db.box.index && a in db'.box.index && db'.required == db.required
    requires Unmoved(db.ledger, db'.ledger, a) && db'.box.index[a].reported == db.box.index[a].reported
    ensures ReadsAt(db', a, tip) <==> ReadsAt(db, a, tip)
  {
    UnmovedReports(db.ledger, db'.ledger, a, db.required);
    assert ReportedAt(db.ledger, a, tip, db.required) == ReportedAt(db'.ledger, a, tip, db.required);
  }

  lemma {:induction false} RequiredIsFixed(run: seq<Sys>, required: Option<nat>, p: Settings, k: nat)
    requires IsSyncRun(run, required, p) && k < |run|
    ensures run[k].db.required == required
  {
    hide SysStep;
    if k > 0 {
      RequiredIsFixed(run, required, p, k - 1);
      assert SysStep(run[k - 1], run[k], p);
      StepKeepsRequired(run[k - 1], run[k], p);
    }
  }

  lemma StepKeepsRequired(s: Sys, s': Sys, p: Settings)
    requires SysStep(s, s', p)
    ensures s'.db.required == s.db.required
  {
    hide LedgerAfter, Touched, Known, RecomputeAll, IsScan, Overlap, ForwardStart, NextScanBatch, ScannedThrough, BlockMined, EnvOk,
         ForksAbove, ReadsMempool, Attributable, TakenOver, ActiveMined, Enabled, EnqueuedAll, Finished, Claimed, Recovered, Issued;
  }

  // ------------------------------------------------------------------ what the addresses report

  /** The receipts of `a` on chain `c` that count at `tip` under the configured report depth. */
  function ChainReceipts(c: Chain, a: AddressId, tip: nat, report: nat): map<Uid, nat> {
    map u | u in c && c[u].addr == a && DepthAt(tip, c[u].height) >= report :: c[u].value
  }

  /** The receipts of `a` that are still in the mempool and fresh enough to count. */
  function Provisionals(l: Ledger, a: AddressId): map<Uid, nat> {
    map u | u in l && Counts(l[u], a) && l[u].kind.Mempool? :: l[u].value
  }

  lemma EligibleSplits(l: Ledger, a: AddressId, tip: nat, report: nat)
    requires RowsCurrent(l, tip, report)
    ensures Total(Eligible(l, a)) == Total(ChainReceipts(ActiveMined(l), a, tip, report)) + Total(Provisionals(l, a))
  {
    var whole, left, right := Eligible(l, a), ChainReceipts(ActiveMined(l), a, tip, report), Provisionals(l, a);
    forall u
      ensures u in whole <==> u in left + right
      ensures u in whole ==> whole[u] == (left + right)[u]
    {
    }
    assert whole == left + right;
    TotalSplit(whole, left, right);
  }

  /** What address `a` is worth on the chain `s` has scanned, plus its fresh mempool receipts. */
  ghost predicate ReportsChain(s: Sys, p: Settings, a: AddressId)
    requires a in s.db.box.index
  {
    && s.settled.Some?
    && s.db.box.index[a].reported.total
         == Total(ChainReceipts(Between(s.env.chain, 0, s.settled.value), a, s.settled.value, p.cfg.report))
            + Total(Provisionals(s.db.ledger, a))
    && (p.cfg.report != 0 ==> Provisionals(s.db.ledger, a) == map[])
  }

  lemma CompletedReports(s0: Sys, s: Sys, p: Settings, a: AddressId)
    requires SysOk(s0, p) && SysOk(s, p) && CompleteStep(s0, s, p) && a in s.db.box.index
    ensures ReportsChain(s, p, a)
  {
    hide LedgerOk, DepthsOk, OutboxOk, AttemptsOk, CompleteStep, RowsCurrent, Between, ActiveMined;
    CompletedChain(s0, s, p);
    SettledDepths(s0, s, p);
    EligibleSplits(s.db.ledger, a, s.settled.value, p.cfg.report);
    assert EntryAgrees(s.db.ledger, a, s.db.box.index[a], p.cfg.finality, s.db.required);
  }

  /**
   * After every completed iteration each address reports exactly the value the best chain pays it
   * at the configured depth, plus the fresh mempool receipts, which only mempool mode counts.
   */
  lemma TotalsConverge(run: seq<Sys>, required: Option<nat>, p: Settings, k: nat, a: AddressId)
    requires 0 < p.cfg.maxAttempts <= U32_MAX
    requires IsSyncRun(run, required, p) && Completes(run, k, p) && a in run[k + 1].db.box.index
    ensures ReportsChain(run[k + 1], p, a)
  {
    hide SysOk, SysStep, CompleteStep, ReportsChain;
    SyncRunsAreOk(run, required, p, k);
    SyncRunsAreOk(run, required, p, k + 1);
    CompletedReports(run[k], run[k + 1], p, a);
  }
}
