/**
 * A run of the sync protocol in which an interrupted iteration leaves an address with an array the
 * next completed iteration does not repair.
 */
module StaleArray {
  import opened Common
  import opened Sums
  import opened Receipts
  import opened TotalsIndex
  import opened Reconciliation
  import opened Outbox
  import opened Database
  import opened ScanPlan
  import opened Convergence
  import opened SyncProtocol
  import opened SyncResults

  /** Two receipts of one address; a reorganization removes the second. */
  const DEEP: Uid := Uid("deep", "orchard", 0)
  const LOST: Uid := Uid("lost", "orchard", 0)
  const BOTH: Chain := map[DEEP := OnChain(1, 5, 1), LOST := OnChain(1, 7, 2)]
  const FIRST: Chain := map[DEEP := OnChain(1, 5, 1)]
  const SCANNED: seq<Attributed> := [
    Attributed(DEEP, 1, 5, 1, 2, true, Mined, 0), Attributed(LOST, 1, 7, 2, 1, true, Mined, 0)]
  const BEFORE: Ledger := map[
    DEEP := Row(1, 5, 1, 2, true, Mined, 0, true),
    LOST := Row(1, 7, 2, 1, true, Mined, 0, true)]
  const AFTER: Ledger := map[
    DEEP := Row(1, 5, 1, 2, true, Mined, 0, true),
    LOST := Row(1, 7, 2, 1, true, Mined, 0, false)]
  const ONE: Settings := Settings(1, 10, Config(1, 1, 1))

  // ------------------------------------------------------------------ the databases of the run

  function Issued(): Db {
    Db(map[], Box([], map[1 := NEW_ENTRY], []), Some(3), 0, 0)
  }

  ghost function Paid(): Db {
    Db(BEFORE, Box([], map[1 := Recomputed(BEFORE, 1, NEW_ENTRY, 2, 1, Some(3))], []), Some(3), 2, 2)
  }

  /** After the overlap scan at tip 3 found nothing at height 2 any more. */
  ghost function Cut(): Db {
    Db(AFTER, Box([], map[1 := Recomputed(AFTER, 1, Paid().box.index[1], 3, 1, Some(3))], []), Some(3), 2, 2)
  }

  lemma TwoReceipts()
    ensures DEEP != LOST
  {
    assert "deep"[0] != "lost"[0];
  }

  lemma ScannedMap()
    ensures ScanMap(SCANNED) == map[DEEP := SCANNED[0], LOST := SCANNED[1]]
  {
    TwoReceipts();
    assert SCANNED[..1] == [SCANNED[0]];
    assert [SCANNED[0]][..0] == [];
    assert ScanMap([SCANNED[0]]) == map[DEEP := SCANNED[0]];
  }

  const FOUND: Scan := map[DEEP := SCANNED[0], LOST := SCANNED[1]]

  lemma FirstLedger()
    ensures Reconciled(map[], FOUND, 1, 2) == BEFORE && 1 in ReconcileTouched(map[], FOUND, 1, 2)
  {
    TwoReceipts();
    var l := Reconciled(map[], FOUND, 1, 2);
    assert l[DEEP] == BEFORE[DEEP] && l[LOST] == BEFORE[LOST];
    assert !InWindow(map[], DEEP, 1, 2);
    assert FOUND[DEEP].addr in ReconcileTouched(map[], FOUND, 1, 2);
  }

  lemma FirstIsScan()
    ensures IsScan(FOUND, BOTH, 1, 2, 2, 1)
  {
    TwoReceipts();
  }

  lemma FirstIndex(touched: set<AddressId>)
    requires 1 in touched
    ensures RecomputeAll(BEFORE, Issued().box.index, touched, 2, 1, Some(3)) == Paid().box.index
  {
    hide Recomputed;
  }

  lemma FirstScan()
    ensures var op := Reconcile(SCANNED, 1, 2, 2);
      && Attributable(Issued(), op)
      && AfterReceipts(Issued(), op, ONE.cfg) == Paid().(lastSeenTip := 0, lastScanned := 0)
    ensures IsScan(ScanMap(SCANNED), BOTH, 1, 2, 2, 1)
  {
    hide Reconciled, ReconcileTouched, IsScan, RecomputeAll, Recomputed, ScanMap;
    ScannedMap();
    FirstLedger();
    FirstIsScan();
    FirstIndex(ReconcileTouched(map[], FOUND, 1, 2));
  }

  lemma OverlapRevokes()
    ensures Reconciled(BEFORE, map[], 2, 2) == AFTER
    ensures 1 in ReconcileTouched(BEFORE, map[], 2, 2)
  {
    TwoReceipts();
    assert Vanished(BEFORE, map[], 2, 2, LOST);
    assert BEFORE[LOST].addr in ReconcileTouched(BEFORE, map[], 2, 2);
    var l := Reconciled(BEFORE, map[], 2, 2);
    assert l[DEEP] == AFTER[DEEP] && l[LOST] == AFTER[LOST];
  }

  lemma OverlapCuts()
    ensures var op := Reconcile([], 2, 2, 3); Attributable(Paid(), op) && AfterReceipts(Paid(), op, ONE.cfg) == Cut()
  {
    hide Reconciled, ReconcileTouched, Recomputed;
    OverlapRevokes();
  }

  lemma NothingLeftToDo()
    ensures Reconciled(AFTER, map[], 2, 2) == AFTER && ReconcileTouched(AFTER, map[], 2, 2) == {}
    ensures Matured(AFTER, 2, 1) == AFTER && MatureTouched(AFTER, 2, 1) == {}
    ensures Matured(BEFORE, 2, 1) == BEFORE && MatureTouched(BEFORE, 2, 1) == {}
  {
    TwoReceipts();
  }

  lemma Idles(db: Db, op: ReceiptOp, cfg: Config)
    requires LedgerAfter(db.ledger, op, cfg) == db.ledger && Touched(db.ledger, op, cfg) == {}
    ensures AfterReceipts(db, op, cfg) == db
  {
  }

  lemma SecondOverlap()
    ensures var op := Reconcile([], 2, 2, 2); Attributable(Cut(), op) && AfterReceipts(Cut(), op, ONE.cfg) == Cut()
    ensures AfterReceipts(Cut(), Mature(2), ONE.cfg) == Cut()
    ensures AfterReceipts(Paid(), Mature(2), ONE.cfg) == Paid()
  {
    hide AfterReceipts, Reconciled, ReconcileTouched, Matured, MatureTouched, Recomputed;
    NothingLeftToDo();
    Idles(Cut(), Reconcile([], 2, 2, 2), ONE.cfg);
    Idles(Cut(), Mature(2), ONE.cfg);
    Idles(Paid(), Mature(2), ONE.cfg);
  }

  // ------------------------------------------------------------------ the states of the run

  function Locals(phase: Phase, tip: nat, last: int, next: nat, target: Chain): Local {
    Local(phase, tip, last, next, target, {}, [], map[], false)
  }

  const TWO: Env := Env(BOTH, 2, {})
  const THREE: Env := Env(FIRST, 3, {})
  const BACK: Env := Env(FIRST, 2, {})

  /** The first iteration, at tip 2. */
  ghost function First(db: Db, local: Local): Sys {
    Sys(TWO, db, local, map[], 0, None)
  }

  /** The second, at tip 3, which is interrupted. */
  ghost function Second(db: Db, local: Local): Sys {
    Sys(THREE, db, local, BOTH, 2, Some(2))
  }

  /** The third, at tip 2 again. */
  ghost function Third(db: Db, local: Local): Sys {
    Sys(BACK, db, local, FIRST, 2, None)
  }

  lemma ExtendSync(run: seq<Sys>, s': Sys, required: Option<nat>, p: Settings)
    requires IsSyncRun(run, required, p) && SysStep(run[|run| - 1], s', p)
    ensures IsSyncRun(run + [s'], required, p) && (run + [s'])[|run + [s']| - 1] == s'
  {
    hide SysStep, EnvOk;
    var longer := run + [s'];
    assert longer[0] == run[0];
    forall i | 0 <= i < |longer| - 1 ensures SysStep(longer[i], longer[i + 1], p) {
      if i < |run| - 1 {
        assert longer[i] == run[i] && longer[i + 1] == run[i + 1];
      } else {
        assert longer[i] == run[|run| - 1] && longer[i + 1] == s';
      }
    }
  }

  lemma FirstStart()
    ensures IsSyncRun([Start(TWO, Some(3))], Some(3), ONE)
    ensures SysStep(Start(TWO, Some(3)), First(Issued(), Locals(Idle, 0, 0, 0, map[])), ONE)
  {
    TwoReceipts();
    var s, s' := Start(TWO, Some(3)), First(Issued(), Locals(Idle, 0, 0, 0, map[]));
    var op := Issue(1);
    assert Enabled(s.db, op) && Next(s.db, op, ONE.cfg) == Issued();
    assert s' == s.(db := Next(s.db, op, ONE.cfg));
    assert OtherStep(s, s', ONE);
  }

  lemma FirstIteration()
    ensures SampleStep(First(Issued(), Locals(Idle, 0, 0, 0, map[])), First(Issued(), Locals(Sampled, 2, 0, 0, BOTH)), ONE)
    ensures CleanStep(First(Issued(), Locals(Sampled, 2, 0, 0, BOTH)), First(Issued(), Locals(Cleaned, 2, 0, 0, BOTH)), ONE)
    ensures OverlapStep(First(Issued(), Locals(Cleaned, 2, 0, 0, BOTH)), First(Issued(), Locals(Scanning, 2, 0, 1, BOTH)), ONE)
    ensures BatchStep(First(Issued(), Locals(Scanning, 2, 0, 1, BOTH)), First(Paid(), Locals(Scanning, 2, 0, 3, BOTH)), ONE)
    ensures MatureStep(First(Paid(), Locals(Scanning, 2, 0, 3, BOTH)), First(Paid(), Locals(Maturing, 2, 0, 3, BOTH)), ONE)
    ensures CompleteStep(First(Paid(), Locals(Maturing, 2, 0, 3, BOTH)),
                         Second(Paid(), Locals(Idle, 2, 0, 3, BOTH)).(env := TWO), ONE)
  {
    hide AfterReceipts, IsScan, Attributable, Paid;
    FirstScan();
    SecondOverlap();
    PaidHeights();
    var s, s' := First(Issued(), Locals(Scanning, 2, 0, 1, BOTH)), First(Paid(), Locals(Scanning, 2, 0, 3, BOTH));
    assert NextScanBatch(1, 2, 10) == Some(ScanBatch(1, 2));
    assert Reconciles(s, s'.db.(lastSeenTip := 0, lastScanned := 0), ScanBatch(1, 2), SCANNED, ONE);
  }

  lemma PaidHeights()
    ensures Paid().lastSeenTip == 2 && Paid().lastScanned == 2 && Cut().lastSeenTip == 2 && Cut().lastScanned == 2
  {
  }

  lemma FirstReorg()
    ensures NetworkStep(Second(Paid(), Locals(Idle, 2, 0, 3, BOTH)).(env := TWO), Second(Paid(), Locals(Idle, 2, 0, 3, BOTH)), ONE)
    ensures NetworkStep(Third(Cut(), Locals(Idle, 3, 2, 3, FIRST)).(env := THREE), Third(Cut(), Locals(Idle, 3, 2, 3, FIRST)), ONE)
  {
    hide Paid, Cut;
    TwoReceipts();
    assert Between(FIRST, 0, 1) == FIRST;
    assert Between(BOTH, 0, 1) == FIRST;
  }

  lemma EmptyScan(env: Env, tip: nat)
    requires env.chain == FIRST
    ensures ScanMap([]) == map[] && IsScan(map[], env.chain, 2, 2, tip, 1)
  {
    assert Between(FIRST, 2, 2) == map[];
  }

  lemma SecondIteration()
    ensures SampleStep(Second(Paid(), Locals(Idle, 2, 0, 3, BOTH)), Second(Paid(), Locals(Sampled, 3, 2, 3, FIRST)), ONE)
    ensures CleanStep(Second(Paid(), Locals(Sampled, 3, 2, 3, FIRST)), Second(Paid(), Locals(Cleaned, 3, 2, 3, FIRST)), ONE)
    ensures OverlapStep(Second(Paid(), Locals(Cleaned, 3, 2, 3, FIRST)), Second(Cut(), Locals(Scanning, 3, 2, 3, FIRST)), ONE)
    ensures AbortStep(Second(Cut(), Locals(Scanning, 3, 2, 3, FIRST)),
                      Third(Cut(), Locals(Idle, 3, 2, 3, FIRST)).(env := THREE), ONE)
  {
    hide AfterReceipts, IsScan, Attributable, Paid, Cut, ActiveMined;
    PaidHeights();
    OverlapCuts();
    EmptyScan(THREE, 3);
    CutMined();
    var s, s' := Second(Paid(), Locals(Cleaned, 3, 2, 3, FIRST)), Second(Cut(), Locals(Scanning, 3, 2, 3, FIRST));
    assert Overlap(s.local, ONE) == Some(ScanBatch(2, 2));
    assert Reconciles(s, s'.db, ScanBatch(2, 2), [], ONE);
  }

  lemma CutMined()
    ensures ActiveMined(Cut().ledger) == FIRST
  {
    TwoReceipts();
  }

  lemma ThirdIteration()
    ensures SampleStep(Third(Cut(), Locals(Idle, 3, 2, 3, FIRST)), Third(Cut(), Locals(Sampled, 2, 2, 3, FIRST)), ONE)
    ensures CleanStep(Third(Cut(), Locals(Sampled, 2, 2, 3, FIRST)), Third(Cut(), Locals(Cleaned, 2, 2, 3, FIRST)), ONE)
    ensures OverlapStep(Third(Cut(), Locals(Cleaned, 2, 2, 3, FIRST)), Third(Cut(), Locals(Scanning, 2, 2, 3, FIRST)), ONE)
    ensures MatureStep(Third(Cut(), Locals(Scanning, 2, 2, 3, FIRST)), Third(Cut(), Locals(Maturing, 2, 2, 3, FIRST)), ONE)
    ensures CompleteStep(Third(Cut(), Locals(Maturing, 2, 2, 3, FIRST)), Ended(), ONE)
  {
    hide AfterReceipts, IsScan, Attributable, Cut;
    PaidHeights();
    SecondOverlap();
    EmptyScan(BACK, 2);
    var s, s' := Third(Cut(), Locals(Cleaned, 2, 2, 3, FIRST)), Third(Cut(), Locals(Scanning, 2, 2, 3, FIRST));
    assert Overlap(s.local, ONE) == Some(ScanBatch(2, 2));
    assert Reconciles(s, s'.db, ScanBatch(2, 2), [], ONE);
  }

  ghost function Ended(): Sys {
    Sys(BACK, Cut(), Locals(Idle, 2, 2, 3, FIRST), FIRST, 2, Some(2))
  }

  /** At tip 2 no receipt of the address has three confirmations, but its array still counts one. */
  lemma CountsOneTooMany()
    ensures 1 in Cut().box.index && !ReadsAt(Cut(), 1, 2)
  {
    var deep := AtDepth(AFTER, 1, 3, 3);
    assert DEEP in deep && deep[DEEP] == 5;
    if Total(deep) == 0 { TotalZero(deep); }
    assert AtDepth(AFTER, 1, 3, 2) == map[];
    assert ArrayAt(AFTER, 1, 3, 3)[3] != ArrayAt(AFTER, 1, 2, 3)[3];
  }

  lemma FirstPart() returns (run: seq<Sys>)
    ensures IsSyncRun(run, Some(3), ONE) && run[|run| - 1] == Second(Paid(), Locals(Idle, 2, 0, 3, BOTH))
  {
    hide IsSyncRun, SampleStep, CleanStep, OverlapStep, BatchStep, MatureStep, CompleteStep, NetworkStep, First, Second, Paid, Issued;
    FirstStart();
    FirstIteration();
    FirstReorg();
    run := [Start(TWO, Some(3))];
    ExtendSync(run, First(Issued(), Locals(Idle, 0, 0, 0, map[])), Some(3), ONE);
    run := run + [First(Issued(), Locals(Idle, 0, 0, 0, map[]))];
    ExtendSync(run, First(Issued(), Locals(Sampled, 2, 0, 0, BOTH)), Some(3), ONE);
    run := run + [First(Issued(), Locals(Sampled, 2, 0, 0, BOTH))];
    ExtendSync(run, First(Issued(), Locals(Cleaned, 2, 0, 0, BOTH)), Some(3), ONE);
    run := run + [First(Issued(), Locals(Cleaned, 2, 0, 0, BOTH))];
    ExtendSync(run, First(Issued(), Locals(Scanning, 2, 0, 1, BOTH)), Some(3), ONE);
    run := run + [First(Issued(), Locals(Scanning, 2, 0, 1, BOTH))];
    ExtendSync(run, First(Paid(), Locals(Scanning, 2, 0, 3, BOTH)), Some(3), ONE);
    run := run + [First(Paid(), Locals(Scanning, 2, 0, 3, BOTH))];
    ExtendSync(run, First(Paid(), Locals(Maturing, 2, 0, 3, BOTH)), Some(3), ONE);
    run := run + [First(Paid(), Locals(Maturing, 2, 0, 3, BOTH))];
    ExtendSync(run, Second(Paid(), Locals(Idle, 2, 0, 3, BOTH)).(env := TWO), Some(3), ONE);
    run := run + [Second(Paid(), Locals(Idle, 2, 0, 3, BOTH)).(env := TWO)];
    ExtendSync(run, Second(Paid(), Locals(Idle, 2, 0, 3, BOTH)), Some(3), ONE);
    run := run + [Second(Paid(), Locals(Idle, 2, 0, 3, BOTH))];
  }

  lemma SecondPart() returns (run: seq<Sys>)
    ensures IsSyncRun(run, Some(3), ONE) && run[|run| - 1] == Third(Cut(), Locals(Idle, 3, 2, 3, FIRST))
  {
    hide IsSyncRun, SampleStep, CleanStep, OverlapStep, AbortStep, NetworkStep, Second, Third, Paid, Cut;
    run := FirstPart();
    SecondIteration();
    FirstReorg();
    ExtendSync(run, Second(Paid(), Locals(Sampled, 3, 2, 3, FIRST)), Some(3), ONE);
    run := run + [Second(Paid(), Locals(Sampled, 3, 2, 3, FIRST))];
    ExtendSync(run, Second(Paid(), Locals(Cleaned, 3, 2, 3, FIRST)), Some(3), ONE);
    run := run + [Second(Paid(), Locals(Cleaned, 3, 2, 3, FIRST))];
    ExtendSync(run, Second(Cut(), Locals(Scanning, 3, 2, 3, FIRST)), Some(3), ONE);
    run := run + [Second(Cut(), Locals(Scanning, 3, 2, 3, FIRST))];
    ExtendSync(run, Third(Cut(), Locals(Idle, 3, 2, 3, FIRST)).(env := THREE), Some(3), ONE);
    run := run + [Third(Cut(), Locals(Idle, 3, 2, 3, FIRST)).(env := THREE)];
    ExtendSync(run, Third(Cut(), Locals(Idle, 3, 2, 3, FIRST)), Some(3), ONE);
    run := run + [Third(Cut(), Locals(Idle, 3, 2, 3, FIRST))];
  }

  /**
   * An iteration at tip 3 is cut short after its overlap scan, the chain falls back to height 2, and
   * the next iteration completes with every row current, but the address keeps the array of tip 3,
   * which counts a confirmation too many.
   */
  lemma InterruptionLeavesStaleArray() returns (run: seq<Sys>)
    ensures IsSyncRun(run, Some(3), ONE) && |run| >= 2 && Completes(run, |run| - 2, ONE)
    ensures var s := run[|run| - 1];
      s.settled.Some? && 1 in s.db.box.index && !ReadsAt(s.db, 1, s.settled.value)
  {
    hide IsSyncRun, SampleStep, CleanStep, OverlapStep, MatureStep, CompleteStep, Third, Cut, ReadsAt;
    run := SecondPart();
    ThirdIteration();
    ExtendSync(run, Third(Cut(), Locals(Sampled, 2, 2, 3, FIRST)), Some(3), ONE);
    run := run + [Third(Cut(), Locals(Sampled, 2, 2, 3, FIRST))];
    ExtendSync(run, Third(Cut(), Locals(Cleaned, 2, 2, 3, FIRST)), Some(3), ONE);
    run := run + [Third(Cut(), Locals(Cleaned, 2, 2, 3, FIRST))];
    ExtendSync(run, Third(Cut(), Locals(Scanning, 2, 2, 3, FIRST)), Some(3), ONE);
    run := run + [Third(Cut(), Locals(Scanning, 2, 2, 3, FIRST))];
    ExtendSync(run, Third(Cut(), Locals(Maturing, 2, 2, 3, FIRST)), Some(3), ONE);
    run := run + [Third(Cut(), Locals(Maturing, 2, 2, 3, FIRST))];
    ExtendSync(run, Ended(), Some(3), ONE);
    run := run + [Ended()];
    CountsOneTooMany();
  }
}
