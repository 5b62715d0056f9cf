/**
 * What the steps of an iteration do to the ledger and the arrays: the new chain replaces the old
 * one, and every depth is brought to the tip.
 */
module Convergence {
  import opened Common
  import opened Receipts
  import opened TotalsIndex
  import opened Reconciliation
  import opened Database
  import opened ScanPlan

  /** Receipts of known addresses that never change their address. */
  ghost predicate Attributable(db: Db, op: ReceiptOp) {
    Enabled(db, Receive(op)) && Known(db.box.index, op)
  }

  // ------------------------------------------------------------------ convergence

  /** `part` holds receipts of `whole` only, as `whole` holds them. */
  ghost predicate PartOf(part: Chain, whole: Chain) {
    forall u :: u in part ==> u in whole && part[u] == whole[u]
  }

  /** The ledger holds the old chain through `through`, at least what lies below `floor`. */
  ghost predicate Keeps(l: Ledger, base: Chain, through: int, floor: nat) {
    && PartOf(ActiveMined(l), Between(base, 0, through))
    && PartOf(Between(base, 0, Min(through, floor - 1)), ActiveMined(l))
  }

  /** The ledger holds exactly the new chain below `next`. */
  ghost predicate Adopted(l: Ledger, target: Chain, next: nat) {
    && Between(ActiveMined(l), 0, next - 1) == Between(target, 0, next - 1)
    && forall u :: u in ActiveMined(l) ==> ActiveMined(l)[u].height < Max(next, 1)
  }

  ghost predicate Above(c: Chain, birthday: nat) {
    forall u :: u in c ==> birthday <= c[u].height
  }

  lemma RevokeTrims(l: Ledger, base: Chain, last: int, tip: nat, floor: nat)
    requires Keeps(l, base, last, floor)
    ensures Keeps(if last > tip then RevokedAbove(l, tip) else l, base, Min(last, tip), floor)
  {
    var l' := if last > tip then RevokedAbove(l, tip) else l;
    var am, am' := ActiveMined(l), ActiveMined(l');
    forall u
      ensures u in am' <==> u in am && am[u].height <= tip
      ensures u in am' ==> am'[u] == am[u]
    {
      if u in am { assert u in Between(base, 0, last); }
    }
    forall u | u in Between(base, 0, Min(Min(last, tip), floor - 1))
      ensures u in am' && base[u] == am'[u]
    {
      assert u in Between(base, 0, Min(last, floor - 1));
    }
  }

  /** Without an overlap window there is nothing below the forward scan to keep. */
  lemma NothingToOverlap(l: Ledger, base: Chain, target: Chain, end: int, floor: nat, birthday: nat)
    requires Keeps(l, base, end, floor) && Above(base, birthday) && Above(target, birthday)
    requires end <= 0 || end < birthday
    ensures Adopted(l, target, birthday)
  {
    forall u | u in ActiveMined(l) ensures ActiveMined(l)[u].height < Max(birthday, 1) && ActiveMined(l)[u].height == birthday {
      assert u in Between(base, 0, end);
    }
  }

  /** The overlap window replaces the old chain by the new one, which agrees with it below. */
  lemma OverlapAdopts(
    l: Ledger, scan: Scan, base: Chain, target: Chain, b: ScanBatch, tip: nat, report: nat, floor: nat)
    requires Keeps(l, base, b.end, floor) && b.start <= b.end && b.start <= floor
    requires Between(target, 0, floor - 1) == Between(base, 0, floor - 1)
    requires IsScan(scan, target, b.start, b.end, tip, report)
    ensures Adopted(Reconciled(l, scan, b.start, b.end), target, b.end + 1)
  {
    SameBelowWindow(l, base, target, b, floor);
    ScanAdopts(l, scan, target, b, tip, report);
  }

  lemma ScanAdopts(l: Ledger, scan: Scan, target: Chain, b: ScanBatch, tip: nat, report: nat)
    requires Between(ActiveMined(l), 0, b.start - 1) == Between(target, 0, b.start - 1) && b.start <= b.end
    requires forall u :: u in ActiveMined(l) ==> ActiveMined(l)[u].height <= b.end
    requires IsScan(scan, target, b.start, b.end, tip, report)
    ensures Adopted(Reconciled(l, scan, b.start, b.end), target, b.end + 1)
  {
    ReconcileAdopts(l, scan, target, b.start, b.end, tip, report);
    WholeIsAdopted(Reconciled(l, scan, b.start, b.end), target, b.end);
  }

  lemma SameBelowWindow(l: Ledger, base: Chain, target: Chain, b: ScanBatch, floor: nat)
    requires Keeps(l, base, b.end, floor) && b.start <= b.end && b.start <= floor
    requires Between(target, 0, floor - 1) == Between(base, 0, floor - 1)
    ensures Between(ActiveMined(l), 0, b.start - 1) == Between(target, 0, b.start - 1)
    ensures forall u :: u in ActiveMined(l) ==> ActiveMined(l)[u].height <= b.end
  {
    var left, right := Between(ActiveMined(l), 0, b.start - 1), Between(target, 0, b.start - 1);
    forall u
      ensures u in left <==> u in right
      ensures u in right ==> left[u] == right[u]
      ensures u in ActiveMined(l) ==> ActiveMined(l)[u].height <= b.end
    {
      BelowWindow(l, base, target, b, floor, u);
    }
  }

  lemma BelowWindow(l: Ledger, base: Chain, target: Chain, b: ScanBatch, floor: nat, u: Uid)
    requires Keeps(l, base, b.end, floor) && b.start <= b.end && b.start <= floor
    requires Between(target, 0, floor - 1) == Between(base, 0, floor - 1)
    ensures u in Between(ActiveMined(l), 0, b.start - 1) <==> u in Between(target, 0, b.start - 1)
    ensures u in Between(target, 0, b.start - 1) ==> ActiveMined(l)[u] == target[u]
    ensures u in ActiveMined(l) ==> ActiveMined(l)[u].height <= b.end
  {
    var am := ActiveMined(l);
    assert u in am ==> u in Between(base, 0, b.end) && am[u] == base[u];
    assert u in Between(target, 0, floor - 1) <==> u in Between(base, 0, floor - 1);
    assert u in Between(target, 0, floor - 1) ==> Between(target, 0, floor - 1)[u] == Between(base, 0, floor - 1)[u];
    assert u in Between(base, 0, b.start - 1) ==> u in Between(base, 0, Min(b.end, floor - 1));
  }

  lemma WholeIsAdopted(l: Ledger, target: Chain, hi: int)
    requires hi >= 0 && ActiveMined(l) == Between(target, 0, hi)
    ensures Adopted(l, target, hi + 1)
  {
  }

  lemma BatchAdopts(l: Ledger, scan: Scan, target: Chain, b: ScanBatch, tip: nat, report: nat)
    requires Adopted(l, target, b.start) && b.start <= b.end
    requires IsScan(scan, target, b.start, b.end, tip, report)
    ensures Adopted(Reconciled(l, scan, b.start, b.end), target, b.end + 1)
  {
    ScanAdopts(l, scan, target, b, tip, report);
  }

  lemma SameWindow(scan: Scan, c: Chain, d: Chain, lo: nat, hi: nat, tip: nat, report: nat)
    requires hi <= tip && Between(c, 0, tip) == Between(d, 0, tip)
    requires IsScan(scan, c, lo, hi, tip, report)
    ensures IsScan(scan, d, lo, hi, tip, report)
  {
    assert Between(c, lo, hi) == Between(Between(c, 0, tip), lo, hi);
    assert Between(d, lo, hi) == Between(Between(d, 0, tip), lo, hi);
    forall u | u in scan ensures c[u] == d[u] {
      assert u in Between(c, lo, hi);
      assert Between(c, 0, tip)[u] == Between(d, 0, tip)[u];
    }
  }

  /** Maturity and the mempool snapshot leave the mined receipts of the ledger alone. */
  lemma MatureKeepsMined(l: Ledger, tip: nat, report: nat)
    ensures ActiveMined(Matured(l, tip, report)) == ActiveMined(l)
  {
  }

  /** A snapshot keeps every mined receipt whose transaction was not in the mempool. */
  lemma SnapshotKeepsMined(
    l: Ledger, txids: set<string>, scan: Scan, now: Time, report: nat, revokeMissing: bool, u: Uid)
    requires u !in scan
    ensures u in ActiveMined(Snapshotted(l, txids, scan, now, report, revokeMissing)) <==> u in ActiveMined(l)
    ensures u in ActiveMined(l) ==>
      ActiveMined(Snapshotted(l, txids, scan, now, report, revokeMissing))[u] == ActiveMined(l)[u]
  {
  }

  lemma SnapshotGainsNothing(
    l: Ledger, txids: set<string>, scan: Scan, now: Time, report: nat, revokeMissing: bool, u: Uid)
    requires u in scan
    ensures u !in ActiveMined(Snapshotted(l, txids, scan, now, report, revokeMissing))
  {
  }

  // ------------------------------------------------------------------ depths

  /** Every active mined row stores its depth and eligibility for `tip`. */
  ghost predicate RowsCurrent(l: Ledger, tip: nat, report: nat) {
    forall u :: u in l && l[u].active && l[u].kind.Mined? ==> DepthCurrent(l[u], tip, report)
  }

  ghost predicate ReadsAt(db: Db, a: AddressId, tip: nat)
    requires a in db.box.index
  {
    db.required.Some? ==> Reading(db.box.index[a], db.required) == Some(ArrayAt(db.ledger, a, tip, db.required.value))
  }

  ghost predicate ReadsStored(db: Db, a: AddressId)
    requires a in db.box.index
  {
    db.required.Some? ==> Reading(db.box.index[a], db.required) == Some(StoredArray(db.ledger, a, db.required.value))
  }

  lemma TouchedReadsTip(db: Db, op: ReceiptOp, cfg: Config, a: AddressId)
    requires Attributable(db, op) && a in db.box.index
    ensures var db' := AfterReceipts(db, op, cfg);
      && a in db'.box.index
      && (a in Touched(db.ledger, op, cfg) ==> ReadsAt(db', a, op.tip))
      && (a !in Touched(db.ledger, op, cfg) ==>
           (forall t: nat :: ReadsAt(db, a, t) ==> ReadsAt(db', a, t)) && (ReadsStored(db, a) ==> ReadsStored(db', a)))
  {
    var db' := AfterReceipts(db, op, cfg);
    if a !in Touched(db.ledger, op, cfg) {
      TouchesWhatMoves(db.ledger, op, cfg, a);
      UnmovedReports(db.ledger, db'.ledger, a, db.required);
      if db.required.Some? {
        forall t: nat ensures ArrayAt(db.ledger, a, t, db.required.value) == ArrayAt(db'.ledger, a, t, db.required.value) {
          assert ReportedAt(db.ledger, a, t, db.required) == ReportedAt(db'.ledger, a, t, db.required);
        }
      }
    }
  }

  /** During an iteration an array is either already recomputed at the tip or as it was found. */
  lemma ReceiptsFollow(db: Db, op: ReceiptOp, cfg: Config, a: AddressId)
    requires Attributable(db, op) && a in db.box.index
    ensures var db' := AfterReceipts(db, op, cfg);
      && a in db'.box.index
      && (ReadsAt(db, a, op.tip) ==> ReadsAt(db', a, op.tip))
      && (ReadsStored(db, a) ==> ReadsAt(db', a, op.tip) || ReadsStored(db', a))
  {
    TouchedReadsTip(db, op, cfg, a);
  }

  /** Current rows make the stored depths those of the tip. */
  lemma CurrentIsStored(db: Db, a: AddressId, tip: nat, report: nat)
    requires a in db.box.index
    requires forall u :: u in db.ledger && db.ledger[u].addr == a && db.ledger[u].active && db.ledger[u].kind.Mined?
               ==> DepthCurrent(db.ledger[u], tip, report)
    ensures ReadsAt(db, a, tip) <==> ReadsStored(db, a)
  {
    if db.required.Some? {
      forall k: nat ensures AtDepth(db.ledger, a, k, tip) == AtStoredDepth(db.ledger, a, k) { }
      assert ArrayAt(db.ledger, a, tip, db.required.value) == StoredArray(db.ledger, a, db.required.value);
    }
  }

  /** The maturity pass brings an array to the tip exactly if it touches the address or the array was there. */
  lemma MaturityExactly(db: Db, tip: nat, cfg: Config, a: AddressId)
    requires Attributable(db, Mature(tip)) && a in db.box.index
    ensures var db' := AfterReceipts(db, Mature(tip), cfg);
      && a in db'.box.index
      && (ReadsAt(db', a, tip) <==> a in MatureTouched(db.ledger, tip, cfg.report) || ReadsAt(db, a, tip))
  {
    var db' := AfterReceipts(db, Mature(tip), cfg);
    TouchedReadsTip(db, Mature(tip), cfg, a);
    if a !in MatureTouched(db.ledger, tip, cfg.report) {
      MatureTouches(db.ledger, tip, cfg.report, a);
      UnmovedReports(db.ledger, db'.ledger, a, db.required);
      assert ReportedAt(db.ledger, a, tip, db.required) == ReportedAt(db'.ledger, a, tip, db.required);
    }
  }

  /** The maturity pass makes every row current, and an array that was as stored one of the tip. */
  lemma MaturityCompletes(db: Db, tip: nat, cfg: Config, a: AddressId)
    requires Attributable(db, Mature(tip)) && a in db.box.index
    requires ReadsAt(db, a, tip) || ReadsStored(db, a)
    ensures var db' := AfterReceipts(db, Mature(tip), cfg);
      RowsCurrent(db'.ledger, tip, cfg.report) && a in db'.box.index && ReadsAt(db', a, tip)
  {
    var db' := AfterReceipts(db, Mature(tip), cfg);
    TouchedReadsTip(db, Mature(tip), cfg, a);
    if a !in MatureTouched(db.ledger, tip, cfg.report) {
      CurrentIsStored(db', a, tip, cfg.report);
    }
  }

  lemma SnapshotKeepsCurrent(
    l: Ledger, txids: set<string>, scan: Scan, now: Time, report: nat, revokeMissing: bool, tip: nat)
    requires RowsCurrent(l, tip, report)
    ensures RowsCurrent(Snapshotted(l, txids, scan, now, report, revokeMissing), tip, report)
  {
  }

  /** The other actors keep every array; a new address reads as zeros. */
  lemma OthersKeepArrays(db: Db, op: Op, cfg: Config, a: AddressId)
    requires Enabled(db, op) && !op.Receive? && !op.Record? && RowsKnown(db)
    requires a in Next(db, op, cfg).box.index
    ensures Next(db, op, cfg).ledger == db.ledger && Next(db, op, cfg).required == db.required
    ensures a in db.box.index ==>
      (forall t: nat :: ReadsAt(db, a, t) ==> ReadsAt(Next(db, op, cfg), a, t))
      && (ReadsStored(db, a) ==> ReadsStored(Next(db, op, cfg), a))
    ensures a !in db.box.index ==>
      (forall t: nat :: ReadsAt(Next(db, op, cfg), a, t)) && ReadsStored(Next(db, op, cfg), a)
  {
    var db' := Next(db, op, cfg);
    if op.Enqueue? {
      EnqueueAllAmounts(db.box, op.addrs, op.now);
    } else if op.Finish? {
      FinishAmounts(db.box, op.i, op.outcome, op.now, op.next, cfg.maxAttempts);
    }
    if a in db.box.index {
      assert Amounts(db'.box.index[a]) == Amounts(db.box.index[a]);
      assert Amounts(db.box.index[a]).reported == db.box.index[a].reported;
      assert Amounts(db'.box.index[a]).reported == db'.box.index[a].reported;
    } else {
      NewAddressReads(db', a);
    }
  }

  lemma NewAddressReads(db: Db, a: AddressId)
    requires a in db.box.index && db.box.index[a].reported == NOTHING
    requires forall u :: u in db.ledger ==> db.ledger[u].addr != a
    ensures (forall t: nat :: ReadsAt(db, a, t)) && ReadsStored(db, a)
  {
    if db.required.Some? {
      var n := db.required.value;
      forall k: nat ensures AtStoredDepth(db.ledger, a, k) == map[] { }
      assert StoredArray(db.ledger, a, n) == Zeros(n);
      forall t: nat ensures ArrayAt(db.ledger, a, t, n) == Zeros(n) {
        forall k: nat ensures AtDepth(db.ledger, a, k, t) == map[] { }
      }
    }
  }
}
