/** The ledger follows the chain in every reachable state of the sync protocol. */
module SyncRuns {
  import opened Common
  import opened Receipts
  import opened TotalsIndex
  import opened Reconciliation
  import opened Database
  import opened ScanPlan
  import opened Convergence
  import opened SyncProtocol

  // ------------------------------------------------------------------ the invariant

  /** During an iteration the blocks up to the sampled tip stay those of the target chain. */
  ghost predicate OnTarget(s: Sys, p: Settings) {
    && s.local.tip <= s.env.tip
    && Above(s.local.target, p.birthday)
    && (forall u :: u in s.local.target ==> s.local.target[u].height <= s.local.tip)
    && Between(s.env.chain, 0, s.local.tip) == s.local.target
    && s.local.last <= U32_MAX
  }

  /** Below the overlap window, which starts below the floor, the target is the chain held so far. */
  ghost predicate OverlapCovers(s: Sys, p: Settings) {
    && s.db.lastScanned == s.local.last
    && Between(s.local.target, 0, s.floor - 1) == Between(s.base, 0, s.floor - 1)
    && (Overlap(s.local, p).Some? ==> Overlap(s.local, p).value.start <= s.floor)
  }

  /** A mempool reading holds provisional receipts of transactions outside the scanned chain. */
  ghost predicate ReadingOk(s: Sys, scanned: Chain) {
    forall r :: r in s.local.rs ==> IsProvisional(r) && r.uid !in scanned
  }

  /** The recorded height bounds the mined receipts. */
  ghost predicate Held(l: Ledger, lastScanned: int) {
    lastScanned <= U32_MAX && forall u :: u in ActiveMined(l) ==> ActiveMined(l)[u].height <= lastScanned
  }

  ghost predicate IdleOk(s: Sys) {
    Keeps(s.db.ledger, s.base, s.db.lastScanned, s.floor) && ForksAbove(s.env, s.base, s.floor)
  }

  ghost predicate PhaseOk(s: Sys, p: Settings) {
    var l := s.db.ledger;
    match s.local.phase
    case Idle => IdleOk(s)
    case Peeked => IdleOk(s) && ReadingOk(s, Between(s.base, 0, s.floor - 1))
    case Sampled => Keeps(l, s.base, s.local.last, s.floor) && OverlapCovers(s, p)
    case Cleaned => Keeps(l, s.base, Min(s.local.last, s.local.tip), s.floor) && OverlapCovers(s, p)
    case Scanning =>
      Adopted(l, s.local.target, s.local.next)
      && p.birthday <= ForwardStart(p.birthday, s.local.last, s.local.tip) <= s.local.next
      && (s.local.next == ForwardStart(p.birthday, s.local.last, s.local.tip) ==> s.db.lastScanned == s.local.last)
    case Maturing => ActiveMined(l) == s.local.target
    case Snapped =>
      ActiveMined(l) == s.local.target && ReadingOk(s, s.local.target)
      && (s.env.tip == s.local.tip ==> s.local.seen == s.local.target)
    case Checked =>
      ActiveMined(l) == s.local.target && ReadingOk(s, s.local.target)
      && (s.local.revoke ==> s.local.seen == s.local.target)
    case Applied => ActiveMined(l) == s.local.target
  }

  ghost predicate LedgerOk(s: Sys, p: Settings) {
    && EnvOk(s.env, p.birthday) && Above(s.base, p.birthday)
    && Held(s.db.ledger, s.db.lastScanned)
    && (!Waiting(s.local) ==> OnTarget(s, p))
    && PhaseOk(s, p)
  }

  // ------------------------------------------------------------------ cleanup and overlap

  lemma SampleLedger(s: Sys, s': Sys, p: Settings)
    requires LedgerOk(s, p) && SampleStep(s, s', p)
    ensures LedgerOk(s', p)
  {
    hide Keeps, OverlapBatch, ActiveMined;
  }

  lemma Trimmed(l: Ledger, base: Chain, last: int, tip: nat, floor: nat)
    requires Keeps(l, base, last, floor) && last <= U32_MAX
    ensures var l' := if last > tip then RevokedAbove(l, tip) else l;
      Keeps(l', base, Min(last, tip), floor) && Held(l', last)
  {
    RevokeTrims(l, base, last, tip, floor);
    var l' := if last > tip then RevokedAbove(l, tip) else l;
    forall u | u in ActiveMined(l') ensures ActiveMined(l')[u].height <= last {
      assert u in Between(base, 0, Min(last, tip));
    }
  }

  lemma RevokedLedger(db: Db, tip: nat, cfg: Config)
    ensures AfterReceipts(db, RevokeAbove(tip), cfg).ledger == RevokedAbove(db.ledger, tip)
    ensures AfterReceipts(db, RevokeAbove(tip), cfg).lastScanned == db.lastScanned
  {
    hide RevokeTouched, RecomputeAll;
  }

  lemma CleanLedger(s: Sys, s': Sys, p: Settings)
    requires LedgerOk(s, p) && CleanStep(s, s', p)
    ensures LedgerOk(s', p)
  {
    hide Keeps, Held, Between, Above, OverlapBatch, AfterReceipts, RevokedAbove, EnvOk;
    RevokedLedger(s.db, s.local.tip, p.cfg);
    Trimmed(s.db.ledger, s.base, s.local.last, s.local.tip, s.floor);
  }

  /** The step's reconciliation, as it acts on the ledger and on the target chain. */
  lemma ReconciledTarget(s: Sys, db': Db, b: ScanBatch, rs: seq<Attributed>, p: Settings)
    requires OnTarget(s, p) && b.start <= b.end <= s.local.tip
    requires Reconciles(s, db', b, rs, p)
    ensures db'.ledger == Receipts.Reconciled(s.db.ledger, ScanMap(rs), b.start, b.end)
    ensures IsScan(ScanMap(rs), s.local.target, b.start, b.end, s.local.tip, p.cfg.report)
    ensures db'.lastScanned == s.db.lastScanned
  {
    assert Between(s.local.target, 0, s.local.tip) == s.local.target;
    SameWindow(ScanMap(rs), s.env.chain, s.local.target, b.start, b.end, s.local.tip, p.cfg.report);
  }

  lemma AdoptedIsHeld(l: Ledger, target: Chain, next: nat, lastScanned: int)
    requires Adopted(l, target, next) && next <= lastScanned + 1 && 0 <= lastScanned <= U32_MAX
    ensures Held(l, lastScanned)
  {
  }

  lemma OverlapWindow(s: Sys, s': Sys, p: Settings) returns (b: ScanBatch, rs: seq<Attributed>)
    requires OverlapStep(s, s', p) && s.local.last <= U32_MAX && s.local.tip < U32_MAX
    requires Overlap(s.local, p).Some?
    ensures Overlap(s.local, p).value == b && Reconciles(s, s'.db, b, rs, p)
    ensures b.start <= b.end <= s.local.tip && b.end == Min(s.local.last, s.local.tip)
    ensures p.birthday <= s'.local.next == b.end + 1
    ensures s'.local.next == ForwardStart(p.birthday, s.local.last, s.local.tip)
  {
    WindowsMeet(p.birthday, s.local.last, s.local.tip, p.cfg.finality);
    b := Overlap(s.local, p).value;
    rs :| Reconciles(s, s'.db, b, rs, p);
  }

  lemma OverlapScans(s: Sys, s': Sys, p: Settings, b: ScanBatch, rs: seq<Attributed>)
    requires OnTarget(s, p) && Reconciles(s, s'.db, b, rs, p)
    requires b.start <= b.end <= s.local.tip && b.start <= s.floor
    requires Between(s.local.target, 0, s.floor - 1) == Between(s.base, 0, s.floor - 1)
    requires Keeps(s.db.ledger, s.base, b.end, s.floor)
    ensures Adopted(s'.db.ledger, s.local.target, b.end + 1)
    ensures s'.db.lastScanned == s.db.lastScanned
  {
    hide *;
    ReconciledTarget(s, s'.db, b, rs, p);
    OverlapAdopts(s.db.ledger, ScanMap(rs), s.base, s.local.target, b, s.local.tip, p.cfg.report, s.floor);
  }

  lemma NoOverlap(s: Sys, s': Sys, p: Settings)
    requires OnTarget(s, p) && OverlapStep(s, s', p) && s.env.tip < U32_MAX && Above(s.base, p.birthday)
    requires Keeps(s.db.ledger, s.base, Min(s.local.last, s.local.tip), s.floor)
    requires Overlap(s.local, p).None?
    ensures s'.db == s.db && s'.local.next == p.birthday
    ensures Adopted(s'.db.ledger, s.local.target, s'.local.next)
  {
    WindowsMeet(p.birthday, s.local.last, s.local.tip, p.cfg.finality);
    NothingToOverlap(s.db.ledger, s.base, s.local.target, Min(s.local.last, s.local.tip), s.floor, p.birthday);
  }

  lemma OverlapLedger(s: Sys, s': Sys, p: Settings)
    requires LedgerOk(s, p) && OverlapStep(s, s', p)
    ensures LedgerOk(s', p)
  {
    hide Keeps, Adopted, Reconciles, Held, Between, Above;
    if Overlap(s.local, p).Some? {
      var b, rs := OverlapWindow(s, s', p);
      OverlapScans(s, s', p, b, rs);
      AdoptedIsHeld(s'.db.ledger, s.local.target, s'.local.next, s.local.last);
    } else {
      NoOverlap(s, s', p);
    }
  }

  // ------------------------------------------------------------------ forward scan and maturity

  lemma BatchScans(s: Sys, s': Sys, p: Settings)
    requires OnTarget(s, p) && BatchStep(s, s', p) && s.env.tip < U32_MAX
    requires Adopted(s.db.ledger, s.local.target, s.local.next)
    ensures Adopted(s'.db.ledger, s.local.target, s'.local.next)
    ensures s.local.next < s'.local.next == s'.db.lastScanned + 1 <= s.local.tip + 1
  {
    hide Reconciles, Adopted, Above, Between, IsScan;
    var b := NextScanBatch(s.local.next, s.local.tip, p.batchSize).value;
    var mid := s'.db.(lastSeenTip := s.db.lastSeenTip, lastScanned := s.db.lastScanned);
    var rs :| Reconciles(s, mid, b, rs, p);
    ReconciledTarget(s, mid, b, rs, p);
    BatchAdopts(s.db.ledger, ScanMap(rs), s.local.target, b, s.local.tip, p.cfg.report);
  }

  lemma BatchLedger(s: Sys, s': Sys, p: Settings)
    requires LedgerOk(s, p) && BatchStep(s, s', p)
    ensures LedgerOk(s', p)
  {
    BatchScans(s, s', p);
    AdoptedIsHeld(s'.db.ledger, s.local.target, s'.local.next, s'.db.lastScanned);
  }

  /** Once the scan is past the tip the ledger is the target chain. */
  lemma AdoptedWhole(l: Ledger, target: Chain, next: nat, tip: nat)
    requires Adopted(l, target, next) && next > tip
    requires forall u :: u in target ==> target[u].height <= tip
    ensures ActiveMined(l) == target
  {
    assert Between(target, 0, next - 1) == target;
    assert Between(ActiveMined(l), 0, next - 1) == ActiveMined(l);
  }

  lemma MatureLedger(s: Sys, s': Sys, p: Settings)
    requires LedgerOk(s, p) && MatureStep(s, s', p)
    ensures LedgerOk(s', p)
  {
    AdoptedWhole(s.db.ledger, s.local.target, s.local.next, s.local.tip);
    MatureKeepsMined(s.db.ledger, s.local.tip, p.cfg.report);
  }

  // ------------------------------------------------------------------ the mempool

  lemma SnapLedger(s: Sys, s': Sys, p: Settings)
    requires LedgerOk(s, p) && SnapStep(s, s', p)
    ensures LedgerOk(s', p)
  {
    forall r | r in s'.local.rs ensures r.uid !in s.local.target {
      assert r.uid in s.local.target ==> r.uid in Between(s.env.chain, 0, s.local.tip);
    }
    if s.env.tip == s.local.tip {
      assert Between(s.env.chain, 0, s.local.tip) == s.env.chain;
    }
  }

  lemma CheckLedger(s: Sys, s': Sys, p: Settings)
    requires LedgerOk(s, p) && CheckStep(s, s', p)
    ensures LedgerOk(s', p)
  {
  }

  lemma KnownOf(db: Db, op: ReceiptOp)
    requires Attributable(db, op)
    ensures Known(db.box.index, op)
  {
    hide Enabled;
  }

  /** Applying a mempool reading leaves the mined receipts it does not mention. */
  lemma SnapshotMined(s: Sys, db': Db, tip: nat, revoke: bool, p: Settings, u: Uid)
    requires SnapshotApplied(s, db', tip, revoke, p)
    ensures db'.lastScanned == s.db.lastScanned
    ensures u in ActiveMined(db'.ledger) ==> u in ActiveMined(s.db.ledger)
    ensures u in ActiveMined(db'.ledger) ==> ActiveMined(db'.ledger)[u] == ActiveMined(s.db.ledger)[u]
    ensures u in ActiveMined(s.db.ledger) && (forall r :: r in s.local.rs ==> r.uid != u) ==> u in ActiveMined(db'.ledger)
  {
    hide Attributable, ScanMap, Snapshotted, SnapshotTouched, RecomputeAll, ActiveMined;
    var now: Time :| var op := Snapshot(s.local.txids, s.local.rs, now, tip, revoke);
      Attributable(s.db, op) && db' == AfterReceipts(s.db, op, p.cfg);
    KnownOf(s.db, Snapshot(s.local.txids, s.local.rs, now, tip, revoke));
    if u in ScanMap(s.local.rs) {
      SnapshotGainsNothing(s.db.ledger, s.local.txids, ScanMap(s.local.rs), now, p.cfg.report, revoke, u);
    } else {
      SnapshotKeepsMined(s.db.ledger, s.local.txids, ScanMap(s.local.rs), now, p.cfg.report, revoke, u);
    }
  }

  lemma ApplyMined(s: Sys, s': Sys, p: Settings)
    requires ReadingOk(s, ActiveMined(s.db.ledger)) && ApplyStep(s, s', p)
    ensures ActiveMined(s'.db.ledger) == ActiveMined(s.db.ledger)
    ensures s'.db.lastScanned == s.db.lastScanned
  {
    hide SnapshotApplied, ActiveMined;
    var am, am' := ActiveMined(s.db.ledger), ActiveMined(s'.db.ledger);
    SnapshotMined(s, s'.db, s.local.tip, s.local.revoke, p, Uid("", "", 0));
    forall u
      ensures u in am <==> u in am'
      ensures u in am ==> am[u] == am'[u]
    {
      SnapshotMined(s, s'.db, s.local.tip, s.local.revoke, p, u);
    }
  }

  lemma ApplyLedger(s: Sys, s': Sys, p: Settings)
    requires LedgerOk(s, p) && ApplyStep(s, s', p)
    ensures LedgerOk(s', p)
  {
    hide SnapshotApplied, EnvOk, Above, Between, ActiveMined;
    ApplyMined(s, s', p);
  }

  lemma PeekLedger(s: Sys, s': Sys, p: Settings)
    requires LedgerOk(s, p) && PeekStep(s, s', p)
    ensures LedgerOk(s', p)
  {
    forall r | r in s'.local.rs ensures r.uid !in Between(s.base, 0, s.floor - 1) {
      assert r.uid !in Between(s.env.chain, 0, s.floor - 1);
    }
  }

  /** Losing mined receipts above the floor is harmless: the next overlap scan restores them. */
  lemma KeepsLess(l: Ledger, l': Ledger, base: Chain, through: int, floor: nat)
    requires Keeps(l, base, through, floor)
    requires PartOf(ActiveMined(l'), ActiveMined(l))
    requires forall u :: u in Between(base, 0, Min(through, floor - 1)) ==> u in ActiveMined(l')
    ensures Keeps(l', base, through, floor)
  {
    var am, am' := ActiveMined(l), ActiveMined(l');
    forall u | u in am' ensures u in Between(base, 0, through) && am'[u] == Between(base, 0, through)[u] {
      assert u in am;
    }
    forall u | u in Between(base, 0, Min(through, floor - 1)) ensures u in am' && base[u] == am'[u] {
      assert u in am;
    }
  }

  lemma PeekApplyLedger(s: Sys, s': Sys, p: Settings)
    requires LedgerOk(s, p) && PeekApplyStep(s, s', p)
    ensures LedgerOk(s', p)
  {
    hide SnapshotApplied, EnvOk, Above, ForksAbove;
    PeekKeeps(s, s'.db, p);
  }

  lemma PeekKeeps(s: Sys, db': Db, p: Settings)
    requires s.settled.Some? && SnapshotApplied(s, db', s.settled.value, false, p)
    requires Keeps(s.db.ledger, s.base, s.db.lastScanned, s.floor) && Held(s.db.ledger, s.db.lastScanned)
    requires ReadingOk(s, Between(s.base, 0, s.floor - 1))
    ensures db'.lastScanned == s.db.lastScanned
    ensures Keeps(db'.ledger, s.base, s.db.lastScanned, s.floor) && Held(db'.ledger, s.db.lastScanned)
  {
    hide SnapshotApplied, ActiveMined;
    var am, am' := ActiveMined(s.db.ledger), ActiveMined(db'.ledger);
    var last := s.db.lastScanned;
    SnapshotMined(s, db', s.settled.value, false, p, Uid("", "", 0));
    forall u | u in am' ensures u in am && am'[u] == am[u] {
      SnapshotMined(s, db', s.settled.value, false, p, u);
    }
    forall u | u in Between(s.base, 0, Min(last, s.floor - 1)) ensures u in am' {
      SnapshotMined(s, db', s.settled.value, false, p, u);
      assert u in Between(s.base, 0, s.floor - 1) && u in am;
    }
    KeepsLess(s.db.ledger, db'.ledger, s.base, last, s.floor);
  }

  // ------------------------------------------------------------------ the end of an iteration

  /** The ledger that was completed or interrupted is itself the chain to keep. */
  lemma HoldsItself(l: Ledger, last: int, floor: nat)
    requires Held(l, last)
    ensures Keeps(l, ActiveMined(l), last, floor)
  {
    assert Between(ActiveMined(l), 0, last) == ActiveMined(l);
  }

  lemma CompletedThrough(s: Sys, p: Settings)
    requires OnTarget(s, p) && s.env.tip < U32_MAX
    ensures var through := ScannedThrough(p.birthday, s.local.last, s.local.tip);
      through <= s.local.tip && forall u :: u in s.local.target ==> s.local.target[u].height <= through
  {
    if ScannedThrough(p.birthday, s.local.last, s.local.tip) < s.local.tip {
      assert p.birthday > s.local.tip;
    }
  }

  lemma CompleteLedger(s: Sys, s': Sys, p: Settings)
    requires LedgerOk(s, p) && CompleteStep(s, s', p)
    ensures LedgerOk(s', p)
  {
    hide Keeps, ScannedThrough, ReadingOk;
    CompletedThrough(s, p);
    HoldsItself(s'.db.ledger, s'.db.lastScanned, s'.floor);
    SameBelow(s.env.chain, s.local.target, s.local.tip, s'.floor - 1);
  }

  lemma SameBelow(c: Chain, d: Chain, tip: int, hi: int)
    requires Between(c, 0, tip) == d && hi <= tip
    ensures Between(c, 0, hi) == Between(d, 0, hi)
  {
    forall u
      ensures u in Between(c, 0, hi) <==> u in Between(d, 0, hi)
      ensures u in Between(d, 0, hi) ==> c[u] == d[u]
    {
      assert u in Between(c, 0, tip) <==> u in d;
    }
  }

  lemma AbortEarly(s: Sys, s': Sys, p: Settings)
    requires OnTarget(s, p) && OverlapCovers(s, p) && AbortStep(s, s', p)
    requires s.local.phase.Sampled? || s.local.phase.Cleaned?
    requires Keeps(s.db.ledger, s.base, if s.local.phase.Sampled? then s.local.last else Min(s.local.last, s.local.tip), s.floor)
    ensures IdleOk(s')
  {
    hide Keeps, Between;
    var last, tip, floor := s.local.last, s.local.tip, s'.floor;
    SameBelow(s.env.chain, s.local.target, tip, s'.floor - 1);
    AgreeLower(s.local.target, s.base, s.floor - 1, s'.floor - 1);
    var end := if s.local.phase.Sampled? then last else Min(last, tip);
    KeepsLonger(s.db.ledger, s.base, end, last, s.floor, floor, tip);
  }

  lemma AgreeLower(c: Chain, d: Chain, hi: int, lo: int)
    requires Between(c, 0, hi) == Between(d, 0, hi) && lo <= hi
    ensures Between(c, 0, lo) == Between(d, 0, lo)
  {
    assert Between(c, 0, lo) == Between(Between(c, 0, hi), 0, lo);
    assert Between(d, 0, lo) == Between(Between(d, 0, hi), 0, lo);
  }

  lemma KeepsLonger(l: Ledger, base: Chain, end: int, last: int, floor: nat, floor': nat, tip: nat)
    requires Keeps(l, base, end, floor) && floor' <= floor && floor' <= tip + 1
    requires end == last || end == Min(last, tip)
    ensures Keeps(l, base, last, floor')
  {
    var am := ActiveMined(l);
    forall u | u in am ensures u in Between(base, 0, last) && am[u] == Between(base, 0, last)[u] {
      assert u in Between(base, 0, end);
    }
    forall u | u in Between(base, 0, Min(last, floor' - 1)) ensures u in am && base[u] == am[u] {
      assert u in Between(base, 0, Min(end, floor - 1));
    }
  }

  /** Wherever a scan is interrupted, the ledger is a chain that agrees with the target so far. */
  lemma AbortLate(s: Sys, s': Sys, p: Settings)
    requires OnTarget(s, p) && Held(s.db.ledger, s.db.lastScanned) && AbortStep(s, s', p)
    requires !s.local.phase.Sampled? && !s.local.phase.Cleaned?
    requires if s.local.phase.Scanning? then Adopted(s.db.ledger, s.local.target, s.local.next)
             else ActiveMined(s.db.ledger) == s.local.target
    ensures IdleOk(s')
  {
    hide Keeps, Held, Between, ActiveMined;
    HoldsItself(s.db.ledger, s.db.lastScanned, s'.floor);
    var next := if s.local.phase.Scanning? then s.local.next else s.local.tip + 1;
    HeldForks(s.env.chain, s.local.target, ActiveMined(s.db.ledger), s.local.tip, next - 1, s'.floor - 1);
  }

  lemma HeldForks(c: Chain, target: Chain, am: Chain, tip: int, end: int, hi: int)
    requires Between(c, 0, tip) == target && hi <= tip && hi <= end
    requires Between(am, 0, end) == Between(target, 0, end)
    ensures Between(c, 0, hi) == Between(am, 0, hi)
  {
    SameBelow(c, target, tip, hi);
    AgreeLower(am, target, end, hi);
  }

  lemma AbortLedger(s: Sys, s': Sys, p: Settings)
    requires LedgerOk(s, p) && AbortStep(s, s', p)
    ensures LedgerOk(s', p)
  {
    if s.local.phase.Sampled? || s.local.phase.Cleaned? {
      AbortEarly(s, s', p);
    } else {
      AbortLate(s, s', p);
      HeldAbove(s, p);
    }
  }

  lemma HeldAbove(s: Sys, p: Settings)
    requires LedgerOk(s, p)
    requires !Waiting(s.local) && !s.local.phase.Sampled? && !s.local.phase.Cleaned?
    ensures Above(ActiveMined(s.db.ledger), p.birthday)
  {
    var am, target := ActiveMined(s.db.ledger), s.local.target;
    forall u | u in am ensures p.birthday <= am[u].height {
      if s.local.phase.Scanning? {
        assert u in Between(am, 0, s.local.next - 1) <==> u in Between(target, 0, s.local.next - 1);
      }
    }
  }

  // ------------------------------------------------------------------ the other actors

  lemma GrowthKeepsTarget(s: Sys, s': Sys, p: Settings)
    requires OnTarget(s, p) && !Waiting(s.local) && NetworkStep(s, s', p) && EnvOk(s.env, p.birthday)
    ensures OnTarget(s', p)
    ensures s'.env.tip == s'.local.tip ==> s'.env.chain == s.env.chain && s.env.tip == s.local.tip
  {
    var c, c', tip := s.env.chain, s'.env.chain, s.local.tip;
    forall u
      ensures u in Between(c', 0, tip) <==> u in Between(c, 0, tip)
      ensures u in Between(c, 0, tip) ==> c'[u] == c[u]
    {
    }
    assert Between(c', 0, tip) == Between(c, 0, tip);
  }

  lemma NetworkWaits(s: Sys, s': Sys, p: Settings)
    requires LedgerOk(s, p) && NetworkStep(s, s', p) && Waiting(s.local)
    ensures LedgerOk(s', p)
  {
    hide Keeps, Held, Above, EnvOk, Between, ActiveMined, BlockMined;
  }

  lemma NetworkGrows(s: Sys, s': Sys, p: Settings)
    requires LedgerOk(s, p) && NetworkStep(s, s', p) && !Waiting(s.local)
    ensures LedgerOk(s', p)
  {
    hide Keeps, Adopted, Held, Above, EnvOk, Between, ActiveMined, BlockMined, ForksAbove, ForwardStart, OverlapBatch, OnTarget;
    GrowthKeepsTarget(s, s', p);
    TipNeverFalls(s, s', p);
  }

  lemma TipNeverFalls(s: Sys, s': Sys, p: Settings)
    requires NetworkStep(s, s', p) && !Waiting(s.local)
    ensures s.env.tip <= s'.env.tip
  {
  }

  lemma NetworkLedger(s: Sys, s': Sys, p: Settings)
    requires LedgerOk(s, p) && NetworkStep(s, s', p)
    ensures LedgerOk(s', p)
  {
    hide LedgerOk, NetworkStep;
    if Waiting(s.local) {
      NetworkWaits(s, s', p);
    } else {
      NetworkGrows(s, s', p);
    }
  }

  lemma OtherLedger(s: Sys, s': Sys, p: Settings)
    requires LedgerOk(s, p) && OtherStep(s, s', p)
    ensures LedgerOk(s', p)
  {
  }

  lemma MarkLedger(s: Sys, s': Sys, p: Settings)
    requires LedgerOk(s, p) && MarkStep(s, s', p)
    ensures LedgerOk(s', p)
  {
    hide Adopted, EnvOk, Above, Held;
  }

  /** Every step of every actor keeps the ledger on the chain. */
  lemma StepLedger(s: Sys, s': Sys, p: Settings)
    requires LedgerOk(s, p) && SysStep(s, s', p)
    ensures LedgerOk(s', p)
  {
    if SampleStep(s, s', p) { SampleLedger(s, s', p); }
    else if CleanStep(s, s', p) { CleanLedger(s, s', p); }
    else if OverlapStep(s, s', p) { OverlapLedger(s, s', p); }
    else if BatchStep(s, s', p) { BatchLedger(s, s', p); }
    else if MatureStep(s, s', p) { MatureLedger(s, s', p); }
    else if SnapStep(s, s', p) { SnapLedger(s, s', p); }
    else if CheckStep(s, s', p) { CheckLedger(s, s', p); }
    else if ApplyStep(s, s', p) { ApplyLedger(s, s', p); }
    else if CompleteStep(s, s', p) { CompleteLedger(s, s', p); }
    else if PeekStep(s, s', p) { PeekLedger(s, s', p); }
    else if PeekApplyStep(s, s', p) { PeekApplyLedger(s, s', p); }
    else if AbortStep(s, s', p) { AbortLedger(s, s', p); }
    else if MarkStep(s, s', p) { MarkLedger(s, s', p); }
    else if NetworkStep(s, s', p) { NetworkLedger(s, s', p); }
    else if OtherStep(s, s', p) { OtherLedger(s, s', p); }
  }
}
