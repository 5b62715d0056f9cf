/**
 * The application database as one value, every transaction as one step, and the invariants of all
 * runs: sync worker, delivery worker and HTTP handlers may take their steps in any order.
 */
module Database {
  import opened Common
  import opened Sums
  import opened Receipts
  import opened TotalsIndex
  import opened Outbox

  /** Settings fixed when the database is created, and those of the delivery worker. */
  datatype Config = Config(report: nat, finality: nat, maxAttempts: nat)

  datatype Db = Db(ledger: Ledger, box: Box, required: Option<nat>, lastSeenTip: int, lastScanned: int)

  datatype ReceiptOp =
    | Apply(rs: seq<Attributed>, tip: nat)
    | Reconcile(rs: seq<Attributed>, lo: nat, hi: nat, tip: nat)
    | RevokeAbove(tip: nat)
    | Mature(tip: nat)
    | Snapshot(txids: set<string>, rs: seq<Attributed>, now: Time, tip: nat, revokeMissing: bool)

  /** How one HTTP attempt ended. */
  datatype Outcome = Status(code: nat) | TransportError

  datatype Op =
    | Receive(receipt: ReceiptOp)
    | Enqueue(addrs: seq<AddressId>, now: Time)
    | Claim(i: nat, now: Time)
    | Finish(i: nat, outcome: Outcome, now: Time, next: Time)
    | Recover(now: Time)
    | Issue(a: AddressId)
    | Record(tip: int, scanned: int)

  // ------------------------------------------------------------------ receipt operations

  function ReceiptsOf(op: ReceiptOp): seq<Attributed> {
    if op.Apply? || op.Reconcile? || op.Snapshot? then op.rs else []
  }

  function LedgerAfter(l: Ledger, op: ReceiptOp, cfg: Config): Ledger {
    match op
    case Apply(rs, tip) => UpsertAll(l, rs)
    case Reconcile(rs, lo, hi, tip) => Reconciled(l, ScanMap(rs), lo, hi)
    case RevokeAbove(tip) => RevokedAbove(l, tip)
    case Mature(tip) => Matured(l, tip, cfg.report)
    case Snapshot(txids, rs, now, tip, revokeMissing) =>
      Snapshotted(l, txids, ScanMap(rs), now, cfg.report, revokeMissing)
  }

  function Touched(l: Ledger, op: ReceiptOp, cfg: Config): set<AddressId> {
    match op
    case Apply(rs, tip) => AddressesOf(rs)
    case Reconcile(rs, lo, hi, tip) => ReconcileTouched(l, ScanMap(rs), lo, hi)
    case RevokeAbove(tip) => RevokeTouched(l, tip)
    case Mature(tip) => MatureTouched(l, tip, cfg.report)
    case Snapshot(txids, rs, now, tip, revokeMissing) =>
      SnapshotTouched(l, txids, rs, now, cfg.report, revokeMissing)
  }

  /** The addresses of the rows an operation inserts. */
  function Written(op: ReceiptOp): set<AddressId> {
    if op.Reconcile? then (set u | u in ScanMap(op.rs) :: ScanMap(op.rs)[u].addr)
    else AddressesOf(ReceiptsOf(op))
  }

  /** Every address an operation writes must exist: the foreign key rolls the transaction back otherwise. */
  predicate Known(index: Index, op: ReceiptOp) {
    Written(op) <= index.Keys
  }

  ghost function AfterReceipts(db: Db, op: ReceiptOp, cfg: Config): Db {
    var l' := LedgerAfter(db.ledger, op, cfg);
    if !Known(db.box.index, op) then db
    else
      db.(ledger := l',
          box := db.box.(index := RecomputeAll(
            l', db.box.index, Touched(db.ledger, op, cfg), op.tip, cfg.finality, db.required)))
  }

  // ------------------------------------------------------------------ delivery outcomes

  /** `should_permanently_fail`, with its saturating arithmetic. */
  predicate LastAttempt(attempts: nat, maxAttempts: nat) {
    Min(Min(attempts, U32_MAX) + 1, U32_MAX) >= maxAttempts
  }

  predicate IsSuccess(o: Outcome) { o.Status? && 200 <= o.code < 300 }

  predicate IsRetryable(o: Outcome) { o.TransportError? || o.code == 429 || 500 <= o.code < 600 }

  function Finished(b: Box, i: nat, o: Outcome, now: Time, next: Time, maxAttempts: nat): Box
    requires i < |b.deliveries|
  {
    if IsSuccess(o) then Acknowledged(b, i, now)
    else if IsRetryable(o) && !LastAttempt(b.deliveries[i].attempts, maxAttempts) then Retried(b, i, next)
    else GivenUp(b, i)
  }

  /** The claimed delivery is the oldest ready one. */
  ghost predicate IsNextReady(ds: seq<Delivery>, i: nat, now: Time) {
    && i < |ds| && Ready(ds[i], now)
    && forall j :: 0 <= j < |ds| && Ready(ds[j], now) ==>
         ds[i].observedAt < ds[j].observedAt || (ds[i].observedAt == ds[j].observedAt && i <= j)
  }

  // ------------------------------------------------------------------ steps

  function Issued(b: Box, a: AddressId): Box {
    if a in b.index then b else b.(index := b.index[a := NEW_ENTRY])
  }

  /** Receipts keep their address; reconciliation may move the rows it reads to another one. */
  ghost predicate KeepsAddresses(l: Ledger, r: ReceiptOp) {
    if r.Reconcile? then AttributesOutside(l, ScanMap(r.rs), r.lo, r.hi) else AttributesAll(l, ReceiptsOf(r))
  }

  /** What the callers of each operation guarantee. */
  ghost predicate Enabled(db: Db, op: Op) {
    match op
    case Receive(r) =>
      && KeepsAddresses(db.ledger, r)
      && (r.Snapshot? ==> forall q :: q in r.rs ==> IsProvisional(q))
    case Claim(i, now) => IsNextReady(db.box.deliveries, i, now)
    case Finish(i, o, now, next) => i < |db.box.deliveries| && db.box.deliveries[i].state.Sending?
    case _ => true
  }

  ghost function Next(db: Db, op: Op, cfg: Config): Db
    requires Enabled(db, op)
  {
    match op
    case Receive(r) => AfterReceipts(db, r, cfg)
    case Enqueue(addrs, now) => db.(box := EnqueuedAll(db.box, addrs, now))
    case Claim(i, now) => db.(box := Claimed(db.box, i))
    case Finish(i, o, now, next) => db.(box := Finished(db.box, i, o, now, next, cfg.maxAttempts))
    case Recover(now) => db.(box := Recovered(db.box, now))
    case Issue(a) => db.(box := Issued(db.box, a))
    case Record(tip, scanned) => db.(lastSeenTip := tip, lastScanned := scanned)
  }

  function Initial(required: Option<nat>): Db {
    Db(map[], Box([], map[], []), required, 0, 0)
  }

  // ------------------------------------------------------------------ the invariant of every run

  /** Attempts are counted by the log; an outstanding delivery still has one left. */
  ghost predicate AttemptsOk(b: Box, maxAttempts: nat) {
    && (forall i :: i in b.log ==> i < |b.deliveries|)
    && forall i :: 0 <= i < |b.deliveries| ==>
         && multiset(b.log)[i] == b.deliveries[i].attempts <= maxAttempts
         && (Outstanding(b.deliveries[i]) ==> b.deliveries[i].attempts < maxAttempts)
  }

  ghost predicate RowsKnown(db: Db) {
    forall u :: u in db.ledger ==> db.ledger[u].addr in db.box.index
  }

  ghost predicate DbOk(db: Db, cfg: Config) {
    && RowsKnown(db)
    && IndexAgrees(db.ledger, db.box.index, cfg.finality, db.required)
    && OutboxOk(db.box)
    && AttemptsOk(db.box, cfg.maxAttempts)
  }

  lemma InitialOk(required: Option<nat>, cfg: Config)
    ensures DbOk(Initial(required), cfg)
  {
  }

  lemma TouchesWhatMoves(l: Ledger, op: ReceiptOp, cfg: Config, a: AddressId)
    requires KeepsAddresses(l, op)
    requires op.Snapshot? ==> forall q :: q in op.rs ==> IsProvisional(q)
    requires a !in Touched(l, op, cfg)
    ensures Unmoved(l, LedgerAfter(l, op, cfg), a)
  {
    match op
    case Apply(rs, tip) => ApplyTouches(l, rs, a);
    case Reconcile(rs, lo, hi, tip) => ReconcileTouches(l, ScanMap(rs), lo, hi, a);
    case RevokeAbove(tip) => RevokeTouches(l, tip, a);
    case Mature(tip) => MatureTouches(l, tip, cfg.report, a);
    case Snapshot(txids, rs, now, tip, revokeMissing) =>
      SnapshotTouches(l, txids, rs, now, cfg.report, revokeMissing, a);
  }

  lemma ReceiptsKeepIndex(db: Db, op: ReceiptOp, cfg: Config)
    requires Enabled(db, Receive(op))
    requires IndexAgrees(db.ledger, db.box.index, cfg.finality, db.required)
    ensures var db' := AfterReceipts(db, op, cfg);
      IndexAgrees(db'.ledger, db'.box.index, cfg.finality, db'.required)
  {
    forall a | a !in Touched(db.ledger, op, cfg)
      ensures Unmoved(db.ledger, LedgerAfter(db.ledger, op, cfg), a)
    {
      TouchesWhatMoves(db.ledger, op, cfg, a);
    }
    RecomputeKeepsIndex(db.ledger, LedgerAfter(db.ledger, op, cfg), db.box.index,
                        Touched(db.ledger, op, cfg), op.tip, cfg.finality, db.required);
  }

  lemma RowOrigin(l: Ledger, op: ReceiptOp, cfg: Config, u: Uid)
    requires u in LedgerAfter(l, op, cfg)
    ensures (u in l && LedgerAfter(l, op, cfg)[u].addr == l[u].addr) || LedgerAfter(l, op, cfg)[u].addr in Written(op)
  {
    if op.Apply? {
      UpsertAllRows(l, op.rs);
      if u in (set r | r in op.rs :: r.uid) {
        var r :| r in op.rs && r.uid == u && UpsertAll(l, op.rs)[u].addr == r.addr;
        assert r.addr in AddressesOf(op.rs);
      }
    } else if op.Snapshot? && u in ScanMap(op.rs) {
      assert ScanMap(op.rs)[u] in op.rs;
    }
  }

  lemma ReceiptsKeepRows(db: Db, op: ReceiptOp, cfg: Config)
    requires RowsKnown(db)
    ensures RowsKnown(AfterReceipts(db, op, cfg))
  {
    var db' := AfterReceipts(db, op, cfg);
    if Known(db.box.index, op) {
      forall u | u in db'.ledger ensures db'.ledger[u].addr in db.box.index {
        RowOrigin(db.ledger, op, cfg, u);
      }
    }
  }

  /** What a run of receipt operations may do to the index, as far as the outbox is concerned. */
  ghost predicate RecomputedOnly(index: Index, index': Index) {
    && index.Keys == index'.Keys
    && forall a :: a in index ==>
         && index'[a].acked == index[a].acked && index'[a].notified == index[a].notified
         && (index'[a].reported == index[a].reported ==>
              index'[a].version == index[a].version && index'[a].notice == index[a].notice)
         && (index'[a].reported != index[a].reported ==>
              index'[a].version == index[a].version + 1 && index'[a].notice.Dirty?)
  }

  lemma RecomputeAllOnly(
    l: Ledger, index: Index, touched: set<AddressId>, tip: nat, finality: nat, required: Option<nat>)
    ensures RecomputedOnly(index, RecomputeAll(l, index, touched, tip, finality, required))
  {
  }

  lemma RecomputedKeepsOutbox(b: Box, index': Index)
    requires OutboxOk(b) && RecomputedOnly(b.index, index')
    ensures OutboxOk(b.(index := index'))
  {
    forall a | a in index' ensures AddressOk(b.deliveries, a, index'[a]) {
      RecomputeKeepsAddress(b.deliveries, a, b.index[a], index'[a]);
    }
  }

  lemma ReceiptsKeepOutbox(db: Db, op: ReceiptOp, cfg: Config)
    requires OutboxOk(db.box)
    ensures var db' := AfterReceipts(db, op, cfg);
      && RecomputedOnly(db.box.index, db'.box.index)
      && db'.box == db.box.(index := db'.box.index)
      && OutboxOk(db'.box)
  {
    var index' := AfterReceipts(db, op, cfg).box.index;
    if Known(db.box.index, op) {
      RecomputeAllOnly(LedgerAfter(db.ledger, op, cfg), db.box.index, Touched(db.ledger, op, cfg),
                       op.tip, cfg.finality, db.required);
    }
    RecomputedKeepsOutbox(db.box, index');
  }

  /** An entry without its notification fields. */
  function Amounts(t: Entry): Entry {
    t.(notice := Clean, acked := None, notified := NOTHING)
  }

  ghost predicate SameAmounts(index: Index, index': Index) {
    index'.Keys == index.Keys && forall a :: a in index ==> Amounts(index'[a]) == Amounts(index[a])
  }

  /** Deliveries come and go without changing what the index says about the ledger. */
  lemma NotificationsKeepIndex(l: Ledger, index: Index, index': Index, finality: nat, required: Option<nat>)
    requires IndexAgrees(l, index, finality, required)
    requires SameAmounts(index, index')
    ensures IndexAgrees(l, index', finality, required)
  {
    forall a | a in index' ensures EntryAgrees(l, a, index'[a], finality, required) {
      SameAgreement(l, a, index[a], index'[a], finality, required);
    }
  }

  lemma SameAgreement(l: Ledger, a: AddressId, t: Entry, t': Entry, finality: nat, required: Option<nat>)
    requires Amounts(t) == Amounts(t')
    requires EntryAgrees(l, a, t, finality, required)
    ensures EntryAgrees(l, a, t', finality, required)
  {
    assert t'.finalized == Amounts(t').finalized && t'.recent == Amounts(t').recent;
    assert t'.reported == Amounts(t').reported && t'.tip == Amounts(t').tip;
    assert t.finalized == Amounts(t).finalized && t.recent == Amounts(t).recent;
    assert t.reported == Amounts(t).reported && t.tip == Amounts(t).tip;
  }

  lemma EnqueueAmounts(b: Box, a: AddressId, now: Time)
    ensures SameAmounts(b.index, Enqueued(b, a, now).index)
  {
  }

  lemma {:induction false} EnqueueAllAmounts(b: Box, addrs: seq<AddressId>, now: Time)
    ensures SameAmounts(b.index, EnqueuedAll(b, addrs, now).index)
  {
    if addrs != [] {
      EnqueueAllAmounts(b, addrs[..|addrs| - 1], now);
      EnqueueAmounts(EnqueuedAll(b, addrs[..|addrs| - 1], now), addrs[|addrs| - 1], now);
    }
  }

  lemma AcknowledgedAmounts(b: Box, i: nat, now: Time)
    requires i < |b.deliveries|
    ensures SameAmounts(b.index, Acknowledged(b, i, now).index)
  {
    var a := b.deliveries[i].addr;
    if a in b.index {
      EnqueueAmounts(AckMoved(b, i), a, now);
    }
  }

  lemma FinishAmounts(b: Box, i: nat, o: Outcome, now: Time, next: Time, maxAttempts: nat)
    requires i < |b.deliveries|
    ensures SameAmounts(b.index, Finished(b, i, o, now, next, maxAttempts).index)
  {
    if IsSuccess(o) {
      AcknowledgedAmounts(b, i, now);
    }
  }

  // ------------------------------------------------------------------ attempts

  lemma AttemptKept(b: Box, i: nat, state: DeliveryState, next: Option<Time>, maxAttempts: nat)
    requires AttemptsOk(b, maxAttempts)
    requires i < |b.deliveries| && Outstanding(b.deliveries[i])
    requires state.RetryWait? ==> b.deliveries[i].attempts + 1 < maxAttempts
    requires state.RetryWait? || state.Succeeded? || state.PermanentFailure?
    ensures AttemptsOk(Attempted(b, i, state, next), maxAttempts)
  {
    var c := Attempted(b, i, state, next);
    assert multiset(c.log) == multiset(b.log) + multiset{i};
  }

  lemma EnqueueAttempts(b: Box, a: AddressId, now: Time, maxAttempts: nat)
    requires maxAttempts > 0
    requires AttemptsOk(b, maxAttempts)
    ensures AttemptsOk(Enqueued(b, a, now), maxAttempts)
  {
    var c := Enqueued(b, a, now);
    if |c.deliveries| > |b.deliveries| {
      assert |b.deliveries| !in b.log;
      assert multiset(b.log)[|b.deliveries|] == 0;
    }
  }

  lemma {:induction false} EnqueueAllAttempts(b: Box, addrs: seq<AddressId>, now: Time, maxAttempts: nat)
    requires maxAttempts > 0
    requires AttemptsOk(b, maxAttempts)
    ensures AttemptsOk(EnqueuedAll(b, addrs, now), maxAttempts)
  {
    if addrs != [] {
      EnqueueAllAttempts(b, addrs[..|addrs| - 1], now, maxAttempts);
      EnqueueAttempts(EnqueuedAll(b, addrs[..|addrs| - 1], now), addrs[|addrs| - 1], now, maxAttempts);
    }
  }

  lemma FinishAttempts(b: Box, i: nat, o: Outcome, now: Time, next: Time, maxAttempts: nat)
    requires 0 < maxAttempts <= U32_MAX
    requires AttemptsOk(b, maxAttempts)
    requires i < |b.deliveries| && Outstanding(b.deliveries[i])
    ensures AttemptsOk(Finished(b, i, o, now, next, maxAttempts), maxAttempts)
  {
    if IsSuccess(o) {
      AttemptKept(b, i, Succeeded, None, maxAttempts);
      var a := b.deliveries[i].addr;
      if a in b.index {
        EnqueueAttempts(AckMoved(b, i), a, now, maxAttempts);
      }
    } else if IsRetryable(o) && !LastAttempt(b.deliveries[i].attempts, maxAttempts) {
      AttemptKept(b, i, RetryWait, Some(next), maxAttempts);
    } else {
      AttemptKept(b, i, PermanentFailure, None, maxAttempts);
    }
  }

  // ------------------------------------------------------------------ one step

  lemma FinishKeepsOutbox(b: Box, i: nat, o: Outcome, now: Time, next: Time, maxAttempts: nat)
    requires OutboxOk(b) && i < |b.deliveries| && Outstanding(b.deliveries[i])
    ensures OutboxOk(Finished(b, i, o, now, next, maxAttempts))
    ensures SameAmounts(b.index, Finished(b, i, o, now, next, maxAttempts).index)
  {
    FinishAmounts(b, i, o, now, next, maxAttempts);
    if IsSuccess(o) {
      SuccessKeepsOutbox(b, i, now);
    } else if IsRetryable(o) && !LastAttempt(b.deliveries[i].attempts, maxAttempts) {
      RetryKeepsOutbox(b, i, next);
    } else {
      FailureKeepsOutbox(b, i);
    }
  }

  lemma NewEntryAgrees(l: Ledger, a: AddressId, finality: nat, required: Option<nat>)
    requires forall u :: u in l ==> l[u].addr != a
    ensures EntryAgrees(l, a, NEW_ENTRY, finality, required)
  {
    assert Eligible(l, a) == map[];
    assert Final(l, a, Cutoff(0, finality)) == map[];
    if required.Some? {
      forall k: nat ensures AtDepth(l, a, k, 0) == map[] { }
      assert ArrayAt(l, a, 0, required.value) == Zeros(required.value);
    }
  }

  lemma IssueKeepsOutbox(b: Box, a: AddressId)
    requires OutboxOk(b)
    ensures OutboxOk(Issued(b, a))
  {
    if a !in b.index {
      assert AddressOk(b.deliveries, a, NEW_ENTRY);
      forall o | o in Issued(b, a).index && o != a ensures AddressOk(b.deliveries, o, Issued(b, a).index[o]) {
        assert AddressOk(b.deliveries, o, b.index[o]);
      }
    }
  }

  lemma IssueKeeps(db: Db, a: AddressId, cfg: Config)
    requires RowsKnown(db) && IndexAgrees(db.ledger, db.box.index, cfg.finality, db.required)
    ensures IndexAgrees(db.ledger, Issued(db.box, a).index, cfg.finality, db.required)
  {
    if a !in db.box.index {
      NewEntryAgrees(db.ledger, a, cfg.finality, db.required);
    }
  }

  /** Every step of every actor keeps the invariant. */
  lemma StepKeeps(db: Db, op: Op, cfg: Config)
    requires 0 < cfg.maxAttempts <= U32_MAX
    requires DbOk(db, cfg) && Enabled(db, op)
    ensures DbOk(Next(db, op, cfg), cfg)
  {
    hide OutboxOk, IndexAgrees, EnqueuedAll, Finished, KeepsAddresses;
    var db' := Next(db, op, cfg);
    match op
    case Receive(r) =>
      ReceiptsKeepRows(db, r, cfg);
      ReceiptsKeepIndex(db, r, cfg);
      ReceiptsKeepOutbox(db, r, cfg);
    case Enqueue(addrs, now) =>
      EnqueueAllKeepsOutbox(db.box, addrs, now);
      EnqueueAllAmounts(db.box, addrs, now);
      EnqueueAllAttempts(db.box, addrs, now, cfg.maxAttempts);
      NotificationsKeepIndex(db.ledger, db.box.index, db'.box.index, cfg.finality, db.required);
    case Claim(i, now) =>
      ClaimKeepsOutbox(db.box, i);
    case Finish(i, o, now, next) =>
      FinishKeepsOutbox(db.box, i, o, now, next, cfg.maxAttempts);
      FinishAttempts(db.box, i, o, now, next, cfg.maxAttempts);
      NotificationsKeepIndex(db.ledger, db.box.index, db'.box.index, cfg.finality, db.required);
    case Recover(now) =>
      RecoverKeepsOutbox(db.box, now);
    case Issue(a) =>
      IssueKeeps(db, a, cfg);
      IssueKeepsOutbox(db.box, a);
    case Record(tip, scanned) =>
  }

  // ------------------------------------------------------------------ progress of one step

  /** Versions, deliveries and acknowledgements only move forward. */
  ghost predicate Advances(b: Box, c: Box) {
    && b.log <= c.log
    && |b.deliveries| <= |c.deliveries|
    && (forall i :: 0 <= i < |b.deliveries| ==> DeliveryAdvances(b.deliveries[i], c.deliveries[i]))
    && (forall a :: a in b.index ==> a in c.index && EntryAdvances(b, c, a))
  }

  /** An event names one pair for ever, attempts only grow, and a final state is final. */
  ghost predicate DeliveryAdvances(d: Delivery, e: Delivery) {
    && e.addr == d.addr && e.version == d.version && e.reported == d.reported
    && d.attempts <= e.attempts
    && (!Outstanding(d) ==> e == d)
  }

  /** A version names one pair, and the acknowledgement never moves back. */
  ghost predicate EntryAdvances(b: Box, c: Box, a: AddressId)
    requires a in b.index && a in c.index
  {
    && b.index[a].version <= c.index[a].version
    && (b.index[a].version == c.index[a].version ==> b.index[a].reported == c.index[a].reported)
    && AckedIndex(b.deliveries, a, b.index[a]) <= AckedIndex(c.deliveries, a, c.index[a])
  }

  lemma AdvancesTransitive(b: Box, c: Box, d: Box)
    requires Advances(b, c) && Advances(c, d)
    ensures Advances(b, d)
  {
    forall i | 0 <= i < |b.deliveries| ensures DeliveryAdvances(b.deliveries[i], d.deliveries[i]) {
      assert DeliveryAdvances(b.deliveries[i], c.deliveries[i]);
      assert DeliveryAdvances(c.deliveries[i], d.deliveries[i]);
    }
    forall a | a in b.index ensures a in d.index && EntryAdvances(b, d, a) {
      assert EntryAdvances(b, c, a) && EntryAdvances(c, d, a);
    }
  }

  /** An unchanged acknowledgement keeps its place while deliveries are added behind it. */
  lemma AckStays(ds: seq<Delivery>, ds': seq<Delivery>, a: AddressId, t: Entry, t': Entry)
    requires |ds| <= |ds'|
    requires forall i :: 0 <= i < |ds| ==> ds'[i].addr == ds[i].addr && ds'[i].version == ds[i].version
    requires AckIsNewestSuccess(ds, a, t) && VersionsRise(ds', a)
    requires t'.acked == t.acked
    ensures AckedIndex(ds', a, t') == AckedIndex(ds, a, t)
  {
    if t.acked.Some? {
      var k, k' := AckedIndex(ds, a, t), AckedIndex(ds', a, t');
      assert Carries(ds'[k], a, t.acked.value);
      Rises(ds', a, k, k');
      Rises(ds', a, k', k);
    }
  }

  /** A step that moves no acknowledgement. */
  ghost predicate Quiet(b: Box, c: Box) {
    && b.log <= c.log && |b.deliveries| <= |c.deliveries|
    && (forall i :: 0 <= i < |b.deliveries| ==> DeliveryAdvances(b.deliveries[i], c.deliveries[i]))
    && (forall a :: a in b.index ==> a in c.index && QuietEntry(b.index[a], c.index[a]))
  }

  ghost predicate QuietEntry(t: Entry, t': Entry) {
    t'.acked == t.acked && t.version <= t'.version && (t.version == t'.version ==> t.reported == t'.reported)
  }

  lemma QuietAdvances(b: Box, c: Box)
    requires OutboxOk(b) && OutboxOk(c) && Quiet(b, c)
    ensures Advances(b, c)
  {
    forall a | a in b.index ensures EntryAdvances(b, c, a) {
      assert AddressOk(b.deliveries, a, b.index[a]) && AddressOk(c.deliveries, a, c.index[a]);
      SamePlaces(b, c);
      AckStays(b.deliveries, c.deliveries, a, b.index[a], c.index[a]);
    }
  }

  lemma SamePlaces(b: Box, c: Box)
    requires Quiet(b, c)
    ensures forall i :: 0 <= i < |b.deliveries| ==>
      c.deliveries[i].addr == b.deliveries[i].addr && c.deliveries[i].version == b.deliveries[i].version
  {
    forall i | 0 <= i < |b.deliveries|
      ensures c.deliveries[i].addr == b.deliveries[i].addr && c.deliveries[i].version == b.deliveries[i].version
    {
      assert DeliveryAdvances(b.deliveries[i], c.deliveries[i]);
    }
  }

  lemma QuietEnqueue(b: Box, a: AddressId, now: Time)
    ensures Quiet(b, Enqueued(b, a, now))
  {
  }

  lemma QuietOutstanding(b: Box, i: nat, now: Time, next: Time)
    requires i < |b.deliveries| && Outstanding(b.deliveries[i])
    ensures Quiet(b, Claimed(b, i)) && Quiet(b, Retried(b, i, next)) && Quiet(b, GivenUp(b, i))
    ensures Quiet(b, Attempted(b, i, Succeeded, None)) && Quiet(b, Recovered(b, now))
  {
  }

  lemma QuietRest(b: Box, a: AddressId, now: Time)
    ensures Quiet(b, b) && Quiet(b, Issued(b, a)) && Quiet(b, Recovered(b, now))
  {
  }

  lemma QuietRecompute(b: Box, index': Index)
    requires RecomputedOnly(b.index, index')
    ensures Quiet(b, b.(index := index'))
  {
  }

  lemma EnqueueAdvances(b: Box, a: AddressId, now: Time)
    requires OutboxOk(b)
    ensures Advances(b, Enqueued(b, a, now))
  {
    EnqueueKeepsOutbox(b, a, now);
    QuietEnqueue(b, a, now);
    QuietAdvances(b, Enqueued(b, a, now));
  }

  lemma {:induction false} EnqueueAllAdvances(b: Box, addrs: seq<AddressId>, now: Time)
    requires OutboxOk(b)
    ensures Advances(b, EnqueuedAll(b, addrs, now))
  {
    if addrs == [] {
      QuietRest(b, 0, now);
      QuietAdvances(b, b);
    } else {
      var init := EnqueuedAll(b, addrs[..|addrs| - 1], now);
      EnqueueAllAdvances(b, addrs[..|addrs| - 1], now);
      EnqueueAllKeepsOutbox(b, addrs[..|addrs| - 1], now);
      EnqueueAdvances(init, addrs[|addrs| - 1], now);
      AdvancesTransitive(b, init, EnqueuedAll(b, addrs, now));
    }
  }

  /** The box after a success moved the acknowledgement and the address was enqueued again. */
  ghost predicate MovesAck(b: Box, c: Box, i: nat) {
    && i < |b.deliveries| <= |c.deliveries| && b.log <= c.log
    && (forall j :: 0 <= j < |b.deliveries| ==> DeliveryAdvances(b.deliveries[j], c.deliveries[j]))
    && var a := b.deliveries[i].addr;
       && a in b.index && a in c.index && c.index == b.index[a := c.index[a]]
       && c.index[a].acked == Some(b.deliveries[i].version)
       && c.index[a].version == b.index[a].version && c.index[a].reported == b.index[a].reported
  }

  lemma MovedAckMoves(b: Box, i: nat, now: Time)
    requires i < |b.deliveries| && Outstanding(b.deliveries[i]) && b.deliveries[i].addr in b.index
    ensures MovesAck(b, Enqueued(AckMoved(b, i), b.deliveries[i].addr, now), i)
  {
    EnqueueShape(AckMoved(b, i), b.deliveries[i].addr, now);
  }

  /** Once a success moves the acknowledgement, it is at the delivery that succeeded. */
  lemma MovedAckAdvances(b: Box, c: Box, i: nat)
    requires OutboxOk(b) && OutboxOk(c) && MovesAck(b, c, i)
    requires AckedIndex(b.deliveries, b.deliveries[i].addr, b.index[b.deliveries[i].addr]) <= i
    ensures Advances(b, c)
    ensures AckedIndex(c.deliveries, b.deliveries[i].addr, c.index[b.deliveries[i].addr]) == i
  {
    var a := b.deliveries[i].addr;
    forall o | o in b.index
      ensures EntryAdvances(b, c, o)
      ensures o == a ==> AckedIndex(c.deliveries, o, c.index[o]) == i
    {
      assert AddressOk(b.deliveries, o, b.index[o]) && AddressOk(c.deliveries, o, c.index[o]);
      if o == a {
        assert DeliveryAdvances(b.deliveries[i], c.deliveries[i]);
        AckPlace(c.deliveries, a, c.index[a], i);
      } else {
        forall j | 0 <= j < |b.deliveries|
          ensures c.deliveries[j].addr == b.deliveries[j].addr && c.deliveries[j].version == b.deliveries[j].version
        {
          assert DeliveryAdvances(b.deliveries[j], c.deliveries[j]);
        }
        AckStays(b.deliveries, c.deliveries, o, b.index[o], c.index[o]);
      }
    }
  }

  lemma AckPlace(ds: seq<Delivery>, a: AddressId, t: Entry, i: nat)
    requires VersionsRise(ds, a) && i < |ds| && t.acked == Some(ds[i].version) && ds[i].addr == a
    ensures AckedIndex(ds, a, t) == i
  {
    assert Carries(ds[i], a, ds[i].version);
    var k := AckedIndex(ds, a, t);
    Rises(ds, a, i, k);
    Rises(ds, a, k, i);
  }

  lemma AcknowledgeAdvances(b: Box, i: nat, now: Time)
    requires OutboxOk(b) && i < |b.deliveries| && Outstanding(b.deliveries[i])
    ensures Advances(b, Acknowledged(b, i, now))
  {
    hide OutboxOk, Attempted, AckMoved, Enqueued, Quiet, Advances, MovesAck;
    var late, a := Attempted(b, i, Succeeded, None), b.deliveries[i].addr;
    SuccessKeepsOutbox(b, i, now);
    SameAckAfterEnd(b, i);
    if AckedIndex(late.deliveries, a, b.index[a]) > i {
      QuietOutstanding(b, i, now, now);
      QuietAdvances(b, late);
    } else {
      MovedAckMoves(b, i, now);
      MovedAckAdvances(b, Enqueued(AckMoved(b, i), a, now), i);
    }
  }

  lemma FinishAdvances(b: Box, i: nat, o: Outcome, now: Time, next: Time, maxAttempts: nat)
    requires OutboxOk(b) && i < |b.deliveries| && Outstanding(b.deliveries[i])
    ensures Advances(b, Finished(b, i, o, now, next, maxAttempts))
  {
    if IsSuccess(o) {
      AcknowledgeAdvances(b, i, now);
    } else {
      FinishKeepsOutbox(b, i, o, now, next, maxAttempts);
      QuietOutstanding(b, i, now, next);
      QuietAdvances(b, Finished(b, i, o, now, next, maxAttempts));
    }
  }

  lemma StepAdvances(db: Db, op: Op, cfg: Config)
    requires 0 < cfg.maxAttempts <= U32_MAX
    requires DbOk(db, cfg) && Enabled(db, op)
    ensures Advances(db.box, Next(db, op, cfg).box)
  {
    var db' := Next(db, op, cfg);
    match op
    case Receive(r) =>
      ReceiptsKeepOutbox(db, r, cfg);
      QuietRecompute(db.box, db'.box.index);
      QuietAdvances(db.box, db'.box);
    case Enqueue(addrs, now) =>
      EnqueueAllAdvances(db.box, addrs, now);
    case Claim(i, now) =>
      ClaimKeepsOutbox(db.box, i);
      QuietOutstanding(db.box, i, now, now);
      QuietAdvances(db.box, db'.box);
    case Finish(i, o, now, next) =>
      FinishAdvances(db.box, i, o, now, next, cfg.maxAttempts);
    case Recover(now) =>
      RecoverKeepsOutbox(db.box, now);
      QuietRest(db.box, 0, now);
      QuietAdvances(db.box, db'.box);
    case Issue(a) =>
      IssueKeepsOutbox(db.box, a);
      QuietRest(db.box, a, 0);
      QuietAdvances(db.box, db'.box);
    case Record(tip, scanned) =>
      QuietRest(db.box, 0, 0);
      QuietAdvances(db.box, db.box);
  }

  // ------------------------------------------------------------------ all runs

  ghost predicate Step(db: Db, db': Db, cfg: Config) {
    exists op :: Enabled(db, op) && db' == Next(db, op, cfg)
  }

  /** A run under a fixed `REQUIRED_CONFIRMATIONS`: any interleaving of the actors' transactions. */
  ghost predicate IsRun(run: seq<Db>, required: Option<nat>, cfg: Config) {
    && |run| > 0 && run[0] == Initial(required)
    && forall i :: 0 <= i < |run| - 1 ==> Step(run[i], run[i + 1], cfg)
  }

  lemma StepTaken(run: seq<Db>, required: Option<nat>, cfg: Config, i: nat) returns (op: Op)
    requires IsRun(run, required, cfg) && i + 1 < |run|
    ensures Enabled(run[i], op) && run[i + 1] == Next(run[i], op, cfg)
  {
    assert Step(run[i], run[i + 1], cfg);
    op :| Enabled(run[i], op) && run[i + 1] == Next(run[i], op, cfg);
  }

  lemma {:induction false} RunsAreOk(run: seq<Db>, required: Option<nat>, cfg: Config, k: nat)
    requires 0 < cfg.maxAttempts <= U32_MAX
    requires IsRun(run, required, cfg) && k < |run|
    ensures DbOk(run[k], cfg)
  {
    hide DbOk, Enabled, Next, Step;
    if k == 0 {
      InitialOk(required, cfg);
    } else {
      RunsAreOk(run, required, cfg, k - 1);
      var op := StepTaken(run, required, cfg, k - 1);
      StepKeeps(run[k - 1], op, cfg);
    }
  }

  lemma RunStepAdvances(run: seq<Db>, required: Option<nat>, cfg: Config, i: nat)
    requires 0 < cfg.maxAttempts <= U32_MAX
    requires IsRun(run, required, cfg) && i + 1 < |run|
    ensures Advances(run[i].box, run[i + 1].box)
  {
    RunsAreOk(run, required, cfg, i);
    var op := StepTaken(run, required, cfg, i);
    StepAdvances(run[i], op, cfg);
  }

  /** Over any stretch of any run the outbox only moves forward. */
  lemma {:induction false} RunsAdvance(run: seq<Db>, required: Option<nat>, cfg: Config, j: nat, k: nat)
    requires 0 < cfg.maxAttempts <= U32_MAX
    requires IsRun(run, required, cfg) && j <= k < |run|
    ensures Advances(run[j].box, run[k].box)
    decreases k
  {
    hide OutboxOk, IndexAgrees, AttemptsOk, RowsKnown, Quiet, Advances, Step;
    RunsAreOk(run, required, cfg, j);
    if j == k {
      QuietRest(run[j].box, 0, 0);
      QuietAdvances(run[j].box, run[j].box);
    } else {
      RunsAdvance(run, required, cfg, j, k - 1);
      RunStepAdvances(run, required, cfg, k - 1);
      AdvancesTransitive(run[j].box, run[k - 1].box, run[k].box);
    }
  }

  // ------------------------------------------------------------------ versions

  /** One step moves an address's version by one if it changes the reported pair, and not otherwise. */
  lemma StepVersion(db: Db, op: Op, cfg: Config, a: AddressId)
    requires Enabled(db, op) && a in db.box.index
    ensures a in Next(db, op, cfg).box.index
    ensures var t, t' := db.box.index[a], Next(db, op, cfg).box.index[a];
      t'.version == if t'.reported == t.reported then t.version else t.version + 1
  {
    hide AfterReceipts, EnqueuedAll, Finished, Recovered;
    if op.Receive? {
      ReceiptsRecompute(db, op.receipt, cfg);
    } else if op.Enqueue? {
      EnqueueAllAmounts(db.box, op.addrs, op.now);
      SameAmountsSameVersion(db.box.index, EnqueuedAll(db.box, op.addrs, op.now).index, a);
    } else if op.Finish? {
      FinishAmounts(db.box, op.i, op.outcome, op.now, op.next, cfg.maxAttempts);
      SameAmountsSameVersion(
        db.box.index, Finished(db.box, op.i, op.outcome, op.now, op.next, cfg.maxAttempts).index, a);
    } else if op.Recover? {
      assert Recovered(db.box, op.now).index == db.box.index by { RecoveredIndex(db.box, op.now); }
    }
  }

  lemma RecoveredIndex(b: Box, now: Time)
    ensures Recovered(b, now).index == b.index
  {
  }

  lemma ReceiptsRecompute(db: Db, op: ReceiptOp, cfg: Config)
    ensures RecomputedOnly(db.box.index, AfterReceipts(db, op, cfg).box.index)
  {
    if Known(db.box.index, op) {
      RecomputeAllOnly(LedgerAfter(db.ledger, op, cfg), db.box.index, Touched(db.ledger, op, cfg),
                       op.tip, cfg.finality, db.required);
    }
  }

  lemma SameAmountsSameVersion(index: Index, index': Index, a: AddressId)
    requires SameAmounts(index, index') && a in index
    ensures a in index' && index'[a].version == index[a].version && index'[a].reported == index[a].reported
  {
    assert Amounts(index'[a]).version == index'[a].version && Amounts(index'[a]).reported == index'[a].reported;
    assert Amounts(index[a]).version == index[a].version && Amounts(index[a]).reported == index[a].reported;
  }

  /** How often the pair of `a` changed before state `k`. */
  ghost function Changes(run: seq<Db>, a: AddressId, k: nat): nat
    requires k < |run|
  {
    if k == 0 then 0
    else
      Changes(run, a, k - 1)
      + (if a in run[k - 1].box.index && a in run[k].box.index
            && run[k].box.index[a].reported != run[k - 1].box.index[a].reported then 1 else 0)
  }

  lemma OnlyIssueAdds(db: Db, op: Op, cfg: Config, a: AddressId)
    requires Enabled(db, op) && a !in db.box.index && a in Next(db, op, cfg).box.index
    ensures Next(db, op, cfg).box.index[a] == NEW_ENTRY
  {
    hide AfterReceipts, EnqueuedAll, Finished, Recovered;
    if op.Receive? {
      ReceiptsRecompute(db, op.receipt, cfg);
    } else if op.Enqueue? {
      EnqueueAllAmounts(db.box, op.addrs, op.now);
    } else if op.Finish? {
      FinishAmounts(db.box, op.i, op.outcome, op.now, op.next, cfg.maxAttempts);
    } else if op.Recover? {
      RecoveredIndex(db.box, op.now);
    }
  }

  /** Before an address is issued nothing about it changes. */
  lemma {:induction false} NoChangesBefore(run: seq<Db>, required: Option<nat>, cfg: Config, k: nat, a: AddressId)
    requires IsRun(run, required, cfg) && k < |run| && a !in run[k].box.index
    ensures Changes(run, a, k) == 0
  {
    hide Enabled, Next;
    if k > 0 {
      var op := StepTaken(run, required, cfg, k - 1);
      if a in run[k - 1].box.index {
        StepVersion(run[k - 1], op, cfg, a);
      }
      NoChangesBefore(run, required, cfg, k - 1, a);
    }
  }

  /** In every reachable state the version of an address is the number of times its pair changed. */
  lemma {:induction false} VersionCountsChanges(run: seq<Db>, required: Option<nat>, cfg: Config, k: nat, a: AddressId)
    requires IsRun(run, required, cfg) && k < |run| && a in run[k].box.index
    ensures run[k].box.index[a].version == Changes(run, a, k)
  {
    hide Enabled, Next;
    if k > 0 {
      var op := StepTaken(run, required, cfg, k - 1);
      if a in run[k - 1].box.index {
        StepVersion(run[k - 1], op, cfg, a);
        VersionCountsChanges(run, required, cfg, k - 1, a);
      } else {
        OnlyIssueAdds(run[k - 1], op, cfg, a);
        NoChangesBefore(run, required, cfg, k - 1, a);
      }
    }
  }

  ghost predicate IsDepthArray(l: Ledger, a: AddressId, t: Entry, required: nat) {
    t.reported.byDepth.Some? && var s := t.reported.byDepth.value;
      && s == ArrayAt(l, a, t.tip, required) && s[0] == t.reported.total
      && forall i, j :: 0 <= i <= j < |s| ==> s[j] <= s[i]
  }

  /**
   * In every reachable state the index says of an address what its rows say: the total is the sum
   * of the active eligible rows, split into a finalized and a recent part; the array gives the sum
   * at every depth, starts at the total and never increases.
   */
  lemma IndexIsRight(run: seq<Db>, required: Option<nat>, cfg: Config, k: nat, a: AddressId)
    requires 0 < cfg.maxAttempts <= U32_MAX
    requires IsRun(run, required, cfg) && k < |run| && a in run[k].box.index
    ensures var l, t := run[k].ledger, run[k].box.index[a];
      && t.reported.total == Total(Eligible(l, a))
      && t.finalized == Total(Final(l, a, Cutoff(t.tip, cfg.finality)))
      && t.recent + t.finalized == t.reported.total && 0 <= t.recent
      && (cfg.finality >= 1 && t.tip + 1 >= cfg.finality ==> t.finalized == Total(AtDepth(l, a, cfg.finality, t.tip)))
    ensures var l, t := run[k].ledger, run[k].box.index[a];
      t.reported.byDepth.Some? ==> run[k].required.Some? && IsDepthArray(l, a, t, run[k].required.value)
  {
    var l, t := run[k].ledger, run[k].box.index[a];
    RunsAreOk(run, required, cfg, k);
    assert EntryAgrees(l, a, t, cfg.finality, run[k].required);
    FinalizedWithinTotal(l, a, t, cfg.finality, run[k].required);
    if t.reported.byDepth.Some? {
      ArrayShape(l, a, t, cfg.finality, run[k].required);
    }
    if cfg.finality >= 1 {
      FinalizedIsDeep(l, a, t.tip, cfg.finality);
    }
  }

  /** In every reachable state a quiet address without a failure since its acknowledgement has said its last word. */
  lemma NothingIsLost(run: seq<Db>, required: Option<nat>, cfg: Config, k: nat, a: AddressId)
    requires 0 < cfg.maxAttempts <= U32_MAX
    requires IsRun(run, required, cfg) && k < |run| && a in run[k].box.index
    requires !run[k].box.index[a].notice.Dirty?
    requires NoFailureSinceAck(run[k].box.deliveries, a, run[k].box.index[a])
    ensures run[k].box.index[a].reported == LastWord(run[k].box.deliveries, a, run[k].box.index[a])
  {
    RunsAreOk(run, required, cfg, k);
    NoLostNotification(run[k].box, a);
  }

  /** Per address, later deliveries carry higher versions and one event names one pair; the acknowledged
      delivery is the last that succeeded. */
  lemma DeliveriesAreOrdered(run: seq<Db>, required: Option<nat>, cfg: Config, k: nat, i: nat, j: nat)
    requires 0 < cfg.maxAttempts <= U32_MAX
    requires IsRun(run, required, cfg) && k < |run|
    requires var ds := run[k].box.deliveries; i < |ds| && j < |ds| && ds[i].addr == ds[j].addr
    ensures var ds := run[k].box.deliveries;
      var a := ds[i].addr;
      && (i < j <==> ds[i].version < ds[j].version)
      && a in run[k].box.index
      && (ds[i].version == run[k].box.index[a].version ==> ds[i].reported == run[k].box.index[a].reported)
      && (ds[i].state.Succeeded? ==> i <= AckedIndex(ds, a, run[k].box.index[a]))
      && (AckedIndex(ds, a, run[k].box.index[a]) == i ==>
           ds[i].state.Succeeded? && run[k].box.index[a].notified == ds[i].reported)
  {
    hide IsRun, IndexAgrees, AttemptsOk, RowsKnown, AddressOk;
    RunsAreOk(run, required, cfg, k);
    var ds := run[k].box.deliveries;
    OrderedDeliveries(ds, ds[i].addr, run[k].box.index[ds[i].addr], i, j);
  }

  lemma OrderedDeliveries(ds: seq<Delivery>, a: AddressId, t: Entry, i: nat, j: nat)
    requires AddressOk(ds, a, t) && i < |ds| && j < |ds| && ds[i].addr == a == ds[j].addr
    ensures i < j <==> ds[i].version < ds[j].version
    ensures ds[i].version == t.version ==> ds[i].reported == t.reported
    ensures ds[i].state.Succeeded? ==> i <= AckedIndex(ds, a, t)
    ensures AckedIndex(ds, a, t) == i ==> ds[i].state.Succeeded? && t.notified == ds[i].reported
  {
    hide Notified;
    Rises(ds, a, i, j);
    Rises(ds, a, j, i);
  }

  /** A delivery has as many attempts as the log, never more than the maximum, and ends when they are used up. */
  lemma DeliveriesEnd(run: seq<Db>, required: Option<nat>, cfg: Config, k: nat, i: nat)
    requires 0 < cfg.maxAttempts <= U32_MAX
    requires IsRun(run, required, cfg) && k < |run| && i < |run[k].box.deliveries|
    ensures var d := run[k].box.deliveries[i];
      && multiset(run[k].box.log)[i] == d.attempts <= cfg.maxAttempts
      && (d.attempts == cfg.maxAttempts ==> !Outstanding(d))
    ensures forall m :: k <= m < |run| && !Outstanding(run[k].box.deliveries[i]) ==>
      i < |run[m].box.deliveries| && run[m].box.deliveries[i] == run[k].box.deliveries[i]
  {
    RunsAreOk(run, required, cfg, k);
    forall m | k <= m < |run| && !Outstanding(run[k].box.deliveries[i])
      ensures i < |run[m].box.deliveries| && run[m].box.deliveries[i] == run[k].box.deliveries[i]
    {
      RunsAdvance(run, required, cfg, k, m);
      assert DeliveryAdvances(run[k].box.deliveries[i], run[m].box.deliveries[i]);
    }
  }

  // ------------------------------------------------------------------ changing REQUIRED_CONFIRMATIONS

  /** `apply_required_confirmations`: a new setting rebuilds every array at its own tip, silently. */
  ghost function Rebuilt(db: Db, wanted: Option<nat>): Db {
    if db.required == wanted then db
    else db.(required := wanted,
             box := db.box.(index := map a | a in db.box.index :: RebuiltEntry(db.ledger, a, db.box.index[a], wanted)))
  }

  ghost function RebuiltEntry(l: Ledger, a: AddressId, t: Entry, wanted: Option<nat>): Entry {
    t.(reported := t.reported.(byDepth := if wanted.None? then None else Some(ArrayAt(l, a, t.tip, wanted.value))))
  }

  lemma RebuildKeepsIndex(db: Db, wanted: Option<nat>, finality: nat)
    requires IndexAgrees(db.ledger, db.box.index, finality, db.required)
    ensures IndexAgrees(db.ledger, Rebuilt(db, wanted).box.index, finality, wanted)
    ensures Rebuilt(db, wanted) == db.(required := wanted, box := db.box.(index := Rebuilt(db, wanted).box.index))
    ensures Rebuilt(db, wanted).box.index.Keys == db.box.index.Keys
  {
    var db' := Rebuilt(db, wanted);
    forall a | a in db'.box.index ensures EntryAgrees(db.ledger, a, db'.box.index[a], finality, wanted) {
      assert EntryAgrees(db.ledger, a, db.box.index[a], finality, db.required);
    }
  }

  /**
   * The rebuild leaves a quiet address's last word true exactly when the setting does not change, or
   * is turned off for an address that never had an array. Any other change makes the array appear,
   * disappear or change its length, and no event says so.
   */
  lemma RebuildIsSilent(db: Db, wanted: Option<nat>, a: AddressId, finality: nat)
    requires a in db.box.index && IndexAgrees(db.ledger, db.box.index, finality, db.required)
    requires db.box.index[a].reported == LastWord(db.box.deliveries, a, db.box.index[a])
    ensures var db' := Rebuilt(db, wanted);
      && a in db'.box.index
      && db'.box.index[a].notice == db.box.index[a].notice && db'.box.index[a].version == db.box.index[a].version
    ensures var db' := Rebuilt(db, wanted);
      db'.box.index[a].reported == LastWord(db'.box.deliveries, a, db'.box.index[a])
      <==> db.required == wanted || (wanted.None? && db.box.index[a].reported.byDepth.None?)
  {
    var t, t' := db.box.index[a], Rebuilt(db, wanted).box.index[a];
    assert EntryAgrees(db.ledger, a, t, finality, db.required);
    assert AckedIndex(db.box.deliveries, a, t') == AckedIndex(db.box.deliveries, a, t);
    assert LastWord(db.box.deliveries, a, t') == LastWord(db.box.deliveries, a, t);
    assert t.reported.byDepth.Some? ==> db.required.Some? && |t.reported.byDepth.value| == db.required.value + 1;
  }
}
