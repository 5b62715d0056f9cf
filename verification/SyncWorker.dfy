/**
 * The sync worker's iteration as the program runs it, step by step on the database object. Its
 * contract shows that what it does is a path of the state machine whose runs the other modules
 * reason about.
 */
module SyncWorker {
  import opened Common
  import opened Receipts
  import opened TotalsIndex
  import opened Reconciliation
  import opened Outbox
  import opened Database
  import opened AppDatabase
  import opened ScanPlan
  import opened Convergence
  import opened SyncProtocol
  import opened SyncRuns
  import opened SyncDepths
  import opened SyncResults

  /** What the node answers during one iteration; `latest` is missing if the tip could not be confirmed. */
  datatype Node = Node(scan: ScanBatch -> seq<Attributed>, txids: set<string>, rs: seq<Attributed>, latest: Option<nat>)

  // ------------------------------------------------------------------ receipts and their owners

  ghost predicate Owned(l: Ledger, owner: Uid -> AddressId) {
    forall u :: u in l ==> l[u].addr == owner(u)
  }

  ghost predicate OwnedAll(rs: seq<Attributed>, owner: Uid -> AddressId) {
    forall r :: r in rs ==> r.addr == owner(r.uid)
  }

  /** The node tells the truth about the chain and the mempool. */
  ghost predicate Serves(node: Node, env: Env, tip: nat, p: Settings, owner: Uid -> AddressId) {
    && (forall b :: IsScan(ScanMap(node.scan(b)), env.chain, b.start, b.end, tip, p.cfg.report))
    && (forall b :: OwnedAll(node.scan(b), owner))
    && node.txids == env.mempool
    && (forall r :: r in node.rs ==> IsProvisional(r) && r.uid.txid in env.mempool)
    && OwnedAll(node.rs, owner)
    && (node.latest.Some? ==> node.latest.value == env.tip)
  }

  /** Receipts with one owner each keep their addresses through every operation of the worker. */
  lemma OwnersKept(l: Ledger, op: ReceiptOp, cfg: Config, owner: Uid -> AddressId)
    requires Owned(l, owner) && OwnedAll(ReceiptsOf(op), owner) && !op.Apply?
    ensures KeepsAddresses(l, op) && Owned(LedgerAfter(l, op, cfg), owner)
  {
  }

  lemma OwnersKeptDb(db: Db, op: ReceiptOp, cfg: Config, owner: Uid -> AddressId)
    requires Owned(db.ledger, owner) && OwnedAll(ReceiptsOf(op), owner) && !op.Apply?
    ensures KeepsAddresses(db.ledger, op) && Owned(AfterReceipts(db, op, cfg).ledger, owner)
  {
    hide KeepsAddresses, LedgerAfter, RecomputeAll, Touched;
    OwnersKept(db.ledger, op, cfg, owner);
  }

  // ------------------------------------------------------------------ paths

  ghost predicate IsPath(run: seq<Sys>, s: Sys, p: Settings) {
    && |run| > 0 && run[0] == s
    && forall i :: 0 <= i < |run| - 1 ==> SysStep(run[i], run[i + 1], p)
  }

  ghost function Last(run: seq<Sys>): Sys
    requires |run| > 0
  {
    run[|run| - 1]
  }

  lemma Extend(run: seq<Sys>, s: Sys, s': Sys, p: Settings)
    requires IsPath(run, s, p) && SysStep(Last(run), s', p)
    ensures IsPath(run + [s'], s, p) && Last(run + [s']) == s'
  {
    hide SysStep;
    var longer := run + [s'];
    forall i | 0 <= i < |longer| - 1 ensures SysStep(longer[i], longer[i + 1], p) {
      assert i < |run| - 1 ==> longer[i] == run[i] && longer[i + 1] == run[i + 1];
    }
  }

  /** The object holds the database of the last state, every receipt has its owner, the node is unchanged. */
  ghost predicate Tracks(run: seq<Sys>, s: Sys, db: Db, p: Settings, owner: Uid -> AddressId) {
    |run| > 0 && IsPath(run, s, p) && Last(run).db == db && Last(run).env == s.env && Owned(db.ledger, owner)
  }

  lemma StepTracked(run: seq<Sys>, s: Sys, s': Sys, p: Settings, owner: Uid -> AddressId)
    requires IsPath(run, s, p) && SysStep(Last(run), s', p) && s'.env == s.env && Owned(s'.db.ledger, owner)
    ensures Tracks(run + [s'], s, s'.db, p, owner) && Last(run + [s']) == s'
  {
    hide SysStep, IsPath, Owned;
    Extend(run, s, s', p);
  }

  // ------------------------------------------------------------------ who is told

  /** Only the addresses `owed` may have become dirty, and nothing was queued. */
  ghost predicate Owes(b: Box, c: Box, owed: set<AddressId>) {
    && (forall a :: IsDirty(c.index, a) ==> IsDirty(b.index, a) || a in owed)
    && c.deliveries == b.deliveries && c.index.Keys == b.index.Keys
  }

  /** No address is dirty that was not before, and none of `owed`; what was queued was observed now. */
  ghost predicate Settles(b: Box, c: Box, owed: set<AddressId>, now: Time) {
    && (forall a :: IsDirty(c.index, a) ==> IsDirty(b.index, a) && a !in owed)
    && b.deliveries <= c.deliveries && c.index.Keys == b.index.Keys
    && forall i :: |b.deliveries| <= i < |c.deliveries| ==> c.deliveries[i].observedAt == now
  }

  /** Everything the node serves belongs to an issued address. */
  ghost predicate ServesIssued(node: Node, issued: set<AddressId>) {
    && (forall b, r :: r in node.scan(b) ==> r.addr in issued)
    && forall r :: r in node.rs ==> r.addr in issued
  }

  lemma IssuedIsKnown(node: Node, index: Index, b: ScanBatch, now: Time, tip: nat, revoke: bool)
    requires ServesIssued(node, index.Keys)
    ensures Known(index, Reconcile(node.scan(b), b.start, b.end, tip))
    ensures Known(index, Snapshot(node.txids, node.rs, now, tip, revoke))
  {
    var m := ScanMap(node.scan(b));
    forall u | u in m ensures m[u].addr in index { assert m[u] in node.scan(b); }
  }

  lemma ReceiptsOwe(db: Db, op: ReceiptOp, cfg: Config)
    ensures Owes(db.box, AfterReceipts(db, op, cfg).box, Touched(db.ledger, op, cfg))
  {
    hide LedgerAfter, Touched, Known, Recomputed;
  }

  lemma OwedIsSettled(b: Box, c: Box, d: Box, owed: set<AddressId>, more: set<AddressId>, now: Time)
    requires Owes(b, c, more) && Settles(c, d, owed + more, now)
    ensures Settles(b, d, owed, now)
  {
  }

  lemma SettledKeys(b: Box, c: Box, owed: set<AddressId>, now: Time)
    requires Owes(b, c, owed) || Settles(b, c, owed, now)
    ensures c.index.Keys == b.index.Keys
  {
  }

  lemma SettledTwice(b: Box, c: Box, d: Box, now: Time)
    requires Settles(b, c, {}, now) && Settles(c, d, {}, now)
    ensures Settles(b, d, {}, now)
  {
  }

  /** A provisional row that counts is fresh, and one that is active was read or is still in the mempool. */
  ghost predicate FollowsMempool(l: Ledger, node: Node, now: Time, revoked: bool) {
    forall u :: u in l && l[u].kind.Mempool? && l[u].active ==>
      && (l[u].eligible <==> now - l[u].firstSeen < 86_400)
      && (revoked ==> u.txid in node.txids || exists r :: r in node.rs && r.uid == u)
  }

  /** Every receipt that was read is recorded as it was read. */
  ghost predicate HoldsReadings(l: Ledger, rs: seq<Attributed>) {
    forall u :: u in ScanMap(rs) ==>
      u in l && l[u].kind.Mempool? && l[u].active && l[u].addr == ScanMap(rs)[u].addr && l[u].value == ScanMap(rs)[u].value
  }

  lemma SnapshotFollows(db: Db, node: Node, now: Time, tip: nat, revoke: bool, cfg: Config)
    requires cfg.report == 0 && Known(db.box.index, Snapshot(node.txids, node.rs, now, tip, revoke))
    ensures var l := AfterReceipts(db, Snapshot(node.txids, node.rs, now, tip, revoke), cfg).ledger;
      FollowsMempool(l, node, now, revoke) && HoldsReadings(l, node.rs)
  {
    hide Touched, RecomputeAll, Known, SnapshotRow, ScanMap;
    var l := AfterReceipts(db, Snapshot(node.txids, node.rs, now, tip, revoke), cfg).ledger;
    assert l == Snapshotted(db.ledger, node.txids, ScanMap(node.rs), now, 0, revoke);
    forall u | u in l
      ensures l[u].kind.Mempool? && l[u].active ==> (l[u].eligible <==> now - l[u].firstSeen < 86_400)
      ensures l[u].kind.Mempool? && l[u].active && revoke ==> u.txid in node.txids || exists r :: r in node.rs && r.uid == u
      ensures u in ScanMap(node.rs) ==>
        l[u].kind.Mempool? && l[u].active && l[u].addr == ScanMap(node.rs)[u].addr && l[u].value == ScanMap(node.rs)[u].value
    {
      SnapshotRowExactly(db.ledger, u, node.txids, ScanMap(node.rs), now, 0, revoke);
    }
  }

  // ------------------------------------------------------------------ the parts of an iteration

  lemma EnqueueStep(s: Sys, addrs: seq<AddressId>, now: Time, p: Settings)
    ensures SysStep(s, s.(db := s.db.(box := EnqueuedAll(s.db.box, addrs, now))), p)
  {
    var op := Enqueue(addrs, now);
    assert Enabled(s.db, op) && s.(db := s.db.(box := EnqueuedAll(s.db.box, addrs, now))) == s.(db := Next(s.db, op, p.cfg));
    assert OtherStep(s, s.(db := Next(s.db, op, p.cfg)), p);
  }

  /** Queues the notifications of the affected addresses that are dirty. */
  method QueueAffected(
    app: AppDb, touched: set<AddressId>, now: Time,
    p: Settings, ghost s: Sys, ghost run: seq<Sys>, ghost owner: Uid -> AddressId)
    returns (ghost longer: seq<Sys>)
    requires app.Valid() && Tracks(run, s, app.Value(), p, owner)
    modifies app
    ensures app.Valid() && Tracks(longer, s, app.Value(), p, owner)
    ensures Last(longer) == Last(run).(db := app.Value()) && run <= longer && |longer| == |run| + 1
    ensures app.Value() == old(app.Value()).(box := app.Value().box)
    ensures Settles(old(app.Value()).box, app.Value().box, touched, now)
  {
    hide SysStep, IsPath, Owned, EnqueuedAll;
    var addrs := InOrder(touched);
    EnqueueAllQuiets(app.Value().box, addrs, now);
    app.QueueWebhookDeliveries(addrs, now);
    EnqueueStep(Last(run), addrs, now, p);
    ghost var next := Last(run).(db := app.Value());
    StepTracked(run, s, next, p, owner);
    longer := run + [next];
  }

  /** Samples the tip, and cleans up above it if the chain was rewound. */
  method CleanUp(
    app: AppDb, tip: nat, p: Settings, ghost s: Sys, ghost owner: Uid -> AddressId)
    returns (last: int, touched: set<AddressId>, ghost run: seq<Sys>)
    requires app.Valid() && s.db == app.Value() && Owned(app.ledger, owner)
    requires s.local.phase.Idle? && s.env.tip == tip
    requires var overlap := OverlapBatch(p.birthday, app.lastScanned, tip, p.cfg.finality);
      overlap.Some? ==> overlap.value.start <= s.floor
    modifies app
    ensures app.Valid() && Tracks(run, s, app.Value(), p, owner)
    ensures last == old(app.lastScanned)
    ensures Last(run).local == s.local.(phase := Cleaned, tip := tip, last := last, target := s.env.chain)
    ensures Owes(old(app.Value()).box, app.Value().box, touched)
    ensures app.lastSeenTip == old(app.lastSeenTip) && forall k :: 0 <= k < |run| ==> !run[k].local.phase.Scanning?
  {
    hide Owned, AfterReceipts;
    ReceiptsOwe(app.Value(), RevokeAbove(tip), p.cfg);
    StatusKept(app.Value(), RevokeAbove(tip), p.cfg);
    last, touched := app.lastScanned, {};
    ghost var sampled := s.(local := s.local.(phase := Sampled, tip := tip, last := last, target := s.env.chain));
    assert SampleStep(s, sampled, p);
    StartTracked(s, p, owner);
    StepTracked([s], s, sampled, p, owner);
    OwnersKeptDb(app.Value(), RevokeAbove(tip), p.cfg, owner);
    if last > tip {
      touched := app.RevokeMinedReceiptsAboveTip(tip, p.cfg);
    }
    ghost var cleaned := sampled.(local := sampled.local.(phase := Cleaned), db := app.Value());
    assert CleanStep(sampled, cleaned, p);
    StepTracked([s] + [sampled], s, cleaned, p, owner);
    run := [s] + [sampled] + [cleaned];
  }

  lemma StartTracked(s: Sys, p: Settings, owner: Uid -> AddressId)
    requires Owned(s.db.ledger, owner)
    ensures Tracks([s], s, s.db, p, owner) && Last([s]) == s
  {
  }

  /** What a reconciliation that succeeded is for the state machine. */
  lemma ReconcilesWindow(
    s: Sys, db': Db, b: ScanBatch, node: Node, p: Settings, env: Env, owner: Uid -> AddressId)
    requires Serves(node, env, s.local.tip, p, owner) && s.env == env && Owned(s.db.ledger, owner)
    requires Known(s.db.box.index, Reconcile(node.scan(b), b.start, b.end, s.local.tip))
    requires db' == AfterReceipts(s.db, Reconcile(node.scan(b), b.start, b.end, s.local.tip), p.cfg)
    ensures Reconciles(s, db', b, node.scan(b), p) && Owned(db'.ledger, owner)
  {
    hide Owned, OwnedAll, KeepsAddresses, IsScan, AfterReceipts, Known, ScanMap;
    OwnersKeptDb(s.db, Reconcile(node.scan(b), b.start, b.end, s.local.tip), p.cfg, owner);
  }

  /** Scans the overlap window again. */
  method ScanOverlap(
    app: AppDb, node: Node, tip: nat, last: int, now: Time, cleaned: set<AddressId>,
    p: Settings, ghost s: Sys, ghost run: seq<Sys>, ghost owner: Uid -> AddressId)
    returns (ok: bool, ghost longer: seq<Sys>)
    requires app.Valid() && Tracks(run, s, app.Value(), p, owner) && Serves(node, s.env, tip, p, owner)
    requires Last(run).local.phase.Cleaned? && Last(run).local.tip == tip && Last(run).local.last == last
    modifies app
    ensures app.Valid() && Tracks(longer, s, app.Value(), p, owner)
    ensures !ok ==> Last(longer) == Last(run) && app.Value() == old(app.Value())
    ensures ok ==>
      Last(longer).local == Last(run).local.(phase := Scanning, next := ForwardStart(p.birthday, last, tip))
    ensures ok ==> Settles(old(app.Value()).box, app.Value().box, cleaned, now)
    ensures ServesIssued(node, old(app.index.Keys)) ==> ok
    ensures run <= longer && app.lastSeenTip == old(app.lastSeenTip)
    ensures forall k :: |run| <= k < |longer| ==> longer[k].db.lastSeenTip == old(app.lastSeenTip)
  {
    hide Owned, Serves, Reconciles, AfterReceipts, Known, IsPath, ForwardStart, OverlapBatch, Owes, Settles, Touched;
    ghost var start := app.Value().box;
    ghost var more := {};
    assert Owes(start, start, more) by { NothingOwed(start); }
    var overlap := OverlapBatch(p.birthday, last, tip, p.cfg.finality);
    var touched := cleaned;
    ghost var cur := Last(run);
    if overlap.Some? {
      var b := overlap.value;
      var r := app.ReconcileAttributedReceiptsInRange(node.scan(b), b.start, b.end, tip, p.cfg);
      if r.Err? {
        UnknownChangesNothing(cur.db, Reconcile(node.scan(b), b.start, b.end, tip), p.cfg);
        UnknownIsServed(node, cur.db.box.index, b, now, tip, false);
        return false, run;
      }
      ReconcilesWindow(cur, app.Value(), b, node, p, s.env, owner);
      ReceiptsOwe(cur.db, Reconcile(node.scan(b), b.start, b.end, tip), p.cfg);
      StatusKept(cur.db, Reconcile(node.scan(b), b.start, b.end, tip), p.cfg);
      more := r.value;
      assert more == Touched(cur.db.ledger, Reconcile(node.scan(b), b.start, b.end, tip), p.cfg) by { TouchedByScan(cur.db, node.scan(b), b, tip, p.cfg); }
      touched := touched + r.value;
    }
    ghost var scanned := app.Value().box;
    assert touched == cleaned + more;
    ghost var next := cur.(
      db := app.Value(), local := cur.local.(phase := Scanning, next := ForwardStart(p.birthday, last, tip)));
    assert OverlapStep(cur, next, p);
    StepTracked(run, s, next, p, owner);
    ok := true;
    longer := QueueAffected(app, touched, now, p, s, run + [next], owner);
    OwedIsSettled(start, scanned, app.Value().box, cleaned, more, now);
  }

  lemma UnknownIsServed(node: Node, index: Index, b: ScanBatch, now: Time, tip: nat, revoke: bool)
    requires !Known(index, Reconcile(node.scan(b), b.start, b.end, tip))
             || !Known(index, Snapshot(node.txids, node.rs, now, tip, revoke))
    ensures !ServesIssued(node, index.Keys)
  {
    hide ServesIssued, Known;
    if ServesIssued(node, index.Keys) { IssuedIsKnown(node, index, b, now, tip, revoke); }
  }

  lemma NothingOwed(b: Box)
    ensures Owes(b, b, {})
  {
  }

  lemma TouchedByScan(db: Db, rs: seq<Attributed>, b: ScanBatch, tip: nat, cfg: Config)
    ensures Touched(db.ledger, Reconcile(rs, b.start, b.end, tip), cfg) == ReconcileTouched(db.ledger, ScanMap(rs), b.start, b.end)
  {
    hide ReconcileTouched, ScanMap;
  }

  lemma UnknownChangesNothing(db: Db, op: ReceiptOp, cfg: Config)
    requires !Known(db.box.index, op)
    ensures AfterReceipts(db, op, cfg) == db
  {
    hide LedgerAfter, Touched, RecomputeAll;
  }

  /** Records that a long forward scan is about to start. */
  method MarkCatchingUp(
    app: AppDb, tip: nat, last: int, p: Settings, ghost s: Sys, ghost run: seq<Sys>, ghost owner: Uid -> AddressId)
    returns (ghost longer: seq<Sys>)
    requires app.Valid() && Tracks(run, s, app.Value(), p, owner)
    requires Last(run).local.phase.Scanning? && Last(run).local.tip == tip && Last(run).local.last == last
    requires Last(run).local.next == ForwardStart(p.birthday, last, tip)
    modifies app
    ensures app.Valid() && Tracks(longer, s, app.Value(), p, owner)
    ensures Last(longer) == Last(run).(db := app.Value()) && run <= longer
    ensures app.Value() == old(app.Value()).(lastSeenTip := tip, lastScanned := last)
  {
    hide Owned, IsPath, ForwardStart;
    app.RecordSyncStatus(tip, last);
    ghost var next := Last(run).(db := app.Value());
    assert MarkStep(Last(run), next, p);
    StepTracked(run, s, next, p, owner);
    longer := run + [next];
  }

  /** One batch of the forward scan: reconcile it, queue what it changed, record how far it got. */
  method ScanBatchForward(
    app: AppDb, node: Node, tip: nat, b: ScanBatch, now: Time,
    p: Settings, ghost s: Sys, ghost run: seq<Sys>, ghost owner: Uid -> AddressId)
    returns (ok: bool, ghost longer: seq<Sys>)
    requires app.Valid() && Tracks(run, s, app.Value(), p, owner) && Serves(node, s.env, tip, p, owner)
    requires Last(run).local.phase.Scanning? && Last(run).local.tip == tip
    requires NextScanBatch(Last(run).local.next, tip, p.batchSize) == Some(b)
    modifies app
    ensures app.Valid() && Tracks(longer, s, app.Value(), p, owner)
    ensures !ok ==> Last(longer) == Last(run)
    ensures ok ==> Last(longer).local == Last(run).local.(next := SatAdd(b.end, 1))
    ensures ServesIssued(node, old(app.index.Keys)) ==> ok
    ensures run <= longer && Settles(old(app.Value()).box, app.Value().box, {}, now)
    ensures forall k :: |run| <= k < |longer| ==> longer[k].local.next == SatAdd(b.end, 1)
  {
    hide Owned, Serves, Reconciles, AfterReceipts, Known, IsPath, NextScanBatch, EnqueuedAll, SysStep, Owes, Touched;
    ghost var cur := Last(run);
    ReceiptsOwe(cur.db, Reconcile(node.scan(b), b.start, b.end, tip), p.cfg);
    TouchedByScan(cur.db, node.scan(b), b, tip, p.cfg);
    var r := app.ReconcileAttributedReceiptsInRange(node.scan(b), b.start, b.end, tip, p.cfg);
    if r.Err? {
      UnknownChangesNothing(cur.db, Reconcile(node.scan(b), b.start, b.end, tip), p.cfg);
      UnknownIsServed(node, cur.db.box.index, b, now, tip, false);
      return false, run;
    }
    ReconcilesWindow(cur, app.Value(), b, node, p, s.env, owner);
    StatusKept(cur.db, Reconcile(node.scan(b), b.start, b.end, tip), p.cfg);
    ghost var next := cur.(
      db := app.Value().(lastSeenTip := tip, lastScanned := b.end), local := cur.local.(next := SatAdd(b.end, 1)));
    BatchTaken(cur, next, app.Value(), b, node.scan(b), p);
    StepTracked(run, s, next, p, owner);
    var addrs := InOrder(r.value);
    ghost var scanned := app.Value().box;
    EnqueueAllQuiets(scanned, addrs, now);
    app.QueueWebhookDeliveries(addrs, now);
    assert Settles(scanned, app.Value().box, {} + r.value, now);
    OwedIsSettled(cur.db.box, scanned, app.Value().box, {}, r.value, now);
    app.RecordSyncStatus(tip, b.end);
    EnqueueStep(next, addrs, now, p);
    ghost var queued := next.(db := app.Value());
    StepTracked(run + [next], s, queued, p, owner);
    ok, longer := true, run + [next] + [queued];
  }

  lemma BatchTaken(s: Sys, s': Sys, mid: Db, b: ScanBatch, rs: seq<Attributed>, p: Settings)
    requires s.local.phase.Scanning? && NextScanBatch(s.local.next, s.local.tip, p.batchSize) == Some(b)
    requires Reconciles(s, mid, b, rs, p) && mid.lastSeenTip == s.db.lastSeenTip && mid.lastScanned == s.db.lastScanned
    requires s' == s.(
      db := mid.(lastSeenTip := s.local.tip, lastScanned := b.end), local := s.local.(next := SatAdd(b.end, 1)))
    ensures SysStep(s, s', p)
  {
    hide Reconciles, NextScanBatch;
    assert s'.db.(lastSeenTip := s.db.lastSeenTip, lastScanned := s.db.lastScanned) == mid;
    assert BatchStep(s, s', p);
  }

  /** The forward scan, batch after batch up to the sampled tip. */
  method ScanForward(
    app: AppDb, node: Node, tip: nat, now: Time,
    p: Settings, ghost s: Sys, ghost run: seq<Sys>, ghost owner: Uid -> AddressId, start: nat)
    returns (ok: bool, ghost longer: seq<Sys>)
    requires app.Valid() && Tracks(run, s, app.Value(), p, owner) && Serves(node, s.env, tip, p, owner)
    requires Last(run).local.phase.Scanning? && Last(run).local.tip == tip
    requires tip < U32_MAX && start == Last(run).local.next
    modifies app
    ensures app.Valid() && Tracks(longer, s, app.Value(), p, owner)
    ensures Last(longer).local == Last(run).local.(next := Last(longer).local.next)
    ensures ok ==> Last(longer).local.next > tip
    ensures ServesIssued(node, old(app.index.Keys)) ==> ok
    ensures run <= longer && Settles(old(app.Value()).box, app.Value().box, {}, now)
    ensures forall k :: |run| <= k < |longer| ==> longer[k].local.next > start
  {
    hide Owned, Serves, IsPath;
    ok, longer := true, run;
    var next := start;
    var batch := NextScanBatch(next, tip, p.batchSize);
    while batch.Some?
      invariant app.Valid() && Tracks(longer, s, app.Value(), p, owner)
      invariant Last(longer).local == Last(run).local.(next := next)
      invariant batch == NextScanBatch(next, tip, p.batchSize)
      invariant run <= longer && Settles(old(app.Value()).box, app.Value().box, {}, now)
      invariant next >= start && forall k :: |run| <= k < |longer| ==> longer[k].local.next > start
      decreases tip + 1 - next
    {
      ghost var before := app.Value().box;
      ok, longer := ScanBatchForward(app, node, tip, batch.value, now, p, s, longer, owner);
      SettledTwice(old(app.Value()).box, before, app.Value().box, now);
      if !ok {
        return;
      }
      next := SatAdd(batch.value.end, 1);
      batch := NextScanBatch(next, tip, p.batchSize);
    }
  }

  /** The maturity pass. */
  method MatureAll(
    app: AppDb, tip: nat, now: Time, p: Settings, ghost s: Sys, ghost run: seq<Sys>, ghost owner: Uid -> AddressId)
    returns (ghost longer: seq<Sys>)
    requires app.Valid() && Tracks(run, s, app.Value(), p, owner)
    requires Last(run).local.phase.Scanning? && Last(run).local.tip == tip && Last(run).local.next > tip
    modifies app
    ensures app.Valid() && Tracks(longer, s, app.Value(), p, owner)
    ensures Last(longer).local == Last(run).local.(phase := Maturing)
    ensures run <= longer && Settles(old(app.Value()).box, app.Value().box, {}, now)
  {
    hide Owned, AfterReceipts, IsPath, Owes, Settles;
    ghost var cur := Last(run);
    ReceiptsOwe(cur.db, Mature(tip), p.cfg);
    OwnersKeptDb(cur.db, Mature(tip), p.cfg, owner);
    var touched := app.AdvanceReceiptMaturity(tip, p.cfg);
    ghost var next := cur.(db := app.Value(), local := cur.local.(phase := Maturing));
    assert MatureStep(cur, next, p);
    StepTracked(run, s, next, p, owner);
    assert {} + touched == touched;
    longer := QueueAffected(app, touched, now, p, s, run + [next], owner);
    OwedIsSettled(cur.db.box, next.db.box, app.Value().box, {}, touched, now);
  }

  lemma SnapshotTaken(
    s: Sys, db': Db, node: Node, now: Time, tip: nat, revoke: bool, env: Env, p: Settings, owner: Uid -> AddressId)
    requires Serves(node, env, tip, p, owner) && Owned(s.db.ledger, owner)
    requires s.local.txids == node.txids && s.local.rs == node.rs
    requires Known(s.db.box.index, Snapshot(node.txids, node.rs, now, tip, revoke))
    requires db' == AfterReceipts(s.db, Snapshot(node.txids, node.rs, now, tip, revoke), p.cfg)
    ensures SnapshotApplied(s, db', tip, revoke, p) && Owned(db'.ledger, owner)
  {
    hide Owned, OwnedAll, KeepsAddresses, AfterReceipts, Known, IsScan, ScanMap, IsProvisional;
    var op := Snapshot(node.txids, node.rs, now, tip, revoke);
    OwnersKeptDb(s.db, op, p.cfg, owner);
    assert Attributable(s.db, op);
  }

  /** Reads the mempool and decides, after the reading is in hand, whether missing receipts may be revoked. */
  method ReadMempool(
    node: Node, tip: nat, through: int, p: Settings, ghost s: Sys, ghost run: seq<Sys>, ghost db: Db, ghost owner: Uid -> AddressId)
    returns (revoke: bool, ghost longer: seq<Sys>)
    requires Tracks(run, s, db, p, owner) && Serves(node, s.env, tip, p, owner)
    requires Last(run).local.phase.Maturing? && Last(run).local.tip == tip && p.cfg.report == 0
    requires through == ScannedThrough(p.birthday, Last(run).local.last, tip)
    ensures Tracks(longer, s, db, p, owner) && run <= longer
    ensures Last(longer).local == Last(run).local.(
      phase := Checked, txids := node.txids, rs := node.rs, seen := s.env.chain, revoke := revoke)
    ensures revoke <==> through >= tip && node.latest.Some? && node.latest.value <= tip
  {
    hide Owned, IsPath, IsScan, OwnedAll, IsProvisional, ScannedThrough;
    revoke := through >= tip;
    ghost var cur := Last(run);
    ghost var snapped := cur.(local := cur.local.(
      phase := Snapped, txids := node.txids, rs := node.rs, seen := s.env.chain, revoke := revoke));
    assert SnapStep(cur, snapped, p);
    StepTracked(run, s, snapped, p, owner);
    if revoke {
      revoke := node.latest.Some? && node.latest.value <= tip;
    }
    ghost var checked := snapped.(local := snapped.local.(phase := Checked, revoke := revoke));
    assert CheckStep(snapped, checked, p);
    StepTracked(run + [snapped], s, checked, p, owner);
    longer := run + [snapped] + [checked];
  }

  /** Brings the provisional receipts in line with the mempool. */
  method ReconcileCurrentMempool(
    app: AppDb, node: Node, tip: nat, through: int, now: Time,
    p: Settings, ghost s: Sys, ghost run: seq<Sys>, ghost owner: Uid -> AddressId)
    returns (ok: bool, ghost longer: seq<Sys>)
    requires app.Valid() && Tracks(run, s, app.Value(), p, owner) && Serves(node, s.env, tip, p, owner)
    requires Last(run).local.phase.Maturing? && Last(run).local.tip == tip && p.cfg.report == 0
    requires through == ScannedThrough(p.birthday, Last(run).local.last, tip)
    modifies app
    ensures app.Valid() && Tracks(longer, s, app.Value(), p, owner)
    ensures !Waiting(Last(longer).local)
    ensures ok ==> Last(longer).local.phase.Applied? && Last(longer).local.last == Last(run).local.last
                   && Last(longer).local.tip == tip
    ensures run <= longer
    ensures ServesIssued(node, old(app.index.Keys)) ==> ok
    ensures ok ==> Settles(old(app.Value()).box, app.Value().box, {}, now)
    ensures ok ==> HoldsReadings(app.ledger, node.rs)
    ensures ok ==>
      FollowsMempool(app.ledger, node, now, through >= tip && node.latest.Some? && node.latest.value <= tip)
  {
    hide Owned, Serves, IsPath, AfterReceipts, Known, SnapshotApplied, ScannedThrough, Owes, Settles, FollowsMempool, HoldsReadings;
    var revoke: bool;
    revoke, longer := ReadMempool(node, tip, through, p, s, run, app.Value(), owner);
    ghost var cur := Last(longer);
    var r := app.ReconcileMempoolSnapshot(node.txids, node.rs, now, tip, p.cfg, revoke);
    if r.Err? {
      UnknownChangesNothing(cur.db, Snapshot(node.txids, node.rs, now, tip, revoke), p.cfg);
      UnknownIsServed(node, cur.db.box.index, ScanBatch(0, 0), now, tip, revoke);
      return false, longer;
    }
    SnapshotTaken(cur, app.Value(), node, now, tip, revoke, s.env, p, owner);
    ReceiptsOwe(cur.db, Snapshot(node.txids, node.rs, now, tip, revoke), p.cfg);
    SnapshotFollows(cur.db, node, now, tip, revoke, p.cfg);
    ghost var next := cur.(db := app.Value(), local := cur.local.(phase := Applied));
    assert ApplyStep(cur, next, p);
    StepTracked(longer, s, next, p, owner);
    ok := true;
    assert {} + r.value == r.value;
    longer := QueueAffected(app, r.value, now, p, s, longer + [next], owner);
    OwedIsSettled(cur.db.box, next.db.box, app.Value().box, {}, r.value, now);
  }

  // ------------------------------------------------------------------ the iteration

  lemma Aborted(run: seq<Sys>, s: Sys, db: Db, p: Settings, owner: Uid -> AddressId) returns (longer: seq<Sys>)
    requires Tracks(run, s, db, p, owner) && !Waiting(Last(run).local)
    ensures Tracks(longer, s, db, p, owner) && Last(longer).local.phase.Idle?
  {
    hide Owned, IsPath, ActiveMined;
    var cur := Last(run);
    var next := cur.(
      local := cur.local.(phase := Idle),
      base := if cur.local.phase.Sampled? || cur.local.phase.Cleaned? then cur.base else ActiveMined(cur.db.ledger),
      floor := 0, settled := None);
    assert AbortStep(cur, next, p);
    StepTracked(run, s, next, p, owner);
    longer := run + [next];
  }

  /** Records how far the iteration got. */
  method RecordCompletion(
    app: AppDb, tip: nat, through: int, p: Settings, ghost s: Sys, ghost run: seq<Sys>, ghost owner: Uid -> AddressId)
    returns (ghost longer: seq<Sys>)
    requires app.Valid() && Tracks(run, s, app.Value(), p, owner)
    requires Last(run).local.phase.Applied? || (Last(run).local.phase.Maturing? && p.cfg.report != 0)
    requires Last(run).local.tip == tip && through == ScannedThrough(p.birthday, Last(run).local.last, tip)
    modifies app
    ensures app.Valid() && Tracks(longer, s, app.Value(), p, owner) && Last(longer).local.phase.Idle?
    ensures |longer| >= 2 && CompleteStep(longer[|longer| - 2], Last(longer), p)
    ensures app.Value() == old(app.Value()).(lastSeenTip := tip, lastScanned := through) && run <= longer
  {
    hide Owned, IsPath, ScannedThrough;
    ghost var cur := Last(run);
    app.RecordSyncStatus(tip, through);
    ghost var next := cur.(
      db := app.Value(), local := cur.local.(phase := Idle), base := cur.local.target, floor := tip + 1, settled := Some(tip));
    assert CompleteStep(cur, next, p);
    StepTracked(run, s, next, p, owner);
    longer := run + [next];
  }

  lemma {:induction false} PathKeeps(run: seq<Sys>, s: Sys, p: Settings, k: nat)
    requires 0 < p.cfg.maxAttempts <= U32_MAX
    requires SysOk(s, p) && IsPath(run, s, p) && k < |run|
    ensures SysOk(run[k], p)
  {
    hide SysOk, SysStep;
    if k > 0 {
      PathKeeps(run, s, p, k - 1);
      assert SysStep(run[k - 1], run[k], p);
      StepKeepsSys(run[k - 1], run[k], p);
    }
  }

  /** A path that completes an iteration leaves the ledger with the chain, and every address with its worth. */
  lemma PathConverges(run: seq<Sys>, s: Sys, p: Settings)
    requires 0 < p.cfg.maxAttempts <= U32_MAX
    requires SysOk(s, p) && IsPath(run, s, p) && |run| >= 2 && CompleteStep(run[|run| - 2], Last(run), p)
    requires Last(run).env == s.env && Last(run).db.lastSeenTip == s.env.tip
    ensures ActiveMined(Last(run).db.ledger) == s.env.chain
    ensures forall a :: a in Last(run).db.box.index ==> ReportsChain(Last(run), p, a)
    ensures OutboxOk(Last(run).db.box)
  {
    hide IsPath, CompleteStep, OutboxOk, IndexAgrees, AttemptsOk, RowsKnown, DepthsOk, KindsOk, PhaseOk, OnTarget, ReportsChain;
    PathKeeps(run, s, p, |run| - 2);
    PathKeeps(run, s, p, |run| - 1);
    CompletedChain(run[|run| - 2], Last(run), p);
    assert Between(s.env.chain, 0, s.env.tip) == s.env.chain;
    forall a | a in Last(run).db.box.index ensures ReportsChain(Last(run), p, a) {
      CompletedReports(run[|run| - 2], Last(run), p, a);
    }
  }

  /** A state of the path in which the long forward scan was announced before its first batch. */
  ghost predicate AnnouncesCatchUp(run: seq<Sys>, start: nat, tip: nat, last: int) {
    exists k :: 0 <= k < |run| && run[k].local.phase.Scanning? && run[k].local.next == start
                && run[k].db.lastSeenTip == tip && run[k].db.lastScanned == last
  }

  /** Before the first batch of the forward scan nothing was recorded about the new tip. */
  ghost predicate Unannounced(run: seq<Sys>, start: nat, seen: int) {
    forall k :: 0 <= k < |run| && run[k].local.phase.Scanning? && run[k].local.next == start ==> run[k].db.lastSeenTip == seen
  }

  lemma AnnouncedStays(run: seq<Sys>, longer: seq<Sys>, start: nat, tip: nat, last: int)
    requires AnnouncesCatchUp(run, start, tip, last) && run <= longer
    ensures AnnouncesCatchUp(longer, start, tip, last)
  {
    var k :| 0 <= k < |run| && run[k].local.phase.Scanning? && run[k].local.next == start
             && run[k].db.lastSeenTip == tip && run[k].db.lastScanned == last;
    assert longer[k] == run[k];
  }

  /** Whoever was not dirty before has been told, or will be by an outstanding delivery. */
  lemma AllAreTold(b: Box, c: Box, now: Time)
    requires Settles(b, c, {}, now) && OutboxOk(c)
    ensures forall a :: a in c.index && !IsDirty(b.index, a) && NoFailureSinceAck(c.deliveries, a, c.index[a]) ==>
      c.index[a].reported == LastWord(c.deliveries, a, c.index[a])
  {
    forall a | a in c.index && !IsDirty(b.index, a) && NoFailureSinceAck(c.deliveries, a, c.index[a])
      ensures c.index[a].reported == LastWord(c.deliveries, a, c.index[a])
    {
      NoLostNotification(c, a);
    }
  }

  lemma LatestIsTip(node: Node, env: Env, tip: nat, p: Settings, owner: Uid -> AddressId)
    requires Serves(node, env, tip, p, owner) && env.tip == tip
    ensures node.latest.Some? ==> node.latest.value == tip
  {
  }

  lemma CleanedIsSettled(b: Box, c: Box, d: Box, owed: set<AddressId>, now: Time)
    requires Owes(b, c, owed) && Settles(c, d, owed, now)
    ensures Settles(b, d, {}, now)
  {
  }

  lemma CatchUpAnnounced(run: seq<Sys>, start: nat, tip: nat, last: int)
    requires |run| > 0
    requires Last(run).local.phase.Scanning? && Last(run).local.next == start
    requires Last(run).db.lastSeenTip == tip && Last(run).db.lastScanned == last
    ensures AnnouncesCatchUp(run, start, tip, last)
  {
  }

  /** The scans of an iteration: cleanup, overlap window, forward scan. */
  method ScanChain(
    app: AppDb, node: Node, tip: nat, threshold: nat, now: Time,
    p: Settings, ghost s: Sys, ghost owner: Uid -> AddressId)
    returns (ok: bool, last: int, ghost run: seq<Sys>)
    requires app.Valid() && s.db == app.Value() && Owned(app.ledger, owner) && Serves(node, s.env, tip, p, owner)
    requires s.local.phase.Idle? && s.env.tip == tip < U32_MAX
    requires var overlap := OverlapBatch(p.birthday, app.lastScanned, tip, p.cfg.finality);
      overlap.Some? ==> overlap.value.start <= s.floor
    modifies app
    ensures app.Valid() && Tracks(run, s, app.Value(), p, owner) && last == old(app.lastScanned)
    ensures !Waiting(Last(run).local) && Last(run).local.tip == tip && Last(run).local.last == last
    ensures ok ==> Last(run).local.phase.Scanning? && Last(run).local.next > tip
    ensures ServesIssued(node, old(app.index.Keys)) ==> ok
    ensures ok ==> Settles(old(app.Value()).box, app.Value().box, {}, now)
    ensures var start := ForwardStart(p.birthday, last, tip);
      && (ok && start <= tip && tip - start + 1 >= threshold ==> AnnouncesCatchUp(run, start, tip, last))
      && (start > tip || tip - start + 1 < threshold ==> Unannounced(run, start, old(app.lastSeenTip)))
  {
    hide Owned, Serves, IsPath, ForwardStart, OverlapBatch, Settles, Owes, AnnouncesCatchUp, Tracks;
    ghost var before := app.Value().box;
    var touched;
    last, touched, run := CleanUp(app, tip, p, s, owner);
    ghost var cleaned := app.Value().box;
    SettledKeys(before, cleaned, touched, now);
    var decision := BuildSyncScanDecision(p.birthday, last, tip, threshold, p.batchSize, p.cfg.finality);
    ok, run := ScanOverlap(app, node, tip, last, now, touched, p, s, run, owner);
    if !ok {
      return;
    }
    ghost var scanned := app.Value().box;
    CleanedIsSettled(before, cleaned, scanned, touched, now);
    SettledKeys(before, scanned, {}, now);
    if decision.plan.shouldMarkCatchingUp {
      run := MarkCatchingUp(app, tip, last, p, s, run, owner);
      CatchUpAnnounced(run, decision.forwardStart, tip, last);
    }
    ghost var shorter := run;
    ok, run := ScanForward(app, node, tip, now, p, s, run, owner, decision.forwardStart);
    SettledTwice(before, scanned, app.Value().box, now);
    if decision.plan.shouldMarkCatchingUp {
      AnnouncedStays(shorter, run, decision.forwardStart, tip, last);
    }
  }

  /** What follows the scans: the maturity pass and, in mempool mode, the mempool. */
  method FollowUp(
    app: AppDb, node: Node, tip: nat, through: int, now: Time,
    p: Settings, ghost s: Sys, ghost run: seq<Sys>, ghost owner: Uid -> AddressId)
    returns (ok: bool, ghost longer: seq<Sys>)
    requires app.Valid() && Tracks(run, s, app.Value(), p, owner) && Serves(node, s.env, tip, p, owner)
    requires Last(run).local.phase.Scanning? && Last(run).local.tip == tip && Last(run).local.next > tip
    requires through == ScannedThrough(p.birthday, Last(run).local.last, tip)
    modifies app
    ensures app.Valid() && Tracks(longer, s, app.Value(), p, owner) && run <= longer
    ensures !Waiting(Last(longer).local)
    ensures ok ==> Last(longer).local.phase.Applied? || (Last(longer).local.phase.Maturing? && p.cfg.report != 0)
    ensures ok ==> Last(longer).local.tip == tip && Last(longer).local.last == Last(run).local.last
    ensures ServesIssued(node, old(app.index.Keys)) ==> ok
    ensures ok ==> Settles(old(app.Value()).box, app.Value().box, {}, now)
    ensures ok && p.cfg.report == 0 ==> HoldsReadings(app.ledger, node.rs)
    ensures ok && p.cfg.report == 0 ==>
      FollowsMempool(app.ledger, node, now, through >= tip && node.latest.Some? && node.latest.value <= tip)
  {
    hide Owned, Serves, IsPath, ScannedThrough, Settles, FollowsMempool, HoldsReadings;
    ok := true;
    longer := MatureAll(app, tip, now, p, s, run, owner);
    ghost var matured := app.Value().box;
    SettledKeys(old(app.Value()).box, matured, {}, now);
    if p.cfg.report == 0 {
      ok, longer := ReconcileCurrentMempool(app, node, tip, through, now, p, s, longer, owner);
      if ok { SettledTwice(old(app.Value()).box, matured, app.Value().box, now); }
    }
  }

  /**
   * One iteration of the sync worker. Left alone by the other actors it takes a path of the state
   * machine: it ends with the step that completes an iteration, or, when the database refuses an
   * unknown address, and only then, with the step that interrupts it. A completed iteration leaves no address dirty
   * that was not dirty before: every change it made is announced. In mempool mode the provisional
   * rows are then those of the mempool, and count while they are fresh.
   */
  method SyncWithLightwalletd(
    app: AppDb, node: Node, tip: nat, threshold: nat, now: Time,
    p: Settings, ghost s: Sys, ghost owner: Uid -> AddressId)
    returns (completed: bool, ghost run: seq<Sys>)
    requires app.Valid() && s.db == app.Value() && Owned(app.ledger, owner) && Serves(node, s.env, tip, p, owner)
    requires 0 < p.cfg.maxAttempts <= U32_MAX && SysOk(s, p)
    requires s.local.phase.Idle? && s.env.tip == tip < U32_MAX
    requires var overlap := OverlapBatch(p.birthday, app.lastScanned, tip, p.cfg.finality);
      overlap.Some? ==> overlap.value.start <= s.floor
    modifies app
    ensures app.Valid() && Tracks(run, s, app.Value(), p, owner) && Last(run).local.phase.Idle?
    ensures ServesIssued(node, old(app.index.Keys)) ==> completed
    ensures completed ==> ActiveMined(app.ledger) == s.env.chain
    ensures completed ==> forall a :: a in app.index ==> ReportsChain(Last(run), p, a)
    ensures completed ==> |run| >= 2 && CompleteStep(run[|run| - 2], Last(run), p)
    ensures completed ==> app.lastSeenTip == tip
    ensures completed ==> app.lastScanned == ScannedThrough(p.birthday, old(app.lastScanned), tip)
    ensures completed ==> Settles(old(app.Value()).box, app.Value().box, {}, now)
    ensures completed ==>
      forall a :: a in app.index && !IsDirty(old(app.index), a) && NoFailureSinceAck(app.deliveries, a, app.index[a]) ==>
        app.index[a].reported == LastWord(app.deliveries, a, app.index[a])
    ensures completed && p.cfg.report == 0 ==> HoldsReadings(app.ledger, node.rs)
    ensures completed && p.cfg.report == 0 ==>
      FollowsMempool(app.ledger, node, now, app.lastScanned >= tip && node.latest == Some(tip))
    ensures var start := ForwardStart(p.birthday, old(app.lastScanned), tip);
      completed && start <= tip && tip - start + 1 >= threshold ==>
        AnnouncesCatchUp(run, start, tip, old(app.lastScanned))
  {
    hide Owned, Serves, IsPath, ScannedThrough, ForwardStart, OverlapBatch, SysOk, ReportsChain, CompleteStep,
         Settles, FollowsMempool, HoldsReadings, AnnouncesCatchUp, OutboxOk;
    ghost var before := app.Value().box;
    LatestIsTip(node, s.env, tip, p, owner);
    var last, ok;
    ok, last, run := ScanChain(app, node, tip, threshold, now, p, s, owner);
    var through := ScannedThrough(p.birthday, last, tip);
    ghost var scanned, shorter := app.Value().box, run;
    if ok {
      SettledKeys(before, scanned, {}, now);
      ok, run := FollowUp(app, node, tip, through, now, p, s, run, owner);
    }
    if !ok {
      run := Aborted(run, s, app.Value(), p, owner);
      return false, run;
    }
    SettledTwice(before, scanned, app.Value().box, now);
    run := RecordCompletion(app, tip, through, p, s, run, owner);
    completed := true;
    PathConverges(run, s, p);
    AllAreTold(before, app.Value().box, now);
    ghost var start := ForwardStart(p.birthday, last, tip);
    if start <= tip && tip - start + 1 >= threshold {
      AnnouncedStays(shorter, run, start, tip, last);
    }
  }
}
