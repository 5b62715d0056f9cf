/**
 * The outbox on one end, a version-gated receiver on the other, and between them a network that
 * may delay, duplicate, reorder and drop posts.
 */
module EndToEnd {
  import opened Common
  import opened Sums
  import opened TotalsIndex
  import opened Reconciliation
  import opened Outbox
  import opened Database
  import opened ScanPlan
  import opened Convergence
  import opened SyncProtocol
  import opened SyncRuns
  import opened SyncDepths
  import opened SyncResults

  datatype Message = Message(addr: AddressId, version: nat, reported: Reported)

  /** What the receiver stores for an address. */
  datatype Stored = Stored(version: nat, reported: Reported)

  const UNSEEN: Stored := Stored(0, NOTHING)

  /** `posted` never shrinks, so a post may arrive late, twice or never; `taken` holds those that did. */
  datatype World = World(sys: Sys, posted: set<Message>, taken: set<Message>, stored: map<AddressId, Stored>)

  function MessageOf(d: Delivery): Message {
    Message(d.addr, d.version, d.reported)
  }

  function StoredAt(stored: map<AddressId, Stored>, a: AddressId): Stored {
    if a in stored then stored[a] else UNSEEN
  }

  /** The receiver applies a strictly newer version and answers any post with success. */
  function Taken(stored: map<AddressId, Stored>, m: Message): map<AddressId, Stored> {
    if m.version > StoredAt(stored, m.addr).version then stored[m.addr := Stored(m.version, m.reported)] else stored
  }

  // ------------------------------------------------------------------ steps

  ghost predicate SyncsOrForks(w: World, w': World, p: Settings) {
    w' == w.(sys := w'.sys) && (WorkerStep(w.sys, w'.sys, p) || NetworkStep(w.sys, w'.sys, p))
  }

  /** The delivery worker records success only for a post the receiver took. */
  ghost predicate Delivers(w: World, w': World, op: Op, p: Settings) {
    && !op.Receive? && !op.Record? && Enabled(w.sys.db, op)
    && (op.Finish? && IsSuccess(op.outcome) ==> MessageOf(w.sys.db.box.deliveries[op.i]) in w.taken)
    && w' == w.(sys := w.sys.(db := Next(w.sys.db, op, p.cfg)))
  }

  ghost predicate Posts(w: World, w': World, i: nat) {
    && i < |w.sys.db.box.deliveries| && w.sys.db.box.deliveries[i].state.Sending?
    && w' == w.(posted := w.posted + {MessageOf(w.sys.db.box.deliveries[i])})
  }

  ghost predicate Arrives(w: World, w': World, m: Message) {
    m in w.posted && w' == w.(taken := w.taken + {m}, stored := Taken(w.stored, m))
  }

  ghost predicate WorldStep(w: World, w': World, p: Settings) {
    || SyncsOrForks(w, w', p)
    || (exists op: Op :: Delivers(w, w', op, p))
    || (exists i: nat :: Posts(w, w', i))
    || (exists m :: Arrives(w, w', m))
  }

  ghost predicate IsWorldRun(run: seq<World>, required: Option<nat>, p: Settings) {
    && |run| > 0 && EnvOk(run[0].sys.env, p.birthday)
    && run[0] == World(Start(run[0].sys.env, required), {}, {}, map[])
    && forall i :: 0 <= i < |run| - 1 ==> WorldStep(run[i], run[i + 1], p)
  }

  // ------------------------------------------------------------------ invariant

  ghost predicate IsEvent(ds: seq<Delivery>, m: Message) {
    exists i :: 0 <= i < |ds| && MessageOf(ds[i]) == m
  }

  /** The receiver holds the newest message it took. */
  ghost predicate HoldsNewest(taken: set<Message>, stored: map<AddressId, Stored>) {
    && (forall m :: m in taken ==> m.version <= StoredAt(stored, m.addr).version)
    && (forall a :: a in stored ==> Message(a, stored[a].version, stored[a].reported) in taken)
  }

  ghost predicate SuccessesTaken(ds: seq<Delivery>, taken: set<Message>) {
    forall i :: 0 <= i < |ds| && ds[i].state.Succeeded? ==> MessageOf(ds[i]) in taken
  }

  ghost predicate MailOk(w: World) {
    && (forall m :: m in w.posted ==> IsEvent(w.sys.db.box.deliveries, m))
    && w.taken <= w.posted
    && HoldsNewest(w.taken, w.stored)
    && SuccessesTaken(w.sys.db.box.deliveries, w.taken)
  }

  lemma ArrivalKeeps(w: World, w': World, m: Message)
    requires MailOk(w) && Arrives(w, w', m)
    ensures MailOk(w')
  {
    hide IsEvent;
    forall q | q in w'.taken ensures q.version <= StoredAt(w'.stored, q.addr).version { }
  }

  lemma PostKeeps(w: World, w': World, i: nat)
    requires MailOk(w) && Posts(w, w', i)
    ensures MailOk(w')
  {
    hide HoldsNewest;
    assert IsEvent(w.sys.db.box.deliveries, MessageOf(w.sys.db.box.deliveries[i]));
  }

  /** Deliveries that succeed in a step: at most `i`. */
  ghost predicate SucceedsOnly(ds: seq<Delivery>, ds': seq<Delivery>, i: int) {
    forall j :: 0 <= j < |ds'| && ds'[j].state.Succeeded? ==> j == i || (j < |ds| && ds[j].state.Succeeded?)
  }

  lemma AdvancingKeepsMail(w: World, w': World, i: int)
    requires MailOk(w) && w' == w.(sys := w'.sys)
    requires Advances(w.sys.db.box, w'.sys.db.box)
    requires SucceedsOnly(w.sys.db.box.deliveries, w'.sys.db.box.deliveries, i)
    requires 0 <= i < |w.sys.db.box.deliveries| ==> MessageOf(w.sys.db.box.deliveries[i]) in w.taken
    requires i < |w.sys.db.box.deliveries|
    ensures MailOk(w')
  {
    var ds, ds' := w.sys.db.box.deliveries, w'.sys.db.box.deliveries;
    forall j | 0 <= j < |ds| ensures MessageOf(ds'[j]) == MessageOf(ds[j]) {
      assert DeliveryAdvances(ds[j], ds'[j]);
    }
    forall m | m in w.posted ensures IsEvent(ds', m) {
      var j :| 0 <= j < |ds| && MessageOf(ds[j]) == m;
      assert MessageOf(ds'[j]) == m;
    }
  }

  lemma EnqueueSucceedsNothing(b: Box, a: AddressId, now: Time)
    ensures SucceedsOnly(b.deliveries, Enqueued(b, a, now).deliveries, -1)
  {
  }

  lemma {:induction false} EnqueueAllSucceedsNothing(b: Box, addrs: seq<AddressId>, now: Time)
    ensures SucceedsOnly(b.deliveries, EnqueuedAll(b, addrs, now).deliveries, -1)
  {
    if addrs != [] {
      var init := EnqueuedAll(b, addrs[..|addrs| - 1], now);
      EnqueueAllSucceedsNothing(b, addrs[..|addrs| - 1], now);
      EnqueueSucceedsNothing(init, addrs[|addrs| - 1], now);
    }
  }

  lemma FinishSucceedsOne(b: Box, i: nat, o: Outcome, now: Time, next: Time, maxAttempts: nat)
    requires i < |b.deliveries|
    ensures SucceedsOnly(b.deliveries, Finished(b, i, o, now, next, maxAttempts).deliveries, if IsSuccess(o) then i else -1)
  {
    if IsSuccess(o) && b.deliveries[i].addr in b.index {
      EnqueueSucceedsNothing(AckMoved(b, i), b.deliveries[i].addr, now);
    }
  }

  lemma StepSucceeds(db: Db, op: Op, cfg: Config)
    requires Enabled(db, op)
    ensures SucceedsOnly(db.box.deliveries, Next(db, op, cfg).box.deliveries,
                         if op.Finish? && IsSuccess(op.outcome) then op.i else -1)
  {
    hide Finished, EnqueuedAll;
    if op.Enqueue? {
      EnqueueAllSucceedsNothing(db.box, op.addrs, op.now);
    } else if op.Finish? {
      FinishSucceedsOne(db.box, op.i, op.outcome, op.now, op.next, cfg.maxAttempts);
    }
  }

  lemma DeliveryKeeps(w: World, w': World, op: Op, p: Settings)
    requires 0 < p.cfg.maxAttempts <= U32_MAX
    requires MailOk(w) && DbOk(w.sys.db, p.cfg) && Delivers(w, w', op, p)
    ensures MailOk(w')
  {
    hide MailOk, DbOk, Next, Advances, SucceedsOnly;
    StepAdvances(w.sys.db, op, p.cfg);
    StepSucceeds(w.sys.db, op, p.cfg);
    AdvancingKeepsMail(w, w', if op.Finish? && IsSuccess(op.outcome) then op.i else -1);
  }

  /** The sync worker and the network leave the deliveries alone. */
  lemma WorkerKeepsDeliveries(s: Sys, s': Sys, p: Settings)
    requires WorkerStep(s, s', p) || NetworkStep(s, s', p)
    ensures s'.db.box.deliveries == s.db.box.deliveries
  {
    hide LedgerAfter, Touched, Known, RecomputeAll, IsScan, Overlap, ForwardStart, ScannedThrough, BlockMined, EnvOk,
         ForksAbove, ReadsMempool, Attributable, TakenOver, ActiveMined;
  }

  lemma SyncKeeps(w: World, w': World, p: Settings)
    requires MailOk(w) && SyncsOrForks(w, w', p)
    ensures MailOk(w')
  {
    hide WorkerStep, NetworkStep, IsEvent, HoldsNewest;
    WorkerKeepsDeliveries(w.sys, w'.sys, p);
  }

  lemma StepKeepsWorld(w: World, w': World, p: Settings)
    requires 0 < p.cfg.maxAttempts <= U32_MAX
    requires MailOk(w) && SysOk(w.sys, p) && WorldStep(w, w', p)
    ensures MailOk(w') && SysOk(w'.sys, p)
  {
    hide MailOk, DbOk, LedgerOk, DepthsOk, KindsOk, WorkerStep, NetworkStep, Enabled, Next, Taken;
    if SyncsOrForks(w, w', p) {
      SyncKeeps(w, w', p);
      StepKeepsSys(w.sys, w'.sys, p);
    } else if op: Op :| Delivers(w, w', op, p) {
      DeliveryKeeps(w, w', op, p);
      assert OtherStep(w.sys, w'.sys, p);
      StepKeepsSys(w.sys, w'.sys, p);
    } else if i: nat :| Posts(w, w', i) {
      PostKeeps(w, w', i);
    } else {
      var m :| Arrives(w, w', m);
      ArrivalKeeps(w, w', m);
    }
  }

  lemma {:induction false} WorldRunsAreOk(run: seq<World>, required: Option<nat>, p: Settings, k: nat)
    requires 0 < p.cfg.maxAttempts <= U32_MAX
    requires IsWorldRun(run, required, p) && k < |run|
    ensures MailOk(run[k]) && SysOk(run[k].sys, p)
  {
    hide SysOk, WorldStep;
    if k == 0 {
      StartOk(run[0].sys.env, required, p);
    } else {
      WorldRunsAreOk(run, required, p, k - 1);
      assert WorldStep(run[k - 1], run[k], p);
      StepKeepsWorld(run[k - 1], run[k], p);
    }
  }

  // ------------------------------------------------------------------ convergence

  /** Nothing about `a` is dirty, outstanding past its acknowledgement, or lost since then. */
  ghost predicate AtRest(b: Box, a: AddressId)
    requires a in b.index
  {
    && !b.index[a].notice.Dirty?
    && Newest(b.deliveries, a, b.index[a]) < 0
    && NoFailureSinceAck(b.deliveries, a, b.index[a])
  }

  /** At rest no event of `a` is newer than the acknowledged one. */
  lemma AckedIsLast(ds: seq<Delivery>, a: AddressId, t: Entry, j: int)
    requires AddressOk(ds, a, t) && Newest(ds, a, t) < 0 && NoFailureSinceAck(ds, a, t)
    requires 0 <= j < |ds| && ds[j].addr == a
    ensures j <= AckedIndex(ds, a, t)
  {
    assert ds[j].state.Succeeded? ==> j <= AckedIndex(ds, a, t);
    assert Outstanding(ds[j]) ==> Pending(ds[j], a);
  }

  /** What the receiver stores at rest is the acknowledged event. */
  lemma StoredIsAcked(w: World, a: AddressId)
    requires MailOk(w) && OutboxOk(w.sys.db.box) && a in w.sys.db.box.index && AtRest(w.sys.db.box, a)
    ensures StoredAt(w.stored, a).reported == w.sys.db.box.index[a].notified
  {
    var ds, t := w.sys.db.box.deliveries, w.sys.db.box.index[a];
    var k := AckedIndex(ds, a, t);
    assert AddressOk(ds, a, t);
    if a in w.stored {
      var m := Message(a, w.stored[a].version, w.stored[a].reported);
      assert m in w.posted;
      var j :| 0 <= j < |ds| && MessageOf(ds[j]) == m;
      AckedIsLast(ds, a, t, j);
      assert MessageOf(ds[k]) in w.taken;
      Rises(ds, a, j, k);
      assert j == k;
    } else {
      assert k >= 0 ==> MessageOf(ds[k]) in w.taken;
    }
  }

  /**
   * End to end: in every reachable state, once nothing about an address is dirty or outstanding,
   * the receiver stores exactly the pair the service reports. Posts may have been duplicated,
   * reordered, retried and interrupted; the setting is fixed and no delivery was given up since
   * the acknowledged one.
   */
  lemma ReceiverConverges(run: seq<World>, required: Option<nat>, p: Settings, k: nat, a: AddressId)
    requires 0 < p.cfg.maxAttempts <= U32_MAX
    requires IsWorldRun(run, required, p) && k < |run|
    requires a in run[k].sys.db.box.index && AtRest(run[k].sys.db.box, a)
    ensures StoredAt(run[k].stored, a).reported == run[k].sys.db.box.index[a].reported
  {
    WorldRunsAreOk(run, required, p, k);
    WorldAtRest(run[k], p, a);
  }

  lemma WorldAtRest(w: World, p: Settings, a: AddressId)
    requires MailOk(w) && SysOk(w.sys, p) && a in w.sys.db.box.index && AtRest(w.sys.db.box, a)
    ensures StoredAt(w.stored, a).reported == w.sys.db.box.index[a].reported
  {
    hide MailOk, OutboxOk, LedgerOk, DepthsOk, KindsOk, IndexAgrees, AttemptsOk, NoFailureSinceAck;
    StoredIsAcked(w, a);
    NoLostNotification(w.sys.db.box, a);
  }

  /**
   * From the chain to the shop: once an iteration has completed with step `k`, what the receiver
   * stores in any later state `m` in which the address is at rest is what the chain pays, as long as
   * the ledger and the scanned part of the chain are still those of the completed iteration. The
   * iteration's own deliveries may be posted, retried and acknowledged in between.
   */
  lemma ChainReachesReceiver(run: seq<World>, required: Option<nat>, p: Settings, k: nat, m: nat, a: AddressId)
    requires 0 < p.cfg.maxAttempts <= U32_MAX
    requires IsWorldRun(run, required, p) && k < m < |run| && CompleteStep(run[k].sys, run[k + 1].sys, p)
    requires var tip := run[k].sys.local.tip;
      && run[m].sys.db.ledger == run[k + 1].sys.db.ledger
      && Between(run[m].sys.env.chain, 0, tip) == Between(run[k + 1].sys.env.chain, 0, tip)
    requires a in run[m].sys.db.box.index && AtRest(run[m].sys.db.box, a)
    ensures var s, tip := run[m].sys, run[k].sys.local.tip;
      StoredAt(run[m].stored, a).reported.total
        == Total(ChainReceipts(Between(s.env.chain, 0, tip), a, tip, p.cfg.report)) + Total(Provisionals(s.db.ledger, a))
  {
    hide IsWorldRun, SysOk, CompleteStep, AtRest, Between, ActiveMined, MailOk;
    WorldRunsAreOk(run, required, p, k);
    WorldRunsAreOk(run, required, p, k + 1);
    WorldRunsAreOk(run, required, p, m);
    CompletedWorth(run[k].sys, run[k + 1].sys, run[m].sys, p, a);
    ReceiverConverges(run, required, p, m, a);
  }

  /** The worth of an address depends on the ledger only, so it outlasts the iteration that found it. */
  lemma CompletedWorth(s0: Sys, s: Sys, later: Sys, p: Settings, a: AddressId)
    requires SysOk(s0, p) && SysOk(s, p) && SysOk(later, p) && CompleteStep(s0, s, p)
    requires later.db.ledger == s.db.ledger && a in later.db.box.index
    requires Between(later.env.chain, 0, s0.local.tip) == Between(s.env.chain, 0, s0.local.tip)
    ensures later.db.box.index[a].reported.total
         == Total(ChainReceipts(Between(later.env.chain, 0, s0.local.tip), a, s0.local.tip, p.cfg.report))
            + Total(Provisionals(later.db.ledger, a))
  {
    hide LedgerOk, DepthsOk, KindsOk, OutboxOk, AttemptsOk, CompleteStep, RowsCurrent, Between, ActiveMined;
    CompletedChain(s0, s, p);
    SettledDepths(s0, s, p);
    EligibleSplits(s.db.ledger, a, s0.local.tip, p.cfg.report);
    assert EntryAgrees(later.db.ledger, a, later.db.box.index[a], p.cfg.finality, later.db.required);
  }
}
