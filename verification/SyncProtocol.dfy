/**
 * The sync worker's iteration as a state machine over a changing chain and mempool. Every database
 * transaction is one step; the steps of the other actors and of the network fall in between.
 */
module SyncProtocol {
  import opened Common
  import opened Receipts
  import opened TotalsIndex
  import opened Reconciliation
  import opened Database
  import opened ScanPlan
  import opened Convergence

  datatype Settings = Settings(birthday: nat, batchSize: nat, cfg: Config)

  /** The node's view: receipts on the best chain (to issued addresses), its height, the mempool. */
  datatype Env = Env(chain: Chain, tip: nat, mempool: set<string>)

  datatype Phase = Idle | Sampled | Cleaned | Scanning | Maturing | Snapped | Checked | Applied | Peeked

  /**
   * The iteration's local variables. `target` is the chain when the tip was sampled and `seen` the
   * chain when the mempool was read; no branch depends on them.
   */
  datatype Local = Local(
    phase: Phase, tip: nat, last: int, next: nat, target: Chain,
    txids: set<string>, rs: seq<Attributed>, seen: Chain, revoke: bool)

  /**
   * `base` is the chain the ledger held when the worker last became idle and `floor` the height
   * below which the chain has not been reorganized since. `settled` is the tip of the iteration
   * that just completed.
   */
  datatype Sys = Sys(
    env: Env, db: Db, local: Local, base: Chain, floor: nat, settled: Option<nat>)

  // ------------------------------------------------------------------ the network

  ghost predicate EnvOk(env: Env, birthday: nat) {
    && env.tip < U32_MAX
    && forall u :: u in env.chain ==> birthday <= env.chain[u].height <= env.tip && u.txid !in env.mempool
  }

  /** A new block on top; its transactions leave the mempool. */
  ghost predicate BlockMined(env: Env, env': Env) {
    && env'.tip == env.tip + 1
    && env.chain.Keys <= env'.chain.Keys
    && (forall u :: u in env.chain ==> env'.chain[u] == env.chain[u])
    && (forall u :: u in env'.chain && u !in env.chain ==> env'.chain[u].height == env'.tip)
    && env'.mempool <= env.mempool
    && (forall t :: t in env.mempool && t !in env'.mempool ==> exists u :: u in env'.chain && u.txid == t)
  }

  /** Transactions enter the mempool or are dropped from it. */
  ghost predicate MempoolChanged(env: Env, env': Env) {
    env'.tip == env.tip && env'.chain == env.chain
  }

  /** Whatever happens to the chain, the heights below `floor` stay as they were scanned. */
  ghost predicate ForksAbove(env: Env, base: Chain, floor: nat) {
    Between(env.chain, 0, floor - 1) == Between(base, 0, floor - 1)
  }

  ghost predicate Waiting(local: Local) {
    local.phase.Idle? || local.phase.Peeked?
  }

  /** Reorganizations, growth and rewinds happen between iterations; during one the chain only grows. */
  ghost predicate NetworkStep(s: Sys, s': Sys, p: Settings) {
    && s' == s.(env := s'.env)
    && EnvOk(s'.env, p.birthday)
    && (if Waiting(s.local) then ForksAbove(s'.env, s.base, s.floor)
        else BlockMined(s.env, s'.env) || MempoolChanged(s.env, s'.env))
  }

  /** The delivery worker and the HTTP handlers. */
  ghost predicate OtherStep(s: Sys, s': Sys, p: Settings) {
    exists op: Op :: !op.Receive? && !op.Record? && Enabled(s.db, op) && s' == s.(db := Next(s.db, op, p.cfg))
  }

  // ------------------------------------------------------------------ the iteration

  function Overlap(local: Local, p: Settings): Option<ScanBatch> {
    OverlapBatch(p.birthday, local.last, local.tip, p.cfg.finality)
  }

  /** Samples the tip. The run assumes that no reorganization reached below the overlap window. */
  ghost predicate SampleStep(s: Sys, s': Sys, p: Settings) {
    && s.local.phase.Idle?
    && var l := s.local.(phase := Sampled, tip := s.env.tip, last := s.db.lastScanned, target := s.env.chain);
       && s' == s.(local := l)
       && (Overlap(l, p).Some? ==> Overlap(l, p).value.start <= s.floor)
  }

  ghost predicate CleanStep(s: Sys, s': Sys, p: Settings) {
    && s.local.phase.Sampled?
    && s' == s.(
         local := s.local.(phase := Cleaned),
         db := if s.local.last > s.local.tip then AfterReceipts(s.db, RevokeAbove(s.local.tip), p.cfg) else s.db)
  }

  /** Scans one window of the chain as it is now and reconciles it. */
  ghost predicate Reconciles(s: Sys, db': Db, b: ScanBatch, rs: seq<Attributed>, p: Settings) {
    var op := Reconcile(rs, b.start, b.end, s.local.tip);
    && IsScan(ScanMap(rs), s.env.chain, b.start, b.end, s.local.tip, p.cfg.report)
    && Attributable(s.db, op)
    && db' == AfterReceipts(s.db, op, p.cfg)
  }

  ghost predicate OverlapStep(s: Sys, s': Sys, p: Settings) {
    && s.local.phase.Cleaned?
    && s' == s.(db := s'.db, local := s.local.(
         phase := Scanning, next := ForwardStart(p.birthday, s.local.last, s.local.tip)))
    && (Overlap(s.local, p).None? ==> s'.db == s.db)
    && (Overlap(s.local, p).Some? ==> exists rs :: Reconciles(s, s'.db, Overlap(s.local, p).value, rs, p))
  }

  /** Before a long forward scan the worker records that it is catching up. */
  ghost predicate MarkStep(s: Sys, s': Sys, p: Settings) {
    && s.local.phase.Scanning? && s.local.next == ForwardStart(p.birthday, s.local.last, s.local.tip)
    && s' == s.(db := s.db.(lastSeenTip := s.local.tip, lastScanned := s.local.last))
  }

  /** One batch of the forward scan, with the progress it records. */
  ghost predicate BatchStep(s: Sys, s': Sys, p: Settings) {
    && s.local.phase.Scanning?
    && NextScanBatch(s.local.next, s.local.tip, p.batchSize).Some?
    && var b := NextScanBatch(s.local.next, s.local.tip, p.batchSize).value;
       && s' == s.(db := s'.db, local := s.local.(next := SatAdd(b.end, 1)))
       && s'.db.lastSeenTip == s.local.tip && s'.db.lastScanned == b.end
       && (exists rs ::
            Reconciles(s, s'.db.(lastSeenTip := s.db.lastSeenTip, lastScanned := s.db.lastScanned), b, rs, p))
  }

  ghost predicate MatureStep(s: Sys, s': Sys, p: Settings) {
    && s.local.phase.Scanning? && s.local.next > s.local.tip
    && s' == s.(db := AfterReceipts(s.db, Mature(s.local.tip), p.cfg), local := s.local.(phase := Maturing))
  }

  /** What one reading of the mempool gives: its transactions and the receipts of the new ones. */
  ghost predicate ReadsMempool(s: Sys, l: Local) {
    && l.txids == s.env.mempool && l.seen == s.env.chain
    && forall r :: r in l.rs ==> IsProvisional(r) && r.uid.txid in s.env.mempool
  }

  ghost predicate SnapStep(s: Sys, s': Sys, p: Settings) {
    && s.local.phase.Maturing? && p.cfg.report == 0
    && s' == s.(local := s'.local)
    && ReadsMempool(s, s'.local)
    && s'.local == s.local.(
         phase := Snapped, txids := s'.local.txids, rs := s'.local.rs, seen := s'.local.seen,
         revoke := ScannedThrough(p.birthday, s.local.last, s.local.tip) >= s.local.tip)
  }

  /** Re-checks the tip after the snapshot is in hand; an unanswered check also defers revocation. */
  ghost predicate CheckStep(s: Sys, s': Sys, p: Settings) {
    && s.local.phase.Snapped?
    && s' == s.(local := s.local.(phase := Checked, revoke := s'.local.revoke))
    && (s'.local.revoke ==> s.local.revoke && s.env.tip <= s.local.tip)
  }

  ghost predicate SnapshotApplied(s: Sys, db': Db, tip: nat, revoke: bool, p: Settings) {
    exists now: Time :: var op := Snapshot(s.local.txids, s.local.rs, now, tip, revoke);
      Attributable(s.db, op) && db' == AfterReceipts(s.db, op, p.cfg)
  }

  ghost predicate ApplyStep(s: Sys, s': Sys, p: Settings) {
    && s.local.phase.Checked?
    && s' == s.(db := s'.db, local := s.local.(phase := Applied))
    && SnapshotApplied(s, s'.db, s.local.tip, s.local.revoke, p)
  }

  /** Records the iteration; peeks may follow. The floor of the coming idle period may be any height scanned so far. */
  ghost predicate CompleteStep(s: Sys, s': Sys, p: Settings) {
    && (s.local.phase.Applied? || (s.local.phase.Maturing? && p.cfg.report != 0))
    && var through := ScannedThrough(p.birthday, s.local.last, s.local.tip);
       && s' == s.(
            db := s.db.(lastSeenTip := s.local.tip, lastScanned := through),
            local := s.local.(phase := Idle), base := s.local.target, floor := s'.floor, settled := Some(s.local.tip))
       && s'.floor <= s.local.tip + 1
  }

  /** Between iterations the worker looks at the mempool again, without revoking anything. */
  ghost predicate PeekStep(s: Sys, s': Sys, p: Settings) {
    && s.local.phase.Idle? && s.settled.Some? && p.cfg.report == 0
    && s' == s.(local := s'.local)
    && ReadsMempool(s, s'.local)
    && s'.local == s.local.(phase := Peeked, txids := s'.local.txids, rs := s'.local.rs, seen := s'.local.seen)
  }

  ghost predicate PeekApplyStep(s: Sys, s': Sys, p: Settings) {
    && s.local.phase.Peeked? && s.settled.Some?
    && s' == s.(db := s'.db, local := s.local.(phase := Idle))
    && SnapshotApplied(s, s'.db, s.settled.value, false, p)
  }

  /** The heights the ledger has taken over from the chain when an iteration is interrupted. */
  function TakenOver(s: Sys): nat {
    match s.local.phase
    case Sampled => Min(s.floor, s.local.tip + 1)
    case Cleaned => Min(s.floor, s.local.tip + 1)
    case Scanning => Min(s.local.next, s.local.tip + 1)
    case _ => s.local.tip + 1
  }

  /** A failed request, a failed transaction or a restart ends the iteration where it stands. */
  ghost predicate AbortStep(s: Sys, s': Sys, p: Settings) {
    && !Waiting(s.local)
    && s' == s.(
         local := s.local.(phase := Idle),
         base := if s.local.phase.Sampled? || s.local.phase.Cleaned? then s.base else ActiveMined(s.db.ledger),
         floor := s'.floor, settled := None)
    && s'.floor <= TakenOver(s)
  }

  /** The mempool could not be read between iterations. */
  ghost predicate PeekAbortStep(s: Sys, s': Sys, p: Settings) {
    s.local.phase.Peeked? && s' == s.(local := s.local.(phase := Idle), settled := None)
  }

  ghost predicate WorkerStep(s: Sys, s': Sys, p: Settings) {
    || SampleStep(s, s', p) || CleanStep(s, s', p) || OverlapStep(s, s', p) || BatchStep(s, s', p)
    || MatureStep(s, s', p) || SnapStep(s, s', p) || CheckStep(s, s', p) || ApplyStep(s, s', p)
    || CompleteStep(s, s', p) || PeekStep(s, s', p) || PeekApplyStep(s, s', p)
    || AbortStep(s, s', p) || PeekAbortStep(s, s', p) || MarkStep(s, s', p)
  }

  /** The steps that leave an iteration half done: it has written, and does not run to its end. */
  ghost predicate Interrupts(s: Sys, s': Sys, p: Settings) {
    AbortStep(s, s', p) && !s.local.phase.Sampled?
  }

  ghost predicate SysStep(s: Sys, s': Sys, p: Settings) {
    WorkerStep(s, s', p) || NetworkStep(s, s', p) || OtherStep(s, s', p)
  }

  function Start(env: Env, required: Option<nat>): Sys {
    Sys(env, Initial(required), Local(Idle, 0, 0, 0, map[], {}, [], map[], false), map[], 0, None)
  }

  ghost predicate IsSyncRun(run: seq<Sys>, required: Option<nat>, p: Settings) {
    && |run| > 0 && EnvOk(run[0].env, p.birthday) && run[0] == Start(run[0].env, required)
    && forall i :: 0 <= i < |run| - 1 ==> SysStep(run[i], run[i + 1], p)
  }
}
