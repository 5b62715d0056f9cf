/**
 * The per-address index `address_totals` over the receipt table: what each entry must equal, and
 * why recomputing only the touched addresses is enough.
 */
module TotalsIndex {
  import opened Common
  import opened Sums
  import opened Receipts

  /** What a webhook reports: the eligible total and, when tracked, the total at each depth. */
  datatype Reported = Reported(total: nat, byDepth: Option<seq<nat>>)

  const NOTHING: Reported := Reported(0, None)

  datatype Notice = Clean | Dirty | QueuedForWebhook

  datatype Entry = Entry(
    finalized: nat, recent: int, reported: Reported, tip: nat,
    notice: Notice, version: nat,
    acked: Option<nat>, notified: Reported)

  const NEW_ENTRY: Entry := Entry(0, 0, NOTHING, 0, Clean, 0, None, NOTHING)

  type Index = map<AddressId, Entry>

  // ------------------------------------------------------------------ selections of the ledger

  predicate Counts(row: Row, a: AddressId) {
    row.addr == a && row.active && row.eligible
  }

  function RowDepth(row: Row, tip: nat): nat {
    if row.kind.Mined? then DepthAt(tip, row.height) else 0
  }

  function StoredDepth(row: Row): nat {
    if row.kind.Mined? then row.depth else 0
  }

  function Cutoff(tip: nat, finality: nat): int {
    if tip >= finality then tip - finality + 1 else 0
  }

  predicate IsFinal(row: Row, cutoff: int) {
    row.kind.Mined? && row.height <= cutoff
  }

  function Eligible(l: Ledger, a: AddressId): map<Uid, nat> {
    map u | u in l && Counts(l[u], a) :: l[u].value
  }

  function AtDepth(l: Ledger, a: AddressId, k: nat, tip: nat): map<Uid, nat> {
    map u | u in l && Counts(l[u], a) && RowDepth(l[u], tip) >= k :: l[u].value
  }

  function AtStoredDepth(l: Ledger, a: AddressId, k: nat): map<Uid, nat> {
    map u | u in l && Counts(l[u], a) && StoredDepth(l[u]) >= k :: l[u].value
  }

  function Final(l: Ledger, a: AddressId, cutoff: int): map<Uid, nat> {
    map u | u in l && Counts(l[u], a) && IsFinal(l[u], cutoff) :: l[u].value
  }

  /** Element `i`: the sum of the counted receipts with at least `i` confirmations at `tip`. */
  ghost function ArrayAt(l: Ledger, a: AddressId, tip: nat, required: nat): (s: seq<nat>)
    ensures |s| == required + 1
  {
    seq(required + 1, i requires 0 <= i => Total(AtDepth(l, a, i, tip)))
  }

  ghost function StoredArray(l: Ledger, a: AddressId, required: nat): (s: seq<nat>)
    ensures |s| == required + 1
  {
    seq(required + 1, i requires 0 <= i => Total(AtStoredDepth(l, a, i)))
  }

  ghost function ReportedAt(l: Ledger, a: AddressId, tip: nat, required: Option<nat>): Reported {
    Reported(Total(Eligible(l, a)), if required.None? then None else Some(ArrayAt(l, a, tip, required.value)))
  }

  function Zeros(required: nat): seq<nat> {
    seq(required + 1, _ => 0)
  }

  /** An address that was never computed has no array; the status route reports zeros for it. */
  function Reading(t: Entry, required: Option<nat>): Option<seq<nat>> {
    if required.Some? && t.reported.byDepth.None? then Some(Zeros(required.value)) else t.reported.byDepth
  }

  // ------------------------------------------------------------------ recomputation

  ghost function Recomputed(
    l: Ledger, a: AddressId, t: Entry, tip: nat, finality: nat, required: Option<nat>): Entry
  {
    var now := ReportedAt(l, a, tip, required);
    var final := Total(Final(l, a, Cutoff(tip, finality)));
    var changed := now != t.reported;
    t.(finalized := final, recent := now.total - final, reported := now, tip := tip,
       notice := if changed then Dirty else t.notice,
       version := if changed then t.version + 1 else t.version)
  }

  ghost function RecomputeAll(
    l: Ledger, index: Index, touched: set<AddressId>, tip: nat, finality: nat, required: Option<nat>): Index
  {
    map a | a in index ::
      if a in touched then Recomputed(l, a, index[a], tip, finality, required) else index[a]
  }

  // ------------------------------------------------------------------ the index agrees with the ledger

  ghost predicate EntryAgrees(l: Ledger, a: AddressId, t: Entry, finality: nat, required: Option<nat>) {
    && t.reported.total == Total(Eligible(l, a))
    && t.finalized == Total(Final(l, a, Cutoff(t.tip, finality)))
    && t.recent + t.finalized == t.reported.total
    && (required.None? ==> t.reported.byDepth.None?)
    && Reading(t, required) == ReportedAt(l, a, t.tip, required).byDepth
  }

  ghost predicate IndexAgrees(l: Ledger, index: Index, finality: nat, required: Option<nat>) {
    forall a :: a in index ==> EntryAgrees(l, a, index[a], finality, required)
  }

  /** What the index can see of row `u` when it looks at address `a`. */
  function Sighting(l: Ledger, u: Uid, a: AddressId): Option<Row> {
    if u in l && l[u].addr == a then Some(l[u].(firstSeen := 0)) else None
  }

  ghost predicate Unmoved(l: Ledger, l': Ledger, a: AddressId) {
    forall u :: Sighting(l, u, a) == Sighting(l', u, a)
  }

  lemma UnmovedSelections(l: Ledger, l': Ledger, a: AddressId)
    requires Unmoved(l, l', a)
    ensures Eligible(l, a) == Eligible(l', a)
    ensures forall k: nat, tip: nat :: AtDepth(l, a, k, tip) == AtDepth(l', a, k, tip)
    ensures forall k: nat :: AtStoredDepth(l, a, k) == AtStoredDepth(l', a, k)
    ensures forall c: int :: Final(l, a, c) == Final(l', a, c)
  {
    forall u ensures (u in l && l[u].addr == a) == (u in l' && l'[u].addr == a)
             ensures u in l && l[u].addr == a ==> l[u].(firstSeen := 0) == l'[u].(firstSeen := 0)
    {
      assert Sighting(l, u, a) == Sighting(l', u, a);
    }
  }

  lemma UnmovedReports(l: Ledger, l': Ledger, a: AddressId, required: Option<nat>)
    requires Unmoved(l, l', a)
    ensures forall tip: nat :: ReportedAt(l, a, tip, required) == ReportedAt(l', a, tip, required)
    ensures required.Some? ==> StoredArray(l, a, required.value) == StoredArray(l', a, required.value)
  {
    UnmovedSelections(l, l', a);
    forall tip: nat ensures ReportedAt(l, a, tip, required) == ReportedAt(l', a, tip, required) {
      if required.Some? {
        assert ArrayAt(l, a, tip, required.value) == ArrayAt(l', a, tip, required.value);
      }
    }
  }

  /** The central step: an operation that touches every address whose rows it moves keeps the index. */
  lemma RecomputeKeepsIndex(
    l: Ledger, l': Ledger, index: Index, touched: set<AddressId>, tip: nat, finality: nat, required: Option<nat>)
    requires IndexAgrees(l, index, finality, required)
    requires forall a :: a in index && a !in touched ==> Unmoved(l, l', a)
    ensures IndexAgrees(l', RecomputeAll(l', index, touched, tip, finality, required), finality, required)
  {
    var after := RecomputeAll(l', index, touched, tip, finality, required);
    forall a | a in after ensures EntryAgrees(l', a, after[a], finality, required) {
      if a !in touched {
        assert EntryAgrees(l, a, index[a], finality, required);
        UnmovedSelections(l, l', a);
        UnmovedReports(l, l', a, required);
      }
    }
  }

  // ------------------------------------------------------------------ what the index means

  /** The finalized part lies within the total, so the recent part is never negative. */
  lemma FinalizedWithinTotal(l: Ledger, a: AddressId, t: Entry, finality: nat, required: Option<nat>)
    requires EntryAgrees(l, a, t, finality, required)
    ensures 0 <= t.finalized <= t.reported.total && 0 <= t.recent
  {
    TotalMonotone(Final(l, a, Cutoff(t.tip, finality)), Eligible(l, a));
  }

  /** The array starts at the total and never increases with depth. */
  lemma ArrayShape(l: Ledger, a: AddressId, t: Entry, finality: nat, required: Option<nat>)
    requires EntryAgrees(l, a, t, finality, required)
    requires t.reported.byDepth.Some?
    ensures required.Some? && |t.reported.byDepth.value| == required.value + 1
    ensures t.reported.byDepth.value[0] == t.reported.total
    ensures forall i, j :: 0 <= i <= j <= required.value
              ==> t.reported.byDepth.value[j] <= t.reported.byDepth.value[i]
  {
    var s := ArrayAt(l, a, t.tip, required.value);
    assert AtDepth(l, a, 0, t.tip) == Eligible(l, a);
    forall i, j | 0 <= i <= j <= required.value ensures s[j] <= s[i] {
      TotalMonotone(AtDepth(l, a, j, t.tip), AtDepth(l, a, i, t.tip));
    }
  }

  /** Receipts in the genesis block that the cutoff takes for final although they are not that deep. */
  function Premature(l: Ledger, a: AddressId): map<Uid, nat> {
    map u | u in l && Counts(l[u], a) && l[u].kind.Mined? && l[u].height == 0 :: l[u].value
  }

  /**
   * With a finality of at least one, the finalized total is exactly the sum at depth `finality`,
   * except while the chain is too short: the cutoff is then height 0, which takes a height-0
   * receipt for final.
   */
  lemma FinalizedIsDeep(l: Ledger, a: AddressId, tip: nat, finality: nat)
    requires finality >= 1
    ensures Total(Final(l, a, Cutoff(tip, finality))) == Total(AtDepth(l, a, finality, tip))
       <==> (tip + 1 >= finality || Total(Premature(l, a)) == 0)
  {
    var deep, final, early := AtDepth(l, a, finality, tip), Final(l, a, Cutoff(tip, finality)), Premature(l, a);
    if tip + 1 >= finality {
      assert forall u :: u in l && l[u].kind.Mined? ==>
        (l[u].height <= Cutoff(tip, finality) <==> DepthAt(tip, l[u].height) >= finality);
      assert deep == final;
    } else {
      assert deep == map[];
      assert final == early;
    }
  }

  // ------------------------------------------------------------------ arrays at two tips

  /** No counted receipt reaches a different slot at the one tip than at the other. */
  ghost predicate SameDepths(l: Ledger, a: AddressId, t: nat, tip: nat, n: nat) {
    forall u :: u in l && Counts(l[u], a) && l[u].value > 0 ==> Min(RowDepth(l[u], t), n) == Min(RowDepth(l[u], tip), n)
  }

  lemma {:induction false} ZerosAddNothing(small: map<Uid, nat>, big: map<Uid, nat>)
    requires forall u :: u in small ==> u in big && big[u] == small[u]
    requires forall u :: u in big && u !in small ==> big[u] == 0
    ensures Total(big) == Total(small)
    decreases |small|
  {
    if small == map[] {
      NothingButZeros(big);
    } else {
      var u: Uid :| u in small;
      TotalRemove(small, u);
      TotalRemove(big, u);
      Smaller(small, u);
      ZerosAddNothing(small - {u}, big - {u});
    }
  }

  lemma {:induction false} NothingButZeros(w: map<Uid, nat>)
    requires forall u :: u in w ==> w[u] == 0
    ensures Total(w) == 0
    decreases |w|
  {
    if w != map[] {
      assert w.Keys != {};
      var u: Uid :| u in w;
      TotalRemove(w, u);
      Smaller(w, u);
      NothingButZeros(w - {u});
    }
  }

  lemma SlotsCoincide(l: Ledger, a: AddressId, low: nat, high: nat, n: nat, k: nat)
    requires low <= high && k <= n && SameDepths(l, a, low, high, n)
    ensures Total(AtDepth(l, a, k, low)) == Total(AtDepth(l, a, k, high))
  {
    ZerosAddNothing(AtDepth(l, a, k, low), AtDepth(l, a, k, high));
  }

  lemma SlotsDiffer(l: Ledger, a: AddressId, low: nat, high: nat, n: nat, u: Uid)
    requires low <= high && u in l && Counts(l[u], a) && l[u].value > 0
    requires Min(RowDepth(l[u], low), n) != Min(RowDepth(l[u], high), n)
    ensures ArrayAt(l, a, low, n) != ArrayAt(l, a, high, n)
  {
    var k: nat := Min(RowDepth(l[u], high), n);
    var few, many := AtDepth(l, a, k, low), AtDepth(l, a, k, high);
    assert u in many && u !in few;
    TotalRemove(many, u);
    TotalMonotone(few, many - {u});
    assert ArrayAt(l, a, low, n)[k] < ArrayAt(l, a, high, n)[k];
  }

  lemma RisingTips(l: Ledger, a: AddressId, low: nat, high: nat, n: nat)
    requires low <= high
    ensures ArrayAt(l, a, low, n) == ArrayAt(l, a, high, n) <==> SameDepths(l, a, low, high, n)
  {
    if SameDepths(l, a, low, high, n) {
      forall k: nat | k <= n ensures ArrayAt(l, a, low, n)[k] == ArrayAt(l, a, high, n)[k] {
        SlotsCoincide(l, a, low, high, n, k);
      }
    } else {
      var u :| u in l && Counts(l[u], a) && l[u].value > 0 && Min(RowDepth(l[u], low), n) != Min(RowDepth(l[u], high), n);
      SlotsDiffer(l, a, low, high, n, u);
    }
  }

  /** The arrays at two tips are equal exactly if no receipt with a value reaches another slot. */
  lemma ArraysCoincide(l: Ledger, a: AddressId, t: nat, tip: nat, n: nat)
    ensures ArrayAt(l, a, t, n) == ArrayAt(l, a, tip, n) <==> SameDepths(l, a, t, tip, n)
  {
    if t <= tip {
      RisingTips(l, a, t, tip, n);
    } else {
      RisingTips(l, a, tip, t, n);
      assert SameDepths(l, a, t, tip, n) <==> SameDepths(l, a, tip, t, n);
    }
  }

  // ------------------------------------------------------------------ every operation touches what it moves

  /** A receipt uid always belongs to the same address: receiver fingerprints are unique per pool. */
  ghost predicate Attributes(l: Ledger, scan: Scan) {
    forall u :: u in scan && u in l ==> l[u].addr == scan[u].addr
  }

  ghost predicate AttributesAll(l: Ledger, rs: seq<Attributed>) {
    forall r :: r in rs ==>
      (r.uid in l ==> l[r.uid].addr == r.addr) && (forall q :: q in rs && q.uid == r.uid ==> q.addr == r.addr)
  }

  lemma {:induction false} UpsertAllRows(l: Ledger, rs: seq<Attributed>)
    ensures UpsertAll(l, rs).Keys == l.Keys + (set r | r in rs :: r.uid)
    ensures forall u :: u in l && u !in (set r | r in rs :: r.uid) ==> UpsertAll(l, rs)[u] == l[u]
    ensures forall u :: u in (set r | r in rs :: r.uid) ==>
      exists r :: r in rs && r.uid == u && UpsertAll(l, rs)[u].addr == r.addr
  {
    if rs != [] {
      var init, r := rs[..|rs| - 1], rs[|rs| - 1];
      UpsertAllRows(l, init);
      assert rs == init + [r];
      assert (set q | q in rs :: q.uid) == (set q | q in init :: q.uid) + {r.uid};
      forall u | u in (set q | q in rs :: q.uid)
        ensures exists q :: q in rs && q.uid == u && UpsertAll(l, rs)[u].addr == q.addr
      {
        if u == r.uid {
          assert r in rs;
        } else {
          var q :| q in init && q.uid == u && UpsertAll(l, init)[u].addr == q.addr;
          assert q in rs;
        }
      }
    }
  }

  lemma ApplyTouches(l: Ledger, rs: seq<Attributed>, a: AddressId)
    requires AttributesAll(l, rs)
    requires a !in AddressesOf(rs)
    ensures Unmoved(l, UpsertAll(l, rs), a)
  {
    UpsertAllRows(l, rs);
    var l' := UpsertAll(l, rs);
    forall u ensures Sighting(l, u, a) == Sighting(l', u, a) {
      if u in (set r | r in rs :: r.uid) {
        var r :| r in rs && r.uid == u && l'[u].addr == r.addr;
        assert r.addr in AddressesOf(rs);
      }
    }
  }

  /** A scanned receipt takes a row of another address only where reconciliation reads it. */
  ghost predicate AttributesOutside(l: Ledger, scan: Scan, lo: int, hi: int) {
    forall u :: u in scan && u in l && !InWindow(l, u, lo, hi) ==> l[u].addr == scan[u].addr
  }

  /** Reconciliation overlooks an address exactly when a row it did not read leaves the address. */
  lemma ReconcileMisses(l: Ledger, scan: Scan, lo: int, hi: int, a: AddressId)
    requires a !in ReconcileTouched(l, scan, lo, hi)
    ensures Unmoved(l, Reconciled(l, scan, lo, hi), a)
       <==> forall u :: u in scan && u in l && !InWindow(l, u, lo, hi) && l[u].addr == a ==> scan[u].addr == a
  {
    var l' := Reconciled(l, scan, lo, hi);
    forall u ensures Sighting(l, u, a) == Sighting(l', u, a)
                <==> (u in scan && u in l && !InWindow(l, u, lo, hi) && l[u].addr == a ==> scan[u].addr == a)
    {
      if u in scan && scan[u].addr == a {
        assert InWindow(l, u, lo, hi) && !Differs(l[u], scan[u]);
      } else if u in l && l[u].addr == a {
        assert !Vanished(l, scan, lo, hi, u);
        assert u in scan ==> Differs(l[u], scan[u]);
      }
    }
  }

  lemma ReconcileTouches(l: Ledger, scan: Scan, lo: int, hi: int, a: AddressId)
    requires AttributesOutside(l, scan, lo, hi)
    requires a !in ReconcileTouched(l, scan, lo, hi)
    ensures Unmoved(l, Reconciled(l, scan, lo, hi), a)
  {
    ReconcileMisses(l, scan, lo, hi, a);
  }

  lemma RevokeTouches(l: Ledger, tip: int, a: AddressId)
    requires a !in RevokeTouched(l, tip)
    ensures Unmoved(l, RevokedAbove(l, tip), a)
  {
    forall u ensures Sighting(l, u, a) == Sighting(RevokedAbove(l, tip), u, a) { }
  }

  lemma MatureTouches(l: Ledger, tip: nat, report: nat, a: AddressId)
    requires a !in MatureTouched(l, tip, report)
    ensures Unmoved(l, Matured(l, tip, report), a)
  {
    forall u ensures Sighting(l, u, a) == Sighting(Matured(l, tip, report), u, a) { }
  }

  /** Scanned mempool receipts carry no height and no depth. */
  predicate IsProvisional(r: Attributed) {
    r.kind.Mempool? && r.height == 0 && r.depth == 0
  }

  lemma SnapshotTouches(
    l: Ledger, txids: set<string>, rs: seq<Attributed>, now: Time, report: nat, revokeMissing: bool, a: AddressId)
    requires Attributes(l, ScanMap(rs))
    requires forall r :: r in rs ==> IsProvisional(r)
    requires a !in SnapshotTouched(l, txids, rs, now, report, revokeMissing)
    ensures Unmoved(l, Snapshotted(l, txids, ScanMap(rs), now, report, revokeMissing), a)
  {
    hide SnapshotTouched, Snapshotted, Sighting, ScanMap, IsProvisional;
    var l' := Snapshotted(l, txids, ScanMap(rs), now, report, revokeMissing);
    forall u ensures Sighting(l, u, a) == Sighting(l', u, a) {
      SnapshotSighting(l, txids, rs, now, report, revokeMissing, a, u);
    }
  }

  lemma SnapshotSighting(
    l: Ledger, txids: set<string>, rs: seq<Attributed>, now: Time, report: nat, revokeMissing: bool, a: AddressId, u: Uid)
    requires Attributes(l, ScanMap(rs))
    requires forall r :: r in rs ==> IsProvisional(r)
    requires a !in SnapshotTouched(l, txids, rs, now, report, revokeMissing)
    ensures Sighting(l, u, a) == Sighting(Snapshotted(l, txids, ScanMap(rs), now, report, revokeMissing), u, a)
  {
    var scan := ScanMap(rs);
    if u in scan && scan[u].addr == a {
      assert scan[u] in rs;
      assert HasProvisional(l, u) && !SnapshotDiffers(l[u], scan[u], now, report);
    } else if u in l && l[u].addr == a {
      assert !LeftMempool(l[u], u, txids, revokeMissing);
    }
  }

  // ------------------------------------------------------------------ and no more than needed

  /** Cleanup and maturity pass touch an address exactly if a row of it moves. */
  lemma OnlyMovedAreTouched(l: Ledger, tip: nat, report: nat, a: AddressId)
    ensures a in RevokeTouched(l, tip) <==> !Unmoved(l, RevokedAbove(l, tip), a)
    ensures a in MatureTouched(l, tip, report) <==> !Unmoved(l, Matured(l, tip, report), a)
  {
    if a in RevokeTouched(l, tip) {
      var u :| u in l && AboveTip(l[u], tip) && l[u].addr == a;
      assert Sighting(l, u, a) != Sighting(RevokedAbove(l, tip), u, a);
    } else {
      RevokeTouches(l, tip, a);
    }
    if a in MatureTouched(l, tip, report) {
      var u :| u in l && Outdated(l[u], tip, report) && l[u].addr == a;
      assert Sighting(l, u, a) != Sighting(Matured(l, tip, report), u, a);
    } else {
      MatureTouches(l, tip, report, a);
    }
  }

  /** Range reconciliation touches an address only if a row of it moves. */
  lemma ReconcileTouchesMoved(l: Ledger, scan: Scan, lo: int, hi: int, a: AddressId)
    requires forall u :: u in scan ==> scan[u].kind.Mined? && lo <= scan[u].height <= hi
    requires a in ReconcileTouched(l, scan, lo, hi)
    ensures !Unmoved(l, Reconciled(l, scan, lo, hi), a)
  {
    var l' := Reconciled(l, scan, lo, hi);
    if u :| u in l && Vanished(l, scan, lo, hi, u) && l[u].addr == a {
      assert Sighting(l, u, a) != Sighting(l', u, a);
    } else if u :| u in scan && (!InWindow(l, u, lo, hi) || Differs(l[u], scan[u])) && scan[u].addr == a {
      assert Sighting(l, u, a) != Sighting(l', u, a);
    } else {
      var u :| u in scan && InWindow(l, u, lo, hi) && Differs(l[u], scan[u]) && l[u].addr == a;
      assert Sighting(l, u, a) != Sighting(l', u, a);
    }
  }

  /** So does the snapshot, if what was read is in the mempool and nothing was read twice. */
  lemma SnapshotTouchesMoved(
    l: Ledger, txids: set<string>, rs: seq<Attributed>, now: Time, report: nat, revokeMissing: bool, a: AddressId)
    requires forall r :: r in rs ==> IsProvisional(r) && r.uid.txid in txids
    requires forall r, q :: r in rs && q in rs && r.uid == q.uid ==> r == q
    requires a in SnapshotTouched(l, txids, rs, now, report, revokeMissing)
    requires Attributes(l, ScanMap(rs))
    ensures !Unmoved(l, Snapshotted(l, txids, ScanMap(rs), now, report, revokeMissing), a)
  {
    hide ScanMap;
    var l' := Snapshotted(l, txids, ScanMap(rs), now, report, revokeMissing);
    if r :| r in rs && (HasProvisional(l, r.uid) ==> SnapshotDiffers(l[r.uid], r, now, report)) && r.addr == a {
      assert ScanMap(rs)[r.uid] == r;
      assert Sighting(l, r.uid, a) != Sighting(l', r.uid, a);
    } else if u :| u in l && LeftMempool(l[u], u, txids, revokeMissing) && l[u].addr == a {
      LeavingIsSeen(l, txids, rs, now, report, revokeMissing, a, u);
    } else {
      var u :| u in l && u !in ScanMap(rs) && !LeftMempool(l[u], u, txids, revokeMissing)
               && Refreshed(l[u], now, report) != l[u] && l[u].addr == a;
      assert Sighting(l, u, a) != Sighting(l', u, a);
    }
  }

  lemma LeavingIsSeen(
    l: Ledger, txids: set<string>, rs: seq<Attributed>, now: Time, report: nat, revokeMissing: bool, a: AddressId, u: Uid)
    requires u in l && LeftMempool(l[u], u, txids, revokeMissing) && l[u].addr == a && u !in ScanMap(rs)
    ensures Sighting(l, u, a) != Sighting(Snapshotted(l, txids, ScanMap(rs), now, report, revokeMissing), u, a)
  {
    hide ScanMap;
  }
}
