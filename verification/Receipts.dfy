/** Small shared datatypes. */
module Common {
  datatype Option<+T> = None | Some(value: T)

  datatype Result<+T, +E> = Ok(value: T) | Err(error: E)

  type AddressId = int

  /** Seconds; the service stores RFC 3339 text and compares it as text. */
  type Time = int

  const U32_MAX: nat := 0xFFFF_FFFF

  lemma Member<T>(s: set<T>) returns (x: T)
    requires s != {}
    ensures x in s
  {
    x :| x in s;
  }

  function Min(a: int, b: int): int { if a <= b then a else b }

  function Max(a: int, b: int): int { if a >= b then a else b }
}

/** Sums of the values of a finite map: what SQL's `SUM` computes over the selected rows. */
module Sums {
  ghost function Pick<K>(w: map<K, nat>): (k: K)
    requires w != map[]
    ensures k in w
  {
    assert w.Keys != {};
    var k :| k in w; k
  }

  ghost function Total<K>(w: map<K, nat>): nat
    decreases |w|
  {
    if w == map[] then 0
    else
      var k := Pick(w);
      Smaller(w, k);
      w[k] + Total(w - {k})
  }

  lemma Smaller<K>(w: map<K, nat>, k: K)
    requires k in w
    ensures |w - {k}| < |w|
  {
    assert (w - {k}).Keys == w.Keys - {k};
  }

  /** The sum does not depend on the order in which the keys are visited. */
  lemma {:induction false} TotalRemove<K>(w: map<K, nat>, k: K)
    requires k in w
    ensures Total(w) == w[k] + Total(w - {k})
    decreases |w|
  {
    var p := Pick(w);
    Smaller(w, p);
    if p != k {
      TotalRemove(w - {p}, k);
      Smaller(w, k);
      TotalRemove(w - {k}, p);
      assert w - {p} - {k} == w - {k} - {p};
    }
  }

  lemma {:induction false} TotalMonotone<K>(small: map<K, nat>, big: map<K, nat>)
    requires forall k :: k in small ==> k in big && small[k] == big[k]
    ensures Total(small) <= Total(big)
    decreases |small|
  {
    if small != map[] {
      var p := Pick(small);
      Smaller(small, p);
      TotalRemove(small, p);
      TotalRemove(big, p);
      TotalMonotone(small - {p}, big - {p});
    }
  }

  /** Two disjoint selections add up to their union. */
  lemma {:induction false} TotalSplit<K>(whole: map<K, nat>, left: map<K, nat>, right: map<K, nat>)
    requires left.Keys !! right.Keys && whole == left + right
    ensures Total(whole) == Total(left) + Total(right)
    decreases |left|
  {
    if left == map[] {
      assert whole == right;
    } else {
      var p := Pick(left);
      Smaller(left, p);
      assert p in whole && whole[p] == left[p];
      TotalRemove(whole, p);
      TotalRemove(left, p);
      DropLeft(whole, left, right, p);
      TotalSplit(whole - {p}, left - {p}, right);
    }
  }

  lemma DropLeft<K>(whole: map<K, nat>, left: map<K, nat>, right: map<K, nat>, k: K)
    requires left.Keys !! right.Keys && whole == left + right && k in left
    ensures whole - {k} == (left - {k}) + right
  {
    var a, b := whole - {k}, (left - {k}) + right;
    assert a.Keys == b.Keys;
    forall u | u in a ensures a[u] == b[u] { }
  }

  lemma TotalZero<K>(w: map<K, nat>)
    requires Total(w) == 0
    ensures forall k :: k in w ==> w[k] == 0
  {
    forall k | k in w ensures w[k] == 0 { TotalRemove(w, k); }
  }
}

/**
 * The receipt table `address_receipts_recent` and what each bulk operation does to it, stated
 * row by row and independently of the order in which the operation visits the rows.
 */
module Receipts {
  import opened Common

  /** A receipt uid is the text "txid:pool:output". */
  datatype Uid = Uid(txid: string, pool: string, output: nat)

  datatype Kind = Mined | Mempool

  datatype Row = Row(
    addr: AddressId, value: nat, height: nat, depth: nat, eligible: bool,
    kind: Kind, firstSeen: Time, active: bool)

  type Ledger = map<Uid, Row>

  /** A scanned receipt whose receiver belongs to an issued address. */
  datatype Attributed = Attributed(
    uid: Uid, addr: AddressId, value: nat, height: nat, depth: nat, eligible: bool,
    kind: Kind, firstSeen: Time)

  const FRESH_SECONDS: int := 24 * 60 * 60

  function DepthAt(tip: nat, height: nat): nat {
    if tip >= height then tip - height + 1 else 0
  }

  /** The upsert every scan uses: a mempool receipt that is mined keeps its first observation. */
  function Upserted(prior: Option<Row>, r: Attributed): Row {
    Row(r.addr, r.value, r.height, r.depth, r.eligible, r.kind,
        if prior.Some? && prior.value.kind.Mempool? && r.kind.Mined?
        then prior.value.firstSeen else r.firstSeen,
        true)
  }

  function Find(l: Ledger, u: Uid): Option<Row> {
    if u in l then Some(l[u]) else None
  }

  // ------------------------------------------------------------------ apply

  function UpsertAll(l: Ledger, rs: seq<Attributed>): Ledger {
    if rs == [] then l
    else
      var before := UpsertAll(l, rs[..|rs| - 1]);
      var r := rs[|rs| - 1];
      before[r.uid := Upserted(Find(before, r.uid), r)]
  }

  function AddressesOf(rs: seq<Attributed>): set<AddressId> {
    set r | r in rs :: r.addr
  }

  // ------------------------------------------------------------------ range reconciliation

  type Scan = map<Uid, Attributed>

  /** `scanned_by_uid`: the last receipt of a uid wins. */
  function ScanMap(rs: seq<Attributed>): (m: Scan)
    ensures forall u :: u in m <==> exists r :: r in rs && r.uid == u
    ensures forall u :: u in m ==> m[u] in rs && m[u].uid == u
  {
    if rs == [] then map[]
    else
      var r := rs[|rs| - 1];
      assert rs == rs[..|rs| - 1] + [r];
      ScanMap(rs[..|rs| - 1])[r.uid := r]
  }

  /** Whenever a receipt was scanned twice, its last occurrence counts, for the map as for the upserts. */
  lemma {:induction false} LastWins(l: Ledger, rs: seq<Attributed>, i: nat)
    requires i < |rs| && forall j :: i < j < |rs| ==> rs[j].uid != rs[i].uid
    ensures rs[i].uid in ScanMap(rs) && ScanMap(rs)[rs[i].uid] == rs[i]
    ensures rs[i].uid in UpsertAll(l, rs)
    ensures var row := UpsertAll(l, rs)[rs[i].uid];
      row == Row(rs[i].addr, rs[i].value, rs[i].height, rs[i].depth, rs[i].eligible, rs[i].kind, row.firstSeen, true)
  {
    if i < |rs| - 1 {
      LastWins(l, rs[..|rs| - 1], i);
    }
  }

  predicate InRange(row: Row, lo: int, hi: int) {
    lo <= row.height <= hi
  }

  /** The rows the reconciliation reads: the window, and mempool rows of a transaction in it. */
  predicate InWindow(l: Ledger, u: Uid, lo: int, hi: int) {
    && u in l
    && (InRange(l[u], lo, hi) ||
        (l[u].kind.Mempool? && exists v :: v in l && v.txid == u.txid && InRange(l[v], lo, hi)))
  }

  /** A mined row of the window that the new scan did not find. */
  predicate Vanished(l: Ledger, scan: Scan, lo: int, hi: int, u: Uid) {
    u in l && u !in scan && l[u].kind.Mined? && l[u].active && InRange(l[u], lo, hi)
  }

  predicate Differs(row: Row, r: Attributed) {
    || !row.active || row.addr != r.addr || row.height != r.height || row.value != r.value
    || row.depth != r.depth || row.eligible != r.eligible || row.kind != r.kind
  }

  function Reconciled(l: Ledger, scan: Scan, lo: int, hi: int): Ledger {
    map u | u in l.Keys + scan.Keys ::
      if u in scan then Upserted(Find(l, u), scan[u])
      else if Vanished(l, scan, lo, hi, u) then l[u].(active := false)
      else l[u]
  }

  function ReconcileTouched(l: Ledger, scan: Scan, lo: int, hi: int): set<AddressId> {
    (set u | u in l && Vanished(l, scan, lo, hi, u) :: l[u].addr)
    + (set u | u in scan && (!InWindow(l, u, lo, hi) || Differs(l[u], scan[u])) :: scan[u].addr)
    + (set u | u in scan && InWindow(l, u, lo, hi) && Differs(l[u], scan[u]) :: l[u].addr)
  }

  // ------------------------------------------------------------------ revoke above the tip

  predicate AboveTip(row: Row, tip: int) {
    row.kind.Mined? && row.active && row.height > tip
  }

  function RevokedAbove(l: Ledger, tip: int): Ledger {
    map u | u in l :: if AboveTip(l[u], tip) then l[u].(active := false) else l[u]
  }

  function RevokeTouched(l: Ledger, tip: int): set<AddressId> {
    set u | u in l && AboveTip(l[u], tip) :: l[u].addr
  }

  // ------------------------------------------------------------------ maturity

  predicate DepthCurrent(row: Row, tip: nat, report: nat) {
    row.depth == DepthAt(tip, row.height) && row.eligible == (DepthAt(tip, row.height) >= report)
  }

  predicate Outdated(row: Row, tip: nat, report: nat) {
    row.kind.Mined? && row.active && !DepthCurrent(row, tip, report)
  }

  function Matured(l: Ledger, tip: nat, report: nat): Ledger {
    map u | u in l ::
      if Outdated(l[u], tip, report)
      then l[u].(depth := DepthAt(tip, l[u].height), eligible := DepthAt(tip, l[u].height) >= report)
      else l[u]
  }

  function MatureTouched(l: Ledger, tip: nat, report: nat): set<AddressId> {
    set u | u in l && Outdated(l[u], tip, report) :: l[u].addr
  }

  // ------------------------------------------------------------------ mempool snapshot

  /** Provisional receipts count only in mempool mode and only for 24 hours. */
  predicate Fresh(firstSeen: Time, now: Time, report: nat) {
    report == 0 && firstSeen > now - FRESH_SECONDS
  }

  predicate LeftMempool(row: Row, u: Uid, txids: set<string>, revokeMissing: bool) {
    revokeMissing && row.kind.Mempool? && row.active && u.txid !in txids
  }

  function FirstSeen(prior: Option<Row>, r: Attributed): Time {
    if prior.Some? && prior.value.kind.Mempool? then prior.value.firstSeen else r.firstSeen
  }

  function Provisional(prior: Option<Row>, r: Attributed, now: Time, report: nat): Row {
    var first := FirstSeen(prior, r);
    Row(r.addr, r.value, 0, 0, Fresh(first, now, report), Mempool, first, true)
  }

  function Refreshed(row: Row, now: Time, report: nat): Row {
    if row.kind.Mempool? && row.active && row.eligible != Fresh(row.firstSeen, now, report)
    then row.(depth := 0, eligible := Fresh(row.firstSeen, now, report)) else row
  }

  function SnapshotRow(
    l: Ledger, u: Uid, txids: set<string>, scan: Scan, now: Time, report: nat, revokeMissing: bool): Row
    requires u in l || u in scan
  {
    if u in scan then Provisional(Find(l, u), scan[u], now, report)
    else if LeftMempool(l[u], u, txids, revokeMissing) then l[u].(active := false)
    else Refreshed(l[u], now, report)
  }

  function Snapshotted(
    l: Ledger, txids: set<string>, scan: Scan, now: Time, report: nat, revokeMissing: bool): Ledger
  {
    map u | u in l.Keys + scan.Keys :: SnapshotRow(l, u, txids, scan, now, report, revokeMissing)
  }

  /** Whether the snapshot upsert changes the mempool row it finds; `prior` is read before any write. */
  predicate SnapshotDiffers(prior: Row, r: Attributed, now: Time, report: nat) {
    || !prior.active || prior.addr != r.addr || prior.height != r.height || prior.value != r.value
    || prior.depth != r.depth || prior.eligible != Fresh(prior.firstSeen, now, report)
  }

  predicate HasProvisional(l: Ledger, u: Uid) {
    u in l && l[u].kind.Mempool?
  }

  function SnapshotTouched(
    l: Ledger, txids: set<string>, rs: seq<Attributed>, now: Time, report: nat, revokeMissing: bool)
    : set<AddressId>
  {
    (set u | u in l && LeftMempool(l[u], u, txids, revokeMissing) :: l[u].addr)
    + (set r | r in rs && (HasProvisional(l, r.uid) ==> SnapshotDiffers(l[r.uid], r, now, report)) :: r.addr)
    + (set u | u in l && u !in ScanMap(rs) && !LeftMempool(l[u], u, txids, revokeMissing)
               && Refreshed(l[u], now, report) != l[u] :: l[u].addr)
  }

  // ------------------------------------------------------------------ the observation clock

  /** Being seen again or being mined does not restart the clock of a mempool receipt. */
  lemma FirstSeenSurvives(
    l: Ledger, u: Uid, mined: Scan, lo: int, hi: int, txids: set<string>, seen: Scan, now: Time, report: nat, revokeMissing: bool)
    requires u in l && l[u].kind.Mempool? && forall v :: v in mined ==> mined[v].kind.Mined?
    ensures Reconciled(l, mined, lo, hi)[u].firstSeen == l[u].firstSeen
    ensures Snapshotted(l, txids, seen, now, report, revokeMissing)[u].firstSeen == l[u].firstSeen
  {
  }

  /** The row a scan leaves: the scanned receipt, with the clock of the mempool row it replaces. */
  lemma ReconciledRowExactly(l: Ledger, u: Uid, scan: Scan, lo: int, hi: int)
    requires u in l || u in scan
    ensures u in scan ==>
      var q := scan[u];
      var seen := if u in l && l[u].kind.Mempool? && q.kind.Mined? then l[u].firstSeen else q.firstSeen;
      Reconciled(l, scan, lo, hi)[u] == Row(q.addr, q.value, q.height, q.depth, q.eligible, q.kind, seen, true)
    ensures u !in scan ==>
      Reconciled(l, scan, lo, hi)[u]
        == l[u].(active := l[u].active && (l[u].kind.Mempool? || l[u].height < lo || l[u].height > hi))
  {
  }

  /**
   * The row a snapshot leaves: a receipt that was read is provisional, counts while it is fresh and
   * keeps its clock; one that was not read loses its activity or its freshness, and a mined or
   * revoked one is left alone.
   */
  lemma SnapshotRowExactly(
    l: Ledger, u: Uid, txids: set<string>, scan: Scan, now: Time, report: nat, revokeMissing: bool)
    requires u in l || u in scan
    ensures var l' := Snapshotted(l, txids, scan, now, report, revokeMissing);
      var seen := if u in l && l[u].kind.Mempool? then l[u].firstSeen else if u in scan then scan[u].firstSeen else 0;
      && u in l'
      && (u in scan ==>
           l'[u] == Row(scan[u].addr, scan[u].value, 0, 0, report == 0 && now - seen < 86_400, Mempool, seen, true))
      && (u !in scan && (l[u].kind.Mined? || !l[u].active) ==> l'[u] == l[u])
      && (u !in scan && l[u].kind.Mempool? && l[u].active ==>
           if revokeMissing && u.txid !in txids then l'[u] == l[u].(active := false)
           else l'[u] == l[u].(depth := l'[u].depth, eligible := report == 0 && now - seen < 86_400))
  {
  }

  /** After a snapshot a mempool receipt counts exactly in mempool mode and within 24 hours of its first observation. */
  lemma CountsWhileFresh(
    l: Ledger, u: Uid, txids: set<string>, seen: Scan, now: Time, report: nat, revokeMissing: bool)
    requires u in l && l[u].kind.Mempool?
    ensures var row := Snapshotted(l, txids, seen, now, report, revokeMissing)[u];
      row.kind.Mempool? && (row.active ==> (row.eligible <==> report == 0 && now - l[u].firstSeen < 86_400))
  {
  }
}
