/**
 * The application database as an object. Every method is one immediate transaction; its contract
 * gives the whole new state by the order-independent functions of the other modules.
 */
module AppDatabase {
  import opened Common
  import opened Sums
  import opened Receipts
  import opened TotalsIndex
  import opened Outbox
  import opened Database
  import opened Schedule
  import Backoff

  datatype DbError = UnknownAddress | UnknownDelivery

  /** Growing a selection by one row adds its value. */
  lemma TotalGrows(sel: map<Uid, nat>, done: set<Uid>, u: Uid)
    requires u in sel && u !in done
    ensures Total(Restrict(sel, done + {u})) == Total(Restrict(sel, done)) + sel[u]
  {
    TotalRemove(Restrict(sel, done + {u}), u);
    assert Restrict(sel, done + {u}) - {u} == Restrict(sel, done);
  }

  function Restrict(sel: map<Uid, nat>, done: set<Uid>): map<Uid, nat> {
    map u | u in sel && u in done :: sel[u]
  }

  // ------------------------------------------------------------------ partly done operations

  /** A reconciliation after revoking what vanished and upserting the scanned rows in `done`. */
  function Reconciling(l: Ledger, scan: Scan, lo: int, hi: int, done: set<Uid>): Ledger
    requires done <= scan.Keys
  {
    map u | u in l.Keys + done ::
      if u in done then Upserted(Find(l, u), scan[u])
      else if Vanished(l, scan, lo, hi, u) then l[u].(active := false)
      else l[u]
  }

  function VanishedAddresses(l: Ledger, scan: Scan, lo: int, hi: int): set<AddressId> {
    set u | u in l && Vanished(l, scan, lo, hi, u) :: l[u].addr
  }

  function InsertedAddresses(l: Ledger, scan: Scan, lo: int, hi: int, done: set<Uid>): set<AddressId>
    requires done <= scan.Keys
  {
    set u | u in done && (!InWindow(l, u, lo, hi) || Differs(l[u], scan[u])) :: scan[u].addr
  }

  function ReplacedAddresses(l: Ledger, scan: Scan, lo: int, hi: int, done: set<Uid>): set<AddressId>
    requires done <= scan.Keys
  {
    set u | u in done && InWindow(l, u, lo, hi) && Differs(l[u], scan[u]) :: l[u].addr
  }

  lemma ReconcileOneMore(l: Ledger, scan: Scan, lo: int, hi: int, done: set<Uid>, u: Uid)
    requires done <= scan.Keys && u in scan && u !in done
    ensures var part := Reconciling(l, scan, lo, hi, done);
      && part[u := Upserted(Find(part, u), scan[u])] == Reconciling(l, scan, lo, hi, done + {u})
    ensures InsertedAddresses(l, scan, lo, hi, done + {u})
      == InsertedAddresses(l, scan, lo, hi, done)
         + (if !InWindow(l, u, lo, hi) || Differs(l[u], scan[u]) then {scan[u].addr} else {})
    ensures ReplacedAddresses(l, scan, lo, hi, done + {u})
      == ReplacedAddresses(l, scan, lo, hi, done)
         + (if InWindow(l, u, lo, hi) && Differs(l[u], scan[u]) then {l[u].addr} else {})
  {
  }

  lemma NothingInserted(l: Ledger, scan: Scan, lo: int, hi: int)
    ensures InsertedAddresses(l, scan, lo, hi, {}) == {} && ReplacedAddresses(l, scan, lo, hi, {}) == {}
  {
  }

  lemma ReconcileDone(l: Ledger, scan: Scan, lo: int, hi: int)
    ensures Reconciling(l, scan, lo, hi, scan.Keys) == Reconciled(l, scan, lo, hi)
    ensures VanishedAddresses(l, scan, lo, hi) + InsertedAddresses(l, scan, lo, hi, scan.Keys)
          + ReplacedAddresses(l, scan, lo, hi, scan.Keys) == ReconcileTouched(l, scan, lo, hi)
  {
  }

  function Departed(l: Ledger, txids: set<string>, revokeMissing: bool): Ledger {
    map u | u in l :: if LeftMempool(l[u], u, txids, revokeMissing) then l[u].(active := false) else l[u]
  }

  function DepartedAddresses(l: Ledger, txids: set<string>, revokeMissing: bool): set<AddressId> {
    set u | u in l && LeftMempool(l[u], u, txids, revokeMissing) :: l[u].addr
  }

  /** A snapshot before the last refresh, with the receipts `rs` upserted. */
  function Snapshotting(
    l: Ledger, txids: set<string>, rs: seq<Attributed>, now: Time, report: nat, revokeMissing: bool): Ledger
  {
    map u | u in l.Keys + ScanMap(rs).Keys ::
      if u in ScanMap(rs) then Provisional(Find(l, u), ScanMap(rs)[u], now, report)
      else Departed(l, txids, revokeMissing)[u]
  }

  function SnapshotAddresses(l: Ledger, rs: seq<Attributed>, now: Time, report: nat): set<AddressId> {
    set r | r in rs && (HasProvisional(l, r.uid) ==> SnapshotDiffers(l[r.uid], r, now, report)) :: r.addr
  }

  /** The upserts of `rs`, in order, over the rows `base`; priors are read from `l`. */
  function ProvisionalAll(l: Ledger, base: Ledger, rs: seq<Attributed>, now: Time, report: nat): Ledger {
    if rs == [] then base
    else
      var q := rs[|rs| - 1];
      ProvisionalAll(l, base, rs[..|rs| - 1], now, report)[q.uid := Provisional(Find(l, q.uid), q, now, report)]
  }

  function ProvisionalAddresses(l: Ledger, rs: seq<Attributed>, now: Time, report: nat): set<AddressId> {
    if rs == [] then {}
    else
      var q := rs[|rs| - 1];
      ProvisionalAddresses(l, rs[..|rs| - 1], now, report)
      + (if HasProvisional(l, q.uid) ==> SnapshotDiffers(l[q.uid], q, now, report) then {q.addr} else {})
  }

  /** However often a uid occurs, its last receipt decides the row. */
  lemma {:induction false} ProvisionalAllRows(
    l: Ledger, txids: set<string>, rs: seq<Attributed>, now: Time, report: nat, revokeMissing: bool)
    ensures ProvisionalAll(l, Departed(l, txids, revokeMissing), rs, now, report)
         == Snapshotting(l, txids, rs, now, report, revokeMissing)
    ensures ProvisionalAddresses(l, rs, now, report) == SnapshotAddresses(l, rs, now, report)
  {
    if rs != [] {
      var init, q := rs[..|rs| - 1], rs[|rs| - 1];
      ProvisionalAllRows(l, txids, init, now, report, revokeMissing);
      SnapshotOneMore(l, txids, init, q, now, report, revokeMissing);
      SnapshotOneMoreAddress(l, init, q, now, report);
      assert rs == init + [q];
    }
  }

  lemma SnapshotOneMore(
    l: Ledger, txids: set<string>, rs: seq<Attributed>, q: Attributed, now: Time, report: nat, revokeMissing: bool)
    ensures Snapshotting(l, txids, rs + [q], now, report, revokeMissing)
         == Snapshotting(l, txids, rs, now, report, revokeMissing)[q.uid := Provisional(Find(l, q.uid), q, now, report)]
  {
    assert (rs + [q])[..|rs|] == rs;
    var m, n := ScanMap(rs), ScanMap(rs + [q]);
    var one := Snapshotting(l, txids, rs + [q], now, report, revokeMissing);
    var part := Snapshotting(l, txids, rs, now, report, revokeMissing)[q.uid := Provisional(Find(l, q.uid), q, now, report)];
    assert n == m[q.uid := q];
    assert one.Keys == part.Keys;
    forall u | u in one ensures one[u] == part[u] {
      assert u in n <==> u == q.uid || u in m;
      assert u in m && u != q.uid ==> n[u] == m[u];
    }
  }

  lemma SnapshotOneMoreAddress(l: Ledger, rs: seq<Attributed>, q: Attributed, now: Time, report: nat)
    ensures SnapshotAddresses(l, rs + [q], now, report)
         == SnapshotAddresses(l, rs, now, report)
            + (if HasProvisional(l, q.uid) ==> SnapshotDiffers(l[q.uid], q, now, report) then {q.addr} else {})
  {
  }

  /** The refresh leaves the upserted and the revoked rows alone. */
  lemma RefreshedRow(
    l: Ledger, txids: set<string>, rs: seq<Attributed>, now: Time, report: nat, revokeMissing: bool, u: Uid)
    requires u in Snapshotting(l, txids, rs, now, report, revokeMissing)
    ensures var row := Snapshotting(l, txids, rs, now, report, revokeMissing)[u];
      && Refreshed(row, now, report) == SnapshotRow(l, u, txids, ScanMap(rs), now, report, revokeMissing)
      && (Refreshed(row, now, report) != row ==>
           u !in ScanMap(rs) && u in l && !LeftMempool(l[u], u, txids, revokeMissing))
      && (u !in ScanMap(rs) && u in l && !LeftMempool(l[u], u, txids, revokeMissing) ==> row == l[u])
  {
  }

  lemma SnapshotRows(
    l: Ledger, txids: set<string>, rs: seq<Attributed>, now: Time, report: nat, revokeMissing: bool)
    ensures var part := Snapshotting(l, txids, rs, now, report, revokeMissing);
      (map u | u in part :: Refreshed(part[u], now, report))
        == Snapshotted(l, txids, ScanMap(rs), now, report, revokeMissing)
  {
    forall u | u in Snapshotting(l, txids, rs, now, report, revokeMissing) {
      RefreshedRow(l, txids, rs, now, report, revokeMissing, u);
    }
  }

  function StaleAddresses(
    l: Ledger, txids: set<string>, rs: seq<Attributed>, now: Time, report: nat, revokeMissing: bool): set<AddressId>
  {
    set u | u in l && u !in ScanMap(rs) && !LeftMempool(l[u], u, txids, revokeMissing)
            && Refreshed(l[u], now, report) != l[u] :: l[u].addr
  }

  lemma SnapshotStale(
    l: Ledger, txids: set<string>, rs: seq<Attributed>, now: Time, report: nat, revokeMissing: bool)
    ensures var part := Snapshotting(l, txids, rs, now, report, revokeMissing);
      (set u | u in part && Refreshed(part[u], now, report) != part[u] :: part[u].addr)
        == StaleAddresses(l, txids, rs, now, report, revokeMissing)
    ensures DepartedAddresses(l, txids, revokeMissing) + SnapshotAddresses(l, rs, now, report)
            + StaleAddresses(l, txids, rs, now, report, revokeMissing)
         == SnapshotTouched(l, txids, rs, now, report, revokeMissing)
  {
    var part := Snapshotting(l, txids, rs, now, report, revokeMissing);
    forall u | u in part
      ensures Refreshed(part[u], now, report) != part[u]
        <==> u in l && u !in ScanMap(rs) && !LeftMempool(l[u], u, txids, revokeMissing) && Refreshed(l[u], now, report) != l[u]
      ensures Refreshed(part[u], now, report) != part[u] ==> part[u] == l[u]
    {
      RefreshedRow(l, txids, rs, now, report, revokeMissing, u);
    }
    forall u | u in l ensures u in part { }
  }

  lemma ReconcileTouchesKnown(db: Db, rs: seq<Attributed>, lo: nat, hi: nat)
    requires RowsKnown(db) && Known(db.box.index, Reconcile(rs, lo, hi, 0))
    ensures ReconcileTouched(db.ledger, ScanMap(rs), lo, hi) <= db.box.index.Keys
  {
  }

  lemma SnapshotTouchesKnown(
    db: Db, txids: set<string>, rs: seq<Attributed>, now: Time, tip: nat, cfg: Config, revokeMissing: bool)
    requires RowsKnown(db) && Known(db.box.index, Snapshot(txids, rs, now, tip, revokeMissing))
    ensures SnapshotTouched(db.ledger, txids, rs, now, cfg.report, revokeMissing) <= db.box.index.Keys
  {
    forall a | a in SnapshotTouched(db.ledger, txids, rs, now, cfg.report, revokeMissing)
      ensures a in db.box.index
    {
      if r :| r in rs && r.addr == a {
        assert a in AddressesOf(rs);
      }
    }
  }

  /** Visiting row `u` adds its value to the slots up to its depth. */
  lemma SlotStep(l: Ledger, a: AddressId, tip: nat, k: nat, todo: set<Uid>, u: Uid)
    requires u in todo && todo <= Eligible(l, a).Keys
    ensures var sel, all := AtDepth(l, a, k, tip), Eligible(l, a).Keys;
      Total(Restrict(sel, all - (todo - {u})))
        == Total(Restrict(sel, all - todo)) + if k <= RowDepth(l[u], tip) then Eligible(l, a)[u] else 0
  {
    var sel, all := AtDepth(l, a, k, tip), Eligible(l, a).Keys;
    assert all - todo + {u} == all - (todo - {u});
    if k <= RowDepth(l[u], tip) {
      TotalGrows(sel, all - todo, u);
    } else {
      assert Restrict(sel, all - (todo - {u})) == Restrict(sel, all - todo);
    }
  }

  lemma Least(s: set<AddressId>) returns (a: AddressId)
    requires s != {}
    ensures a in s && forall b :: b in s ==> a <= b
    decreases s
  {
    var some := Member(s);
    var rest := s - {some};
    a := some;
    if rest != {} {
      var least := Least(rest);
      a := if some <= least then some else least;
    }
    forall b | b in s ensures a <= b {
      assert b != some ==> b in rest;
    }
  }

  /** A set of addresses in ascending order. */
  method InOrder(touched: set<AddressId>) returns (addrs: seq<AddressId>)
    ensures forall a :: a in addrs <==> a in touched
    ensures forall i, j :: 0 <= i < j < |addrs| ==> addrs[i] < addrs[j]
  {
    addrs := [];
    var todo := touched;
    while todo != {}
      invariant todo <= touched
      invariant forall a :: a in addrs <==> a in touched - todo
      invariant forall a, b :: a in addrs && b in todo ==> a < b
      invariant forall i, j :: 0 <= i < j < |addrs| ==> addrs[i] < addrs[j]
      decreases todo
    {
      ghost var least := Least(todo);
      var a: AddressId :| a in todo && forall b :: b in todo ==> a <= b;
      forall i | 0 <= i < |addrs| ensures addrs[i] < a { assert addrs[i] in addrs; }
      addrs := addrs + [a];
      todo := todo - {a};
    }
  }

  class AppDb {
    var ledger: Ledger
    var index: Index
    var deliveries: seq<Delivery>
    var log: seq<nat>
    var required: Option<nat>
    var lastSeenTip: int
    var lastScanned: int

    ghost function Value(): Db
      reads this
    {
      Db(ledger, Box(deliveries, index, log), required, lastSeenTip, lastScanned)
    }

    /** The foreign key: every receipt row belongs to an issued address. */
    ghost predicate Valid()
      reads this
    {
      RowsKnown(Value())
    }

    constructor (required: Option<nat>)
      ensures Value() == Initial(required) && Valid()
    {
      ledger, index, deliveries, log := map[], map[], [], [];
      this.required, lastSeenTip, lastScanned := required, 0, 0;
    }

    // ---------------------------------------------------------------- recomputation

    /** `SELECT SUM(value_zat)` over selected rows. */
    method QuerySum(sel: map<Uid, nat>) returns (sum: nat)
      ensures sum == Total(sel)
    {
      sum := 0;
      var todo := sel.Keys;
      while todo != {}
        invariant todo <= sel.Keys
        invariant sum == Total(Restrict(sel, sel.Keys - todo))
        decreases todo
      {
        var u :| u in todo;
        TotalGrows(sel, sel.Keys - todo, u);
        assert sel.Keys - todo + {u} == sel.Keys - (todo - {u});
        sum := sum + sel[u];
        todo := todo - {u};
      }
      assert sel.Keys - todo == sel.Keys;
      assert Restrict(sel, sel.Keys) == sel;
    }

    /** Adds each counted receipt to every slot up to its depth. */
    method ReceivedByConfirmations(a: AddressId, tip: nat, required: nat) returns (byDepth: seq<nat>)
      ensures byDepth == ArrayAt(ledger, a, tip, required)
    {
      var slots := new nat[required + 1](_ => 0);
      var rows := Eligible(ledger, a);
      var todo := rows.Keys;
      while todo != {}
        invariant todo <= rows.Keys
        invariant forall k :: 0 <= k <= required ==>
          slots[k] == Total(Restrict(AtDepth(ledger, a, k, tip), rows.Keys - todo))
        decreases todo
      {
        var u :| u in todo;
        ghost var before := slots[..];
        var reached := Min(RowDepth(ledger[u], tip), required);
        for k := 0 to reached + 1
          invariant forall j :: 0 <= j < k ==> slots[j] == before[j] + rows[u]
          invariant forall j :: k <= j <= required ==> slots[j] == before[j]
        {
          slots[k] := slots[k] + rows[u];
        }
        forall k | 0 <= k <= required
          ensures slots[k] == Total(Restrict(AtDepth(ledger, a, k, tip), rows.Keys - (todo - {u})))
        {
          SlotStep(ledger, a, tip, k, todo, u);
        }
        todo := todo - {u};
      }
      assert rows.Keys - todo == rows.Keys;
      forall k | 0 <= k <= required ensures slots[k] == Total(AtDepth(ledger, a, k, tip)) {
        assert Restrict(AtDepth(ledger, a, k, tip), rows.Keys) == AtDepth(ledger, a, k, tip);
      }
      byDepth := slots[..];
    }

    method RecomputeAddress(a: AddressId, tip: nat, finality: nat)
      requires a in index
      modifies this`index
      ensures index == old(index)[a := Recomputed(ledger, a, old(index)[a], tip, finality, required)]
    {
      var total := QuerySum(Eligible(ledger, a));
      var final := QuerySum(Final(ledger, a, Cutoff(tip, finality)));
      var byDepth: Option<seq<nat>> := None;
      if required.Some? {
        var slots := ReceivedByConfirmations(a, tip, required.value);
        byDepth := Some(slots);
      }
      var t := index[a];
      var recent: int := total;
      recent := recent - final;
      var changed := t.reported.total != total || t.reported.byDepth != byDepth;
      index := index[a := t.(
        finalized := final, recent := recent, reported := Reported(total, byDepth), tip := tip,
        notice := if changed then Dirty else t.notice,
        version := if changed then t.version + 1 else t.version)];
    }

    method RecomputeAddressTotals(touched: set<AddressId>, tip: nat, finality: nat)
      requires touched <= index.Keys
      modifies this`index
      ensures index == RecomputeAll(ledger, old(index), touched, tip, finality, required)
    {
      var todo := touched;
      while todo != {}
        invariant todo <= touched
        invariant index == RecomputeAll(ledger, old(index), touched - todo, tip, finality, required)
        decreases todo
      {
        ghost var some := Member(todo);
        var a :| a in todo;
        RecomputeAddress(a, tip, finality);
        todo := todo - {a};
        assert index == RecomputeAll(ledger, old(index), touched - todo, tip, finality, required);
      }
      assert touched - todo == touched;
    }

    // ---------------------------------------------------------------- receipt operations

    method ApplyAttributedReceipts(rs: seq<Attributed>, tip: nat, cfg: Config) returns (r: Result<set<AddressId>, DbError>)
      requires Valid()
      modifies this
      ensures Valid()
      ensures Value() == AfterReceipts(old(Value()), Apply(rs, tip), cfg)
      ensures r == if Known(old(index), Apply(rs, tip)) then Ok(AddressesOf(rs)) else Err(UnknownAddress)
    {
      hide Upserted, Recomputed;
      ghost var before := Value();
      var start := ledger;
      var touched: set<AddressId> := {};
      for i := 0 to |rs|
        invariant ledger == UpsertAll(start, rs[..i])
        invariant touched == AddressesOf(rs[..i]) && touched <= index.Keys
        invariant Value() == before.(ledger := ledger)
      {
        var q := rs[i];
        assert rs[..i + 1] == rs[..i] + [q];
        assert rs[..i + 1][..i] == rs[..i];
        if q.addr !in index {
          assert q.addr in AddressesOf(rs);
          ledger := start;
          return Err(UnknownAddress);
        }
        ledger := ledger[q.uid := Upserted(Find(ledger, q.uid), q)];
        touched := touched + {q.addr};
      }
      assert rs[..|rs|] == rs;
      RecomputeAddressTotals(touched, tip, cfg.finality);
      ReceiptsKeepRows(before, Apply(rs, tip), cfg);
      r := Ok(touched);
    }

    method AdvanceReceiptMaturity(tip: nat, cfg: Config) returns (touched: set<AddressId>)
      requires Valid()
      modifies this
      ensures Valid()
      ensures Value() == AfterReceipts(old(Value()), Mature(tip), cfg)
      ensures touched == MatureTouched(old(ledger), tip, cfg.report)
    {
      ghost var before := Value();
      touched := MatureTouched(ledger, tip, cfg.report);
      if touched != {} {
        ledger := Matured(ledger, tip, cfg.report);
        RecomputeAddressTotals(touched, tip, cfg.finality);
      } else {
        assert forall u :: u in ledger && Outdated(ledger[u], tip, cfg.report) ==> ledger[u].addr in touched;
        assert Matured(ledger, tip, cfg.report) == ledger;
      }
      ReceiptsKeepRows(before, Mature(tip), cfg);
    }

    method RevokeMinedReceiptsAboveTip(tip: nat, cfg: Config) returns (touched: set<AddressId>)
      requires Valid()
      modifies this
      ensures Valid()
      ensures Value() == AfterReceipts(old(Value()), RevokeAbove(tip), cfg)
      ensures touched == RevokeTouched(old(ledger), tip)
    {
      ghost var before := Value();
      touched := RevokeRows(set u | u in ledger && AboveTip(ledger[u], tip));
      assert ledger == RevokedAbove(before.ledger, tip);
      assert touched == RevokeTouched(before.ledger, tip);
      assert RecomputeAll(ledger, index, {}, tip, cfg.finality, required) == index;
      if touched != {} {
        RecomputeAddressTotals(touched, tip, cfg.finality);
      }
      ReceiptsKeepRows(before, RevokeAbove(tip), cfg);
    }

    /** Revokes the selected rows one by one. */
    method RevokeRows(rows: set<Uid>) returns (touched: set<AddressId>)
      requires rows <= ledger.Keys
      modifies this`ledger
      ensures ledger == map u | u in old(ledger) :: if u in rows then old(ledger)[u].(active := false) else old(ledger)[u]
      ensures touched == set u | u in rows :: old(ledger)[u].addr
    {
      var start, todo := ledger, rows;
      touched := {};
      while todo != {}
        invariant todo <= rows
        invariant ledger.Keys == start.Keys
        invariant forall u :: u in start ==> ledger[u] == if u in rows - todo then start[u].(active := false) else start[u]
        invariant touched == set u | u in rows - todo :: start[u].addr
        decreases todo
      {
        var u :| u in todo;
        ledger := ledger[u := ledger[u].(active := false)];
        touched := touched + {start[u].addr};
        todo := todo - {u};
      }
      assert rows - todo == rows;
    }

    method ReconcileAttributedReceiptsInRange(rs: seq<Attributed>, lo: nat, hi: nat, tip: nat, cfg: Config)
      returns (r: Result<set<AddressId>, DbError>)
      requires Valid()
      modifies this
      ensures Valid()
      ensures Value() == AfterReceipts(old(Value()), Reconcile(rs, lo, hi, tip), cfg)
      ensures r == if Known(old(index), Reconcile(rs, lo, hi, tip))
                   then Ok(ReconcileTouched(old(ledger), ScanMap(rs), lo, hi)) else Err(UnknownAddress)
    {
      hide Reconciling, Reconciled, Differs, Vanished, Upserted, Recomputed, ReconcileTouched,
           VanishedAddresses, InsertedAddresses, ReplacedAddresses;
      ghost var before := Value();
      var start := ledger;
      var scanned := LastByUid(rs);
      var existing := map u | u in start && InWindow(start, u, lo, hi) :: start[u];
      var vanished := RevokeVanished(existing, scanned, lo, hi);
      var known, changed := UpsertScanned(start, existing, scanned, lo, hi);
      assert known <==> Known(index, Reconcile(rs, lo, hi, tip));
      if !known {
        ledger := start;
        return Err(UnknownAddress);
      }
      ReconcileDone(start, scanned, lo, hi);
      var touched := vanished + changed;
      assert touched == ReconcileTouched(start, scanned, lo, hi);
      ReconcileTouchesKnown(before, rs, lo, hi);
      RecomputeAddressTotals(touched, tip, cfg.finality);
      ReceiptsKeepRows(before, Reconcile(rs, lo, hi, tip), cfg);
      r := Ok(touched);
    }

    method LastByUid(rs: seq<Attributed>) returns (scanned: Scan)
      ensures scanned == ScanMap(rs)
    {
      scanned := map[];
      for i := 0 to |rs|
        invariant scanned == ScanMap(rs[..i])
      {
        assert rs[..i + 1][..i] == rs[..i];
        scanned := scanned[rs[i].uid := rs[i]];
      }
      assert rs[..|rs|] == rs;
    }

    /** Upserts the scanned receipts; stops at the first one of an unknown address. */
    method UpsertScanned(ghost start: Ledger, existing: Ledger, scanned: Scan, lo: int, hi: int)
      returns (known: bool, changed: set<AddressId>)
      requires ledger == Reconciling(start, scanned, lo, hi, {})
      requires existing == map u | u in start && InWindow(start, u, lo, hi) :: start[u]
      modifies this`ledger
      ensures known <==> (set u | u in scanned :: scanned[u].addr) <= index.Keys
      ensures known ==> ledger == Reconciling(start, scanned, lo, hi, scanned.Keys)
      ensures known ==> changed == InsertedAddresses(start, scanned, lo, hi, scanned.Keys)
                                 + ReplacedAddresses(start, scanned, lo, hi, scanned.Keys)
    {
      hide Reconciling, InsertedAddresses, ReplacedAddresses, Differs, Upserted;
      known, changed := true, {};
      var todo := scanned.Keys;
      assert scanned.Keys - todo == {};
      NothingInserted(start, scanned, lo, hi);
      while todo != {}
        invariant todo <= scanned.Keys
        invariant ledger == Reconciling(start, scanned, lo, hi, scanned.Keys - todo)
        invariant changed == InsertedAddresses(start, scanned, lo, hi, scanned.Keys - todo)
                           + ReplacedAddresses(start, scanned, lo, hi, scanned.Keys - todo)
        invariant forall u :: u in scanned.Keys - todo ==> scanned[u].addr in index
        decreases todo
      {
        var u :| u in todo;
        var q := scanned[u];
        if q.addr !in index {
          assert q.addr in (set v | v in scanned :: scanned[v].addr);
          return false, changed;
        }
        ledger := ledger[u := Upserted(Find(ledger, u), q)];
        if u !in existing {
          changed := changed + {q.addr};
        } else if Differs(existing[u], q) {
          changed := changed + {q.addr} + {existing[u].addr};
        }
        assert scanned.Keys - (todo - {u}) == (scanned.Keys - todo) + {u};
        ReconcileOneMore(start, scanned, lo, hi, scanned.Keys - todo, u);
        todo := todo - {u};
      }
      assert scanned.Keys - todo == scanned.Keys;
    }

    /** Revokes the window's active mined rows that the scan did not find. */
    method RevokeVanished(existing: Ledger, scanned: Scan, lo: int, hi: int) returns (touched: set<AddressId>)
      requires existing == map u | u in ledger && InWindow(ledger, u, lo, hi) :: ledger[u]
      modifies this`ledger
      ensures ledger == Reconciling(old(ledger), scanned, lo, hi, {})
      ensures touched == VanishedAddresses(old(ledger), scanned, lo, hi)
    {
      var gone := set u | u in existing && existing[u].kind.Mined? && existing[u].active && u !in scanned;
      assert forall u :: u in gone <==> Vanished(ledger, scanned, lo, hi, u);
      touched := RevokeRows(gone);
    }

    method ReconcileMempoolSnapshot(
      txids: set<string>, rs: seq<Attributed>, now: Time, tip: nat, cfg: Config, revokeMissing: bool)
      returns (r: Result<set<AddressId>, DbError>)
      requires Valid()
      modifies this
      ensures Valid()
      ensures Value() == AfterReceipts(old(Value()), Snapshot(txids, rs, now, tip, revokeMissing), cfg)
      ensures r == if Known(old(index), Snapshot(txids, rs, now, tip, revokeMissing))
                   then Ok(SnapshotTouched(old(ledger), txids, rs, now, cfg.report, revokeMissing)) else Err(UnknownAddress)
    {
      ghost var before := Value();
      var start := ledger;
      var known, touched := SnapshotLedger(txids, rs, now, cfg.report, revokeMissing);
      if !known {
        ledger := start;
        return Err(UnknownAddress);
      }
      SnapshotTouchesKnown(before, txids, rs, now, tip, cfg, revokeMissing);
      RecomputeAddressTotals(touched, tip, cfg.finality);
      ReceiptsKeepRows(before, Snapshot(txids, rs, now, tip, revokeMissing), cfg);
      r := Ok(touched);
    }

    /** Revokes what left the mempool, upserts what was scanned, refreshes what aged. */
    method SnapshotLedger(txids: set<string>, rs: seq<Attributed>, now: Time, report: nat, revokeMissing: bool)
      returns (known: bool, touched: set<AddressId>)
      modifies this`ledger
      ensures known <==> AddressesOf(rs) <= index.Keys
      ensures known ==> ledger == Snapshotted(old(ledger), txids, ScanMap(rs), now, report, revokeMissing)
      ensures known ==> touched == SnapshotTouched(old(ledger), txids, rs, now, report, revokeMissing)
    {
      ghost var start := ledger;
      var existing := map u | u in ledger && ledger[u].kind.Mempool? :: ledger[u];
      touched := RevokeMissing(existing, txids, revokeMissing);
      var changed;
      known, changed := UpsertProvisional(start, existing, txids, rs, now, report, revokeMissing);
      if known {
        var stale := RefreshMempoolRows(now, report);
        SnapshotRows(start, txids, rs, now, report, revokeMissing);
        SnapshotStale(start, txids, rs, now, report, revokeMissing);
        touched := touched + changed + stale;
      }
    }

    /** Upserts the scanned mempool receipts over the rows read before any write. */
    method UpsertProvisional(
      ghost start: Ledger, existing: Ledger, ghost txids: set<string>, rs: seq<Attributed>,
      now: Time, report: nat, ghost revokeMissing: bool)
      returns (known: bool, changed: set<AddressId>)
      requires ledger == Departed(start, txids, revokeMissing)
      requires existing == map u | u in start && start[u].kind.Mempool? :: start[u]
      modifies this`ledger
      ensures known <==> AddressesOf(rs) <= index.Keys
      ensures known ==> ledger == Snapshotting(start, txids, rs, now, report, revokeMissing)
      ensures known ==> changed == SnapshotAddresses(start, rs, now, report)
    {
      known, changed := true, {};
      ghost var departed := ledger;
      for i := 0 to |rs|
        invariant ledger == ProvisionalAll(start, departed, rs[..i], now, report)
        invariant changed == ProvisionalAddresses(start, rs[..i], now, report)
        invariant AddressesOf(rs[..i]) <= index.Keys
      {
        assert rs[..i + 1] == rs[..i] + [rs[i]] && rs[..i + 1][..i] == rs[..i];
        if rs[i].addr !in index {
          assert rs[i].addr in AddressesOf(rs);
          return false, changed;
        }
        var differs := UpsertMempoolRow(start, existing, rs[i], now, report);
        changed := changed + (if differs then {rs[i].addr} else {});
      }
      assert rs[..|rs|] == rs;
      ProvisionalAllRows(start, txids, rs, now, report, revokeMissing);
    }

    method UpsertMempoolRow(ghost start: Ledger, existing: Ledger, q: Attributed, now: Time, report: nat)
      returns (differs: bool)
      requires existing == map u | u in start && start[u].kind.Mempool? :: start[u]
      modifies this`ledger
      ensures ledger == old(ledger)[q.uid := Provisional(Find(start, q.uid), q, now, report)]
      ensures differs <==> (HasProvisional(start, q.uid) ==> SnapshotDiffers(start[q.uid], q, now, report))
    {
      var first := if q.uid in existing then existing[q.uid].firstSeen else q.firstSeen;
      var eligible := Fresh(first, now, report);
      ledger := ledger[q.uid := Row(q.addr, q.value, 0, 0, eligible, Mempool, first, true)];
      differs := q.uid !in existing || SnapshotDiffers(existing[q.uid], q, now, report);
    }

    /** Re-evaluates the freshness of every active mempool row. */
    method RefreshMempoolRows(now: Time, report: nat) returns (stale: set<AddressId>)
      modifies this`ledger
      ensures ledger == map u | u in old(ledger) :: Refreshed(old(ledger)[u], now, report)
      ensures stale == set u | u in old(ledger) && Refreshed(old(ledger)[u], now, report) != old(ledger)[u] :: old(ledger)[u].addr
    {
      stale := set u | u in ledger && Refreshed(ledger[u], now, report) != ledger[u] :: ledger[u].addr;
      ledger := map u | u in ledger :: Refreshed(ledger[u], now, report);
    }

    /** Revokes the mempool rows whose transaction left the mempool, if the caller asked for it. */
    method RevokeMissing(existing: Ledger, txids: set<string>, revokeMissing: bool) returns (touched: set<AddressId>)
      requires existing == map u | u in ledger && ledger[u].kind.Mempool? :: ledger[u]
      modifies this`ledger
      ensures ledger == Departed(old(ledger), txids, revokeMissing)
      ensures touched == DepartedAddresses(old(ledger), txids, revokeMissing)
    {
      touched := {};
      if revokeMissing {
        var gone := set u | u in existing && existing[u].active && u.txid !in txids;
        assert forall u :: u in gone <==> u in ledger && LeftMempool(ledger[u], u, txids, true);
        touched := RevokeRows(gone);
      }
      assert ledger == Departed(old(ledger), txids, revokeMissing);
    }

    // ---------------------------------------------------------------- settings, addresses, status

    method IssueAddress(a: AddressId)
      requires Valid()
      modifies this
      ensures Valid()
      ensures Value() == old(Value()).(box := Issued(old(Value()).box, a))
    {
      if a !in index {
        index := index[a := NEW_ENTRY];
      }
    }

    method RecordSyncStatus(tip: int, scanned: int)
      requires Valid()
      modifies this`lastSeenTip, this`lastScanned
      ensures Valid()
      ensures Value() == old(Value()).(lastSeenTip := tip, lastScanned := scanned)
    {
      lastSeenTip, lastScanned := tip, scanned;
    }

    method ApplyRequiredConfirmations(wanted: Option<nat>)
      requires Valid()
      modifies this
      ensures Valid()
      ensures Value() == Rebuilt(old(Value()), wanted)
    {
      if required == wanted {
        return;
      }
      ghost var before := Value();
      required := wanted;
      var all := index.Keys;
      var todo := all;
      while todo != {}
        invariant todo <= all == index.Keys == before.box.index.Keys
        invariant forall a :: a in index ==>
          index[a] == if a in todo then before.box.index[a] else RebuiltEntry(ledger, a, before.box.index[a], wanted)
        invariant Value() == before.(required := wanted, box := before.box.(index := index))
        decreases todo
      {
        ghost var some := Member(todo);
        var a :| a in todo;
        var t := index[a];
        var byDepth: Option<seq<nat>> := None;
        if wanted.Some? {
          var slots := ReceivedByConfirmations(a, t.tip, wanted.value);
          byDepth := Some(slots);
        }
        index := index[a := t.(reported := t.reported.(byDepth := byDepth))];
        todo := todo - {a};
      }
    }

    // ---------------------------------------------------------------- outbox

    method QueueOne(a: AddressId, now: Time) returns (queued: bool)
      requires Valid()
      modifies this`index, this`deliveries
      ensures Valid()
      ensures Value() == old(Value()).(box := Enqueued(old(Value()).box, a, now))
      ensures queued <==> a in old(index) && old(index[a]).notice.Dirty?
                          && old(index[a].reported != LastWord(deliveries, a, index[a]))
    {
      queued := false;
      if a !in index || !index[a].notice.Dirty? {
        return;
      }
      var t := index[a];
      var newest := NewestOutstanding(deliveries, a, AckedIndex(deliveries, a, t));
      var lastWord := if newest >= 0 then deliveries[newest].reported else t.notified;
      if t.reported == lastWord {
        index := index[a := t.(notice := if newest < 0 then Clean else QueuedForWebhook)];
        return;
      }
      if EventIndex(deliveries, a, t.version) < 0 {
        deliveries := deliveries + [Delivery(a, t.version, t.reported, now, DeliveryState.Queued, 0, None)];
      }
      index := index[a := t.(notice := QueuedForWebhook)];
      queued := true;
    }

    method QueueWebhookDeliveries(addrs: seq<AddressId>, now: Time)
      requires Valid()
      modifies this`index, this`deliveries
      ensures Valid()
      ensures Value() == old(Value()).(box := EnqueuedAll(old(Value()).box, addrs, now))
    {
      ghost var before := Value();
      for i := 0 to |addrs|
        invariant Valid()
        invariant Value() == before.(box := EnqueuedAll(before.box, addrs[..i], now))
      {
        assert addrs[..i + 1][..i] == addrs[..i];
        var queued := QueueOne(addrs[i], now);
      }
      assert addrs[..|addrs|] == addrs;
    }

    /** At start-up: every address an interrupted actor left dirty is queued. */
    method QueueAllDirtyWebhookDeliveries(now: Time) returns (addrs: seq<AddressId>)
      requires Valid()
      modifies this`index, this`deliveries
      ensures Valid()
      ensures forall a :: a in addrs <==> IsDirty(old(index), a)
      ensures forall i, j :: 0 <= i < j < |addrs| ==> addrs[i] < addrs[j]
      ensures Value() == old(Value()).(box := EnqueuedAll(old(Value()).box, addrs, now))
      ensures forall a :: !IsDirty(index, a)
    {
      hide EnqueuedAll;
      addrs := InOrder(set a | a in index && index[a].notice.Dirty?);
      EnqueueAllQuiets(Value().box, addrs, now);
      QueueWebhookDeliveries(addrs, now);
    }

    /** Claims the oldest ready delivery. */
    method ClaimReadyWebhookDelivery(now: Time) returns (claimed: Option<nat>)
      requires Valid()
      modifies this`deliveries
      ensures Valid()
      ensures claimed.None? ==> Value() == old(Value()) && forall i :: 0 <= i < |deliveries| ==> !Ready(deliveries[i], now)
      ensures claimed.Some? ==> IsNextReady(old(deliveries), claimed.value, now)
      ensures claimed.Some? ==> Value() == old(Value()).(box := Claimed(old(Value()).box, claimed.value))
    {
      claimed := None;
      for i := 0 to |deliveries|
        invariant claimed.None? ==> forall j :: 0 <= j < i ==> !Ready(deliveries[j], now)
        invariant claimed.Some? ==> claimed.value < i && IsNextReady(deliveries[..i], claimed.value, now)
      {
        if Ready(deliveries[i], now)
           && (claimed.None? || deliveries[i].observedAt < deliveries[claimed.value].observedAt)
        {
          claimed := Some(i);
        }
      }
      if claimed.Some? {
        deliveries := deliveries[claimed.value := deliveries[claimed.value].(state := Sending, nextAttempt := None)];
      }
    }

    method RecordWebhookDeliverySuccess(i: nat, now: Time) returns (r: Result<(), DbError>)
      requires Valid()
      modifies this
      ensures Valid()
      ensures i >= |old(deliveries)| ==> r.Err? && Value() == old(Value())
      ensures i < |old(deliveries)| ==> r.Ok? && Value() == old(Value()).(box := Acknowledged(old(Value()).box, i, now))
    {
      if i >= |deliveries| {
        return Err(UnknownDelivery);
      }
      r := Ok(());
      var d := deliveries[i];
      deliveries := deliveries[i := d.(state := Succeeded, attempts := d.attempts + 1, nextAttempt := None)];
      log := log + [i];
      assert deliveries == Attempted(old(Value()).box, i, Succeeded, None).deliveries;
      if d.addr !in index || AckedIndex(deliveries, d.addr, index[d.addr]) > i {
        return;
      }
      var t := index[d.addr];
      index := index[d.addr := t.(notified := d.reported, acked := Some(d.version), notice := Dirty)];
      var queued := QueueOne(d.addr, now);
    }

    method RecordWebhookDeliveryRetry(i: nat, next: Time) returns (r: Result<(), DbError>)
      requires Valid()
      modifies this`deliveries, this`log
      ensures Valid()
      ensures i >= |old(deliveries)| ==> r.Err? && Value() == old(Value())
      ensures i < |old(deliveries)| ==> r.Ok? && Value() == old(Value()).(box := Retried(old(Value()).box, i, next))
    {
      if i >= |deliveries| {
        return Err(UnknownDelivery);
      }
      var d := deliveries[i];
      deliveries := deliveries[i := d.(state := RetryWait, attempts := d.attempts + 1, nextAttempt := Some(next))];
      log := log + [i];
      r := Ok(());
    }

    method RecordWebhookDeliveryPermanentFailure(i: nat) returns (r: Result<(), DbError>)
      requires Valid()
      modifies this`deliveries, this`log
      ensures Valid()
      ensures i >= |old(deliveries)| ==> r.Err? && Value() == old(Value())
      ensures i < |old(deliveries)| ==> r.Ok? && Value() == old(Value()).(box := GivenUp(old(Value()).box, i))
    {
      if i >= |deliveries| {
        return Err(UnknownDelivery);
      }
      var d := deliveries[i];
      deliveries := deliveries[i := d.(state := PermanentFailure, attempts := d.attempts + 1, nextAttempt := None)];
      log := log + [i];
      r := Ok(());
    }

    method RecoverInterruptedWebhookDeliveries(now: Time)
      requires Valid()
      modifies this`deliveries
      ensures Valid()
      ensures Value() == old(Value()).(box := Recovered(old(Value()).box, now))
      ensures |deliveries| == |old(deliveries)|
      ensures forall i :: 0 <= i < |deliveries| ==>
        deliveries[i] == if old(deliveries)[i].state.Sending?
                         then old(deliveries)[i].(state := RetryWait, nextAttempt := Some(now)) else old(deliveries)[i]
    {
      ghost var before := deliveries;
      for i := 0 to |deliveries|
        invariant |deliveries| == |before|
        invariant forall j :: 0 <= j < |before| ==> deliveries[j] == if j < i then Interrupted(before[j], now) else before[j]
        invariant Value() == old(Value()).(box := old(Value()).box.(deliveries := deliveries))
      {
        if deliveries[i].state.Sending? {
          deliveries := deliveries[i := deliveries[i].(state := RetryWait, nextAttempt := Some(now))];
        }
      }
      assert deliveries == Recovered(old(Value()).box, now).deliveries;
    }

    /** Records how an HTTP attempt of a claimed delivery ended. */
    method FinishDelivery(i: nat, outcome: Outcome, now: Time, next: Time, cfg: Config)
      requires Valid()
      requires i < |deliveries|
      modifies this
      ensures Valid()
      ensures Value() == old(Value()).(box := Finished(old(Value()).box, i, outcome, now, next, cfg.maxAttempts))
      ensures i < |deliveries|
      ensures cfg.maxAttempts <= U32_MAX ==> EndsAs(old(deliveries)[i], deliveries[i], outcome, next, cfg.maxAttempts)
    {
      if cfg.maxAttempts <= U32_MAX {
        FinishedExactly(Value().box, i, outcome, now, next, cfg.maxAttempts);
      }
      var attempts := deliveries[i].attempts;
      if outcome.Status? && 200 <= outcome.code < 300 {
        var r := RecordWebhookDeliverySuccess(i, now);
      } else if outcome.TransportError? || 500 <= outcome.code < 600 || outcome.code == 429 {
        if LastAttempt(attempts, cfg.maxAttempts) {
          var r := RecordWebhookDeliveryPermanentFailure(i);
        } else {
          var r := RecordWebhookDeliveryRetry(i, next);
        }
      } else {
        var r := RecordWebhookDeliveryPermanentFailure(i);
      }
    }

    /**
     * One turn of the delivery worker. `outcome` is how the receiver answered the claimed delivery
     * and `attemptedAt` when; `clock` is the time read when the next attempt is scheduled, and `base`
     * and `cap` bound its delay.
     */
    method DeliverReadyOnce(
      now: Time, outcome: Outcome, attemptedAt: Time, clock: Time, base: nat, cap: nat, cfg: Config)
      returns (claimed: Option<nat>)
      requires Valid()
      modifies this
      ensures Valid()
      ensures claimed.None? ==> Value() == old(Value()) && forall i :: 0 <= i < |deliveries| ==> !Ready(deliveries[i], now)
      ensures claimed.Some? ==> IsNextReady(old(deliveries), claimed.value, now)
      ensures claimed.Some? && cfg.maxAttempts <= U32_MAX ==>
        var i := claimed.value;
        && i < |deliveries|
        && EndsAs(old(deliveries)[i], deliveries[i], outcome,
                  clock + Backoff.RetryDelay(base, cap, old(deliveries)[i].attempts), cfg.maxAttempts)
      ensures claimed.Some? ==>
        var i, before := claimed.value, old(Value()).box;
        var next := clock + Backoff.RetryDelay(base, cap, before.deliveries[i].attempts);
        Value() == old(Value()).(box := Finished(Claimed(before, i), i, outcome, attemptedAt, next, cfg.maxAttempts))
    {
      claimed := ClaimReadyWebhookDelivery(now);
      if claimed.Some? {
        var i := claimed.value;
        var delay := Backoff.RetryDelay(base, cap, deliveries[i].attempts);
        FinishDelivery(i, outcome, attemptedAt, clock + delay, cfg);
      }
    }
  }
}
