/** Laws of range reconciliation: what it does to the set of mined receipts, and its batching. */
module Reconciliation {
  import opened Common
  import opened Receipts
  import opened TotalsIndex

  // ------------------------------------------------------------------ chains and scans

  /** A receipt as a chain holds it. */
  datatype OnChain = OnChain(addr: AddressId, value: nat, height: nat)

  type Chain = map<Uid, OnChain>

  function Between(c: Chain, lo: int, hi: int): Chain {
    map u | u in c && lo <= c[u].height <= hi :: c[u]
  }

  function ActiveMined(l: Ledger): Chain {
    map u | u in l && l[u].active && l[u].kind.Mined? :: OnChain(l[u].addr, l[u].value, l[u].height)
  }

  predicate MinedWithin(scan: Scan, lo: int, hi: int) {
    forall u :: u in scan ==> scan[u].kind.Mined? && lo <= scan[u].height <= hi
  }

  /** The scan of heights `lo` through `hi` of chain `c`, attributed at `tip`. */
  ghost predicate IsScan(scan: Scan, c: Chain, lo: int, hi: int, tip: nat, report: nat) {
    && scan.Keys == Between(c, lo, hi).Keys
    && forall u :: u in scan ==>
         && scan[u].kind.Mined? && scan[u].uid == u
         && c[u] == OnChain(scan[u].addr, scan[u].value, scan[u].height)
         && scan[u].depth == DepthAt(tip, scan[u].height)
         && scan[u].eligible == (DepthAt(tip, scan[u].height) >= report)
  }

  /** Reconciliation replaces exactly the window's mined receipts by the scanned ones. */
  lemma ReconciledMined(l: Ledger, scan: Scan, lo: int, hi: int, u: Uid)
    requires forall v :: v in scan ==> scan[v].kind.Mined?
    ensures u in ActiveMined(Reconciled(l, scan, lo, hi))
       <==> u in scan || (u in ActiveMined(l) && !(lo <= ActiveMined(l)[u].height <= hi))
    ensures u in ActiveMined(Reconciled(l, scan, lo, hi)) ==>
      ActiveMined(Reconciled(l, scan, lo, hi))[u]
        == if u in scan then OnChain(scan[u].addr, scan[u].value, scan[u].height) else ActiveMined(l)[u]
  {
  }

  /** Scanning a window of a chain over a ledger that held another one leaves the scanned chain there. */
  lemma ReconcileAdopts(l: Ledger, scan: Scan, c: Chain, lo: int, hi: int, tip: nat, report: nat)
    requires IsScan(scan, c, lo, hi, tip, report)
    requires forall u :: u in ActiveMined(l) ==> ActiveMined(l)[u].height <= hi
    requires Between(ActiveMined(l), 0, lo - 1) == Between(c, 0, lo - 1)
    ensures ActiveMined(Reconciled(l, scan, lo, hi)) == Between(c, 0, hi)
  {
    var after := ActiveMined(Reconciled(l, scan, lo, hi));
    forall u
      ensures u in after <==> u in Between(c, 0, hi)
      ensures u in after ==> after[u] == c[u]
    {
      ReconciledMined(l, scan, lo, hi, u);
      assert u in Between(ActiveMined(l), 0, lo - 1) <==> u in Between(c, 0, lo - 1);
      assert u in scan <==> u in Between(c, lo, hi);
      if u in Between(c, 0, lo - 1) {
        assert Between(ActiveMined(l), 0, lo - 1)[u] == Between(c, 0, lo - 1)[u];
      }
    }
  }

  /**
   * Exactly when a scan of the window brings a ledger with nothing above it to chain `c`: the
   * receipts below the window that the scan did not find again are those of `c`. A reorganization
   * that reaches below the window and moves no receipt into it is the case that fails.
   */
  lemma AdoptsExactly(l: Ledger, scan: Scan, c: Chain, lo: int, hi: int, tip: nat, report: nat)
    requires IsScan(scan, c, lo, hi, tip, report) && lo <= hi + 1
    requires forall u :: u in ActiveMined(l) ==> ActiveMined(l)[u].height <= hi
    ensures ActiveMined(Reconciled(l, scan, lo, hi)) == Between(c, 0, hi)
       <==> Between(ActiveMined(l), 0, lo - 1) - scan.Keys == Between(c, 0, lo - 1)
  {
    hide Reconciled, ActiveMined, IsScan;
    var after, below := ActiveMined(Reconciled(l, scan, lo, hi)), Between(ActiveMined(l), 0, lo - 1) - scan.Keys;
    forall u
      ensures u in after <==> u in scan || u in below
      ensures u in scan ==> u in c && lo <= c[u].height <= hi && u in after && after[u] == c[u]
      ensures u in Between(c, lo, hi) ==> u in scan
      ensures u in below ==> after[u] == below[u]
    {
      AdoptedAt(l, scan, c, lo, hi, tip, report, u);
    }
    AgreeBelow(after, below, scan.Keys, c, lo, hi);
  }

  lemma AdoptedAt(l: Ledger, scan: Scan, c: Chain, lo: int, hi: int, tip: nat, report: nat, u: Uid)
    requires IsScan(scan, c, lo, hi, tip, report) && lo <= hi + 1
    requires forall u :: u in ActiveMined(l) ==> ActiveMined(l)[u].height <= hi
    ensures var after, below := ActiveMined(Reconciled(l, scan, lo, hi)), Between(ActiveMined(l), 0, lo - 1) - scan.Keys;
      && (u in after <==> u in scan || u in below)
      && (u in scan ==> u in c && lo <= c[u].height <= hi && after[u] == c[u])
      && (u in Between(c, lo, hi) ==> u in scan)
      && (u in below ==> after[u] == below[u])
  {
    hide Reconciled;
    ReconciledMined(l, scan, lo, hi, u);
  }

  /** Two chains that agree on the window are the same exactly if they agree below it. */
  lemma AgreeBelow(after: Chain, below: Chain, window: set<Uid>, c: Chain, lo: int, hi: int)
    requires lo <= hi + 1
    requires forall u :: u in after <==> u in window || u in below
    requires forall u :: u in window ==> u in c && lo <= c[u].height <= hi && after[u] == c[u]
    requires forall u :: u in Between(c, lo, hi) ==> u in window
    requires forall u :: u in below ==> u !in window && after[u] == below[u]
    ensures after == Between(c, 0, hi) <==> below == Between(c, 0, lo - 1)
  {
    var whole, under := Between(c, 0, hi), Between(c, 0, lo - 1);
    if below == under {
      forall u ensures u in after <==> u in whole ensures u in whole ==> after[u] == whole[u] { }
      assert after == whole;
    }
    if after == whole {
      forall u ensures u in below <==> u in under ensures u in under ==> below[u] == under[u] {
        assert u in after <==> u in whole;
      }
      assert below == under;
    }
  }

  // ------------------------------------------------------------------ batching

  function Slice(scan: Scan, lo: int, hi: int): Scan {
    map u | u in scan && lo <= scan[u].height <= hi :: scan[u]
  }

  /** What one reconciliation makes of one row, given what it found there and what it scanned. */
  function RowAfter(prior: Option<Row>, r: Option<Attributed>, lo: int, hi: int): Option<Row> {
    if r.Some? then Some(Upserted(prior, r.value))
    else if prior.Some? && prior.value.kind.Mined? && prior.value.active && InRange(prior.value, lo, hi)
    then Some(prior.value.(active := false))
    else prior
  }

  function Scanned(scan: Scan, u: Uid): Option<Attributed> {
    if u in scan then Some(scan[u]) else None
  }

  lemma ReconciledRow(l: Ledger, scan: Scan, lo: int, hi: int, u: Uid)
    ensures Find(Reconciled(l, scan, lo, hi), u) == RowAfter(Find(l, u), Scanned(scan, u), lo, hi)
  {
  }

  lemma SplitRow(prior: Option<Row>, r: Option<Attributed>, lo: int, mid: int, hi: int)
    requires lo <= mid + 1 <= hi + 1
    requires r.Some? ==> r.value.kind.Mined? && lo <= r.value.height <= hi
    ensures var first := if r.Some? && r.value.height <= mid then r else None;
      var second := if r.Some? && r.value.height > mid then r else None;
      var half := RowAfter(prior, first, lo, mid);
      var two := RowAfter(half, second, mid + 1, hi);
      && two == RowAfter(prior, r, lo, hi)
      && (two.Some? && prior.Some? && two.value.(firstSeen := 0) == prior.value.(firstSeen := 0)
          ==> half.Some? && half.value.(firstSeen := 0) == prior.value.(firstSeen := 0))
  {
  }

  lemma SplitRowAt(l: Ledger, scan: Scan, lo: int, mid: int, hi: int, u: Uid)
    requires lo <= mid + 1 <= hi + 1
    requires MinedWithin(scan, lo, hi)
    ensures var half := Reconciled(l, Slice(scan, lo, mid), lo, mid);
      var two := Reconciled(half, Slice(scan, mid + 1, hi), mid + 1, hi);
      && Find(two, u) == Find(Reconciled(l, scan, lo, hi), u)
      && (u in l ==> u in half && u in two)
      && (u in l && two[u].(firstSeen := 0) == l[u].(firstSeen := 0)
          ==> half[u].(firstSeen := 0) == l[u].(firstSeen := 0))
  {
    var half := Reconciled(l, Slice(scan, lo, mid), lo, mid);
    ReconciledRow(l, Slice(scan, lo, mid), lo, mid, u);
    ReconciledRow(half, Slice(scan, mid + 1, hi), mid + 1, hi, u);
    ReconciledRow(l, scan, lo, hi, u);
    SplitRow(Find(l, u), Scanned(scan, u), lo, mid, hi);
  }

  /** Row by row, two adjacent reconciliations do what one does, even to receipts that cross the split. */
  lemma SplitRows(l: Ledger, scan: Scan, lo: int, mid: int, hi: int)
    requires lo <= mid + 1 <= hi + 1
    requires MinedWithin(scan, lo, hi)
    ensures Reconciled(Reconciled(l, Slice(scan, lo, mid), lo, mid), Slice(scan, mid + 1, hi), mid + 1, hi)
         == Reconciled(l, scan, lo, hi)
  {
    var two := Reconciled(Reconciled(l, Slice(scan, lo, mid), lo, mid), Slice(scan, mid + 1, hi), mid + 1, hi);
    forall u ensures Find(two, u) == Find(Reconciled(l, scan, lo, hi), u) {
      SplitRowAt(l, scan, lo, mid, hi, u);
    }
    SameRows(two, Reconciled(l, scan, lo, hi));
  }

  lemma SameRows(l: Ledger, l': Ledger)
    requires forall u :: Find(l, u) == Find(l', u)
    ensures l == l'
  {
    forall u ensures u in l <==> u in l' ensures u in l ==> l[u] == l'[u] {
      assert Find(l, u) == Find(l', u);
    }
  }

  lemma SliceMined(scan: Scan, lo: int, mid: int, hi: int)
    requires MinedWithin(scan, lo, hi)
    ensures MinedWithin(Slice(scan, lo, mid), lo, mid) && MinedWithin(Slice(scan, mid + 1, hi), mid + 1, hi)
  {
  }

  lemma SplitTouches(l: Ledger, scan: Scan, lo: int, mid: int, hi: int)
    requires lo <= mid + 1 <= hi + 1
    requires MinedWithin(scan, lo, hi)
    requires Attributes(l, scan)
    ensures ReconcileTouched(l, Slice(scan, lo, mid), lo, mid)
          + ReconcileTouched(Reconciled(l, Slice(scan, lo, mid), lo, mid), Slice(scan, mid + 1, hi), mid + 1, hi)
         == ReconcileTouched(l, scan, lo, hi)
  {
    hide Reconciled, ReconcileTouched, Moves, Slice, Attributes, MinedWithin;
    var first, second := Slice(scan, lo, mid), Slice(scan, mid + 1, hi);
    SplitAttributes(l, scan, lo, mid, hi);
    SliceMined(scan, lo, mid, hi);
    var half := Reconciled(l, first, lo, mid);
    var one := ReconcileTouched(l, scan, lo, hi);
    var left, right := ReconcileTouched(l, first, lo, mid), ReconcileTouched(half, second, mid + 1, hi);
    forall a ensures a in left + right <==> a in one {
      MovedRows(l, first, lo, mid, a);
      MovedRows(half, second, mid + 1, hi, a);
      MovedRows(l, scan, lo, hi, a);
      SplitMoves(l, scan, lo, mid, hi, a);
    }
  }

  /** An address is touched exactly when one of its rows is moved. */
  ghost predicate Moves(l: Ledger, l': Ledger, a: AddressId) {
    exists u :: Sighting(l, u, a) != Sighting(l', u, a)
  }

  lemma MovedRows(l: Ledger, scan: Scan, lo: int, hi: int, a: AddressId)
    requires MinedWithin(scan, lo, hi)
    requires Attributes(l, scan)
    ensures a in ReconcileTouched(l, scan, lo, hi) <==> Moves(l, Reconciled(l, scan, lo, hi), a)
  {
    var l' := Reconciled(l, scan, lo, hi);
    if a !in ReconcileTouched(l, scan, lo, hi) {
      ReconcileTouches(l, scan, lo, hi, a);
      assert forall u :: Sighting(l, u, a) == Sighting(l', u, a);
    } else if u :| u in l && Vanished(l, scan, lo, hi, u) && l[u].addr == a {
      assert Sighting(l, u, a) != Sighting(l', u, a);
    } else {
      var u :| u in scan && scan[u].addr == a && (!InWindow(l, u, lo, hi) || Differs(l[u], scan[u]));
      assert Sighting(l, u, a) != Sighting(l', u, a);
    }
  }

  lemma SplitMoves(l: Ledger, scan: Scan, lo: int, mid: int, hi: int, a: AddressId)
    requires lo <= mid + 1 <= hi + 1
    requires MinedWithin(scan, lo, hi)
    requires Attributes(l, scan)
    ensures var half := Reconciled(l, Slice(scan, lo, mid), lo, mid);
      var two := Reconciled(half, Slice(scan, mid + 1, hi), mid + 1, hi);
      Moves(l, Reconciled(l, scan, lo, hi), a) <==> Moves(l, half, a) || Moves(half, two, a)
  {
    var half := Reconciled(l, Slice(scan, lo, mid), lo, mid);
    var two := Reconciled(half, Slice(scan, mid + 1, hi), mid + 1, hi);
    SplitRows(l, scan, lo, mid, hi);
    forall u ensures Sighting(l, u, a) == Sighting(two, u, a)
                <==> Sighting(l, u, a) == Sighting(half, u, a) == Sighting(two, u, a)
    {
      SightingSplit(l, scan, lo, mid, hi, u, a);
    }
  }

  lemma SightingSplit(l: Ledger, scan: Scan, lo: int, mid: int, hi: int, u: Uid, a: AddressId)
    requires lo <= mid + 1 <= hi + 1
    requires MinedWithin(scan, lo, hi)
    requires Attributes(l, scan)
    ensures var half := Reconciled(l, Slice(scan, lo, mid), lo, mid);
      var two := Reconciled(half, Slice(scan, mid + 1, hi), mid + 1, hi);
      Sighting(l, u, a) == Sighting(two, u, a) ==> Sighting(l, u, a) == Sighting(half, u, a)
  {
    var half := Reconciled(l, Slice(scan, lo, mid), lo, mid);
    SplitRowAt(l, scan, lo, mid, hi, u);
    ReconciledRow(l, Slice(scan, lo, mid), lo, mid, u);
    ReconciledRow(half, Slice(scan, mid + 1, hi), mid + 1, hi, u);
  }

  /** The figures of an entry, without the notification bookkeeping. */
  function Figures(t: Entry): (nat, int, Reported, nat) {
    (t.finalized, t.recent, t.reported, t.tip)
  }

  /** Recomputing after each of two changes leaves the figures of recomputing once for both. */
  lemma TwoRecomputations(
    half: Ledger, two: Ledger, index: Index, left: set<AddressId>, right: set<AddressId>,
    tip: nat, finality: nat, required: Option<nat>, a: AddressId)
    requires a in index
    requires a !in right ==> Unmoved(half, two, a)
    ensures var indexHalf := RecomputeAll(half, index, left, tip, finality, required);
      Figures(RecomputeAll(two, indexHalf, right, tip, finality, required)[a])
        == Figures(RecomputeAll(two, index, left + right, tip, finality, required)[a])
  {
    if a !in right {
      UnmovedReports(half, two, a, required);
      UnmovedSelections(half, two, a);
    }
  }

  /** Reconciling two adjacent windows leaves the same rows and the same figures as one reconciliation. */
  lemma SplitReconciliation(
    l: Ledger, index: Index, scan: Scan, lo: int, mid: int, hi: int, tip: nat, finality: nat, required: Option<nat>)
    requires lo <= mid + 1 <= hi + 1
    requires MinedWithin(scan, lo, hi)
    requires Attributes(l, scan)
    ensures var first, second := Slice(scan, lo, mid), Slice(scan, mid + 1, hi);
      var half := Reconciled(l, first, lo, mid);
      var indexHalf := RecomputeAll(half, index, ReconcileTouched(l, first, lo, mid), tip, finality, required);
      var two := Reconciled(half, second, mid + 1, hi);
      var indexTwo := RecomputeAll(two, indexHalf, ReconcileTouched(half, second, mid + 1, hi), tip, finality, required);
      var one := Reconciled(l, scan, lo, hi);
      var indexOne := RecomputeAll(one, index, ReconcileTouched(l, scan, lo, hi), tip, finality, required);
      && two == one
      && forall a :: a in index ==> Figures(indexTwo[a]) == Figures(indexOne[a])
  {
    var first, second := Slice(scan, lo, mid), Slice(scan, mid + 1, hi);
    var half := Reconciled(l, first, lo, mid);
    var two := Reconciled(half, second, mid + 1, hi);
    var left, right := ReconcileTouched(l, first, lo, mid), ReconcileTouched(half, second, mid + 1, hi);
    SplitRows(l, scan, lo, mid, hi);
    SplitTouches(l, scan, lo, mid, hi);
    SplitAttributes(l, scan, lo, mid, hi);
    var indexTwo := RecomputeAll(two, RecomputeAll(half, index, left, tip, finality, required), right, tip, finality, required);
    forall a | a in index
      ensures Figures(indexTwo[a]) == Figures(RecomputeAll(two, index, left + right, tip, finality, required)[a])
    {
      if a !in right { ReconcileTouches(half, second, mid + 1, hi, a); }
      TwoRecomputations(half, two, index, left, right, tip, finality, required, a);
    }
  }

  lemma SplitAttributes(l: Ledger, scan: Scan, lo: int, mid: int, hi: int)
    requires Attributes(l, scan)
    ensures Attributes(l, Slice(scan, lo, mid))
    ensures Attributes(Reconciled(l, Slice(scan, lo, mid), lo, mid), Slice(scan, mid + 1, hi))
  {
    var half := Reconciled(l, Slice(scan, lo, mid), lo, mid);
    forall u | u in Slice(scan, mid + 1, hi) && u in half ensures half[u].addr == scan[u].addr {
      ReconciledRow(l, Slice(scan, lo, mid), lo, mid, u);
    }
  }

  /** Scanning `next` through `hi` in batches of `size` blocks; a size of zero acts as one. */
  function InBatches(l: Ledger, scan: Scan, next: int, hi: int, size: nat): Ledger
    decreases hi - next + 1
  {
    if next > hi then l
    else
      var end := Min(next + Max(size, 1) - 1, hi);
      InBatches(Reconciled(l, Slice(scan, next, end), next, end), scan, end + 1, hi, size)
  }

  lemma EmptyRange(l: Ledger, scan: Scan, lo: int, hi: int)
    requires lo > hi
    ensures Reconciled(l, Slice(scan, lo, hi), lo, hi) == l
  {
    forall u ensures Find(Reconciled(l, Slice(scan, lo, hi), lo, hi), u) == Find(l, u) {
      ReconciledRow(l, Slice(scan, lo, hi), lo, hi, u);
    }
    SameRows(Reconciled(l, Slice(scan, lo, hi), lo, hi), l);
  }

  lemma SliceWithin(scan: Scan, lo: int, hi: int)
    requires forall u :: u in scan ==> scan[u].kind.Mined?
    ensures MinedWithin(Slice(scan, lo, hi), lo, hi)
  {
  }

  /** However the range is cut into batches, the rows are those of a single reconciliation. */
  lemma {:induction false} BatchingKeepsMeaning(l: Ledger, scan: Scan, next: int, hi: int, size: nat)
    requires forall u :: u in scan ==> scan[u].kind.Mined?
    ensures InBatches(l, scan, next, hi, size) == Reconciled(l, Slice(scan, next, hi), next, hi)
    decreases hi - next + 1
  {
    hide Reconciled, Slice, MinedWithin;
    if next > hi {
      EmptyRange(l, scan, next, hi);
    } else {
      var end := Min(next + Max(size, 1) - 1, hi);
      BatchingKeepsMeaning(Reconciled(l, Slice(scan, next, end), next, end), scan, end + 1, hi, size);
      SliceOfSlice(scan, next, hi, next, end);
      SliceOfSlice(scan, next, hi, end + 1, hi);
      SliceWithin(scan, next, hi);
      SplitRows(l, Slice(scan, next, hi), next, end, hi);
    }
  }

  lemma SliceOfSlice(scan: Scan, lo: int, hi: int, from: int, to: int)
    requires lo <= from && to <= hi
    ensures Slice(Slice(scan, lo, hi), from, to) == Slice(scan, from, to)
  {
  }

  /** Scanning in batches with the index: every batch recomputes the addresses it touches. */
  ghost function BatchedIndex(
    l: Ledger, index: Index, scan: Scan, next: int, hi: int, size: nat, tip: nat, finality: nat, required: Option<nat>): Index
    decreases hi - next + 1
  {
    if next > hi then index
    else
      var end := Min(next + Max(size, 1) - 1, hi);
      var batch := Slice(scan, next, end);
      var half := Reconciled(l, batch, next, end);
      BatchedIndex(
        half, RecomputeAll(half, index, ReconcileTouched(l, batch, next, end), tip, finality, required),
        scan, end + 1, hi, size, tip, finality, required)
  }

  lemma EmptyTouches(l: Ledger, index: Index, scan: Scan, lo: int, hi: int, tip: nat, finality: nat, required: Option<nat>)
    requires lo > hi
    ensures RecomputeAll(Reconciled(l, Slice(scan, lo, hi), lo, hi), index, ReconcileTouched(l, Slice(scan, lo, hi), lo, hi),
                         tip, finality, required) == index
  {
    hide Recomputed;
    assert Slice(scan, lo, hi) == map[];
    assert ReconcileTouched(l, map[], lo, hi) == {};
  }

  /** Recomputing from entries with the same figures gives the same figures. */
  ghost predicate SameFigures(index: Index, index': Index) {
    index'.Keys == index.Keys && forall a :: a in index ==> Figures(index'[a]) == Figures(index[a])
  }

  lemma SliceAttributes(l: Ledger, scan: Scan, lo: int, hi: int)
    requires Attributes(l, scan)
    ensures Attributes(l, Slice(scan, lo, hi))
  {
  }

  lemma RestAttributes(l: Ledger, scan: Scan, lo: int, hi: int)
    requires Attributes(l, scan)
    ensures Attributes(Reconciled(l, Slice(scan, lo, hi), lo, hi), scan)
  {
    forall u | u in scan && u in Reconciled(l, Slice(scan, lo, hi), lo, hi)
      ensures Reconciled(l, Slice(scan, lo, hi), lo, hi)[u].addr == scan[u].addr
    {
      ReconciledRow(l, Slice(scan, lo, hi), lo, hi, u);
    }
  }

  /**
   * However the range is cut into batches, every address has the totals, the finalized part, the
   * array and the tip of a single reconciliation.
   */
  lemma {:induction false} BatchingKeepsFigures(
    l: Ledger, index: Index, scan: Scan, next: int, hi: int, size: nat, tip: nat, finality: nat, required: Option<nat>)
    requires Attributes(l, scan) && forall u :: u in scan ==> scan[u].kind.Mined?
    ensures var all := Slice(scan, next, hi);
      SameFigures(RecomputeAll(Reconciled(l, all, next, hi), index, ReconcileTouched(l, all, next, hi), tip, finality, required),
                  BatchedIndex(l, index, scan, next, hi, size, tip, finality, required))
    decreases hi - next + 1
  {
    hide Reconciled, ReconcileTouched, RecomputeAll, Slice, Attributes, MinedWithin;
    if next > hi {
      EmptyTouches(l, index, scan, next, hi, tip, finality, required);
    } else {
      var end := Min(next + Max(size, 1) - 1, hi);
      var all, batch, rest := Slice(scan, next, hi), Slice(scan, next, end), Slice(scan, end + 1, hi);
      var half := Reconciled(l, batch, next, end);
      var indexHalf := RecomputeAll(half, index, ReconcileTouched(l, batch, next, end), tip, finality, required);
      RestAttributes(l, scan, next, end);
      BatchingKeepsFigures(half, indexHalf, scan, end + 1, hi, size, tip, finality, required);
      SliceOfSlice(scan, next, hi, next, end);
      SliceOfSlice(scan, next, hi, end + 1, hi);
      SliceWithin(scan, next, hi);
      SliceAttributes(l, scan, next, hi);
      SplitReconciliation(l, index, all, next, end, hi, tip, finality, required);
      SameKeys(indexHalf, Reconciled(half, rest, end + 1, hi), ReconcileTouched(half, rest, end + 1, hi), tip, finality, required);
      SameKeys(index, half, ReconcileTouched(l, batch, next, end), tip, finality, required);
      SameKeys(index, Reconciled(l, all, next, hi), ReconcileTouched(l, all, next, hi), tip, finality, required);
    }
  }

  lemma SameKeys(index: Index, l': Ledger, touched: set<AddressId>, tip: nat, finality: nat, required: Option<nat>)
    ensures RecomputeAll(l', index, touched, tip, finality, required).Keys == index.Keys
  {
    hide Recomputed;
  }

  // ------------------------------------------------------------------ repetition

  /** Two scans of the same blocks at the same tip: only the observation times differ. */
  predicate SameScan(scan: Scan, again: Scan) {
    && scan.Keys == again.Keys
    && forall u :: u in scan ==> again[u].(firstSeen := 0) == scan[u].(firstSeen := 0)
  }

  /** What a scan left it finds again: no row differs and none has vanished. */
  lemma SecondScan(l: Ledger, scan: Scan, again: Scan, lo: int, hi: int)
    requires MinedWithin(scan, lo, hi) && SameScan(scan, again)
    ensures var once := Reconciled(l, scan, lo, hi);
      && (forall u :: u in again ==> InWindow(once, u, lo, hi) && !Differs(once[u], again[u]))
      && (forall u :: !Vanished(once, again, lo, hi, u))
  {
    var once := Reconciled(l, scan, lo, hi);
    forall u | u in again ensures InWindow(once, u, lo, hi) && !Differs(once[u], again[u]) {
      assert again[u].(firstSeen := 0) == scan[u].(firstSeen := 0);
    }
    forall u ensures !Vanished(once, again, lo, hi, u) { }
  }

  lemma SecondScanRow(once: Ledger, again: Scan, lo: int, hi: int, u: Uid, a: AddressId)
    requires u in again ==> InWindow(once, u, lo, hi) && !Differs(once[u], again[u])
    requires !Vanished(once, again, lo, hi, u)
    ensures Sighting(once, u, a) == Sighting(Reconciled(once, again, lo, hi), u, a)
  {
  }

  /** Repeating a reconciliation at the same tip touches no address, so it changes no entry of the index. */
  lemma RepeatedReconciliation(
    l: Ledger, index: Index, scan: Scan, again: Scan, lo: int, hi: int, tip: nat, finality: nat, required: Option<nat>)
    requires MinedWithin(scan, lo, hi)
    requires SameScan(scan, again)
    ensures var once := Reconciled(l, scan, lo, hi);
      && ReconcileTouched(once, again, lo, hi) == {}
      && RecomputeAll(Reconciled(once, again, lo, hi), index, ReconcileTouched(once, again, lo, hi), tip, finality, required)
         == index
      && forall a :: Unmoved(once, Reconciled(once, again, lo, hi), a)
  {
    hide Reconciled, Vanished, Differs, Sighting, Recomputed;
    var once := Reconciled(l, scan, lo, hi);
    SecondScan(l, scan, again, lo, hi);
    assert ReconcileTouched(once, again, lo, hi) == {};
    forall a ensures Unmoved(once, Reconciled(once, again, lo, hi), a) {
      forall u ensures Sighting(once, u, a) == Sighting(Reconciled(once, again, lo, hi), u, a) {
        SecondScanRow(once, again, lo, hi, u, a);
      }
    }
  }
}
