/** Attribution of scanned receipts to issued addresses. */
module Ingest {
  import opened Common
  import opened Receipts
  import opened TotalsIndex
  import opened Reconciliation

  const I64_MAX: nat := 0x7FFF_FFFF_FFFF_FFFF

  /** A receipt as the scanner found it; `isMempool` receipts are in no block yet. */
  datatype Incoming = Incoming(uid: Uid, fingerprint: seq<nat>, value: nat, height: nat, isMempool: bool)

  datatype ScanError = ValueOverflow

  /** The receivers of the issued addresses, unique per pool. */
  type Receivers = map<(string, seq<nat>), AddressId>

  predicate Issued(receivers: Receivers, r: Incoming) {
    (r.uid.pool, r.fingerprint) in receivers
  }

  function Owner(receivers: Receivers, r: Incoming): AddressId
    requires Issued(receivers, r)
  {
    receivers[(r.uid.pool, r.fingerprint)]
  }

  function Depth(r: Incoming, tip: nat): nat {
    if r.isMempool then 0 else DepthAt(tip, r.height)
  }

  function Attribute(receivers: Receivers, r: Incoming, tip: nat, report: nat, now: Time): Attributed
    requires Issued(receivers, r)
  {
    Attributed(r.uid, Owner(receivers, r), r.value, r.height, Depth(r, tip), Depth(r, tip) >= report,
               if r.isMempool then Mempool else Mined, now)
  }

  /** The receipts of issued addresses, in the order they were scanned. */
  function AttributeAll(receivers: Receivers, rs: seq<Incoming>, tip: nat, report: nat, now: Time): seq<Attributed> {
    if rs == [] then []
    else
      var init, r := AttributeAll(receivers, rs[..|rs| - 1], tip, report, now), rs[|rs| - 1];
      if Issued(receivers, r) then init + [Attribute(receivers, r, tip, report, now)] else init
  }

  method AttributeScannedReceipts(receivers: Receivers, rs: seq<Incoming>, tip: nat, report: nat, now: Time)
    returns (result: Result<seq<Attributed>, ScanError>)
    ensures result.Err? <==> exists r :: r in rs && Issued(receivers, r) && r.value > 9_223_372_036_854_775_807
    ensures result.Ok? ==> result.value == AttributeAll(receivers, rs, tip, report, now)
  {
    var attributed: seq<Attributed> := [];
    for i := 0 to |rs|
      invariant attributed == AttributeAll(receivers, rs[..i], tip, report, now)
      invariant forall j :: 0 <= j < i && Issued(receivers, rs[j]) ==> rs[j].value <= I64_MAX
    {
      var r := rs[i];
      assert rs[..i + 1][..i] == rs[..i];
      if !Issued(receivers, r) {
        continue;
      }
      var depth, eligible := 0, report == 0;
      if !r.isMempool {
        depth := if tip >= r.height then tip - r.height + 1 else 0;
        eligible := depth >= report;
      }
      if r.value > I64_MAX {
        return Err(ValueOverflow);
      }
      attributed := attributed + [Attributed(
        r.uid, Owner(receivers, r), r.value, r.height, depth, eligible, if r.isMempool then Mempool else Mined, now)];
    }
    assert rs[..|rs|] == rs;
    result := Ok(attributed);
  }

  // ------------------------------------------------------------------ what the sync worker gets

  ghost predicate ComesFrom(receivers: Receivers, rs: seq<Incoming>, q: Attributed, tip: nat, report: nat, now: Time) {
    exists r :: r in rs && Issued(receivers, r) && q == Attribute(receivers, r, tip, report, now)
  }

  lemma {:induction false} AttributedFrom(receivers: Receivers, rs: seq<Incoming>, tip: nat, report: nat, now: Time)
    ensures forall q :: q in AttributeAll(receivers, rs, tip, report, now) ==> ComesFrom(receivers, rs, q, tip, report, now)
    ensures forall r :: r in rs && Issued(receivers, r) ==>
      Attribute(receivers, r, tip, report, now) in AttributeAll(receivers, rs, tip, report, now)
  {
    if rs != [] {
      var init, r := rs[..|rs| - 1], rs[|rs| - 1];
      AttributedFrom(receivers, init, tip, report, now);
      assert rs == init + [r];
      forall q | q in AttributeAll(receivers, rs, tip, report, now) ensures ComesFrom(receivers, rs, q, tip, report, now) {
        assert ComesFrom(receivers, init, q, tip, report, now) || (r in rs && q == Attribute(receivers, r, tip, report, now));
      }
    }
  }

  /** The outputs of the node's blocks, and the part of them that issued addresses receive. */
  type Outputs = map<Uid, Incoming>

  predicate InBlocks(outputs: Outputs) {
    forall u :: u in outputs ==> outputs[u].uid == u && !outputs[u].isMempool
  }

  function OwnChain(receivers: Receivers, outputs: Outputs): Chain {
    map u | u in outputs && Issued(receivers, outputs[u]) ::
      OnChain(Owner(receivers, outputs[u]), outputs[u].value, outputs[u].height)
  }

  /** The scanner read exactly the outputs of the blocks `lo` through `hi`. */
  ghost predicate Reads(rs: seq<Incoming>, outputs: Outputs, lo: int, hi: int) {
    forall r :: r in rs <==> r.uid in outputs && outputs[r.uid] == r && lo <= r.height <= hi
  }

  /** What a scan of blocks hands to reconciliation is the scan of the issued addresses' chain. */
  lemma AttributionIsScan(
    receivers: Receivers, outputs: Outputs, rs: seq<Incoming>, lo: int, hi: int, tip: nat, report: nat, now: Time)
    requires InBlocks(outputs) && Reads(rs, outputs, lo, hi)
    ensures IsScan(ScanMap(AttributeAll(receivers, rs, tip, report, now)), OwnChain(receivers, outputs), lo, hi, tip, report)
  {
    var out := AttributeAll(receivers, rs, tip, report, now);
    var scan, c := ScanMap(out), OwnChain(receivers, outputs);
    AttributedFrom(receivers, rs, tip, report, now);
    forall u
      ensures u in scan <==> u in Between(c, lo, hi)
      ensures u in scan ==> scan[u] == Attribute(receivers, outputs[u], tip, report, now)
    {
      if u in scan {
        assert ComesFrom(receivers, rs, scan[u], tip, report, now);
        var r :| r in rs && Issued(receivers, r) && scan[u] == Attribute(receivers, r, tip, report, now);
        assert outputs[u] == r;
      }
      if u in Between(c, lo, hi) {
        assert outputs[u] in rs;
        assert Attribute(receivers, outputs[u], tip, report, now) in out;
      }
    }
  }

  /** Receipts are attributed one by one, in the order they were scanned. */
  lemma {:induction false} AttributedInOrder(
    receivers: Receivers, rs: seq<Incoming>, qs: seq<Incoming>, tip: nat, report: nat, now: Time)
    ensures AttributeAll(receivers, rs + qs, tip, report, now)
         == AttributeAll(receivers, rs, tip, report, now) + AttributeAll(receivers, qs, tip, report, now)
    ensures |AttributeAll(receivers, qs, tip, report, now)| <= |qs|
  {
    if qs == [] {
      assert rs + qs == rs;
    } else {
      AttributedInOrder(receivers, rs, qs[..|qs| - 1], tip, report, now);
      assert (rs + qs)[..|rs + qs| - 1] == rs + qs[..|qs| - 1];
    }
  }

  /** A receipt keeps its value and gets its owner, and its clock starts with the reading. */
  lemma AttributedExactly(receivers: Receivers, rs: seq<Incoming>, tip: nat, report: nat, now: Time, q: Attributed)
    ensures q in AttributeAll(receivers, rs, tip, report, now) <==>
      exists r :: r in rs && (r.uid.pool, r.fingerprint) in receivers
        && q.uid == r.uid && q.addr == receivers[(r.uid.pool, r.fingerprint)] && q.value == r.value && q.height == r.height
        && q.depth == (if r.isMempool || r.height > tip then 0 else tip - r.height + 1) && q.eligible == (q.depth >= report)
        && q.kind.Mempool? == r.isMempool && q.firstSeen == now
  {
    AttributedFrom(receivers, rs, tip, report, now);
    if q in AttributeAll(receivers, rs, tip, report, now) {
      assert ComesFrom(receivers, rs, q, tip, report, now);
    }
    forall r | r in rs && Issued(receivers, r) && q == Attribute(receivers, r, tip, report, now)
      ensures q in AttributeAll(receivers, rs, tip, report, now) { }
  }

  /** What a reading of the mempool hands to the snapshot is provisional, and only issued addresses'. */
  lemma AttributionIsProvisional(receivers: Receivers, rs: seq<Incoming>, tip: nat, report: nat, now: Time)
    requires forall r :: r in rs ==> r.isMempool && r.height == 0
    ensures forall q :: q in AttributeAll(receivers, rs, tip, report, now) ==>
      IsProvisional(q) && q.eligible == (report == 0) && exists r :: r in rs && r.uid == q.uid
  {
    AttributedFrom(receivers, rs, tip, report, now);
    forall q | q in AttributeAll(receivers, rs, tip, report, now)
      ensures IsProvisional(q) && q.eligible == (report == 0) && exists r :: r in rs && r.uid == q.uid
    {
      assert ComesFrom(receivers, rs, q, tip, report, now);
    }
  }
}
