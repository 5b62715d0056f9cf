/** Runs that show where the service does less than one might expect. */
module Witnesses {
  import opened Common
  import opened Sums
  import opened Receipts
  import opened TotalsIndex
  import opened Outbox
  import opened Database
  import Vendure
  import opened ShopAtRest

  /** One receipt of the address 1. */
  function Payment(value: nat, height: nat, depth: nat): Attributed {
    Attributed(Uid("tx", "orchard", 0), 1, value, height, depth, true, Mined, 0)
  }

  function Held(r: Attributed): Ledger {
    map[r.uid := Upserted(None, r)]
  }

  lemma ExtendRun(run: seq<Db>, required: Option<nat>, cfg: Config, op: Op)
    requires IsRun(run, required, cfg) && Enabled(run[|run| - 1], op)
    ensures IsRun(run + [Next(run[|run| - 1], op, cfg)], required, cfg)
  {
    hide Enabled, Next;
    var next := Next(run[|run| - 1], op, cfg);
    var longer := run + [next];
    forall i | 0 <= i < |longer| - 1 ensures Step(longer[i], longer[i + 1], cfg) {
      if i < |run| - 1 {
        assert Step(run[i], run[i + 1], cfg);
      } else {
        assert longer[i] == run[|run| - 1] && longer[i + 1] == next;
      }
    }
  }

  lemma One(u: Uid, v: nat)
    ensures Total(map[u := v]) == v
  {
    var w := map[u := v];
    TotalRemove(w, u);
    assert w - {u} == map[];
  }

  /** The entry of the address after the receipt was applied at `tip`. */
  ghost function PaidEntry(t: Entry, r: Attributed, tip: nat, cfg: Config): Entry {
    Recomputed(Held(r), 1, t, tip, cfg.finality, None)
  }

  lemma PaidTotal(r: Attributed)
    requires r == Payment(r.value, r.height, r.depth)
    ensures Total(Eligible(Held(r), 1)) == r.value
  {
    assert Eligible(Held(r), 1) == map[r.uid := r.value];
    One(r.uid, r.value);
  }

  lemma ApplyOne(db: Db, r: Attributed, tip: nat, cfg: Config)
    requires r == Payment(r.value, r.height, r.depth)
    requires db.required.None? && db.box.index.Keys == {1}
    requires db.ledger == map[] || (db.ledger.Keys == {r.uid} && db.ledger[r.uid] == Upserted(None, r).(active := false))
    ensures Enabled(db, Receive(Apply([r], tip)))
    ensures Next(db, Receive(Apply([r], tip)), cfg)
         == db.(ledger := Held(r), box := db.box.(index := map[1 := PaidEntry(db.box.index[1], r, tip, cfg)]))
  {
    assert [r][..0] == [];
    assert UpsertAll(db.ledger, []) == db.ledger;
    assert UpsertAll(db.ledger, [r]) == db.ledger[r.uid := Upserted(Find(db.ledger, r.uid), r)];
    assert UpsertAll(db.ledger, [r]) == Held(r);
    assert AddressesOf([r]) == {1} by { assert r in [r]; }
    assert RecomputeAll(Held(r), db.box.index, {1}, tip, cfg.finality, None)
        == map[1 := PaidEntry(db.box.index[1], r, tip, cfg)];
  }

  /** The address is issued and paid. */
  lemma PaidRun(r: Attributed, tip: nat, cfg: Config) returns (run: seq<Db>)
    requires r == Payment(r.value, r.height, r.depth)
    ensures IsRun(run, None, cfg)
    ensures run[|run| - 1] == Db(Held(r), Box([], map[1 := PaidEntry(NEW_ENTRY, r, tip, cfg)], []), None, 0, 0)
  {
    hide Recomputed;
    run := [Initial(None)];
    ExtendRun(run, None, cfg, Issue(1));
    var issued := Next(Initial(None), Issue(1), cfg);
    assert issued.box.index == map[1 := NEW_ENTRY];
    run := run + [issued];
    ApplyOne(issued, r, tip, cfg);
    ExtendRun(run, None, cfg, Receive(Apply([r], tip)));
    run := run + [Next(issued, Receive(Apply([r], tip)), cfg)];
  }

  function Event(r: Attributed, state: DeliveryState): Delivery {
    Delivery(1, 1, Reported(r.value, None), 0, state, 0, None)
  }

  /** A payment, its event queued and claimed. */
  lemma SendingRun(r: Attributed, tip: nat, cfg: Config) returns (run: seq<Db>)
    requires r == Payment(r.value, r.height, r.depth) && r.value > 0
    ensures IsRun(run, None, cfg)
    ensures run[|run| - 1] == Db(
      Held(r),
      Box([Event(r, Sending)], map[1 := PaidEntry(NEW_ENTRY, r, tip, cfg).(notice := QueuedForWebhook)], []), None, 0, 0)
  {
    run := PaidRun(r, tip, cfg);
    var paid := run[|run| - 1];
    ExtendRun(run, None, cfg, Enqueue([1], 0));
    EnqueueFirst(paid, r, tip, cfg);
    var queued := Next(paid, Enqueue([1], 0), cfg);
    run := run + [queued];
    assert IsNextReady(queued.box.deliveries, 0, 0);
    ExtendRun(run, None, cfg, Claim(0, 0));
    assert Next(queued, Claim(0, 0), cfg).box.deliveries == [Event(r, Sending)];
    run := run + [Next(queued, Claim(0, 0), cfg)];
  }

  lemma EnqueueFirst(paid: Db, r: Attributed, tip: nat, cfg: Config)
    requires r == Payment(r.value, r.height, r.depth) && r.value > 0
    requires paid == Db(Held(r), Box([], map[1 := PaidEntry(NEW_ENTRY, r, tip, cfg)], []), None, 0, 0)
    ensures Next(paid, Enqueue([1], 0), cfg) == paid.(box := Box(
      [Event(r, Queued)], map[1 := PaidEntry(NEW_ENTRY, r, tip, cfg).(notice := QueuedForWebhook)], []))
  {
    PaidTotal(r);
    assert [1][..0] == [];
    assert EnqueuedAll(paid.box, [], 0) == paid.box;
    assert EnqueuedAll(paid.box, [1], 0) == Enqueued(paid.box, 1, 0);
  }

  // ------------------------------------------------------------------ the witnesses

  /** A chain of two blocks with finality 3: a receipt in block 0 counts as final at depth 2. */
  lemma FinalizedTooEarly() returns (run: seq<Db>, cfg: Config)
    ensures IsRun(run, None, cfg) && cfg.finality >= 1
    ensures var db := run[|run| - 1];
      1 in db.box.index
      && db.box.index[1].finalized != Total(AtDepth(db.ledger, 1, cfg.finality, db.box.index[1].tip))
  {
    var r := Payment(5, 0, 2);
    cfg := Config(0, 3, 1);
    run := PaidRun(r, 1, cfg);
    assert Premature(Held(r), 1) == map[r.uid := 5];
    One(r.uid, 5);
    FinalizedIsDeep(Held(r), 1, 1, 3);
  }

  /** One payment, one delivery, one refusal: the quiet address's total never reaches the receiver. */
  lemma RefusedDeliveryIsLost(cfg: Config) returns (run: seq<Db>)
    ensures IsRun(run, None, cfg)
    ensures var b := run[|run| - 1].box;
      1 in b.index && !b.index[1].notice.Dirty? && b.index[1].reported.total == 7
      && b.index[1].reported != LastWord(b.deliveries, 1, b.index[1])
      && forall i :: 0 <= i < |b.deliveries| ==> !Outstanding(b.deliveries[i])
  {
    var r := Payment(7, 1, 1);
    run := SendingRun(r, 1, cfg);
    PaidTotal(r);
    var sending := run[|run| - 1];
    ExtendRun(run, None, cfg, Finish(0, Status(400), 0, 0));
    var refused := Next(sending, Finish(0, Status(400), 0, 0), cfg);
    assert refused.box == GivenUp(sending.box, 0);
    run := run + [refused];
  }

  /** A payment whose only event was delivered. */
  lemma NotifiedRun(cfg: Config) returns (run: seq<Db>)
    ensures IsRun(run, None, cfg)
    ensures var b := run[|run| - 1].box;
      1 in b.index && b.index[1].notice.Clean? && b.index[1].reported == Reported(7, None)
      && b.index[1].reported == LastWord(b.deliveries, 1, b.index[1])
  {
    var r := Payment(7, 1, 1);
    run := SendingRun(r, 1, cfg);
    PaidTotal(r);
    var sending := run[|run| - 1];
    ExtendRun(run, None, cfg, Finish(0, Status(200), 0, 0));
    AckedOnce(sending.box, 0);
    run := run + [Next(sending, Finish(0, Status(200), 0, 0), cfg)];
  }

  lemma AckedOnce(b: Box, now: Time)
    requires |b.deliveries| == 1 && b.index.Keys == {1}
    requires b.deliveries[0].addr == 1 && b.deliveries[0].state.Sending?
    requires b.index[1].acked.None? && b.index[1].reported == b.deliveries[0].reported
    ensures var c := Acknowledged(b, 0, now);
      1 in c.index && c.index[1].notice.Clean? && Newest(c.deliveries, 1, c.index[1]) < 0
      && c.index[1].reported == b.index[1].reported == LastWord(c.deliveries, 1, c.index[1])
  {
    var e := AckMoved(b, 0);
    assert e.deliveries[0].state.Succeeded?;
    assert Carries(e.deliveries[0], 1, b.deliveries[0].version);
    assert Newest(e.deliveries, 1, e.index[1]) < 0;
  }

  /** Turning the setting on gives a paid, fully notified address an array that no event announces. */
  lemma RebuildLosesArray(cfg: Config, wanted: nat) returns (run: seq<Db>)
    requires 0 < cfg.maxAttempts <= U32_MAX
    ensures IsRun(run, None, cfg)
    ensures var db := run[|run| - 1];
      && 1 in db.box.index && db.box.index[1].notice.Clean? && db.box.index[1].reported.total == 7
      && db.box.index[1].reported == LastWord(db.box.deliveries, 1, db.box.index[1])
    ensures var db' := Rebuilt(run[|run| - 1], Some(wanted));
      && 1 in db'.box.index && db'.box.index[1].notice.Clean?
      && Reading(db'.box.index[1], Some(wanted)) != Some(Zeros(wanted))
      && db'.box.index[1].reported != LastWord(db'.box.deliveries, 1, db'.box.index[1])
  {
    hide IsRun, OutboxOk, AttemptsOk, RowsKnown, LastWord;
    run := NotifiedRun(cfg);
    var db := run[|run| - 1];
    RunsAreOk(run, None, cfg, |run| - 1);
    RebuildIsSilent(db, Some(wanted), 1, cfg.finality);
    RebuiltStarts(db.ledger, 1, db.box.index[1], cfg.finality, wanted);
  }

  /** A rebuilt array starts with the total, so that of a paid address is not all zeros. */
  lemma RebuiltStarts(l: Ledger, a: AddressId, t: Entry, finality: nat, wanted: nat)
    requires EntryAgrees(l, a, t, finality, None) && t.reported.total > 0
    ensures Reading(RebuiltEntry(l, a, t, Some(wanted)), Some(wanted)) != Some(Zeros(wanted))
  {
    assert AtDepth(l, a, 0, t.tip) == Eligible(l, a);
    assert ArrayAt(l, a, t.tip, wanted)[0] == t.reported.total;
  }

  // ------------------------------------------------------------------ an event that is disowned

  lemma RevokeOne(db: Db, r: Attributed, cfg: Config)
    requires r == Payment(r.value, 1, r.depth) && db.ledger == Held(r)
    requires db.required.None? && db.box.index.Keys == {1}
    ensures var op := Receive(RevokeAbove(0));
      && Enabled(db, op)
      && Next(db, op, cfg).ledger == map[r.uid := Upserted(None, r).(active := false)]
      && Next(db, op, cfg).box.index.Keys == {1}
      && Next(db, op, cfg).box == db.box.(index := Next(db, op, cfg).box.index)
      && Next(db, op, cfg).box.index[1].reported == Reported(0, None)
      && Next(db, op, cfg).box.index[1].acked == db.box.index[1].acked
      && Next(db, op, cfg) == db.(ledger := Next(db, op, cfg).ledger, box := Next(db, op, cfg).box)
  {
    var l' := RevokedAbove(db.ledger, 0);
    assert AboveTip(db.ledger[r.uid], 0);
    assert db.ledger[r.uid].addr in RevokeTouched(db.ledger, 0);
    assert l' == map[r.uid := Upserted(None, r).(active := false)];
    assert Eligible(l', 1) == map[];
  }

  /** While the event of a payment of 10 is being sent, the total falls to 0 and recovers. */
  lemma DipRun(cfg: Config) returns (run: seq<Db>)
    ensures IsRun(run, None, cfg) && |run| >= 3
    ensures run[|run| - 3].box.deliveries == [Event(Payment(10, 1, 1), Sending)]
    ensures 1 in run[|run| - 2].box.index && run[|run| - 2].box.index[1].reported == Reported(0, None)
    ensures var b := run[|run| - 1].box;
      b.deliveries == [Event(Payment(10, 1, 1), Sending)] && b.index.Keys == {1}
      && b.index[1].acked.None? && b.index[1].reported == Reported(10, None)
  {
    hide IsRun, Enabled;
    var r := Payment(10, 1, 1);
    run := SendingRun(r, 1, cfg);
    PaidTotal(r);
    var sending := run[|run| - 1];
    RevokeOne(sending, r, cfg);
    var fallen := Next(sending, Receive(RevokeAbove(0)), cfg);
    ExtendRun(run, None, cfg, Receive(RevokeAbove(0)));
    ApplyOne(fallen, r, 1, cfg);
    var back := Next(fallen, Receive(Apply([r], 1)), cfg);
    run := run + [fallen];
    ExtendRun(run, None, cfg, Receive(Apply([r], 1)));
    run := run + [back];
    PaidAgain(fallen.box.index[1], r, cfg);
  }

  lemma PaidAgain(t: Entry, r: Attributed, cfg: Config)
    requires r == Payment(r.value, r.height, r.depth)
    ensures var t' := PaidEntry(t, r, 1, cfg); t'.acked == t.acked && t'.reported == Reported(r.value, None)
  {
    PaidTotal(r);
  }

  /**
   * The service's total falls below the amount due while the shop asks, and recovers before the
   * success is recorded: the pair is then the acknowledged one, no event follows, and a payment
   * the service considers covered stays unsettled. State `asked` of the run is the one the live
   * answer was given in.
   */
  lemma DisownedEventCanBeTheLast(cfg: Config)
    returns (run: seq<Db>, sent: nat, asked: nat, shop: Vendure.Shop, o: Vendure.Observation, settlement: Vendure.Settlement)
    ensures IsRun(run, None, cfg) && sent < asked < |run| - 1
    ensures run[sent].box.deliveries == [Event(Payment(10, 1, 1), Sending)]
    ensures 1 in run[asked].box.index && o == Vendure.Observation(10, 10, 1)
    ensures var (shop', reply) := Vendure.Step(shop, o, Some(run[asked].box.index[1].reported.total), settlement);
      shop' == shop && Acknowledges(reply) && !Vendure.Paid(shop')
    ensures var b := run[|run| - 1].box;
      1 in b.index && b.index[1].notice.Clean? && Newest(b.deliveries, 1, b.index[1]) < 0
      && b.index[1].reported == LastWord(b.deliveries, 1, b.index[1]) && b.index[1].reported.total == 10 >= shop.due
  {
    hide IsRun, LastWord, Newest;
    o, settlement := Vendure.Observation(10, 10, 1), Vendure.Refused;
    shop := Vendure.Shop(Vendure.Authorized, [], false, 10, Vendure.ZcashState(0, 0, None, false, false));
    run := DipRun(cfg);
    sent, asked := |run| - 3, |run| - 2;
    var back := run[|run| - 1];
    AckedOnce(back.box, 0);
    ExtendRun(run, None, cfg, Finish(0, Status(200), 0, 0));
    run := run + [Next(back, Finish(0, Status(200), 0, 0), cfg)];
  }
}
