/**
 * The Vendure plugin's webhook: it settles a payment once, holds it when its funds drop, and
 * releases only its own hold.
 */
module Vendure {
  import opened Common

  datatype PaymentState = Created | Authorized | Settled | Cancelled | Declined | Error

  datatype RefundState = RefundPending | RefundSettled | RefundFailed

  /** What the plugin remembers in the payment's metadata. */
  datatype ZcashState = ZcashState(version: nat, received: nat, seen: Option<nat>, hold: bool, review: bool)

  /** The payment row and the order it pays. `due` is the amount set when the address was issued. */
  datatype Shop = Shop(payment: PaymentState, refunds: seq<RefundState>, orderCancelled: bool, due: int, zcash: ZcashState)

  /** `settled` has the required confirmations; `seen` includes the mempool. */
  datatype Observation = Observation(settled: nat, seen: nat, version: nat)

  datatype Decision = Stale | Review(hold: bool) | Hold | Release | Note | Capture | Pending | Partial

  datatype Reply = Applied | IgnoredStale | IgnoredSuperseded | RetryLater

  /** What the order service makes of a settlement. */
  datatype Settlement = Refused | Reached(payment: PaymentState, orderCancelled: bool)

  predicate Short(total: nat, due: int) { due > 0 && total < due }

  predicate Paid(s: Shop) { s.payment.Settled? }

  predicate Refunded(refunds: seq<RefundState>) {
    exists i :: 0 <= i < |refunds| && !refunds[i].RefundFailed?
  }

  predicate Closed(s: Shop) {
    || s.orderCancelled
    || s.payment.Cancelled? || s.payment.Declined? || s.payment.Error?
    || Refunded(s.refunds)
  }

  function Decide(z: ZcashState, o: Observation, due: int, paid: bool, closed: bool): Decision {
    if o.version <= z.version then Stale
    else if z.review || closed then Review(paid && Short(o.settled, due))
    else if paid then
      if Short(o.settled, due) then Hold
      else if z.hold then Release
      else Note
    else if due > 0 && o.settled >= due then Capture
    else if due > 0 && o.seen >= due then Pending
    else Partial
  }

  lemma Standing(s: Shop)
    ensures Paid(s) <==> s.payment.Settled?
    ensures Closed(s) <==>
      s.orderCancelled || s.payment.Cancelled? || s.payment.Declined? || s.payment.Error? || Refunded(s.refunds)
  {
  }

  /** The state an applied event leaves, before holds and review flags. */
  function Observed(z: ZcashState, o: Observation): ZcashState {
    z.(version := o.version, received := o.settled, seen := Some(o.seen))
  }

  function Recorded(s: Shop, z: ZcashState): (Shop, Reply) {
    (s.(zcash := z), Applied)
  }

  /** Before money is acted on, the service is asked: it may not answer, or disown the event. */
  function Asked(s: Shop, live: Option<nat>, confirmed: (Shop, Reply)): (Shop, Reply) {
    if live.None? then (s, RetryLater)
    else if live.value < s.due then (s, IgnoredSuperseded)
    else confirmed
  }

  function Captured(s: Shop, z: ZcashState, settlement: Settlement): (Shop, Reply) {
    if settlement.Refused? || !settlement.payment.Settled? then (s, RetryLater)
    else
      Recorded(s.(payment := Settled, orderCancelled := settlement.orderCancelled),
               z.(review := z.review || settlement.orderCancelled))
  }

  /** One event. `live` is the service's own answer, if it gave one. */
  function Step(s: Shop, o: Observation, live: Option<nat>, settlement: Settlement): (Shop, Reply) {
    var z := Observed(s.zcash, o);
    match Decide(s.zcash, o, s.due, Paid(s), Closed(s))
    case Stale => (s, IgnoredStale)
    case Review(hold) => Recorded(s, z.(review := true, hold := z.hold || hold))
    case Hold => Recorded(s, z.(hold := true))
    case Release => Asked(s, live, Recorded(s, z.(hold := false)))
    case Capture => Asked(s, live, Captured(s, z, settlement))
    case _ => Recorded(s, z)
  }

  /** The rows one webhook transaction works on; an exception rolls the transaction back. */
  class PaymentRecord {
    var payment: PaymentState
    var refunds: seq<RefundState>
    var orderCancelled: bool
    var due: int
    var zcash: ZcashState

    ghost function Value(): Shop
      reads this
    {
      Shop(payment, refunds, orderCancelled, due, zcash)
    }

    constructor (due: int)
      ensures Value() == Shop(Authorized, [], false, due, ZcashState(0, 0, None, false, false))
    {
      payment, refunds, orderCancelled, this.due := Authorized, [], false, due;
      zcash := ZcashState(0, 0, None, false, false);
    }

    method Apply(o: Observation, live: Option<nat>, settlement: Settlement) returns (reply: Reply)
      modifies this
      ensures Value() == Step(old(Value()), o, live, settlement).0
      ensures reply == Step(old(Value()), o, live, settlement).1
    {
      hide Decide, Refunded, Closed, Paid, Captured;
      ghost var s := Value();
      var paid := payment.Settled?;
      var closed := orderCancelled || payment.Cancelled? || payment.Declined? || payment.Error? || Refunded(refunds);
      assert paid == Paid(s) && closed == Closed(s) by { Standing(s); }
      var next := zcash.(version := o.version, received := o.settled, seen := Some(o.seen));
      match Decide(zcash, o, due, paid, closed) {
        case Stale =>
          return IgnoredStale;
        case Review(hold) =>
          next := next.(review := true);
          if hold && !zcash.hold {
            next := next.(hold := true);
          }
        case Hold =>
          if !zcash.hold {
            next := next.(hold := true);
          }
        case Release =>
          if live.None? {
            return RetryLater;
          }
          if live.value < due {
            return IgnoredSuperseded;
          }
          next := next.(hold := false);
        case Capture =>
          if live.None? {
            return RetryLater;
          }
          if live.value < due {
            return IgnoredSuperseded;
          }
          reply := Settle(next, settlement);
          return;
        case _ =>
      }
      zcash := next;
      reply := Applied;
    }

    /** Asks the order service to settle; a settlement that cancelled the order needs a review. */
    method Settle(next: ZcashState, settlement: Settlement) returns (reply: Reply)
      modifies this
      ensures Value() == Captured(old(Value()), next, settlement).0
      ensures reply == Captured(old(Value()), next, settlement).1
    {
      if settlement.Refused? || !settlement.payment.Settled? {
        return RetryLater;
      }
      payment, orderCancelled, zcash := settlement.payment, settlement.orderCancelled, next;
      if orderCancelled {
        zcash := zcash.(review := true);
      }
      reply := Applied;
    }
  }

  // ------------------------------------------------------------------ one event

  /** An event is recorded exactly when the reply says so, and then it was newer than all before. */
  lemma RecordsOnlyNewer(s: Shop, o: Observation, live: Option<nat>, settlement: Settlement)
    ensures var (s', reply) := Step(s, o, live, settlement);
      && (reply.Applied? ==> o.version > s.zcash.version && s'.zcash.version == o.version && s'.zcash.received == o.settled)
      && (!reply.Applied? ==> s' == s)
      && (reply.IgnoredStale? <==> o.version <= s.zcash.version)
  {
  }

  predicate Settles(s: Shop, s': Shop) {
    !Paid(s) && Paid(s')
  }

  /** The event settles exactly an open, unflagged payment that both the event and the service cover. */
  lemma SettlesExactly(s: Shop, o: Observation, live: Option<nat>, settlement: Settlement)
    ensures Settles(s, Step(s, o, live, settlement).0)
       <==> && o.version > s.zcash.version && !s.zcash.review && !Closed(s) && !Paid(s)
            && s.due > 0 && o.settled >= s.due && live.Some? && live.value >= s.due
            && settlement.Reached? && settlement.payment.Settled?
  {
  }

  /** A hold is lifted exactly when nothing is flagged or closed and both totals cover the amount. */
  lemma ReleasesExactly(s: Shop, o: Observation, live: Option<nat>, settlement: Settlement)
    requires s.zcash.hold && Paid(s)
    ensures !Step(s, o, live, settlement).0.zcash.hold
       <==> && o.version > s.zcash.version && !s.zcash.review && !Closed(s)
            && !Short(o.settled, s.due) && live.Some? && live.value >= s.due
  {
  }

  /** Every recorded event leaves a settled payment that is short of funds on hold. */
  lemma ShortIsHeld(s: Shop, o: Observation, live: Option<nat>, settlement: Settlement)
    ensures var (s', reply) := Step(s, o, live, settlement);
      reply.Applied? && Paid(s') && Short(s'.zcash.received, s'.due) ==> s'.zcash.hold
  {
  }

  // ------------------------------------------------------------------ one event, exactly

  /**
   * A hold begins exactly with a newer event that finds a settled payment short of the amount due,
   * and ends exactly as a release; otherwise it stays as it was.
   */
  lemma HoldExactly(s: Shop, o: Observation, live: Option<nat>, settlement: Settlement)
    ensures var s' := Step(s, o, live, settlement).0;
      var over := s.orderCancelled || s.payment.Cancelled? || s.payment.Declined? || s.payment.Error?
                  || exists i :: 0 <= i < |s.refunds| && (s.refunds[i].RefundPending? || s.refunds[i].RefundSettled?);
      s'.zcash.hold <==>
        if !s.zcash.hold
        then o.version > s.zcash.version && s.payment.Settled? && s.due > 0 && o.settled < s.due
        else !(o.version > s.zcash.version && s.payment.Settled? && !s.zcash.review && !over
               && o.settled >= s.due && live.Some? && live.value >= s.due)
  {
    RefundsExactly(s.refunds);
  }

  /** Refunds close an order unless all of them failed. */
  lemma RefundsExactly(refunds: seq<RefundState>)
    ensures Refunded(refunds)
       <==> exists i :: 0 <= i < |refunds| && (refunds[i].RefundPending? || refunds[i].RefundSettled?)
  {
  }

  /**
   * A payment is flagged for review exactly by a newer event after it was closed, or by a settlement
   * that found the order cancelled; a flag is never taken away.
   */
  lemma ReviewExactly(s: Shop, o: Observation, live: Option<nat>, settlement: Settlement)
    ensures var s' := Step(s, o, live, settlement).0;
      var over := s.orderCancelled || s.payment.Cancelled? || s.payment.Declined? || s.payment.Error?
                  || exists i :: 0 <= i < |s.refunds| && (s.refunds[i].RefundPending? || s.refunds[i].RefundSettled?);
      s'.zcash.review <==>
        || s.zcash.review
        || (o.version > s.zcash.version && over)
        || (!s.payment.Settled? && s'.payment.Settled? && settlement.Reached? && settlement.orderCancelled)
  {
    RefundsExactly(s.refunds);
  }

  /**
   * What the service is told, and when: it is asked before money is acted on, a failed answer or
   * settlement makes the event come back, and a total it disowns meanwhile is dropped.
   */
  lemma AnswersExactly(s: Shop, o: Observation, live: Option<nat>, settlement: Settlement)
    ensures var reply := Step(s, o, live, settlement).1;
      var over := s.orderCancelled || s.payment.Cancelled? || s.payment.Declined? || s.payment.Error?
                  || exists i :: 0 <= i < |s.refunds| && (s.refunds[i].RefundPending? || s.refunds[i].RefundSettled?);
      var asks := o.version > s.zcash.version && !s.zcash.review && !over && o.settled >= s.due
                  && if s.payment.Settled? then s.zcash.hold else s.due > 0;
      && (reply.IgnoredStale? <==> o.version <= s.zcash.version)
      && (reply.IgnoredSuperseded? <==> asks && live.Some? && live.value < s.due)
      && (reply.RetryLater? <==>
            asks && (live.None? || (live.value >= s.due && !s.payment.Settled?
                                    && (settlement.Refused? || !settlement.payment.Settled?))))
  {
    RefundsExactly(s.refunds);
  }

  /** A recorded event stores its three figures, and nothing else moves but by a settlement. */
  lemma RecordedExactly(s: Shop, o: Observation, live: Option<nat>, settlement: Settlement)
    ensures var (s', reply) := Step(s, o, live, settlement);
      && s'.due == s.due && s'.refunds == s.refunds
      && (if reply.Applied?
          then (s'.zcash.version, s'.zcash.received, s'.zcash.seen) == (o.version, o.settled, Some(o.seen))
          else s' == s)
      && (s'.payment != s.payment || s'.orderCancelled != s.orderCancelled ==>
            && !s.payment.Settled? && s'.payment.Settled?
            && settlement.Reached? && s'.orderCancelled == settlement.orderCancelled)
  {
  }

  // ------------------------------------------------------------------ runs

  /** An administrator: a settled payment can only be cancelled, a cancelled one stays so. */
  predicate Administers(s: Shop, s': Shop) {
    && s'.zcash == s.zcash && s'.due == s.due
    && (s.payment.Settled? ==> s'.payment.Settled? || s'.payment.Cancelled?)
    && (s.payment.Cancelled? ==> s'.payment.Cancelled?)
  }

  datatype Event = Webhook(o: Observation, live: Option<nat>, settlement: Settlement) | Admin(s: Shop)

  predicate Allowed(s: Shop, e: Event) {
    e.Admin? ==> Administers(s, e.s)
  }

  function After(s: Shop, e: Event): (Shop, Reply) {
    if e.Webhook? then Step(s, e.o, e.live, e.settlement) else (e.s, IgnoredStale)
  }

  predicate IsShopRun(run: seq<Shop>, events: seq<Event>) {
    && |run| == |events| + 1
    && forall i :: 0 <= i < |events| ==> Allowed(run[i], events[i]) && run[i + 1] == After(run[i], events[i]).0
  }

  predicate Records(run: seq<Shop>, events: seq<Event>, i: nat)
    requires IsShopRun(run, events) && i < |events|
  {
    events[i].Webhook? && After(run[i], events[i]).1.Applied?
  }

  /** Versions never fall and the review flag is never lost, whatever administrators do in between. */
  lemma {:induction false} RunAdvances(run: seq<Shop>, events: seq<Event>, i: nat, j: nat)
    requires IsShopRun(run, events) && i <= j < |run|
    ensures run[i].zcash.version <= run[j].zcash.version
    ensures run[i].zcash.review ==> run[j].zcash.review
    ensures run[i].payment.Settled? || run[i].payment.Cancelled? ==> run[j].payment.Settled? || run[j].payment.Cancelled?
    ensures run[j].due == run[i].due
    decreases j
  {
    if i < j {
      RunAdvances(run, events, i, j - 1);
      var s, e := run[j - 1], events[j - 1];
      if e.Webhook? {
        RecordsOnlyNewer(s, e.o, e.live, e.settlement);
      }
    }
  }

  /** Recorded versions strictly increase along a run. */
  lemma RecordedVersionsIncrease(run: seq<Shop>, events: seq<Event>, i: nat, j: nat)
    requires IsShopRun(run, events) && i < j < |events|
    requires Records(run, events, i) && Records(run, events, j)
    ensures events[i].o.version < events[j].o.version
  {
    RecordsOnlyNewer(run[i], events[i].o, events[i].live, events[i].settlement);
    RecordsOnlyNewer(run[j], events[j].o, events[j].live, events[j].settlement);
    RunAdvances(run, events, i + 1, j);
  }

  /** The webhook settles a payment at most once in any run. */
  lemma SettledOnce(run: seq<Shop>, events: seq<Event>, i: nat, j: nat)
    requires IsShopRun(run, events) && i < |events| && j < |events|
    requires events[i].Webhook? && Settles(run[i], run[i + 1])
    requires events[j].Webhook? && Settles(run[j], run[j + 1])
    ensures i == j
  {
    if i < j {
      SettledForGood(run, events, i, j);
    } else if j < i {
      SettledForGood(run, events, j, i);
    }
  }

  lemma SettledForGood(run: seq<Shop>, events: seq<Event>, i: nat, j: nat)
    requires IsShopRun(run, events) && i < j < |events|
    requires events[i].Webhook? && Settles(run[i], run[i + 1]) && events[j].Webhook?
    ensures !Settles(run[j], run[j + 1])
  {
    RunAdvances(run, events, i + 1, j);
    SettlesExactly(run[j], events[j].o, events[j].live, events[j].settlement);
  }

  /** A stretch of the run in which no administrator acted. */
  predicate WebhooksOnly(run: seq<Shop>, events: seq<Event>, i: nat, j: nat)
    requires IsShopRun(run, events) && i <= j <= |events|
  {
    forall k :: i <= k < j ==> events[k].Webhook?
  }

  /** After a recorded event, until an administrator acts, a settled payment short of funds is on hold. */
  lemma {:induction false} ShortStaysHeld(run: seq<Shop>, events: seq<Event>, i: nat, j: nat)
    requires IsShopRun(run, events) && i < j <= |events|
    requires Records(run, events, i) && WebhooksOnly(run, events, i, j)
    ensures Paid(run[j]) && Short(run[j].zcash.received, run[j].due) ==> run[j].zcash.hold
    decreases j
  {
    var e := events[j - 1];
    ShortIsHeld(run[j - 1], e.o, e.live, e.settlement);
    RecordsOnlyNewer(run[j - 1], e.o, e.live, e.settlement);
    if j > i + 1 {
      ShortStaysHeld(run, events, i, j - 1);
    }
  }
}
