/** The service's figures and events as a shop plugin takes them. */
module ShopAtRest {
  import opened Common
  import opened Sums
  import opened Receipts
  import opened TotalsIndex
  import opened Decimals
  import opened Amounts
  import opened Outbox
  import opened Database
  import opened Schedule
  import PrestaShop
  import Vendure

  /**
   * The amount a plugin settles on is exactly the sum of the receipts with the required
   * confirmations, as long as the service tracks at most 100 of them and the total is below 10^18
   * zatoshis; beyond either bound the plugin rejects the event.
   */
  lemma PluginSeesConfirmed(l: Ledger, a: AddressId, t: Entry, finality: nat, required: nat)
    requires EntryAgrees(l, a, t, finality, Some(required)) && t.reported.byDepth.Some?
    requires t.reported.total <= I64_MAX
    ensures Confirmed(Some(Formatted(t.reported.byDepth.value)), t.reported.total)
         == (if required <= 100 && t.reported.total < Pow10(18) then Some(Total(AtDepth(l, a, required, t.tip))) else None)
  {
    hide Confirmed, Formatted, Pow10, AtDepth, Eligible, Final;
    ArrayShape(l, a, t, finality, Some(required));
    ConfirmedIsLastDepth(t.reported.byDepth.value, t.reported.total);
  }

  // ------------------------------------------------------------------ what a reply leads to

  /** The status a reply of the Vendure plugin is sent with. */
  predicate SentAs(reply: Vendure.Reply, code: nat) {
    if reply.RetryLater? then code == 500 || code == 503 else code == 200
  }

  /** The status a reply of the PrestaShop module is sent with. */
  function StatusOf(reply: PrestaShop.Reply): nat {
    if reply.RetryLater? then 503 else if reply.Failed? then 500 else 200
  }

  /** A shop that asks for a retry gets the event again from `next` on, as long as an attempt is left. */
  lemma RetryComesBack(
    b: Box, i: nat, reply: Vendure.Reply, code: nat, now: Time, next: Time, maxAttempts: nat, later: Time)
    requires i < |b.deliveries| && maxAttempts <= U32_MAX && SentAs(reply, code)
    ensures var e := Finished(b, i, Status(code), now, next, maxAttempts).deliveries[i];
      && (e.state.Succeeded? <==> !reply.RetryLater?)
      && (e.state.RetryWait? <==> reply.RetryLater? && b.deliveries[i].attempts + 1 < maxAttempts)
      && (e.state.RetryWait? ==> (Ready(e, later) <==> later >= next))
  {
    FinishedExactly(b, i, Status(code), now, next, maxAttempts);
  }

  lemma FailureComesBack(b: Box, i: nat, reply: PrestaShop.Reply, now: Time, next: Time, maxAttempts: nat, later: Time)
    requires i < |b.deliveries| && maxAttempts <= U32_MAX
    ensures var e := Finished(b, i, Status(StatusOf(reply)), now, next, maxAttempts).deliveries[i];
      && (e.state.Succeeded? <==> !reply.RetryLater? && !reply.Failed?)
      && (e.state.RetryWait? <==> (reply.RetryLater? || reply.Failed?) && b.deliveries[i].attempts + 1 < maxAttempts)
      && (e.state.RetryWait? ==> (Ready(e, later) <==> later >= next))
  {
    FinishedExactly(b, i, Status(StatusOf(reply)), now, next, maxAttempts);
  }

  /** Every reply but a request to retry is a 2xx status, which the delivery worker records as success. */
  ghost predicate Acknowledges(reply: Vendure.Reply) {
    forall code: nat :: SentAs(reply, code) ==> 200 <= code < 300
  }

  /** The shop learned of the event: it stores that version or a newer one. */
  predicate Learned(s: Vendure.Shop, o: Vendure.Observation) {
    s.zcash.version >= o.version
  }

  /**
   * An acknowledged event leaves the shop ignorant exactly when the service disowned it while it was
   * asked: about lifting a hold, or about settling an open payment.
   */
  lemma AcknowledgedButNotLearned(
    s: Vendure.Shop, o: Vendure.Observation, live: Option<nat>, settlement: Vendure.Settlement)
    ensures var (s', reply) := Vendure.Step(s, o, live, settlement);
      var over := s.orderCancelled || s.payment.Cancelled? || s.payment.Declined? || s.payment.Error?
                  || exists i :: 0 <= i < |s.refunds| && (s.refunds[i].RefundPending? || s.refunds[i].RefundSettled?);
      Acknowledges(reply) && !Learned(s', o)
      <==> && o.version > s.zcash.version && !s.zcash.review && !over
           && o.settled >= s.due && live.Some? && live.value < s.due
           && if s.payment.Settled? then s.zcash.hold else s.due > 0
  {
    hide Vendure.Step;
    var reply := Vendure.Step(s, o, live, settlement).1;
    Vendure.AnswersExactly(s, o, live, settlement);
    Vendure.RecordsOnlyNewer(s, o, live, settlement);
    assert SentAs(reply, if reply.RetryLater? then 503 else 200);
  }
}
