/**
 * When deliveries are attempted: how an attempt ends, what waits until when, and that the worker
 * takes a delivery from that time on, the oldest first, and by one worker at a time.
 */
module Schedule {
  import opened Common
  import opened TotalsIndex
  import opened Outbox
  import opened Database

  // ------------------------------------------------------------------ how an attempt ends

  /**
   * How an attempt ends, in status codes and attempts: a 2xx succeeds; no answer, 429 and 5xx are
   * tried again at `next` while an attempt is left; everything else is given up.
   */
  predicate EndsAs(d: Delivery, e: Delivery, o: Outcome, next: Time, maxAttempts: nat) {
    var again := (o.TransportError? || o.code == 429 || 500 <= o.code <= 599) && d.attempts + 1 < maxAttempts;
    e == d.(state := if o.Status? && 200 <= o.code <= 299 then Succeeded else if again then RetryWait else PermanentFailure,
            attempts := d.attempts + 1,
            nextAttempt := if again then Some(next) else None)
  }

  /** The attempt ends so, is logged, and leaves the other deliveries and, unless it succeeded, the index alone. */
  lemma FinishedExactly(b: Box, i: nat, o: Outcome, now: Time, next: Time, maxAttempts: nat)
    requires i < |b.deliveries| && maxAttempts <= U32_MAX
    ensures var d, c := b.deliveries[i], Finished(b, i, o, now, next, maxAttempts);
      && |b.deliveries| <= |c.deliveries|
      && EndsAs(d, c.deliveries[i], o, next, maxAttempts)
      && (forall j :: 0 <= j < |b.deliveries| && j != i ==> c.deliveries[j] == b.deliveries[j])
      && c.log == b.log + [i]
      && (forall a :: a in b.index && (a != d.addr || !(o.Status? && 200 <= o.code <= 299)) ==>
           a in c.index && c.index[a] == b.index[a])
  {
  }

  /**
   * What a success means for its address: the delivery becomes the acknowledged one unless a later
   * one already is, and then the address is compared and queued again at once.
   */
  lemma SucceededExactly(b: Box, i: nat, now: Time)
    requires OutboxOk(b) && i < |b.deliveries| && Outstanding(b.deliveries[i])
    ensures var d, c := b.deliveries[i], Acknowledged(b, i, now);
      && d.addr in b.index && d.addr in c.index
      && var t, t' := b.index[d.addr], c.index[d.addr];
         if exists j :: i < j < |b.deliveries| && b.deliveries[j].addr == d.addr && b.deliveries[j].state.Succeeded?
         then t' == t && |c.deliveries| == |b.deliveries|
         else t'.acked == Some(d.version) && t'.notified == d.reported && !t'.notice.Dirty?
  {
    var a := b.deliveries[i].addr;
    assert AddressOk(b.deliveries, a, b.index[a]);
    SameAckAfterEnd(b, i);
    EnqueueOnce(AckMoved(b, i), a, now);
  }

  lemma EnqueueOnce(b: Box, a: AddressId, now: Time)
    requires a in b.index
    ensures a in Enqueued(b, a, now).index && !Enqueued(b, a, now).index[a].notice.Dirty?
    ensures Enqueued(b, a, now).index[a].(notice := Clean) == b.index[a].(notice := Clean)
  {
  }

  // ------------------------------------------------------------------ what queueing adds

  /** Delivery `n` may still reach the receiver and no later one has succeeded. */
  ghost predicate StillAwaited(ds: seq<Delivery>, a: AddressId, n: int) {
    && 0 <= n < |ds| && ds[n].addr == a
    && (ds[n].state.Queued? || ds[n].state.Sending? || ds[n].state.RetryWait?)
    && forall j :: n < j < |ds| && ds[j].addr == a ==> !ds[j].state.Succeeded?
  }

  /** The receiver will end up with `pair`: from the last awaited delivery, or because it has it already. */
  ghost predicate WillSay(ds: seq<Delivery>, a: AddressId, t: Entry, pair: Reported) {
    if exists n :: StillAwaited(ds, a, n)
    then exists n :: StillAwaited(ds, a, n) && ds[n].reported == pair && forall m :: StillAwaited(ds, a, m) ==> m <= n
    else t.notified == pair
  }

  lemma AwaitedExactly(ds: seq<Delivery>, a: AddressId, t: Entry, n: int)
    requires Consistent(ds, a, t)
    ensures StillAwaited(ds, a, n) <==> 0 <= n < |ds| && n > AckedIndex(ds, a, t) && Pending(ds[n], a)
  {
    var k := AckedIndex(ds, a, t);
    if StillAwaited(ds, a, n) && k >= 0 {
      assert ds[k].state.Succeeded? && ds[k].addr == a;
    }
  }

  lemma LastWordExactly(ds: seq<Delivery>, a: AddressId, t: Entry, pair: Reported)
    requires Consistent(ds, a, t)
    ensures LastWord(ds, a, t) == pair <==> WillSay(ds, a, t, pair)
    ensures Newest(ds, a, t) < 0 <==> forall n :: !StillAwaited(ds, a, n)
  {
    hide StillAwaited, AckedIndex, Consistent, NewestOutstanding;
    forall n ensures StillAwaited(ds, a, n) <==> 0 <= n < |ds| && n > AckedIndex(ds, a, t) && Pending(ds[n], a) {
      AwaitedExactly(ds, a, t, n);
    }
    var k := Newest(ds, a, t);
    if k >= 0 { assert StillAwaited(ds, a, k); }
  }

  /**
   * Exactly what queueing an address does: a new event with the current version and pair, observed
   * now, if the address is dirty, the receiver would otherwise end up with another pair, and this
   * version has no event yet. The address is then quiet: clean if nothing is awaited any more.
   */
  lemma QueuedExactly(b: Box, a: AddressId, now: Time)
    requires a in b.index && Consistent(b.deliveries, a, b.index[a])
    ensures var ds, t, c := b.deliveries, b.index[a], Enqueued(b, a, now);
      var told := WillSay(ds, a, t, t.reported);
      && c.log == b.log
      && c.deliveries == ds +
           (if t.notice.Dirty? && !told && forall i :: 0 <= i < |ds| && ds[i].addr == a ==> ds[i].version != t.version
            then [Delivery(a, t.version, t.reported, now, DeliveryState.Queued, 0, None)] else [])
      && c.index == b.index[a := t.(notice :=
           if !t.notice.Dirty? then t.notice
           else if told && forall n :: !StillAwaited(ds, a, n) then Clean
           else QueuedForWebhook)]
  {
    hide LastWord, Newest, WillSay, StillAwaited, Consistent;
    var ds, t := b.deliveries, b.index[a];
    LastWordExactly(ds, a, t, t.reported);
    EventExactly(ds, a, t.version);
  }

  lemma EventExactly(ds: seq<Delivery>, a: AddressId, v: nat)
    ensures EventIndex(ds, a, v) < 0 <==> forall i :: 0 <= i < |ds| && ds[i].addr == a ==> ds[i].version != v
  {
    hide EventIndex;
    if EventIndex(ds, a, v) < 0 {
      forall i | 0 <= i < |ds| && ds[i].addr == a ensures ds[i].version != v {
        assert !Carries(ds[i], a, v);
      }
    }
  }

  // ------------------------------------------------------------------ what the worker takes

  /** Exactly when a delivery can be taken: queued at once, waiting from its time on. */
  lemma ReadyExactly(d: Delivery, now: Time)
    ensures Ready(d, now) <==> d.state.Queued? || (d.state.RetryWait? && d.nextAttempt.Some? && now >= d.nextAttempt.value)
  {
  }

  /**
   * Exactly which delivery a worker takes, and that it then has it alone: no claim at any time
   * takes it again until it has ended or its worker was interrupted.
   */
  lemma ClaimsExactly(db: Db, i: nat, now: Time, cfg: Config)
    ensures Enabled(db, Claim(i, now)) <==>
      && i < |db.box.deliveries|
      && var d := db.box.deliveries[i];
         && (d.state.Queued? || (d.state.RetryWait? && d.nextAttempt.Some? && d.nextAttempt.value <= now))
         && forall j :: 0 <= j < |db.box.deliveries| && Ready(db.box.deliveries[j], now) ==>
              d.observedAt < db.box.deliveries[j].observedAt || (d.observedAt == db.box.deliveries[j].observedAt && i <= j)
    ensures Enabled(db, Claim(i, now)) ==>
      var db' := Next(db, Claim(i, now), cfg);
      && db' == db.(box := db.box.(deliveries :=
           db.box.deliveries[i := db.box.deliveries[i].(state := Sending, nextAttempt := None)]))
      && forall later: Time :: !Enabled(db', Claim(i, later))
  {
    if Enabled(db, Claim(i, now)) {
      var db' := Next(db, Claim(i, now), cfg);
      forall later: Time ensures !Enabled(db', Claim(i, later)) {
        assert !Ready(db'.box.deliveries[i], later);
      }
    }
  }

  /** While anything is ready the worker finds something, and nothing that was observed later. */
  lemma SomethingIsTaken(ds: seq<Delivery>, i: nat, now: Time) returns (j: nat)
    requires i < |ds| && Ready(ds[i], now)
    ensures IsNextReady(ds, j, now)
    ensures ds[j].observedAt < ds[i].observedAt || (ds[j].observedAt == ds[i].observedAt && j <= i)
  {
    hide Ready;
    j := i;
    var k := 0;
    while k < |ds|
      invariant k <= |ds| && j < |ds| && Ready(ds[j], now)
      invariant ds[j].observedAt < ds[i].observedAt || (ds[j].observedAt == ds[i].observedAt && j <= i)
      invariant forall m :: 0 <= m < k && Ready(ds[m], now) ==>
        ds[j].observedAt < ds[m].observedAt || (ds[j].observedAt == ds[m].observedAt && j <= m)
    {
      if Ready(ds[k], now)
         && (ds[k].observedAt < ds[j].observedAt || (ds[k].observedAt == ds[j].observedAt && k < j)) {
        j := k;
      }
      k := k + 1;
    }
  }

  // ------------------------------------------------------------------ what waits, and until when

  /**
   * One step and one delivery: it is waiting afterwards exactly because it was, or because its attempt
   * ended with a retry at `next`, or because its worker was interrupted, and then from the recovery on.
   * Recovery takes nothing but interrupted deliveries, and what queueing adds is queued at once.
   */
  lemma WaitsExactly(db: Db, op: Op, cfg: Config, i: nat)
    requires Enabled(db, op) && cfg.maxAttempts <= U32_MAX
    ensures |db.box.deliveries| <= |Next(db, op, cfg).box.deliveries|
    ensures i < |db.box.deliveries| ==>
      var d, e := db.box.deliveries[i], Next(db, op, cfg).box.deliveries[i];
      (e.state.RetryWait?, e.nextAttempt) ==
        if op.Finish? && op.i == i then
          (if (op.outcome.TransportError? || op.outcome.code == 429 || 500 <= op.outcome.code <= 599)
              && d.attempts + 1 < cfg.maxAttempts then (true, Some(op.next)) else (false, None))
        else if op.Recover? && d.state.Sending? then (true, Some(op.now))
        else if op.Claim? && op.i == i then (false, None)
        else (d.state.RetryWait?, d.nextAttempt)
    ensures op.Recover? && i < |db.box.deliveries| && !db.box.deliveries[i].state.Sending? ==>
      Next(db, op, cfg).box.deliveries[i] == db.box.deliveries[i]
    ensures |db.box.deliveries| <= i < |Next(db, op, cfg).box.deliveries| ==>
      var e := Next(db, op, cfg).box.deliveries[i];
      e.state.Queued? && e.nextAttempt.None? && e.attempts == 0
  {
    hide AfterReceipts, EnqueuedAll, Finished, Ready;
    match op
    case Receive(r) => ReceiptsKeepDeliveries(db, r, cfg);
    case Enqueue(addrs, now) => EnqueueAllAdds(db.box, addrs, now);
    case Finish(j, o, now, next) =>
      FinishedExactly(db.box, j, o, now, next, cfg.maxAttempts);
      FinishAdds(db.box, j, o, now, next, cfg.maxAttempts);
    case _ =>
  }

  lemma ReceiptsKeepDeliveries(db: Db, op: ReceiptOp, cfg: Config)
    ensures AfterReceipts(db, op, cfg).box.deliveries == db.box.deliveries
  {
    hide LedgerAfter, Touched, Known, RecomputeAll;
  }

  /** Queueing only adds deliveries, all of them queued and not attempted yet. */
  ghost predicate AddsQueued(ds: seq<Delivery>, ds': seq<Delivery>) {
    && ds <= ds'
    && forall i :: |ds| <= i < |ds'| ==> ds'[i].state.Queued? && ds'[i].nextAttempt.None? && ds'[i].attempts == 0
  }

  lemma EnqueueAdds(b: Box, a: AddressId, now: Time)
    ensures AddsQueued(b.deliveries, Enqueued(b, a, now).deliveries)
  {
    hide LastWord, EventIndex, Newest;
  }

  lemma {:induction false} EnqueueAllAdds(b: Box, addrs: seq<AddressId>, now: Time)
    ensures AddsQueued(b.deliveries, EnqueuedAll(b, addrs, now).deliveries)
  {
    hide Enqueued;
    if addrs != [] {
      var init := EnqueuedAll(b, addrs[..|addrs| - 1], now);
      EnqueueAllAdds(b, addrs[..|addrs| - 1], now);
      EnqueueAdds(init, addrs[|addrs| - 1], now);
    }
  }

  lemma FinishAdds(b: Box, i: nat, o: Outcome, now: Time, next: Time, maxAttempts: nat)
    requires i < |b.deliveries|
    ensures var c := Finished(b, i, o, now, next, maxAttempts);
      forall j :: |b.deliveries| <= j < |c.deliveries| ==>
        c.deliveries[j].state.Queued? && c.deliveries[j].nextAttempt.None? && c.deliveries[j].attempts == 0
  {
    hide Enqueued;
    if IsSuccess(o) && b.deliveries[i].addr in b.index {
      EnqueueAdds(AckMoved(b, i), b.deliveries[i].addr, now);
    }
  }

  /** What waits has a time. */
  ghost predicate WaitersHaveTimes(ds: seq<Delivery>) {
    forall i :: 0 <= i < |ds| && ds[i].state.RetryWait? ==> ds[i].nextAttempt.Some?
  }

  lemma {:induction false} RunsHaveTimes(run: seq<Db>, required: Option<nat>, cfg: Config, k: nat)
    requires cfg.maxAttempts <= U32_MAX && IsRun(run, required, cfg) && k < |run|
    ensures WaitersHaveTimes(run[k].box.deliveries)
  {
    hide Enabled, Next, Step;
    if k > 0 {
      RunsHaveTimes(run, required, cfg, k - 1);
      var op := StepTaken(run, required, cfg, k - 1);
      forall i | 0 <= i < |run[k].box.deliveries| && run[k].box.deliveries[i].state.RetryWait?
        ensures run[k].box.deliveries[i].nextAttempt.Some?
      {
        WaitsExactly(run[k - 1], op, cfg, i);
      }
    }
  }

  /**
   * In every reachable state a delivery that is neither ended nor being sent is queued or waits for a
   * known time; at every time from then on a claim takes it or one observed before it, and at no
   * time earlier is it taken.
   */
  lemma OutstandingIsTaken(run: seq<Db>, required: Option<nat>, cfg: Config, k: nat, i: nat, now: Time)
    returns (taken: nat)
    requires cfg.maxAttempts <= U32_MAX && IsRun(run, required, cfg) && k < |run| && i < |run[k].box.deliveries|
    requires var d := run[k].box.deliveries[i];
      !d.state.Succeeded? && !d.state.PermanentFailure? && !d.state.Sending?
    ensures var ds := run[k].box.deliveries;
      && (ds[i].state.Queued? || (ds[i].state.RetryWait? && ds[i].nextAttempt.Some?))
      && if ds[i].state.Queued? || now >= ds[i].nextAttempt.value
         then && Enabled(run[k], Claim(taken, now)) && taken < |ds|
              && (ds[taken].observedAt < ds[i].observedAt || (ds[taken].observedAt == ds[i].observedAt && taken <= i))
         else !Enabled(run[k], Claim(i, now))
  {
    RunsHaveTimes(run, required, cfg, k);
    var ds := run[k].box.deliveries;
    taken := 0;
    if ds[i].state.Queued? || now >= ds[i].nextAttempt.value {
      taken := SomethingIsTaken(ds, i, now);
    }
  }

  // ------------------------------------------------------------------ the worker comes to rest

  /** How many of the first `|log|` attempts were of deliveries below `n`. */
  function Below(log: seq<nat>, n: nat): nat {
    if log == [] then 0 else Below(log[..|log| - 1], n) + (if log[|log| - 1] < n then 1 else 0)
  }

  lemma {:induction false} BelowOne(log: seq<nat>, n: nat)
    ensures Below(log, n + 1) == Below(log, n) + multiset(log)[n]
    ensures Below(log, 0) == 0
  {
    if log != [] {
      BelowOne(log[..|log| - 1], n);
      assert log == log[..|log| - 1] + [log[|log| - 1]];
    }
  }

  lemma {:induction false} BelowAll(log: seq<nat>, n: nat)
    requires forall i :: i in log ==> i < n
    ensures Below(log, n) == |log|
  {
    if log != [] {
      var init := log[..|log| - 1];
      assert log[|log| - 1] in log;
      forall i | i in init ensures i in log { }
      BelowAll(init, n);
    }
  }

  lemma {:induction false} BelowBound(log: seq<nat>, n: nat, most: nat)
    requires forall i: nat :: i < n ==> multiset(log)[i] <= most
    ensures Below(log, n) <= n * most
  {
    hide Below;
    if n == 0 {
      BelowOne(log, 0);
    } else {
      BelowOne(log, n - 1);
      BelowBound(log, n - 1, most);
      assert (n - 1) * most + most == n * most;
    }
  }

  /** In every reachable state the receiver was asked at most `maxAttempts` times for each event. */
  lemma AttemptsAreBounded(run: seq<Db>, required: Option<nat>, cfg: Config, k: nat)
    requires 0 < cfg.maxAttempts <= U32_MAX
    requires IsRun(run, required, cfg) && k < |run|
    ensures |run[k].box.log| <= |run[k].box.deliveries| * cfg.maxAttempts
  {
    hide IsRun, OutboxOk, IndexAgrees, RowsKnown;
    RunsAreOk(run, required, cfg, k);
    var b := run[k].box;
    BelowAll(b.log, |b.deliveries|);
    BelowBound(b.log, |b.deliveries|, cfg.maxAttempts);
  }
}
