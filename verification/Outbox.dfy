/**
 * The webhook outbox: which notification an address owes its receiver, how deliveries are queued,
 * attempted and acknowledged, and the invariant that ties them to the reported totals.
 */
module Outbox {
  import opened Common
  import opened TotalsIndex

  datatype DeliveryState = Queued | Sending | RetryWait | Succeeded | PermanentFailure

  /** The event id is the text "zcash:address:vversion", so it is the pair (addr, version). */
  datatype Delivery = Delivery(
    addr: AddressId, version: nat, reported: Reported, observedAt: Time,
    state: DeliveryState, attempts: nat, nextAttempt: Option<Time>)

  /** `log` holds the delivery of every recorded attempt; a delivery's id is its position. */
  datatype Box = Box(deliveries: seq<Delivery>, index: Index, log: seq<nat>)

  predicate Outstanding(d: Delivery) {
    d.state.Queued? || d.state.Sending? || d.state.RetryWait?
  }

  predicate Pending(d: Delivery, a: AddressId) {
    d.addr == a && Outstanding(d)
  }

  predicate Carries(d: Delivery, a: AddressId, v: nat) {
    d.addr == a && d.version == v
  }

  /** The last delivery of `a` after position `after` that may still reach the receiver, or -1. */
  function NewestOutstanding(ds: seq<Delivery>, a: AddressId, after: int): (i: int)
    ensures -1 <= i < |ds|
    ensures i >= 0 ==> i > after && Pending(ds[i], a)
    ensures forall j :: 0 <= j < |ds| && j > after && Pending(ds[j], a) ==> j <= i
  {
    if |ds| == 0 || |ds| - 1 <= after then -1
    else if Pending(ds[|ds| - 1], a) then |ds| - 1
    else NewestOutstanding(ds[..|ds| - 1], a, after)
  }

  /** The position of the event of `a` with version `v`, or -1. */
  function EventIndex(ds: seq<Delivery>, a: AddressId, v: nat): (i: int)
    ensures -1 <= i < |ds|
    ensures i >= 0 ==> Carries(ds[i], a, v)
    ensures i == -1 ==> forall j :: 0 <= j < |ds| ==> !Carries(ds[j], a, v)
  {
    if |ds| == 0 then -1
    else if Carries(ds[|ds| - 1], a, v) then |ds| - 1
    else EventIndex(ds[..|ds| - 1], a, v)
  }

  function AckedIndex(ds: seq<Delivery>, a: AddressId, t: Entry): (i: int)
    ensures -1 <= i < |ds|
  {
    if t.acked.None? then -1 else EventIndex(ds, a, t.acked.value)
  }

  function Newest(ds: seq<Delivery>, a: AddressId, t: Entry): (i: int)
    ensures -1 <= i < |ds|
  {
    NewestOutstanding(ds, a, AckedIndex(ds, a, t))
  }

  /** The last word the receiver will get: the newest outstanding event past the acknowledged one, or that one. */
  function LastWord(ds: seq<Delivery>, a: AddressId, t: Entry): Reported {
    var i := Newest(ds, a, t);
    if i >= 0 then ds[i].reported else t.notified
  }

  // ------------------------------------------------------------------ operations

  function NewDelivery(a: AddressId, t: Entry, now: Time): Delivery {
    Delivery(a, t.version, t.reported, now, Queued, 0, None)
  }

  function Enqueued(b: Box, a: AddressId, now: Time): Box {
    if a !in b.index || !b.index[a].notice.Dirty? then b
    else
      var t := b.index[a];
      if t.reported == LastWord(b.deliveries, a, t) then
        b.(index := b.index[a := t.(notice := if Newest(b.deliveries, a, t) < 0 then Clean else QueuedForWebhook)])
      else
        b.(deliveries := if EventIndex(b.deliveries, a, t.version) >= 0 then b.deliveries
                         else b.deliveries + [NewDelivery(a, t, now)],
           index := b.index[a := t.(notice := QueuedForWebhook)])
  }

  function EnqueuedAll(b: Box, addrs: seq<AddressId>, now: Time): Box {
    if addrs == [] then b
    else Enqueued(EnqueuedAll(b, addrs[..|addrs| - 1], now), addrs[|addrs| - 1], now)
  }

  predicate Ready(d: Delivery, now: Time) {
    d.state.Queued? || (d.state.RetryWait? && d.nextAttempt.Some? && d.nextAttempt.value <= now)
  }

  function WithState(b: Box, i: nat, state: DeliveryState, next: Option<Time>): Box
    requires i < |b.deliveries|
  {
    b.(deliveries := b.deliveries[i := b.deliveries[i].(state := state, nextAttempt := next)])
  }

  function Claimed(b: Box, i: nat): Box
    requires i < |b.deliveries|
  {
    WithState(b, i, Sending, None)
  }

  /** Records one attempt in the log and in the delivery's counter. */
  function Attempted(b: Box, i: nat, state: DeliveryState, next: Option<Time>): Box
    requires i < |b.deliveries|
  {
    var c := WithState(b, i, state, next);
    c.(deliveries := c.deliveries[i := c.deliveries[i].(attempts := b.deliveries[i].attempts + 1)],
       log := b.log + [i])
  }

  function Retried(b: Box, i: nat, next: Time): Box
    requires i < |b.deliveries|
  {
    Attempted(b, i, RetryWait, Some(next))
  }

  function GivenUp(b: Box, i: nat): Box
    requires i < |b.deliveries|
  {
    Attempted(b, i, PermanentFailure, None)
  }

  /** The entry after delivery `d` becomes the acknowledged one, before it is enqueued again. */
  function AckedEntry(t: Entry, d: Delivery): Entry {
    t.(notified := d.reported, acked := Some(d.version), notice := Dirty)
  }

  /** A late success of an event older than the acknowledged one does not move the acknowledgement. */
  function Acknowledged(b: Box, i: nat, now: Time): Box
    requires i < |b.deliveries|
  {
    var c := Attempted(b, i, Succeeded, None);
    var d := b.deliveries[i];
    if d.addr !in b.index || AckedIndex(c.deliveries, d.addr, b.index[d.addr]) > i then c
    else Enqueued(AckMoved(b, i), d.addr, now)
  }

  function AckMoved(b: Box, i: nat): Box
    requires i < |b.deliveries| && b.deliveries[i].addr in b.index
  {
    var d := b.deliveries[i];
    Attempted(b, i, Succeeded, None).(index := b.index[d.addr := AckedEntry(b.index[d.addr], d)])
  }

  function Interrupted(d: Delivery, now: Time): Delivery {
    if d.state.Sending? then d.(state := RetryWait, nextAttempt := Some(now)) else d
  }

  function Recovered(b: Box, now: Time): Box {
    b.(deliveries := seq(|b.deliveries|, i requires 0 <= i < |b.deliveries| => Interrupted(b.deliveries[i], now)))
  }

  // ------------------------------------------------------------------ the invariant of one address

  ghost predicate VersionsRise(ds: seq<Delivery>, a: AddressId) {
    forall i, j :: 0 <= i < j < |ds| && ds[i].addr == a && ds[j].addr == a ==> ds[i].version < ds[j].version
  }

  /** Versions start at 1 and the event of the current version names the current pair. */
  ghost predicate EventsNamePairs(ds: seq<Delivery>, a: AddressId, t: Entry) {
    && (forall i :: 0 <= i < |ds| && ds[i].addr == a ==>
         1 <= ds[i].version <= t.version && (ds[i].version == t.version ==> ds[i].reported == t.reported))
    && (t.version == 0 ==> t.reported == NOTHING && !t.notice.Dirty?)
  }

  /** The acknowledged delivery is the last succeeded one, and it carries the notified pair. */
  ghost predicate AckIsNewestSuccess(ds: seq<Delivery>, a: AddressId, t: Entry) {
    var k := AckedIndex(ds, a, t);
    && (t.acked.None? ==> t.notified == NOTHING)
    && (t.acked.Some? ==> k >= 0 && ds[k].state.Succeeded? && ds[k].reported == t.notified)
    && (forall i :: 0 <= i < |ds| && ds[i].addr == a && ds[i].state.Succeeded? ==> i <= k)
  }

  /** A delivery that failed for good, with nothing newer acknowledged or outstanding after it. */
  ghost predicate LastFailed(ds: seq<Delivery>, a: AddressId, t: Entry, f: int) {
    && 0 <= f < |ds| && ds[f].addr == a && ds[f].state.PermanentFailure?
    && f > AckedIndex(ds, a, t) && f > Newest(ds, a, t)
  }

  /** Unless it is dirty, the address's pair is its last word, or it was lost with a failed delivery. */
  ghost predicate Notified(ds: seq<Delivery>, a: AddressId, t: Entry) {
    t.notice.Dirty? || t.reported == LastWord(ds, a, t)
    || exists f :: LastFailed(ds, a, t, f) && ds[f].reported == t.reported
  }

  ghost predicate AddressOk(ds: seq<Delivery>, a: AddressId, t: Entry) {
    && VersionsRise(ds, a)
    && EventsNamePairs(ds, a, t)
    && AckIsNewestSuccess(ds, a, t)
    && Notified(ds, a, t)
  }

  ghost predicate OutboxOk(b: Box) {
    && (forall i :: 0 <= i < |b.deliveries| ==> b.deliveries[i].addr in b.index)
    && (forall a :: a in b.index ==> AddressOk(b.deliveries, a, b.index[a]))
  }

  // ------------------------------------------------------------------ consequences

  ghost predicate NoFailureSinceAck(ds: seq<Delivery>, a: AddressId, t: Entry) {
    forall i :: AckedIndex(ds, a, t) < i < |ds| && ds[i].addr == a ==> !ds[i].state.PermanentFailure?
  }

  /** No lost notification: without a permanent failure, a quiet address has said its last word. */
  lemma NoLostNotification(b: Box, a: AddressId)
    requires OutboxOk(b) && a in b.index
    requires !b.index[a].notice.Dirty?
    requires NoFailureSinceAck(b.deliveries, a, b.index[a])
    ensures b.index[a].reported == LastWord(b.deliveries, a, b.index[a])
  {
  }

  // ------------------------------------------------------------------ preservation

  /** `ds'` holds the deliveries of `a` that `ds` holds, in the same places. */
  ghost predicate SameFor(ds: seq<Delivery>, ds': seq<Delivery>, a: AddressId) {
    && |ds| <= |ds'|
    && (forall i :: 0 <= i < |ds| ==> ds'[i].addr == ds[i].addr && (ds[i].addr == a ==> ds'[i] == ds[i]))
    && (forall i :: |ds| <= i < |ds'| ==> ds'[i].addr != a)
  }

  lemma FrameAddress(ds: seq<Delivery>, ds': seq<Delivery>, a: AddressId, t: Entry)
    requires SameFor(ds, ds', a)
    requires AddressOk(ds, a, t)
    ensures AddressOk(ds', a, t)
    ensures AckedIndex(ds', a, t) == AckedIndex(ds, a, t) && Newest(ds', a, t) == Newest(ds, a, t)
  {
    var k, k' := AckedIndex(ds, a, t), AckedIndex(ds', a, t);
    if t.acked.Some? {
      assert Carries(ds'[k], a, t.acked.value);
      assert k' < |ds| && Carries(ds[k'], a, t.acked.value);
    }
    assert k == k';
    var n, n' := Newest(ds, a, t), Newest(ds', a, t);
    if n >= 0 { assert Pending(ds'[n], a); }
    if n' >= 0 { assert Pending(ds[n'], a); }
    assert n == n';
    if f :| LastFailed(ds, a, t, f) && ds[f].reported == t.reported {
      assert LastFailed(ds', a, t, f);
    }
  }

  /** Claims, retries and recovery move a delivery among the outstanding states only. */
  ghost predicate Soft(ds: seq<Delivery>, ds': seq<Delivery>) {
    && |ds| == |ds'|
    && forall i :: 0 <= i < |ds| ==>
         && ds'[i].addr == ds[i].addr && ds'[i].version == ds[i].version && ds'[i].reported == ds[i].reported
         && (ds'[i].state == ds[i].state || (Outstanding(ds[i]) && Outstanding(ds'[i])))
  }

  lemma SoftKeepsAck(ds: seq<Delivery>, ds': seq<Delivery>, a: AddressId, t: Entry)
    requires Soft(ds, ds') && VersionsRise(ds, a)
    ensures AckedIndex(ds', a, t) == AckedIndex(ds, a, t)
  {
    if t.acked.Some? {
      var k, k' := AckedIndex(ds, a, t), AckedIndex(ds', a, t);
      assert k >= 0 ==> Carries(ds'[k], a, t.acked.value);
      assert k' >= 0 ==> Carries(ds[k'], a, t.acked.value);
    }
  }

  lemma SoftKeepsAddress(ds: seq<Delivery>, ds': seq<Delivery>, a: AddressId, t: Entry)
    requires Soft(ds, ds')
    requires AddressOk(ds, a, t)
    ensures AddressOk(ds', a, t)
  {
    hide AckedIndex, NewestOutstanding;
    SoftKeepsAck(ds, ds', a, t);
    var n, n' := Newest(ds, a, t), Newest(ds', a, t);
    if n >= 0 { assert Pending(ds'[n], a); }
    if n' >= 0 { assert Pending(ds[n'], a); }
    assert n == n';
    if f :| LastFailed(ds, a, t, f) && ds[f].reported == t.reported {
      assert LastFailed(ds', a, t, f);
    }
  }

  lemma SoftKeepsOutbox(b: Box, c: Box)
    requires OutboxOk(b)
    requires c.index == b.index && Soft(b.deliveries, c.deliveries)
    ensures OutboxOk(c)
  {
    forall a | a in b.index ensures AddressOk(c.deliveries, a, c.index[a]) {
      SoftKeepsAddress(b.deliveries, c.deliveries, a, b.index[a]);
    }
  }

  lemma ClaimKeepsOutbox(b: Box, i: nat)
    requires OutboxOk(b) && i < |b.deliveries| && Outstanding(b.deliveries[i])
    ensures OutboxOk(Claimed(b, i))
  {
    SoftKeepsOutbox(b, Claimed(b, i));
  }

  lemma RetryKeepsOutbox(b: Box, i: nat, next: Time)
    requires OutboxOk(b) && i < |b.deliveries| && Outstanding(b.deliveries[i])
    ensures OutboxOk(Retried(b, i, next))
  {
    SoftKeepsOutbox(b, Retried(b, i, next));
  }

  lemma RecoverKeepsOutbox(b: Box, now: Time)
    requires OutboxOk(b)
    ensures OutboxOk(Recovered(b, now))
  {
    SoftKeepsOutbox(b, Recovered(b, now));
  }

  /** Everything `AddressOk` asks except that a quiet address is notified. */
  ghost predicate Consistent(ds: seq<Delivery>, a: AddressId, t: Entry) {
    VersionsRise(ds, a) && EventsNamePairs(ds, a, t) && AckIsNewestSuccess(ds, a, t)
  }

  lemma Rises(ds: seq<Delivery>, a: AddressId, i: nat, j: nat)
    requires VersionsRise(ds, a)
    requires i < |ds| && j < |ds| && ds[i].addr == a && ds[j].addr == a
    ensures i < j ==> ds[i].version < ds[j].version
  {
  }

  /** The event of the current version is the address's last delivery. */
  lemma CurrentEventIsLast(ds: seq<Delivery>, a: AddressId, t: Entry, g: int)
    requires Consistent(ds, a, t)
    requires 0 <= g < |ds| && Carries(ds[g], a, t.version)
    ensures forall j :: 0 <= j < |ds| && ds[j].addr == a ==> j <= g
    ensures ds[g].reported == t.reported
    ensures t.reported != LastWord(ds, a, t) ==> LastFailed(ds, a, t, g)
  {
    forall j | 0 <= j < |ds| && ds[j].addr == a ensures j <= g {
      Rises(ds, a, g, j);
    }
    var k, n := AckedIndex(ds, a, t), Newest(ds, a, t);
    assert k <= g && n <= g;
    assert k == g ==> ds[g].state.Succeeded? && n < 0;
    assert ds[g].state.Succeeded? ==> k == g;
    assert Outstanding(ds[g]) ==> Pending(ds[g], a) && n == g;
  }

  /** Enqueueing settles a dirty address, whatever was outstanding. */
  lemma EnqueueSettles(b: Box, a: AddressId, now: Time)
    requires a in b.index && b.index[a].notice.Dirty?
    requires Consistent(b.deliveries, a, b.index[a])
    ensures var c := Enqueued(b, a, now);
      a in c.index && !c.index[a].notice.Dirty? && AddressOk(c.deliveries, a, c.index[a])
  {
    var ds, t := b.deliveries, b.index[a];
    var c := Enqueued(b, a, now);
    var t' := c.index[a];
    if t.reported == LastWord(ds, a, t) {
      assert AckedIndex(ds, a, t') == AckedIndex(ds, a, t);
    } else if EventIndex(ds, a, t.version) >= 0 {
      var g := EventIndex(ds, a, t.version);
      CurrentEventIsLast(ds, a, t, g);
      assert AckedIndex(ds, a, t') == AckedIndex(ds, a, t);
      assert LastFailed(ds, a, t', g);
    } else {
      AppendSettles(ds, a, t, t', now);
    }
  }

  lemma AppendSettles(ds: seq<Delivery>, a: AddressId, t: Entry, t': Entry, now: Time)
    requires Consistent(ds, a, t) && t.version >= 1
    requires t' == t.(notice := QueuedForWebhook)
    requires EventIndex(ds, a, t.version) < 0
    ensures AddressOk(ds + [NewDelivery(a, t, now)], a, t')
  {
    hide EventIndex, AckedIndex, Newest;
    var ds' := ds + [NewDelivery(a, t, now)];
    AppendKeepsAck(ds, a, t, t', now);
    AppendIsNewest(ds, a, t', NewDelivery(a, t, now));
  }

  lemma AppendKeepsAck(ds: seq<Delivery>, a: AddressId, t: Entry, t': Entry, now: Time)
    requires Consistent(ds, a, t)
    requires t' == t.(notice := QueuedForWebhook)
    requires EventIndex(ds, a, t.version) < 0
    ensures forall i :: 0 <= i < |ds| && ds[i].addr == a ==> ds[i].version < t.version
    ensures AckedIndex(ds + [NewDelivery(a, t, now)], a, t') == AckedIndex(ds, a, t)
  {
    var ds' := ds + [NewDelivery(a, t, now)];
    forall i | 0 <= i < |ds| && ds[i].addr == a ensures ds[i].version < t.version {
      assert !Carries(ds[i], a, t.version);
    }
    var k, k' := AckedIndex(ds, a, t), AckedIndex(ds', a, t');
    if t.acked.Some? {
      assert Carries(ds'[k], a, t.acked.value);
      assert ds[k].version < t.version;
      assert k' < |ds| && Carries(ds[k'], a, t.acked.value);
    }
  }

  lemma AppendIsNewest(ds: seq<Delivery>, a: AddressId, t: Entry, d: Delivery)
    requires Pending(d, a) && AckedIndex(ds + [d], a, t) < |ds|
    ensures Newest(ds + [d], a, t) == |ds|
  {
    assert Pending((ds + [d])[|ds|], a);
  }

  /** Only deliveries of `a` change or are added. */
  ghost predicate OnlyTouches(ds: seq<Delivery>, ds': seq<Delivery>, a: AddressId) {
    && |ds| <= |ds'|
    && (forall i :: 0 <= i < |ds| ==> ds'[i].addr == ds[i].addr && (ds[i].addr != a ==> ds'[i] == ds[i]))
    && (forall i :: |ds| <= i < |ds'| ==> ds'[i].addr == a)
  }

  lemma OneAddressSuffices(b: Box, c: Box, a: AddressId)
    requires OutboxOk(b) && a in b.index
    requires OnlyTouches(b.deliveries, c.deliveries, a)
    requires a in c.index && c.index == b.index[a := c.index[a]]
    requires AddressOk(c.deliveries, a, c.index[a])
    ensures OutboxOk(c)
  {
    forall o | o in c.index ensures AddressOk(c.deliveries, o, c.index[o]) {
      if o != a {
        FrameAddress(b.deliveries, c.deliveries, o, b.index[o]);
      }
    }
  }

  lemma EnqueueShape(b: Box, a: AddressId, now: Time)
    requires a in b.index
    ensures var c := Enqueued(b, a, now);
      && a in c.index && c.index == b.index[a := c.index[a]]
      && OnlyTouches(b.deliveries, c.deliveries, a)
      && c.log == b.log
  {
  }

  lemma EnqueueKeepsOutbox(b: Box, a: AddressId, now: Time)
    requires OutboxOk(b)
    ensures OutboxOk(Enqueued(b, a, now))
    ensures Enqueued(b, a, now).index.Keys == b.index.Keys
    ensures a in b.index ==> !Enqueued(b, a, now).index[a].notice.Dirty?
    ensures forall o :: o in b.index && !b.index[o].notice.Dirty? ==> Enqueued(b, a, now).index[o] == b.index[o]
  {
    hide Enqueued, AddressOk, Consistent, OnlyTouches;
    EnqueueOfQuiet(b, a, now);
    if a in b.index && b.index[a].notice.Dirty? {
      EnqueueShape(b, a, now);
      OkIsConsistent(b.deliveries, a, b.index[a]);
      EnqueueSettles(b, a, now);
      OneAddressSuffices(b, Enqueued(b, a, now), a);
    }
  }

  lemma EnqueueOfQuiet(b: Box, a: AddressId, now: Time)
    ensures a !in b.index || !b.index[a].notice.Dirty? ==> Enqueued(b, a, now) == b
  {
  }

  lemma OkIsConsistent(ds: seq<Delivery>, a: AddressId, t: Entry)
    requires AddressOk(ds, a, t)
    ensures Consistent(ds, a, t)
  {
    hide VersionsRise, EventsNamePairs, AckIsNewestSuccess, Notified;
  }

  lemma {:induction false} EnqueueAllKeepsOutbox(b: Box, addrs: seq<AddressId>, now: Time)
    requires OutboxOk(b)
    ensures OutboxOk(EnqueuedAll(b, addrs, now))
    ensures EnqueuedAll(b, addrs, now).index.Keys == b.index.Keys
    ensures forall a :: a in addrs && a in b.index ==> !EnqueuedAll(b, addrs, now).index[a].notice.Dirty?
  {
    hide Enqueued, OutboxOk;
    if addrs != [] {
      var init, last := addrs[..|addrs| - 1], addrs[|addrs| - 1];
      EnqueueAllKeepsOutbox(b, init, now);
      EnqueueKeepsOutbox(EnqueuedAll(b, init, now), last, now);
      assert addrs == init + [last];
    }
  }

  /** The addresses are queued one after the other, in their order. */
  lemma {:induction false} EnqueueInOrder(b: Box, earlier: seq<AddressId>, later: seq<AddressId>, now: Time)
    ensures EnqueuedAll(b, earlier + later, now) == EnqueuedAll(EnqueuedAll(b, earlier, now), later, now)
    ensures forall a :: EnqueuedAll(b, [a], now) == Enqueued(b, a, now)
  {
    hide Enqueued;
    if later == [] {
      assert earlier + later == earlier;
    } else {
      var init := later[..|later| - 1];
      EnqueueInOrder(b, earlier, init, now);
      assert (earlier + later)[..|earlier + later| - 1] == earlier + init;
    }
    forall a ensures EnqueuedAll(b, [a], now) == Enqueued(b, a, now) {
      assert [a][..0] == [];
    }
  }

  ghost predicate IsDirty(index: Index, a: AddressId) {
    a in index && index[a].notice.Dirty?
  }

  /** Queueing leaves exactly the dirty addresses it was not given. */
  lemma {:induction false} EnqueueAllQuiets(b: Box, addrs: seq<AddressId>, now: Time)
    ensures forall a :: IsDirty(EnqueuedAll(b, addrs, now).index, a) <==> IsDirty(b.index, a) && a !in addrs
    ensures b.deliveries <= EnqueuedAll(b, addrs, now).deliveries
    ensures EnqueuedAll(b, addrs, now).index.Keys == b.index.Keys
    ensures var ds := EnqueuedAll(b, addrs, now).deliveries;
      forall i :: |b.deliveries| <= i < |ds| ==> ds[i].addr in addrs && ds[i].observedAt == now
  {
    hide LastWord, EventIndex, Newest;
    if addrs != [] {
      var init, last := addrs[..|addrs| - 1], addrs[|addrs| - 1];
      EnqueueAllQuiets(b, init, now);
      assert addrs == init + [last];
    }
  }

  /** Delivery `i` of address `a` leaves the outstanding states. */
  ghost predicate Ends(ds: seq<Delivery>, ds': seq<Delivery>, i: nat, a: AddressId) {
    && i < |ds| == |ds'|
    && (forall j :: 0 <= j < |ds| && j != i ==> ds'[j] == ds[j])
    && Pending(ds[i], a) && ds'[i].addr == a && !Outstanding(ds'[i])
    && ds'[i].version == ds[i].version && ds'[i].reported == ds[i].reported
  }

  lemma EndedKeepsAck(ds: seq<Delivery>, ds': seq<Delivery>, i: nat, a: AddressId, t: Entry)
    requires AddressOk(ds, a, t) && Ends(ds, ds', i, a)
    ensures AckedIndex(ds', a, t) == AckedIndex(ds, a, t)
  {
    hide Newest, Notified;
    if t.acked.Some? {
      var k, k' := AckedIndex(ds, a, t), AckedIndex(ds', a, t);
      assert Carries(ds'[k], a, t.acked.value);
      assert Carries(ds[k'], a, t.acked.value);
    }
  }

  /** What is still true of the address of a delivery that ends. */
  lemma EndedDelivery(ds: seq<Delivery>, ds': seq<Delivery>, i: nat, a: AddressId, t: Entry)
    requires AddressOk(ds, a, t) && Ends(ds, ds', i, a)
    ensures AckedIndex(ds', a, t) == AckedIndex(ds, a, t)
    ensures VersionsRise(ds', a) && EventsNamePairs(ds', a, t)
    ensures ds'[i].state.PermanentFailure? ==> AckIsNewestSuccess(ds', a, t)
    ensures Newest(ds, a, t) != i ==> Newest(ds', a, t) == Newest(ds, a, t)
    ensures Newest(ds, a, t) == i ==> Newest(ds', a, t) < i
  {
    hide AckedIndex, NewestOutstanding;
    EndedKeepsAck(ds, ds', i, a, t);
    var n, n' := Newest(ds, a, t), Newest(ds', a, t);
    assert n' >= 0 ==> Pending(ds[n'], a);
    assert n >= 0 && n != i ==> Pending(ds'[n], a);
  }

  lemma EndedKeepsLoss(ds: seq<Delivery>, ds': seq<Delivery>, i: nat, a: AddressId, t: Entry)
    requires AddressOk(ds, a, t) && Ends(ds, ds', i, a)
    requires ds'[i].state.PermanentFailure? || i < AckedIndex(ds, a, t)
    ensures Notified(ds', a, t)
  {
    EndedDelivery(ds, ds', i, a, t);
    if f :| LastFailed(ds, a, t, f) && ds[f].reported == t.reported {
      assert LastFailed(ds', a, t, f);
    } else if Newest(ds, a, t) == i {
      assert LastFailed(ds', a, t, i);
    }
  }

  lemma EndedKeepsAddress(ds: seq<Delivery>, ds': seq<Delivery>, i: nat, a: AddressId, t: Entry)
    requires AddressOk(ds, a, t) && Ends(ds, ds', i, a)
    requires ds'[i].state.PermanentFailure? || i < AckedIndex(ds, a, t)
    ensures AddressOk(ds', a, t)
  {
    hide Notified, Ends, VersionsRise, EventsNamePairs;
    EndedDelivery(ds, ds', i, a, t);
    EndedKeepsLoss(ds, ds', i, a, t);
    if i < AckedIndex(ds, a, t) { LateSuccess(ds, ds', i, a, t); }
  }

  lemma LateSuccess(ds: seq<Delivery>, ds': seq<Delivery>, i: nat, a: AddressId, t: Entry)
    requires AckIsNewestSuccess(ds, a, t) && Ends(ds, ds', i, a)
    requires i < AckedIndex(ds, a, t) == AckedIndex(ds', a, t)
    ensures AckIsNewestSuccess(ds', a, t)
  {
  }

  /** Recording how delivery `i` ended, without moving the acknowledgement. */
  lemma EndShape(b: Box, i: nat, state: DeliveryState)
    requires i < |b.deliveries| && Outstanding(b.deliveries[i])
    requires state.Succeeded? || state.PermanentFailure?
    ensures var c, a := Attempted(b, i, state, None), b.deliveries[i].addr;
      && Ends(b.deliveries, c.deliveries, i, a) && c.deliveries[i].state == state
      && OnlyTouches(b.deliveries, c.deliveries, a) && c.index == b.index
  {
  }

  lemma EndKeepsOutbox(b: Box, i: nat, state: DeliveryState)
    requires OutboxOk(b) && i < |b.deliveries| && Outstanding(b.deliveries[i])
    requires state.Succeeded? || state.PermanentFailure?
    requires var a := b.deliveries[i].addr; state.Succeeded? ==> i < AckedIndex(b.deliveries, a, b.index[a])
    ensures OutboxOk(Attempted(b, i, state, None))
  {
    hide Attempted, AddressOk, Ends, OnlyTouches;
    var c, a := Attempted(b, i, state, None), b.deliveries[i].addr;
    EndShape(b, i, state);
    EndedKeepsAddress(b.deliveries, c.deliveries, i, a, b.index[a]);
    assert c.index == c.index[a := c.index[a]];
    OneAddressSuffices(b, c, a);
  }

  lemma FailureKeepsOutbox(b: Box, i: nat)
    requires OutboxOk(b) && i < |b.deliveries| && Outstanding(b.deliveries[i])
    ensures OutboxOk(GivenUp(b, i))
  {
    hide OutboxOk, Attempted;
    EndKeepsOutbox(b, i, PermanentFailure);
  }

  lemma NewAckConsistent(ds: seq<Delivery>, ds': seq<Delivery>, i: nat, a: AddressId, t: Entry)
    requires AddressOk(ds, a, t) && Ends(ds, ds', i, a) && ds'[i].state.Succeeded?
    requires AckedIndex(ds', a, t) <= i
    ensures Consistent(ds', a, AckedEntry(t, ds[i]))
  {
    EndedDelivery(ds, ds', i, a, t);
    var u := AckedEntry(t, ds[i]);
    assert Carries(ds'[i], a, ds[i].version);
    assert AckedIndex(ds', a, u) == i;
  }

  lemma MovedAckKeepsOutbox(b: Box, i: nat, now: Time)
    requires OutboxOk(b) && i < |b.deliveries| && Outstanding(b.deliveries[i])
    requires var a := b.deliveries[i].addr;
      AckedIndex(AckMoved(b, i).deliveries, a, b.index[a]) <= i
    ensures OutboxOk(Enqueued(AckMoved(b, i), b.deliveries[i].addr, now))
  {
    var e, a := AckMoved(b, i), b.deliveries[i].addr;
    AckMovedShape(b, i);
    NewAckConsistent(b.deliveries, e.deliveries, i, a, b.index[a]);
    TwoStepsSuffice(b, e, a, now);
  }

  lemma AckMovedShape(b: Box, i: nat)
    requires i < |b.deliveries| && Outstanding(b.deliveries[i]) && b.deliveries[i].addr in b.index
    ensures var e, a := AckMoved(b, i), b.deliveries[i].addr;
      && Ends(b.deliveries, e.deliveries, i, a) && e.deliveries[i].state.Succeeded?
      && OnlyTouches(b.deliveries, e.deliveries, a)
      && a in e.index && e.index == b.index[a := e.index[a]]
      && e.index[a] == AckedEntry(b.index[a], b.deliveries[i])
  {
  }

  lemma TwoStepsSuffice(b: Box, e: Box, a: AddressId, now: Time)
    requires OutboxOk(b) && a in b.index
    requires OnlyTouches(b.deliveries, e.deliveries, a)
    requires a in e.index && e.index == b.index[a := e.index[a]]
    requires e.index[a].notice.Dirty? && Consistent(e.deliveries, a, e.index[a])
    ensures OutboxOk(Enqueued(e, a, now))
  {
    hide Enqueued, AddressOk, Consistent;
    EnqueueShape(e, a, now);
    EnqueueSettles(e, a, now);
    var z := Enqueued(e, a, now);
    TouchesCompose(b.deliveries, e.deliveries, z.deliveries, a);
    assert z.index == b.index[a := z.index[a]];
    OneAddressSuffices(b, z, a);
  }

  lemma TouchesCompose(ds: seq<Delivery>, ds': seq<Delivery>, ds'': seq<Delivery>, a: AddressId)
    requires OnlyTouches(ds, ds', a) && OnlyTouches(ds', ds'', a)
    ensures OnlyTouches(ds, ds'', a)
  {
  }

  lemma SameAckAfterEnd(b: Box, i: nat)
    requires OutboxOk(b) && i < |b.deliveries| && Outstanding(b.deliveries[i])
    ensures var c, a := Attempted(b, i, Succeeded, None), b.deliveries[i].addr;
      a in b.index && AckedIndex(c.deliveries, a, b.index[a]) == AckedIndex(b.deliveries, a, b.index[a])
  {
    hide Attempted, AddressOk, Ends, OnlyTouches;
    EndShape(b, i, Succeeded);
    EndedDelivery(b.deliveries, Attempted(b, i, Succeeded, None).deliveries, i, b.deliveries[i].addr,
                  b.index[b.deliveries[i].addr]);
  }

  lemma AckMovedDeliveries(b: Box, i: nat)
    requires i < |b.deliveries| && b.deliveries[i].addr in b.index
    ensures AckMoved(b, i).deliveries == Attempted(b, i, Succeeded, None).deliveries
  {
  }

  lemma SuccessKeepsOutbox(b: Box, i: nat, now: Time)
    requires OutboxOk(b) && i < |b.deliveries| && Outstanding(b.deliveries[i])
    ensures OutboxOk(Acknowledged(b, i, now))
  {
    hide OutboxOk, Attempted, AckMoved, Enqueued;
    SameAckAfterEnd(b, i);
    var a := b.deliveries[i].addr;
    if AckedIndex(b.deliveries, a, b.index[a]) > i {
      EndKeepsOutbox(b, i, Succeeded);
    } else {
      AckMovedDeliveries(b, i);
      MovedAckKeepsOutbox(b, i, now);
    }
  }

  /** A change of the reported pair makes the address dirty under a new version. */
  lemma RecomputeKeepsAddress(ds: seq<Delivery>, a: AddressId, t: Entry, t': Entry)
    requires AddressOk(ds, a, t)
    requires t'.acked == t.acked && t'.notified == t.notified
    requires t'.reported == t.reported ==> t'.version == t.version && t'.notice == t.notice
    requires t'.reported != t.reported ==> t'.version == t.version + 1 && t'.notice.Dirty?
    ensures AddressOk(ds, a, t')
  {
    assert AckedIndex(ds, a, t') == AckedIndex(ds, a, t);
    if t'.reported == t.reported && !t.notice.Dirty? {
      if f :| LastFailed(ds, a, t, f) && ds[f].reported == t.reported {
        assert LastFailed(ds, a, t', f);
      }
    }
  }

  // ------------------------------------------------------------------ the exact failing steps

  /** The newest outstanding event before delivery `i`, or the acknowledged pair. */
  function WordBefore(ds: seq<Delivery>, a: AddressId, t: Entry, i: nat): Reported
    requires i < |ds|
  {
    var j := NewestOutstanding(ds[..i], a, AckedIndex(ds, a, t));
    if j >= 0 then ds[j].reported else t.notified
  }

  /**
   * Giving up on delivery `i` loses the notification of a quiet address exactly when `i` was its
   * newest outstanding delivery and what remains says something else.
   */
  lemma FailureLosesExactly(b: Box, i: nat)
    requires OutboxOk(b) && i < |b.deliveries| && Outstanding(b.deliveries[i])
    requires var a := b.deliveries[i].addr;
      !b.index[a].notice.Dirty? && b.index[a].reported == LastWord(b.deliveries, a, b.index[a])
    ensures var a := b.deliveries[i].addr;
      var t := b.index[a];
      var c := GivenUp(b, i);
      (c.index[a].reported != LastWord(c.deliveries, a, c.index[a]))
      <==> (Newest(b.deliveries, a, t) == i && b.deliveries[i].reported != WordBefore(b.deliveries, a, t, i))
  {
    hide Attempted, AddressOk, Ends, OnlyTouches;
    var a := b.deliveries[i].addr;
    var ds, ds', t := b.deliveries, GivenUp(b, i).deliveries, b.index[a];
    EndShape(b, i, PermanentFailure);
    EndedDelivery(ds, ds', i, a, t);
    NewestAfterEnd(ds, ds', i, a, AckedIndex(ds, a, t));
    EndedKeepsReports(ds, ds', i, a);
  }

  lemma EndedKeepsReports(ds: seq<Delivery>, ds': seq<Delivery>, i: nat, a: AddressId)
    requires Ends(ds, ds', i, a)
    ensures |ds'| == |ds| && forall j :: 0 <= j < |ds| ==> ds'[j].reported == ds[j].reported
  {
  }

  lemma NewestAfterEnd(ds: seq<Delivery>, ds': seq<Delivery>, i: nat, a: AddressId, k: int)
    requires Ends(ds, ds', i, a)
    ensures var n, n' := NewestOutstanding(ds, a, k), NewestOutstanding(ds', a, k);
      n' == if n == i then NewestOutstanding(ds[..i], a, k) else n
  {
    var n, n', j := NewestOutstanding(ds, a, k), NewestOutstanding(ds', a, k), NewestOutstanding(ds[..i], a, k);
    assert n' >= 0 ==> n' != i && Pending(ds[n'], a);
    if n == i {
      assert n' >= 0 ==> n' < i && Pending(ds[..i][n'], a);
      assert j >= 0 ==> Pending(ds'[j], a);
    } else {
      assert n >= 0 ==> Pending(ds'[n], a);
    }
  }
}
