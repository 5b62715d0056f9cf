/**
 * The PrestaShop module's webhook and state hook: completing an order, holding it when its funds
 * drop, and restoring exactly the state it was in.
 */
module PrestaShop {
  import opened Common

  datatype States = States(awaiting: int, hold: int, payment: int, closed: set<int>, paid: set<int>)

  /** The module's own states are distinct from each other and from the shop's closing states. */
  predicate ValidStates(c: States) {
    && c.awaiting > 0 && c.hold > 0 && c.awaiting != c.hold
    && c.awaiting !in c.closed && c.hold !in c.closed && c.awaiting !in c.paid
    && IsPaid(c, c.payment)
  }

  predicate IsOpen(c: States, state: int) { state > 0 && state == c.awaiting }

  predicate IsClosed(c: States, state: int) { state in c.closed }

  predicate IsPaid(c: States, state: int) { state > 0 && state != c.hold && state in c.paid }

  datatype Order = Order(state: int, ours: bool, priced: string)

  /** The module's record of an order; `hasAddress` when a payment session was started. */
  datatype Row = Row(
    hasAddress: bool, version: nat, received: nat, seen: nat, due: int, priced: string,
    review: bool, autoHold: bool, preHold: int)

  datatype Shop = Shop(order: Order, row: Row)

  datatype Observation = Observation(total: nat, seen: nat, version: nat)

  datatype Reply = Applied | Unknown | IgnoredStale | IgnoredSuperseded | RetryLater | Failed

  /** How a change of the order's state ends: a later hook may throw after it was saved. */
  datatype Change = Done | Refused | SavedThenThrew

  // ------------------------------------------------------------------ state changes

  /** What the status hook makes of the record. */
  function Hooked(c: States, s: Shop, state: int): Row {
    if !s.order.ours || !s.row.hasAddress then s.row
    else
      var r := if s.row.autoHold && state != c.hold then s.row.(autoHold := false, preHold := 0) else s.row;
      if IsClosed(c, state) then r.(review := true) else r
  }

  /** A state change and its hook succeed or fail together. */
  function Moved(c: States, s: Shop, state: int): Shop {
    Shop(s.order.(state := state), Hooked(c, s, state))
  }

  function StateSet(c: States, s: Shop, state: int, change: Change): (Shop, bool) {
    if s.order.state == state then (s, true)
    else match change
      case Done => (Moved(c, s, state), true)
      case Refused => (s, false)
      case SavedThenThrew => (Moved(c, s, state), false)
  }

  /** The markers are set before the change and kept only if the order really is on hold. */
  function AutoHeld(c: States, s: Shop, change: Change): (Shop, bool) {
    if s.order.state == c.hold then (s, true)
    else
      var (t, ok) := StateSet(c, s.(row := s.row.(autoHold := true, preHold := s.order.state)), c.hold, change);
      if ok || t.order.state == c.hold then (t, true)
      else (t.(row := t.row.(autoHold := false, preHold := 0)), false)
  }

  predicate Short(total: nat, due: int) { due > 0 && total < due }

  predicate NeedsReview(c: States, s: Shop) {
    || (s.order.state == c.hold && !s.row.autoHold)
    || s.row.review
    || !s.order.ours
    || (!IsPaid(c, s.order.state) && s.row.priced != s.order.priced)
  }

  function Recorded(s: Shop, o: Observation): (Shop, Reply) {
    (s.(row := s.row.(received := o.total, seen := o.seen, version := o.version)), Applied)
  }

  function Flagged(s: Shop): Shop {
    s.(row := s.row.(review := true))
  }

  function HeldAndRecorded(c: States, s: Shop, o: Observation, change: Change): (Shop, Reply) {
    var (t, ok) := AutoHeld(c, s, change);
    if ok then Recorded(t, o) else (t, Failed)
  }

  /** The re-check after the service was asked: what makes the event retry later. */
  predicate StillOpen(c: States, s: Shop) {
    && s.order.ours && !s.row.review && s.row.priced == s.order.priced
    && (IsOpen(c, s.order.state) || (s.order.state == c.hold && s.row.autoHold))
  }

  function Target(c: States, s: Shop): int {
    if s.order.state == c.hold && s.row.autoHold && s.row.preHold > 0 then s.row.preHold else c.payment
  }

  /** `now` is the order and record as they are read again after the service answered. */
  function Completed(c: States, s: Shop, o: Observation, live: Option<nat>, now: Shop, change: Change): (Shop, Reply) {
    if live.None? then (now, RetryLater)
    else if live.value < s.row.due then (now, IgnoredSuperseded)
    else if !StillOpen(c, now) then (now, RetryLater)
    else
      var (t, ok) := StateSet(c, now.(row := now.row.(received := o.total)), Target(c, now), change);
      if ok then Recorded(t, o) else (t, Failed)
  }

  /** One event; merchants may change the shop to `now` while the service is asked. */
  function Step(c: States, s: Shop, o: Observation, live: Option<nat>, now: Shop, change: Change): (Shop, Reply) {
    var paid := IsPaid(c, s.order.state);
    if !s.row.hasAddress then (s, Unknown)
    else if o.version <= s.row.version then (s, IgnoredStale)
    else if NeedsReview(c, s) then
      if paid && Short(o.total, s.row.due) && s.order.ours then HeldAndRecorded(c, Flagged(s), o, change)
      else Recorded(Flagged(s), o)
    else if paid then
      if Short(o.total, s.row.due) then HeldAndRecorded(c, s, o, change) else Recorded(s, o)
    else if IsClosed(c, s.order.state) then Recorded(Flagged(s), o)
    else if s.row.due > 0 && o.total >= s.row.due then Completed(c, s, o, live, now, change)
    else Recorded(s, o)
  }

  /** Whether the event reaches the question to the service, during which the shop may change. */
  predicate Asks(c: States, s: Shop, o: Observation) {
    && s.row.hasAddress && o.version > s.row.version && !NeedsReview(c, s)
    && !IsPaid(c, s.order.state) && !IsClosed(c, s.order.state)
    && s.row.due > 0 && o.total >= s.row.due
  }

  // ------------------------------------------------------------------ the module

  class Module {
    const states: States
    var order: Order
    var row: Row

    ghost function Value(): Shop
      reads this
    {
      Shop(order, row)
    }

    constructor (states: States, order: Order)
      ensures this.states == states
      ensures Value() == Shop(order, Row(false, 0, 0, 0, 0, "", false, false, 0))
    {
      this.states, this.order := states, order;
      row := Row(false, 0, 0, 0, 0, "", false, false, 0);
    }

    method AfterStatusChange(state: int)
      modifies `row
      ensures row == Hooked(states, old(Value()), state)
    {
      if !order.ours || !row.hasAddress {
        return;
      }
      var fields := row;
      if row.autoHold && states.hold != state {
        fields := fields.(autoHold := false, preHold := 0);
      }
      if IsClosed(states, state) {
        fields := fields.(review := true);
      }
      row := fields;
    }

    method SetState(state: int, change: Change) returns (reached: bool)
      modifies this
      ensures Value() == StateSet(states, old(Value()), state, change).0
      ensures reached == StateSet(states, old(Value()), state, change).1
    {
      if order.state != state {
        if change.Refused? {
          return false;
        }
        AfterStatusChange(state);
        order := order.(state := state);
        if change.SavedThenThrew? {
          return false;
        }
      }
      reached := order.state == state;
    }

    method AutoHold(change: Change) returns (held: bool)
      modifies this
      ensures Value() == AutoHeld(states, old(Value()), change).0
      ensures held == AutoHeld(states, old(Value()), change).1
    {
      if order.state == states.hold {
        return true;
      }
      row := row.(autoHold := true, preHold := order.state);
      held := SetState(states.hold, change);
      if held {
        return;
      }
      if order.state == states.hold {
        return true;
      }
      row := row.(autoHold := false, preHold := 0);
    }

    /** `now` is what a fresh read finds once the service has answered. */
    method Apply(o: Observation, live: Option<nat>, now: Shop, change: Change) returns (reply: Reply)
      requires !Asks(states, Value(), o) ==> now == Value()
      modifies this
      ensures Value() == Step(states, old(Value()), o, live, now, change).0
      ensures reply == Step(states, old(Value()), o, live, now, change).1
    {
      if !row.hasAddress {
        return Unknown;
      }
      if o.version <= row.version {
        return IgnoredStale;
      }
      var due := row.due;
      var paid := IsPaid(states, order.state);
      if NeedsReview(states, Shop(order, row)) {
        row := row.(review := true);
        if paid && Short(o.total, due) && order.ours {
          var held := AutoHold(change);
          if !held {
            return Failed;
          }
        }
      } else if paid {
        if Short(o.total, due) {
          var held := AutoHold(change);
          if !held {
            return Failed;
          }
        }
      } else if IsClosed(states, order.state) {
        row := row.(review := true);
      } else if due > 0 && o.total >= due {
        order, row := now.order, now.row;
        if live.None? {
          return RetryLater;
        }
        if live.value < due {
          return IgnoredSuperseded;
        }
        var auto := states.hold == order.state && row.autoHold;
        if !order.ours || row.review || row.priced != order.priced || !(IsOpen(states, order.state) || auto) {
          return RetryLater;
        }
        row := row.(received := o.total);
        var target := if auto && row.preHold > 0 then row.preHold else states.payment;
        var reached := SetState(target, change);
        if !reached {
          return Failed;
        }
      }
      row := row.(received := o.total, seen := o.seen, version := o.version);
      reply := Applied;
    }
  }

  // ------------------------------------------------------------------ what one event does

  /** The module's mark stands only on an order that is on hold, and remembers a paid state. */
  predicate MarkOk(c: States, s: Shop) {
    && (s.row.autoHold && s.order.ours ==> s.order.state == c.hold && IsPaid(c, s.row.preHold))
    && (s.row.autoHold ==> s.row.hasAddress)
  }

  lemma StateSetKeepsMark(c: States, s: Shop, state: int, change: Change)
    requires ValidStates(c) && MarkOk(c, s)
    ensures MarkOk(c, StateSet(c, s, state, change).0)
  {
  }

  lemma AutoHoldKeepsMark(c: States, s: Shop, change: Change)
    requires ValidStates(c) && MarkOk(c, s) && IsPaid(c, s.order.state) && s.order.ours && s.row.hasAddress
    ensures MarkOk(c, AutoHeld(c, s, change).0)
    ensures AutoHeld(c, s, change).1 ==> AutoHeld(c, s, change).0.order.state == c.hold
    ensures AutoHeld(c, s, change).1 ==> AutoHeld(c, s, change).0.row.preHold == s.order.state
  {
  }

  lemma StepKeepsMark(c: States, s: Shop, o: Observation, live: Option<nat>, now: Shop, change: Change)
    requires ValidStates(c) && MarkOk(c, s) && MarkOk(c, now)
    ensures MarkOk(c, Step(c, s, o, live, now, change).0)
  {
    var flagged := Flagged(s);
    if IsPaid(c, s.order.state) && s.order.ours && s.row.hasAddress {
      AutoHoldKeepsMark(c, s, change);
      AutoHoldKeepsMark(c, flagged, change);
    }
    if StillOpen(c, now) {
      StateSetKeepsMark(c, now.(row := now.row.(received := o.total)), Target(c, now), change);
    }
  }

  /** The service still sees the amount due and the order still takes it. */
  predicate Covered(c: States, s: Shop, o: Observation, live: Option<nat>, now: Shop) {
    Asks(c, s, o) && live.Some? && live.value >= s.row.due && StillOpen(c, now)
  }

  /** The webhook completes an order exactly when it is open, unflagged and covered, and the change is saved. */
  lemma CompletesExactly(c: States, s: Shop, o: Observation, live: Option<nat>, now: Shop, change: Change)
    requires ValidStates(c) && MarkOk(c, now) && (Asks(c, s, o) || now == s)
    requires now.order.state == c.awaiting
    ensures Step(c, s, o, live, now, change).0.order.state == c.payment <==> Covered(c, s, o, live, now) && !change.Refused?
    ensures Step(c, s, o, live, now, change).0.order.state != c.payment ==>
              Step(c, s, o, live, now, change).0.order.state == c.awaiting
  {
  }

  /** Recovery restores exactly the remembered state, or changes nothing. */
  lemma RecoversExactly(c: States, s: Shop, o: Observation, live: Option<nat>, now: Shop, change: Change)
    requires ValidStates(c) && MarkOk(c, now) && (Asks(c, s, o) || now == s)
    requires now.order.ours && now.row.autoHold
    ensures var s' := Step(c, s, o, live, now, change).0;
      && (s'.order.state != c.hold <==> Covered(c, s, o, live, now) && !change.Refused?)
      && (s'.order.state != c.hold ==> s'.order.state == now.row.preHold && !s'.row.autoHold)
      && (s'.order.state == c.hold ==> s'.row.autoHold && s'.row.preHold == now.row.preHold)
  {
  }

  /**
   * A closed order is never completed, and its state moves exactly in one case: the shop counts the
   * closing state among the paid ones, which the webhook looks at first, and the order is short of
   * funds. It then goes on hold like any other paid order.
   */
  lemma ClosedMovesExactly(c: States, s: Shop, o: Observation, live: Option<nat>, now: Shop, change: Change)
    requires ValidStates(c) && (Asks(c, s, o) || now == s)
    requires IsClosed(c, now.order.state)
    ensures var t := Step(c, s, o, live, now, change).0.order.state;
      && (t != now.order.state
          <==> && now == s && s.row.hasAddress && o.version > s.row.version && s.order.ours
               && IsPaid(c, s.order.state) && Short(o.total, s.row.due) && !change.Refused?)
      && (t != now.order.state ==> t == c.hold)
  {
  }

  /** A flagged order is never completed; the webhook leaves its state or puts it on hold. */
  lemma FlaggedIsLeftAlone(c: States, s: Shop, o: Observation, live: Option<nat>, now: Shop, change: Change)
    requires ValidStates(c) && (Asks(c, s, o) || now == s) && now.row.review
    ensures var t := Step(c, s, o, live, now, change).0.order.state;
      t == now.order.state || (t == c.hold && IsPaid(c, now.order.state) && Short(o.total, s.row.due))
    ensures Step(c, s, o, live, now, change).0.row.review
  {
  }

  lemma VersionRecorded(c: States, s: Shop, o: Observation, live: Option<nat>, now: Shop, change: Change)
    ensures var (s', reply) := Step(c, s, o, live, now, change);
      && (reply.Applied? ==> o.version > s.row.version && s'.row.version == o.version && s'.row.received == o.total)
      && (!reply.Applied? ==> s'.row.version == s.row.version || s'.row.version == now.row.version)
  {
  }

  lemma NotLeftShort(c: States, s: Shop, o: Observation, live: Option<nat>, now: Shop, change: Change)
    requires ValidStates(c) && now.row.due == s.row.due
    ensures var (s', reply) := Step(c, s, o, live, now, change);
      reply.Applied? ==> !(s'.order.ours && IsPaid(c, s'.order.state) && Short(s'.row.received, s'.row.due))
  {
  }

  /** Every recorded event leaves no paid order of the module short of funds. */
  lemma ShortIsHeld(c: States, s: Shop, o: Observation, live: Option<nat>, now: Shop, change: Change)
    requires ValidStates(c) && now.row.due == s.row.due
    ensures var (s', reply) := Step(c, s, o, live, now, change);
      reply.Applied? ==> o.version > s.row.version && s'.row.version == o.version && s'.row.received == o.total
    ensures var (s', reply) := Step(c, s, o, live, now, change);
      reply.Applied? ==> !(s'.order.ours && IsPaid(c, s'.order.state) && Short(s'.row.received, s'.row.due))
    ensures var (s', reply) := Step(c, s, o, live, now, change);
      !reply.Applied? ==> s'.row.version == s.row.version || s'.row.version == now.row.version
  {
    hide Step;
    VersionRecorded(c, s, o, live, now, change);
    NotLeftShort(c, s, o, live, now, change);
  }

  // ------------------------------------------------------------------ one event, exactly

  /** The service is asked exactly about an unflagged, unchanged, open order that the event covers. */
  lemma AsksExactly(c: States, s: Shop, o: Observation)
    ensures Asks(c, s, o) <==>
      && s.row.hasAddress && o.version > s.row.version && s.order.ours && !s.row.review
      && (s.order.state == c.hold ==> s.row.autoHold) && s.row.priced == s.order.priced
      && (s.order.state <= 0 || s.order.state == c.hold || s.order.state !in c.paid) && s.order.state !in c.closed
      && s.row.due > 0 && o.total >= s.row.due
  {
  }

  /** The answer counts exactly if the order is still the module's, unflagged, unchanged, and awaiting or held by it. */
  lemma StillOpenExactly(c: States, now: Shop)
    ensures StillOpen(c, now) <==>
      && now.order.ours && !now.row.review && now.row.priced == now.order.priced
      && ((now.order.state > 0 && now.order.state == c.awaiting) || (now.order.state == c.hold && now.row.autoHold))
  {
  }

  /** The event finds a paid order of the module short of funds. */
  predicate FindsShort(c: States, s: Shop, o: Observation) {
    && s.row.hasAddress && o.version > s.row.version && s.order.ours
    && s.order.state > 0 && s.order.state != c.hold && s.order.state in c.paid
    && s.row.due > 0 && o.total < s.row.due
  }

  /**
   * Where the event moves the order: a short paid one on hold, a covered one to the remembered or
   * the paid state, and no other anywhere.
   */
  lemma MovesExactly(c: States, s: Shop, o: Observation, live: Option<nat>, now: Shop, change: Change)
    requires ValidStates(c) && (Asks(c, s, o) || now == s)
    ensures var s' := Step(c, s, o, live, now, change).0;
      s'.order == now.order.(state :=
        if change.Refused? then now.order.state
        else if FindsShort(c, s, o) then c.hold
        else if !Covered(c, s, o, live, now) then now.order.state
        else if now.order.state == c.hold && now.row.preHold > 0 then now.row.preHold
        else c.payment)
  {
  }

  /**
   * An order is flagged exactly by a newer event that finds a hold of the merchant, another payment
   * method, a changed price before it was paid, or an order closed unpaid; or if it is completed
   * into a closing state. A flag is never taken away.
   */
  lemma ReviewExactly(c: States, s: Shop, o: Observation, live: Option<nat>, now: Shop, change: Change)
    requires ValidStates(c) && (Asks(c, s, o) || now == s)
    ensures var s' := Step(c, s, o, live, now, change).0;
      var unpaid := s.order.state <= 0 || s.order.state == c.hold || s.order.state !in c.paid;
      s'.row.review <==>
        || now.row.review
        || (s.row.hasAddress && o.version > s.row.version
            && (|| (s.order.state == c.hold && !s.row.autoHold)
                || !s.order.ours
                || (unpaid && (s.row.priced != s.order.priced || s.order.state in c.closed))))
        || (now.row.hasAddress && now.order.ours && s'.order.state != now.order.state && s'.order.state in c.closed)
  {
  }

  /** What the service is told about every event. */
  lemma AnswersExactly(c: States, s: Shop, o: Observation, live: Option<nat>, now: Shop, change: Change)
    requires ValidStates(c) && (Asks(c, s, o) || now == s)
    ensures var (s', reply) := Step(c, s, o, live, now, change);
      && (reply.Unknown? <==> !s.row.hasAddress)
      && (reply.IgnoredStale? <==> s.row.hasAddress && o.version <= s.row.version)
      && (reply.IgnoredSuperseded? <==> Asks(c, s, o) && live.Some? && live.value < s.row.due)
      && (reply.RetryLater? <==>
            Asks(c, s, o) && (live.None? || (live.value >= s.row.due && !StillOpen(c, now))))
      && (reply.Failed? <==>
            || (FindsShort(c, s, o) && change.Refused?)
            || (Covered(c, s, o, live, now) && !change.Done?
                && now.order.state != if now.order.state == c.hold && now.row.preHold > 0 then now.row.preHold else c.payment))
  {
  }

  /** A change of the state touches nothing in the record but mark and flag. */
  predicate SameFigures(r: Row, r': Row) {
    r' == r.(review := r'.review, autoHold := r'.autoHold, preHold := r'.preHold)
  }

  lemma StateSetKeepsFigures(c: States, s: Shop, state: int, change: Change)
    ensures SameFigures(s.row, StateSet(c, s, state, change).0.row)
  {
  }

  lemma AutoHoldKeepsFigures(c: States, s: Shop, change: Change)
    ensures SameFigures(s.row, AutoHeld(c, s, change).0.row)
  {
    hide StateSet;
    StateSetKeepsFigures(c, s.(row := s.row.(autoHold := true, preHold := s.order.state)), c.hold, change);
  }

  /** A recorded event stores its three figures; a completion stores the total before the state is changed. */
  lemma RecordedExactly(c: States, s: Shop, o: Observation, live: Option<nat>, now: Shop, change: Change)
    requires ValidStates(c) && (Asks(c, s, o) || now == s)
    ensures var (s', reply) := Step(c, s, o, live, now, change);
      && (s'.row.hasAddress, s'.row.due, s'.row.priced) == (now.row.hasAddress, now.row.due, now.row.priced)
      && (s'.row.version, s'.row.seen) == (if reply.Applied? then (o.version, o.seen) else (now.row.version, now.row.seen))
      && s'.row.received == (if reply.Applied? || Covered(c, s, o, live, now) then o.total else now.row.received)
  {
    hide StateSet, AutoHeld, StillOpen, NeedsReview, Target, IsPaid, IsClosed, Short;
    AutoHoldKeepsFigures(c, s, change);
    AutoHoldKeepsFigures(c, Flagged(s), change);
    StateSetKeepsFigures(c, now.(row := now.row.(received := o.total)), Target(c, now), change);
  }

  /** The mark is set with the hold and remembers the state before it; a refused hold and a recovery clear it. */
  lemma MarkExactly(c: States, s: Shop, o: Observation, live: Option<nat>, now: Shop, change: Change)
    requires ValidStates(c) && (Asks(c, s, o) || now == s)
    ensures var s' := Step(c, s, o, live, now, change).0;
      (s'.row.autoHold, s'.row.preHold) ==
        if FindsShort(c, s, o) then (if change.Refused? then (false, 0) else (true, s.order.state))
        else if now.row.autoHold && now.row.hasAddress && s'.order.state != now.order.state then (false, 0)
        else (now.row.autoHold, now.row.preHold)
  {
  }

  /** What the status hook does: leaving the hold clears the mark, closing sets the review flag. */
  lemma HookExactly(c: States, s: Shop, state: int)
    ensures var r, mine := Hooked(c, s, state), s.order.ours && s.row.hasAddress;
      && (r.review <==> s.row.review || (mine && state in c.closed))
      && (r.autoHold <==> s.row.autoHold && (mine ==> state == c.hold))
      && r.preHold == (if s.row.autoHold && !r.autoHold then 0 else s.row.preHold)
      && r == s.row.(review := r.review, autoHold := r.autoHold, preHold := r.preHold)
  {
  }

  // ------------------------------------------------------------------ runs

  /** Merchants and customers: state changes run the hook, everything else edits order or record. */
  datatype Deed =
    | ChangeState(state: int, change: Change)
    | CreditSlip
    | Reprice(priced: string)
    | Reassign
    | ClearReview
    | StartSession(due: int)

  function DeedDone(c: States, s: Shop, d: Deed): Shop {
    match d
    case ChangeState(state, change) => if s.order.state == state then s else StateSet(c, s, state, change).0
    case CreditSlip => if s.order.ours && s.row.hasAddress then Flagged(s) else s
    case Reprice(priced) => s.(order := s.order.(priced := priced))
    case Reassign => s.(order := s.order.(ours := false))
    case ClearReview => s.(row := s.row.(review := false))
    case StartSession(due) =>
      if s.order.ours && !s.row.hasAddress && IsOpen(c, s.order.state)
      then s.(row := s.row.(hasAddress := true, due := due, received := 0, seen := 0, priced := s.order.priced))
      else s
  }

  function DeedsDone(c: States, s: Shop, ds: seq<Deed>): Shop {
    if ds == [] then s else DeedDone(c, DeedsDone(c, s, ds[..|ds| - 1]), ds[|ds| - 1])
  }

  /** A webhook event with what happened while it asked the service, or a deed between events. */
  datatype Event =
    | Webhook(o: Observation, live: Option<nat>, meanwhile: seq<Deed>, change: Change)
    | Deed(deed: Deed)

  /** What a webhook reads after its question; deeds fall into it only if it asks. */
  function Reread(c: States, s: Shop, e: Event): Shop
    requires e.Webhook?
  {
    if Asks(c, s, e.o) then DeedsDone(c, s, e.meanwhile) else s
  }

  function After(c: States, s: Shop, e: Event): (Shop, Reply) {
    if e.Webhook? then Step(c, s, e.o, e.live, Reread(c, s, e), e.change) else (DeedDone(c, s, e.deed), IgnoredStale)
  }

  predicate IsShopRun(c: States, run: seq<Shop>, events: seq<Event>) {
    && |run| == |events| + 1 && MarkOk(c, run[0])
    && forall i :: 0 <= i < |events| ==> run[i + 1] == After(c, run[i], events[i]).0
  }

  lemma DeedKeepsMark(c: States, s: Shop, d: Deed)
    requires ValidStates(c) && MarkOk(c, s)
    ensures MarkOk(c, DeedDone(c, s, d))
    ensures DeedDone(c, s, d).row.version == s.row.version && (s.row.hasAddress ==> DeedDone(c, s, d).row.due == s.row.due)
    ensures s.row.hasAddress ==> DeedDone(c, s, d).row.hasAddress
  {
  }

  lemma {:induction false} DeedsKeepMark(c: States, s: Shop, ds: seq<Deed>)
    requires ValidStates(c) && MarkOk(c, s)
    ensures MarkOk(c, DeedsDone(c, s, ds))
    ensures DeedsDone(c, s, ds).row.version == s.row.version
    ensures s.row.hasAddress ==> DeedsDone(c, s, ds).row.hasAddress && DeedsDone(c, s, ds).row.due == s.row.due
  {
    if ds != [] {
      DeedsKeepMark(c, s, ds[..|ds| - 1]);
      DeedKeepsMark(c, DeedsDone(c, s, ds[..|ds| - 1]), ds[|ds| - 1]);
    }
  }

  /** In every reachable state the mark stands only on a held order and remembers a paid state. */
  lemma {:induction false} MarksAreTrue(c: States, run: seq<Shop>, events: seq<Event>, k: nat)
    requires ValidStates(c) && IsShopRun(c, run, events) && k < |run|
    ensures MarkOk(c, run[k])
  {
    if k > 0 {
      MarksAreTrue(c, run, events, k - 1);
      var s, e := run[k - 1], events[k - 1];
      if e.Webhook? {
        DeedsKeepMark(c, s, e.meanwhile);
        StepKeepsMark(c, s, e.o, e.live, Reread(c, s, e), e.change);
      } else {
        DeedKeepsMark(c, s, e.deed);
      }
    }
  }

  /** The event puts a paid order on hold. */
  predicate Holds(c: States, s: Shop, e: Event) {
    e.Webhook? && IsPaid(c, s.order.state) && After(c, s, e).0.order.state == c.hold
  }

  /** The event ends the module's hold. */
  predicate Releases(c: States, s: Shop, e: Event) {
    e.Webhook? && var now := Reread(c, s, e);
      now.order.ours && now.row.autoHold && After(c, s, e).0.order.state != c.hold
  }

  /** While the mark stands, what it remembers does not change. */
  predicate MarkedThroughout(c: States, run: seq<Shop>, i: nat, j: nat)
    requires i <= j < |run|
  {
    forall k :: i <= k <= j ==> run[k].row.autoHold && run[k].order.ours
  }

  lemma DeedKeepsMemory(c: States, s: Shop, d: Deed)
    ensures DeedDone(c, s, d).row.autoHold ==> s.row.autoHold && DeedDone(c, s, d).row.preHold == s.row.preHold
  {
  }

  lemma {:induction false} DeedsKeepMemory(c: States, s: Shop, ds: seq<Deed>)
    ensures DeedsDone(c, s, ds).row.autoHold ==> s.row.autoHold && DeedsDone(c, s, ds).row.preHold == s.row.preHold
  {
    if ds != [] {
      DeedsKeepMemory(c, s, ds[..|ds| - 1]);
      DeedKeepsMemory(c, DeedsDone(c, s, ds[..|ds| - 1]), ds[|ds| - 1]);
    }
  }

  lemma EventKeepsMemory(c: States, s: Shop, e: Event)
    requires ValidStates(c) && MarkOk(c, s) && s.row.autoHold && s.order.ours
    ensures After(c, s, e).0.row.autoHold ==> After(c, s, e).0.row.preHold == s.row.preHold
  {
    if e.Webhook? {
      DeedsKeepMemory(c, s, e.meanwhile);
    } else {
      DeedKeepsMemory(c, s, e.deed);
    }
  }

  lemma {:induction false} MemoryLasts(c: States, run: seq<Shop>, events: seq<Event>, i: nat, j: nat)
    requires ValidStates(c) && IsShopRun(c, run, events) && i <= j < |run| && MarkedThroughout(c, run, i, j)
    ensures run[j].row.preHold == run[i].row.preHold
    decreases j
  {
    if i < j {
      MemoryLasts(c, run, events, i, j - 1);
      MarksAreTrue(c, run, events, j - 1);
      EventKeepsMemory(c, run[j - 1], events[j - 1]);
    }
  }

  lemma HoldRemembers(c: States, s: Shop, e: Event)
    requires ValidStates(c) && MarkOk(c, s) && Holds(c, s, e)
    ensures After(c, s, e).0.row.preHold == s.order.state
  {
  }

  /**
   * Hold bookkeeping over runs: when the module's hold of a paid order ends by recovery, the order
   * is back in exactly the state it had when the hold began, whatever happened in between.
   */
  lemma RecoveryRestores(c: States, run: seq<Shop>, events: seq<Event>, i: nat, j: nat)
    requires ValidStates(c) && IsShopRun(c, run, events) && i < j < |events|
    requires Holds(c, run[i], events[i]) && MarkedThroughout(c, run, i + 1, j) && Releases(c, run[j], events[j])
    ensures run[j + 1].order.state == run[i].order.state
  {
    var s, e := run[j], events[j];
    MarksAreTrue(c, run, events, i);
    MarksAreTrue(c, run, events, j);
    HoldRemembers(c, run[i], events[i]);
    MemoryLasts(c, run, events, i + 1, j);
    DeedsKeepMark(c, s, e.meanwhile);
    DeedsKeepMemory(c, s, e.meanwhile);
    RecoversExactly(c, s, e.o, e.live, Reread(c, s, e), e.change);
  }

  // ------------------------------------------------------------------ completing once

  /** The webhook moves an open order to the paid state. */
  predicate Completes(c: States, s: Shop, e: Event) {
    e.Webhook? && Reread(c, s, e).order.state == c.awaiting && After(c, s, e).0.order.state == c.payment
  }

  predicate Reopens(c: States, d: Deed) {
    d.ChangeState? && d.state == c.awaiting
  }

  /** No merchant puts the order back into the awaiting state. */
  predicate NeverReopened(c: States, events: seq<Event>) {
    forall k :: 0 <= k < |events| ==>
      if events[k].Webhook? then forall d :: d in events[k].meanwhile ==> !Reopens(c, d) else !Reopens(c, events[k].deed)
  }

  lemma {:induction false} DeedsDoNotReopen(c: States, s: Shop, ds: seq<Deed>)
    requires s.order.state != c.awaiting && forall d :: d in ds ==> !Reopens(c, d)
    ensures DeedsDone(c, s, ds).order.state != c.awaiting
  {
    if ds != [] {
      DeedsDoNotReopen(c, s, ds[..|ds| - 1]);
      assert !Reopens(c, ds[|ds| - 1]);
    }
  }

  lemma EventDoesNotReopen(c: States, s: Shop, e: Event)
    requires ValidStates(c) && MarkOk(c, s) && s.order.state != c.awaiting
    requires if e.Webhook? then forall d :: d in e.meanwhile ==> !Reopens(c, d) else !Reopens(c, e.deed)
    ensures After(c, s, e).0.order.state != c.awaiting
    ensures !Completes(c, s, e)
  {
    if e.Webhook? {
      DeedsDoNotReopen(c, s, e.meanwhile);
      DeedsKeepMark(c, s, e.meanwhile);
    }
  }

  lemma {:induction false} StaysUnopened(c: States, run: seq<Shop>, events: seq<Event>, i: nat, j: nat)
    requires ValidStates(c) && IsShopRun(c, run, events) && NeverReopened(c, events) && i <= j < |run|
    requires run[i].order.state != c.awaiting
    ensures run[j].order.state != c.awaiting
    decreases j
  {
    if i < j {
      StaysUnopened(c, run, events, i, j - 1);
      MarksAreTrue(c, run, events, j - 1);
      EventDoesNotReopen(c, run[j - 1], events[j - 1]);
    }
  }

  /** Unless a merchant reopens the order, the webhook completes it at most once. */
  lemma CompletedOnce(c: States, run: seq<Shop>, events: seq<Event>, i: nat, j: nat)
    requires ValidStates(c) && IsShopRun(c, run, events) && NeverReopened(c, events) && i < j < |events|
    requires Completes(c, run[i], events[i])
    ensures !Completes(c, run[j], events[j])
  {
    StaysUnopened(c, run, events, i + 1, j);
    MarksAreTrue(c, run, events, j);
    EventDoesNotReopen(c, run[j], events[j]);
  }

  predicate Records(c: States, s: Shop, e: Event) {
    e.Webhook? && After(c, s, e).1.Applied?
  }

  lemma {:induction false} VersionsNeverFall(c: States, run: seq<Shop>, events: seq<Event>, i: nat, j: nat)
    requires ValidStates(c) && IsShopRun(c, run, events) && i <= j < |run|
    ensures run[i].row.version <= run[j].row.version
    decreases j
  {
    if i < j {
      VersionsNeverFall(c, run, events, i, j - 1);
      MarksAreTrue(c, run, events, j - 1);
      var s, e := run[j - 1], events[j - 1];
      if e.Webhook? {
        DeedsKeepMark(c, s, e.meanwhile);
        EventVersion(c, s, e);
      } else {
        DeedKeepsMark(c, s, e.deed);
      }
    }
  }

  lemma EventVersion(c: States, s: Shop, e: Event)
    requires ValidStates(c) && MarkOk(c, s) && e.Webhook?
    ensures Records(c, s, e) ==> e.o.version > s.row.version && After(c, s, e).0.row.version == e.o.version
    ensures Records(c, s, e) ==> After(c, s, e).0.row.received == e.o.total
    ensures !Records(c, s, e) ==> After(c, s, e).0.row.version == s.row.version
  {
    DeedsKeepMark(c, s, e.meanwhile);
  }

  /** Recorded versions strictly increase along a run. */
  lemma RecordedVersionsIncrease(c: States, run: seq<Shop>, events: seq<Event>, i: nat, j: nat)
    requires ValidStates(c) && IsShopRun(c, run, events) && i < j < |events|
    requires Records(c, run[i], events[i]) && Records(c, run[j], events[j])
    ensures events[i].o.version < events[j].o.version
  {
    MarksAreTrue(c, run, events, i);
    MarksAreTrue(c, run, events, j);
    EventVersion(c, run[i], events[i]);
    EventVersion(c, run[j], events[j]);
    VersionsNeverFall(c, run, events, i + 1, j);
  }

  // ------------------------------------------------------------------ short orders over runs

  /** A paid order of the module whose recorded funds do not cover it. */
  predicate Uncovered(c: States, s: Shop) {
    s.order.ours && IsPaid(c, s.order.state) && Short(s.row.received, s.row.due)
  }

  /** Between events `i` and `j` no merchant changes the order's state. */
  predicate StateLeftAlone(events: seq<Event>, i: nat, j: nat)
    requires i <= j <= |events|
  {
    forall k :: i <= k < j ==>
      if events[k].Webhook? then forall d :: d in events[k].meanwhile ==> !d.ChangeState? else !events[k].deed.ChangeState?
  }

  lemma DeedKeepsCovered(c: States, s: Shop, d: Deed)
    requires ValidStates(c) && !d.ChangeState? && !Uncovered(c, s)
    ensures !Uncovered(c, DeedDone(c, s, d))
  {
  }

  lemma {:induction false} DeedsKeepCovered(c: States, s: Shop, ds: seq<Deed>)
    requires ValidStates(c) && (forall d :: d in ds ==> !d.ChangeState?) && !Uncovered(c, s)
    ensures !Uncovered(c, DeedsDone(c, s, ds))
  {
    if ds != [] {
      DeedsKeepCovered(c, s, ds[..|ds| - 1]);
      assert !ds[|ds| - 1].ChangeState?;
      DeedKeepsCovered(c, DeedsDone(c, s, ds[..|ds| - 1]), ds[|ds| - 1]);
    }
  }

  lemma StepKeepsCovered(c: States, s: Shop, o: Observation, live: Option<nat>, now: Shop, change: Change)
    requires ValidStates(c) && MarkOk(c, now) && !Uncovered(c, s) && !Uncovered(c, now) && now.row.due == s.row.due
    ensures !Uncovered(c, Step(c, s, o, live, now, change).0)
  {
  }

  lemma EventKeepsCovered(c: States, s: Shop, e: Event)
    requires ValidStates(c) && MarkOk(c, s) && !Uncovered(c, s)
    requires if e.Webhook? then forall d :: d in e.meanwhile ==> !d.ChangeState? else !e.deed.ChangeState?
    ensures !Uncovered(c, After(c, s, e).0)
  {
    if e.Webhook? {
      DeedsKeepCovered(c, s, e.meanwhile);
      DeedsKeepMark(c, s, e.meanwhile);
      StepKeepsCovered(c, s, e.o, e.live, Reread(c, s, e), e.change);
    } else {
      DeedKeepsCovered(c, s, e.deed);
    }
  }

  /**
   * After a recorded event no paid order of the module is short of its recorded funds, and it stays
   * so over all further events, replies of any kind and deeds, until a merchant changes the state.
   */
  lemma {:induction false} ShortStaysHeld(c: States, run: seq<Shop>, events: seq<Event>, i: nat, j: nat)
    requires ValidStates(c) && IsShopRun(c, run, events) && i < j <= |events|
    requires Records(c, run[i], events[i]) && StateLeftAlone(events, i + 1, j)
    ensures !Uncovered(c, run[j])
    decreases j
  {
    var s, e := run[j - 1], events[j - 1];
    MarksAreTrue(c, run, events, j - 1);
    if j == i + 1 {
      DeedsKeepMark(c, s, e.meanwhile);
      ShortIsHeld(c, s, e.o, e.live, Reread(c, s, e), e.change);
    } else {
      ShortStaysHeld(c, run, events, i, j - 1);
      EventKeepsCovered(c, s, e);
    }
  }
}
