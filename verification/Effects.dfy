/** What a call of the order service means to its callers: who gets through and when, what can happen next, what stays. */
module Effects {
  import opened Common
  import opened Fulfilment
  import opened Ledger
  import opened Lifecycle
  import opened Marketplace
  import opened Retention

  predicate IsOwnSeller(orders: map<Id, Order>, caller: User, order: Id) {
    caller.role == Seller && order in orders && orders[order].deletedAt.None? && orders[order].seller == caller.id
  }

  /** All rows but the one named are as they were. */
  predicate OnlyRow<T(==)>(before: map<Id, T>, after: map<Id, T>, row: Id) {
    && row in after
    && (forall r | r in before && r != row :: r in after && after[r] == before[r])
    && (forall r | r in after && r != row :: r in before)
  }

  // ---------------------------------------------------------------------------
  // Accepting and preparing
  // ---------------------------------------------------------------------------

  /**
   The order's own seller accepts it, while it is pending, and then nobody does again.  Preparing is
   refused before and open to the seller after.
   */
  lemma AcceptedOnce(db: Db, caller: User, order: Id, now: Time, other: User, later: Time)
    ensures var step := AcceptOrder(db, caller, order, now);
            && (step.outcome.Done? <==> IsOwnSeller(db.orders, caller, order) && db.orders[order].status == Pending)
            && (step.outcome.Done? ==>
                  && MarkPreparing(db, caller, order, now).outcome == Failed(OrderInvalidTransition)
                  && MarkPreparing(step.db, caller, order, later).outcome == Done
                  && AcceptOrder(step.db, other, order, later).outcome.Failed?)
  {
    var step := AcceptOrder(db, caller, order, now);
    if step.outcome.Done? {
      assert step.db.orders[order].status == Accepted;
      assert !Hidden(step.db.orders, caller, order);
    }
  }

  /** Preparing happens once, after accepting and before anything leaves. */
  lemma PreparedOnce(db: Db, caller: User, order: Id, row: Id, now: Time, other: User, later: Time)
    ensures var step := MarkPreparing(db, caller, order, now);
            && (step.outcome.Done? <==> IsOwnSeller(db.orders, caller, order) && db.orders[order].status == Accepted)
            && (step.outcome.Done? ==>
                  && SendOut(db, caller, order, row, now).outcome.Failed?
                  && MarkPreparing(step.db, other, order, later).outcome.Failed?
                  && AcceptOrder(step.db, other, order, later).outcome.Failed?)
  {
    var step := MarkPreparing(db, caller, order, now);
    if step.outcome.Done? {
      assert step.db.orders[order].status == Preparing;
    }
  }

  lemma AcceptingKeeps(db: Db, caller: User, order: Id, now: Time)
    ensures var step := AcceptOrder(db, caller, order, now);
            (step.outcome.Done? && Staged(db.orders[order], now) ==>
                  KeepsLife(db.orders[order], step.db.orders[order], now))
  {
    var step := AcceptOrder(db, caller, order, now);
    if step.outcome.Done? && Staged(db.orders[order], now) {
      MovesStayStaged(db.orders[order], step.db.orders[order], now);
    }
  }

  lemma PreparingKeeps(db: Db, caller: User, order: Id, now: Time)
    ensures var step := MarkPreparing(db, caller, order, now);
            (step.outcome.Done? && Staged(db.orders[order], now) ==>
                  KeepsLife(db.orders[order], step.db.orders[order], now))
  {
    var step := MarkPreparing(db, caller, order, now);
    if step.outcome.Done? && Staged(db.orders[order], now) {
      MovesStayStaged(db.orders[order], step.db.orders[order], now);
    }
  }

  // ---------------------------------------------------------------------------
  // Choosing a fulfilment
  // ---------------------------------------------------------------------------

  /** Nothing delivers the order yet. */
  predicate Unfulfilled(deliveries: Deliveries, assignments: Assignments, order: Id) {
    && (forall d | d in deliveries :: deliveries[d].order != order)
    && (forall a | a in assignments && IsActive(assignments[a]) :: assignments[a].order != order)
  }

  predicate MayChoose(db: Db, caller: User, order: Id) {
    && IsOwnSeller(db.orders, caller, order)
    && (db.orders[order].status == Accepted || db.orders[order].status == Preparing)
    && HasProfile(db.sellers, caller.id)
    && Unfulfilled(db.deliveries, db.assignments, order)
  }

  /** The lookups of both choices come to this: the seller may choose exactly while nothing delivers the order. */
  lemma RefusedExactlyWhenNot(db: Db, caller: User, order: Id)
    ensures FulfilmentRefusal(db, caller, order).None? <==> MayChoose(db, caller, order)
  {
    var rows, active := DeliveriesOf(db.deliveries, order), ActiveAssignments(db.assignments, order);
    assert rows == {} <==> forall d | d in db.deliveries :: db.deliveries[d].order != order by {
      assert forall d | d in db.deliveries && db.deliveries[d].order == order :: d in rows;
    }
    assert active == {} <==> forall a | a in db.assignments && IsActive(db.assignments[a]) :: db.assignments[a].order != order by {
      assert forall a | a in db.assignments && db.assignments[a].order == order && IsActive(db.assignments[a]) :: a in active;
    }
  }

  /** A choice is made once: afterwards both choices are refused to everybody, at any time. */
  lemma SelfDeliveryChosenOnce(db: Db, caller: User, order: Id, row: Id, other: User, next: Id, later: Time)
    requires row !in db.deliveries
    ensures var step := ChooseSelfDelivery(db, caller, order, row);
            && (step.outcome.Done? <==> MayChoose(db, caller, order))
            && (step.outcome.Done? ==>
                  && DeliveriesOf(step.db.deliveries, order) == {row}
                  && step.db.deliveries[row].driver.None?
                  && ChooseSelfDelivery(step.db, other, order, next).outcome.Failed?
                  && RequestDriver(step.db, other, order, next, later).outcome.Failed?
                  && ChooseSelfDelivery(step.db, caller, order, next).outcome == Failed(FulfillmentAlreadyChosen))
  {
    RefusedExactlyWhenNot(db, caller, order);
    var step := ChooseSelfDelivery(db, caller, order, row);
    if step.outcome.Done? {
      assert DeliveriesOf(step.db.deliveries, order) == {row};
      RefusedExactlyWhenNot(step.db, other, order);
      assert !Unfulfilled(step.db.deliveries, step.db.assignments, order);
    }
  }

  lemma DriverRequestedOnce(db: Db, caller: User, order: Id, row: Id, now: Time, other: User, next: Id, later: Time)
    requires row !in db.assignments
    ensures var step := RequestDriver(db, caller, order, row, now);
            && (step.outcome.Done? <==> MayChoose(db, caller, order))
            && (step.outcome.Done? ==>
                  && ActiveAssignments(step.db.assignments, order) == {row}
                  && DriverAssignments(step.db.assignments, order) == {}
                  && ChooseSelfDelivery(step.db, other, order, next).outcome.Failed?
                  && RequestDriver(step.db, other, order, next, later).outcome.Failed?
                  && RequestDriver(step.db, caller, order, next, later).outcome == Failed(FulfillmentAlreadyChosen))
  {
    RefusedExactlyWhenNot(db, caller, order);
    var step := RequestDriver(db, caller, order, row, now);
    if step.outcome.Done? {
      assert ActiveAssignments(step.db.assignments, order) == {row};
      assert DriverAssignments(step.db.assignments, order) == {} by {
        assert forall a | a in db.assignments && db.assignments[a].order == order :: !IsActive(db.assignments[a]);
      }
      RefusedExactlyWhenNot(step.db, other, order);
      assert IsActive(step.db.assignments[row]) && !Unfulfilled(step.db.deliveries, step.db.assignments, order);
    }
  }

  // ---------------------------------------------------------------------------
  // Assigning a driver
  // ---------------------------------------------------------------------------

  /** A driver can be assigned: there is an active request and no active one names a driver. */
  predicate AwaitsDriver(assignments: Assignments, order: Id) {
    && (exists a | a in assignments :: assignments[a].order == order && IsActive(assignments[a]))
    && (forall a | a in assignments && assignments[a].order == order && IsActive(assignments[a]) :: assignments[a].driver.None?)
  }

  predicate MayAssign(db: Db, caller: User, order: Id, driver: Id) {
    && caller.role == Admin && order in db.orders && db.orders[order].deletedAt.None?
    && (db.orders[order].status == Accepted || db.orders[order].status == Preparing)
    && driver in db.activeDrivers && AwaitsDriver(db.assignments, order)
  }

  lemma AssignableExactlyWhen(db: Db, caller: User, order: Id, driver: Id)
    ensures AssignmentRefusal(db, caller, order, driver).None? <==> MayAssign(db, caller, order, driver)
  {
    var active := ActiveAssignments(db.assignments, order);
    assert forall a | a in db.assignments && db.assignments[a].order == order && IsActive(db.assignments[a]) :: a in active;
  }

  /** The row that gets the driver: an active one of the order, and none was requested later. */
  predicate LatestRequest(assignments: Assignments, order: Id, row: Id) {
    && row in assignments && assignments[row].order == order && IsActive(assignments[row])
    && forall a | a in assignments && assignments[a].order == order && IsActive(assignments[a]) ::
         assignments[a].requestedAt <= assignments[row].requestedAt
  }

  /** One driver is assigned, to the latest request, and no second one to the same order. */
  lemma DriverAssignedOnce(db: Db, caller: User, order: Id, driver: Id, now: Time, other: Id, later: Time) returns (row: Id)
    ensures var step := AssignDriver(db, caller, order, driver, now);
            && (step.outcome.Done? <==> MayAssign(db, caller, order, driver))
            && (step.outcome.Done? ==>
                  && LatestRequest(db.assignments, order, row)
                  && OnlyRow(db.assignments, step.db.assignments, row)
                  && step.db.assignments[row].order == order
                  && step.db.assignments[row].driver == Some(driver) && HasDriver(step.db.assignments[row])
                  && AssignDriver(step.db, caller, order, other, later).outcome.Failed?)
  {
    var step := AssignDriver(db, caller, order, driver, now);
    var active := ActiveAssignments(db.assignments, order);
    assert forall a | a in db.assignments && db.assignments[a].order == order && IsActive(db.assignments[a]) :: a in active;
    AssignableExactlyWhen(db, caller, order, driver);
    row := order;
    if step.outcome.Done? {
      row := MostRecent(db.assignments, active);
      assert row in ActiveAssignments(step.db.assignments, order);
    }
  }

  /** With one request and no delivery yet, the assigned driver can leave as soon as the order is being prepared. */
  lemma AssignedDriverMayLeave(db: Db, caller: User, order: Id, driver: User, now: Time, row: Id, later: Time)
    requires Fulfilled(db) && AssignDriver(db, caller, order, driver.id, now).outcome.Done?
    requires driver.role == Driver && db.orders[order].status == Preparing && db.orders[order].outForDeliveryAt.None?
    requires forall d | d in db.deliveries :: db.deliveries[d].order != order
    ensures SendOut(AssignDriver(db, caller, order, driver.id, now).db, driver, order, row, later).outcome == Done
  {
    var step := AssignDriver(db, caller, order, driver.id, now);
    var pending := DriverAssignedOnce(db, caller, order, driver.id, now, driver.id, later);
    var named := DriverAssignments(step.db.assignments, order);
    forall a | a in named
      ensures a == pending
    {
      assert a in db.assignments && db.assignments[a].order == order;
    }
    assert named == {pending};
    assert DeliveriesOf(step.db.deliveries, order) == {};
  }

  // ---------------------------------------------------------------------------
  // The snapshot
  // ---------------------------------------------------------------------------

  /**
   Writing an order's snapshot once or again, now or later, gives one row: the first one, which records
   the sale; all rows there were stay, in place.
   */
  lemma SnapshotWrittenOnce(db: Db, order: Id, now: Time, again: Db, later: Time)
    requires order in db.orders && order in again.orders && again.ledger == WriteSnapshot(db, order, now)
    ensures var after := WriteSnapshot(db, order, now);
            && db.ledger <= after
            && InLedger(after, order)
            && (forall o | o != order :: InLedger(after, o) <==> InLedger(db.ledger, o))
            && (OneRowEach(db.ledger) ==> OneRowEach(after))
            && (!InLedger(db.ledger, order) ==> Records(after[|after| - 1], db.orders[order]) && |after| == |db.ledger| + 1)
            && WriteSnapshot(again, order, later) == after
  {
    var after := WriteSnapshot(db, order, now);
    if InLedger(db.ledger, order) {
      assert after == db.ledger;
    } else {
      var row := SnapshotOf(db, order, now);
      assert after == db.ledger + [row] && row.order == order;
      assert forall r | r in after :: r in db.ledger || r == row;
      assert forall r | r in db.ledger :: r in after;
      assert row in after;
      assert forall i | 0 <= i < |db.ledger| :: after[i] in db.ledger;
    }
  }

  // ---------------------------------------------------------------------------
  // Deletion
  // ---------------------------------------------------------------------------

  /** No row of any table but the ledger names the order. */
  predicate Gone(db: Db, order: Id) {
    && order !in db.orders && order !in db.codes && order !in db.attempts && order !in db.messages
    && (forall d | d in db.deliveries :: db.deliveries[d].order != order)
    && (forall a | a in db.assignments :: db.assignments[a].order != order)
  }

  /** What belongs to another order is as it was. */
  predicate OthersKept(before: Db, after: Db, order: Id) {
    && (forall o | o in before.orders && o != order :: o in after.orders && after.orders[o] == before.orders[o])
    && (forall o | o in before.codes && o != order :: o in after.codes && after.codes[o] == before.codes[o])
    && (forall o | o in before.attempts && o != order :: o in after.attempts && after.attempts[o] == before.attempts[o])
    && (forall o | o in before.messages && o != order :: o in after.messages && after.messages[o] == before.messages[o])
    && (forall d | d in before.deliveries && before.deliveries[d].order != order ::
          d in after.deliveries && after.deliveries[d] == before.deliveries[d])
    && (forall a | a in before.assignments && before.assignments[a].order != order ::
          a in after.assignments && after.assignments[a] == before.assignments[a])
    && after.products == before.products
  }

  /** A terminal order past its period can be deleted by whom it concerns, once, with all that names it, and its sale stays booked. */
  lemma DeletedOnce(db: Db, caller: User, order: Id, now: Time, other: User, later: Time)
    ensures var step := DeleteOrder(db, caller, order, now);
            && (step.outcome.Done? <==>
                  && order in db.orders && db.orders[order].deletedAt.None? && MayDelete(caller, db.orders[order])
                  && PeriodOver(db.orders[order], WithSettings(db).settings.value, now))
            && (step.outcome.Done? ==>
                  && Gone(step.db, order) && OthersKept(db, step.db, order)
                  && db.ledger <= step.db.ledger
                  && (db.orders[order].status == Completed ==> InLedger(step.db.ledger, order))
                  && DeleteOrder(step.db, other, order, later).outcome == Failed(OrderNotFound))
  {
    var step := DeleteOrder(db, caller, order, now);
    if order in db.orders && db.orders[order].deletedAt.None? {
      RetentionTestsCoincide(db, caller, order, now);
    }
    if step.outcome.Done? {
      var start := WithSettings(db);
      RemoveTables(start, order, now);
      assert step.db == Remove(start, order, now);
      RemovedAndKept(db, start, step.db, order);
      if db.orders[order].status == Completed {
        WritingAppends(start, order, now);
      }
    }
  }

  lemma RemovedAndKept(db: Db, start: Db, after: Db, order: Id)
    requires start == db.(settings := start.settings)
    requires after == Erase(start, {order}).(ledger := after.ledger)
    ensures Gone(after, order) && OthersKept(db, after, order)
  {
  }
}
