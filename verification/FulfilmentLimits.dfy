/** What the driver's delivery flow does to the fulfilment rows: exactly when each of its calls keeps them exclusive. */
module FulfilmentLimits {
  import opened Common
  import opened Frames
  import opened Fulfilment
  import opened Lifecycle
  import opened Marketplace
  import opened Retention
  import opened Runs

  /**
   complete_delivery writes the order's status and leaves its delivery row alone.  A right code keeps the
   rows in step exactly when the order was delivered before; on an order out for delivery it leaves a
   delivered order with a delivery in transit.
   */
  lemma SubmittedCodeKeepsFulfilmentIff(db: Db, driver: User, order: Id, submitted: string, at: Time)
    requires Fulfilled(db) && FlowComplete(db, driver, order, submitted, at).outcome.Done?
    ensures Fulfilled(FlowComplete(db, driver, order, submitted, at).db) <==> db.orders[order].status in {Delivered, Completed}
  {
    var after := FlowComplete(db, driver, order, submitted, at).db;
    var o := after.orders[order];
    assert o.status == Delivered && after.orders == db.orders[order := o];
    assert after.deliveries == db.deliveries && after.assignments == db.assignments;
    CompletionKeepsIff(db.orders, db.deliveries, db.assignments, order, o);
  }

  lemma CompletionKeepsIff(orders: Orders, deliveries: Deliveries, assignments: Assignments, order: Id, o: Order)
    requires Exclusive(orders, deliveries, assignments) && order in orders && o.status == Delivered
    ensures Exclusive(orders[order := o], deliveries, assignments) <==> orders[order].status in {Delivered, Completed}
  {
    var after := orders[order := o];
    assert Served(deliveries, order, orders[order].status);
    if orders[order].status in {Delivered, Completed} {
      forall d | d in deliveries
        ensures DeliveryFits(after, assignments, deliveries[d])
      {
        assert DeliveryFits(orders, assignments, deliveries[d]);
      }
      forall a | a in assignments
        ensures AssignmentFits(after, assignments[a])
      {
        assert AssignmentFits(orders, assignments[a]);
      }
    } else {
      forall d | d in deliveries && deliveries[d].order == order
        ensures deliveries[d].status != Arrived
      {
        assert DeliveryFits(orders, assignments, deliveries[d]);
      }
      assert !Served(deliveries, order, after[order].status);
    }
  }

  /** The call is the order's first acceptance. */
  predicate Accepts(db: Db, driver: User, order: Id, row: Id, plain: string, at: Time) {
    && FlowAccept(db, driver, order, row, plain, at).outcome.Done?
    && FlowAccept(db, driver, order, row, plain, at).db != db
    && row !in db.deliveries
  }

  /** The driver was already on the delivery, or the order was cancelled after being assigned to the driver. */
  predicate WasTheDriver(db: Db, driver: Id, order: Id)
    requires order in db.orders
  {
    if exists d | d in db.deliveries :: db.deliveries[d].order == order then
      exists d | d in db.deliveries :: db.deliveries[d].order == order && db.deliveries[d].driver == Some(driver)
    else
      && db.orders[order].status == Cancelled
      && exists a | a in db.assignments :: db.assignments[a].order == order && db.assignments[a].driver == Some(driver)
  }

  /** accept_order of the flow writes driver_id or a delivery in transit behind no check of the order's stage or assignment. */
  lemma AcceptanceKeepsFulfilmentIff(db: Db, driver: User, order: Id, row: Id, plain: string, at: Time)
    requires Fulfilled(db) && Accepts(db, driver, order, row, plain, at)
    ensures order in db.orders
    ensures Fulfilled(FlowAccept(db, driver, order, row, plain, at).db) <==> WasTheDriver(db, driver.id, order)
  {
    var after := FlowAccept(db, driver, order, row, plain, at).db;
    var rows := DeliveriesOf(db.deliveries, order);
    var found := ScalarOneOrNone(rows);
    assert after.orders == db.orders[order := after.orders[order]];
    assert after.orders[order].status == db.orders[order].status && after.assignments == db.assignments;
    if found.OneRow? {
      assert found.id in rows;
      assert after.deliveries == db.deliveries[found.id := db.deliveries[found.id].(driver := Some(driver.id))];
      TakingOverKeepsIff(db.orders, db.deliveries, db.assignments, after.orders[order], found.id, driver.id);
      assert WasTheDriver(db, driver.id, order) <==> db.deliveries[found.id].driver == Some(driver.id);
    } else {
      assert forall d | d in db.deliveries :: db.deliveries[d].order != order by {
        assert forall d | d in db.deliveries && db.deliveries[d].order == order :: d in rows;
      }
      var d := Delivery(order, Some(driver.id), db.orders[order].seller, InTransit, None, None, None, None);
      assert after.deliveries == db.deliveries[row := d];
      InsertingKeepsIff(db.orders, db.deliveries, db.assignments, after.orders[order], row, d);
    }
  }

  lemma TakingOverKeepsIff(
      orders: Orders, deliveries: Deliveries, assignments: Assignments, o: Order, row: Id, driver: Id)
    requires Exclusive(orders, deliveries, assignments) && row in deliveries
    requires deliveries[row].order in orders && o.status == orders[deliveries[row].order].status
    ensures Exclusive(orders[deliveries[row].order := o], deliveries[row := deliveries[row].(driver := Some(driver))], assignments)
       <==> deliveries[row].driver == Some(driver)
  {
    var order := deliveries[row].order;
    var os, ds := orders[order := o], deliveries[row := deliveries[row].(driver := Some(driver))];
    assert DeliveryFits(orders, assignments, deliveries[row]);
    if deliveries[row].driver == Some(driver) {
      assert ds == deliveries;
      StatusKeeps(orders, deliveries, assignments, order, o);
    } else {
      assert forall a | a in assignments :: !IsDriverOf(assignments[a], ds[row]);
      assert !DeliveryFits(os, assignments, ds[row]);
    }
  }

  lemma InsertingKeepsIff(
      orders: Orders, deliveries: Deliveries, assignments: Assignments, o: Order, row: Id, d: Delivery)
    requires Exclusive(orders, deliveries, assignments) && row !in deliveries
    requires d.order in orders && o.status == orders[d.order].status
    requires d.status == InTransit && d.driver.Some?
    requires forall e | e in deliveries :: deliveries[e].order != d.order
    ensures Exclusive(orders[d.order := o], deliveries[row := d], assignments)
       <==> o.status == Cancelled
            && exists a | a in assignments :: assignments[a].order == d.order && assignments[a].driver == d.driver
  {
    var os, ds := orders[d.order := o], deliveries[row := d];
    StatusKeeps(orders, deliveries, assignments, d.order, o);
    assert Served(deliveries, d.order, o.status);
    assert o.status != OutForDelivery;
    if o.status == Cancelled {
      CancelledInsert(os, deliveries, assignments, row, d);
    } else {
      assert !DeliveryFits(os, assignments, ds[row]);
    }
  }

  lemma CancelledInsert(orders: Orders, deliveries: Deliveries, assignments: Assignments, row: Id, d: Delivery)
    requires Exclusive(orders, deliveries, assignments) && row !in deliveries
    requires d.order in orders && orders[d.order].status == Cancelled && d.status == InTransit && d.driver.Some?
    requires forall e | e in deliveries :: deliveries[e].order != d.order
    ensures Exclusive(orders, deliveries[row := d], assignments)
       <==> exists a | a in assignments :: assignments[a].order == d.order && assignments[a].driver == d.driver
  {
    var ds := deliveries[row := d];
    InsertKeepsServed(orders, deliveries, row, d);
    forall a | a in assignments && assignments[a].order == d.order
      ensures assignments[a].status == Dropped
    {
      assert AssignmentFits(orders, assignments[a]);
    }
    if exists a | a in assignments :: assignments[a].order == d.order && assignments[a].driver == d.driver {
      var a :| a in assignments && assignments[a].order == d.order && assignments[a].driver == d.driver;
      assert IsDriverOf(assignments[a], d);
      assert DeliveryFits(orders, assignments, d);
    } else {
      assert !DeliveryFits(orders, assignments, ds[row]);
    }
  }

  // ---------------------------------------------------------------------------
  // Runs of both services
  // ---------------------------------------------------------------------------

  lemma SameStatusesKeep(orders: Orders, after: Orders, deliveries: Deliveries, assignments: Assignments)
    requires Exclusive(orders, deliveries, assignments) && SameKeys(orders, after)
    requires forall o | o in orders :: after[o].status == orders[o].status
    ensures Exclusive(after, deliveries, assignments)
  {
    forall d | d in deliveries
      ensures DeliveryFits(after, assignments, deliveries[d])
    {
      assert DeliveryFits(orders, assignments, deliveries[d]);
    }
    forall a | a in assignments
      ensures AssignmentFits(after, assignments[a])
    {
      assert AssignmentFits(orders, assignments[a]);
    }
    forall o | o in after
      ensures Served(deliveries, o, after[o].status)
    {
      assert Served(deliveries, o, orders[o].status);
    }
  }

  lemma WrongCodeKeeps(db: Db, driver: User, order: Id, submitted: string, at: Time)
    requires Fulfilled(db) && FlowComplete(db, driver, order, submitted, at).outcome.Failed?
    ensures Fulfilled(FlowComplete(db, driver, order, submitted, at).db)
  {
    var after := FlowComplete(db, driver, order, submitted, at).db;
    SubmissionWithin(db, driver, order, submitted, at);
    forall o | o in db.orders
      ensures o in after.orders && after.orders[o].status == db.orders[o].status
    {
      WrongCodeRewrites(db, driver, order, submitted, at, o);
    }
    SubmissionKeepsDeliveries(db, driver, order, submitted, at);
    SameStatusesKeep(db.orders, after.orders, db.deliveries, db.assignments);
  }

  lemma SubmissionKeepsDeliveries(db: Db, driver: User, order: Id, submitted: string, at: Time)
    ensures FlowComplete(db, driver, order, submitted, at).db.deliveries == db.deliveries
  {
  }

  /** What the flow's calls must meet: an acceptance by the driver already on the order, a code after delivery. */
  predicate FlowInStep(db: Db, op: Op) {
    op.call.DriverFlow? ==>
      match op.call.flow
      case DriverAccept(row, plain) =>
        Accepts(db, op.call.caller, op.call.order, row, plain, op.at) ==>
          op.call.order in db.orders && WasTheDriver(db, op.call.caller.id, op.call.order)
      case SubmitCode(submitted) =>
        Apply(db, op).outcome.Done? ==>
          op.call.order in db.orders && db.orders[op.call.order].status in {Delivered, Completed}
      case Chat => true
  }

  lemma FlowStepKeepsExactlyWhen(db: Db, flow: Flow, caller: User, order: Id, at: Time)
    requires Fulfilled(db) && FreshFlow(db, flow)
    ensures Fulfilled(ApplyFlow(db, flow, caller, order, at).db) <==> FlowInStep(db, Op(DriverFlow(flow, caller, order), at))
  {
    match flow {
      case DriverAccept(row, plain) =>
        if Accepts(db, caller, order, row, plain, at) {
          AcceptanceKeepsFulfilmentIff(db, caller, order, row, plain, at);
        } else {
          assert FlowAccept(db, caller, order, row, plain, at).db == db;
        }
      case SubmitCode(submitted) =>
        if FlowComplete(db, caller, order, submitted, at).outcome.Done? {
          SubmittedCodeKeepsFulfilmentIff(db, caller, order, submitted, at);
        } else {
          WrongCodeKeeps(db, caller, order, submitted, at);
        }
      case Chat => ChatIsGood(db, caller, order);
    }
  }

  predicate AllInStep(w: World, ops: seq<Op>)
    decreases |ops|
  {
    ops == [] || (FlowInStep(w.db, ops[0]) && AllInStep(Advance(w, ops[0]), ops[1..]))
  }

  predicate AllFulfilled(w: World, ops: seq<Op>)
    decreases |ops|
  {
    ops == [] || (Fulfilled(Apply(w.db, ops[0]).db) && AllFulfilled(Advance(w, ops[0]), ops[1..]))
  }

  /** A run of both services keeps the rows exclusive at every step exactly when all calls of the flow meet that. */
  lemma {:induction false} RunIsFulfilledExactlyWhen(w: World, ops: seq<Op>)
    requires Fulfilled(w.db) && SettingsOk(w.db.settings) && Known(w) && IsRun(w, ops)
    ensures AllFulfilled(w, ops) <==> AllInStep(w, ops)
    decreases |ops|
  {
    if ops != [] {
      var op, next := ops[0], Advance(w, ops[0]);
      if op.call.DriverFlow? {
        FlowStepKeepsExactlyWhen(w.db, op.call.flow, op.call.caller, op.call.order, op.at);
      } else {
        StepIsGood(w, op);
      }
      StepKeepsSettings(w.db, op);
      StepKeepsKnown(w, op);
      if Fulfilled(next.db) {
        RunIsFulfilledExactlyWhen(next, ops[1..]);
      }
    }
  }
}
