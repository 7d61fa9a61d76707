/** Self-delivery or one driver: which delivery and assignment rows an order can have at each status. */
module Fulfilment {
  import opened Common
  import opened Checkout
  import opened Marketplace
  import opened Runs
  import opened Retention
  import opened Lifecycle

  type Orders = map<Id, Order>
  type Deliveries = map<Id, Delivery>
  type Assignments = map<Id, Assignment>

  predicate OneDeliveryEach(deliveries: Deliveries) {
    forall a, b | a in deliveries && b in deliveries && deliveries[a].order == deliveries[b].order :: a == b
  }

  predicate OneAssignmentEach(assignments: Assignments) {
    forall a, b | a in assignments && b in assignments && assignments[a].order == assignments[b].order :: a == b
  }

  /** The delivery's status goes with the order's. */
  predicate InStep(delivery: DeliveryStatus, order: Status) {
    match delivery
    case Waiting => order in {Accepted, Preparing, Cancelled}
    case InTransit => order in {OutForDelivery, Cancelled}
    case Arrived => order in {Delivered, Completed}
    case Undelivered => false
  }

  predicate IsDriverOf(a: Assignment, d: Delivery) {
    a.order == d.order && a.driver == d.driver && a.status in {Assigned, Dropped}
  }

  /** Self-delivery excludes every assignment; a driver's delivery carries the driver the order was assigned. */
  predicate DeliveryFits(orders: Orders, assignments: Assignments, d: Delivery) {
    && d.order in orders && InStep(d.status, orders[d.order].status)
    && (d.status == Waiting ==> d.driver.None?)
    && if d.driver.None? then forall a | a in assignments :: assignments[a].order != d.order
       else exists a | a in assignments :: IsDriverOf(assignments[a], d)
  }

  predicate AssignmentFits(orders: Orders, a: Assignment) {
    && a.order in orders && orders[a.order].status != Pending
    && (a.status == Dropped <==> orders[a.order].status == Cancelled)
    && (a.status == Requested ==> a.driver.None?)
    && (a.status == Assigned ==> a.driver.Some?)
    && a.status in {Requested, Assigned, Dropped}
  }

  /** From departure on the order has a delivery, and it is where the order says it is. */
  predicate Served(deliveries: Deliveries, order: Id, status: Status) {
    && (status == OutForDelivery ==> exists d | d in deliveries :: deliveries[d].order == order && deliveries[d].status == InTransit)
    && (status in {Delivered, Completed} ==> exists d | d in deliveries :: deliveries[d].order == order && deliveries[d].status == Arrived)
  }

  predicate Exclusive(orders: Orders, deliveries: Deliveries, assignments: Assignments) {
    && OneDeliveryEach(deliveries)
    && OneAssignmentEach(assignments)
    && (forall d | d in deliveries :: DeliveryFits(orders, assignments, deliveries[d]))
    && (forall a | a in assignments :: AssignmentFits(orders, assignments[a]))
    && (forall o | o in orders :: Served(deliveries, o, orders[o].status))
  }

  predicate Fulfilled(db: Db) {
    Exclusive(db.orders, db.deliveries, db.assignments)
  }

  // ---------------------------------------------------------------------------
  // Changes of the tables that keep the rows exclusive
  // ---------------------------------------------------------------------------

  lemma NewOrderKeeps(orders: Orders, deliveries: Deliveries, assignments: Assignments, order: Id, o: Order)
    requires Exclusive(orders, deliveries, assignments) && order !in orders && o.status == Pending
    ensures Exclusive(orders[order := o], deliveries, assignments)
  {
  }

  /** A status change between two statuses that ask the same of the delivery and assignment rows. */
  lemma StatusKeeps(orders: Orders, deliveries: Deliveries, assignments: Assignments, order: Id, o: Order)
    requires Exclusive(orders, deliveries, assignments) && order in orders
    requires var was := orders[order].status;
             || o.status == was
             || (was == Pending && o.status == Accepted)
             || (was == Accepted && o.status == Preparing)
             || (was == Delivered && o.status == Completed)
    ensures Exclusive(orders[order := o], deliveries, assignments)
  {
    var after := orders[order := o];
    forall d | d in deliveries
      ensures DeliveryFits(after, assignments, deliveries[d])
    {
      assert DeliveryFits(orders, assignments, deliveries[d]);
    }
    assert Served(deliveries, order, orders[order].status);
  }

  /** Only a cancelled order keeps assignments that are not active. */
  lemma NoneActiveMeansNone(orders: Orders, deliveries: Deliveries, assignments: Assignments, order: Id)
    requires Exclusive(orders, deliveries, assignments) && order in orders && orders[order].status != Cancelled
    ensures ActiveAssignments(assignments, order) == {} ==> forall a | a in assignments :: assignments[a].order != order
  {
    forall a | a in assignments && assignments[a].order == order
      ensures a in ActiveAssignments(assignments, order)
    {
      assert AssignmentFits(orders, assignments[a]);
    }
  }

  lemma SelfDeliveryKeeps(
      orders: Orders, deliveries: Deliveries, assignments: Assignments, row: Id, d: Delivery)
    requires Exclusive(orders, deliveries, assignments) && row !in deliveries
    requires d.driver.None? && d.status == Waiting
    requires d.order in orders && orders[d.order].status in {Accepted, Preparing}
    requires DeliveriesOf(deliveries, d.order) == {} && ActiveAssignments(assignments, d.order) == {}
    ensures Exclusive(orders, deliveries[row := d], assignments)
  {
    assert forall x | x in deliveries && deliveries[x].order == d.order :: x in DeliveriesOf(deliveries, d.order);
    NoneActiveMeansNone(orders, deliveries, assignments, d.order);
    InsertKeepsServed(orders, deliveries, row, d);
  }

  lemma InsertKeepsServed(orders: Orders, deliveries: Deliveries, row: Id, d: Delivery)
    requires row !in deliveries && forall o | o in orders :: Served(deliveries, o, orders[o].status)
    ensures forall o | o in orders :: Served(deliveries[row := d], o, orders[o].status)
  {
    var after := deliveries[row := d];
    forall o | o in orders
      ensures Served(after, o, orders[o].status)
    {
      assert Served(deliveries, o, orders[o].status);
      assert forall x | x in deliveries :: x in after && after[x] == deliveries[x];
    }
  }

  lemma RequestKeeps(orders: Orders, deliveries: Deliveries, assignments: Assignments, row: Id, a: Assignment)
    requires Exclusive(orders, deliveries, assignments) && row !in assignments
    requires a.driver.None? && a.status == Requested
    requires a.order in orders && orders[a.order].status in {Accepted, Preparing}
    requires DeliveriesOf(deliveries, a.order) == {} && ActiveAssignments(assignments, a.order) == {}
    ensures Exclusive(orders, deliveries, assignments[row := a])
  {
    var after := assignments[row := a];
    assert forall x | x in deliveries && deliveries[x].order == a.order :: x in DeliveriesOf(deliveries, a.order);
    NoneActiveMeansNone(orders, deliveries, assignments, a.order);
    forall d | d in deliveries
      ensures DeliveryFits(orders, after, deliveries[d])
    {
      assert DeliveryFits(orders, assignments, deliveries[d]);
      assert forall x | x in assignments :: x in after && after[x] == assignments[x];
    }
  }

  lemma AssigningKeeps(orders: Orders, deliveries: Deliveries, assignments: Assignments, row: Id, a: Assignment)
    requires Exclusive(orders, deliveries, assignments)
    requires row in assignments && assignments[row].status == Requested && a.order == assignments[row].order
    requires a.status == Assigned && a.driver.Some?
    ensures Exclusive(orders, deliveries, assignments[row := a])
  {
    var after := assignments[row := a];
    assert AssignmentFits(orders, assignments[row]);
    forall d | d in deliveries
      ensures DeliveryFits(orders, after, deliveries[d])
    {
      assert DeliveryFits(orders, assignments, deliveries[d]);
      if deliveries[d].driver.Some? {
        var x :| x in assignments && IsDriverOf(assignments[x], deliveries[d]);
        assert x != row && after[x] == assignments[x];
      }
    }
  }

  /** The delivery row and the order move together; the driver does not change. */
  lemma MovingKeeps(
      orders: Orders, deliveries: Deliveries, assignments: Assignments, row: Id, d: Delivery, o: Order)
    requires Exclusive(orders, deliveries, assignments)
    requires row in deliveries && d.order == deliveries[row].order && d.driver == deliveries[row].driver
    requires o.status in {OutForDelivery, Delivered} && orders[d.order].status in {Preparing, OutForDelivery}
    requires d.status == if o.status == OutForDelivery then InTransit else Arrived
    ensures Exclusive(orders[d.order := o], deliveries[row := d], assignments)
  {
    var order := d.order;
    var os, ds := orders[order := o], deliveries[row := d];
    assert DeliveryFits(orders, assignments, deliveries[row]);
    forall x | x in ds
      ensures DeliveryFits(os, assignments, ds[x])
    {
      assert DeliveryFits(orders, assignments, deliveries[x]);
      if x == row { MovedRowFits(orders, deliveries, assignments, row, d, o); }
    }
    forall a | a in assignments
      ensures AssignmentFits(os, assignments[a])
    {
      assert AssignmentFits(orders, assignments[a]);
    }
    assert ds[row] == d;
    MovedRowServesItsOrder(orders, deliveries, row, d);
    assert OneDeliveryEach(ds);
  }

  lemma MovedRowFits(
      orders: Orders, deliveries: Deliveries, assignments: Assignments, row: Id, d: Delivery, o: Order)
    requires row in deliveries && DeliveryFits(orders, assignments, deliveries[row])
    requires d.order == deliveries[row].order && d.driver == deliveries[row].driver
    requires o.status in {OutForDelivery, Delivered}
    requires d.status == if o.status == OutForDelivery then InTransit else Arrived
    ensures DeliveryFits(orders[d.order := o], assignments, d)
  {
    if d.driver.Some? {
      var a :| a in assignments && IsDriverOf(assignments[a], deliveries[row]);
      assert IsDriverOf(assignments[a], d);
    }
  }

  lemma MovedRowServesItsOrder(orders: Orders, deliveries: Deliveries, row: Id, d: Delivery)
    requires row in deliveries && d.order == deliveries[row].order
    requires forall o | o in orders :: Served(deliveries, o, orders[o].status)
    ensures forall o | o in orders && o != d.order :: Served(deliveries[row := d], o, orders[o].status)
  {
    var after := deliveries[row := d];
    forall o | o in orders && o != d.order
      ensures Served(after, o, orders[o].status)
    {
      assert Served(deliveries, o, orders[o].status);
      assert forall y | y in deliveries && deliveries[y].order == o :: y in after && after[y] == deliveries[y];
    }
  }

  /** The lazily created delivery carries the assigned driver. */
  lemma DepartureKeeps(
      orders: Orders, deliveries: Deliveries, assignments: Assignments, row: Id, d: Delivery, o: Order, a: Id)
    requires Exclusive(orders, deliveries, assignments) && row !in deliveries
    requires d.order in orders && orders[d.order].status == Preparing && o.status == OutForDelivery
    requires d.status == InTransit && d.driver.Some?
    requires a in assignments && IsDriverOf(assignments[a], d)
    requires DeliveriesOf(deliveries, d.order) == {}
    ensures Exclusive(orders[d.order := o], deliveries[row := d], assignments)
  {
    var order := d.order;
    var os, ds := orders[order := o], deliveries[row := d];
    assert forall x | x in deliveries && deliveries[x].order == order :: x in DeliveriesOf(deliveries, order);
    forall x | x in ds
      ensures DeliveryFits(os, assignments, ds[x])
    {
      if x != row { assert DeliveryFits(orders, assignments, deliveries[x]); }
    }
    InsertKeepsServed(orders, deliveries, row, d);
    assert ds[row] == d;
  }

  lemma CancellingKeeps(orders: Orders, deliveries: Deliveries, assignments: Assignments, order: Id, o: Order)
    requires Exclusive(orders, deliveries, assignments) && order in orders
    requires o.status == Cancelled && orders[order].status in {Pending, Accepted, Preparing, OutForDelivery}
    ensures Exclusive(orders[order := o], deliveries, DropAssignments(assignments, order))
  {
    var os, dropped := orders[order := o], DropAssignments(assignments, order);
    forall a | a in dropped
      ensures AssignmentFits(os, dropped[a])
      ensures dropped[a].order == assignments[a].order && dropped[a].driver == assignments[a].driver
      ensures dropped[a] == if assignments[a].order == order then assignments[a].(status := Dropped) else assignments[a]
    {
      assert AssignmentFits(orders, assignments[a]);
      if assignments[a].order == order { assert a in ActiveAssignments(assignments, order); }
    }
    forall d | d in deliveries
      ensures DeliveryFits(os, dropped, deliveries[d])
    {
      assert DeliveryFits(orders, assignments, deliveries[d]);
      if deliveries[d].driver.Some? {
        var a :| a in assignments && IsDriverOf(assignments[a], deliveries[d]);
        assert IsDriverOf(dropped[a], deliveries[d]);
      }
    }
  }

  lemma ErasingKeeps(db: Db, gone: set<Id>)
    requires Fulfilled(db)
    ensures Fulfilled(Erase(db, gone))
  {
    var left := Erase(db, gone);
    forall d | d in left.deliveries
      ensures DeliveryFits(left.orders, left.assignments, left.deliveries[d])
    {
      assert DeliveryFits(db.orders, db.assignments, db.deliveries[d]);
      if db.deliveries[d].driver.Some? {
        var a :| a in db.assignments && IsDriverOf(db.assignments[a], db.deliveries[d]);
        assert a in left.assignments;
      }
    }
    forall a | a in left.assignments
      ensures AssignmentFits(left.orders, left.assignments[a])
    {
      assert AssignmentFits(db.orders, db.assignments[a]);
    }
    forall o | o in left.orders
      ensures Served(left.deliveries, o, left.orders[o].status)
    {
      assert Served(db.deliveries, o, db.orders[o].status);
      assert forall d | d in db.deliveries && db.deliveries[d].order == o :: d in left.deliveries;
    }
  }

  lemma MarkingKeeps(orders: Orders, deliveries: Deliveries, assignments: Assignments, rows: seq<Id>, now: Time)
    requires Exclusive(orders, deliveries, assignments)
    requires forall o | o in rows :: o in orders && orders[o].status == Delivered
    ensures Exclusive(MarkAll(orders, rows, now), deliveries, assignments)
  {
    var after := MarkAll(orders, rows, now);
    forall d | d in deliveries
      ensures DeliveryFits(after, assignments, deliveries[d])
    {
      assert DeliveryFits(orders, assignments, deliveries[d]);
    }
    forall a | a in assignments
      ensures AssignmentFits(after, assignments[a])
    {
      assert AssignmentFits(orders, assignments[a]);
    }
    forall o | o in after
      ensures Served(deliveries, o, after[o].status)
    {
      assert Served(deliveries, o, orders[o].status);
    }
  }

  // ---------------------------------------------------------------------------
  // Lookups
  // ---------------------------------------------------------------------------

  /** No lookup by order meets two rows. */
  lemma LookupsAreUnambiguous(db: Db, order: Id)
    requires Fulfilled(db)
    ensures !ScalarOneOrNone(DeliveriesOf(db.deliveries, order)).ManyRows?
    ensures !ScalarOneOrNone(ActiveAssignments(db.assignments, order)).ManyRows?
    ensures !ScalarOneOrNone(DriverAssignments(db.assignments, order)).ManyRows?
  {
    ManyRowsMeansTwo(DeliveriesOf(db.deliveries, order));
    ManyRowsMeansTwo(ActiveAssignments(db.assignments, order));
    ManyRowsMeansTwo(DriverAssignments(db.assignments, order));
  }

  // ---------------------------------------------------------------------------
  // Steps and runs
  // ---------------------------------------------------------------------------

  /** The step keeps the rows exclusive and no lookup in it met two rows. */
  predicate Good(step: Step) {
    Fulfilled(step.db) && step.outcome != Failed(MultipleResultsFound)
  }

  /** A call that writes nothing but the order's row, one stage further, and the ledger. */
  lemma StatusStepIsGood(db: Db, step: Step, order: Id)
    requires Fulfilled(db) && step.outcome != Failed(MultipleResultsFound)
    requires step.outcome.Failed? ==> step.db == db
    requires step.outcome.Done? ==>
               && order in db.orders && order in step.db.orders
               && step.db == db.(orders := db.orders[order := step.db.orders[order]], ledger := step.db.ledger)
               && (db.orders[order].status, step.db.orders[order].status)
                  in {(Pending, Accepted), (Accepted, Preparing), (Delivered, Completed)}
    ensures Good(step)
  {
    if step.outcome.Done? {
      StatusKeeps(db.orders, db.deliveries, db.assignments, order, step.db.orders[order]);
    }
  }

  lemma StageIsGood(db: Db, move: Move, caller: User, order: Id, at: Time)
    requires Fulfilled(db) && (move.Accept? || move.Prepare? || move.Confirm?)
    ensures Good(ApplyMove(db, move, caller, order, at))
  {
    match move {
      case Accept => StatusStepIsGood(db, AcceptOrder(db, caller, order, at), order);
      case Prepare => StatusStepIsGood(db, MarkPreparing(db, caller, order, at), order);
      case Confirm => StatusStepIsGood(db, CompleteOrder(db, caller, order, at), order);
    }
  }

  /** The first departure of an assigned driver inserts the delivery. */
  lemma SendOfAssigned(db: Db, caller: User, order: Id, row: Id, at: Time)
    requires Fulfilled(db) && row !in db.deliveries && DeliveriesOf(db.deliveries, order) == {}
    requires SendOut(db, caller, order, row, at).outcome.Done?
    ensures Good(SendOut(db, caller, order, row, at))
  {
    var step := SendOut(db, caller, order, row, at);
    var o := Departed(db.orders[order], at);
    var a := ScalarOneOrNone(DriverAssignments(db.assignments, order)).id;
    assert a in DriverAssignments(db.assignments, order);
    var d := Delivery(order, db.assignments[a].driver, db.orders[order].seller, InTransit, Some(at), None, None, None);
    assert step.db == db.(orders := db.orders[order := o], deliveries := db.deliveries[row := d]);
    assert AssignmentFits(db.orders, db.assignments[a]);
    DepartureKeeps(db.orders, db.deliveries, db.assignments, row, d, o, a);
  }

  /** A departure with a chosen delivery moves it. */
  lemma SendOfChosen(db: Db, caller: User, order: Id, row: Id, at: Time, found: Id)
    requires Fulfilled(db) && ScalarOneOrNone(DeliveriesOf(db.deliveries, order)) == OneRow(found)
    requires SendOut(db, caller, order, row, at).outcome.Done?
    ensures Good(SendOut(db, caller, order, row, at))
  {
    var step := SendOut(db, caller, order, row, at);
    var o := Departed(db.orders[order], at);
    assert found in DeliveriesOf(db.deliveries, order);
    var d := db.deliveries[found].(status := InTransit, startedAt := Some(at));
    assert step.db == db.(orders := db.orders[order := o], deliveries := db.deliveries[found := d]);
    MovingKeeps(db.orders, db.deliveries, db.assignments, found, d, o);
  }

  lemma SendIsGood(db: Db, caller: User, order: Id, row: Id, at: Time)
    requires Fulfilled(db) && row !in db.deliveries
    ensures Good(SendOut(db, caller, order, row, at))
  {
    LookupsAreUnambiguous(db, order);
    var found := ScalarOneOrNone(DeliveriesOf(db.deliveries, order));
    if SendOut(db, caller, order, row, at).outcome.Failed? {
      assert SendOut(db, caller, order, row, at).db == db;
    } else if found.OneRow? {
      SendOfChosen(db, caller, order, row, at, found.id);
    } else {
      SendOfAssigned(db, caller, order, row, at);
    }
  }

  lemma DeliverIsGood(db: Db, caller: User, order: Id, at: Time)
    requires Fulfilled(db)
    ensures Good(MarkDelivered(db, caller, order, at))
  {
    var step := MarkDelivered(db, caller, order, at);
    LookupsAreUnambiguous(db, order);
    if step.outcome.Failed? {
      assert step.db == db;
    } else {
      var rows := DeliveriesOf(db.deliveries, order);
      var found := ScalarOneOrNone(rows).id;
      assert found in rows;
      var d := db.deliveries[found];
      MovingKeeps(db.orders, db.deliveries, db.assignments, found,
                  d.(status := Arrived, deliveredAt := Some(at), durationSeconds := Duration(d, at)),
                  db.orders[order].(status := Delivered, deliveredAt := Some(at)));
    }
  }

  lemma CancelIsGood(db: Db, caller: User, order: Id, at: Time)
    requires Fulfilled(db)
    ensures Good(CancelOrder(db, caller, order, at))
  {
    var step := CancelOrder(db, caller, order, at);
    if step.outcome.Failed? {
      assert step.db == db;
    } else {
      CancellingKeeps(db.orders, db.deliveries, db.assignments, order,
                      db.orders[order].(status := Cancelled, cancelledAt := Some(at)));
    }
  }

  lemma TransitionIsGood(db: Db, move: Move, caller: User, order: Id, at: Time)
    requires Fulfilled(db) && FreshMove(db, move)
    ensures Good(ApplyMove(db, move, caller, order, at))
  {
    match move {
      case Send(row) => SendIsGood(db, caller, order, row, at);
      case Deliver => DeliverIsGood(db, caller, order, at);
      case Cancel => CancelIsGood(db, caller, order, at);
      case _ => StageIsGood(db, move, caller, order, at);
    }
  }

  lemma SelfDeliveryIsGood(db: Db, caller: User, order: Id, row: Id)
    requires Fulfilled(db) && row !in db.deliveries
    ensures Good(ChooseSelfDelivery(db, caller, order, row))
  {
    LookupsAreUnambiguous(db, order);
    if FulfilmentRefusal(db, caller, order).None? {
      SelfDeliveryKeeps(db.orders, db.deliveries, db.assignments, row,
                        Delivery(order, None, caller.id, Waiting, None, None, None, None));
    }
  }

  lemma RequestIsGood(db: Db, caller: User, order: Id, row: Id, at: Time)
    requires Fulfilled(db) && row !in db.assignments
    ensures Good(RequestDriver(db, caller, order, row, at))
  {
    LookupsAreUnambiguous(db, order);
    if FulfilmentRefusal(db, caller, order).None? {
      RequestKeeps(db.orders, db.deliveries, db.assignments, row,
                   Assignment(order, None, Requested, caller.id, at, None, None));
    }
  }

  lemma AssignIsGood(db: Db, caller: User, order: Id, driver: Id, at: Time)
    requires Fulfilled(db)
    ensures Good(AssignDriver(db, caller, order, driver, at))
  {
    var step := AssignDriver(db, caller, order, driver, at);
    if step.outcome.Failed? {
      assert step.db == db;
    } else {
      var pending := MostRecent(db.assignments, ActiveAssignments(db.assignments, order));
      assert AssignmentFits(db.orders, db.assignments[pending]);
      var a := db.assignments[pending].(
        driver := Some(driver), status := Assigned, assignedBy := Some(caller.id), assignedAt := Some(at));
      AssigningKeeps(db.orders, db.deliveries, db.assignments, pending, a);
    }
  }

  lemma ChoiceIsGood(db: Db, choice: Choice, caller: User, order: Id, at: Time)
    requires Fulfilled(db) && FreshChoice(db, choice)
    ensures Good(ApplyChoice(db, choice, caller, order, at))
  {
    match choice {
      case SelfDeliver(row) => SelfDeliveryIsGood(db, caller, order, row);
      case AskForDriver(row) => RequestIsGood(db, caller, order, row, at);
      case Assign(driver) => AssignIsGood(db, caller, order, driver, at);
    }
  }

  lemma PlaceIsGood(db: Db, lines: seq<Line>, customer: User, order: Id, at: Time)
    requires Fulfilled(db) && order !in db.orders
    ensures Fulfilled(CreateOrder(db, customer, lines, order, at).db)
    ensures CreateOrder(db, customer, lines, order, at).outcome != Failed(MultipleResultsFound)
  {
    var decision := Decide(db.products, customer, lines);
    if decision.Ok? {
      NewOrderKeeps(db.orders, db.deliveries, db.assignments, order, NewOrder(customer.id, decision.value, at));
    } else {
      RefusalsAreCheckoutErrors(db.products, customer, lines);
    }
  }

  lemma RefusalsAreCheckoutErrors(products: map<Id, Product>, customer: User, lines: seq<Line>)
    ensures Refusal(products, customer, lines).Some? ==>
              Refusal(products, customer, lines).value in {ProductNotVisible, ProductOutOfStock, OrderInvalidTransition}
  {
    FirstSeenIsDistinct(lines);
    assert forall k :: k in FirstSeen(lines) <==> k in Elements(FirstSeen(lines));
    if ProductIds(lines) <= products.Keys {
      ProblemsAreCheckoutErrors(products, FirstSeen(lines), Aggregated(lines));
    }
  }

  lemma {:induction false} ProblemsAreCheckoutErrors(products: map<Id, Product>, keys: seq<Id>, quantities: map<Id, nat>)
    requires forall k | k in keys :: k in products && k in quantities
    ensures FirstProblem(products, keys, quantities) in {None, Some(ProductNotVisible), Some(ProductOutOfStock)}
  {
    if keys != [] {
      ProblemsAreCheckoutErrors(products, keys[..|keys| - 1], quantities);
    }
  }

  lemma DeleteIsGood(db: Db, caller: User, order: Id, at: Time)
    requires Fulfilled(db)
    ensures Good(DeleteOrder(db, caller, order, at))
  {
    if DeleteRefusal(db, caller, order, at).None? {
      RemoveTables(WithSettings(db), order, at);
      ErasingKeeps(WithSettings(db), {order});
    }
  }

  lemma PurgeIsGood(db: Db, due: seq<Id>, expired: seq<Id>, at: Time)
    requires Fulfilled(db) && SettingsOk(db.settings) && PurgeRows(db, due, expired, at)
    ensures Good(RunPurge(db, due, expired, at))
  {
    var mid := CompleteAll(WithSettings(db), due, at);
    AutoCompletionKeeps(WithSettings(db), due, at);
    assert forall o | o in expired :: o in mid.orders;
    RemoveAllTables(mid, expired, at);
    ErasingKeeps(mid, Elements(expired));
    var after := RemoveAll(mid, expired, at);
    assert after == Erase(mid, Elements(expired)).(ledger := after.ledger);
  }

  lemma AutoCompletionKeeps(db: Db, due: seq<Id>, at: Time)
    requires Fulfilled(db) && db.settings.Some? && Returns(due, DueForCompletion(db, at))
    ensures Fulfilled(CompleteAll(db, due, at))
  {
    var mid := CompleteAll(db, due, at);
    CompleteAllTables(db, due, at);
    MarkingKeeps(db.orders, db.deliveries, db.assignments, due, at);
    assert mid.orders == MarkAll(db.orders, due, at);
    assert mid.deliveries == db.deliveries;
    assert mid.assignments == db.assignments;
  }

  lemma ChatIsGood(db: Db, sender: User, order: Id)
    requires Fulfilled(db)
    ensures Good(PostMessage(db, sender, order))
  {
    LookupsAreUnambiguous(db, order);
  }

  /** order_service and the chat; the two flow calls that rewrite deliveries or statuses stay out. */
  predicate KeepsToFulfilment(op: Op) {
    op.call.DriverFlow? ==> op.call.flow.Chat?
  }

  lemma ConfigureIsGood(db: Db, days: Option<int>, hours: Option<int>)
    requires Fulfilled(db)
    ensures Good(UpdateSettings(db, days, hours))
  {
  }

  lemma TendIsGood(db: Db, catalogue: map<Id, Product>, sellers: map<Id, SellerRow>, drivers: set<Id>)
    requires Fulfilled(db)
    ensures Good(Step(Tended(db, catalogue, sellers, drivers), Done))
  {
  }

  lemma StepIsGood(w: World, op: Op)
    requires Fulfilled(w.db) && SettingsOk(w.db.settings) && Known(w)
    requires Admissible(w, op) && KeepsToFulfilment(op)
    ensures Good(Apply(w.db, op))
  {
    match op.call {
      case Place(lines, customer, order) => PlaceIsGood(w.db, lines, customer, order, op.at);
      case Transition(move, caller, order) => TransitionIsGood(w.db, move, caller, order, op.at);
      case Fulfil(choice, caller, order) => ChoiceIsGood(w.db, choice, caller, order, op.at);
      case Delete(caller, order) => DeleteIsGood(w.db, caller, order, op.at);
      case Purge(due, expired) => PurgeIsGood(w.db, due, expired, op.at);
      case Configure(days, hours) => ConfigureIsGood(w.db, days, hours);
      case DriverFlow(flow, caller, order) => ChatIsGood(w.db, caller, order);
      case Tend(catalogue, sellers, drivers) => TendIsGood(w.db, catalogue, sellers, drivers);
    }
  }

  lemma StepKeepsKnown(w: World, op: Op)
    requires Known(w) && SettingsOk(w.db.settings) && Admissible(w, op)
    ensures Known(Advance(w, op))
  {
    var next := Advance(w, op);
    forall o | o in next.db.orders
      ensures o in next.placed
    {
      if o !in w.db.orders && !(Places(w.db, op) && op.call.order == o) {
        OtherStepsAddNoOrder(w.db, op, o);
      }
    }
  }

  /** Every step of a run keeps the rows exclusive, and no lookup in the whole run meets two rows. */
  predicate AllGood(w: World, ops: seq<Op>)
    decreases |ops|
  {
    ops == [] || (Good(Apply(w.db, ops[0])) && AllGood(Advance(w, ops[0]), ops[1..]))
  }

  lemma {:induction false} RunIsGood(w: World, ops: seq<Op>)
    requires Fulfilled(w.db) && SettingsOk(w.db.settings) && Known(w)
    requires IsRun(w, ops) && forall op | op in ops :: KeepsToFulfilment(op)
    ensures AllGood(w, ops) && Fulfilled(After(w, ops).db)
    decreases |ops|
  {
    if ops != [] {
      StepIsGood(w, ops[0]);
      StepKeepsSettings(w.db, ops[0]);
      StepKeepsKnown(w, ops[0]);
      assert forall op | op in ops[1..] :: op in ops;
      RunIsGood(Advance(w, ops[0]), ops[1..]);
    }
  }

  /** From the opening of the shop. */
  lemma EveryRunIsGood(w: World, ops: seq<Op>)
    requires IsStart(w) && IsRun(w, ops) && forall op | op in ops :: KeepsToFulfilment(op)
    ensures AllGood(w, ops) && Fulfilled(After(w, ops).db)
  {
    RunIsGood(w, ops);
  }
}
