/** The services themselves: methods that update the tables in place, each against its specification. */
module OrderService {
  import opened Answers
  import opened Common
  import opened Checkout
  import opened Completion
  import opened Effects
  import opened Ledger
  import opened Lifecycle
  import opened Marketplace
  import opened Retention
  import opened Runs

  class Service {
    var orders: map<Id, Order>
    var products: map<Id, Product>
    var deliveries: map<Id, Delivery>
    var assignments: map<Id, Assignment>
    var ledger: seq<Snapshot>
    var codes: map<Id, Code>
    var attempts: map<Id, seq<Attempt>>
    var messages: map<Id, seq<Message>>
    var sellers: map<Id, SellerRow>
    var activeDrivers: set<Id>
    var settings: Option<Settings>

    function View(): Db
      reads this
    {
      Db(orders, products, deliveries, assignments, ledger, codes, attempts, messages, sellers, activeDrivers, settings)
    }

    // -------------------------------------------------------------------------
    // Checkout
    // -------------------------------------------------------------------------

    /** The visibility and stock loop: the first product that fails, in dictionary order. */
    method CheckProducts(keys: seq<Id>, quantities: map<Id, nat>) returns (problem: Option<Error>)
      requires forall k | k in keys :: k in products && k in quantities
      ensures problem == FirstProblem(products, keys, quantities)
    {
      for i := 0 to |keys|
        invariant FirstProblem(products, keys[..i], quantities).None?
      {
        assert keys[..i + 1][..i] == keys[..i];
        var product := products[keys[i]];
        if product.deleted || !product.isActive {
          problem := Some(ProductNotVisible);
          LaterProblemsDoNotMatter(products, keys, quantities, i + 1);
          return;
        }
        if product.stock.Some? && product.stock.value < quantities[keys[i]] {
          problem := Some(ProductOutOfStock);
          LaterProblemsDoNotMatter(products, keys, quantities, i + 1);
          return;
        }
      }
      assert keys[..|keys|] == keys;
      problem := None;
    }

    /** The decrement loop, on the product rows in place. */
    method TakeStock(lines: seq<Line>, keys: seq<Id>, quantities: map<Id, nat>)
      requires Distinct(keys) && Elements(keys) == ProductIds(lines)
      requires forall k | k in ProductIds(lines) :: k in quantities && quantities[k] == Ordered(lines, k)
      requires ProductIds(lines) <= products.Keys && Fits(products, lines)
      modifies this`products
      ensures products == AfterSale(old(products), lines)
    {
      ghost var taken: set<Id> := {};
      assert TakenFrom(products, taken, lines) == products;
      for i := 0 to |keys|
        invariant taken == Elements(keys[..i])
        invariant products == TakenFrom(old(products), taken, lines)
      {
        var pid := keys[i];
        NextElement(keys, i);
        OneMoreTaken(old(products), taken, pid, lines);
        var product := products[pid];
        if product.stock.Some? {
          products := products[pid := product.(stock := Some(product.stock.value - quantities[pid]))];
        }
        taken := taken + {pid};
      }
      assert keys[..|keys|] == keys;
      AllTaken(old(products), taken, lines);
    }

    /** The subtotal and the order items, priced from the locked rows. */
    method PriceItems(lines: seq<Line>, keys: seq<Id>, quantities: map<Id, nat>)
      returns (subtotal: int, items: seq<OrderItem>)
      requires forall k | k in keys :: k in products && k in quantities && quantities[k] == Ordered(lines, k)
      ensures subtotal == KeySum(keys, lines, Price(products))
      ensures items == Items(products, keys, lines)
    {
      subtotal, items := 0, [];
      for i := 0 to |keys|
        invariant subtotal == KeySum(keys[..i], lines, Price(products))
        invariant items == Items(products, keys[..i], lines)
      {
        assert keys[..i + 1][..i] == keys[..i];
        var product := products[keys[i]];
        subtotal := subtotal + product.price * quantities[keys[i]];
        items := items + [OrderItem(keys[i], product.name, product.price, quantities[keys[i]])];
      }
      assert keys[..|keys|] == keys;
    }

    /** From the passed checks on: prices, items and the stock taken. */
    method MakePlan(customer: User, lines: seq<Line>, keys: seq<Id>, quantities: map<Id, nat>) returns (plan: Plan)
      requires keys == FirstSeen(lines) && quantities == Aggregated(lines)
      requires Refusal(products, customer, lines).None?
      modifies this`products
      ensures Decide(old(products), customer, lines) == Ok(plan) && products == plan.products
    {
      AcceptedPlan(products, customer, lines);
      var first := Least(ProductIds(lines));
      var store := products[first].store;
      var subtotal, items := PriceItems(lines, keys, quantities);
      FirstSeenIsDistinct(lines);
      TakeStock(lines, keys, quantities);
      plan := Plan(customer.referringSeller.value, store, subtotal, items, products);
    }

    /** The checks before the first write, and the quantities they aggregate. */
    method CheckCheckout(customer: User, lines: seq<Line>)
      returns (problem: Option<Error>, keys: seq<Id>, quantities: map<Id, nat>)
      ensures problem == Refusal(products, customer, lines)
      ensures problem.None? ==> keys == FirstSeen(lines) && quantities == Aggregated(lines)
    {
      keys, quantities := [], map[];
      if customer.role != Customer { return Some(ProductNotVisible), keys, quantities; }
      if lines == [] { return Some(OrderInvalidTransition), keys, quantities; }
      if customer.referringSeller.None? { return Some(ProductNotVisible), keys, quantities; }
      var seller := customer.referringSeller.value;
      var wanted := ProductIds(lines);
      if !(wanted <= products.Keys) { return Some(ProductNotVisible), keys, quantities; }
      keys, quantities := Aggregate(lines);
      if exists p | p in wanted :: products[p].seller != seller { return Some(ProductNotVisible), keys, quantities; }
      FirstSeenIsDistinct(lines);
      assert forall k :: k in keys <==> k in Elements(keys);
      problem := CheckProducts(keys, quantities);
    }

    method CreateOrder(customer: User, lines: seq<Line>, order: Id, now: Time) returns (outcome: Outcome)
      requires order !in orders
      modifies this
      ensures Step(View(), outcome) == Marketplace.CreateOrder(old(View()), customer, lines, order, now)
      ensures outcome.Done? <==> Orderable(old(products), customer, lines) && Fits(old(products), lines)
      ensures outcome.Done? ==> PlacedAsAsked(old(View()), customer, lines, order, now, View())
      ensures outcome.Failed? ==> View() == old(View())
    {
      CheckoutAnswers(View(), customer, lines, order, now);
      var problem, keys, quantities := CheckCheckout(customer, lines);
      if problem.Some? { return Failed(problem.value); }
      var plan := MakePlan(customer, lines, keys, quantities);
      orders := orders[order := NewOrder(customer.id, plan, now)];
      return Done;
    }

    // -------------------------------------------------------------------------
    // Transitions
    // -------------------------------------------------------------------------

    /** _lock_order_or_404: no row, a deleted row and another seller's or customer's row look alike. */
    method LockOrder(caller: User, order: Id) returns (found: Option<Order>)
      ensures found.None? <==> Hidden(orders, caller, order)
      ensures found.Some? ==> order in orders && found.value == orders[order]
    {
      if order !in orders || orders[order].deletedAt.Some? { return None; }
      if caller.role == Seller && orders[order].seller != caller.id { return None; }
      if caller.role == Customer && orders[order].customer != caller.id { return None; }
      found := Some(orders[order]);
    }

    method AcceptOrder(caller: User, order: Id, now: Time) returns (outcome: Outcome)
      modifies this`orders
      ensures Step(View(), outcome) == Marketplace.AcceptOrder(old(View()), caller, order, now)
      ensures outcome.Done? <==> IsOwnSeller(old(orders), caller, order) && old(orders)[order].status == Pending
      ensures outcome.Done? ==> OnlyRow(old(orders), orders, order) && orders[order].status == Accepted
      ensures outcome.Done? && Staged(old(orders)[order], now) ==> KeepsLife(old(orders)[order], orders[order], now)
      ensures outcome.Failed? ==> orders == old(orders)
    {
      AcceptingKeeps(View(), caller, order, now);
      if caller.role != Seller { return Failed(OrderNotFound); }
      var found := LockOrder(caller, order);
      if found.None? { return Failed(OrderNotFound); }
      var o := found.value;
      if o.status != Pending { return Failed(OrderInvalidTransition); }
      o := o.(status := Accepted);
      o := o.(acceptedAt := Some(now));
      orders := orders[order := o];
      return Done;
    }

    method MarkPreparing(caller: User, order: Id, now: Time) returns (outcome: Outcome)
      modifies this`orders
      ensures Step(View(), outcome) == Marketplace.MarkPreparing(old(View()), caller, order, now)
      ensures outcome.Done? <==> IsOwnSeller(old(orders), caller, order) && old(orders)[order].status == Accepted
      ensures outcome.Done? ==> OnlyRow(old(orders), orders, order) && orders[order].status == Preparing
      ensures outcome.Done? && Staged(old(orders)[order], now) ==> KeepsLife(old(orders)[order], orders[order], now)
      ensures outcome.Failed? ==> orders == old(orders)
    {
      PreparingKeeps(View(), caller, order, now);
      if caller.role != Seller { return Failed(OrderNotFound); }
      var found := LockOrder(caller, order);
      if found.None? { return Failed(OrderNotFound); }
      var o := found.value;
      if o.status != Accepted { return Failed(OrderInvalidTransition); }
      o := o.(status := Preparing);
      o := o.(preparingAt := Some(now));
      orders := orders[order := o];
      return Done;
    }

    /** The checks choose_self_delivery and request_driver both begin with. */
    method CheckChoice(caller: User, order: Id) returns (problem: Option<Error>)
      ensures problem == FulfilmentRefusal(View(), caller, order)
      ensures problem.None? <==> MayChoose(View(), caller, order)
    {
      RefusedExactlyWhenNot(View(), caller, order);
      if caller.role != Seller { return Some(OrderNotFound); }
      var found := LockOrder(caller, order);
      if found.None? { return Some(OrderNotFound); }
      if found.value.status != Accepted && found.value.status != Preparing { return Some(OrderInvalidTransition); }
      var existing := ScalarOneOrNone(DeliveriesOf(deliveries, order));
      if existing.ManyRows? { return Some(MultipleResultsFound); }
      if existing.OneRow? { return Some(FulfillmentAlreadyChosen); }
      var request := ScalarOneOrNone(ActiveAssignments(assignments, order));
      if request.ManyRows? { return Some(MultipleResultsFound); }
      if request.OneRow? { return Some(FulfillmentAlreadyChosen); }
      if caller.id !in sellers || sellers[caller.id].deleted { return Some(SellerProfileMissing); }
      problem := None;
    }

    method ChooseSelfDelivery(caller: User, order: Id, row: Id) returns (outcome: Outcome)
      requires row !in deliveries
      modifies this`deliveries
      ensures Step(View(), outcome) == Marketplace.ChooseSelfDelivery(old(View()), caller, order, row)
      ensures outcome.Done? <==> MayChoose(old(View()), caller, order)
      ensures outcome.Done? ==>
                SelfDeliveryChosen(old(View()), order, row, View()) && DeliveriesOf(deliveries, order) == {row}
      ensures outcome.Failed? ==> deliveries == old(deliveries)
    {
      SelfDeliveryChosenOnce(View(), caller, order, row, caller, row, 0);
      var problem := CheckChoice(caller, order);
      if problem.Some? { return Failed(problem.value); }
      ChoicesWrite(View(), caller, order, row, 0);
      deliveries := deliveries[row := Delivery(order, None, caller.id, Waiting, None, None, None, None)];
      return Done;
    }

    method RequestDriver(caller: User, order: Id, row: Id, now: Time) returns (outcome: Outcome)
      requires row !in assignments
      modifies this`assignments
      ensures Step(View(), outcome) == Marketplace.RequestDriver(old(View()), caller, order, row, now)
      ensures outcome.Done? <==> MayChoose(old(View()), caller, order)
      ensures outcome.Done? ==>
                && DriverRequested(old(View()), order, row, now, View())
                && ActiveAssignments(assignments, order) == {row} && DriverAssignments(assignments, order) == {}
      ensures outcome.Failed? ==> assignments == old(assignments)
    {
      DriverRequestedOnce(View(), caller, order, row, now, caller, row, now);
      var problem := CheckChoice(caller, order);
      if problem.Some? { return Failed(problem.value); }
      ChoicesWrite(View(), caller, order, row, now);
      assignments := assignments[row := Assignment(order, None, Requested, caller.id, now, None, None)];
      return Done;
    }

    method CheckAssignment(caller: User, order: Id, driver: Id) returns (problem: Option<Error>)
      ensures problem == AssignmentRefusal(View(), caller, order, driver)
    {
      if caller.role != Admin { return Some(OrderNotFound); }
      var found := LockOrder(caller, order);
      if found.None? { return Some(OrderNotFound); }
      if found.value.status != Accepted && found.value.status != Preparing { return Some(OrderInvalidTransition); }
      if driver !in activeDrivers { return Some(OrderInvalidTransition); }
      var active := ActiveAssignments(assignments, order);
      if active == {} { return Some(DriverNotRequested); }
      if exists a | a in active :: assignments[a].driver.Some? { return Some(DriverAlreadyAssigned); }
      problem := None;
    }

    method AssignDriver(caller: User, order: Id, driver: Id, now: Time) returns (outcome: Outcome)
      modifies this`assignments
      ensures Step(View(), outcome) == Marketplace.AssignDriver(old(View()), caller, order, driver, now)
      ensures outcome.Done? <==> MayAssign(old(View()), caller, order, driver)
      ensures outcome.Done? ==>
                exists row | row in assignments :: DriverNamed(old(View()), caller, order, driver, now, View(), row)
      ensures outcome.Failed? ==> assignments == old(assignments)
    {
      AssignableExactlyWhen(View(), caller, order, driver);
      var problem := CheckAssignment(caller, order, driver);
      if problem.Some? { return Failed(problem.value); }
      ghost var row := AssigningWrites(View(), caller, order, driver, now);
      var active := ActiveAssignments(assignments, order);
      var first := MostRecent(assignments, active);
      var pending := assignments[first];
      pending := pending.(driver := Some(driver));
      pending := pending.(status := Assigned);
      pending := pending.(assignedBy := Some(caller.id));
      pending := pending.(assignedAt := Some(now));
      assignments := assignments[first := pending];
      return Done;
    }

    /** The checks on an existing delivery row that departure and arrival share. */
    method CheckMover(caller: User, o: Order, d: Delivery) returns (allowed: bool)
      requires caller.role == Seller || caller.role == Driver
      ensures allowed <==> MayMove(caller, o, d)
      ensures allowed <==> MayBring(caller, o.seller, d.driver)
    {
      if d.driver.None? {
        if caller.role != Seller || caller.id != o.seller { return false; }
      } else {
        if caller.role == Driver && d.driver != Some(caller.id) { return false; }
        if caller.role == Seller && caller.id != o.seller { return false; }
      }
      allowed := true;
    }

    /** The checks of a departure: the order, then the delivery it already has or the driver it is to have. */
    method CheckDeparture(caller: User, order: Id, row: Id, now: Time)
      returns (problem: Option<Error>, found: Lookup, driver: Option<Id>)
      ensures problem.Some? ==> SendOut(View(), caller, order, row, now) == Refuse(View(), problem.value)
      ensures problem.None? ==>
                && order in orders && !found.ManyRows? && (found.OneRow? ==> found.id in deliveries)
                && var moved :=
                     if found.OneRow?
                     then deliveries[found.id := deliveries[found.id].(status := InTransit, startedAt := Some(now))]
                     else deliveries[row := Delivery(order, driver, orders[order].seller, InTransit, Some(now), None, None, None)];
                SendOut(View(), caller, order, row, now)
                == Step(View().(deliveries := moved, orders := orders[order := Departed(orders[order], now)]), Done)
    {
      found, driver := NoRow, None;
      if caller.role != Seller && caller.role != Driver { return Some(OrderNotFound), found, driver; }
      var locked := LockOrder(caller, order);
      if locked.None? { return Some(OrderNotFound), found, driver; }
      var o := locked.value;
      if o.status == Status.OutForDelivery || o.outForDeliveryAt.Some? { return Some(DeliveryAlreadyStarted), found, driver; }
      if o.status != Preparing { return Some(OrderInvalidTransition), found, driver; }
      found := ScalarOneOrNone(DeliveriesOf(deliveries, order));
      if found.ManyRows? { return Some(MultipleResultsFound), found, driver; }
      if found.OneRow? {
        var allowed := CheckMover(caller, o, deliveries[found.id]);
        if !allowed { return Some(OrderNotFound), found, driver; }
      } else {
        var assignment := ScalarOneOrNone(DriverAssignments(assignments, order));
        if assignment.ManyRows? { return Some(MultipleResultsFound), found, driver; }
        if assignment.NoRow? { return Some(OrderInvalidTransition), found, driver; }
        driver := assignments[assignment.id].driver;
        if caller.role == Driver && driver != Some(caller.id) { return Some(OrderNotFound), found, driver; }
        if caller.role == Seller && caller.id != o.seller { return Some(OrderNotFound), found, driver; }
      }
      problem := None;
    }

    method OutForDelivery(caller: User, order: Id, row: Id, now: Time) returns (outcome: Outcome)
      requires row !in deliveries
      modifies this`orders, this`deliveries
      ensures Step(View(), outcome) == SendOut(old(View()), caller, order, row, now)
      ensures outcome.Done? <==> MayLeave(old(View()), caller, order)
      ensures outcome.Done? ==> exists d | d in deliveries :: HasLeft(old(View()), order, row, now, View(), d)
      ensures outcome.Failed? ==> orders == old(orders) && deliveries == old(deliveries)
    {
      ghost var moved := LeavesExactlyWhen(View(), caller, order, row, now);
      var problem, found, driver := CheckDeparture(caller, order, row, now);
      if problem.Some? { return Failed(problem.value); }
      WriteDeparture(order, found, driver, row, now);
      return Done;
    }

    method WriteDeparture(order: Id, found: Lookup, driver: Option<Id>, row: Id, now: Time)
      requires order in orders && !found.ManyRows? && (found.OneRow? ==> found.id in deliveries)
      modifies this`orders, this`deliveries
      ensures orders == old(orders)[order := Departed(old(orders)[order], now)]
      ensures deliveries == if found.OneRow?
                            then old(deliveries)[found.id := old(deliveries)[found.id].(status := InTransit, startedAt := Some(now))]
                            else old(deliveries)[row := Delivery(order, driver, old(orders)[order].seller,
                                                                 InTransit, Some(now), None, None, None)]
    {
      if found.NoRow? {
        deliveries := deliveries[row := Delivery(order, driver, orders[order].seller, InTransit, Some(now), None, None, None)];
      } else {
        deliveries := deliveries[found.id := deliveries[found.id].(status := InTransit, startedAt := Some(now))];
      }
      orders := orders[order := orders[order].(status := Status.OutForDelivery, outForDeliveryAt := Some(now))];
    }

    method CheckArrival(caller: User, order: Id, now: Time) returns (problem: Option<Error>, d: Id)
      ensures problem.Some? ==> Marketplace.MarkDelivered(View(), caller, order, now) == Refuse(View(), problem.value)
      ensures problem.None? ==>
                && order in orders && d in deliveries
                && Marketplace.MarkDelivered(View(), caller, order, now)
                   == Step(View().(deliveries := deliveries[d := deliveries[d].(status := Arrived, deliveredAt := Some(now),
                                                                                durationSeconds := Duration(deliveries[d], now))],
                                   orders := orders[order := orders[order].(status := Delivered, deliveredAt := Some(now))]),
                           Done)
    {
      d := 0;
      if caller.role != Seller && caller.role != Driver { return Some(OrderNotFound), d; }
      var locked := LockOrder(caller, order);
      if locked.None? { return Some(OrderNotFound), d; }
      if locked.value.status != Status.OutForDelivery { return Some(OrderInvalidTransition), d; }
      var found := ScalarOneOrNone(DeliveriesOf(deliveries, order));
      if found.ManyRows? { return Some(MultipleResultsFound), d; }
      if found.NoRow? { return Some(OrderInvalidTransition), d; }
      d := found.id;
      var allowed := CheckMover(caller, locked.value, deliveries[d]);
      problem := if allowed then None else Some(OrderNotFound);
    }

    method MarkDelivered(caller: User, order: Id, now: Time) returns (outcome: Outcome)
      modifies this`orders, this`deliveries
      ensures Step(View(), outcome) == Marketplace.MarkDelivered(old(View()), caller, order, now)
      ensures outcome.Done? <==> MayArrive(old(View()), caller, order)
      ensures outcome.Done? ==> exists d | d in old(deliveries) :: HasArrived(old(View()), order, now, View(), d)
      ensures outcome.Failed? ==> orders == old(orders) && deliveries == old(deliveries)
    {
      ghost var moved := ArrivesExactlyWhen(View(), caller, order, now);
      var problem, d := CheckArrival(caller, order, now);
      if problem.Some? { return Failed(problem.value); }
      WriteArrival(order, d, now);
      return Done;
    }

    method WriteArrival(order: Id, d: Id, now: Time)
      requires order in orders && d in deliveries
      modifies this`orders, this`deliveries
      ensures orders == old(orders)[order := old(orders)[order].(status := Delivered, deliveredAt := Some(now))]
      ensures deliveries == old(deliveries)[d := old(deliveries)[d].(status := Arrived, deliveredAt := Some(now),
                                                                     durationSeconds := Duration(old(deliveries)[d], now))]
    {
      orders := orders[order := orders[order].(status := Delivered, deliveredAt := Some(now))];
      var row := deliveries[d];
      row := row.(status := Arrived);
      row := row.(deliveredAt := Some(now));
      if row.startedAt.Some? && row.durationSeconds.None? {
        var elapsed := now - row.startedAt.value;
        var seconds := if elapsed < 0 then 0 else elapsed / 1_000_000;
        row := row.(durationSeconds := Some(seconds));
      }
      deliveries := deliveries[d := row];
    }

    /** _write_snapshot: an insert that a row for the same order turns into nothing. */
    method InsertSnapshot(order: Id, now: Time)
      requires order in orders
      modifies this`ledger
      ensures ledger == WriteSnapshot(old(View()), order, now)
      ensures old(ledger) <= ledger && InLedger(ledger, order)
      ensures forall o | o != order :: InLedger(ledger, o) <==> InLedger(old(ledger), o)
      ensures OneRowEach(old(ledger)) ==> OneRowEach(ledger)
      ensures !InLedger(old(ledger), order) ==>
                |ledger| == |old(ledger)| + 1 && Describes(ledger[|old(ledger)|], old(View()), order, now)
    {
      if !InLedger(ledger, order) { SnapshotDescribes(View(), order, now); }
      SnapshotWrittenOnce(View(), order, now, View().(ledger := WriteSnapshot(View(), order, now)), now);
      var o := orders[order];
      var city := "";
      if o.seller in sellers {
        city := sellers[o.seller].city;
      }
      var itemCount := ItemCount(o.items);
      var duration, distance := None, None;
      var rows := DeliveriesOf(deliveries, order);
      if rows != {} {
        var first := deliveries[Least(rows)];
        duration, distance := first.durationSeconds, first.distanceMeters;
      }
      var deliveredAt := now;
      if o.deliveredAt.Some? {
        deliveredAt := o.deliveredAt.value;
      } else if o.completedAt.Some? {
        deliveredAt := o.completedAt.value;
      }
      if !InLedger(ledger, order) {
        ledger := ledger + [Snapshot(order, o.seller, o.store, o.customer, city, itemCount,
                                     o.subtotal, o.total, deliveredAt, duration, distance)];
      }
    }

    method CompleteOrder(caller: User, order: Id, now: Time) returns (outcome: Outcome)
      modifies this`orders, this`ledger
      ensures Step(View(), outcome) == Marketplace.CompleteOrder(old(View()), caller, order, now)
      ensures outcome.Done? <==> MayConfirm(old(orders), caller, order)
      ensures outcome.Done? ==>
                && orders == old(orders)[order := old(orders)[order].(status := Completed, completedAt := Some(now))]
                && InLedger(ledger, order)
      ensures outcome.Failed? ==> orders == old(orders) && ledger == old(ledger)
    {
      ConfirmedExactlyWhen(View(), caller, order, now);
      if caller.role != Customer { return Failed(OrderNotFound); }
      var locked := LockOrder(caller, order);
      if locked.None? { return Failed(OrderNotFound); }
      if locked.value.status != Delivered { return Failed(OrderInvalidTransition); }
      CompleteRow(order, now);
      return Done;
    }

    method CheckCancellation(caller: User, order: Id, now: Time) returns (problem: Option<Error>)
      ensures problem.Some? ==> Marketplace.CancelOrder(View(), caller, order, now) == Refuse(View(), problem.value)
      ensures problem.None? ==>
                && order in orders
                && Marketplace.CancelOrder(View(), caller, order, now)
                   == Step(View().(orders := orders[order := orders[order].(status := Cancelled, cancelledAt := Some(now))],
                                   assignments := DropAssignments(assignments, order)),
                           Done)
    {
      var locked := LockOrder(caller, order);
      if locked.None? { return Some(OrderNotFound); }
      var o := locked.value;
      if o.status == Completed || o.status == Cancelled || o.status == Delivered { return Some(OrderInvalidTransition); }
      match caller.role {
        case Customer =>
          if o.status != Pending { return Some(OrderInvalidTransition); }
        case Seller =>
          if o.status != Pending && o.status != Accepted && o.status != Preparing { return Some(OrderInvalidTransition); }
        case Admin =>
        case Driver =>
          return Some(OrderNotFound);
      }
      problem := None;
    }

    method CancelOrder(caller: User, order: Id, now: Time) returns (outcome: Outcome)
      modifies this`orders, this`assignments
      ensures Step(View(), outcome) == Marketplace.CancelOrder(old(View()), caller, order, now)
      ensures outcome.Done? <==> MayCancelNow(old(orders), caller, order)
      ensures outcome.Done? ==>
                && orders == old(orders)[order := old(orders)[order].(status := Cancelled, cancelledAt := Some(now))]
                && DriversDropped(old(assignments), assignments, order)
      ensures outcome.Failed? ==> orders == old(orders) && assignments == old(assignments)
    {
      CancelledExactlyWhen(View(), caller, order, now);
      var problem := CheckCancellation(caller, order, now);
      if problem.Some? { return Failed(problem.value); }
      CancellingDropsTheDriver(View(), caller, order, now);
      orders := orders[order := orders[order].(status := Cancelled, cancelledAt := Some(now))];
      DropActive(order);
      return Done;
    }

    /** The loop over the outstanding driver request and assignments. */
    method DropActive(order: Id)
      modifies this`assignments
      ensures assignments == DropAssignments(old(assignments), order)
    {
      var rows := ActiveAssignments(assignments, order);
      var left := rows;
      while left != {}
        invariant left <= rows && assignments.Keys == old(assignments).Keys
        invariant assignments == map a | a in old(assignments) ::
          if a in rows && a !in left then old(assignments)[a].(status := Dropped) else old(assignments)[a]
        decreases left
      {
        var a :| a in left;
        assignments := assignments[a := assignments[a].(status := Dropped)];
        left := left - {a};
      }
    }

    // -------------------------------------------------------------------------
    // Retention
    // -------------------------------------------------------------------------

    method EnsureSettings()
      modifies this`settings
      ensures View() == WithSettings(old(View()))
    {
      if settings.None? {
        settings := Some(Settings(30, 72));
      }
    }

    /** DELETE of one order row with its cascades. */
    method EraseRow(order: Id)
      modifies this`orders, this`deliveries, this`assignments, this`codes, this`attempts, this`messages
      ensures View() == Erase(old(View()), {order})
    {
      CascadesErase(View(), order);
      deliveries := deliveries - DeliveriesOf(deliveries, order);
      assignments := assignments - AssignmentRowsOf(assignments, order);
      codes := codes - {order};
      attempts := attempts - {order};
      messages := messages - {order};
      orders := orders - {order};
    }

    method RemoveRow(order: Id, now: Time)
      requires order in orders
      modifies this
      ensures View() == Remove(old(View()), order, now)
    {
      if orders[order].status == Completed {
        InsertSnapshot(order, now);
      }
      EraseRow(order);
    }

    method CheckDeletion(caller: User, order: Id, now: Time) returns (problem: Option<Error>)
      ensures problem == DeleteRefusal(View(), caller, order, now)
    {
      if order !in orders || orders[order].deletedAt.Some? { return Some(OrderNotFound); }
      var o := orders[order];
      match caller.role {
        case Customer =>
          if o.customer != caller.id { return Some(OrderNotFound); }
        case Seller =>
          if o.seller != caller.id { return Some(OrderNotFound); }
        case Admin =>
        case Driver =>
          return Some(OrderNotFound);
      }
      var terminalAt := if o.status == Completed then o.completedAt else if o.status == Cancelled then o.cancelledAt else None;
      if terminalAt.None? { return Some(OrderRetentionNotMet); }
      var current := if settings.Some? then settings.value else Settings(30, 72);
      if now - terminalAt.value < Days(current.retentionDays) { return Some(OrderRetentionNotMet); }
      problem := None;
    }

    method DeleteOrder(caller: User, order: Id, now: Time) returns (outcome: Outcome)
      modifies this
      ensures Step(View(), outcome) == Marketplace.DeleteOrder(old(View()), caller, order, now)
      ensures outcome.Done? <==>
                && order in old(orders) && old(orders)[order].deletedAt.None? && MayDelete(caller, old(orders)[order])
                && PeriodOver(old(orders)[order], WithSettings(old(View())).settings.value, now)
      ensures outcome.Done? ==> Gone(View(), order) && OthersKept(old(View()), View(), order)
      ensures outcome.Done? && old(orders)[order].status == Completed ==> InLedger(ledger, order)
      ensures old(ledger) <= ledger
    {
      DeletedOnce(View(), caller, order, now, caller, now);
      var problem := CheckDeletion(caller, order, now);
      if problem.Some? { return Failed(problem.value); }
      EnsureSettings();
      RemoveRow(order, now);
      return Done;
    }

    /** The status, its timestamp and the snapshot, as the customer's confirmation and the job write them. */
    method CompleteRow(order: Id, now: Time)
      requires order in orders
      modifies this`orders, this`ledger
      ensures View() == Complete(old(View()), order, now)
    {
      orders := orders[order := orders[order].(status := Completed, completedAt := Some(now))];
      InsertSnapshot(order, now);
    }

    /** The auto-complete loop over the rows its locking query returned. */
    method CompleteDue(due: seq<Id>, now: Time) returns (completed: nat)
      requires settings.Some? && Returns(due, DueForCompletion(View(), now))
      modifies this`orders, this`ledger
      ensures View() == CompleteAll(old(View()), due, now)
      ensures completed == |due|
    {
      completed := 0;
      for i := 0 to |due|
        invariant View() == CompleteAll(old(View()), due[..i], now)
        invariant completed == i
      {
        assert due[..i + 1][..i] == due[..i];
        StillDelivered(old(View()), due, i, now);
        var order := due[i];
        if orders[order].status == Delivered {
          CompleteRow(order, now);
          completed := completed + 1;
        }
      }
      assert due[..|due|] == due;
    }

    /** The purge loop over the rows its locking query returned. */
    method PurgeExpired(expired: seq<Id>, now: Time) returns (purged: nat)
      requires Distinct(expired) && forall o | o in expired :: o in orders
      modifies this
      ensures View() == RemoveAll(old(View()), expired, now)
      ensures purged == |expired|
    {
      purged := 0;
      for i := 0 to |expired|
        invariant View() == RemoveAll(old(View()), expired[..i], now)
        invariant purged == i
      {
        assert expired[..i + 1][..i] == expired[..i];
        StillThere(old(View()), expired, i, now);
        RemoveRow(expired[i], now);
        purged := purged + 1;
      }
      assert expired[..|expired|] == expired;
    }

    method RunPurgeJob(due: seq<Id>, expired: seq<Id>, now: Time) returns (purged: nat, completed: nat)
      requires PurgeRows(View(), due, expired, now)
      modifies this
      ensures View() == RunPurge(old(View()), due, expired, now).db
      ensures purged == |expired| && completed == |due|
      ensures CompletedAreIn(old(View())) && SettingsOk(old(settings)) ==>
                forall o | o in old(orders) :: PurgedRightly(old(View()), due, expired, now, View(), o)
    {
      if CompletedAreIn(View()) && SettingsOk(settings) {
        forall o | o in orders
          ensures PurgedRightly(View(), due, expired, now, RunPurge(View(), due, expired, now).db, o)
        {
          PurgeTouchesOnlyTheOverdue(View(), due, expired, now, o);
        }
      }
      EnsureSettings();
      completed := CompleteDue(due, now);
      assert forall o | o in expired :: o in DueForPurge(View(), now);
      purged := PurgeExpired(expired, now);
    }

    method UpdateSettings(retentionDays: Option<int>, graceHours: Option<int>) returns (outcome: Outcome)
      modifies this`settings
      ensures Step(View(), outcome) == Marketplace.UpdateSettings(old(View()), retentionDays, graceHours)
      ensures outcome.Done? <==> AreValid(retentionDays, graceHours)
      ensures if outcome.Done? then AreStored(old(settings), retentionDays, graceHours, settings) else settings == old(settings)
    {
      var found := settings;
      EnsureSettings();
      if retentionDays.Some? {
        if retentionDays.value < 1 { settings := found; return Failed(RetentionSettingInvalid); }
        settings := Some(settings.value.(retentionDays := retentionDays.value));
      }
      if graceHours.Some? {
        if graceHours.value < 1 { settings := found; return Failed(RetentionSettingInvalid); }
        settings := Some(settings.value.(graceHours := graceHours.value));
      }
      return Done;
    }

    // -------------------------------------------------------------------------
    // The driver's delivery flow
    // -------------------------------------------------------------------------

    /** The checks of an acceptance; an order that was accepted before needs no write. */
    method CheckTaking(driver: User, order: Id) returns (ended: Option<Outcome>, found: Lookup)
      ensures ended.Some? ==>
                forall row, plain, now :: FlowAccept(View(), driver, order, row, plain, now) == Step(View(), ended.value)
      ensures ended.None? ==>
                && driver.role == Driver && !Missing(View(), order) && order !in codes
                && found == ScalarOneOrNone(DeliveriesOf(deliveries, order)) && !found.ManyRows?
    {
      found := NoRow;
      if driver.role != Driver { return Some(Failed(PermissionDenied)), found; }
      if Missing(View(), order) { return Some(Failed(OrderNotFound)), found; }
      if orders[order].driverAcceptedAt.Some? && order in codes { return Some(Done), found; }
      found := ScalarOneOrNone(DeliveriesOf(deliveries, order));
      if found.ManyRows? { return Some(Failed(MultipleResultsFound)), found; }
      ended := if order in codes then Some(Failed(IntegrityError)) else None;
    }

    method DriverAccept(driver: User, order: Id, row: Id, plain: string, now: Time) returns (outcome: Outcome)
      requires row !in deliveries
      modifies this`orders, this`deliveries, this`codes
      ensures Step(View(), outcome) == FlowAccept(old(View()), driver, order, row, plain, now)
      ensures outcome.Done? <==> MayTake(old(View()), driver, order)
      ensures outcome.Done? && order !in old(codes) ==>
                exists d | d in deliveries :: HasTaken(old(View()), driver, order, row, plain, now, View(), d)
      ensures outcome.Failed? || order in old(codes) ==> View() == old(View())
    {
      ghost var taken := TakenExactlyWhen(View(), driver, order, row, plain, now);
      var ended, found := CheckTaking(driver, order);
      if ended.Some? { return ended.value; }
      WriteTaking(driver, order, found, row, now);
      codes := codes[order := Code(plain, 0, false, None)];
      return Done;
    }

    method WriteTaking(driver: User, order: Id, found: Lookup, row: Id, now: Time)
      requires order in orders && !found.ManyRows? && (found.OneRow? ==> found.id in deliveries)
      modifies this`orders, this`deliveries
      ensures orders == old(orders)[order := old(orders)[order].(driverAcceptedAt := Some(now))]
      ensures deliveries == if found.OneRow? then old(deliveries)[found.id := old(deliveries)[found.id].(driver := Some(driver.id))]
                            else old(deliveries)[row := Delivery(order, Some(driver.id), old(orders)[order].seller,
                                                                 InTransit, None, None, None, None)]
    {
      orders := orders[order := orders[order].(driverAcceptedAt := Some(now))];
      if found.NoRow? {
        deliveries := deliveries[row := Delivery(order, Some(driver.id), orders[order].seller, InTransit, None, None, None, None)];
      } else {
        deliveries := deliveries[found.id := deliveries[found.id].(driver := Some(driver.id))];
      }
    }

    method CompleteDelivery(driver: User, order: Id, submitted: string, now: Time) returns (outcome: Outcome)
      modifies this`orders, this`codes, this`attempts, this`messages
      ensures Step(View(), outcome) == FlowComplete(old(View()), driver, order, submitted, now)
      ensures driver.role == Driver && IsOpen(old(orders), order) && order in old(codes) ==>
                && (outcome.Done? <==> !old(codes)[order].locked && submitted == old(codes)[order].plain)
                && CodeHandled(old(View()), order, submitted, now, View())
      ensures outcome == Failed(PermissionDenied) || outcome == Failed(OrderNotFound) || outcome == Failed(DeliveryNotAccepted) ==>
                View() == old(View())
    {
      if driver.role != Driver { return Failed(PermissionDenied); }
      if Missing(View(), order) { return Failed(OrderNotFound); }
      if order !in codes { return Failed(DeliveryNotAccepted); }
      SubmittingWrites(View(), driver, order, submitted, now);
      CodeSubmittedExactlyWhen(View(), driver, order, submitted, now);
      outcome := CompareCode(driver, order, submitted, now);
    }

    /** From the code row on: locked, wrong or right. */
    method CompareCode(driver: User, order: Id, submitted: string, now: Time) returns (outcome: Outcome)
      requires driver.role == Driver && !Missing(View(), order) && order in codes
      modifies this`orders, this`codes, this`attempts, this`messages
      ensures Step(View(), outcome) == FlowComplete(old(View()), driver, order, submitted, now)
    {
      var code := codes[order];
      var right := !code.locked && submitted == code.plain;
      attempts := Logged(attempts, order, Attempt(driver.id, submitted, right));
      if code.locked { return Failed(DeliveryCodeLocked); }
      if !right {
        CountWrongCode(order);
        return if codes[order].locked then Failed(DeliveryCodeLocked)
               else Failed(DeliveryCodeInvalid(3 - codes[order].attemptsUsed));
      }
      codes := codes[order := code.(consumedAt := Some(now))];
      orders := orders[order := orders[order].(status := Delivered, deliveredAt := Some(now))];
      messages := messages[order := Archived(MessagesOn(messages, order), now)];
      return Done;
    }

    method CountWrongCode(order: Id)
      requires order in orders && order in codes && !codes[order].locked
      modifies this`orders, this`codes
      ensures View() == WrongCode(old(View()), order)
    {
      var code := codes[order];
      code := code.(attemptsUsed := code.attemptsUsed + 1);
      if code.attemptsUsed >= 3 {
        code := code.(locked := true);
        orders := orders[order := orders[order].(codeLocked := true)];
      }
      assert orders == orders[order := orders[order]];
      codes := codes[order := code];
    }

    method PostOrderMessage(sender: User, order: Id) returns (outcome: Outcome)
      modifies this`messages
      ensures Step(View(), outcome) == PostMessage(old(View()), sender, order)
      ensures outcome.Done? <==> MayWrite(old(View()), sender, order)
      ensures if outcome.Done? then HasPosted(old(View()), sender, order, View()) else messages == old(messages)
    {
      PostedExactlyWhen(View(), sender, order);
      if MayWrite(View(), sender, order) { PostingWrites(View(), sender, order); }
      if Missing(View(), order) { return Failed(OrderNotFound); }
      var o := orders[order];
      if o.driverAcceptedAt.None? { return Failed(ChatNotOpen); }
      if o.deliveredAt.Some? { return Failed(ChatClosed); }
      var found := ScalarOneOrNone(DeliveriesOf(deliveries, order));
      if found.ManyRows? { return Failed(MultipleResultsFound); }
      if sender.role == Admin { return Failed(PermissionDenied); }
      var role;
      if sender.id == o.customer {
        role := Customer;
      } else if found.OneRow? && deliveries[found.id].driver == Some(sender.id) {
        role := Driver;
      } else {
        return Failed(PermissionDenied);
      }
      messages := messages[order := MessagesOn(messages, order) + [Message(sender.id, role, None)]];
      return Done;
    }
  }

  /** The product rows once the loop has been through some of the products. */
  function TakenFrom(products: map<Id, Product>, taken: set<Id>, lines: seq<Line>): map<Id, Product>
    requires Fits(products, lines)
  {
    map p | p in products ::
      if p in taken && p in ProductIds(lines) then Take(products[p], Ordered(lines, p)) else products[p]
  }

  function AssignmentRowsOf(assignments: map<Id, Assignment>, order: Id): set<Id> {
    set a | a in assignments && assignments[a].order == order
  }

  /** ON DELETE CASCADE takes the rows that reference the order. */
  lemma CascadesErase(db: Db, order: Id)
    ensures db.deliveries - DeliveriesOf(db.deliveries, order) == Erase(db, {order}).deliveries
    ensures db.assignments - AssignmentRowsOf(db.assignments, order) == Erase(db, {order}).assignments
  {
  }

  lemma NextElement(keys: seq<Id>, i: nat)
    requires Distinct(keys) && i < |keys|
    ensures keys[i] in Elements(keys) && keys[i] !in Elements(keys[..i])
    ensures Elements(keys[..i + 1]) == Elements(keys[..i]) + {keys[i]}
  {
    assert keys[..i + 1] == keys[..i] + [keys[i]];
  }

  lemma OneMoreTaken(products: map<Id, Product>, taken: set<Id>, product: Id, lines: seq<Line>)
    requires Fits(products, lines) && product in products && product in ProductIds(lines) && product !in taken
    ensures TakenFrom(products, taken, lines)[product] == products[product]
    ensures TakenFrom(products, taken + {product}, lines)
         == TakenFrom(products, taken, lines)[product := Take(products[product], Ordered(lines, product))]
    ensures products[product].stock.None? ==>
              TakenFrom(products, taken + {product}, lines) == TakenFrom(products, taken, lines)
  {
  }

  lemma AllTaken(products: map<Id, Product>, taken: set<Id>, lines: seq<Line>)
    requires Fits(products, lines) && taken == ProductIds(lines)
    ensures TakenFrom(products, taken, lines) == AfterSale(products, lines)
  {
  }

  /** The loop stops at the first failing product, and so does the specification. */
  lemma {:induction false} LaterProblemsDoNotMatter(
      products: map<Id, Product>, keys: seq<Id>, quantities: map<Id, nat>, n: nat)
    requires n <= |keys| && forall k | k in keys :: k in products && k in quantities
    requires FirstProblem(products, keys[..n], quantities).Some?
    ensures FirstProblem(products, keys, quantities) == FirstProblem(products, keys[..n], quantities)
  {
    if n < |keys| {
      var front := keys[..|keys| - 1];
      assert front[..n] == keys[..n];
      LaterProblemsDoNotMatter(products, front, quantities, n);
    } else {
      assert keys[..n] == keys;
    }
  }

  lemma StillDelivered(db: Db, due: seq<Id>, i: nat, now: Time)
    requires i < |due| && db.settings.Some? && Returns(due, DueForCompletion(db, now))
    ensures var before := CompleteAll(db, due[..i], now);
            due[i] in before.orders && before.orders[due[i]].status == Delivered
  {
    var rows := due[..i];
    assert forall o | o in rows :: o in due;
    assert due[i] in due && due[i] !in rows;
    CompleteAllTables(db, rows, now);
  }

  lemma StillThere(db: Db, expired: seq<Id>, i: nat, now: Time)
    requires i < |expired| && Distinct(expired) && forall o | o in expired :: o in db.orders
    ensures expired[i] in RemoveAll(db, expired[..i], now).orders
  {
    var rows := expired[..i];
    assert forall o | o in rows :: o in expired;
    assert expired[i] in expired && expired[i] !in rows;
    RemoveAllTables(db, rows, now);
  }
}
