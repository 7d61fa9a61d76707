/**
 What every call of the order service and the delivery flow answers, and what it writes, said of the rows
 themselves: when it goes through, with which refusal it does not, and each column it leaves.
 */
module Answers {
  import opened Checkout
  import opened Common
  import opened Effects
  import opened Marketplace

  // ---------------------------------------------------------------------------
  // Placing an order
  // ---------------------------------------------------------------------------

  /** No stage but the first is reached. */
  predicate JustPlaced(o: Order, now: Time) {
    && o.status == Pending && o.placedAt == now
    && o.acceptedAt.None? && o.preparingAt.None? && o.outForDeliveryAt.None? && o.deliveredAt.None?
    && o.completedAt.None? && o.cancelledAt.None? && o.driverAcceptedAt.None? && !o.codeLocked && o.deletedAt.None?
  }

  /** The store of the ordered product that comes first in key order. */
  predicate IsStoreOf(products: map<Id, Product>, lines: seq<Line>, store: Id) {
    exists p | p in ProductIds(lines) ::
      p in products && products[p].store == store && forall q | q in ProductIds(lines) :: p <= q
  }

  /** One item for each ordered product, with its name, its price and all units of it. */
  predicate ItemsOf(items: seq<OrderItem>, products: map<Id, Product>, lines: seq<Line>) {
    && (forall i | 0 <= i < |items| ::
          && items[i].product in ProductIds(lines) && items[i].product in products
          && items[i].name == products[items[i].product].name
          && items[i].unitPrice == products[items[i].product].price
          && items[i].quantity == Ordered(lines, items[i].product))
    && (forall i, j | 0 <= i < j < |items| :: items[i].product != items[j].product)
    && (forall p | p in ProductIds(lines) :: exists i | 0 <= i < |items| :: items[i].product == p)
  }

  /** What the lines cost at the prices of the rows. */
  predicate CostsItsLines(o: Order, products: map<Id, Product>, lines: seq<Line>) {
    o.total == o.subtotal == LineSum(lines, Price(products)) == ItemTotal(o.items)
  }

  /** What is taken from stock, and nothing else of a product. */
  predicate TakenFromStock(before: map<Id, Product>, after: map<Id, Product>, lines: seq<Line>) {
    && (forall p | p in after :: p in before)
    && (forall p | p in before ::
          && p in after && after[p].(stock := before[p].stock) == before[p]
          && match before[p].stock
             case None => after[p].stock.None?
             case Some(units) => after[p].stock.Some? && after[p].stock.value == units - Ordered(lines, p))
  }

  lemma {:induction false} ItemsDescribeTheKeys(products: map<Id, Product>, keys: seq<Id>, lines: seq<Line>)
    requires forall k | k in keys :: k in products
    ensures var items := Items(products, keys, lines);
            && |items| == |keys|
            && forall i | 0 <= i < |items| ::
                 && items[i].product == keys[i] && items[i].name == products[keys[i]].name
                 && items[i].unitPrice == products[keys[i]].price && items[i].quantity == Ordered(lines, keys[i])
  {
    if keys != [] {
      ItemsDescribeTheKeys(products, keys[..|keys| - 1], lines);
    }
  }

  lemma ItemsAreOneEach(products: map<Id, Product>, lines: seq<Line>)
    requires forall p | p in ProductIds(lines) :: p in products
    requires forall k | k in FirstSeen(lines) :: k in products
    ensures ItemsOf(Items(products, FirstSeen(lines), lines), products, lines)
  {
    var keys := FirstSeen(lines);
    FirstSeenIsDistinct(lines);
    ItemsDescribeTheKeys(products, keys, lines);
    forall i | 0 <= i < |keys|
      ensures keys[i] in ProductIds(lines)
    {
      assert keys[i] in Elements(keys);
    }
    forall p | p in ProductIds(lines)
      ensures exists i | 0 <= i < |keys| :: keys[i] == p
    {
      assert p in Elements(keys);
    }
  }

  lemma PlacedOrderIsNew(db: Db, customer: User, lines: seq<Line>, order: Id, now: Time)
    requires CreateOrder(db, customer, lines, order, now).outcome.Done?
    ensures var after := CreateOrder(db, customer, lines, order, now).db;
            && OnlyRow(db.orders, after.orders, order)
            && JustPlaced(after.orders[order], now)
            && after.orders[order].customer == customer.id
            && customer.referringSeller == Some(after.orders[order].seller)
  {
    AcceptedPlan(db.products, customer, lines);
  }

  lemma PlacedOrderIsWorthItsLines(db: Db, customer: User, lines: seq<Line>, order: Id, now: Time)
    requires CreateOrder(db, customer, lines, order, now).outcome.Done?
    ensures var after := CreateOrder(db, customer, lines, order, now).db;
            && order in after.orders
            && CostsItsLines(after.orders[order], db.products, lines)
            && forall p :: ItemUnits(after.orders[order].items, p) == Ordered(lines, p)
  {
    PlanIsWorthItsLines(db.products, customer, lines);
  }

  lemma PlacedOrderNamesItsProducts(db: Db, customer: User, lines: seq<Line>, order: Id, now: Time)
    requires CreateOrder(db, customer, lines, order, now).outcome.Done?
    ensures var after := CreateOrder(db, customer, lines, order, now).db;
            && order in after.orders
            && IsStoreOf(db.products, lines, after.orders[order].store)
            && ItemsOf(after.orders[order].items, db.products, lines)
            && TakenFromStock(db.products, after.products, lines)
            && after == db.(orders := after.orders, products := after.products)
  {
    AcceptedPlan(db.products, customer, lines);
    PlanTakesItsLinesFromStock(db.products, customer, lines);
    ItemsAreOneEach(db.products, lines);
    assert Least(ProductIds(lines)) in ProductIds(lines);
  }

  /** One new order, worth its lines, in whose name and of what; its lines are out of stock; nothing else is written. */
  predicate PlacedAsAsked(db: Db, customer: User, lines: seq<Line>, order: Id, now: Time, after: Db) {
    && OnlyRow(db.orders, after.orders, order) && JustPlaced(after.orders[order], now)
    && after.orders[order].customer == customer.id && customer.referringSeller == Some(after.orders[order].seller)
    && IsStoreOf(db.products, lines, after.orders[order].store)
    && CostsItsLines(after.orders[order], db.products, lines)
    && ItemsOf(after.orders[order].items, db.products, lines)
    && TakenFromStock(db.products, after.products, lines)
    && after == db.(orders := after.orders, products := after.products)
  }

  /** A checkout goes through exactly when everything is orderable and fits; then it places what was asked for. */
  lemma CheckoutAnswers(db: Db, customer: User, lines: seq<Line>, order: Id, now: Time)
    ensures var step := CreateOrder(db, customer, lines, order, now);
            && (step.outcome.Done? <==> Orderable(db.products, customer, lines) && Fits(db.products, lines))
            && (step.outcome.Done? ==> PlacedAsAsked(db, customer, lines, order, now, step.db))
            && (step.outcome.Failed? ==> step.db == db)
  {
    AcceptedIffOrderableAndFits(db.products, customer, lines);
    if CreateOrder(db, customer, lines, order, now).outcome.Done? {
      PlacedOrderIsNew(db, customer, lines, order, now);
      PlacedOrderIsWorthItsLines(db, customer, lines, order, now);
      PlacedOrderNamesItsProducts(db, customer, lines, order, now);
    }
  }

  /** What is wrong with one ordered product. */
  function ProblemWith(product: Product, quantity: nat): Option<Error> {
    if product.deleted || !product.isActive then Some(ProductNotVisible)
    else if product.stock.Some? && product.stock.value < quantity then Some(ProductOutOfStock)
    else None
  }

  /** The first of the keys with a problem, or their number if there is none. */
  predicate FirstAt(products: map<Id, Product>, keys: seq<Id>, quantities: map<Id, nat>, i: nat) {
    && i <= |keys|
    && (forall j | 0 <= j < i ::
          keys[j] in products && keys[j] in quantities && ProblemWith(products[keys[j]], quantities[keys[j]]).None?)
    && (i < |keys| ==>
          keys[i] in products && keys[i] in quantities && ProblemWith(products[keys[i]], quantities[keys[i]]).Some?)
  }

  lemma {:induction false} ProblemNamesAKey(products: map<Id, Product>, keys: seq<Id>, quantities: map<Id, nat>) returns (i: nat)
    requires forall k | k in keys :: k in products && k in quantities
    ensures FirstAt(products, keys, quantities, i)
    ensures FirstProblem(products, keys, quantities)
         == if i < |keys| then ProblemWith(products[keys[i]], quantities[keys[i]]) else None
  {
    i := 0;
    if keys != [] {
      i := ProblemNamesAKey(products, keys[..|keys| - 1], quantities);
      if i == |keys| - 1 && ProblemWith(products[keys[i]], quantities[keys[i]]).None? {
        i := |keys|;
      }
    }
  }

  /** Every ordered product is on sale at the seller, up to its own column for being active. */
  predicate AllKnown(products: map<Id, Product>, customer: User, lines: seq<Line>) {
    && customer.role == Customer && customer.referringSeller.Some? && lines != []
    && forall p | p in ProductIds(lines) :: p in products && products[p].seller == customer.referringSeller.value
  }

  /** A refused checkout says why: of products that are known, the first with a problem gives the reason. */
  lemma RefusedCheckoutSaysWhy(db: Db, customer: User, lines: seq<Line>, order: Id, now: Time) returns (i: nat)
    ensures var outcome := CreateOrder(db, customer, lines, order, now).outcome;
            && (customer.role == Customer && lines == [] <==> outcome == Failed(OrderInvalidTransition))
            && (lines != [] && !AllKnown(db.products, customer, lines) ==> outcome == Failed(ProductNotVisible))
            && (AllKnown(db.products, customer, lines) ==>
                  && FirstAt(db.products, FirstSeen(lines), Aggregated(lines), i)
                  && (i == |FirstSeen(lines)| ==> outcome == Done)
                  && (i < |FirstSeen(lines)| ==>
                        var p := FirstSeen(lines)[i];
                        outcome == Failed(ProblemWith(db.products[p], Ordered(lines, p)).value)))
  {
    FirstSeenIsDistinct(lines);
    var keys := FirstSeen(lines);
    assert forall k :: k in keys <==> k in Elements(keys);
    i := 0;
    if ProductIds(lines) <= db.products.Keys {
      i := ProblemNamesAKey(db.products, keys, Aggregated(lines));
    }
    if lines != [] { assert lines[0].product in ProductIds(lines); }
  }

  // ---------------------------------------------------------------------------
  // Accepting and preparing
  // ---------------------------------------------------------------------------

  /** The refusals of both: another's order looks missing, an own order in another status does not. */
  lemma StageRefusals(db: Db, caller: User, order: Id, now: Time)
    ensures var own, step := IsOwnSeller(db.orders, caller, order), AcceptOrder(db, caller, order, now);
            && (step.outcome == Failed(OrderNotFound) <==> !own)
            && (step.outcome == Failed(OrderInvalidTransition) <==> own && db.orders[order].status != Pending)
            && (step.outcome.Done? ==>
                  step.db == db.(orders := db.orders[order := db.orders[order].(status := Accepted, acceptedAt := Some(now))]))
    ensures var own, step := IsOwnSeller(db.orders, caller, order), MarkPreparing(db, caller, order, now);
            && (step.outcome == Failed(OrderNotFound) <==> !own)
            && (step.outcome == Failed(OrderInvalidTransition) <==> own && db.orders[order].status != Accepted)
            && (step.outcome.Done? ==>
                  step.db == db.(orders := db.orders[order := db.orders[order].(status := Preparing, preparingAt := Some(now))]))
  {
  }

  // ---------------------------------------------------------------------------
  // Choosing a fulfilment and assigning a driver
  // ---------------------------------------------------------------------------

  /** One delivery in the seller's name that waits for nobody. */
  predicate SelfDeliveryChosen(db: Db, order: Id, row: Id, after: Db) {
    && after == db.(deliveries := after.deliveries) && OnlyRow(db.deliveries, after.deliveries, row)
    && order in db.orders && var d := after.deliveries[row];
    && d.order == order && d.seller == db.orders[order].seller && d.status == Waiting && d.driver.None?
    && d.startedAt.None? && d.deliveredAt.None? && d.durationSeconds.None? && d.distanceMeters.None?
  }

  /** One request of the seller's, since now, that no driver is on. */
  predicate DriverRequested(db: Db, order: Id, row: Id, now: Time, after: Db) {
    && after == db.(assignments := after.assignments) && OnlyRow(db.assignments, after.assignments, row)
    && order in db.orders && var a := after.assignments[row];
    && a.order == order && a.requestedBy == db.orders[order].seller && a.requestedAt == now && a.status == Requested
    && a.driver.None? && a.assignedBy.None? && a.assignedAt.None?
  }

  lemma ChoicesWrite(db: Db, caller: User, order: Id, row: Id, now: Time)
    requires FulfilmentRefusal(db, caller, order).None?
    ensures ChooseSelfDelivery(db, caller, order, row).outcome.Done? && RequestDriver(db, caller, order, row, now).outcome.Done?
    ensures SelfDeliveryChosen(db, order, row, ChooseSelfDelivery(db, caller, order, row).db)
    ensures DriverRequested(db, order, row, now, RequestDriver(db, caller, order, row, now).db)
  {
  }

  predicate IsAwaited(a: Assignment, order: Id) {
    a.order == order && a.status != Declined && a.status != Dropped
  }

  predicate HasOneDelivery(deliveries: map<Id, Delivery>, order: Id) {
    exists d | d in deliveries :: IsItsDelivery(deliveries, order, d)
  }

  /** Both choices are refused for the same reasons, in this order. */
  lemma ChoiceRefusals(db: Db, caller: User, order: Id)
    ensures var own, refusal := IsOwnSeller(db.orders, caller, order), FulfilmentRefusal(db, caller, order);
            && (refusal == Some(OrderNotFound) <==> !own)
            && (refusal == Some(OrderInvalidTransition) <==>
                  own && db.orders[order].status != Accepted && db.orders[order].status != Preparing)
            && (own && (db.orders[order].status == Accepted || db.orders[order].status == Preparing) ==>
                  && (HasOneDelivery(db.deliveries, order) ==> refusal == Some(FulfillmentAlreadyChosen))
                  && (refusal == Some(SellerProfileMissing) <==>
                        && HasNoDelivery(db.deliveries, order)
                        && (forall a | a in db.assignments :: !IsAwaited(db.assignments[a], order))
                        && (caller.id in db.sellers ==> db.sellers[caller.id].deleted)))
  {
    DeliveryLookup(db.deliveries, order);
    var active := ActiveAssignments(db.assignments, order);
    assert forall a | a in db.assignments && IsAwaited(db.assignments[a], order) :: a in active;
  }

  /** The latest request names the driver, with who assigned them and when; it keeps who asked and when. */
  predicate DriverNamed(db: Db, caller: User, order: Id, driver: Id, now: Time, after: Db, row: Id) {
    && row in db.assignments && IsAwaited(db.assignments[row], order)
    && (forall a | a in db.assignments && IsAwaited(db.assignments[a], order) ::
          db.assignments[a].requestedAt <= db.assignments[row].requestedAt)
    && after == db.(assignments := after.assignments) && OnlyRow(db.assignments, after.assignments, row)
    && var a := after.assignments[row];
    && a.order == order && a.driver == Some(driver) && a.status == Assigned
    && a.assignedBy == Some(caller.id) && a.assignedAt == Some(now)
    && a.requestedBy == db.assignments[row].requestedBy && a.requestedAt == db.assignments[row].requestedAt
  }

  lemma AssigningWrites(db: Db, caller: User, order: Id, driver: Id, now: Time) returns (row: Id)
    requires AssignDriver(db, caller, order, driver, now).outcome.Done?
    ensures DriverNamed(db, caller, order, driver, now, AssignDriver(db, caller, order, driver, now).db, row)
  {
    var active := ActiveAssignments(db.assignments, order);
    assert forall a | a in db.assignments && IsAwaited(db.assignments[a], order) :: a in active;
    row := MostRecent(db.assignments, active);
  }

  /** What is wrong with an assignment, in this order. */
  lemma AssignmentRefusals(db: Db, caller: User, order: Id, driver: Id)
    ensures var refusal := AssignmentRefusal(db, caller, order, driver);
            && (refusal == Some(OrderNotFound) <==> caller.role != Admin || !IsOpen(db.orders, order))
            && (refusal == Some(OrderInvalidTransition) <==>
                  && caller.role == Admin && IsOpen(db.orders, order)
                  && ((db.orders[order].status != Accepted && db.orders[order].status != Preparing) || driver !in db.activeDrivers))
            && (refusal == Some(DriverNotRequested) ==>
                  forall a | a in db.assignments :: !IsAwaited(db.assignments[a], order))
            && (refusal == Some(DriverAlreadyAssigned) ==>
                  exists a | a in db.assignments :: IsAwaited(db.assignments[a], order) && db.assignments[a].driver.Some?)
            && (refusal.None? ==>
                  && (exists a | a in db.assignments :: IsAwaited(db.assignments[a], order))
                  && forall a | a in db.assignments && IsAwaited(db.assignments[a], order) :: db.assignments[a].driver.None?)
  {
    var active := ActiveAssignments(db.assignments, order);
    assert forall a | a in db.assignments && IsAwaited(db.assignments[a], order) :: a in active;
    assert active != {} ==> exists a | a in db.assignments :: a in active;
  }

  // ---------------------------------------------------------------------------
  // Leaving and arriving
  // ---------------------------------------------------------------------------

  /** The one delivery row of the order. */
  predicate IsItsDelivery(deliveries: map<Id, Delivery>, order: Id, d: Id) {
    && d in deliveries && deliveries[d].order == order
    && forall e | e in deliveries && deliveries[e].order == order :: e == d
  }

  predicate HasNoDelivery(deliveries: map<Id, Delivery>, order: Id) {
    forall d | d in deliveries :: deliveries[d].order != order
  }

  /** Assigned to a driver or taken by one. */
  predicate NamesDriver(a: Assignment) {
    a.driver.Some? && a.status != Requested && a.status != Declined && a.status != Dropped
  }

  /** The one assignment of the order that names a driver who is on it. */
  predicate IsItsDriver(assignments: map<Id, Assignment>, order: Id, a: Id) {
    && a in assignments && assignments[a].order == order && NamesDriver(assignments[a])
    && forall b | b in assignments && assignments[b].order == order && NamesDriver(assignments[b]) :: b == a
  }

  /** A self-delivery is the seller's to move; a driver's delivery is the driver's and the seller's. */
  predicate MayBring(caller: User, seller: Id, driver: Option<Id>) {
    || (caller.role == Seller && caller.id == seller)
    || (caller.role == Driver && driver == Some(caller.id))
  }

  predicate IsOpen(orders: map<Id, Order>, order: Id) {
    order in orders && orders[order].deletedAt.None?
  }

  predicate MayLeave(db: Db, caller: User, order: Id) {
    && IsOpen(db.orders, order)
    && db.orders[order].status == Preparing && db.orders[order].outForDeliveryAt.None?
    && ((exists d | d in db.deliveries ::
            IsItsDelivery(db.deliveries, order, d) && MayBring(caller, db.orders[order].seller, db.deliveries[d].driver))
        || (HasNoDelivery(db.deliveries, order)
            && exists a | a in db.assignments ::
                 IsItsDriver(db.assignments, order, a) && MayBring(caller, db.orders[order].seller, db.assignments[a].driver)))
  }

  predicate MayArrive(db: Db, caller: User, order: Id) {
    && IsOpen(db.orders, order) && db.orders[order].status == OutForDelivery
    && exists d | d in db.deliveries ::
         IsItsDelivery(db.deliveries, order, d) && MayBring(caller, db.orders[order].seller, db.deliveries[d].driver)
  }

  /** What the lookup of a delivery finds, in terms of the rows. */
  lemma DeliveryLookup(deliveries: map<Id, Delivery>, order: Id)
    ensures var found := ScalarOneOrNone(DeliveriesOf(deliveries, order));
            && (found.NoRow? <==> HasNoDelivery(deliveries, order))
            && (found.OneRow? ==> IsItsDelivery(deliveries, order, found.id))
            && (found.ManyRows? ==> forall d: Id :: !IsItsDelivery(deliveries, order, d))
  {
    var rows := DeliveriesOf(deliveries, order);
    var found := ScalarOneOrNone(rows);
    assert forall d | d in deliveries && deliveries[d].order == order :: d in rows;
    assert forall d: Id | IsItsDelivery(deliveries, order, d) :: rows == {d};
    if found.OneRow? {
      assert found.id in rows;
    }
  }

  lemma DriverLookup(assignments: map<Id, Assignment>, order: Id)
    ensures var found := ScalarOneOrNone(DriverAssignments(assignments, order));
            && (found.OneRow? ==> IsItsDriver(assignments, order, found.id))
            && (!found.OneRow? ==> forall a: Id :: !IsItsDriver(assignments, order, a))
  {
    var rows := DriverAssignments(assignments, order);
    var found := ScalarOneOrNone(rows);
    assert forall a | a in assignments && assignments[a].order == order && NamesDriver(assignments[a]) :: a in rows;
    assert forall a: Id | IsItsDriver(assignments, order, a) :: rows == {a};
    if found.OneRow? {
      assert found.id in rows;
    }
  }

  /** The order is out since now, and its one delivery in transit since now with the driver it had or was assigned. */
  predicate HasLeft(db: Db, order: Id, row: Id, now: Time, after: Db, d: Id)
    requires order in db.orders
  {
    && after == db.(orders := after.orders, deliveries := after.deliveries)
    && after.orders == db.orders[order := db.orders[order].(status := OutForDelivery, outForDeliveryAt := Some(now))]
    && IsItsDelivery(after.deliveries, order, d) && OnlyRow(db.deliveries, after.deliveries, d)
    && after.deliveries[d].status == InTransit && after.deliveries[d].startedAt == Some(now)
    && (HasNoDelivery(db.deliveries, order) ==>
          && d == row && after.deliveries[d].seller == db.orders[order].seller
          && after.deliveries[d].deliveredAt.None? && after.deliveries[d].durationSeconds.None?
          && after.deliveries[d].distanceMeters.None?
          && exists a | a in db.assignments ::
               IsItsDriver(db.assignments, order, a) && after.deliveries[d].driver == db.assignments[a].driver)
    && (!HasNoDelivery(db.deliveries, order) ==>
          && d in db.deliveries
          && after.deliveries[d] == db.deliveries[d].(status := InTransit, startedAt := Some(now)))
  }

  /** out_for_delivery goes through exactly for whom the order is to bring, while it is prepared and was not out. */
  lemma LeavesExactlyWhen(db: Db, caller: User, order: Id, row: Id, now: Time) returns (d: Id)
    requires row !in db.deliveries
    ensures var step := SendOut(db, caller, order, row, now);
            && (step.outcome.Done? <==> MayLeave(db, caller, order))
            && (step.outcome.Done? ==> HasLeft(db, order, row, now, step.db, d))
            && (step.outcome.Failed? ==> step.db == db)
  {
    DeliveryLookup(db.deliveries, order);
    DriverLookup(db.assignments, order);
    var found := ScalarOneOrNone(DeliveriesOf(db.deliveries, order));
    d := if found.OneRow? then found.id else row;
    if SendOut(db, caller, order, row, now).outcome.Done? {
      LeavingWrites(db, caller, order, row, now, d);
    }
  }

  lemma LeavingWrites(db: Db, caller: User, order: Id, row: Id, now: Time, d: Id)
    requires row !in db.deliveries && SendOut(db, caller, order, row, now).outcome.Done?
    requires var found := ScalarOneOrNone(DeliveriesOf(db.deliveries, order)); d == if found.OneRow? then found.id else row
    ensures order in db.orders && HasLeft(db, order, row, now, SendOut(db, caller, order, row, now).db, d)
  {
    DeliveryLookup(db.deliveries, order);
    DriverLookup(db.assignments, order);
  }

  /** The refusals of a departure on an order the caller can lock. */
  lemma LeavingRefusals(db: Db, caller: User, order: Id, row: Id, now: Time)
    ensures var outcome := SendOut(db, caller, order, row, now).outcome;
            && (caller.role == Admin || caller.role == Customer || !IsOpen(db.orders, order) ==> outcome == Failed(OrderNotFound))
            && (IsOpen(db.orders, order) && caller.role == Seller && caller.id != db.orders[order].seller ==>
                  outcome == Failed(OrderNotFound))
            && (outcome == Failed(DeliveryAlreadyStarted) <==>
                  && IsOpen(db.orders, order)
                  && (caller.role == Driver || (caller.role == Seller && caller.id == db.orders[order].seller))
                  && (db.orders[order].status == OutForDelivery || db.orders[order].outForDeliveryAt.Some?))
  {
  }

  /** The whole seconds between departure and arrival, none when the clock went back. */
  predicate LastedSeconds(from: Time, to: Time, seconds: int) {
    if to < from then seconds == 0 else seconds * 1_000_000 <= to - from < (seconds + 1) * 1_000_000
  }

  /** Order and delivery are delivered now, and how long the way took is written, once. */
  predicate HasArrived(db: Db, order: Id, now: Time, after: Db, d: Id)
    requires order in db.orders
  {
    && IsItsDelivery(db.deliveries, order, d)
    && after == db.(orders := after.orders, deliveries := after.deliveries)
    && after.orders == db.orders[order := db.orders[order].(status := Delivered, deliveredAt := Some(now))]
    && d in after.deliveries && after.deliveries == db.deliveries[d := after.deliveries[d]]
    && var was := db.deliveries[d];
    && after.deliveries[d] == was.(status := Arrived, deliveredAt := Some(now),
                                   durationSeconds := after.deliveries[d].durationSeconds)
    && (was.startedAt.None? || was.durationSeconds.Some? ==> after.deliveries[d].durationSeconds == was.durationSeconds)
    && (was.startedAt.Some? && was.durationSeconds.None? ==>
          && after.deliveries[d].durationSeconds.Some?
          && LastedSeconds(was.startedAt.value, now, after.deliveries[d].durationSeconds.value))
  }

  /** mark_delivered goes through exactly for whom the order is to bring, while it is out. */
  lemma ArrivesExactlyWhen(db: Db, caller: User, order: Id, now: Time) returns (d: Id)
    ensures var step := MarkDelivered(db, caller, order, now);
            && (step.outcome.Done? <==> MayArrive(db, caller, order))
            && (step.outcome.Done? ==> HasArrived(db, order, now, step.db, d))
            && (step.outcome.Failed? ==> step.db == db)
  {
    DeliveryLookup(db.deliveries, order);
    var found := ScalarOneOrNone(DeliveriesOf(db.deliveries, order));
    d := if found.OneRow? then found.id else order;
    if MarkDelivered(db, caller, order, now).outcome.Done? {
      ArrivalWrites(db, caller, order, now, d);
    }
  }

  lemma ArrivalWrites(db: Db, caller: User, order: Id, now: Time, d: Id)
    requires MarkDelivered(db, caller, order, now).outcome.Done?
    requires var found := ScalarOneOrNone(DeliveriesOf(db.deliveries, order)); found.OneRow? ==> d == found.id
    ensures order in db.orders && HasArrived(db, order, now, MarkDelivered(db, caller, order, now).db, d)
  {
    DeliveryLookup(db.deliveries, order);
  }

  /** The refusals of an arrival. */
  lemma ArrivalRefusals(db: Db, caller: User, order: Id, now: Time)
    ensures var outcome := MarkDelivered(db, caller, order, now).outcome;
            && (caller.role == Admin || caller.role == Customer || !IsOpen(db.orders, order) ==> outcome == Failed(OrderNotFound))
            && (IsOpen(db.orders, order) && caller.role == Seller && caller.id != db.orders[order].seller ==>
                  outcome == Failed(OrderNotFound))
            && (IsOpen(db.orders, order) && caller.role == Driver && db.orders[order].status != OutForDelivery ==>
                  outcome == Failed(OrderInvalidTransition))
  {
  }

  // ---------------------------------------------------------------------------
  // Confirming
  // ---------------------------------------------------------------------------

  predicate MayConfirm(orders: map<Id, Order>, caller: User, order: Id) {
    IsOpen(orders, order) && caller.role == Customer && caller.id == orders[order].customer && orders[order].status == Delivered
  }

  /** The customer, and nobody else, confirms a delivered order; it is completed now and booked. */
  lemma ConfirmedExactlyWhen(db: Db, caller: User, order: Id, now: Time)
    ensures var step := CompleteOrder(db, caller, order, now);
            && (step.outcome.Done? <==> MayConfirm(db.orders, caller, order))
            && (step.outcome.Failed? ==> step.db == db)
            && (step.outcome.Done? ==>
                  && step.db == db.(orders := step.db.orders, ledger := step.db.ledger)
                  && step.db.orders == db.orders[order := db.orders[order].(status := Completed, completedAt := Some(now))]
                  && InLedger(step.db.ledger, order))
            && (step.outcome == Failed(OrderInvalidTransition) <==>
                  && IsOpen(db.orders, order) && caller.role == Customer && caller.id == db.orders[order].customer
                  && db.orders[order].status != Delivered)
  {
    var step := CompleteOrder(db, caller, order, now);
    if step.outcome.Done? {
      var marked := db.(orders := db.orders[order := db.orders[order].(status := Completed, completedAt := Some(now))]);
      SnapshotWrittenOnce(marked, order, now, marked.(ledger := WriteSnapshot(marked, order, now)), now);
    }
  }

  // ---------------------------------------------------------------------------
  // Cancelling
  // ---------------------------------------------------------------------------

  /** Who may cancel at which stage. */
  predicate MayCancelNow(orders: map<Id, Order>, caller: User, order: Id) {
    && IsOpen(orders, order)
    && match caller.role
       case Customer => caller.id == orders[order].customer && orders[order].status == Pending
       case Seller =>
         && caller.id == orders[order].seller
         && (orders[order].status == Pending || orders[order].status == Accepted || orders[order].status == Preparing)
       case Admin => orders[order].status != Delivered && orders[order].status != Completed && orders[order].status != Cancelled
       case Driver => false
  }

  /** A cancellation goes through exactly for them; the order is cancelled now and its active assignments with it. */
  lemma CancelledExactlyWhen(db: Db, caller: User, order: Id, now: Time)
    ensures var step := CancelOrder(db, caller, order, now);
            && (step.outcome.Done? <==> MayCancelNow(db.orders, caller, order))
            && (step.outcome.Failed? ==> step.db == db)
            && (step.outcome.Done? ==>
                  && step.db == db.(orders := step.db.orders, assignments := step.db.assignments)
                  && step.db.orders == db.orders[order := db.orders[order].(status := Cancelled, cancelledAt := Some(now))])
  {
  }

  /** Who was asked for, assigned or on the order is dropped; nobody else is. */
  predicate DriversDropped(before: map<Id, Assignment>, after: map<Id, Assignment>, order: Id) {
    && (forall a | a in after :: a in before)
    && forall a | a in before ::
         && a in after
         && after[a] == if IsAwaited(before[a], order) then before[a].(status := Dropped) else before[a]
  }

  lemma CancellingDropsTheDriver(db: Db, caller: User, order: Id, now: Time)
    requires CancelOrder(db, caller, order, now).outcome.Done?
    ensures DriversDropped(db.assignments, CancelOrder(db, caller, order, now).db.assignments, order)
  {
    var step := CancelOrder(db, caller, order, now);
    assert step.db.assignments == DropAssignments(db.assignments, order);
  }

  lemma CancellationRefusals(db: Db, caller: User, order: Id, now: Time)
    ensures var outcome := CancelOrder(db, caller, order, now).outcome;
            && (!IsOpen(db.orders, order) ==> outcome == Failed(OrderNotFound))
            && (IsOpen(db.orders, order) && caller.role == Customer && caller.id != db.orders[order].customer ==>
                  outcome == Failed(OrderNotFound))
            && (IsOpen(db.orders, order) && caller.role == Seller && caller.id != db.orders[order].seller ==>
                  outcome == Failed(OrderNotFound))
            && (IsOpen(db.orders, order) && caller.role == Admin && !MayCancelNow(db.orders, caller, order) ==>
                  outcome == Failed(OrderInvalidTransition))
            && (outcome == Failed(OrderInvalidTransition) ==> IsOpen(db.orders, order) && !MayCancelNow(db.orders, caller, order))
  {
  }

  // ---------------------------------------------------------------------------
  // The snapshot
  // ---------------------------------------------------------------------------

  /** Each column of a snapshot, from the order, the seller and the delivery. */
  predicate Describes(row: Snapshot, db: Db, order: Id, now: Time)
    requires order in db.orders
  {
    var o := db.orders[order];
    && row.order == order && row.seller == o.seller && row.store == o.store && row.customer == o.customer
    && row.subtotal == o.subtotal && row.total == o.total && row.itemCount == ItemCount(o.items)
    && row.city == (if o.seller in db.sellers then db.sellers[o.seller].city else "")
    && (o.deliveredAt.Some? ==> row.deliveredAt == o.deliveredAt.value)
    && (o.deliveredAt.None? && o.completedAt.Some? ==> row.deliveredAt == o.completedAt.value)
    && (o.deliveredAt.None? && o.completedAt.None? ==> row.deliveredAt == now)
    && (HasNoDelivery(db.deliveries, order) ==> row.durationSeconds.None? && row.distanceMeters.None?)
    && (forall d | d in db.deliveries && IsItsDelivery(db.deliveries, order, d) ::
          row.durationSeconds == db.deliveries[d].durationSeconds && row.distanceMeters == db.deliveries[d].distanceMeters)
  }

  lemma SnapshotDescribes(db: Db, order: Id, now: Time)
    requires order in db.orders && !InLedger(db.ledger, order)
    ensures var after := WriteSnapshot(db, order, now);
            && |after| == |db.ledger| + 1 && after[..|db.ledger|] == db.ledger
            && Describes(after[|db.ledger|], db, order, now)
  {
    DeliveryLookup(db.deliveries, order);
    var rows := DeliveriesOf(db.deliveries, order);
    if rows != {} { assert Least(rows) in rows; }
  }

  // ---------------------------------------------------------------------------
  // Settings
  // ---------------------------------------------------------------------------

  predicate AreValid(retentionDays: Option<int>, graceHours: Option<int>) {
    (retentionDays.Some? ==> retentionDays.value >= 1) && (graceHours.Some? ==> graceHours.value >= 1)
  }

  /** What is given is stored; what is not stays, or is the default of 30 days and 72 hours. */
  predicate AreStored(before: Option<Settings>, retentionDays: Option<int>, graceHours: Option<int>, after: Option<Settings>) {
    && after.Some?
    && after.value.retentionDays == (if retentionDays.Some? then retentionDays.value
                                     else if before.Some? then before.value.retentionDays else 30)
    && after.value.graceHours == (if graceHours.Some? then graceHours.value
                                  else if before.Some? then before.value.graceHours else 72)
  }

  lemma SettingsAfter(db: Db, retentionDays: Option<int>, graceHours: Option<int>)
    ensures var step := UpdateSettings(db, retentionDays, graceHours);
            && (step.outcome.Done? <==> AreValid(retentionDays, graceHours))
            && (step.outcome.Failed? ==> step.db == db && step.outcome.error == RetentionSettingInvalid)
            && (step.outcome.Done? ==>
                  && step.db == db.(settings := step.db.settings)
                  && AreStored(db.settings, retentionDays, graceHours, step.db.settings))
  {
  }

  // ---------------------------------------------------------------------------
  // Deleting
  // ---------------------------------------------------------------------------

  /** What is wrong with a deletion: an order that does not concern the caller looks missing, one too young does not. */
  lemma DeletionRefusals(db: Db, caller: User, order: Id, now: Time)
    ensures var refusal := DeleteRefusal(db, caller, order, now);
            && (refusal == Some(OrderNotFound) <==>
                  || !IsOpen(db.orders, order) || caller.role == Driver
                  || (caller.role == Customer && db.orders[order].customer != caller.id)
                  || (caller.role == Seller && db.orders[order].seller != caller.id))
            && (refusal.Some? ==> refusal.value == OrderNotFound || refusal.value == OrderRetentionNotMet)
  {
  }

  // ---------------------------------------------------------------------------
  // The driver's delivery flow
  // ---------------------------------------------------------------------------

  /** A driver takes an open order that no second delivery row and no stray code is in the way of. */
  predicate MayTake(db: Db, driver: User, order: Id) {
    && driver.role == Driver && IsOpen(db.orders, order)
    && (order !in db.codes ==> HasNoDelivery(db.deliveries, order) || HasOneDelivery(db.deliveries, order))
    && (order in db.codes ==> db.orders[order].driverAcceptedAt.Some?)
  }

  /** The first acceptance: an unused code, the time on the order, and the driver on its one delivery. */
  predicate HasTaken(db: Db, driver: User, order: Id, row: Id, plain: string, now: Time, after: Db, d: Id)
    requires order in db.orders
  {
    && after == db.(orders := after.orders, deliveries := after.deliveries, codes := after.codes)
    && after.orders == db.orders[order := db.orders[order].(driverAcceptedAt := Some(now))]
    && OnlyRow(db.codes, after.codes, order)
    && after.codes[order].plain == plain && after.codes[order].attemptsUsed == 0
    && !after.codes[order].locked && after.codes[order].consumedAt.None?
    && IsItsDelivery(after.deliveries, order, d) && OnlyRow(db.deliveries, after.deliveries, d)
    && after.deliveries[d].driver == Some(driver.id)
    && (d in db.deliveries ==> after.deliveries[d].(driver := db.deliveries[d].driver) == db.deliveries[d])
    && (d !in db.deliveries ==>
          && d == row && HasNoDelivery(db.deliveries, order)
          && after.deliveries[d].seller == db.orders[order].seller && after.deliveries[d].status == InTransit
          && after.deliveries[d].startedAt.None? && after.deliveries[d].deliveredAt.None?
          && after.deliveries[d].durationSeconds.None? && after.deliveries[d].distanceMeters.None?)
  }

  lemma TakenExactlyWhen(db: Db, driver: User, order: Id, row: Id, plain: string, now: Time) returns (d: Id)
    requires row !in db.deliveries
    ensures var step := FlowAccept(db, driver, order, row, plain, now);
            && (step.outcome.Done? <==> MayTake(db, driver, order))
            && (step.outcome.Done? && order !in db.codes ==> HasTaken(db, driver, order, row, plain, now, step.db, d))
            && (step.outcome.Failed? || order in db.codes ==> step.db == db)
            && (step.outcome == Failed(PermissionDenied) <==> driver.role != Driver)
            && (step.outcome == Failed(OrderNotFound) <==> driver.role == Driver && !IsOpen(db.orders, order))
  {
    DeliveryLookup(db.deliveries, order);
    var found := ScalarOneOrNone(DeliveriesOf(db.deliveries, order));
    d := if found.OneRow? then found.id else row;
    if FlowAccept(db, driver, order, row, plain, now).outcome.Done? && order !in db.codes {
      TakingWrites(db, driver, order, row, plain, now, d);
    }
  }

  lemma TakingWrites(db: Db, driver: User, order: Id, row: Id, plain: string, now: Time, d: Id)
    requires row !in db.deliveries && order !in db.codes && FlowAccept(db, driver, order, row, plain, now).outcome.Done?
    requires var found := ScalarOneOrNone(DeliveriesOf(db.deliveries, order)); d == if found.OneRow? then found.id else row
    ensures order in db.orders && HasTaken(db, driver, order, row, plain, now, FlowAccept(db, driver, order, row, plain, now).db, d)
  {
    DeliveryLookup(db.deliveries, order);
  }

  /** Every attempt of a driver on an order with a code is written down, with whether it was right. */
  predicate WritesAttempt(before: map<Id, seq<Attempt>>, after: map<Id, seq<Attempt>>, order: Id, attempt: Attempt) {
    && OnlyRow(before, after, order)
    && after[order] == (if order in before then before[order] else []) + [attempt]
  }

  /** A driver's code is compared only while it is not locked; the third wrong one locks it, and the order with it. */
  lemma CodeSubmittedExactlyWhen(db: Db, driver: User, order: Id, submitted: string, now: Time)
    ensures var step := FlowComplete(db, driver, order, submitted, now);
            && (step.outcome == Failed(PermissionDenied) <==> driver.role != Driver)
            && (step.outcome == Failed(OrderNotFound) <==> driver.role == Driver && !IsOpen(db.orders, order))
            && (step.outcome == Failed(DeliveryNotAccepted) <==>
                  driver.role == Driver && IsOpen(db.orders, order) && order !in db.codes)
            && (driver.role != Driver || !IsOpen(db.orders, order) || order !in db.codes ==> step.db == db)
    ensures driver.role == Driver && IsOpen(db.orders, order) && order in db.codes ==>
              var code, step := db.codes[order], FlowComplete(db, driver, order, submitted, now);
              && (step.outcome.Done? <==> !code.locked && submitted == code.plain)
              && (step.outcome == Failed(DeliveryCodeLocked) <==>
                    code.locked || (submitted != code.plain && code.attemptsUsed >= 2))
              && (step.outcome.Failed? && step.outcome.error != DeliveryCodeLocked ==>
                    step.outcome.error == DeliveryCodeInvalid(2 - code.attemptsUsed))
              && WritesAttempt(db.attempts, step.db.attempts, order, Attempt(driver.id, submitted, step.outcome.Done?))
  {
  }

  /** A locked code changes no more; the right one delivers, a wrong one costs an attempt and the third the lock. */
  predicate CodeHandled(db: Db, order: Id, submitted: string, now: Time, after: Db)
    requires order in db.orders && order in db.codes
  {
    var code := db.codes[order];
    && (code.locked ==> after == db.(attempts := after.attempts))
    && (!code.locked && submitted == code.plain ==>
          && after == db.(attempts := after.attempts, codes := after.codes, orders := after.orders, messages := after.messages)
          && after.codes == db.codes[order := code.(consumedAt := Some(now))]
          && after.orders == db.orders[order := db.orders[order].(status := Delivered, deliveredAt := Some(now))])
    && (!code.locked && submitted != code.plain ==>
          && after == db.(attempts := after.attempts, codes := after.codes, orders := after.orders)
          && after.codes == db.codes[order := code.(attemptsUsed := code.attemptsUsed + 1, locked := code.attemptsUsed >= 2)]
          && after.orders == if code.attemptsUsed < 2 then db.orders
                             else db.orders[order := db.orders[order].(codeLocked := true)])
  }

  lemma SubmittingWrites(db: Db, driver: User, order: Id, submitted: string, now: Time)
    requires driver.role == Driver && IsOpen(db.orders, order) && order in db.codes
    ensures CodeHandled(db, order, submitted, now, FlowComplete(db, driver, order, submitted, now).db)
  {
    assert db.orders == db.orders[order := db.orders[order]];
  }

  /** The customer, or the driver on the one delivery, writes from the driver's acceptance until the delivery. */
  predicate MayWrite(db: Db, sender: User, order: Id) {
    && IsOpen(db.orders, order) && sender.role != Admin
    && db.orders[order].driverAcceptedAt.Some? && db.orders[order].deliveredAt.None?
    && ((HasNoDelivery(db.deliveries, order) && sender.id == db.orders[order].customer)
        || exists d | d in db.deliveries ::
             && IsItsDelivery(db.deliveries, order, d)
             && (sender.id == db.orders[order].customer || db.deliveries[d].driver == Some(sender.id)))
  }

  lemma PostedExactlyWhen(db: Db, sender: User, order: Id)
    ensures var step := PostMessage(db, sender, order);
            && (step.outcome.Done? <==> MayWrite(db, sender, order))
            && (step.outcome.Failed? ==> step.db == db)
            && (step.outcome == Failed(ChatNotOpen) <==>
                  IsOpen(db.orders, order) && db.orders[order].driverAcceptedAt.None?)
            && (step.outcome == Failed(ChatClosed) <==>
                  IsOpen(db.orders, order) && db.orders[order].driverAcceptedAt.Some? && db.orders[order].deliveredAt.Some?)
  {
    DeliveryLookup(db.deliveries, order);
  }

  /** One message of the sender at the end of the order's chat, in the role they are there in. */
  predicate HasPosted(db: Db, sender: User, order: Id, after: Db)
    requires order in db.orders
  {
    && after == db.(messages := after.messages) && OnlyRow(db.messages, after.messages, order)
    && var earlier, now := (if order in db.messages then db.messages[order] else []), after.messages[order];
    && |now| == |earlier| + 1 && now[..|earlier|] == earlier
    && now[|earlier|].sender == sender.id && now[|earlier|].archivedAt.None?
    && (sender.id == db.orders[order].customer ==> now[|earlier|].senderRole == Customer)
    && (sender.id != db.orders[order].customer ==> now[|earlier|].senderRole == Driver)
  }

  lemma PostingWrites(db: Db, sender: User, order: Id)
    requires PostMessage(db, sender, order).outcome.Done?
    ensures order in db.orders && HasPosted(db, sender, order, PostMessage(db, sender, order).db)
  {
    var role := if sender.id == db.orders[order].customer then Customer else Driver;
    var posted := MessagesOn(db.messages, order) + [Message(sender.id, role, None)];
    assert PostMessage(db, sender, order).db == db.(messages := db.messages[order := posted]);
  }
}
