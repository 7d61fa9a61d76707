/** Who may see an order: three rules written in three places, and when they agree. */
module Visibility {
  import opened Common
  import opened Marketplace
  import opened Runs
  import opened Fulfilment

  /** The assignments that make the driver one of the order's drivers. */
  function AssignmentsOf(db: Db, driver: Id, order: Id): set<Id> {
    set a | a in db.assignments && db.assignments[a].order == order && db.assignments[a].driver == Some(driver)
              && db.assignments[a].status in {Assigned, Taken}
  }

  // ---------------------------------------------------------------------------
  // The list
  // ---------------------------------------------------------------------------

  /** list_orders_for_caller before its ORDER BY and LIMIT: the WHERE clauses, with two subqueries for a driver. */
  function Listed(db: Db, caller: User, status: Option<Status>): set<Id> {
    var onDelivery := set d | d in db.deliveries && db.deliveries[d].driver == Some(caller.id) :: db.deliveries[d].order;
    var onAssignment :=
      set a | a in db.assignments && db.assignments[a].driver == Some(caller.id)
                && db.assignments[a].status in {Assigned, Taken} :: db.assignments[a].order;
    set o | o in db.orders
      && db.orders[o].deletedAt.None?
      && (status.Some? ==> db.orders[o].status == status.value)
      && match caller.role
         case Admin => true
         case Seller => db.orders[o].seller == caller.id
         case Customer => db.orders[o].customer == caller.id
         case Driver => o in onDelivery || o in onAssignment
  }

  // ---------------------------------------------------------------------------
  // The single order
  // ---------------------------------------------------------------------------

  /** The order.delivery relation: the one row whose order_id, a unique column, is this order. */
  function DeliveryOf(db: Db, order: Id): Option<Delivery>
    requires OneDeliveryEach(db.deliveries)
  {
    if d :| d in DeliveriesOf(db.deliveries, order) then
      assert forall e | e in DeliveriesOf(db.deliveries, order) :: e == d;
      Some(db.deliveries[d])
    else None
  }

  predicate MayView(db: Db, caller: User, order: Id)
    requires OneDeliveryEach(db.deliveries) && order in db.orders
  {
    match caller.role
    case Admin => true
    case Seller => db.orders[order].seller == caller.id
    case Customer => db.orders[order].customer == caller.id
    case Driver =>
      var delivery := DeliveryOf(db, order);
      || (delivery.Some? && delivery.value.driver == Some(caller.id))
      || exists a | a in db.assignments ::
           && db.assignments[a].order == order
           && db.assignments[a].driver == Some(caller.id)
           && (db.assignments[a].status == Assigned || db.assignments[a].status == Taken)
  }

  function GetOrder(db: Db, caller: User, order: Id): Result<Order>
    requires OneDeliveryEach(db.deliveries)
  {
    if order !in db.orders || db.orders[order].deletedAt.Some? then Err(OrderNotFound)
    else if !MayView(db, caller, order) then Err(OrderNotFound)
    else Ok(db.orders[order])
  }

  // ---------------------------------------------------------------------------
  // The tracking role
  // ---------------------------------------------------------------------------

  datatype TrackingRole = AsAdmin | AsSeller | AsDriver | AsCustomer | AsNobody

  /** resolve_role; both of its lookups are scalar_one_or_none. */
  function ResolveRole(db: Db, user: User, order: Id): Result<TrackingRole>
    requires order in db.orders
  {
    if user.role == Admin then Ok(AsAdmin)
    else if user.role == Seller && db.orders[order].seller == user.id then Ok(AsSeller)
    else if user.role == Customer && db.orders[order].customer == user.id then Ok(AsCustomer)
    else if user.role == Driver then
      match ScalarOneOrNone(DeliveriesOf(db.deliveries, order))
      case ManyRows => Err(MultipleResultsFound)
      case OneRow(d) =>
        if d in db.deliveries && db.deliveries[d].driver == Some(user.id) then Ok(AsDriver)
        else ByAssignment(db, user, order)
      case NoRow => ByAssignment(db, user, order)
    else Ok(AsNobody)
  }

  function ByAssignment(db: Db, user: User, order: Id): Result<TrackingRole> {
    match ScalarOneOrNone(AssignmentsOf(db, user.id, order))
    case NoRow => Ok(AsNobody)
    case OneRow(_) => Ok(AsDriver)
    case ManyRows => Err(MultipleResultsFound)
  }

  predicate IsInternal(role: TrackingRole) {
    role.AsAdmin? || role.AsSeller? || role.AsDriver?
  }

  // ---------------------------------------------------------------------------
  // Agreement
  // ---------------------------------------------------------------------------

  /** Admins see all orders, sellers and customers their own, drivers those they deliver or are assigned to; deleted ones nobody. */
  predicate Concerns(db: Db, caller: User, order: Id) {
    && order in db.orders && db.orders[order].deletedAt.None?
    && (caller.role == Seller ==> caller.id == db.orders[order].seller)
    && (caller.role == Customer ==> caller.id == db.orders[order].customer)
    && (caller.role == Driver ==>
          || (exists d | d in db.deliveries :: db.deliveries[d].order == order && db.deliveries[d].driver == Some(caller.id))
          || (exists a | a in db.assignments ::
                && db.assignments[a].order == order && db.assignments[a].driver == Some(caller.id)
                && db.assignments[a].status != Requested && db.assignments[a].status != Declined
                && db.assignments[a].status != Dropped))
  }

  lemma FetchedExactlyWhen(db: Db, caller: User, order: Id)
    requires OneDeliveryEach(db.deliveries)
    ensures Concerns(db, caller, order) ==> GetOrder(db, caller, order) == Ok(db.orders[order])
    ensures !Concerns(db, caller, order) ==> GetOrder(db, caller, order) == Err(OrderNotFound)
  {
    if caller.role == Driver && order in db.orders {
      DriverRules(db, caller.id, order);
    }
  }

  /** In every state the list shows an order exactly when fetching it succeeds. */
  lemma ListedExactlyWhenFetched(db: Db, caller: User, order: Id, status: Option<Status>)
    requires OneDeliveryEach(db.deliveries)
    ensures order in Listed(db, caller, status) ==> GetOrder(db, caller, order) == Ok(db.orders[order])
    ensures order in Listed(db, caller, status) ==> status.None? || db.orders[order].status == status.value
    ensures GetOrder(db, caller, order).Ok? && (status.None? || db.orders[order].status == status.value) ==>
              order in Listed(db, caller, status)
  {
    if order in db.orders && caller.role == Driver {
      DriverRules(db, caller.id, order);
    }
  }

  /** A driver is on the delivery by the subquery exactly when by the relation. */
  lemma DriverRules(db: Db, driver: Id, order: Id)
    requires OneDeliveryEach(db.deliveries)
    ensures (exists d | d in db.deliveries :: db.deliveries[d].driver == Some(driver) && db.deliveries[d].order == order) <==>
            DeliveryOf(db, order).Some? && DeliveryOf(db, order).value.driver == Some(driver)
    ensures (exists a | a in db.assignments ::
               db.assignments[a].order == order && db.assignments[a].driver == Some(driver)
               && db.assignments[a].status in {Assigned, Taken}) <==> AssignmentsOf(db, driver, order) != {}
  {
    if d :| d in db.deliveries && db.deliveries[d].driver == Some(driver) && db.deliveries[d].order == order {
      assert d in DeliveriesOf(db.deliveries, order);
    }
    if a :| a in db.assignments && db.assignments[a].order == order && db.assignments[a].driver == Some(driver)
            && db.assignments[a].status in {Assigned, Taken} {
      assert a in AssignmentsOf(db, driver, order);
    }
  }

  /** Off the delivery and twice assigned: the only case in which resolve_role raises. */
  predicate TwiceAssigned(db: Db, user: User, order: Id) {
    && user.role == Driver
    && (forall d | d in db.deliveries :: db.deliveries[d].order != order || db.deliveries[d].driver != Some(user.id))
    && exists a, b | a in AssignmentsOf(db, user.id, order) && b in AssignmentsOf(db, user.id, order) :: a != b
  }

  lemma ScalarOnOneDelivery(db: Db, order: Id)
    requires OneDeliveryEach(db.deliveries)
    ensures match ScalarOneOrNone(DeliveriesOf(db.deliveries, order))
            case NoRow => DeliveryOf(db, order).None?
            case OneRow(d) => d in db.deliveries && DeliveryOf(db, order) == Some(db.deliveries[d])
            case ManyRows => false
  {
    ManyRowsMeansTwo(DeliveriesOf(db.deliveries, order));
    if ScalarOneOrNone(DeliveriesOf(db.deliveries, order)).OneRow? {
      assert ScalarOneOrNone(DeliveriesOf(db.deliveries, order)).id in DeliveriesOf(db.deliveries, order);
    }
  }

  /**
   On an undeleted order the tracking role is other than none exactly when the caller may fetch it,
   unless the lookup raises; and it raises exactly on a driver off the delivery with two assignments.
   */
  lemma TrackedExactlyWhenFetched(db: Db, user: User, order: Id)
    requires OneDeliveryEach(db.deliveries) && order in db.orders && db.orders[order].deletedAt.None?
    ensures ResolveRole(db, user, order).Err? <==> TwiceAssigned(db, user, order)
    ensures ResolveRole(db, user, order).Err? ==>
              ResolveRole(db, user, order).error == MultipleResultsFound && GetOrder(db, user, order).Ok?
    ensures ResolveRole(db, user, order).Ok? ==>
              (ResolveRole(db, user, order).value != AsNobody <==> GetOrder(db, user, order).Ok?)
  {
    if user.role == Driver {
      ScalarOnOneDelivery(db, order);
      DriverRules(db, user.id, order);
      ManyRowsMeansTwo(AssignmentsOf(db, user.id, order));
      assert GetOrder(db, user, order).Ok? == MayView(db, user, order);
      var delivery := DeliveryOf(db, order);
      if delivery.Some? && delivery.value.driver == Some(user.id) {
        assert MayView(db, user, order);
      } else {
        assert MayView(db, user, order) == (AssignmentsOf(db, user.id, order) != {});
      }
    }
  }

  /** Whoever the order concerns is tracked in their own role, everybody else in none. */
  lemma TrackedInTheirRole(db: Db, user: User, order: Id)
    requires OneDeliveryEach(db.deliveries) && order in db.orders && db.orders[order].deletedAt.None?
    requires !TwiceAssigned(db, user, order)
    ensures ResolveRole(db, user, order) ==
              if !Concerns(db, user, order) then Ok(AsNobody)
              else match user.role
                   case Admin => Ok(AsAdmin)
                   case Seller => Ok(AsSeller)
                   case Customer => Ok(AsCustomer)
                   case Driver => Ok(AsDriver)
  {
    FetchedExactlyWhen(db, user, order);
    TrackedExactlyWhenFetched(db, user, order);
    if user.role == Driver {
      ScalarOnOneDelivery(db, order);
    }
  }

  /** Full coordinates go to callers who may see the order and are not customers, the plain view to its customer. */
  lemma InternalMeansNotACustomer(db: Db, user: User, order: Id)
    requires OneDeliveryEach(db.deliveries) && order in db.orders && db.orders[order].deletedAt.None?
    requires ResolveRole(db, user, order).Ok?
    ensures IsInternal(ResolveRole(db, user, order).value) <==> user.role != Customer && GetOrder(db, user, order).Ok?
    ensures ResolveRole(db, user, order).value == AsCustomer <==> user.role == Customer && GetOrder(db, user, order).Ok?
  {
    TrackedExactlyWhenFetched(db, user, order);
    if user.role == Driver {
      ScalarOnOneDelivery(db, order);
    }
  }

  /** The case is not empty: no constraint of the tables keeps one driver from two assignments on an order. */
  lemma TwoAssignmentsRaise(db: Db, order: Id, a: Assignment, user: User)
    requires order in db.orders && db.deliveries == map[] && user.role == Driver
    requires a.order == order && a.driver == Some(user.id) && a.status == Assigned
    ensures ResolveRole(db.(assignments := map[0 := a, 1 := a]), user, order) == Err(MultipleResultsFound)
  {
    var twice := db.(assignments := map[0 := a, 1 := a]);
    assert 0 in AssignmentsOf(twice, user.id, order) && 1 in AssignmentsOf(twice, user.id, order);
    ManyRowsMeansTwo(AssignmentsOf(twice, user.id, order));
    assert DeliveriesOf(twice.deliveries, order) == {};
  }

  /** After every run of the order services the three rules coincide and no lookup raises. */
  lemma RulesCoincideAfterEveryRun(w: World, ops: seq<Op>, user: User, order: Id)
    requires IsStart(w) && IsRun(w, ops) && forall op | op in ops :: KeepsToFulfilment(op)
    requires order in After(w, ops).db.orders && After(w, ops).db.orders[order].deletedAt.None?
    ensures var db := After(w, ops).db;
            && OneDeliveryEach(db.deliveries)
            && ResolveRole(db, user, order).Ok?
            && ((order in Listed(db, user, None)) == GetOrder(db, user, order).Ok? == (ResolveRole(db, user, order).value != AsNobody))
  {
    EveryRunIsGood(w, ops);
    var db := After(w, ops).db;
    ListedExactlyWhenFetched(db, user, order, None);
    TrackedExactlyWhenFetched(db, user, order);
    assert OneAssignmentEach(db.assignments);
  }
}
