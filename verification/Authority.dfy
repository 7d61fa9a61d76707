/** Who may move an order: whoever a call of the order service lets change an order row could see the order. */
module Authority {
  import opened Common
  import opened Marketplace
  import opened Runs
  import opened Fulfilment
  import opened Visibility

  /** The one whose move each status is. */
  predicate IsMoverTo(db: Db, caller: User, order: Id, to: Status)
    requires order in db.orders
  {
    var o := db.orders[order];
    match to
    case Pending => false
    case Accepted => caller.role == Seller && caller.id == o.seller
    case Preparing => caller.role == Seller && caller.id == o.seller
    case OutForDelivery => IsCarrier(db, caller, order)
    case Delivered => IsCarrier(db, caller, order)
    case Completed => caller.role == Customer && caller.id == o.customer
    case Cancelled =>
      || (caller.role == Customer && caller.id == o.customer && o.status == Pending)
      || (caller.role == Seller && caller.id == o.seller && o.status in {Pending, Accepted, Preparing})
      || (caller.role == Admin && o.status !in {Delivered, Completed, Cancelled})
  }

  /** The order's seller, or the driver its delivery or its assignment names. */
  predicate IsCarrier(db: Db, caller: User, order: Id)
    requires order in db.orders
  {
    || (caller.role == Seller && caller.id == db.orders[order].seller)
    || (caller.role == Driver && exists d | d in db.deliveries ::
          db.deliveries[d].order == order && db.deliveries[d].driver == Some(caller.id))
    || (caller.role == Driver && AssignmentsOf(db, caller.id, order) != {})
  }

  lemma MoversCanView(db: Db, caller: User, order: Id, to: Status)
    requires OneDeliveryEach(db.deliveries) && order in db.orders && db.orders[order].deletedAt.None?
    requires IsMoverTo(db, caller, order, to)
    ensures GetOrder(db, caller, order).Ok?
  {
    if caller.role == Driver {
      DriverRules(db, caller.id, order);
    }
  }

  /** A transition that goes through was made by the one whose move it is, on an order the caller can see. */
  lemma OnlyMoversMove(db: Db, move: Move, caller: User, order: Id, at: Time)
    requires OneDeliveryEach(db.deliveries) && ApplyMove(db, move, caller, order, at).outcome.Done?
    ensures order in db.orders && order in ApplyMove(db, move, caller, order, at).db.orders
    ensures IsMoverTo(db, caller, order, ApplyMove(db, move, caller, order, at).db.orders[order].status)
    ensures GetOrder(db, caller, order).Ok?
  {
    match move {
      case Accept => assert AcceptOrder(db, caller, order, at).db.orders[order].status == Accepted;
      case Prepare => assert MarkPreparing(db, caller, order, at).db.orders[order].status == Preparing;
      case Send(row) => SenderIsCarrier(db, caller, order, row, at);
      case Deliver => DelivererIsCarrier(db, caller, order, at);
      case Confirm => assert CompleteOrder(db, caller, order, at).db.orders[order].status == Completed;
      case Cancel => CancellerMayCancel(db, caller, order, at);
    }
    MoversCanView(db, caller, order, ApplyMove(db, move, caller, order, at).db.orders[order].status);
  }

  lemma CancellerMayCancel(db: Db, caller: User, order: Id, at: Time)
    requires CancelOrder(db, caller, order, at).outcome.Done?
    ensures order in db.orders && db.orders[order].deletedAt.None? && IsMoverTo(db, caller, order, Cancelled)
    ensures order in CancelOrder(db, caller, order, at).db.orders
    ensures CancelOrder(db, caller, order, at).db.orders[order].status == Cancelled
  {
    assert db.orders[order].status !in {Completed, Cancelled, Delivered};
  }

  lemma SenderIsCarrier(db: Db, caller: User, order: Id, row: Id, at: Time)
    requires SendOut(db, caller, order, row, at).outcome.Done?
    ensures order in db.orders && db.orders[order].deletedAt.None? && IsCarrier(db, caller, order)
    ensures order in SendOut(db, caller, order, row, at).db.orders
    ensures SendOut(db, caller, order, row, at).db.orders[order].status == OutForDelivery
  {
    var found := ScalarOneOrNone(DeliveriesOf(db.deliveries, order));
    var assignment := ScalarOneOrNone(DriverAssignments(db.assignments, order));
    if found.OneRow? {
      assert found.id in DeliveriesOf(db.deliveries, order);
    } else if caller.role == Driver {
      assert assignment.id in DriverAssignments(db.assignments, order);
      assert assignment.id in AssignmentsOf(db, caller.id, order);
    }
  }

  lemma DelivererIsCarrier(db: Db, caller: User, order: Id, at: Time)
    requires MarkDelivered(db, caller, order, at).outcome.Done?
    ensures order in db.orders && db.orders[order].deletedAt.None? && IsCarrier(db, caller, order)
    ensures order in MarkDelivered(db, caller, order, at).db.orders
    ensures MarkDelivered(db, caller, order, at).db.orders[order].status == Delivered
  {
    var found := ScalarOneOrNone(DeliveriesOf(db.deliveries, order));
    assert found.id in DeliveriesOf(db.deliveries, order);
  }

  /** A deletion that goes through, too. */
  lemma OnlyViewersDelete(db: Db, caller: User, order: Id, at: Time)
    requires OneDeliveryEach(db.deliveries) && DeleteOrder(db, caller, order, at).outcome.Done?
    ensures GetOrder(db, caller, order).Ok?
  {
    assert DeleteRefusal(db, caller, order, at).None?;
  }
}
