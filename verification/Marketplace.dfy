/**
 The order tables as one value, and each service call as a function from the tables it finds to the
 tables it leaves and its outcome.  OrderService.dfy holds the imperative services these specify.
 */
module Marketplace {
  import opened Common
  import opened Checkout

  // ---------------------------------------------------------------------------
  // Rows
  // ---------------------------------------------------------------------------

  datatype Status = Pending | Accepted | Preparing | OutForDelivery | Delivered | Completed | Cancelled

  datatype Order = Order(
    customer: Id, seller: Id, store: Id, status: Status, subtotal: int, total: int, items: seq<OrderItem>,
    placedAt: Time, acceptedAt: Option<Time>, preparingAt: Option<Time>, outForDeliveryAt: Option<Time>,
    deliveredAt: Option<Time>, completedAt: Option<Time>, cancelledAt: Option<Time>,
    driverAcceptedAt: Option<Time>, codeLocked: bool, deletedAt: Option<Time>)

  /** The statuses pending, in_transit, delivered and failed. */
  datatype DeliveryStatus = Waiting | InTransit | Arrived | Undelivered

  /** A row of deliveries; driver == None is self-delivery. */
  datatype Delivery = Delivery(
    order: Id, driver: Option<Id>, seller: Id, status: DeliveryStatus,
    startedAt: Option<Time>, deliveredAt: Option<Time>, durationSeconds: Option<int>, distanceMeters: Option<int>)

  datatype AssignmentStatus = Requested | Assigned | Taken | Declined | Dropped

  /** A row of driver_assignments; Taken and Dropped are its statuses "accepted" and "cancelled". */
  datatype Assignment = Assignment(
    order: Id, driver: Option<Id>, status: AssignmentStatus, requestedBy: Id,
    requestedAt: Time, assignedBy: Option<Id>, assignedAt: Option<Time>)

  datatype Snapshot = Snapshot(
    order: Id, seller: Id, store: Id, customer: Id, city: string, itemCount: int,
    subtotal: int, total: int, deliveredAt: Time, durationSeconds: Option<int>, distanceMeters: Option<int>)

  datatype SellerRow = SellerRow(city: string, deleted: bool)

  datatype Settings = Settings(retentionDays: int, graceHours: int)

  datatype Code = Code(plain: string, attemptsUsed: int, locked: bool, consumedAt: Option<Time>)

  datatype Attempt = Attempt(driver: Id, submitted: string, success: bool)

  datatype Message = Message(sender: Id, senderRole: Role, archivedAt: Option<Time>)

  /**
   Primary keys map to rows.  A seller's key is the user's key.  Code attempts and chat messages are
   kept per order, in insertion order; the ledger of snapshots in insertion order.
   */
  datatype Db = Db(
    orders: map<Id, Order>,
    products: map<Id, Product>,
    deliveries: map<Id, Delivery>,
    assignments: map<Id, Assignment>,
    ledger: seq<Snapshot>,
    codes: map<Id, Code>,
    attempts: map<Id, seq<Attempt>>,
    messages: map<Id, seq<Message>>,
    sellers: map<Id, SellerRow>,
    activeDrivers: set<Id>,
    settings: Option<Settings>)

  datatype Outcome = Done | Failed(error: Error)

  datatype Step = Step(db: Db, outcome: Outcome)

  function Refuse(db: Db, error: Error): Step {
    Step(db, Failed(error))
  }

  // ---------------------------------------------------------------------------
  // Lookups
  // ---------------------------------------------------------------------------

  function DeliveriesOf(deliveries: map<Id, Delivery>, order: Id): set<Id> {
    set d | d in deliveries && deliveries[d].order == order
  }

  predicate IsActive(a: Assignment) {
    a.status == Requested || a.status == Assigned || a.status == Taken
  }

  function ActiveAssignments(assignments: map<Id, Assignment>, order: Id): set<Id> {
    set a | a in assignments && assignments[a].order == order && IsActive(assignments[a])
  }

  predicate HasDriver(a: Assignment) {
    (a.status == Assigned || a.status == Taken) && a.driver.Some?
  }

  /** The assignments that out_for_delivery may start from. */
  function DriverAssignments(assignments: map<Id, Assignment>, order: Id): set<Id> {
    set a | a in assignments && assignments[a].order == order && HasDriver(assignments[a])
  }

  /** What _lock_order_or_404 hides from the caller. */
  predicate Hidden(orders: map<Id, Order>, caller: User, order: Id) {
    || order !in orders
    || orders[order].deletedAt.Some?
    || (caller.role == Seller && orders[order].seller != caller.id)
    || (caller.role == Customer && orders[order].customer != caller.id)
  }

  predicate HasProfile(sellers: map<Id, SellerRow>, seller: Id) {
    seller in sellers && !sellers[seller].deleted
  }

  // ---------------------------------------------------------------------------
  // Checkout
  // ---------------------------------------------------------------------------

  function NewOrder(customer: Id, plan: Plan, now: Time): Order {
    Order(customer, plan.seller, plan.store, Pending, plan.subtotal, plan.subtotal, plan.items,
          now, None, None, None, None, None, None, None, false, None)
  }

  function CreateOrder(db: Db, customer: User, lines: seq<Line>, order: Id, now: Time): Step {
    var decision := Decide(db.products, customer, lines);
    if decision.Err? then Refuse(db, decision.error)
    else
      Step(db.(products := decision.value.products,
               orders := db.orders[order := NewOrder(customer.id, decision.value, now)]),
           Done)
  }

  // ---------------------------------------------------------------------------
  // Transitions
  // ---------------------------------------------------------------------------

  function AcceptOrder(db: Db, caller: User, order: Id, now: Time): Step {
    if caller.role != Seller || Hidden(db.orders, caller, order) then Refuse(db, OrderNotFound)
    else if db.orders[order].status != Pending then Refuse(db, OrderInvalidTransition)
    else Step(db.(orders := db.orders[order := db.orders[order].(status := Accepted, acceptedAt := Some(now))]), Done)
  }

  function MarkPreparing(db: Db, caller: User, order: Id, now: Time): Step {
    if caller.role != Seller || Hidden(db.orders, caller, order) then Refuse(db, OrderNotFound)
    else if db.orders[order].status != Accepted then Refuse(db, OrderInvalidTransition)
    else Step(db.(orders := db.orders[order := db.orders[order].(status := Preparing, preparingAt := Some(now))]), Done)
  }

  /** The checks choose_self_delivery and request_driver share. */
  function FulfilmentRefusal(db: Db, caller: User, order: Id): Option<Error> {
    if caller.role != Seller || Hidden(db.orders, caller, order) then Some(OrderNotFound)
    else if db.orders[order].status !in {Accepted, Preparing} then Some(OrderInvalidTransition)
    else
      var delivery := ScalarOneOrNone(DeliveriesOf(db.deliveries, order));
      var request := ScalarOneOrNone(ActiveAssignments(db.assignments, order));
      if delivery.ManyRows? then Some(MultipleResultsFound)
      else if delivery.OneRow? then Some(FulfillmentAlreadyChosen)
      else if request.ManyRows? then Some(MultipleResultsFound)
      else if request.OneRow? then Some(FulfillmentAlreadyChosen)
      else if !HasProfile(db.sellers, caller.id) then Some(SellerProfileMissing)
      else None
  }

  function ChooseSelfDelivery(db: Db, caller: User, order: Id, delivery: Id): Step {
    var refusal := FulfilmentRefusal(db, caller, order);
    if refusal.Some? then Refuse(db, refusal.value)
    else
      Step(db.(deliveries := db.deliveries[
                 delivery := Delivery(order, None, caller.id, Waiting, None, None, None, None)]),
           Done)
  }

  function RequestDriver(db: Db, caller: User, order: Id, assignment: Id, now: Time): Step {
    var refusal := FulfilmentRefusal(db, caller, order);
    if refusal.Some? then Refuse(db, refusal.value)
    else
      Step(db.(assignments := db.assignments[
                 assignment := Assignment(order, None, Requested, caller.id, now, None, None)]),
           Done)
  }

  /** First in ORDER BY requested_at DESC; rows with equal timestamps are taken in key order. */
  predicate ComesFirst(assignments: map<Id, Assignment>, rows: set<Id>, first: Id)
    requires rows <= assignments.Keys
  {
    && first in rows
    && forall a | a in rows ::
         || assignments[a].requestedAt < assignments[first].requestedAt
         || (assignments[a].requestedAt == assignments[first].requestedAt && first <= a)
  }

  lemma SomeRowComesFirst(assignments: map<Id, Assignment>, rows: set<Id>)
    requires rows <= assignments.Keys && rows != {}
    ensures exists first :: ComesFirst(assignments, rows, first)
  {
    var x :| x in rows;
    var rest := rows - {x};
    if rest == {} {
      assert rows == {x};
      assert ComesFirst(assignments, rows, x);
    } else {
      SomeRowComesFirst(assignments, rest);
      var y :| ComesFirst(assignments, rest, y);
      assert forall a | a in rows :: a == x || a in rest;
      assert ComesFirst(assignments, rows, x) || ComesFirst(assignments, rows, y);
    }
  }

  function MostRecent(assignments: map<Id, Assignment>, rows: set<Id>): (first: Id)
    requires rows <= assignments.Keys && rows != {}
    ensures ComesFirst(assignments, rows, first)
  {
    SomeRowComesFirst(assignments, rows);
    var first :| first in rows && ComesFirst(assignments, rows, first);
    first
  }

  function AssignmentRefusal(db: Db, caller: User, order: Id, driver: Id): Option<Error> {
    if caller.role != Admin || Hidden(db.orders, caller, order) then Some(OrderNotFound)
    else if db.orders[order].status !in {Accepted, Preparing} then Some(OrderInvalidTransition)
    else if driver !in db.activeDrivers then Some(OrderInvalidTransition)
    else
      var active := ActiveAssignments(db.assignments, order);
      if active == {} then Some(DriverNotRequested)
      else if exists a | a in active :: db.assignments[a].driver.Some? then Some(DriverAlreadyAssigned)
      else None
  }

  function AssignDriver(db: Db, caller: User, order: Id, driver: Id, now: Time): Step {
    var refusal := AssignmentRefusal(db, caller, order, driver);
    if refusal.Some? then Refuse(db, refusal.value)
    else
      var pending := MostRecent(db.assignments, ActiveAssignments(db.assignments, order));
      Step(db.(assignments := db.assignments[
                 pending := db.assignments[pending].(
                   driver := Some(driver), status := Assigned, assignedBy := Some(caller.id), assignedAt := Some(now))]),
           Done)
  }

  /** Whether an existing delivery row lets the caller move it. */
  predicate MayMove(caller: User, order: Order, delivery: Delivery) {
    if delivery.driver.None? then caller.role == Seller && caller.id == order.seller
    else
      && (caller.role == Driver ==> delivery.driver == Some(caller.id))
      && (caller.role == Seller ==> caller.id == order.seller)
  }

  function Departed(order: Order, now: Time): Order {
    order.(status := OutForDelivery, outForDeliveryAt := Some(now))
  }

  function SendOut(db: Db, caller: User, order: Id, delivery: Id, now: Time): Step {
    if caller.role !in {Seller, Driver} || Hidden(db.orders, caller, order) then Refuse(db, OrderNotFound)
    else
      var o := db.orders[order];
      var found := ScalarOneOrNone(DeliveriesOf(db.deliveries, order));
      var assignment := ScalarOneOrNone(DriverAssignments(db.assignments, order));
      if o.status == OutForDelivery || o.outForDeliveryAt.Some? then Refuse(db, DeliveryAlreadyStarted)
      else if o.status != Preparing then Refuse(db, OrderInvalidTransition)
      else match found
        case ManyRows => Refuse(db, MultipleResultsFound)
        case OneRow(d) =>
          if !MayMove(caller, o, db.deliveries[d]) then Refuse(db, OrderNotFound)
          else
            Step(db.(deliveries := db.deliveries[d := db.deliveries[d].(status := InTransit, startedAt := Some(now))],
                     orders := db.orders[order := Departed(o, now)]),
                 Done)
        case NoRow =>
          match assignment
          case ManyRows => Refuse(db, MultipleResultsFound)
          case NoRow => Refuse(db, OrderInvalidTransition)
          case OneRow(a) =>
            var driver := db.assignments[a].driver;
            if caller.role == Driver && driver != Some(caller.id) then Refuse(db, OrderNotFound)
            else if caller.role == Seller && caller.id != o.seller then Refuse(db, OrderNotFound)
            else
              Step(db.(deliveries := db.deliveries[
                         delivery := Delivery(order, driver, o.seller, InTransit, Some(now), None, None, None)],
                       orders := db.orders[order := Departed(o, now)]),
                   Done)
  }

  /** Whole seconds from departure to now, stamped once. */
  function Duration(delivery: Delivery, now: Time): Option<int> {
    if delivery.startedAt.Some? && delivery.durationSeconds.None? then
      var elapsed := now - delivery.startedAt.value;
      Some(if elapsed < 0 then 0 else elapsed / 1_000_000)
    else delivery.durationSeconds
  }

  function MarkDelivered(db: Db, caller: User, order: Id, now: Time): Step {
    if caller.role !in {Seller, Driver} || Hidden(db.orders, caller, order) then Refuse(db, OrderNotFound)
    else
      var o := db.orders[order];
      if o.status != OutForDelivery then Refuse(db, OrderInvalidTransition)
      else match ScalarOneOrNone(DeliveriesOf(db.deliveries, order))
        case ManyRows => Refuse(db, MultipleResultsFound)
        case NoRow => Refuse(db, OrderInvalidTransition)
        case OneRow(d) =>
          var row := db.deliveries[d];
          if !MayMove(caller, o, row) then Refuse(db, OrderNotFound)
          else
            Step(db.(deliveries := db.deliveries[
                       d := row.(status := Arrived, deliveredAt := Some(now), durationSeconds := Duration(row, now))],
                     orders := db.orders[order := o.(status := Delivered, deliveredAt := Some(now))]),
                 Done)
  }

  // ---------------------------------------------------------------------------
  // Completion and the ledger
  // ---------------------------------------------------------------------------

  /** The row _write_snapshot would insert. */
  function SnapshotOf(db: Db, order: Id, now: Time): Snapshot
    requires order in db.orders
  {
    var o := db.orders[order];
    var city := if o.seller in db.sellers then db.sellers[o.seller].city else "";
    var deliveredAt :=
      if o.deliveredAt.Some? then o.deliveredAt.value
      else if o.completedAt.Some? then o.completedAt.value
      else now;
    var rows := DeliveriesOf(db.deliveries, order);
    var duration := if rows == {} then None else db.deliveries[Least(rows)].durationSeconds;
    var distance := if rows == {} then None else db.deliveries[Least(rows)].distanceMeters;
    Snapshot(order, o.seller, o.store, o.customer, city, ItemCount(o.items),
             o.subtotal, o.total, deliveredAt, duration, distance)
  }

  predicate InLedger(ledger: seq<Snapshot>, order: Id) {
    exists row | row in ledger :: row.order == order
  }

  /** INSERT ... ON CONFLICT (order_id) DO NOTHING. */
  function WriteSnapshot(db: Db, order: Id, now: Time): seq<Snapshot>
    requires order in db.orders
  {
    if InLedger(db.ledger, order) then db.ledger else db.ledger + [SnapshotOf(db, order, now)]
  }

  function Complete(db: Db, order: Id, now: Time): Db
    requires order in db.orders
  {
    var marked := db.(orders := db.orders[order := db.orders[order].(status := Completed, completedAt := Some(now))]);
    marked.(ledger := WriteSnapshot(marked, order, now))
  }

  function CompleteOrder(db: Db, caller: User, order: Id, now: Time): Step {
    if caller.role != Customer || Hidden(db.orders, caller, order) then Refuse(db, OrderNotFound)
    else if db.orders[order].status != Delivered then Refuse(db, OrderInvalidTransition)
    else Step(Complete(db, order, now), Done)
  }

  // ---------------------------------------------------------------------------
  // Cancellation
  // ---------------------------------------------------------------------------

  predicate MayCancel(role: Role, status: Status) {
    match role
    case Customer => status == Pending
    case Seller => status in {Pending, Accepted, Preparing}
    case Admin => true
    case Driver => false
  }

  function DropAssignments(assignments: map<Id, Assignment>, order: Id): map<Id, Assignment> {
    map a | a in assignments ::
      if a in ActiveAssignments(assignments, order) then assignments[a].(status := Dropped) else assignments[a]
  }

  function CancelOrder(db: Db, caller: User, order: Id, now: Time): Step {
    if Hidden(db.orders, caller, order) then Refuse(db, OrderNotFound)
    else
      var o := db.orders[order];
      if o.status in {Completed, Cancelled, Delivered} then Refuse(db, OrderInvalidTransition)
      else if caller.role == Driver then Refuse(db, OrderNotFound)
      else if !MayCancel(caller.role, o.status) then Refuse(db, OrderInvalidTransition)
      else
        Step(db.(orders := db.orders[order := o.(status := Cancelled, cancelledAt := Some(now))],
                 assignments := DropAssignments(db.assignments, order)),
             Done)
  }

  // ---------------------------------------------------------------------------
  // Retention
  // ---------------------------------------------------------------------------

  /** The earliest terminal timestamp. */
  function TerminalAt(o: Order): Option<Time> {
    match o.status
    case Completed => o.completedAt
    case Cancelled => o.cancelledAt
    case _ => None
  }

  /** _get_retention_settings inserts the defaults when the singleton row is missing. */
  function WithSettings(db: Db): (r: Db)
    ensures r.settings.Some?
  {
    if db.settings.Some? then db else db.(settings := Some(Settings(30, 72)))
  }

  /** Delete order rows; the rows that reference them cascade. */
  function Erase(db: Db, gone: set<Id>): Db {
    db.(orders := db.orders - gone,
        deliveries := map d | d in db.deliveries && db.deliveries[d].order !in gone :: db.deliveries[d],
        assignments := map a | a in db.assignments && db.assignments[a].order !in gone :: db.assignments[a],
        codes := db.codes - gone,
        attempts := db.attempts - gone,
        messages := db.messages - gone)
  }

  function DeleteRefusal(db: Db, caller: User, order: Id, now: Time): Option<Error> {
    if order !in db.orders || db.orders[order].deletedAt.Some? then Some(OrderNotFound)
    else
      var o := db.orders[order];
      if caller.role == Customer && o.customer != caller.id then Some(OrderNotFound)
      else if caller.role == Seller && o.seller != caller.id then Some(OrderNotFound)
      else if caller.role == Driver then Some(OrderNotFound)
      else if TerminalAt(o).None? then Some(OrderRetentionNotMet)
      else if now - TerminalAt(o).value < Days(WithSettings(db).settings.value.retentionDays) then Some(OrderRetentionNotMet)
      else None
  }

  /** Snapshot a completed order once more before its row goes. */
  function Remove(db: Db, order: Id, now: Time): Db
    requires order in db.orders
  {
    var kept := if db.orders[order].status == Completed then db.(ledger := WriteSnapshot(db, order, now)) else db;
    Erase(kept, {order})
  }

  function DeleteOrder(db: Db, caller: User, order: Id, now: Time): Step {
    var refusal := DeleteRefusal(db, caller, order, now);
    if refusal.Some? then Refuse(db, refusal.value)
    else Step(Remove(WithSettings(db), order, now), Done)
  }

  function DueForCompletion(db: Db, now: Time): set<Id>
    requires db.settings.Some?
  {
    set o | o in db.orders
      && db.orders[o].status == Delivered && db.orders[o].deliveredAt.Some?
      && db.orders[o].deliveredAt.value <= now - Hours(db.settings.value.graceHours)
      && db.orders[o].deletedAt.None?
  }

  function DueForPurge(db: Db, now: Time): set<Id>
    requires db.settings.Some?
  {
    var cutoff := now - Days(db.settings.value.retentionDays);
    set o | o in db.orders
      && db.orders[o].deletedAt.None?
      && ((db.orders[o].status == Completed && db.orders[o].completedAt.Some? && db.orders[o].completedAt.value <= cutoff)
          || (db.orders[o].status == Cancelled && db.orders[o].cancelledAt.Some? && db.orders[o].cancelledAt.value <= cutoff))
  }

  function CompleteAll(db: Db, rows: seq<Id>, now: Time): (r: Db)
    ensures r.settings == db.settings && r.orders.Keys == db.orders.Keys
  {
    if rows == [] then db
    else
      var before := CompleteAll(db, rows[..|rows| - 1], now);
      var order := rows[|rows| - 1];
      // The loop's own guard: skip a row that is no longer delivered.
      if order in before.orders && before.orders[order].status == Delivered then Complete(before, order, now) else before
  }

  function RemoveAll(db: Db, rows: seq<Id>, now: Time): Db {
    if rows == [] then db
    else
      var before := RemoveAll(db, rows[..|rows| - 1], now);
      var order := rows[|rows| - 1];
      if order in before.orders then Remove(before, order, now) else before
  }

  /**
   The rows a locking query returns: some of the matching rows, each once, in an order of the
   database's choosing.  A row another transaction holds is skipped.
   */
  predicate Returns(rows: seq<Id>, matching: set<Id>) {
    Distinct(rows) && forall row | row in rows :: row in matching
  }

  predicate PurgeRows(db: Db, due: seq<Id>, expired: seq<Id>, now: Time) {
    && Returns(due, DueForCompletion(WithSettings(db), now))
    && Returns(expired, DueForPurge(CompleteAll(WithSettings(db), due, now), now))
  }

  function RunPurge(db: Db, due: seq<Id>, expired: seq<Id>, now: Time): Step
  {
    Step(RemoveAll(CompleteAll(WithSettings(db), due, now), expired, now), Done)
  }

  function UpdateSettings(db: Db, retentionDays: Option<int>, graceHours: Option<int>): Step {
    var current := WithSettings(db).settings.value;
    if retentionDays.Some? && retentionDays.value < 1 then Refuse(db, RetentionSettingInvalid)
    else if graceHours.Some? && graceHours.value < 1 then Refuse(db, RetentionSettingInvalid)
    else
      var days := if retentionDays.Some? then retentionDays.value else current.retentionDays;
      var hours := if graceHours.Some? then graceHours.value else current.graceHours;
      Step(db.(settings := Some(Settings(days, hours))), Done)
  }

  // ---------------------------------------------------------------------------
  // The driver's delivery flow
  // ---------------------------------------------------------------------------

  predicate Missing(db: Db, order: Id) {
    order !in db.orders || db.orders[order].deletedAt.Some?
  }

  function FlowAccept(db: Db, driver: User, order: Id, delivery: Id, plain: string, now: Time): Step {
    if driver.role != Driver then Refuse(db, PermissionDenied)
    else if Missing(db, order) then Refuse(db, OrderNotFound)
    else if db.orders[order].driverAcceptedAt.Some? && order in db.codes then Step(db, Done)
    else
      var o := db.orders[order];
      var found := ScalarOneOrNone(DeliveriesOf(db.deliveries, order));
      if found.ManyRows? then Refuse(db, MultipleResultsFound)
      else if order in db.codes then Refuse(db, IntegrityError)
      else
        var deliveries :=
          if found.OneRow? then db.deliveries[found.id := db.deliveries[found.id].(driver := Some(driver.id))]
          else db.deliveries[delivery := Delivery(order, Some(driver.id), o.seller, InTransit, None, None, None, None)];
        Step(db.(orders := db.orders[order := o.(driverAcceptedAt := Some(now))],
                 deliveries := deliveries,
                 codes := db.codes[order := Code(plain, 0, false, None)]),
             Done)
  }

  function AttemptsOn(attempts: map<Id, seq<Attempt>>, order: Id): seq<Attempt> {
    if order in attempts then attempts[order] else []
  }

  function Logged(attempts: map<Id, seq<Attempt>>, order: Id, attempt: Attempt): map<Id, seq<Attempt>> {
    attempts[order := AttemptsOn(attempts, order) + [attempt]]
  }

  function MessagesOn(messages: map<Id, seq<Message>>, order: Id): seq<Message> {
    if order in messages then messages[order] else []
  }

  function Archived(messages: seq<Message>, now: Time): seq<Message> {
    seq(|messages|, i requires 0 <= i < |messages| =>
      if messages[i].archivedAt.None? then messages[i].(archivedAt := Some(now)) else messages[i])
  }

  /** One attempt is used up; the third locks the code and the order. */
  function WrongCode(db: Db, order: Id): Db
    requires order in db.orders && order in db.codes
  {
    var used := db.codes[order].attemptsUsed + 1;
    db.(codes := db.codes[order := db.codes[order].(attemptsUsed := used, locked := used >= 3)],
        orders := db.orders[order := db.orders[order].(codeLocked := used >= 3 || db.orders[order].codeLocked)])
  }

  function RightCode(db: Db, order: Id, now: Time): Db
    requires order in db.orders && order in db.codes
  {
    db.(codes := db.codes[order := db.codes[order].(consumedAt := Some(now))],
        orders := db.orders[order := db.orders[order].(status := Delivered, deliveredAt := Some(now))],
        messages := db.messages[order := Archived(MessagesOn(db.messages, order), now)])
  }

  /** Digests are compared in the source; hashing is taken to be injective. */
  function FlowComplete(db: Db, driver: User, order: Id, submitted: string, now: Time): Step {
    if driver.role != Driver then Refuse(db, PermissionDenied)
    else if Missing(db, order) then Refuse(db, OrderNotFound)
    else if order !in db.codes then Refuse(db, DeliveryNotAccepted)
    else
      var code := db.codes[order];
      var right := !code.locked && submitted == code.plain;
      var logged := db.(attempts := Logged(db.attempts, order, Attempt(driver.id, submitted, right)));
      if code.locked then Step(logged, Failed(DeliveryCodeLocked))
      else if right then Step(RightCode(logged, order, now), Done)
      else if code.attemptsUsed + 1 >= 3 then Step(WrongCode(logged, order), Failed(DeliveryCodeLocked))
      else Step(WrongCode(logged, order), Failed(DeliveryCodeInvalid(3 - (code.attemptsUsed + 1))))
  }

  function PostMessage(db: Db, sender: User, order: Id): Step {
    if Missing(db, order) then Refuse(db, OrderNotFound)
    else
      var o := db.orders[order];
      if o.driverAcceptedAt.None? then Refuse(db, ChatNotOpen)
      else if o.deliveredAt.Some? then Refuse(db, ChatClosed)
      else
        var found := ScalarOneOrNone(DeliveriesOf(db.deliveries, order));
        if found.ManyRows? then Refuse(db, MultipleResultsFound)
        else if sender.role == Admin then Refuse(db, PermissionDenied)
        else
          var isDriver := found.OneRow? && db.deliveries[found.id].driver == Some(sender.id);
          if sender.id != o.customer && !isDriver then Refuse(db, PermissionDenied)
          else
            var role := if sender.id == o.customer then Customer else Driver;
            Step(db.(messages := db.messages[
                       order := MessagesOn(db.messages, order) + [Message(sender.id, role, None)]]),
                 Done)
  }
}
