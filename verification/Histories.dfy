/** Runs from the opening of the shop: a self-delivery to its end, and how the delivery flow breaks a property. */
module Histories {
  import opened Answers
  import opened Checkout
  import opened Common
  import opened Effects
  import opened Fulfilment
  import opened FulfilmentLimits
  import opened Lifecycle
  import opened Marketplace
  import opened Runs

  /** Who takes part, in which order, and what is bought. */
  datatype Cast = Cast(
    customer: User, seller: User, admin: User, driver: User, lines: seq<Line>, order: Id, delivery: Id, request: Id, code: string)

  /** A shop that can serve the cast. */
  predicate Scene(w: World, cast: Cast) {
    && IsStart(w)
    && cast.seller.role == Seller && cast.admin.role == Admin && cast.driver.role == Driver
    && cast.customer.role == Customer && cast.customer.referringSeller == Some(cast.seller.id)
    && Orderable(w.db.products, cast.customer, cast.lines) && Fits(w.db.products, cast.lines)
    && HasProfile(w.db.sellers, cast.seller.id) && cast.driver.id in w.db.activeDrivers
  }

  // ---------------------------------------------------------------------------
  // Runs, call by call
  // ---------------------------------------------------------------------------

  /** Every call of the run goes through. */
  predicate AllDone(w: World, ops: seq<Op>)
    decreases |ops|
  {
    ops == [] || (Apply(w.db, ops[0]).outcome.Done? && AllDone(Advance(w, ops[0]), ops[1..]))
  }

  lemma {:induction false} OneMore(w: World, ops: seq<Op>, op: Op)
    requires IsRun(w, ops) && Admissible(After(w, ops), op)
    ensures IsRun(w, ops + [op]) && After(w, ops + [op]) == Advance(After(w, ops), op)
    ensures AllDone(w, ops + [op]) <==> AllDone(w, ops) && Apply(After(w, ops).db, op).outcome.Done?
    decreases |ops|
  {
    if ops == [] {
      assert [op][1..] == [];
    } else {
      assert (ops + [op])[1..] == ops[1..] + [op];
      OneMore(Advance(w, ops[0]), ops[1..], op);
    }
  }

  /** Calls of both services that need no new order: a longer run, and the tables it leads to. */
  lemma Then(w: World, ops: seq<Op>, call: Call, at: Time) returns (longer: seq<Op>)
    requires IsRun(w, ops) && Admissible(After(w, ops), Op(call, at))
    ensures IsRun(w, longer) && longer == ops + [Op(call, at)]
    ensures AllDone(w, longer) <==> AllDone(w, ops) && Apply(After(w, ops).db, Op(call, at)).outcome.Done?
    ensures After(w, longer).db == Apply(After(w, ops).db, Op(call, at)).db && After(w, longer).clock == at
    ensures (forall op | op in ops :: KeepsToFulfilment(op)) && KeepsToFulfilment(Op(call, at)) ==>
              forall op | op in longer :: KeepsToFulfilment(op)
  {
    longer := ops + [Op(call, at)];
    OneMore(w, ops, Op(call, at));
  }

  // ---------------------------------------------------------------------------
  // Where the order stands
  // ---------------------------------------------------------------------------

  /** The cast's order and its parties. */
  predicate Stands(db: Db, cast: Cast, status: Status) {
    && cast.order in db.orders
    && db.orders[cast.order].status == status && db.orders[cast.order].deletedAt.None?
    && db.orders[cast.order].seller == cast.seller.id && db.orders[cast.order].customer == cast.customer.id
    && (Rank(status) < Rank(OutForDelivery) ==> db.orders[cast.order].outForDeliveryAt.None?)
    && cast.driver.id in db.activeDrivers && HasProfile(db.sellers, cast.seller.id)
    && cast.seller.role == Seller && cast.admin.role == Admin && cast.driver.role == Driver && cast.customer.role == Customer
  }

  /** No driver has accepted it, and nothing delivers it. */
  predicate Untouched(db: Db, cast: Cast) {
    && cast.order in db.orders && db.orders[cast.order].driverAcceptedAt.None? && cast.order !in db.codes
    && db.deliveries == map[] && db.assignments == map[] && db.ledger == []
  }

  /** The driver is out with it. */
  predicate WithDriver(db: Db, cast: Cast) {
    && cast.order in db.orders
    && (exists d | d in db.deliveries :: db.deliveries[d].order == cast.order && db.deliveries[d].driver == Some(cast.driver.id))
  }

  /** The driver holds the code. */
  predicate Coded(db: Db, cast: Cast) {
    cast.order in db.codes && db.codes[cast.order].plain == cast.code && !db.codes[cast.order].locked
  }

  lemma PlaceOnScene(w: World, cast: Cast)
    requires Scene(w, cast)
    ensures Admissible(w, Op(Place(cast.lines, cast.customer, cast.order), w.clock))
    ensures Places(w.db, Op(Place(cast.lines, cast.customer, cast.order), w.clock))
    ensures var now := Advance(w, Op(Place(cast.lines, cast.customer, cast.order), w.clock));
            Stands(now.db, cast, Pending) && Untouched(now.db, cast)
  {
    AcceptedIffOrderableAndFits(w.db.products, cast.customer, cast.lines);
    PlacedOrder(w.db, cast.lines, cast.customer, cast.order, w.clock);
  }

  lemma AcceptAt(db: Db, cast: Cast, at: Time)
    requires Stands(db, cast, Pending) && Untouched(db, cast)
    ensures var step := AcceptOrder(db, cast.seller, cast.order, at);
            step.outcome.Done? && Stands(step.db, cast, Accepted) && Untouched(step.db, cast)
  {
  }

  lemma PrepareAt(db: Db, cast: Cast, at: Time)
    requires Stands(db, cast, Accepted) && Untouched(db, cast)
    ensures var step := MarkPreparing(db, cast.seller, cast.order, at);
            step.outcome.Done? && Stands(step.db, cast, Preparing) && Untouched(step.db, cast)
  {
  }

  lemma RequestAt(db: Db, cast: Cast, at: Time)
    requires Stands(db, cast, Preparing) && Untouched(db, cast)
    ensures var step := RequestDriver(db, cast.seller, cast.order, cast.request, at);
            step.outcome.Done? && AwaitsOne(step.db, cast)
  {
    DriverRequestedOnce(db, cast.seller, cast.order, cast.request, at, cast.seller, cast.request, at);
    assert MayChoose(db, cast.seller, cast.order);
  }

  lemma AssignAt(db: Db, cast: Cast, at: Time)
    requires AwaitsOne(db, cast)
    ensures AssignDriver(db, cast.admin, cast.order, cast.driver.id, at).outcome.Done?
    ensures var after := AssignDriver(db, cast.admin, cast.order, cast.driver.id, at).db;
            && Stands(after, cast, Preparing) && after.deliveries == map[]
            && after.orders == db.orders && after.codes == db.codes
  {
    var row := DriverAssignedOnce(db, cast.admin, cast.order, cast.driver.id, at, cast.driver.id, at);
    assert IsActive(db.assignments[cast.request]);
    assert MayAssign(db, cast.admin, cast.order, cast.driver.id);
  }

  lemma LeaveAt(db: Db, cast: Cast, at: Time)
    requires Stands(db, cast, Preparing) && SendOut(db, cast.driver, cast.order, cast.delivery, at).outcome.Done?
    requires db.deliveries == map[]
    ensures var after := SendOut(db, cast.driver, cast.order, cast.delivery, at).db;
            && Stands(after, cast, OutForDelivery) && WithDriver(after, cast)
            && after.codes == db.codes
            && after.orders[cast.order].driverAcceptedAt == db.orders[cast.order].driverAcceptedAt
            && forall d | d in after.deliveries :: d == cast.delivery
  {
    assert DeliveriesOf(db.deliveries, cast.order) == {};
    var assignment := ScalarOneOrNone(DriverAssignments(db.assignments, cast.order));
    assert assignment.id in DriverAssignments(db.assignments, cast.order);
    var after := SendOut(db, cast.driver, cast.order, cast.delivery, at).db;
    assert after.deliveries[cast.delivery].driver == Some(cast.driver.id);
  }

  lemma DriverAcceptAt(db: Db, cast: Cast, row: Id, at: Time)
    requires cast.order in db.orders && Stands(db, cast, db.orders[cast.order].status)
    requires db.orders[cast.order].driverAcceptedAt.None? && cast.order !in db.codes && row !in db.deliveries
    requires !ScalarOneOrNone(DeliveriesOf(db.deliveries, cast.order)).ManyRows?
    ensures var step := FlowAccept(db, cast.driver, cast.order, row, cast.code, at);
            && step.outcome.Done? && step.db != db && Coded(step.db, cast)
            && Stands(step.db, cast, db.orders[cast.order].status)
  {
    var step := FlowAccept(db, cast.driver, cast.order, row, cast.code, at);
    assert step.db.orders[cast.order] == db.orders[cast.order].(driverAcceptedAt := Some(at));
  }

  lemma SubmitAt(db: Db, cast: Cast, status: Status, at: Time)
    requires Stands(db, cast, status) && Coded(db, cast)
    ensures var step := FlowComplete(db, cast.driver, cast.order, cast.code, at);
            && step.outcome.Done? && Stands(step.db, cast, Delivered) && Coded(step.db, cast)
            && step.db.orders[cast.order].deliveredAt == Some(at)
  {
    var step := FlowComplete(db, cast.driver, cast.order, cast.code, at);
    RightCodeRewrites(db, cast.driver, cast.order, cast.code, at);
  }

  lemma ConfirmAt(db: Db, cast: Cast, at: Time)
    requires Stands(db, cast, Delivered) && Coded(db, cast)
    ensures var step := CompleteOrder(db, cast.customer, cast.order, at);
            step.outcome.Done? && Stands(step.db, cast, Completed) && Coded(step.db, cast)
  {
    assert CompleteOrder(db, cast.customer, cast.order, at).db == Complete(db, cast.order, at);
  }

  // ---------------------------------------------------------------------------
  // The runs
  // ---------------------------------------------------------------------------

  /** The order is placed, accepted and prepared. */
  lemma Preparation(w: World, cast: Cast) returns (ops: seq<Op>)
    requires Scene(w, cast)
    ensures IsRun(w, ops) && AllDone(w, ops) && After(w, ops).clock == w.clock && forall op | op in ops :: KeepsToFulfilment(op)
    ensures |ops| == 3
    ensures Stands(After(w, ops).db, cast, Preparing) && Untouched(After(w, ops).db, cast)
  {
    PlaceOnScene(w, cast);
    ops := Then(w, [], Place(cast.lines, cast.customer, cast.order), w.clock);
    AcceptAt(After(w, ops).db, cast, w.clock);
    ops := Then(w, ops, Transition(Move.Accept, cast.seller, cast.order), w.clock);
    PrepareAt(After(w, ops).db, cast, w.clock);
    ops := Then(w, ops, Transition(Prepare, cast.seller, cast.order), w.clock);
  }

  /** The one request, which no driver is on. */
  predicate AwaitsOne(db: Db, cast: Cast) {
    && Stands(db, cast, Preparing) && cast.order !in db.codes && db.orders[cast.order].driverAcceptedAt.None?
    && db.deliveries == map[] && cast.request in db.assignments
    && db.assignments == map[cast.request := db.assignments[cast.request]]
    && db.assignments[cast.request].order == cast.order
    && db.assignments[cast.request].driver.None? && db.assignments[cast.request].status == Requested
  }

  lemma Request(w: World, cast: Cast) returns (ops: seq<Op>)
    requires Scene(w, cast)
    ensures IsRun(w, ops) && After(w, ops).clock == w.clock && forall op | op in ops :: KeepsToFulfilment(op)
    ensures AwaitsOne(After(w, ops).db, cast)
  {
    var earlier := Preparation(w, cast);
    RequestAt(After(w, earlier).db, cast, w.clock);
    ops := Then(w, earlier, Fulfil(AskForDriver(cast.request), cast.seller, cast.order), w.clock);
  }

  /** A driver is asked for and assigned. */
  lemma Assignment(w: World, cast: Cast) returns (ops: seq<Op>)
    requires Scene(w, cast)
    ensures IsRun(w, ops) && After(w, ops).clock == w.clock && forall op | op in ops :: KeepsToFulfilment(op)
    ensures var db := After(w, ops).db;
            && Stands(db, cast, Preparing) && cast.order !in db.codes && db.orders[cast.order].driverAcceptedAt.None?
            && db.deliveries == map[]
            && SendOut(db, cast.driver, cast.order, cast.delivery, w.clock).outcome.Done?
  {
    var asked := Request(w, cast);
    EveryRunIsGood(w, asked);
    AssignAt(After(w, asked).db, cast, w.clock);
    AssignedDriverMayLeave(
      After(w, asked).db, cast.admin, cast.order, cast.driver, w.clock, cast.delivery, w.clock);
    ops := Then(w, asked, Fulfil(Assign(cast.driver.id), cast.admin, cast.order), w.clock);
  }

  /** And leaves, with every row in step. */
  lemma Departure(w: World, cast: Cast) returns (ops: seq<Op>)
    requires Scene(w, cast)
    ensures IsRun(w, ops) && After(w, ops).clock == w.clock && Fulfilled(After(w, ops).db)
    ensures var db := After(w, ops).db;
            && Stands(db, cast, OutForDelivery) && WithDriver(db, cast) && cast.order !in db.codes
            && db.orders[cast.order].driverAcceptedAt.None? && forall d | d in db.deliveries :: d == cast.delivery
  {
    var earlier := Assignment(w, cast);
    LeaveAt(After(w, earlier).db, cast, w.clock);
    ops := Then(w, earlier, Transition(Send(cast.delivery), cast.driver, cast.order), w.clock);
    EveryRunIsGood(w, ops);
  }

  /** The driver takes the code, which changes nothing about the rows. */
  lemma CodeTaken(w: World, cast: Cast) returns (ops: seq<Op>)
    requires Scene(w, cast)
    ensures IsRun(w, ops) && After(w, ops).clock == w.clock && Fulfilled(After(w, ops).db)
    ensures Stands(After(w, ops).db, cast, OutForDelivery) && Coded(After(w, ops).db, cast)
  {
    var earlier := Departure(w, cast);
    var db, row := After(w, earlier).db, cast.delivery + 1;
    LookupsAreUnambiguous(db, cast.order);
    DriverAcceptAt(db, cast, row, w.clock);
    AcceptanceKeepsFulfilmentIff(db, cast.driver, cast.order, row, cast.code, w.clock);
    ops := Then(w, earlier, DriverFlow(DriverAccept(row, cast.code), cast.driver, cast.order), w.clock);
  }

  /** The driver submits it. */
  lemma CodeSubmitted(w: World, cast: Cast) returns (ops: seq<Op>, last: Op)
    requires Scene(w, cast)
    ensures last == Op(DriverFlow(SubmitCode(cast.code), cast.driver, cast.order), w.clock)
    ensures IsRun(w, ops) && IsRun(w, ops + [last]) && After(w, ops + [last]).clock == w.clock
    ensures Fulfilled(After(w, ops).db) && !Fulfilled(After(w, ops + [last]).db)
    ensures Stands(After(w, ops + [last]).db, cast, Delivered) && Coded(After(w, ops + [last]).db, cast)
    ensures After(w, ops + [last]).db.orders[cast.order].deliveredAt == Some(w.clock)
  {
    ops := CodeTaken(w, cast);
    var db := After(w, ops).db;
    SubmitAt(db, cast, OutForDelivery, w.clock);
    SubmittedCodeKeepsFulfilmentIff(db, cast.driver, cast.order, cast.code, w.clock);
    var longer := Then(w, ops, DriverFlow(SubmitCode(cast.code), cast.driver, cast.order), w.clock);
    last := Op(DriverFlow(SubmitCode(cast.code), cast.driver, cast.order), w.clock);
  }

  /** The customer confirms, the code is submitted again, and the completed order is delivered once more. */
  lemma Reopening(w: World, cast: Cast) returns (ops: seq<Op>, last: Op)
    requires Scene(w, cast)
    ensures IsRun(w, ops) && IsRun(w, ops + [last])
    ensures Stands(After(w, ops).db, cast, Completed) && Stands(After(w, ops + [last]).db, cast, Delivered)
  {
    var earlier, submission := CodeSubmitted(w, cast);
    var delivered := earlier + [submission];
    ConfirmAt(After(w, delivered).db, cast, w.clock);
    ops := Then(w, delivered, Transition(Confirm, cast.customer, cast.order), w.clock);
    SubmitAt(After(w, ops).db, cast, Completed, w.clock);
    var longer := Then(w, ops, DriverFlow(SubmitCode(cast.code), cast.driver, cast.order), w.clock);
    last := Op(DriverFlow(SubmitCode(cast.code), cast.driver, cast.order), w.clock);
  }

  /** The code is submitted again a moment later, and the delivery time moves. */
  lemma SecondDelivery(w: World, cast: Cast) returns (ops: seq<Op>, last: Op)
    requires Scene(w, cast)
    ensures IsRun(w, ops) && IsRun(w, ops + [last])
    ensures Stands(After(w, ops).db, cast, Delivered) && Stands(After(w, ops + [last]).db, cast, Delivered)
    ensures After(w, ops).db.orders[cast.order].deliveredAt == Some(w.clock)
    ensures After(w, ops + [last]).db.orders[cast.order].deliveredAt == Some(w.clock + 1)
  {
    var earlier, submission := CodeSubmitted(w, cast);
    ops := earlier + [submission];
    SubmitAt(After(w, ops).db, cast, Delivered, w.clock + 1);
    var longer := Then(w, ops, DriverFlow(SubmitCode(cast.code), cast.driver, cast.order), w.clock + 1);
    last := Op(DriverFlow(SubmitCode(cast.code), cast.driver, cast.order), w.clock + 1);
  }

  /** The assigned driver accepts before leaving: a delivery in transit of an order being prepared. */
  lemma EarlyAcceptance(w: World, cast: Cast) returns (ops: seq<Op>, last: Op)
    requires Scene(w, cast)
    ensures IsRun(w, ops) && IsRun(w, ops + [last]) && Fulfilled(After(w, ops).db) && !Fulfilled(After(w, ops + [last]).db)
    ensures Stands(After(w, ops + [last]).db, cast, Preparing)
  {
    ops := Assignment(w, cast);
    EveryRunIsGood(w, ops);
    var db, row := After(w, ops).db, cast.delivery;
    LookupsAreUnambiguous(db, cast.order);
    DriverAcceptAt(db, cast, row, w.clock);
    AcceptanceKeepsFulfilmentIff(db, cast.driver, cast.order, row, cast.code, w.clock);
    var longer := Then(w, ops, DriverFlow(DriverAccept(row, cast.code), cast.driver, cast.order), w.clock);
    last := Op(DriverFlow(DriverAccept(row, cast.code), cast.driver, cast.order), w.clock);
  }

  // ---------------------------------------------------------------------------
  // A seller who delivers
  // ---------------------------------------------------------------------------

  /** The cast's delivery, which the seller brings. */
  predicate BySeller(db: Db, cast: Cast) {
    && IsItsDelivery(db.deliveries, cast.order, cast.delivery) && db.deliveries[cast.delivery].driver.None?
    && db.deliveries[cast.delivery].durationSeconds.None? && db.ledger == []
  }

  lemma ChooseAt(db: Db, cast: Cast)
    requires Stands(db, cast, Preparing) && Untouched(db, cast)
    ensures var step := ChooseSelfDelivery(db, cast.seller, cast.order, cast.delivery);
            step.outcome.Done? && Stands(step.db, cast, Preparing) && BySeller(step.db, cast)
  {
    RefusedExactlyWhenNot(db, cast.seller, cast.order);
    assert MayChoose(db, cast.seller, cast.order);
  }

  predicate OnTheWay(db: Db, cast: Cast, left: Time) {
    Stands(db, cast, OutForDelivery) && BySeller(db, cast) && db.deliveries[cast.delivery].startedAt == Some(left)
  }

  lemma SellerLeavesAt(db: Db, cast: Cast, row: Id, at: Time)
    requires Stands(db, cast, Preparing) && BySeller(db, cast) && row !in db.deliveries
    ensures var step := ApplyMove(db, Send(row), cast.seller, cast.order, at);
            step.outcome.Done? && OnTheWay(step.db, cast, at)
  {
    var d := LeavesExactlyWhen(db, cast.seller, cast.order, row, at);
    assert MayBring(cast.seller, db.orders[cast.order].seller, db.deliveries[cast.delivery].driver);
    assert MayLeave(db, cast.seller, cast.order);
  }

  /** It has arrived, and how long that took is written. */
  predicate BroughtBySeller(db: Db, cast: Cast, left: Time, arrived: Time) {
    && Stands(db, cast, Delivered) && db.ledger == [] && db.orders[cast.order].deliveredAt == Some(arrived)
    && IsItsDelivery(db.deliveries, cast.order, cast.delivery)
    && db.deliveries[cast.delivery].durationSeconds.Some?
    && LastedSeconds(left, arrived, db.deliveries[cast.delivery].durationSeconds.value)
  }

  lemma SellerArrivesAt(db: Db, cast: Cast, left: Time, at: Time)
    requires OnTheWay(db, cast, left)
    ensures var step := ApplyMove(db, Deliver, cast.seller, cast.order, at);
            step.outcome.Done? && BroughtBySeller(step.db, cast, left, at)
  {
    var d := ArrivesExactlyWhen(db, cast.seller, cast.order, at);
    assert MayBring(cast.seller, db.orders[cast.order].seller, db.deliveries[cast.delivery].driver);
    assert MayArrive(db, cast.seller, cast.order);
  }

  /** The sale is booked, once, with when it arrived and how long that took. */
  predicate BookedAfter(db: Db, cast: Cast, left: Time, arrived: Time) {
    && Stands(db, cast, Completed)
    && |db.ledger| == 1 && db.ledger[0].order == cast.order && db.ledger[0].deliveredAt == arrived
    && db.ledger[0].durationSeconds.Some? && LastedSeconds(left, arrived, db.ledger[0].durationSeconds.value)
  }

  lemma ConfirmBroughtAt(db: Db, cast: Cast, left: Time, arrived: Time, at: Time)
    requires BroughtBySeller(db, cast, left, arrived)
    ensures var step := ApplyMove(db, Confirm, cast.customer, cast.order, at);
            step.outcome.Done? && BookedAfter(step.db, cast, left, arrived)
  {
    ConfirmedExactlyWhen(db, cast.customer, cast.order, at);
    var marked := db.(orders := db.orders[cast.order := db.orders[cast.order].(status := Completed, completedAt := Some(at))]);
    SnapshotDescribes(marked, cast.order, at);
    assert CompleteOrder(db, cast.customer, cast.order, at).db == marked.(ledger := WriteSnapshot(marked, cast.order, at));
  }

  /** A run whose every call went through, which has come to an instant. */
  predicate GoesThrough(w: World, ops: seq<Op>, at: Time) {
    IsRun(w, ops) && AllDone(w, ops) && After(w, ops).clock == at
  }

  lemma Next(w: World, ops: seq<Op>, from: Time, move: Move, caller: User, order: Id, at: Time) returns (longer: seq<Op>)
    requires GoesThrough(w, ops, from) && from <= at && FreshMove(After(w, ops).db, move)
    requires ApplyMove(After(w, ops).db, move, caller, order, at).outcome.Done?
    ensures GoesThrough(w, longer, at) && |longer| == |ops| + 1
    ensures After(w, longer).db == ApplyMove(After(w, ops).db, move, caller, order, at).db
  {
    longer := Then(w, ops, Transition(move, caller, order), at);
  }

  lemma SellerChose(w: World, cast: Cast) returns (ops: seq<Op>)
    requires Scene(w, cast)
    ensures GoesThrough(w, ops, w.clock) && |ops| == 4
    ensures Stands(After(w, ops).db, cast, Preparing) && BySeller(After(w, ops).db, cast)
  {
    var earlier := Preparation(w, cast);
    ChooseAt(After(w, earlier).db, cast);
    ops := Then(w, earlier, Fulfil(SelfDeliver(cast.delivery), cast.seller, cast.order), w.clock);
  }

  lemma SellerLeft(w: World, cast: Cast) returns (ops: seq<Op>)
    requires Scene(w, cast)
    ensures GoesThrough(w, ops, w.clock) && |ops| == 5
    ensures OnTheWay(After(w, ops).db, cast, w.clock)
  {
    var earlier := SellerChose(w, cast);
    var row := UnusedKey(After(w, earlier).db.deliveries.Keys);
    SellerLeavesAt(After(w, earlier).db, cast, row, w.clock);
    ops := Next(w, earlier, w.clock, Send(row), cast.seller, cast.order, w.clock);
  }

  lemma SellerArrived(w: World, cast: Cast, at: Time) returns (ops: seq<Op>)
    requires Scene(w, cast) && w.clock <= at
    ensures GoesThrough(w, ops, at) && |ops| == 6
    ensures BroughtBySeller(After(w, ops).db, cast, w.clock, at)
  {
    var earlier := SellerLeft(w, cast);
    SellerArrivesAt(After(w, earlier).db, cast, w.clock, at);
    ops := Next(w, earlier, w.clock, Deliver, cast.seller, cast.order, at);
  }

  /**
   In any shop that can serve an order the seller can bring it: every call goes through, whenever it arrives and is
   confirmed, and the sale is booked with the whole seconds of the way.
   */
  lemma SelfDelivery(w: World, cast: Cast, arrived: Time, confirmed: Time) returns (ops: seq<Op>)
    requires Scene(w, cast) && w.clock <= arrived <= confirmed
    ensures GoesThrough(w, ops, confirmed) && |ops| == 7
    ensures BookedAfter(After(w, ops).db, cast, w.clock, arrived)
  {
    var earlier := SellerArrived(w, cast, arrived);
    ConfirmBroughtAt(After(w, earlier).db, cast, w.clock, arrived, confirmed);
    ops := Next(w, earlier, arrived, Confirm, cast.customer, cast.order, confirmed);
  }

  lemma UnusedKey(keys: set<Id>) returns (key: Id)
    ensures key !in keys && forall k | k in keys :: k < key
  {
    if keys == {} {
      key := 0;
    } else {
      var k :| k in keys;
      var rest := UnusedKey(keys - {k});
      key := if rest <= k then k + 1 else rest;
      assert forall x | x in keys :: x == k || x in keys - {k};
    }
  }

  // ---------------------------------------------------------------------------
  // A shop that opens
  // ---------------------------------------------------------------------------

  /** One seller with one product in unlimited stock, one customer of theirs, one driver. */
  lemma SomeScene() returns (w: World, cast: Cast)
    ensures Scene(w, cast)
  {
    var customer, seller := User(1, Customer, Some(2)), User(2, Seller, None);
    var product := Product(2, 3, "tea", 450, None, true, false);
    var products: map<Id, Product> := map[5 := product];
    var lines: seq<Line> := [Line(5, 2)];
    var db := Db(map[], products, map[], map[], [], map[], map[], map[], map[2 := SellerRow("Oslo", false)], {4}, None);
    w := World(db, 0, StockColumn(products), [], map[], {});
    cast := Cast(customer, seller, User(6, Admin, None), User(4, Driver, None), lines, 7, 8, 9, "1234");
    assert forall p | p in ProductIds(lines) :: p == 5;
  }

  /**
   So from the opening of a shop, by calls the services let through: a right code leaves delivery rows
   and statuses out of step, reopens a completed order, and moves a delivery time; an acceptance puts a
   delivery in transit on an order still being prepared.
   */
  lemma FailuresAreReachable() returns (w: World, cast: Cast, stale: seq<Op>, reopened: seq<Op>, moved: seq<Op>, early: seq<Op>)
    ensures IsStart(w) && IsRun(w, stale) && IsRun(w, reopened) && IsRun(w, moved) && IsRun(w, early)
    ensures !Fulfilled(After(w, stale).db) && !Fulfilled(After(w, early).db)
    ensures |reopened| > 0 && |moved| > 0
    ensures var before, after := After(w, reopened[..|reopened| - 1]).db.orders, After(w, reopened).db.orders;
            && cast.order in before && before[cast.order].status == Completed
            && cast.order in after && after[cast.order].status == Delivered
    ensures var before, after := After(w, moved[..|moved| - 1]).db.orders, After(w, moved).db.orders;
            && cast.order in before && cast.order in after
            && before[cast.order].deliveredAt == Some(w.clock) && after[cast.order].deliveredAt == Some(w.clock + 1)
  {
    w, cast := SomeScene();
    var ops, last := CodeSubmitted(w, cast);
    stale := ops + [last];
    ops, last := Reopening(w, cast);
    reopened := ops + [last];
    assert reopened[..|reopened| - 1] == ops;
    ops, last := SecondDelivery(w, cast);
    moved := ops + [last];
    assert moved[..|moved| - 1] == ops;
    ops, last := EarlyAcceptance(w, cast);
    early := ops + [last];
  }

  lemma SecondsBetween(from: Time, to: Time, seconds: int, whole: nat)
    requires LastedSeconds(from, to, seconds) && whole * 1_000_000 <= to - from < (whole + 1) * 1_000_000
    ensures seconds == whole
  {
  }

  /** A minute and a half on the way, say, is booked as 90 seconds. */
  lemma SelfDeliveryEnds() returns (w: World, cast: Cast, ops: seq<Op>)
    ensures IsStart(w) && IsRun(w, ops) && AllDone(w, ops)
    ensures BookedAfter(After(w, ops).db, cast, w.clock, w.clock + 90_500_000)
    ensures After(w, ops).db.ledger[0].durationSeconds == Some(90)
  {
    w, cast := SomeScene();
    ops := SelfDelivery(w, cast, w.clock + 90_500_000, w.clock + 90_500_000);
    SecondsBetween(w.clock, w.clock + 90_500_000, After(w, ops).db.ledger[0].durationSeconds.value, 90);
  }
}
