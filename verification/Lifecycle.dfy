/** The seven-state lifecycle and its timestamps, over every run, and exactly which submitted codes keep to it. */
module Lifecycle {
  import opened Common
  import opened Frames
  import opened Checkout
  import opened Marketplace
  import opened Runs
  import opened Retention

  function Rank(status: Status): nat {
    match status
    case Pending => 0
    case Accepted => 1
    case Preparing => 2
    case OutForDelivery => 3
    case Delivered => 4
    case Completed => 5
    case Cancelled => 6
  }

  /** The stage timestamps in lifecycle order; stage i belongs to the status of rank i. */
  function Stage(o: Order, i: int): Option<Time>
    requires 0 <= i < 6
  {
    if i == 0 then Some(o.placedAt)
    else if i == 1 then o.acceptedAt
    else if i == 2 then o.preparingAt
    else if i == 3 then o.outForDeliveryAt
    else if i == 4 then o.deliveredAt
    else o.completedAt
  }

  /** The stages reached form a prefix that the status determines, and their times do not decrease. */
  predicate Staged(o: Order, now: Time) {
    && (forall i, j | 0 <= i < j < 6 && Stage(o, j).Some? :: Stage(o, i).Some? && Stage(o, i).value <= Stage(o, j).value)
    && (forall i | 0 <= i < 6 && Stage(o, i).Some? :: Stage(o, i).value <= now)
    && if o.status == Cancelled then
         && o.cancelledAt.Some? && o.cancelledAt.value <= now
         && o.deliveredAt.None?
         && forall i | 0 <= i < 6 && Stage(o, i).Some? :: Stage(o, i).value <= o.cancelledAt.value
       else
         && o.cancelledAt.None?
         && forall i | 0 <= i < 6 :: Stage(o, i).Some? <==> i <= Rank(o.status)
  }

  /** What one step may do to a status: nothing, one stage up, or one jump to cancelled before delivery. */
  predicate StepsTo(a: Status, b: Status) {
    || a == b
    || (b != Cancelled && Rank(b) == Rank(a) + 1)
    || (b == Cancelled && Rank(a) < Rank(Delivered))
  }

  /** What any number of steps may do to a status. */
  predicate Climbs(a: Status, b: Status) {
    || a == b
    || (b != Cancelled && Rank(a) < Rank(b))
    || (b == Cancelled && Rank(a) < Rank(Delivered))
  }

  /** A written timestamp stays, and so does everything the checkout wrote. */
  predicate KeepsRecord(a: Order, b: Order) {
    && (forall i | 0 <= i < 6 && Stage(a, i).Some? :: Stage(b, i) == Stage(a, i))
    && (a.cancelledAt.Some? ==> b.cancelledAt == a.cancelledAt)
    && a.customer == b.customer && a.seller == b.seller && a.store == b.store
    && a.subtotal == b.subtotal && a.total == b.total && a.items == b.items
  }

  predicate Lived(db: Db, now: Time) {
    forall o | o in db.orders :: Staged(db.orders[o], now)
  }

  /** Only placed orders are in the table. */
  predicate Known(w: World) {
    w.db.orders.Keys <= w.placed.Keys
  }

  lemma StatusesClimbTransitively(a: Status, b: Status, c: Status)
    ensures Climbs(a, b) && Climbs(b, c) ==> Climbs(a, c)
    ensures Climbs(a, b) && a in {Completed, Cancelled} ==> a == b
  {
  }

  lemma StagedLater(o: Order, now: Time, later: Time)
    requires Staged(o, now) && now <= later
    ensures Staged(o, later)
  {
  }

  /** The ways a call of order_service rewrites one order row. */
  predicate Moves(a: Order, b: Order, at: Time) {
    || b == a
    || (a.status == Pending && b == a.(status := Accepted, acceptedAt := Some(at)))
    || (a.status == Accepted && b == a.(status := Preparing, preparingAt := Some(at)))
    || (a.status == Preparing && b == a.(status := OutForDelivery, outForDeliveryAt := Some(at)))
    || (a.status == OutForDelivery && b == a.(status := Delivered, deliveredAt := Some(at)))
    || (a.status == Delivered && b == a.(status := Completed, completedAt := Some(at)))
    || (Rank(a.status) < Rank(Delivered) && b == a.(status := Cancelled, cancelledAt := Some(at)))
  }

  /** What the driver's flow writes beside: that the order was accepted and that its code is locked. */
  predicate AnswersDriver(a: Order, b: Order) {
    b == a.(driverAcceptedAt := b.driverAcceptedAt, codeLocked := b.codeLocked)
  }

  /** A right code finds the order out for delivery, or repeats the delivery of this very instant. */
  predicate InTime(o: Order, at: Time) {
    o.status == OutForDelivery || (o.status == Delivered && o.deliveredAt == Some(at))
  }

  predicate CodeInTime(db: Db, op: Op) {
    op.call.DriverFlow? && op.call.flow.SubmitCode? && Apply(db, op).outcome.Done? ==>
      op.call.order in db.orders && InTime(db.orders[op.call.order], op.at)
  }

  predicate PurgeIsSound(db: Db, op: Op) {
    op.call.Purge? ==> SettingsOk(db.settings) && PurgeRows(db, op.call.due, op.call.expired, op.at)
  }

  lemma OrderMoves(db: Db, op: Op, order: Id)
    requires CodeInTime(db, op) && PurgeIsSound(db, op)
    requires order in db.orders && order in Apply(db, op).db.orders
    requires op.call.Place? ==> op.call.order != order
    ensures Moves(db.orders[order], Apply(db, op).db.orders[order], op.at)
         || (op.call.DriverFlow? && AnswersDriver(db.orders[order], Apply(db, op).db.orders[order]))
  {
    match op.call {
      case Place(lines, customer, target) => PlaceMoves(db, lines, customer, target, op.at, order);
      case Transition(move, caller, target) => TransitionMoves(db, move, caller, target, op.at, order);
      case Fulfil(choice, caller, target) => ChoiceMoves(db, choice, caller, target, op.at, order);
      case Delete(caller, target) => DeleteMoves(db, caller, target, op.at, order);
      case Purge(due, expired) => PurgeMoves(db, due, expired, op.at, order);
      case Configure(days, hours) => ConfigureMoves(db, days, hours, op.at, order);
      case DriverFlow(flow, caller, target) =>
        if flow.SubmitCode? {
          SubmissionMoves(db, caller, target, flow.submitted, op.at, order);
        } else {
          FlowMoves(db, flow, caller, target, op.at, order);
        }
      case Tend(catalogue, sellers, drivers) =>
        assert Tended(db, catalogue, sellers, drivers).orders == db.orders;
    }
  }

  lemma PlaceMoves(db: Db, lines: seq<Line>, customer: User, target: Id, at: Time, order: Id)
    requires order in db.orders && order != target
    ensures order in CreateOrder(db, customer, lines, target, at).db.orders
    ensures Moves(db.orders[order], CreateOrder(db, customer, lines, target, at).db.orders[order], at)
  {
    assert CreateOrder(db, customer, lines, target, at).db.orders[order] == db.orders[order];
  }

  lemma TransitionMoves(db: Db, move: Move, caller: User, target: Id, at: Time, order: Id)
    requires order in db.orders
    ensures order in ApplyMove(db, move, caller, target, at).db.orders
    ensures Moves(db.orders[order], ApplyMove(db, move, caller, target, at).db.orders[order], at)
  {
    var step := ApplyMove(db, move, caller, target, at);
    MovesKeepRows(db, move, caller, target, at);
    if order != target || step.outcome.Failed? {
      OthersStay(db, move, caller, target, at, order);
    } else {
      TargetMoves(db, move, caller, target, at);
    }
  }

  lemma OthersStay(db: Db, move: Move, caller: User, target: Id, at: Time, order: Id)
    requires order in db.orders && order in ApplyMove(db, move, caller, target, at).db.orders
    requires order != target || ApplyMove(db, move, caller, target, at).outcome.Failed?
    ensures ApplyMove(db, move, caller, target, at).db.orders[order] == db.orders[order]
  {
  }

  lemma TargetMoves(db: Db, move: Move, caller: User, order: Id, at: Time)
    requires order in db.orders && ApplyMove(db, move, caller, order, at).outcome.Done?
    requires order in ApplyMove(db, move, caller, order, at).db.orders
    ensures Moves(db.orders[order], ApplyMove(db, move, caller, order, at).db.orders[order], at)
  {
    var a, b := db.orders[order], ApplyMove(db, move, caller, order, at).db.orders[order];
    match move {
      case Accept => assert b == a.(status := Accepted, acceptedAt := Some(at));
      case Prepare => assert b == a.(status := Preparing, preparingAt := Some(at));
      case Send(row) => SentMoves(db, caller, order, row, at);
      case Deliver => DeliveredMoves(db, caller, order, at);
      case Confirm => assert b == a.(status := Completed, completedAt := Some(at));
      case Cancel => assert b == a.(status := Cancelled, cancelledAt := Some(at));
    }
  }

  lemma SentMoves(db: Db, caller: User, order: Id, row: Id, at: Time)
    requires order in db.orders && SendOut(db, caller, order, row, at).outcome.Done?
    ensures order in SendOut(db, caller, order, row, at).db.orders
    ensures Moves(db.orders[order], SendOut(db, caller, order, row, at).db.orders[order], at)
  {
    assert SendOut(db, caller, order, row, at).db.orders == db.orders[order := Departed(db.orders[order], at)];
  }

  lemma DeliveredMoves(db: Db, caller: User, order: Id, at: Time)
    requires order in db.orders && MarkDelivered(db, caller, order, at).outcome.Done?
    ensures order in MarkDelivered(db, caller, order, at).db.orders
    ensures Moves(db.orders[order], MarkDelivered(db, caller, order, at).db.orders[order], at)
  {
    var delivered := db.orders[order].(status := Delivered, deliveredAt := Some(at));
    assert MarkDelivered(db, caller, order, at).db.orders == db.orders[order := delivered];
  }

  lemma ChoiceMoves(db: Db, choice: Choice, caller: User, target: Id, at: Time, order: Id)
    requires order in db.orders
    ensures order in ApplyChoice(db, choice, caller, target, at).db.orders
    ensures Moves(db.orders[order], ApplyChoice(db, choice, caller, target, at).db.orders[order], at)
  {
    ChoicesKeepOrders(db, choice, caller, target, at);
  }

  lemma PurgeMoves(db: Db, due: seq<Id>, expired: seq<Id>, at: Time, order: Id)
    requires SettingsOk(db.settings) && PurgeRows(db, due, expired, at)
    requires order in db.orders && order in RunPurge(db, due, expired, at).db.orders
    ensures Moves(db.orders[order], RunPurge(db, due, expired, at).db.orders[order], at)
  {
    PurgeOrders(db, due, expired, at);
  }

  lemma ConfigureMoves(db: Db, days: Option<int>, hours: Option<int>, at: Time, order: Id)
    requires order in db.orders
    ensures order in UpdateSettings(db, days, hours).db.orders
    ensures Moves(db.orders[order], UpdateSettings(db, days, hours).db.orders[order], at)
  {
  }

  lemma DeleteMoves(db: Db, caller: User, target: Id, at: Time, order: Id)
    requires order in db.orders && order in DeleteOrder(db, caller, target, at).db.orders
    ensures Moves(db.orders[order], DeleteOrder(db, caller, target, at).db.orders[order], at)
  {
    assert DeleteOrder(db, caller, target, at).db.orders[order] == db.orders[order] by {
      DeletedOrNot(db, caller, target, at, order);
    }
  }

  lemma DeletedOrNot(db: Db, caller: User, target: Id, at: Time, order: Id)
    requires order in db.orders && order in DeleteOrder(db, caller, target, at).db.orders
    ensures DeleteOrder(db, caller, target, at).db.orders[order] == db.orders[order]
  {
    if DeleteRefusal(db, caller, target, at).None? {
      RemoveTables(WithSettings(db), target, at);
    }
  }

  lemma FlowMoves(db: Db, flow: Flow, caller: User, target: Id, at: Time, order: Id)
    requires order in db.orders && !flow.SubmitCode?
    ensures order in ApplyFlow(db, flow, caller, target, at).db.orders
    ensures AnswersDriver(db.orders[order], ApplyFlow(db, flow, caller, target, at).db.orders[order])
  {
    match flow {
      case DriverAccept(row, plain) => DriverAcceptRewrites(db, caller, target, row, plain, at, order);
      case Chat =>
    }
  }

  lemma DriverAcceptRewrites(db: Db, driver: User, target: Id, row: Id, plain: string, at: Time, order: Id)
    requires order in db.orders
    ensures order in FlowAccept(db, driver, target, row, plain, at).db.orders
    ensures AnswersDriver(db.orders[order], FlowAccept(db, driver, target, row, plain, at).db.orders[order])
  {
    var step := FlowAccept(db, driver, target, row, plain, at);
    if step.db != db {
      assert step.db.orders == db.orders[target := db.orders[target].(driverAcceptedAt := Some(at))];
    }
  }

  lemma SubmittedCodeRewrites(db: Db, driver: User, target: Id, submitted: string, now: Time, order: Id)
    requires order in db.orders
    ensures var after := FlowComplete(db, driver, target, submitted, now).db.orders;
            && order in after
            && after[order] == db.orders[order].(
                 status := after[order].status, deliveredAt := after[order].deliveredAt, codeLocked := after[order].codeLocked)
            && after[order].status in {db.orders[order].status, Delivered}
  {
    var step := FlowComplete(db, driver, target, submitted, now);
    if step.outcome.Done? {
      assert step.db.orders == db.orders[target := db.orders[target].(status := Delivered, deliveredAt := Some(now))];
    } else if order == target {
      assert order in step.db.orders;
      assert step.db.orders[order] == db.orders[order].(codeLocked := step.db.orders[order].codeLocked);
    } else {
      assert order in step.db.orders;
      assert step.db.orders[order] == db.orders[order];
    }
  }

  /** A right code in time is the stage from out for delivery to delivered; a wrong one writes the lock at most. */
  lemma SubmissionMoves(db: Db, driver: User, target: Id, submitted: string, at: Time, order: Id)
    requires order in db.orders
    requires FlowComplete(db, driver, target, submitted, at).outcome.Done? ==>
               target in db.orders && InTime(db.orders[target], at)
    ensures order in FlowComplete(db, driver, target, submitted, at).db.orders
    ensures var a, b := db.orders[order], FlowComplete(db, driver, target, submitted, at).db.orders[order];
            Moves(a, b, at) || AnswersDriver(a, b)
  {
    var step := FlowComplete(db, driver, target, submitted, at);
    if step.outcome.Done? {
      RightCodeRewrites(db, driver, target, submitted, at);
    } else {
      WrongCodeRewrites(db, driver, target, submitted, at, order);
    }
  }

  lemma RightCodeRewrites(db: Db, driver: User, target: Id, submitted: string, at: Time)
    requires FlowComplete(db, driver, target, submitted, at).outcome.Done?
    ensures target in db.orders
    ensures FlowComplete(db, driver, target, submitted, at).db.orders
         == db.orders[target := db.orders[target].(status := Delivered, deliveredAt := Some(at))]
  {
  }

  lemma WrongCodeRewrites(db: Db, driver: User, target: Id, submitted: string, at: Time, order: Id)
    requires order in db.orders && FlowComplete(db, driver, target, submitted, at).outcome.Failed?
    ensures order in FlowComplete(db, driver, target, submitted, at).db.orders
    ensures AnswersDriver(db.orders[order], FlowComplete(db, driver, target, submitted, at).db.orders[order])
  {
    var after := FlowComplete(db, driver, target, submitted, at).db.orders;
    if order == target {
      assert order in after;
      assert after[order] == db.orders[order].(codeLocked := after[order].codeLocked);
    } else {
      assert order in after;
      assert after[order] == db.orders[order];
    }
  }

  lemma MovesStayStaged(a: Order, b: Order, at: Time)
    requires Staged(a, at) && Moves(a, b, at)
    ensures Staged(b, at) && StepsTo(a.status, b.status) && KeepsRecord(a, b)
  {
    if a.status == b.status || b.status == Cancelled {
      assert forall i | 0 <= i < 6 :: Stage(b, i) == Stage(a, i);
      assert Stage(a, 4).Some? <==> a.deliveredAt.Some?;
    } else {
      var k := Rank(b.status);
      assert Stage(b, k) == Some(at) && Stage(a, k).None?;
      assert forall i | 0 <= i < 6 && i != k :: Stage(b, i) == Stage(a, i);
    }
  }

  lemma AcceptingStaysStaged(a: Order, b: Order, at: Time)
    requires Staged(a, at) && AnswersDriver(a, b)
    ensures Staged(b, at) && a.status == b.status && KeepsRecord(a, b)
  {
    assert forall i | 0 <= i < 6 :: Stage(b, i) == Stage(a, i);
  }

  /** One order through one step: staged again, one status further at most, no timestamp rewritten. */
  lemma OrderStep(db: Db, op: Op, now: Time, order: Id)
    requires CodeInTime(db, op) && PurgeIsSound(db, op) && now <= op.at
    requires order in db.orders && Staged(db.orders[order], now) && order in Apply(db, op).db.orders
    requires op.call.Place? ==> op.call.order != order
    ensures var a, b := db.orders[order], Apply(db, op).db.orders[order];
            Staged(b, op.at) && StepsTo(a.status, b.status) && KeepsRecord(a, b)
  {
    StagedLater(db.orders[order], now, op.at);
    OrderMoves(db, op, order);
    var a, b := db.orders[order], Apply(db, op).db.orders[order];
    if Moves(a, b, op.at) { MovesStayStaged(a, b, op.at); } else { AcceptingStaysStaged(a, b, op.at); }
  }

  lemma PlacedOrder(db: Db, lines: seq<Line>, customer: User, order: Id, at: Time)
    requires CreateOrder(db, customer, lines, order, at).outcome.Done?
    ensures Decide(db.products, customer, lines).Ok?
    ensures CreateOrder(db, customer, lines, order, at).db.orders
         == db.orders[order := NewOrder(customer.id, Decide(db.products, customer, lines).value, at)]
  {
  }

  lemma NewOrderIsStaged(customer: Id, plan: Plan, at: Time)
    ensures Staged(NewOrder(customer, plan, at), at)
  {
  }

  lemma OtherStepsAddNoOrder(db: Db, op: Op, order: Id)
    requires PurgeIsSound(db, op) && !(Places(db, op) && op.call.order == order)
    requires order !in db.orders
    ensures order !in Apply(db, op).db.orders
  {
    match op.call {
      case Place(lines, customer, target) => PlaceAddsOneOrder(db, lines, customer, target, op.at, order);
      case Transition(move, caller, target) => TransitionAddsNoOrder(db, move, caller, target, op.at, order);
      case Fulfil(choice, caller, target) => ChoiceAddsNoOrder(db, choice, caller, target, op.at, order);
      case Delete(caller, target) => DeleteAddsNoOrder(db, caller, target, op.at, order);
      case Purge(due, expired) => PurgeAddsNoOrder(db, due, expired, op.at, order);
      case Configure(days, hours) => ConfigureMovesNothing(db, days, hours);
      case DriverFlow(flow, caller, target) => FlowAddsNoOrder(db, flow, caller, target, op.at, order);
      case Tend(catalogue, sellers, drivers) => assert Tended(db, catalogue, sellers, drivers).orders == db.orders;
    }
  }

  lemma PlaceAddsOneOrder(db: Db, lines: seq<Line>, customer: User, target: Id, at: Time, order: Id)
    requires order !in db.orders
    requires CreateOrder(db, customer, lines, target, at).outcome.Done? ==> order != target
    ensures order !in CreateOrder(db, customer, lines, target, at).db.orders
  {
    if CreateOrder(db, customer, lines, target, at).outcome.Done? { PlacedOrder(db, lines, customer, target, at); }
  }

  lemma ChoiceAddsNoOrder(db: Db, choice: Choice, caller: User, target: Id, at: Time, order: Id)
    requires order !in db.orders
    ensures order !in ApplyChoice(db, choice, caller, target, at).db.orders
  {
    ChoicesKeepOrders(db, choice, caller, target, at);
  }

  lemma PurgeAddsNoOrder(db: Db, due: seq<Id>, expired: seq<Id>, at: Time, order: Id)
    requires SettingsOk(db.settings) && PurgeRows(db, due, expired, at) && order !in db.orders
    ensures order !in RunPurge(db, due, expired, at).db.orders
  {
    PurgeOrders(db, due, expired, at);
  }

  lemma ConfigureMovesNothing(db: Db, days: Option<int>, hours: Option<int>)
    ensures UpdateSettings(db, days, hours).db.orders == db.orders
  {
  }

  lemma TransitionAddsNoOrder(db: Db, move: Move, caller: User, target: Id, at: Time, order: Id)
    requires order !in db.orders
    ensures order !in ApplyMove(db, move, caller, target, at).db.orders
  {
    MoveWithin(db, move, caller, target, at);
  }

  lemma DeleteAddsNoOrder(db: Db, caller: User, target: Id, at: Time, order: Id)
    requires order !in db.orders
    ensures order !in DeleteOrder(db, caller, target, at).db.orders
  {
  }

  lemma FlowAddsNoOrder(db: Db, flow: Flow, caller: User, target: Id, at: Time, order: Id)
    requires order !in db.orders
    ensures order !in ApplyFlow(db, flow, caller, target, at).db.orders
  {
    FlowWithin(db, flow, caller, target, at);
  }

  lemma StepKeepsLives(w: World, op: Op)
    requires Admissible(w, op) && CodeInTime(w.db, op)
    requires SettingsOk(w.db.settings) && Lived(w.db, w.clock) && Known(w)
    ensures var next := Advance(w, op);
            SettingsOk(next.db.settings) && Lived(next.db, next.clock) && Known(next)
  {
    StepKeepsSettings(w.db, op);
    var next := Advance(w, op);
    forall o | o in next.db.orders
      ensures o in next.placed && Staged(next.db.orders[o], next.clock)
    {
      if Places(w.db, op) && op.call.order == o {
        PlacedOrder(w.db, op.call.lines, op.call.caller, o, op.at);
        NewOrderIsStaged(op.call.caller.id, Decide(w.db.products, op.call.caller, op.call.lines).value, op.at);
      } else {
        if o !in w.db.orders { OtherStepsAddNoOrder(w.db, op, o); }
        OrderStep(w.db, op, w.clock, o);
      }
    }
  }

  /** What a run may do to an order it did not place. */
  predicate Lives(w: World, end: World, o: Id) {
    o in end.db.orders ==>
      && o in w.db.orders
      && Climbs(w.db.orders[o].status, end.db.orders[o].status)
      && KeepsRecord(w.db.orders[o], end.db.orders[o])
  }

  /** Every right code of the run comes in time. */
  predicate CodesInTime(w: World, ops: seq<Op>)
    decreases |ops|
  {
    ops == [] || (CodeInTime(w.db, ops[0]) && CodesInTime(Advance(w, ops[0]), ops[1..]))
  }

  /**
   Over every run whose right codes come in time: each order's stages are a prefix matching its status,
   with times that do not decrease; and whatever the run does to an order, its status climbs or is
   cancelled once before delivery, terminal statuses are final, and no timestamp is rewritten.
   */
  lemma {:induction false} RunKeepsLives(w: World, ops: seq<Op>)
    requires IsRun(w, ops) && CodesInTime(w, ops)
    requires SettingsOk(w.db.settings) && Lived(w.db, w.clock) && Known(w)
    ensures Lived(After(w, ops).db, After(w, ops).clock) && Known(After(w, ops))
    ensures forall o | o in w.placed :: o in After(w, ops).placed && Lives(w, After(w, ops), o)
    decreases |ops|
  {
    if ops != [] {
      var op, next := ops[0], Advance(w, ops[0]);
      StepKeepsLives(w, op);
      RunKeepsLives(next, ops[1..]);
      var end := After(w, ops);
      forall o | o in w.placed
        ensures o in end.placed && Lives(w, end, o)
      {
        assert o in next.placed && Lives(next, end, o);
        if o in end.db.orders {
          StepKeepsLife(w, op, o);
          StatusesClimbTransitively(w.db.orders[o].status, next.db.orders[o].status, end.db.orders[o].status);
          RecordsAreKeptTransitively(w.db.orders[o], next.db.orders[o], end.db.orders[o]);
        }
      }
    }
  }

  lemma StepKeepsLife(w: World, op: Op, o: Id)
    requires Admissible(w, op) && CodeInTime(w.db, op)
    requires SettingsOk(w.db.settings) && Lived(w.db, w.clock) && Known(w)
    requires o in w.placed && o in Apply(w.db, op).db.orders
    ensures o in w.db.orders
    ensures Climbs(w.db.orders[o].status, Apply(w.db, op).db.orders[o].status)
    ensures KeepsRecord(w.db.orders[o], Apply(w.db, op).db.orders[o])
  {
    if o !in w.db.orders { OtherStepsAddNoOrder(w.db, op, o); }
    OrderStep(w.db, op, w.clock, o);
  }

  lemma RecordsAreKeptTransitively(a: Order, b: Order, c: Order)
    requires KeepsRecord(a, b) && KeepsRecord(b, c)
    ensures KeepsRecord(a, c)
  {
    forall i | 0 <= i < 6 && Stage(a, i).Some?
      ensures Stage(c, i) == Stage(a, i)
    {
      assert Stage(b, i) == Stage(a, i);
    }
  }

  /** The same from the opening of the shop. */
  lemma EveryRunKeepsLives(w: World, ops: seq<Op>)
    requires IsStart(w) && IsRun(w, ops) && CodesInTime(w, ops)
    ensures Lived(After(w, ops).db, After(w, ops).clock)
  {
    RunKeepsLives(w, ops);
  }

  // ---------------------------------------------------------------------------
  // Exactly which codes
  // ---------------------------------------------------------------------------

  /** What the lifecycle promises of one order through one step. */
  predicate KeepsLife(a: Order, b: Order, at: Time) {
    Staged(b, at) && Climbs(a.status, b.status) && KeepsRecord(a, b)
  }

  /**
   complete_delivery writes status and delivered_at behind no status guard.  A right code keeps the
   lifecycle exactly when it comes in time: an earlier order skips stages, a terminal one is reopened,
   and one delivered before gets a second delivery time.
   */
  lemma SubmittedCodeKeepsTheLifecycleIff(db: Db, driver: User, order: Id, submitted: string, now: Time, at: Time)
    requires FlowComplete(db, driver, order, submitted, at).outcome.Done?
    requires Staged(db.orders[order], now) && now <= at
    ensures KeepsLife(db.orders[order], FlowComplete(db, driver, order, submitted, at).db.orders[order], at)
       <==> InTime(db.orders[order], at)
  {
    var a, b := db.orders[order], FlowComplete(db, driver, order, submitted, at).db.orders[order];
    StagedLater(a, now, at);
    RightCodeRewrites(db, driver, order, submitted, at);
    DeliveringKeepsLifeIff(a, b, at);
  }

  lemma DeliveringKeepsLifeIff(a: Order, b: Order, at: Time)
    requires Staged(a, at) && b == a.(status := Delivered, deliveredAt := Some(at))
    ensures KeepsLife(a, b, at) <==> InTime(a, at)
  {
    if InTime(a, at) {
      MovesStayStaged(a, b, at);
    } else if Rank(a.status) < Rank(OutForDelivery) {
      assert Stage(a, 3).None? && Stage(b, 3) == Stage(a, 3);
    } else if a.status == Delivered {
      assert Stage(a, 4) == a.deliveredAt && Stage(b, 4) == Some(at);
    }
  }

  /** The step keeps the life of every order. */
  predicate StepLives(w: World, op: Op) {
    var next := Advance(w, op);
    && Lived(next.db, next.clock)
    && forall o | o in w.db.orders && o in next.db.orders :: KeepsLife(w.db.orders[o], next.db.orders[o], op.at)
  }

  predicate AllLive(w: World, ops: seq<Op>)
    decreases |ops|
  {
    ops == [] || (StepLives(w, ops[0]) && AllLive(Advance(w, ops[0]), ops[1..]))
  }

  lemma StepLivesExactlyWhenInTime(w: World, op: Op)
    requires Admissible(w, op) && SettingsOk(w.db.settings) && Lived(w.db, w.clock) && Known(w)
    ensures StepLives(w, op) <==> CodeInTime(w.db, op)
  {
    var next := Advance(w, op);
    if CodeInTime(w.db, op) {
      StepKeepsLives(w, op);
      forall o | o in w.db.orders && o in next.db.orders
        ensures KeepsLife(w.db.orders[o], next.db.orders[o], op.at)
      {
        StepKeepsLife(w, op, o);
      }
    } else {
      var order := op.call.order;
      RightCodeRewrites(w.db, op.call.caller, order, op.call.flow.submitted, op.at);
      SubmittedCodeKeepsTheLifecycleIff(w.db, op.call.caller, order, op.call.flow.submitted, w.clock, op.at);
      assert !KeepsLife(w.db.orders[order], next.db.orders[order], op.at);
    }
  }

  /** A run keeps the lifecycle at every step exactly when all its right codes come in time. */
  lemma {:induction false} RunLivesExactlyWhenCodesAreInTime(w: World, ops: seq<Op>)
    requires IsRun(w, ops) && SettingsOk(w.db.settings) && Lived(w.db, w.clock) && Known(w)
    ensures AllLive(w, ops) <==> CodesInTime(w, ops)
    decreases |ops|
  {
    if ops != [] {
      StepLivesExactlyWhenInTime(w, ops[0]);
      if CodeInTime(w.db, ops[0]) {
        StepKeepsLives(w, ops[0]);
        RunLivesExactlyWhenCodesAreInTime(Advance(w, ops[0]), ops[1..]);
      }
    }
  }

  /** And it does find others: a completed order goes back to delivered. */
  lemma SubmittedCodeReopensACompletedOrder(db: Db, driver: User, order: Id, at: Time)
    requires driver.role == Driver && !Missing(db, order) && db.orders[order].status == Completed
    requires order in db.codes && !db.codes[order].locked
    ensures FlowComplete(db, driver, order, db.codes[order].plain, at).db.orders[order].status == Delivered
    ensures !Climbs(Completed, Delivered)
  {
  }
}
