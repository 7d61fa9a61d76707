/** How an order comes to be completed, over every run, and what the sales of completed orders add up to. */
module Completion {
  import opened Answers
  import opened Checkout
  import opened Common
  import opened Ledger
  import opened Lifecycle
  import opened Marketplace
  import opened Retention
  import opened Runs

  // ---------------------------------------------------------------------------
  // The purge job
  // ---------------------------------------------------------------------------

  /** The settings the job reads. */
  function InForce(db: Db): Settings {
    WithSettings(db).settings.value
  }

  /** The query for auto-completion finds the orders whose grace period is over, to the microsecond. */
  lemma DueExactlyWhenGraceIsOver(db: Db, order: Id, now: Time)
    ensures order in DueForCompletion(WithSettings(db), now) <==>
              order in db.orders && GraceOver(db.orders[order], InForce(db), now)
  {
    assert WithSettings(db).orders == db.orders;
  }

  /** The order was completed by the job: now, and with its sale in the ledger. */
  predicate AutoCompleted(before: Db, after: Db, order: Id, now: Time) {
    && order in before.orders && order in after.orders
    && after.orders[order] == before.orders[order].(status := Completed, completedAt := Some(now))
    && InLedger(after.ledger, order)
  }

  /** The order went after its retention period, or was completed after its grace period, or is as it was. */
  predicate PurgedRightly(before: Db, due: seq<Id>, expired: seq<Id>, now: Time, after: Db, order: Id)
    requires order in before.orders
  {
    && (order !in after.orders ==> order in expired && PeriodOver(before.orders[order], InForce(before), now))
    && (order in after.orders && after.orders[order] != before.orders[order] ==>
          order in due && GraceOver(before.orders[order], InForce(before), now) && AutoCompleted(before, after, order, now))
  }

  /** Whatever rows the job skips: it erases only orders past their period and completes only those past their grace. */
  lemma PurgeTouchesOnlyTheOverdue(db: Db, due: seq<Id>, expired: seq<Id>, now: Time, order: Id)
    requires CompletedAreIn(db) && SettingsOk(db.settings) && PurgeRows(db, due, expired, now) && order in db.orders
    ensures PurgedRightly(db, due, expired, now, RunPurge(db, due, expired, now).db, order)
  {
    PurgeOrders(db, due, expired, now);
    PurgeKeeps(db, due, expired, now);
    if order in due { DueExactlyWhenGraceIsOver(db, order, now); }
  }

  /** With no row skipped it completes all of the former. */
  lemma PurgeCompletesAllOverdue(db: Db, due: seq<Id>, expired: seq<Id>, now: Time, order: Id)
    requires CompletedAreIn(db) && SettingsOk(db.settings) && PurgeRows(db, due, expired, now) && order in db.orders
    requires forall o | o in DueForCompletion(WithSettings(db), now) :: o in due
    requires GraceOver(db.orders[order], InForce(db), now)
    ensures AutoCompleted(db, RunPurge(db, due, expired, now).db, order, now)
  {
    DueExactlyWhenGraceIsOver(db, order, now);
    PurgeOrders(db, due, expired, now);
    PurgeKeeps(db, due, expired, now);
    assert order in due && order !in expired;
  }

  /** With no row skipped it erases all of the latter. */
  lemma PurgeErasesAllOverdue(db: Db, due: seq<Id>, expired: seq<Id>, now: Time, order: Id)
    requires SettingsOk(db.settings) && PurgeRows(db, due, expired, now) && order in db.orders
    requires forall o | o in DueForPurge(CompleteAll(WithSettings(db), due, now), now) :: o in expired
    requires db.orders[order].deletedAt.None? && PeriodOver(db.orders[order], InForce(db), now)
    ensures order !in RunPurge(db, due, expired, now).db.orders
  {
    DueExactlyWhenGraceIsOver(db, order, now);
    PurgeOrders(db, due, expired, now);
    UntouchedIsErasedIfOver(db, due, order, now);
    assert order in expired;
  }

  lemma UntouchedIsErasedIfOver(db: Db, due: seq<Id>, order: Id, now: Time)
    requires Returns(due, DueForCompletion(WithSettings(db), now)) && order in db.orders && order !in due
    requires db.orders[order].deletedAt.None? && PeriodOver(db.orders[order], InForce(db), now)
    ensures order in DueForPurge(CompleteAll(WithSettings(db), due, now), now)
  {
    CompleteAllTables(WithSettings(db), due, now);
    assert CompleteAll(WithSettings(db), due, now).orders[order] == db.orders[order];
  }

  // ---------------------------------------------------------------------------
  // Runs
  // ---------------------------------------------------------------------------

  predicate IsCompleted(db: Db, order: Id) {
    order in db.orders && db.orders[order].status == Completed
  }

  /** The order was delivered, and its own customer confirms it, or its grace period is over and the job runs. */
  predicate CompletedBy(db: Db, op: Op, order: Id) {
    && IsOpen(db.orders, order) && db.orders[order].status == Delivered
    && if op.call.Purge? then GraceOver(db.orders[order], InForce(db), op.at)
       else
         && op.call.Transition? && op.call.move.Confirm? && op.call.order == order
         && op.call.caller.role == Customer && op.call.caller.id == db.orders[order].customer
  }

  lemma StepCompletes(db: Db, op: Op, order: Id)
    requires CompletedAreIn(db) && SettingsOk(db.settings) && PurgeIsSound(db, op)
    requires op.call.Place? ==> op.call.order !in db.orders
    requires !IsCompleted(db, order) && IsCompleted(Apply(db, op).db, order)
    ensures CompletedBy(db, op, order)
  {
    match op.call {
      case Place(lines, customer, placed) =>
        PlaceCompletesNothing(db, customer, lines, placed, op.at, order);
      case Transition(move, caller, target) => MoveCompletes(db, move, caller, target, op.at, order);
      case Fulfil(choice, caller, target) => ChoicesKeepOrders(db, choice, caller, target, op.at);
      case Delete(caller, target) => DeleteCompletesNothing(db, caller, target, op.at, order);
      case Purge(due, expired) =>
        JobCompletes(db, due, expired, op.at, order);
      case Configure(days, hours) =>
      case DriverFlow(flow, caller, target) =>
        FlowNeverCompletes(db, flow, caller, target, op.at, order);
      case Tend(catalogue, sellers, drivers) =>
    }
  }

  lemma PlaceCompletesNothing(db: Db, customer: User, lines: seq<Line>, placed: Id, now: Time, order: Id)
    requires IsCompleted(CreateOrder(db, customer, lines, placed, now).db, order)
    ensures IsCompleted(db, order)
  {
    if CreateOrder(db, customer, lines, placed, now).outcome.Done? {
      PlacedOrderIsNew(db, customer, lines, placed, now);
    }
  }

  lemma FlowNeverCompletes(db: Db, flow: Flow, caller: User, target: Id, now: Time, order: Id)
    requires IsCompleted(ApplyFlow(db, flow, caller, target, now).db, order)
    ensures IsCompleted(db, order)
  {
    if order !in db.orders { FlowAddsNoOrder(db, flow, caller, target, now, order); }
    FlowCompletesNothing(db, flow, caller, target, now, order);
  }

  lemma JobCompletes(db: Db, due: seq<Id>, expired: seq<Id>, now: Time, order: Id)
    requires CompletedAreIn(db) && SettingsOk(db.settings) && PurgeRows(db, due, expired, now)
    requires !IsCompleted(db, order) && IsCompleted(RunPurge(db, due, expired, now).db, order)
    ensures CompletedBy(db, Op(Purge(due, expired), now), order)
  {
    PurgeOrders(db, due, expired, now);
    PurgeTouchesOnlyTheOverdue(db, due, expired, now, order);
  }

  lemma MoveCompletes(db: Db, move: Move, caller: User, target: Id, now: Time, order: Id)
    requires !IsCompleted(db, order) && IsCompleted(ApplyMove(db, move, caller, target, now).db, order)
    ensures CompletedBy(db, Op(Transition(move, caller, target), now), order)
  {
    if order !in db.orders { TransitionAddsNoOrder(db, move, caller, target, now, order); }
    if order != target || ApplyMove(db, move, caller, target, now).outcome.Failed? {
      OthersStay(db, move, caller, target, now, order);
    }
    if move.Confirm? {
      ConfirmedExactlyWhen(db, caller, target, now);
    } else {
      OnlyConfirmCompletes(db, move, caller, target, now);
    }
  }

  lemma DeleteCompletesNothing(db: Db, caller: User, target: Id, now: Time, order: Id)
    requires IsCompleted(DeleteOrder(db, caller, target, now).db, order)
    ensures IsCompleted(db, order)
  {
    if DeleteOrder(db, caller, target, now).outcome.Done? {
      RemoveTables(WithSettings(db), target, now);
    }
  }

  /** In every run each order that comes to be completed was confirmed by its customer or overdue when the job ran. */
  lemma {:induction false} RunCompletes(w: World, ops: seq<Op>, order: Id) returns (i: nat)
    requires Booked(w) && SettingsOk(w.db.settings) && IsRun(w, ops)
    requires order !in w.completed && order in After(w, ops).completed
    ensures i < |ops| && CompletedBy(After(w, ops[..i]).db, ops[i], order)
    decreases |ops|
  {
    var next := Advance(w, ops[0]);
    StepKeepsBooked(w, ops[0]);
    if order in next.completed {
      i := 0;
      StepCompletes(w.db, ops[0], order);
    } else {
      var rest := RunCompletes(next, ops[1..], order);
      i := rest + 1;
      assert ops[..i][0] == ops[0] && ops[..i][1..] == ops[1..][..rest];
    }
  }

  // ---------------------------------------------------------------------------
  // What a sale is worth
  // ---------------------------------------------------------------------------

  /** An order costs what its items cost. */
  predicate Priced(o: Order) {
    o.total == o.subtotal == ItemTotal(o.items)
  }

  predicate AllPriced(w: World) {
    forall o | o in w.placed :: Priced(w.placed[o])
  }

  lemma StepKeepsPriced(w: World, op: Op)
    requires AllPriced(w)
    ensures AllPriced(Advance(w, op))
  {
    if Places(w.db, op) {
      PlacedOrderIsWorthItsLines(w.db, op.call.caller, op.call.lines, op.call.order, op.at);
    }
  }

  lemma {:induction false} RunKeepsPriced(w: World, ops: seq<Op>)
    requires AllPriced(w) && IsRun(w, ops)
    ensures AllPriced(After(w, ops))
    decreases |ops|
  {
    if ops != [] {
      StepKeepsPriced(w, ops[0]);
      RunKeepsPriced(Advance(w, ops[0]), ops[1..]);
    }
  }

  /** After every run each order costs what its items cost, and each snapshot has the worth and units of the items ordered. */
  lemma EveryRunIsPriced(w: World, ops: seq<Op>)
    requires IsStart(w) && IsRun(w, ops)
    ensures var end := After(w, ops);
            && (forall o | o in end.db.orders :: Priced(end.db.orders[o]))
            && (forall row | row in end.db.ledger ::
                  && row.order in end.placed && var items := end.placed[row.order].items;
                  && row.total == row.subtotal == ItemTotal(items) && row.itemCount == ItemCount(items))
  {
    RunKeepsPriced(w, ops);
    EveryRunIsBooked(w, ops);
  }

  /** What one step asks of a seller's customers. */
  function AskedIn(w: World, op: Op, orders: set<Id>, seller: Id): int {
    if Places(w.db, op) && op.call.order in orders && op.call.caller.referringSeller == Some(seller)
    then LineSum(op.call.lines, Price(w.db.products))
    else 0
  }

  /** What the customers of a seller were asked to pay for some orders: their lines at the prices then listed. */
  function Asked(w: World, ops: seq<Op>, orders: set<Id>, seller: Id): int
    decreases |ops|
  {
    if ops == [] then 0
    else AskedIn(w, ops[0], orders, seller) + Asked(Advance(w, ops[0]), ops[1..], orders, seller)
  }

  lemma {:induction false} SalesReadTheirOrders(
      sequence: seq<Id>, placed: map<Id, Order>, more: map<Id, Order>, completed: set<Id>, seller: Id)
    requires forall o | o in sequence :: o in placed && o in more && more[o] == placed[o]
    ensures CompletedSales(sequence, more, completed, seller) == CompletedSales(sequence, placed, completed, seller)
  {
    if sequence != [] {
      SalesReadTheirOrders(sequence[..|sequence| - 1], placed, more, completed, seller);
    }
  }

  lemma OneMoreSale(
      sequence: seq<Id>, placed: map<Id, Order>, order: Id, more: map<Id, Order>, completed: set<Id>, seller: Id)
    requires order in more && forall o | o in sequence :: o in placed && o in more && more[o] == placed[o]
    ensures CompletedSales(sequence + [order], more, completed, seller).sales
         == CompletedSales(sequence, placed, completed, seller).sales
            + if order in completed && more[order].seller == seller then more[order].total else 0
  {
    SalesReadTheirOrders(sequence, placed, more, completed, seller);
    assert (sequence + [order])[..|sequence|] == sequence;
  }

  lemma StepAsks(w: World, op: Op, completed: set<Id>, seller: Id)
    requires Admissible(w, op) && forall o | o in w.sequence :: o in w.placed
    ensures var next := Advance(w, op);
            && (forall o | o in next.sequence :: o in next.placed)
            && CompletedSales(next.sequence, next.placed, completed, seller).sales
            == CompletedSales(w.sequence, w.placed, completed, seller).sales + AskedIn(w, op, completed, seller)
  {
    if Places(w.db, op) {
      var order := op.call.order;
      PlacedOrderIsNew(w.db, op.call.caller, op.call.lines, order, op.at);
      PlacedOrderIsWorthItsLines(w.db, op.call.caller, op.call.lines, order, op.at);
      OneMoreSale(w.sequence, w.placed, order, Advance(w, op).placed, completed, seller);
    }
  }

  lemma {:induction false} RunAsks(w: World, ops: seq<Op>, completed: set<Id>, seller: Id)
    requires IsRun(w, ops) && forall o | o in w.sequence :: o in w.placed
    ensures var end := After(w, ops);
            && (forall o | o in end.sequence :: o in end.placed)
            && CompletedSales(end.sequence, end.placed, completed, seller).sales
            == CompletedSales(w.sequence, w.placed, completed, seller).sales + Asked(w, ops, completed, seller)
    decreases |ops|
  {
    if ops != [] {
      StepAsks(w, ops[0], completed, seller);
      RunAsks(Advance(w, ops[0]), ops[1..], completed, seller);
    }
  }

  /**
   A seller's lifetime sales are what their customers were asked to pay, line by line and at the prices listed when they
   ordered, for all orders that ever completed, whatever was repriced, deleted or purged since.
   */
  lemma LifetimeSalesAreWhatWasAsked(w: World, ops: seq<Op>, seller: Id)
    requires IsStart(w) && IsRun(w, ops)
    ensures var end := After(w, ops);
            LifetimeMetrics(end.db.ledger, seller).sales == Asked(w, ops, end.completed, seller)
  {
    var end := After(w, ops);
    EveryRunIsBooked(w, ops);
    LifetimeMetricsSurviveDeletion(end, seller);
    RunAsks(w, ops, end.completed, seller);
  }
}
