/** The delivery code, its attempt counter and the order chat, over every run of both services. */
module DeliveryCodes {
  import opened Common
  import opened Frames
  import opened Checkout
  import opened Marketplace
  import opened Runs
  import opened Retention
  import opened Lifecycle
  import opened Fulfilment

  function Failures(attempts: seq<Attempt>): nat {
    if attempts == [] then 0
    else Failures(attempts[..|attempts| - 1]) + (if attempts[|attempts| - 1].success then 0 else 1)
  }

  /**
   A code exists exactly when the driver accepted.  Its counter is the number of failed attempts in
   the audit log, capped at three; it is locked exactly at three, and the order says so too.
   */
  predicate CodeFits(o: Order, code: Option<Code>, attempts: seq<Attempt>) {
    match code
    case None => o.driverAcceptedAt.None? && !o.codeLocked && attempts == []
    case Some(c) =>
      && o.driverAcceptedAt.Some?
      && c.attemptsUsed == (if Failures(attempts) < 3 then Failures(attempts) else 3)
      && c.locked == (c.attemptsUsed == 3)
      && o.codeLocked == c.locked
  }

  function CodeOf(db: Db, order: Id): Option<Code> {
    if order in db.codes then Some(db.codes[order]) else None
  }

  /** The chat has messages only if the driver accepted. */
  predicate ChatFits(o: Order, messages: seq<Message>) {
    messages != [] ==> o.driverAcceptedAt.Some?
  }

  predicate Fits(db: Db, order: Id)
    requires order in db.orders
  {
    && CodeFits(db.orders[order], CodeOf(db, order), AttemptsOn(db.attempts, order))
    && ChatFits(db.orders[order], MessagesOn(db.messages, order))
  }

  predicate Coded(db: Db) {
    && (forall o | o in db.orders :: Fits(db, o))
    && (forall o | o in db.codes :: o in db.orders)
    && (forall o | o in db.attempts :: o in db.orders)
    && (forall o | o in db.messages :: o in db.orders)
  }

  /** The three tables of the flow say the same about one order. */
  predicate SameFlowRows(a: Db, b: Db, order: Id) {
    && CodeOf(a, order) == CodeOf(b, order)
    && AttemptsOn(a.attempts, order) == AttemptsOn(b.attempts, order)
    && MessagesOn(a.messages, order) == MessagesOn(b.messages, order)
  }

  /** No flow row appears for an order that had none. */
  predicate NoNewFlowRows(a: Db, b: Db) {
    && (forall o | o in b.codes :: o in a.codes)
    && (forall o | o in b.attempts :: o in a.attempts)
    && (forall o | o in b.messages :: o in a.messages)
  }

  /** What a later call may do to an accepted order: the code, the driver and the acceptance stand. */
  predicate Stands(a: Db, b: Db, order: Id) {
    order in a.orders && order in b.orders ==>
      && (order in a.codes ==>
            && order in b.codes && b.codes[order].plain == a.codes[order].plain
            && a.codes[order].attemptsUsed <= b.codes[order].attemptsUsed
            && (a.codes[order].locked ==> b.codes[order].locked)
            && b.orders[order].driverAcceptedAt == a.orders[order].driverAcceptedAt
            && DriverStays(a, b, order))
      && AttemptsOn(a.attempts, order) <= AttemptsOn(b.attempts, order)
      && (a.orders[order].deliveredAt.Some? ==>
            && b.orders[order].deliveredAt.Some?
            && |MessagesOn(b.messages, order)| == |MessagesOn(a.messages, order)|)
  }

  predicate DriverStays(a: Db, b: Db, order: Id) {
    forall d | d in a.deliveries && a.deliveries[d].order == order ::
      d in b.deliveries && b.deliveries[d].order == order && b.deliveries[d].driver == a.deliveries[d].driver
  }

  // ---------------------------------------------------------------------------
  // Calls of order_service
  // ---------------------------------------------------------------------------

  predicate SameFlowTables(a: Db, b: Db) {
    b.codes == a.codes && b.attempts == a.attempts && b.messages == a.messages
  }

  lemma TransitionsKeepFlowTables(db: Db, move: Move, caller: User, order: Id, at: Time)
    ensures SameFlowTables(db, ApplyMove(db, move, caller, order, at).db)
  {
    MoveWithin(db, move, caller, order, at);
  }

  lemma TransitionKeepsDrivers(db: Db, move: Move, caller: User, order: Id, at: Time, d: Id)
    requires d in db.deliveries && FreshMove(db, move)
    ensures d in ApplyMove(db, move, caller, order, at).db.deliveries
    ensures var row := ApplyMove(db, move, caller, order, at).db.deliveries[d];
            row.order == db.deliveries[d].order && row.driver == db.deliveries[d].driver
  {
    match move {
      case Send(row) => SendKeepsDrivers(db, caller, order, row, at, d);
      case Deliver => DeliverKeepsDrivers(db, caller, order, at, d);
      case _ => assert ApplyMove(db, move, caller, order, at).db.deliveries == db.deliveries;
    }
  }

  lemma SendKeepsDrivers(db: Db, caller: User, order: Id, row: Id, at: Time, d: Id)
    requires d in db.deliveries && row !in db.deliveries
    ensures var after := SendOut(db, caller, order, row, at).db.deliveries;
            d in after && after[d].order == db.deliveries[d].order && after[d].driver == db.deliveries[d].driver
  {
    var step := SendOut(db, caller, order, row, at);
    if step.outcome.Done? {
      var sent := SentDelivery(db, caller, order, row, at);
    }
  }

  /** The one delivery row a departure writes. */
  lemma SentDelivery(db: Db, caller: User, order: Id, row: Id, at: Time) returns (sent: Id)
    requires SendOut(db, caller, order, row, at).outcome.Done?
    ensures var after := SendOut(db, caller, order, row, at).db.deliveries;
            && sent in after && after == db.deliveries[sent := after[sent]]
            && (sent == row || (sent in db.deliveries && after[sent].order == db.deliveries[sent].order
                                && after[sent].driver == db.deliveries[sent].driver))
  {
    var after := SendOut(db, caller, order, row, at).db.deliveries;
    var found := ScalarOneOrNone(DeliveriesOf(db.deliveries, order));
    if found.OneRow? {
      sent := found.id;
      assert sent in DeliveriesOf(db.deliveries, order);
      assert after[sent] == db.deliveries[sent].(status := InTransit, startedAt := Some(at));
    } else {
      sent := row;
    }
  }

  lemma DeliverKeepsDrivers(db: Db, caller: User, order: Id, at: Time, d: Id)
    requires d in db.deliveries
    ensures var after := MarkDelivered(db, caller, order, at).db.deliveries;
            d in after && after[d].order == db.deliveries[d].order && after[d].driver == db.deliveries[d].driver
  {
    var step := MarkDelivered(db, caller, order, at);
    if step.outcome.Done? {
      var rows := DeliveriesOf(db.deliveries, order);
      var found := ScalarOneOrNone(rows).id;
      assert found in rows;
      assert step.db.deliveries == db.deliveries[found := step.db.deliveries[found]];
      assert step.db.deliveries[found] == db.deliveries[found].(
        status := Arrived, deliveredAt := Some(at), durationSeconds := Duration(db.deliveries[found], at));
    }
  }

  lemma ChoicesKeepFlowTables(db: Db, choice: Choice, caller: User, order: Id, at: Time)
    ensures var after := ApplyChoice(db, choice, caller, order, at).db;
            after.codes == db.codes && after.attempts == db.attempts && after.messages == db.messages
  {
  }

  lemma ChoiceKeepsDrivers(db: Db, choice: Choice, caller: User, order: Id, at: Time, d: Id)
    requires d in db.deliveries && FreshChoice(db, choice)
    ensures d in ApplyChoice(db, choice, caller, order, at).db.deliveries
    ensures ApplyChoice(db, choice, caller, order, at).db.deliveries[d] == db.deliveries[d]
  {
  }

  lemma DeleteErases(db: Db, caller: User, order: Id, at: Time)
    requires DeleteRefusal(db, caller, order, at).None?
    ensures ErasedOrSame(db, DeleteOrder(db, caller, order, at).db, {order})
  {
    var start := WithSettings(db);
    assert start == db.(settings := start.settings);
    var after := Remove(start, order, at);
    RemoveTables(start, order, at);
    assert DeleteOrder(db, caller, order, at).db == after;
    EraseErases(db, start, after, {order});
  }

  lemma EraseErases(db: Db, start: Db, after: Db, gone: set<Id>)
    requires start.deliveries == db.deliveries && start.codes == db.codes && start.attempts == db.attempts
    requires start.messages == db.messages && start.orders.Keys == db.orders.Keys
    requires after == Erase(start, gone).(ledger := after.ledger)
    ensures ErasedOrSame(db, after, gone)
  {
    assert forall o | o in start.orders :: o in db.orders;
    assert forall o | o in db.orders :: o in start.orders;
  }

  /** The order rows, deliveries and flow rows of the erased orders are gone; the others are untouched. */
  predicate ErasedOrSame(a: Db, b: Db, gone: set<Id>) {
    && b.deliveries == Erase(a, gone).deliveries
    && b.codes == a.codes - gone && b.attempts == a.attempts - gone && b.messages == a.messages - gone
    && (forall o | o in b.orders :: o in a.orders && o !in gone)
    && (forall o | o in a.orders && o !in gone :: o in b.orders)
  }

  lemma PurgeErases(db: Db, due: seq<Id>, expired: seq<Id>, at: Time)
    requires SettingsOk(db.settings) && PurgeRows(db, due, expired, at)
    ensures ErasedOrSame(db, RunPurge(db, due, expired, at).db, Elements(expired))
  {
    var start := WithSettings(db);
    PurgedRowsAreOrders(db, due, expired, at);
    PurgeErasesAfter(db, start, due, expired, at);
    assert RunPurge(db, due, expired, at).db == RemoveAll(CompleteAll(start, due, at), expired, at);
  }

  lemma PurgedRowsAreOrders(db: Db, due: seq<Id>, expired: seq<Id>, at: Time)
    requires SettingsOk(db.settings) && PurgeRows(db, due, expired, at)
    ensures var start := WithSettings(db);
            && start == db.(settings := start.settings)
            && Distinct(due) && (forall o | o in due :: o in start.orders && start.orders[o].status == Delivered)
            && Distinct(expired) && (forall o | o in expired :: o in start.orders)
  {
    var start := WithSettings(db);
    forall o | o in due
      ensures o in start.orders && start.orders[o].status == Delivered
    {
      assert o in DueForCompletion(start, at);
    }
    PurgeOrders(db, due, expired, at);
  }

  lemma PurgeErasesAfter(db: Db, start: Db, due: seq<Id>, expired: seq<Id>, at: Time)
    requires start == db.(settings := start.settings)
    requires Distinct(due) && forall o | o in due :: o in start.orders && start.orders[o].status == Delivered
    requires Distinct(expired) && forall o | o in expired :: o in start.orders
    ensures ErasedOrSame(db, RemoveAll(CompleteAll(start, due, at), expired, at), Elements(expired))
  {
    var mid := CompleteAll(start, due, at);
    CompleteAllTables(start, due, at);
    assert mid == start.(orders := mid.orders, ledger := mid.ledger);
    RemoveAllTables(mid, expired, at);
    EraseErases(db, mid, RemoveAll(mid, expired, at), Elements(expired));
  }

  lemma ErasingKeepsRows(a: Db, b: Db, gone: set<Id>, order: Id)
    requires ErasedOrSame(a, b, gone) && order !in gone
    ensures SameFlowRows(a, b, order) && NoNewFlowRows(a, b) && DriverStays(a, b, order)
  {
  }

  /** Any call of order_service leaves the flow rows of a surviving order alone, and every delivery's driver. */
  lemma OrderServiceKeepsFlow(db: Db, op: Op, order: Id)
    requires !op.call.DriverFlow? && PurgeIsSound(db, op)
    requires op.call.Transition? ==> FreshMove(db, op.call.move)
    requires op.call.Fulfil? ==> FreshChoice(db, op.call.choice)
    requires order in Apply(db, op).db.orders
    ensures var after := Apply(db, op).db; SameFlowRows(db, after, order) && DriverStays(db, after, order)
  {
    match op.call {
      case Place(lines, customer, target) => PlaceKeepsFlow(db, lines, customer, target, op.at, order);
      case Transition(move, caller, target) =>
        TransitionsKeepFlowTables(db, move, caller, target, op.at);
        forall d | d in db.deliveries { TransitionKeepsDrivers(db, move, caller, target, op.at, d); }
      case Fulfil(choice, caller, target) =>
        ChoicesKeepFlowTables(db, choice, caller, target, op.at);
        forall d | d in db.deliveries { ChoiceKeepsDrivers(db, choice, caller, target, op.at, d); }
      case Delete(caller, target) => DeleteKeepsFlow(db, caller, target, op.at, order);
      case Purge(due, expired) => PurgeKeepsFlow(db, due, expired, op.at, order);
      case Configure(days, hours) => ConfigureKeepsFlow(db, days, hours, order);
      case Tend(catalogue, sellers, drivers) => SameTablesKeepFlow(db, Tended(db, catalogue, sellers, drivers), order);
    }
  }

  lemma PlaceKeepsFlow(db: Db, lines: seq<Line>, customer: User, target: Id, at: Time, order: Id)
    ensures var after := CreateOrder(db, customer, lines, target, at).db;
            SameFlowRows(db, after, order) && DriverStays(db, after, order) && NoNewFlowRows(db, after)
  {
    var after := CreateOrder(db, customer, lines, target, at).db;
    assert after.codes == db.codes && after.attempts == db.attempts && after.messages == db.messages;
    assert after.deliveries == db.deliveries;
    SameTablesKeepFlow(db, after, order);
  }

  lemma ConfigureKeepsFlow(db: Db, days: Option<int>, hours: Option<int>, order: Id)
    ensures var after := UpdateSettings(db, days, hours).db;
            SameFlowRows(db, after, order) && DriverStays(db, after, order) && NoNewFlowRows(db, after)
  {
    var after := UpdateSettings(db, days, hours).db;
    OtherSettings(db, days, hours);
    SameTablesKeepFlow(db, after, order);
  }

  lemma OtherSettings(db: Db, days: Option<int>, hours: Option<int>)
    ensures UpdateSettings(db, days, hours).db == db.(settings := UpdateSettings(db, days, hours).db.settings)
  {
  }

  lemma SameTablesKeepFlow(a: Db, b: Db, order: Id)
    requires b.codes == a.codes && b.attempts == a.attempts && b.messages == a.messages && b.deliveries == a.deliveries
    ensures SameFlowRows(a, b, order) && DriverStays(a, b, order) && NoNewFlowRows(a, b)
  {
  }

  lemma DeleteKeepsFlow(db: Db, caller: User, target: Id, at: Time, order: Id)
    requires order in DeleteOrder(db, caller, target, at).db.orders
    ensures var after := DeleteOrder(db, caller, target, at).db;
            SameFlowRows(db, after, order) && DriverStays(db, after, order) && NoNewFlowRows(db, after)
  {
    var after := DeleteOrder(db, caller, target, at).db;
    if DeleteRefusal(db, caller, target, at).None? {
      DeleteErases(db, caller, target, at);
      ErasingKeepsRows(db, after, {target}, order);
    } else {
      SameTablesKeepFlow(db, after, order);
    }
  }

  lemma PurgeKeepsFlow(db: Db, due: seq<Id>, expired: seq<Id>, at: Time, order: Id)
    requires SettingsOk(db.settings) && PurgeRows(db, due, expired, at)
    requires order in RunPurge(db, due, expired, at).db.orders
    ensures var after := RunPurge(db, due, expired, at).db;
            SameFlowRows(db, after, order) && DriverStays(db, after, order) && NoNewFlowRows(db, after)
  {
    PurgeErases(db, due, expired, at);
    ErasingKeepsRows(db, RunPurge(db, due, expired, at).db, Elements(expired), order);
  }

  // ---------------------------------------------------------------------------
  // Calls of the flow
  // ---------------------------------------------------------------------------

  /** Once accepted, a second acceptance changes nothing at all. */
  lemma SecondAcceptanceChangesNothing(db: Db, driver: User, order: Id, row: Id, plain: string, at: Time)
    requires Coded(db) && order in db.orders && db.orders[order].driverAcceptedAt.Some?
    ensures FlowAccept(db, driver, order, row, plain, at).db == db
  {
    assert Fits(db, order);
  }

  /** The tables after the first acceptance of an order. */
  predicate FirstAccepted(a: Db, b: Db, target: Id, plain: string, at: Time) {
    && target in a.orders && target !in a.codes
    && b.orders == a.orders[target := a.orders[target].(driverAcceptedAt := Some(at))]
    && b.codes == a.codes[target := Code(plain, 0, false, None)]
    && b.attempts == a.attempts && b.messages == a.messages
  }

  lemma AcceptanceTables(db: Db, driver: User, target: Id, row: Id, plain: string, at: Time)
    ensures var step := FlowAccept(db, driver, target, row, plain, at);
            step.db == db || FirstAccepted(db, step.db, target, plain, at)
  {
  }

  lemma FirstAcceptanceFits(a: Db, b: Db, target: Id, plain: string, at: Time, order: Id)
    requires FirstAccepted(a, b, target, plain, at) && order in a.orders && Fits(a, order)
    requires order != target ==> DriverStays(a, b, order)
    ensures order in b.orders && Fits(b, order) && Stands(a, b, order)
  {
  }

  lemma NothingChangedStands(db: Db, order: Id)
    ensures Stands(db, db, order)
  {
  }

  lemma AcceptanceKeepsCodes(db: Db, driver: User, target: Id, row: Id, plain: string, at: Time, order: Id)
    requires Coded(db) && row !in db.deliveries && order in db.orders
    ensures var after := FlowAccept(db, driver, target, row, plain, at).db;
            order in after.orders && Fits(after, order) && Stands(db, after, order)
  {
    var after := FlowAccept(db, driver, target, row, plain, at).db;
    assert Fits(db, order);
    AcceptanceTables(db, driver, target, row, plain, at);
    if after == db {
      NothingChangedStands(db, order);
    } else {
      if order != target { AcceptanceLeavesOtherDrivers(db, driver, target, row, plain, at, order); }
      FirstAcceptanceFits(db, after, target, plain, at, order);
    }
  }

  lemma AcceptanceLeavesOtherDrivers(db: Db, driver: User, target: Id, row: Id, plain: string, at: Time, order: Id)
    requires row !in db.deliveries && order != target
    ensures DriverStays(db, FlowAccept(db, driver, target, row, plain, at).db, order)
  {
    var rows := DeliveriesOf(db.deliveries, target);
    var found := ScalarOneOrNone(rows);
    assert found.OneRow? ==> found.id in rows;
  }

  lemma FailuresGrow(attempts: seq<Attempt>, attempt: Attempt)
    ensures Failures(attempts + [attempt]) == Failures(attempts) + (if attempt.success then 0 else 1)
  {
    assert (attempts + [attempt])[..|attempts|] == attempts;
  }

  /** The tables after a submission for an order with a code. */
  predicate Submitted(a: Db, b: Db, target: Id, attempt: Attempt, at: Time)
    requires target in a.orders && target in a.codes
  {
    var logged := a.(attempts := Logged(a.attempts, target, attempt));
    if a.codes[target].locked then !attempt.success && b == logged
    else if attempt.success then b == RightCode(logged, target, at)
    else b == WrongCode(logged, target)
  }

  lemma SubmissionTables(db: Db, driver: User, target: Id, submitted: string, at: Time) returns (attempt: Attempt)
    ensures var step := FlowComplete(db, driver, target, submitted, at);
            step.db == db || (target in db.orders && target in db.codes && Submitted(db, step.db, target, attempt, at))
  {
    attempt := Attempt(driver.id, submitted,
                       target in db.codes && !db.codes[target].locked && submitted == db.codes[target].plain);
  }

  lemma SubmissionFits(a: Db, b: Db, target: Id, attempt: Attempt, at: Time)
    requires target in a.orders && target in a.codes && Submitted(a, b, target, attempt, at) && Fits(a, target)
    ensures target in b.orders && Fits(b, target) && Stands(a, b, target)
  {
    FailuresGrow(AttemptsOn(a.attempts, target), attempt);
    var o, code := a.orders[target], a.codes[target];
    assert b.deliveries == a.deliveries;
    assert AttemptsOn(b.attempts, target) == AttemptsOn(a.attempts, target) + [attempt];
    if code.locked {
      assert b.orders == a.orders && b.codes == a.codes && b.messages == a.messages;
    } else if attempt.success {
      assert b.codes[target] == code.(consumedAt := Some(at));
      assert b.orders[target] == o.(status := Delivered, deliveredAt := Some(at));
      assert MessagesOn(b.messages, target) == Archived(MessagesOn(a.messages, target), at);
    } else {
      var used := code.attemptsUsed + 1;
      assert b.codes[target] == code.(attemptsUsed := used, locked := used >= 3);
      assert b.orders[target] == o.(codeLocked := used >= 3);
      assert b.messages == a.messages;
    }
  }

  lemma SubmissionElsewhere(a: Db, b: Db, target: Id, attempt: Attempt, at: Time, order: Id)
    requires target in a.orders && target in a.codes && Submitted(a, b, target, attempt, at)
    requires order in a.orders && order != target && Fits(a, order)
    ensures order in b.orders && Fits(b, order) && Stands(a, b, order)
  {
    assert b.deliveries == a.deliveries;
    assert AttemptsOn(b.attempts, order) == AttemptsOn(a.attempts, order);
    if a.codes[target].locked {
      assert b.orders == a.orders && b.codes == a.codes && b.messages == a.messages;
    } else if attempt.success {
      assert b.codes == a.codes[target := b.codes[target]] && b.orders == a.orders[target := b.orders[target]];
      assert b.messages == a.messages[target := b.messages[target]];
    } else {
      assert b.codes == a.codes[target := b.codes[target]] && b.orders == a.orders[target := b.orders[target]];
      assert b.messages == a.messages;
    }
  }

  lemma SubmissionKeeps(db: Db, driver: User, target: Id, submitted: string, at: Time, order: Id)
    requires Coded(db) && order in db.orders
    ensures var after := FlowComplete(db, driver, target, submitted, at).db;
            order in after.orders && Fits(after, order) && Stands(db, after, order)
  {
    var after := FlowComplete(db, driver, target, submitted, at).db;
    assert Fits(db, order);
    var attempt := SubmissionTables(db, driver, target, submitted, at);
    if after == db {
      NothingChangedStands(db, order);
    } else if order == target {
      SubmissionFits(db, after, target, attempt, at);
    } else {
      SubmissionElsewhere(db, after, target, attempt, at, order);
    }
  }

  /** A successful submission archives every message of the order. */
  lemma CompletionArchivesTheChat(db: Db, driver: User, order: Id, submitted: string, at: Time)
    requires FlowComplete(db, driver, order, submitted, at).outcome.Done?
    ensures var before := MessagesOn(db.messages, order);
            var after := MessagesOn(FlowComplete(db, driver, order, submitted, at).db.messages, order);
            && |after| == |before|
            && forall i | 0 <= i < |before| ::
                 after[i].archivedAt == (if before[i].archivedAt.Some? then before[i].archivedAt else Some(at))
  {
  }

  /** The tables after a posted message. */
  predicate Posted(a: Db, b: Db, target: Id, message: Message) {
    && target in a.orders && a.orders[target].driverAcceptedAt.Some? && a.orders[target].deliveredAt.None?
    && b == a.(messages := a.messages[target := MessagesOn(a.messages, target) + [message]])
  }

  lemma ChatTables(db: Db, sender: User, target: Id) returns (message: Message)
    ensures var step := PostMessage(db, sender, target); step.db == db || Posted(db, step.db, target, message)
  {
    var role := if target in db.orders && sender.id == db.orders[target].customer then Customer else Driver;
    message := Message(sender.id, role, None);
  }

  lemma PostingFits(a: Db, b: Db, target: Id, message: Message, order: Id)
    requires Posted(a, b, target, message) && order in a.orders && Fits(a, order)
    ensures order in b.orders && Fits(b, order) && Stands(a, b, order)
  {
  }

  lemma ChatKeeps(db: Db, sender: User, target: Id, order: Id)
    requires Coded(db) && order in db.orders
    ensures var after := PostMessage(db, sender, target).db;
            order in after.orders && Fits(after, order) && Stands(db, after, order)
  {
    assert Fits(db, order);
    var message := ChatTables(db, sender, target);
    if PostMessage(db, sender, target).db == db {
      NothingChangedStands(db, order);
    } else {
      PostingFits(db, PostMessage(db, sender, target).db, target, message, order);
    }
  }

  /** A message is only ever added between the acceptance and the first delivery. */
  lemma MessagesNeedAnOpenChat(db: Db, op: Op, order: Id)
    requires PurgeIsSound(db, op)
    requires op.call.Transition? ==> FreshMove(db, op.call.move)
    requires op.call.Fulfil? ==> FreshChoice(db, op.call.choice)
    requires order in Apply(db, op).db.orders
    requires |MessagesOn(Apply(db, op).db.messages, order)| > |MessagesOn(db.messages, order)|
    ensures order in db.orders && db.orders[order].driverAcceptedAt.Some? && db.orders[order].deliveredAt.None?
    ensures op.call.DriverFlow? && op.call.flow.Chat? && op.call.order == order
  {
    if op.call.DriverFlow? {
      FlowMessages(db, op.call.flow, op.call.caller, op.call.order, op.at, order);
    } else {
      OrderServiceKeepsFlow(db, op, order);
    }
  }

  lemma FlowMessages(db: Db, flow: Flow, caller: User, target: Id, at: Time, order: Id)
    requires |MessagesOn(ApplyFlow(db, flow, caller, target, at).db.messages, order)| > |MessagesOn(db.messages, order)|
    ensures flow.Chat? && target == order
    ensures order in db.orders && db.orders[order].driverAcceptedAt.Some? && db.orders[order].deliveredAt.None?
  {
    match flow {
      case DriverAccept(row, plain) => AcceptanceTables(db, caller, target, row, plain, at);
      case SubmitCode(submitted) => var attempt := SubmissionTables(db, caller, target, submitted, at);
      case Chat => var message := ChatTables(db, caller, target);
    }
  }

  // ---------------------------------------------------------------------------
  // Steps and runs
  // ---------------------------------------------------------------------------

  /** Every flow row belongs to an order in the table. */
  predicate Owned(db: Db) {
    && (forall o | o in db.codes :: o in db.orders)
    && (forall o | o in db.attempts :: o in db.orders)
    && (forall o | o in db.messages :: o in db.orders)
  }

  lemma ErasingKeepsOwners(a: Db, b: Db, gone: set<Id>)
    requires Owned(a) && ErasedOrSame(a, b, gone)
    ensures Owned(b)
  {
  }

  lemma GrowingKeepsOwners(a: Db, b: Db)
    requires Owned(a) && NoNewFlowRows(a, b) && forall o | o in a.orders :: o in b.orders
    ensures Owned(b)
  {
  }

  lemma FlowKeepsOwners(db: Db, flow: Flow, caller: User, target: Id, at: Time)
    requires Owned(db)
    ensures Owned(ApplyFlow(db, flow, caller, target, at).db)
  {
    match flow {
      case DriverAccept(row, plain) =>
        AcceptanceTables(db, caller, target, row, plain, at);
        var after := FlowAccept(db, caller, target, row, plain, at).db;
        if after != db { FirstAcceptanceKeepsOwners(db, after, target, plain, at); }
      case SubmitCode(submitted) =>
        var attempt := SubmissionTables(db, caller, target, submitted, at);
        var after := FlowComplete(db, caller, target, submitted, at).db;
        if after != db { SubmissionKeepsOwners(db, after, target, attempt, at); }
      case Chat =>
        var message := ChatTables(db, caller, target);
        var after := PostMessage(db, caller, target).db;
        if after != db { PostingKeepsOwners(db, after, target, message); }
    }
  }

  lemma FirstAcceptanceKeepsOwners(a: Db, b: Db, target: Id, plain: string, at: Time)
    requires Owned(a) && FirstAccepted(a, b, target, plain, at)
    ensures Owned(b)
  {
  }

  lemma SubmissionKeepsOwners(a: Db, b: Db, target: Id, attempt: Attempt, at: Time)
    requires Owned(a) && target in a.orders && target in a.codes && Submitted(a, b, target, attempt, at)
    ensures Owned(b)
  {
  }

  lemma PostingKeepsOwners(a: Db, b: Db, target: Id, message: Message)
    requires Owned(a) && Posted(a, b, target, message)
    ensures Owned(b)
  {
  }

  lemma DeleteKeepsOwners(db: Db, caller: User, target: Id, at: Time)
    requires Owned(db)
    ensures Owned(DeleteOrder(db, caller, target, at).db)
  {
    if DeleteRefusal(db, caller, target, at).None? {
      DeleteErases(db, caller, target, at);
      ErasingKeepsOwners(db, DeleteOrder(db, caller, target, at).db, {target});
    }
  }

  lemma PurgeKeepsOwners(db: Db, due: seq<Id>, expired: seq<Id>, at: Time)
    requires Owned(db) && SettingsOk(db.settings) && PurgeRows(db, due, expired, at)
    ensures Owned(RunPurge(db, due, expired, at).db)
  {
    PurgeErases(db, due, expired, at);
    ErasingKeepsOwners(db, RunPurge(db, due, expired, at).db, Elements(expired));
  }

  lemma PlaceKeepsOwners(db: Db, lines: seq<Line>, customer: User, target: Id, at: Time)
    requires Owned(db)
    ensures Owned(CreateOrder(db, customer, lines, target, at).db)
  {
    PlaceKeepsFlow(db, lines, customer, target, at, target);
    if CreateOrder(db, customer, lines, target, at).outcome.Done? { PlacedOrder(db, lines, customer, target, at); }
    GrowingKeepsOwners(db, CreateOrder(db, customer, lines, target, at).db);
  }

  lemma TransitionKeepsOwners(db: Db, move: Move, caller: User, target: Id, at: Time)
    requires Owned(db)
    ensures Owned(ApplyMove(db, move, caller, target, at).db)
  {
    MoveWithin(db, move, caller, target, at);
    GrowingKeepsOwners(db, ApplyMove(db, move, caller, target, at).db);
  }

  lemma ChoiceKeepsOwners(db: Db, choice: Choice, caller: User, target: Id, at: Time)
    requires Owned(db)
    ensures Owned(ApplyChoice(db, choice, caller, target, at).db)
  {
    ChoicesKeepFlowTables(db, choice, caller, target, at);
    ChoicesKeepOrders(db, choice, caller, target, at);
    GrowingKeepsOwners(db, ApplyChoice(db, choice, caller, target, at).db);
  }

  lemma ConfigureKeepsOwners(db: Db, days: Option<int>, hours: Option<int>)
    requires Owned(db)
    ensures Owned(UpdateSettings(db, days, hours).db)
  {
    OtherSettings(db, days, hours);
  }

  lemma StepKeepsOwners(db: Db, op: Op)
    requires Owned(db) && PurgeIsSound(db, op)
    ensures Owned(Apply(db, op).db)
  {
    match op.call {
      case Place(lines, customer, target) => PlaceKeepsOwners(db, lines, customer, target, op.at);
      case Transition(move, caller, target) => TransitionKeepsOwners(db, move, caller, target, op.at);
      case Fulfil(choice, caller, target) => ChoiceKeepsOwners(db, choice, caller, target, op.at);
      case Delete(caller, target) => DeleteKeepsOwners(db, caller, target, op.at);
      case Purge(due, expired) => PurgeKeepsOwners(db, due, expired, op.at);
      case Configure(days, hours) => ConfigureKeepsOwners(db, days, hours);
      case DriverFlow(flow, caller, target) => FlowKeepsOwners(db, flow, caller, target, op.at);
      case Tend(catalogue, sellers, drivers) => GrowingKeepsOwners(db, Tended(db, catalogue, sellers, drivers));
    }
  }

  lemma OrderServiceKeepsFits(a: Db, b: Db, order: Id, at: Time)
    requires order in a.orders && order in b.orders && Fits(a, order)
    requires SameFlowRows(a, b, order) && DriverStays(a, b, order) && Moves(a.orders[order], b.orders[order], at)
    ensures Fits(b, order) && Stands(a, b, order)
  {
    assert b.orders[order].driverAcceptedAt == a.orders[order].driverAcceptedAt;
    assert b.orders[order].codeLocked == a.orders[order].codeLocked;
  }

  lemma FlowKeepsFits(db: Db, flow: Flow, caller: User, target: Id, at: Time, order: Id)
    requires Coded(db) && FreshFlow(db, flow) && order in db.orders
    ensures var after := ApplyFlow(db, flow, caller, target, at).db;
            order in after.orders && Fits(after, order) && Stands(db, after, order)
  {
    match flow {
      case DriverAccept(row, plain) => AcceptanceKeepsCodes(db, caller, target, row, plain, at, order);
      case SubmitCode(submitted) => SubmissionKeeps(db, caller, target, submitted, at, order);
      case Chat => ChatKeeps(db, caller, target, order);
    }
  }

  lemma OldOrderKeepsFits(w: World, op: Op, order: Id)
    requires Coded(w.db) && SettingsOk(w.db.settings) && Known(w) && Admissible(w, op)
    requires order in w.db.orders && order in Apply(w.db, op).db.orders
    ensures Fits(Apply(w.db, op).db, order) && Stands(w.db, Apply(w.db, op).db, order)
  {
    if op.call.DriverFlow? {
      FlowKeepsFits(w.db, op.call.flow, op.call.caller, op.call.order, op.at, order);
    } else {
      assert Fits(w.db, order);
      OrderServiceKeepsFlow(w.db, op, order);
      OrderMoves(w.db, op, order);
      OrderServiceKeepsFits(w.db, Apply(w.db, op).db, order, op.at);
    }
  }

  lemma NewOrderFits(w: World, op: Op)
    requires Coded(w.db) && Known(w) && Admissible(w, op) && Places(w.db, op)
    ensures op.call.order in Apply(w.db, op).db.orders && Fits(Apply(w.db, op).db, op.call.order)
  {
    PlacedOrder(w.db, op.call.lines, op.call.caller, op.call.order, op.at);
    PlaceKeepsFlow(w.db, op.call.lines, op.call.caller, op.call.order, op.at, op.call.order);
  }

  lemma StepKeepsCodes(w: World, op: Op)
    requires Coded(w.db) && SettingsOk(w.db.settings) && Known(w) && Admissible(w, op)
    ensures Coded(Apply(w.db, op).db)
    ensures forall o | o in w.db.orders :: Stands(w.db, Apply(w.db, op).db, o)
  {
    assert Owned(w.db);
    StepKeepsOwners(w.db, op);
    var after := Apply(w.db, op).db;
    forall o | o in after.orders
      ensures Fits(after, o) && (o in w.db.orders ==> Stands(w.db, after, o))
    {
      if o in w.db.orders {
        OldOrderKeepsFits(w, op, o);
      } else if Places(w.db, op) && op.call.order == o {
        NewOrderFits(w, op);
      } else {
        OtherStepsAddNoOrder(w.db, op, o);
      }
    }
  }

  lemma StandsTransitively(a: Db, b: Db, c: Db, order: Id)
    requires Stands(a, b, order) && Stands(b, c, order) && order in b.orders
    ensures Stands(a, c, order)
  {
  }

  /**
   Over every run of both services: a code exists exactly for the accepted orders and its counter and
   lock are those of the audit log; and of every order the run leaves in the table, the first
   acceptance's code, time and driver stand, and a delivered order's chat gets no further message.
   */
  lemma {:induction false} RunKeepsCodes(w: World, ops: seq<Op>)
    requires Coded(w.db) && SettingsOk(w.db.settings) && Known(w) && IsRun(w, ops)
    ensures Coded(After(w, ops).db)
    ensures forall o | o in w.placed && o in After(w, ops).db.orders ::
              o in w.db.orders && Stands(w.db, After(w, ops).db, o)
    decreases |ops|
  {
    if ops == [] {
      forall o | o in w.placed { NothingChangedStands(w.db, o); }
    } else {
      var next := Advance(w, ops[0]);
      StepKeepsCodes(w, ops[0]);
      StepKeepsSettings(w.db, ops[0]);
      StepKeepsKnown(w, ops[0]);
      RunKeepsCodes(next, ops[1..]);
      var end := After(w, ops);
      forall o | o in w.placed && o in end.db.orders
        ensures o in w.db.orders && Stands(w.db, end.db, o)
      {
        assert o in next.placed && o in next.db.orders;
        OldRowsAreOld(w, ops[0], o);
        StandsTransitively(w.db, next.db, end.db, o);
      }
    }
  }

  lemma OldRowsAreOld(w: World, op: Op, order: Id)
    requires SettingsOk(w.db.settings) && Known(w) && Admissible(w, op)
    requires order in w.placed && order in Apply(w.db, op).db.orders
    ensures order in w.db.orders
  {
    if order !in w.db.orders {
      OtherStepsAddNoOrder(w.db, op, order);
    }
  }

  lemma EveryRunKeepsCodes(w: World, ops: seq<Op>)
    requires IsStart(w) && IsRun(w, ops)
    ensures Coded(After(w, ops).db)
  {
    RunKeepsCodes(w, ops);
  }
}
