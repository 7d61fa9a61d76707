/** Which tables each group of calls leaves alone. */
module Frames {
  import opened Common
  import opened Marketplace
  import opened Runs

  predicate SameKeys(before: map<Id, Order>, after: map<Id, Order>) {
    (forall o | o in before :: o in after) && (forall o | o in after :: o in before)
  }

  /** A transition writes the order, its delivery, its assignments and the ledger. */
  predicate WithinMove(before: Db, after: Db) {
    && SameKeys(before.orders, after.orders)
    && after == before.(orders := after.orders, deliveries := after.deliveries, assignments := after.assignments,
                        ledger := after.ledger)
  }

  /** The delivery flow writes the order, its delivery and the rows of the flow. */
  predicate WithinFlow(before: Db, after: Db) {
    && SameKeys(before.orders, after.orders)
    && after == before.(orders := after.orders, deliveries := after.deliveries, codes := after.codes,
                        attempts := after.attempts, messages := after.messages)
  }

  lemma AcceptWithin(db: Db, caller: User, order: Id, at: Time)
    ensures WithinMove(db, AcceptOrder(db, caller, order, at).db) && AcceptOrder(db, caller, order, at).db.ledger == db.ledger
  {
  }

  lemma PrepareWithin(db: Db, caller: User, order: Id, at: Time)
    ensures WithinMove(db, MarkPreparing(db, caller, order, at).db) && MarkPreparing(db, caller, order, at).db.ledger == db.ledger
  {
  }

  lemma SendWithin(db: Db, caller: User, order: Id, row: Id, at: Time)
    ensures WithinMove(db, SendOut(db, caller, order, row, at).db) && SendOut(db, caller, order, row, at).db.ledger == db.ledger
  {
    var step := SendOut(db, caller, order, row, at);
    if step.outcome.Failed? {
      assert step.db == db;
    } else {
      assert step.db == db.(orders := db.orders[order := Departed(db.orders[order], at)], deliveries := step.db.deliveries);
    }
  }

  lemma DeliverWithin(db: Db, caller: User, order: Id, at: Time)
    ensures WithinMove(db, MarkDelivered(db, caller, order, at).db) && MarkDelivered(db, caller, order, at).db.ledger == db.ledger
  {
    var step := MarkDelivered(db, caller, order, at);
    if step.outcome.Failed? {
      assert step.db == db;
    } else {
      var o := db.orders[order].(status := Delivered, deliveredAt := Some(at));
      assert step.db == db.(orders := db.orders[order := o], deliveries := step.db.deliveries);
    }
  }

  lemma ConfirmWithin(db: Db, caller: User, order: Id, at: Time)
    ensures WithinMove(db, CompleteOrder(db, caller, order, at).db)
  {
  }

  lemma CancelWithin(db: Db, caller: User, order: Id, at: Time)
    ensures WithinMove(db, CancelOrder(db, caller, order, at).db) && CancelOrder(db, caller, order, at).db.ledger == db.ledger
  {
  }

  lemma MoveWithin(db: Db, move: Move, caller: User, order: Id, at: Time)
    ensures WithinMove(db, ApplyMove(db, move, caller, order, at).db)
    ensures !move.Confirm? ==> ApplyMove(db, move, caller, order, at).db.ledger == db.ledger
  {
    match move {
      case Accept => AcceptWithin(db, caller, order, at);
      case Prepare => PrepareWithin(db, caller, order, at);
      case Send(row) => SendWithin(db, caller, order, row, at);
      case Deliver => DeliverWithin(db, caller, order, at);
      case Confirm => ConfirmWithin(db, caller, order, at);
      case Cancel => CancelWithin(db, caller, order, at);
    }
  }

  lemma AcceptanceWithin(db: Db, driver: User, order: Id, row: Id, plain: string, at: Time)
    ensures WithinFlow(db, FlowAccept(db, driver, order, row, plain, at).db)
  {
  }

  lemma WrongCodeWithin(db: Db, order: Id)
    requires order in db.orders && order in db.codes
    ensures WithinFlow(db, WrongCode(db, order))
  {
  }

  lemma RightCodeWithin(db: Db, order: Id, at: Time)
    requires order in db.orders && order in db.codes
    ensures WithinFlow(db, RightCode(db, order, at))
  {
  }

  lemma SubmissionWithin(db: Db, driver: User, order: Id, submitted: string, at: Time)
    ensures WithinFlow(db, FlowComplete(db, driver, order, submitted, at).db)
  {
    if driver.role == Driver && !Missing(db, order) && order in db.codes {
      var right := !db.codes[order].locked && submitted == db.codes[order].plain;
      var logged := db.(attempts := Logged(db.attempts, order, Attempt(driver.id, submitted, right)));
      WrongCodeWithin(logged, order);
      RightCodeWithin(logged, order, at);
    }
  }

  lemma PostWithin(db: Db, sender: User, order: Id)
    ensures WithinFlow(db, PostMessage(db, sender, order).db)
  {
    var step := PostMessage(db, sender, order);
    if step.outcome.Failed? {
      assert step.db == db;
    } else {
      assert step.db == db.(messages := step.db.messages);
    }
  }

  lemma FlowWithin(db: Db, flow: Flow, caller: User, order: Id, at: Time)
    ensures WithinFlow(db, ApplyFlow(db, flow, caller, order, at).db)
  {
    match flow {
      case DriverAccept(row, plain) => AcceptanceWithin(db, caller, order, row, plain, at);
      case SubmitCode(submitted) => SubmissionWithin(db, caller, order, submitted, at);
      case Chat => PostWithin(db, caller, order);
    }
  }
}
