/** The append-only analytics ledger against the history of completed orders, over every run of every call. */
module Ledger {
  import opened Common
  import opened Frames
  import opened Checkout
  import opened Marketplace
  import opened Runs
  import opened Retention
  import opened Lifecycle

  /** The snapshot copies the order's sale. */
  predicate Records(row: Snapshot, o: Order) {
    && row.seller == o.seller && row.store == o.store && row.customer == o.customer
    && row.subtotal == o.subtotal && row.total == o.total && row.itemCount == ItemCount(o.items)
  }

  predicate SameSale(a: Order, b: Order) {
    && a.customer == b.customer && a.seller == b.seller && a.store == b.store
    && a.subtotal == b.subtotal && a.total == b.total && a.items == b.items
  }

  predicate OneRowEach(ledger: seq<Snapshot>) {
    forall i, j | 0 <= i < j < |ledger| :: ledger[i].order != ledger[j].order
  }

  /** The ledger holds one row for each order ever completed and none for any other. */
  predicate Booked(w: World) {
    && OneRowEach(w.db.ledger)
    && (forall row | row in w.db.ledger ::
          row.order in w.completed && row.order in w.placed && Records(row, w.placed[row.order]))
    && (forall o | o in w.completed :: InLedger(w.db.ledger, o))
    && (forall o | o in w.db.orders ::
          o in w.placed && SameSale(w.placed[o], w.db.orders[o])
          && (w.db.orders[o].status == Completed ==> o in w.completed))
    && Distinct(w.sequence)
    && (forall o | o in w.sequence :: o in w.placed) && (forall o | o in w.placed :: o in w.sequence)
  }

  // ---------------------------------------------------------------------------
  // What a step appends
  // ---------------------------------------------------------------------------

  /** From a to b the ledger only grew, each new row describes its order in the tables it was read from. */
  predicate Appends(a: seq<Snapshot>, b: seq<Snapshot>, db: Db, now: Time) {
    && a <= b
    && (OneRowEach(a) ==> OneRowEach(b))
    && forall i | |a| <= i < |b| ::
         b[i].order in db.orders && db.orders[b[i].order].status == Completed && b[i] == SnapshotOf(db, b[i].order, now)
  }

  lemma WritingAppends(db: Db, order: Id, now: Time)
    requires order in db.orders && db.orders[order].status == Completed
    ensures Appends(db.ledger, WriteSnapshot(db, order, now), db, now)
    ensures InLedger(WriteSnapshot(db, order, now), order)
  {
    var after := WriteSnapshot(db, order, now);
    if !InLedger(db.ledger, order) {
      assert after[|db.ledger|].order == order;
      assert forall i | 0 <= i < |db.ledger| :: after[i] in db.ledger;
    }
  }

  /** A snapshot reads one order row, that order's delivery rows and the sellers. */
  lemma SnapshotReads(a: Db, b: Db, order: Id, now: Time)
    requires order in a.orders && order in b.orders && a.orders[order] == b.orders[order] && a.sellers == b.sellers
    requires forall d :: d in a.deliveries && a.deliveries[d].order == order ==> d in b.deliveries && b.deliveries[d] == a.deliveries[d]
    requires forall d :: d in b.deliveries && b.deliveries[d].order == order ==> d in a.deliveries && a.deliveries[d] == b.deliveries[d]
    ensures SnapshotOf(a, order, now) == SnapshotOf(b, order, now)
  {
    assert DeliveriesOf(a.deliveries, order) == DeliveriesOf(b.deliveries, order);
  }

  lemma {:induction false} CompletingAppends(db: Db, rows: seq<Id>, now: Time)
    requires Distinct(rows) && forall o | o in rows :: o in db.orders && db.orders[o].status == Delivered
    ensures Appends(db.ledger, CompleteAll(db, rows, now).ledger, CompleteAll(db, rows, now), now)
    ensures forall o | o in rows :: InLedger(CompleteAll(db, rows, now).ledger, o)
  {
    if rows != [] {
      var init, last := rows[..|rows| - 1], rows[|rows| - 1];
      InitMembers(rows);
      CompletingAppends(db, init, now);
      CompleteAllTables(db, init, now);
      var before := CompleteAll(db, init, now);
      var marked := before.(orders := before.orders[last := MarkCompleted(before.orders[last], now)]);
      var after := CompleteAll(db, rows, now);
      assert after == marked.(ledger := WriteSnapshot(marked, last, now));
      WritingAppends(marked, last, now);
      SnapshotsSurvive(before, marked, after, last, db.ledger, now);
      forall o | o in rows
        ensures InLedger(after.ledger, o)
      {
        if o != last {
          var row :| row in before.ledger && row.order == o;
          assert row in after.ledger;
        }
      }
    }
  }

  lemma SnapshotsSurvive(before: Db, marked: Db, after: Db, last: Id, start: seq<Snapshot>, now: Time)
    requires last in before.orders && before.orders[last].status == Delivered
    requires marked == before.(orders := before.orders[last := MarkCompleted(before.orders[last], now)])
    requires after == marked.(ledger := after.ledger)
    requires Appends(start, before.ledger, before, now) && Appends(marked.ledger, after.ledger, marked, now)
    ensures Appends(start, after.ledger, after, now)
  {
    forall i | |start| <= i < |after.ledger|
      ensures after.ledger[i].order in after.orders && after.orders[after.ledger[i].order].status == Completed
      ensures after.ledger[i] == SnapshotOf(after, after.ledger[i].order, now)
    {
      var o := after.ledger[i].order;
      if i < |before.ledger| {
        assert after.ledger[i] == before.ledger[i];
        SnapshotReads(before, after, o, now);
      } else {
        SnapshotReads(marked, after, o, now);
      }
    }
  }

  /** The rows the purge erases are in the ledger already. */
  lemma {:induction false} RemovingAppendsNothing(db: Db, rows: seq<Id>, now: Time)
    requires Distinct(rows) && forall o | o in rows :: o in db.orders
    requires forall o | o in rows && db.orders[o].status == Completed :: InLedger(db.ledger, o)
    ensures RemoveAll(db, rows, now).ledger == db.ledger
  {
    if rows != [] {
      var init, last := rows[..|rows| - 1], rows[|rows| - 1];
      InitMembers(rows);
      RemovingAppendsNothing(db, init, now);
      RemoveAllTables(db, init, now);
      assert RemoveAll(db, init, now).orders[last] == db.orders[last];
    }
  }

  // ---------------------------------------------------------------------------
  // Steps
  // ---------------------------------------------------------------------------

  /** Every completed order in the table has its row. */
  predicate CompletedAreIn(db: Db) {
    forall o | o in db.orders && db.orders[o].status == Completed :: InLedger(db.ledger, o)
  }

  /** What a step of any call does to the ledger. */
  predicate Keeps(db: Db, step: Step, now: Time) {
    Appends(db.ledger, step.db.ledger, step.db, now) && CompletedAreIn(step.db)
  }

  lemma UnchangedLedgerKeeps(db: Db, step: Step, now: Time)
    requires CompletedAreIn(db) && step.db.ledger == db.ledger
    requires forall o | o in step.db.orders && step.db.orders[o].status == Completed ::
               o in db.orders && db.orders[o].status == Completed
    ensures Keeps(db, step, now)
  {
  }

  lemma ConfirmKeeps(db: Db, caller: User, order: Id, now: Time)
    requires CompletedAreIn(db)
    ensures Keeps(db, CompleteOrder(db, caller, order, now), now)
  {
    var step := CompleteOrder(db, caller, order, now);
    if step.outcome.Failed? {
      UnchangedLedgerKeeps(db, step, now);
    } else {
      var marked := db.(orders := db.orders[order := MarkCompleted(db.orders[order], now)]);
      assert step.db == marked.(ledger := WriteSnapshot(marked, order, now));
      WritingAppends(marked, order, now);
      MarkedTablesKeep(marked, step.db, order, now);
      forall o | o in step.db.orders && step.db.orders[o].status == Completed
        ensures InLedger(step.db.ledger, o)
      {
        if o != order {
          var row :| row in db.ledger && row.order == o;
          assert row in step.db.ledger;
        }
      }
    }
  }

  lemma MarkedTablesKeep(marked: Db, after: Db, order: Id, now: Time)
    requires after == marked.(ledger := after.ledger)
    requires Appends(marked.ledger, after.ledger, marked, now)
    ensures Appends(marked.ledger, after.ledger, after, now)
  {
    forall i | |marked.ledger| <= i < |after.ledger|
      ensures after.ledger[i] == SnapshotOf(after, after.ledger[i].order, now)
    {
      SnapshotReads(marked, after, after.ledger[i].order, now);
    }
  }

  lemma OtherMovesKeep(db: Db, move: Move, caller: User, order: Id, now: Time)
    requires CompletedAreIn(db) && !move.Confirm?
    ensures Keeps(db, ApplyMove(db, move, caller, order, now), now)
  {
    var step := ApplyMove(db, move, caller, order, now);
    MoveWithin(db, move, caller, order, now);
    forall o | o in step.db.orders && step.db.orders[o].status == Completed
      ensures o in db.orders && db.orders[o].status == Completed
    {
      if o !in db.orders { TransitionAddsNoOrder(db, move, caller, order, now, o); }
      if o != order || step.outcome.Failed? {
        OthersStay(db, move, caller, order, now, o);
      } else {
        OnlyConfirmCompletes(db, move, caller, order, now);
      }
    }
    UnchangedLedgerKeeps(db, step, now);
  }

  lemma OnlyConfirmCompletes(db: Db, move: Move, caller: User, order: Id, now: Time)
    requires !move.Confirm? && ApplyMove(db, move, caller, order, now).outcome.Done?
    ensures order in ApplyMove(db, move, caller, order, now).db.orders
    ensures ApplyMove(db, move, caller, order, now).db.orders[order].status != Completed
  {
  }

  lemma DeleteKeeps(db: Db, caller: User, order: Id, now: Time)
    requires CompletedAreIn(db)
    ensures Keeps(db, DeleteOrder(db, caller, order, now), now)
  {
    var step := DeleteOrder(db, caller, order, now);
    if step.outcome.Failed? {
      UnchangedLedgerKeeps(db, step, now);
    } else {
      RemoveTables(WithSettings(db), order, now);
      assert WithSettings(db).orders == db.orders && WithSettings(db).ledger == db.ledger;
      assert step.db.ledger == db.ledger;
      assert step.db.orders == db.orders - {order};
      UnchangedLedgerKeeps(db, step, now);
    }
  }

  lemma PurgeKeeps(db: Db, due: seq<Id>, expired: seq<Id>, now: Time)
    requires CompletedAreIn(db) && SettingsOk(db.settings) && PurgeRows(db, due, expired, now)
    ensures Keeps(db, RunPurge(db, due, expired, now), now)
  {
    var start := WithSettings(db);
    var mid := CompleteAll(start, due, now);
    assert start.ledger == db.ledger && CompletedAreIn(start);
    AutoCompletionAppends(start, due, now);
    PurgeOrders(db, due, expired, now);
    assert forall o | o in expired :: o in mid.orders;
    ExpiredRowsGo(db.ledger, mid, due, expired, now);
  }

  lemma ExpiredRowsGo(start: seq<Snapshot>, mid: Db, due: seq<Id>, expired: seq<Id>, now: Time)
    requires Distinct(expired) && forall o | o in expired :: o in mid.orders && o !in due
    requires Appends(start, mid.ledger, mid, now) && CompletedAreIn(mid)
    requires forall i | |start| <= i < |mid.ledger| :: mid.ledger[i].order in due
    ensures var after := RemoveAll(mid, expired, now);
            Appends(start, after.ledger, after, now) && CompletedAreIn(after)
  {
    RemovingAppendsNothing(mid, expired, now);
    RemoveAllTables(mid, expired, now);
    assert forall o | o in due :: o !in expired;
    ErasingKeepsNewRows(start, mid, RemoveAll(mid, expired, now), due, expired, now);
  }

  lemma AutoCompletionAppends(db: Db, due: seq<Id>, now: Time)
    requires CompletedAreIn(db) && db.settings.Some? && Returns(due, DueForCompletion(db, now))
    ensures var mid := CompleteAll(db, due, now);
            && Appends(db.ledger, mid.ledger, mid, now) && CompletedAreIn(mid)
            && forall i | |db.ledger| <= i < |mid.ledger| :: mid.ledger[i].order in due
  {
    var mid := CompleteAll(db, due, now);
    CompletingAppends(db, due, now);
    CompleteAllTables(db, due, now);
    forall o | o in mid.orders && mid.orders[o].status == Completed
      ensures InLedger(mid.ledger, o)
    {
      if o !in due {
        assert mid.orders[o] == db.orders[o];
        var row :| row in db.ledger && row.order == o;
        assert row in mid.ledger;
      }
    }
    forall i | |db.ledger| <= i < |mid.ledger|
      ensures mid.ledger[i].order in due
    {
      NewRowsAreDue(db, due, now, i);
    }
  }

  lemma {:induction false} NewRowsAreDue(db: Db, rows: seq<Id>, now: Time, i: int)
    requires Distinct(rows) && forall o | o in rows :: o in db.orders && db.orders[o].status == Delivered
    requires |db.ledger| <= i < |CompleteAll(db, rows, now).ledger|
    ensures CompleteAll(db, rows, now).ledger[i].order in rows
  {
    if rows != [] {
      var init, last := rows[..|rows| - 1], rows[|rows| - 1];
      InitMembers(rows);
      CompleteAllTables(db, init, now);
      var before := CompleteAll(db, init, now);
      if i < |before.ledger| {
        NewRowsAreDue(db, init, now, i);
      }
    }
  }

  lemma ErasingKeepsNewRows(start: seq<Snapshot>, mid: Db, after: Db, due: seq<Id>, expired: seq<Id>, now: Time)
    requires after == Erase(mid, Elements(expired)).(ledger := mid.ledger)
    requires Appends(start, mid.ledger, mid, now) && CompletedAreIn(mid)
    requires forall o | o in due :: o !in expired
    requires forall i | |start| <= i < |mid.ledger| :: mid.ledger[i].order in due
    ensures Appends(start, after.ledger, after, now) && CompletedAreIn(after)
  {
    forall i | |start| <= i < |after.ledger|
      ensures after.ledger[i].order in after.orders && after.orders[after.ledger[i].order].status == Completed
      ensures after.ledger[i] == SnapshotOf(after, after.ledger[i].order, now)
    {
      SnapshotReads(mid, after, after.ledger[i].order, now);
    }
  }

  lemma FlowKeeps(db: Db, flow: Flow, caller: User, order: Id, now: Time)
    requires CompletedAreIn(db)
    ensures Keeps(db, ApplyFlow(db, flow, caller, order, now), now)
  {
    var step := ApplyFlow(db, flow, caller, order, now);
    FlowKeepsLedger(db, flow, caller, order, now);
    forall o | o in step.db.orders && step.db.orders[o].status == Completed
      ensures o in db.orders && db.orders[o].status == Completed
    {
      if o !in db.orders { FlowAddsNoOrder(db, flow, caller, order, now, o); }
      FlowCompletesNothing(db, flow, caller, order, now, o);
    }
    UnchangedLedgerKeeps(db, step, now);
  }

  lemma FlowKeepsLedger(db: Db, flow: Flow, caller: User, order: Id, now: Time)
    ensures ApplyFlow(db, flow, caller, order, now).db.ledger == db.ledger
  {
    FlowWithin(db, flow, caller, order, now);
  }

  lemma FlowCompletesNothing(db: Db, flow: Flow, caller: User, target: Id, now: Time, order: Id)
    requires order in db.orders && order in ApplyFlow(db, flow, caller, target, now).db.orders
    ensures ApplyFlow(db, flow, caller, target, now).db.orders[order].status in {db.orders[order].status, Delivered}
    ensures SameSale(db.orders[order], ApplyFlow(db, flow, caller, target, now).db.orders[order])
  {
    match flow {
      case SubmitCode(submitted) => SubmittedCodeRewrites(db, caller, target, submitted, now, order);
      case _ => FlowMoves(db, flow, caller, target, now, order);
    }
  }

  lemma PlaceKeeps(db: Db, lines: seq<Line>, customer: User, order: Id, now: Time)
    requires CompletedAreIn(db) && order !in db.orders
    ensures Keeps(db, CreateOrder(db, customer, lines, order, now), now)
  {
    var step := CreateOrder(db, customer, lines, order, now);
    assert step.db.ledger == db.ledger;
    if step.outcome.Done? { PlacedOrder(db, lines, customer, order, now); }
    UnchangedLedgerKeeps(db, step, now);
  }

  lemma ChoiceKeeps(db: Db, choice: Choice, caller: User, order: Id, now: Time)
    requires CompletedAreIn(db)
    ensures Keeps(db, ApplyChoice(db, choice, caller, order, now), now)
  {
    ChoicesKeepOrders(db, choice, caller, order, now);
    var step := ApplyChoice(db, choice, caller, order, now);
    assert step.db.ledger == db.ledger;
    UnchangedLedgerKeeps(db, step, now);
  }

  lemma ConfigureKeeps(db: Db, days: Option<int>, hours: Option<int>, now: Time)
    requires CompletedAreIn(db)
    ensures Keeps(db, UpdateSettings(db, days, hours), now)
  {
    var step := UpdateSettings(db, days, hours);
    assert step.db.orders == db.orders && step.db.ledger == db.ledger;
    UnchangedLedgerKeeps(db, step, now);
  }

  lemma TendKeeps(db: Db, catalogue: map<Id, Product>, sellers: map<Id, SellerRow>, drivers: set<Id>, now: Time)
    requires CompletedAreIn(db)
    ensures Keeps(db, Step(Tended(db, catalogue, sellers, drivers), Done), now)
  {
    UnchangedLedgerKeeps(db, Step(Tended(db, catalogue, sellers, drivers), Done), now);
  }

  lemma MoveKeeps(db: Db, move: Move, caller: User, order: Id, now: Time)
    requires CompletedAreIn(db)
    ensures Keeps(db, ApplyMove(db, move, caller, order, now), now)
  {
    if move.Confirm? { ConfirmKeeps(db, caller, order, now); } else { OtherMovesKeep(db, move, caller, order, now); }
  }

  /** Every call only appends to the ledger, and only rows that describe an order it has just left completed. */
  lemma StepAppends(db: Db, op: Op)
    requires CompletedAreIn(db) && PurgeIsSound(db, op)
    requires op.call.Place? ==> op.call.order !in db.orders
    ensures Keeps(db, Apply(db, op), op.at)
  {
    match op.call {
      case Place(lines, customer, order) => PlaceKeeps(db, lines, customer, order, op.at);
      case Transition(move, caller, order) => MoveKeeps(db, move, caller, order, op.at);
      case Fulfil(choice, caller, order) => ChoiceKeeps(db, choice, caller, order, op.at);
      case Delete(caller, order) => DeleteKeeps(db, caller, order, op.at);
      case Purge(due, expired) => PurgeKeeps(db, due, expired, op.at);
      case Configure(days, hours) => ConfigureKeeps(db, days, hours, op.at);
      case DriverFlow(flow, caller, order) => FlowKeeps(db, flow, caller, order, op.at);
      case Tend(catalogue, sellers, drivers) => TendKeeps(db, catalogue, sellers, drivers, op.at);
    }
  }

  // ---------------------------------------------------------------------------
  // Runs
  // ---------------------------------------------------------------------------

  lemma StepKeepsSale(db: Db, op: Op, order: Id)
    requires PurgeIsSound(db, op) && (op.call.Place? ==> op.call.order != order)
    requires order in db.orders && order in Apply(db, op).db.orders
    ensures SameSale(db.orders[order], Apply(db, op).db.orders[order])
  {
    if CodeInTime(db, op) {
      OrderMoves(db, op, order);
    } else {
      FlowCompletesNothing(db, op.call.flow, op.call.caller, op.call.order, op.at, order);
    }
  }

  lemma SalesStayKnown(w: World, op: Op, order: Id)
    requires Booked(w) && SettingsOk(w.db.settings) && Admissible(w, op)
    requires order in Apply(w.db, op).db.orders
    ensures order in Advance(w, op).placed && SameSale(Advance(w, op).placed[order], Apply(w.db, op).db.orders[order])
  {
    if !(Places(w.db, op) && op.call.order == order) {
      if order !in w.db.orders { OtherStepsAddNoOrder(w.db, op, order); }
      StepKeepsSale(w.db, op, order);
    }
  }

  lemma StepKeepsBooked(w: World, op: Op)
    requires Booked(w) && SettingsOk(w.db.settings) && Admissible(w, op)
    ensures Booked(Advance(w, op)) && SettingsOk(Advance(w, op).db.settings)
    ensures w.db.ledger <= Advance(w, op).db.ledger
  {
    StepKeepsSettings(w.db, op);
    assert CompletedAreIn(w.db);
    StepAppends(w.db, op);
    var next := Advance(w, op);
    forall o | o in next.db.orders
      ensures o in next.placed && SameSale(next.placed[o], next.db.orders[o])
    {
      SalesStayKnown(w, op, o);
    }
    forall i | 0 <= i < |next.db.ledger|
      ensures var row := next.db.ledger[i];
              row.order in next.completed && row.order in next.placed && Records(row, next.placed[row.order])
    {
      if i < |w.db.ledger| {
        assert next.db.ledger[i] == w.db.ledger[i] && w.db.ledger[i] in w.db.ledger;
      }
    }
    forall o | o in next.completed
      ensures InLedger(next.db.ledger, o)
    {
      if o in w.completed {
        var row :| row in w.db.ledger && row.order == o;
        assert row in next.db.ledger;
      }
    }
    PlacingExtendsTheSequence(w, op);
  }

  lemma PlacingExtendsTheSequence(w: World, op: Op)
    requires Booked(w) && Admissible(w, op)
    ensures var next := Advance(w, op);
            Distinct(next.sequence)
            && (forall o | o in next.sequence :: o in next.placed) && (forall o | o in next.placed :: o in next.sequence)
  {
  }

  /**
   Over every run of both services: one row per order that ever reached completed, none for any
   other, and a row once written is never changed or removed, whatever is deleted or purged later.
   */
  lemma {:induction false} RunKeepsBooked(w: World, ops: seq<Op>)
    requires Booked(w) && SettingsOk(w.db.settings) && IsRun(w, ops)
    ensures Booked(After(w, ops)) && w.db.ledger <= After(w, ops).db.ledger
    decreases |ops|
  {
    if ops != [] {
      StepKeepsBooked(w, ops[0]);
      RunKeepsBooked(Advance(w, ops[0]), ops[1..]);
    }
  }

  lemma EveryRunIsBooked(w: World, ops: seq<Op>)
    requires IsStart(w) && IsRun(w, ops)
    ensures Booked(After(w, ops))
  {
    RunKeepsBooked(w, ops);
  }

  /** An insert for an order the ledger knows does nothing: delete_order and the purge rely on it. */
  lemma SnapshotsOnDeletionAreNoOps(w: World, order: Id, now: Time)
    requires Booked(w) && order in w.db.orders && w.db.orders[order].status == Completed
    ensures WriteSnapshot(w.db, order, now) == w.db.ledger
  {
  }

  // ---------------------------------------------------------------------------
  // The sums the dashboards read
  // ---------------------------------------------------------------------------

  datatype Metrics = Metrics(sales: int, orders: nat)

  /** SUM(total_minor) and COUNT(id) over one seller's snapshots. */
  function LifetimeMetrics(ledger: seq<Snapshot>, seller: Id): Metrics {
    if ledger == [] then Metrics(0, 0)
    else
      var earlier, row := LifetimeMetrics(ledger[..|ledger| - 1], seller), ledger[|ledger| - 1];
      if row.seller == seller then Metrics(earlier.sales + row.total, earlier.orders + 1) else earlier
  }

  /** SUM and COUNT over all snapshots. */
  function PlatformMetrics(ledger: seq<Snapshot>): Metrics {
    if ledger == [] then Metrics(0, 0)
    else
      var earlier := PlatformMetrics(ledger[..|ledger| - 1]);
      Metrics(earlier.sales + ledger[|ledger| - 1].total, earlier.orders + 1)
  }

  /** The same sums over the history: the seller's orders among the completed ones. */
  function CompletedSales(sequence: seq<Id>, placed: map<Id, Order>, completed: set<Id>, seller: Id): Metrics
    requires forall o | o in sequence :: o in placed
  {
    if sequence == [] then Metrics(0, 0)
    else
      var earlier := CompletedSales(sequence[..|sequence| - 1], placed, completed, seller);
      var o := sequence[|sequence| - 1];
      if o in completed && placed[o].seller == seller
      then Metrics(earlier.sales + placed[o].total, earlier.orders + 1)
      else earlier
  }

  lemma {:induction false} CompletingOneMore(
      sequence: seq<Id>, placed: map<Id, Order>, completed: set<Id>, order: Id, seller: Id)
    requires Distinct(sequence) && (forall o | o in sequence :: o in placed) && order !in completed
    ensures var before := CompletedSales(sequence, placed, completed, seller);
            CompletedSales(sequence, placed, completed + {order}, seller) ==
            if order in sequence && placed[order].seller == seller
            then Metrics(before.sales + placed[order].total, before.orders + 1) else before
  {
    if sequence != [] {
      InitMembers(sequence);
      CompletingOneMore(sequence[..|sequence| - 1], placed, completed, order, seller);
    }
  }

  lemma {:induction false} NothingCompleted(sequence: seq<Id>, placed: map<Id, Order>, seller: Id)
    requires forall o | o in sequence :: o in placed
    ensures CompletedSales(sequence, placed, {}, seller) == Metrics(0, 0)
  {
    if sequence != [] {
      NothingCompleted(sequence[..|sequence| - 1], placed, seller);
    }
  }

  function OrdersIn(ledger: seq<Snapshot>): set<Id> {
    set row | row in ledger :: row.order
  }

  lemma {:induction false} LedgerSumsItsOrders(
      ledger: seq<Snapshot>, sequence: seq<Id>, placed: map<Id, Order>, seller: Id)
    requires OneRowEach(ledger) && Distinct(sequence) && forall o | o in sequence :: o in placed
    requires forall row | row in ledger :: row.order in sequence && Records(row, placed[row.order])
    ensures LifetimeMetrics(ledger, seller) == CompletedSales(sequence, placed, OrdersIn(ledger), seller)
  {
    if ledger == [] {
      assert OrdersIn(ledger) == {};
      NothingCompleted(sequence, placed, seller);
    } else {
      var init, last := ledger[..|ledger| - 1], ledger[|ledger| - 1];
      assert ledger == init + [last];
      LedgerSumsItsOrders(init, sequence, placed, seller);
      assert OrdersIn(ledger) == OrdersIn(init) + {last.order};
      CompletingOneMore(sequence, placed, OrdersIn(init), last.order, seller);
    }
  }

  /**
   A seller's lifetime sum and count are those of all their orders that ever completed, also of the
   orders that were deleted since.
   */
  lemma LifetimeMetricsSurviveDeletion(w: World, seller: Id)
    requires Booked(w)
    ensures LifetimeMetrics(w.db.ledger, seller) == CompletedSales(w.sequence, w.placed, w.completed, seller)
  {
    assert OrdersIn(w.db.ledger) == w.completed by {
      forall o | o in w.completed
        ensures o in OrdersIn(w.db.ledger)
      {
        var row :| row in w.db.ledger && row.order == o;
      }
    }
    LedgerSumsItsOrders(w.db.ledger, w.sequence, w.placed, seller);
  }

  function SumOverSellers(ledger: seq<Snapshot>, sellers: seq<Id>): Metrics {
    if sellers == [] then Metrics(0, 0)
    else
      var earlier := SumOverSellers(ledger, sellers[..|sellers| - 1]);
      var own := LifetimeMetrics(ledger, sellers[|sellers| - 1]);
      Metrics(earlier.sales + own.sales, earlier.orders + own.orders)
  }

  lemma {:induction false} OneMoreRow(ledger: seq<Snapshot>, row: Snapshot, sellers: seq<Id>)
    requires Distinct(sellers)
    ensures var before := SumOverSellers(ledger, sellers);
            SumOverSellers(ledger + [row], sellers) ==
            if row.seller in sellers then Metrics(before.sales + row.total, before.orders + 1) else before
  {
    if sellers != [] {
      InitMembers(sellers);
      OneMoreRow(ledger, row, sellers[..|sellers| - 1]);
      assert (ledger + [row])[..|ledger|] == ledger;
    }
  }

  lemma {:induction false} EmptyLedgerSums(sellers: seq<Id>)
    ensures SumOverSellers([], sellers) == Metrics(0, 0)
  {
    if sellers != [] {
      EmptyLedgerSums(sellers[..|sellers| - 1]);
    }
  }

  /** The per-seller dashboards add up to the platform's total_gmv_minor and orders_count. */
  lemma {:induction false} SellersAddUpToThePlatform(ledger: seq<Snapshot>, sellers: seq<Id>)
    requires Distinct(sellers) && forall row | row in ledger :: row.seller in sellers
    ensures SumOverSellers(ledger, sellers) == PlatformMetrics(ledger)
  {
    if ledger == [] {
      EmptyLedgerSums(sellers);
    } else {
      var init, last := ledger[..|ledger| - 1], ledger[|ledger| - 1];
      assert ledger == init + [last];
      SellersAddUpToThePlatform(init, sellers);
      OneMoreRow(init, last, sellers);
    }
  }
}
