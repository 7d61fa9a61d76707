/** When order rows may disappear: delete_order, the purge job and the settings that gate both. */
module Retention {
  import opened Common
  import opened Frames
  import opened Marketplace
  import opened Runs

  /** At least the retention period has passed since the order reached a terminal status. */
  predicate PeriodOver(o: Order, settings: Settings, now: Time) {
    || (o.status == Completed && o.completedAt.Some?
        && o.completedAt.value + settings.retentionDays * 24 * 3_600_000_000 <= now)
    || (o.status == Cancelled && o.cancelledAt.Some?
        && o.cancelledAt.value + settings.retentionDays * 24 * 3_600_000_000 <= now)
  }

  /** The order was delivered, and its customer has not confirmed it for the whole grace period. */
  predicate GraceOver(o: Order, settings: Settings, now: Time) {
    && o.status == Delivered && o.deliveredAt.Some? && o.deletedAt.None?
    && o.deliveredAt.value + settings.graceHours * 3_600_000_000 <= now
  }

  predicate MayDelete(caller: User, o: Order) {
    || caller.role == Admin
    || (caller.role == Seller && caller.id == o.seller)
    || (caller.role == Customer && caller.id == o.customer)
  }

  /** delete_order's test on a difference and the purge query's test against a cutoff accept the same orders. */
  lemma RetentionTestsCoincide(db: Db, caller: User, order: Id, now: Time)
    requires order in db.orders && db.orders[order].deletedAt.None?
    ensures DeleteRefusal(db, caller, order, now).None? <==>
              MayDelete(caller, db.orders[order]) && order in DueForPurge(WithSettings(db), now)
    ensures order in DueForPurge(WithSettings(db), now) <==>
              PeriodOver(db.orders[order], WithSettings(db).settings.value, now)
  {
    assert WithSettings(db).orders == db.orders;
  }

  function MarkCompleted(o: Order, now: Time): Order {
    o.(status := Completed, completedAt := Some(now))
  }

  lemma {:induction false} InitMembers<T>(s: seq<T>)
    requires s != [] && Distinct(s)
    ensures var init := s[..|s| - 1];
            Distinct(init) && s[|s| - 1] !in init && Elements(s) == Elements(init) + {s[|s| - 1]}
            && forall x :: x in s <==> x in init || x == s[|s| - 1]
  {
    var init := s[..|s| - 1];
    assert s == init + [s[|s| - 1]];
  }

  function MarkAll(orders: map<Id, Order>, rows: seq<Id>, now: Time): map<Id, Order> {
    map o | o in orders :: if o in rows then MarkCompleted(orders[o], now) else orders[o]
  }

  /** What the auto-complete loop does to the tables, whatever order the rows come in. */
  lemma {:induction false} CompleteAllTables(db: Db, rows: seq<Id>, now: Time)
    requires Distinct(rows) && forall o | o in rows :: o in db.orders && db.orders[o].status == Delivered
    ensures CompleteAll(db, rows, now)
         == db.(orders := MarkAll(db.orders, rows, now), ledger := CompleteAll(db, rows, now).ledger)
  {
    if rows == [] {
      assert MarkAll(db.orders, [], now) == db.orders;
    } else {
      var init, last := rows[..|rows| - 1], rows[|rows| - 1];
      InitMembers(rows);
      CompleteAllTables(db, init, now);
      var before := CompleteAll(db, init, now);
      assert before.orders[last] == db.orders[last];
      assert MarkAll(db.orders, rows, now) == before.orders[last := MarkCompleted(db.orders[last], now)];
    }
  }

  lemma ErasingInTwoSteps(db: Db, first: set<Id>, second: set<Id>, ledger: seq<Snapshot>)
    ensures Erase(Erase(db, first).(ledger := ledger), second) == Erase(db, first + second).(ledger := ledger)
  {
  }

  /** What the purge loop does to the tables. */
  lemma {:induction false} RemoveAllTables(db: Db, rows: seq<Id>, now: Time)
    requires Distinct(rows) && forall o | o in rows :: o in db.orders
    ensures RemoveAll(db, rows, now) == Erase(db, Elements(rows)).(ledger := RemoveAll(db, rows, now).ledger)
  {
    if rows == [] {
      NothingErased(db);
    } else {
      var init, last := rows[..|rows| - 1], rows[|rows| - 1];
      InitMembers(rows);
      RemoveAllTables(db, init, now);
      var before := RemoveAll(db, init, now);
      ErasingInTwoSteps(db, Elements(init), {last}, before.ledger);
      RemoveTables(before, last, now);
    }
  }

  lemma NothingErased(db: Db)
    ensures Erase(db, {}) == db
  {
  }

  lemma RemoveTables(db: Db, order: Id, now: Time)
    requires order in db.orders
    ensures Remove(db, order, now) == Erase(db, {order}).(ledger := Remove(db, order, now).ledger)
  {
  }

  /** An order the job completes in this run is too young to purge in it. */
  lemma JustCompletedIsNotExpired(db: Db, due: seq<Id>, order: Id, now: Time)
    requires SettingsOk(db.settings) && Returns(due, DueForCompletion(WithSettings(db), now))
    requires order in due
    ensures order !in DueForPurge(CompleteAll(WithSettings(db), due, now), now)
    ensures order in db.orders && db.orders[order].status == Delivered
  {
    CompleteAllTables(WithSettings(db), due, now);
    var mid := CompleteAll(WithSettings(db), due, now);
    assert mid.orders[order] == MarkCompleted(db.orders[order], now);
    assert mid.settings.value.retentionDays >= 1;
  }

  /** The purge job, as one change of the orders table. */
  lemma PurgeOrders(db: Db, due: seq<Id>, expired: seq<Id>, now: Time)
    requires SettingsOk(db.settings) && PurgeRows(db, due, expired, now)
    ensures forall o | o in expired ::
              o in db.orders && o !in due && PeriodOver(db.orders[o], WithSettings(db).settings.value, now)
    ensures RunPurge(db, due, expired, now).db.orders == MarkAll(db.orders, due, now) - Elements(expired)
  {
    var mid := CompleteAll(WithSettings(db), due, now);
    CompleteAllTables(WithSettings(db), due, now);
    forall o | o in expired
      ensures o in db.orders && o !in due && PeriodOver(db.orders[o], WithSettings(db).settings.value, now)
    {
      assert o in DueForPurge(mid, now);
      if o in due { JustCompletedIsNotExpired(db, due, o, now); }
      assert mid.orders[o] == db.orders[o];
    }
    RemoveAllTables(mid, expired, now);
  }

  /** No step of either service removes an order row before its retention period is over. */
  lemma RowsOutliveTheirPeriod(w: World, op: Op, order: Id)
    requires SettingsOk(w.db.settings) && Admissible(w, op)
    requires order in w.db.orders && order !in Apply(w.db, op).db.orders
    ensures op.call.Delete? || op.call.Purge?
    ensures PeriodOver(w.db.orders[order], WithSettings(w.db).settings.value, op.at)
    ensures op.call.Delete? ==> order == op.call.order && MayDelete(op.call.caller, w.db.orders[order])
  {
    match op.call {
      case Purge(due, expired) => PurgeOrders(w.db, due, expired, op.at);
      case Delete(caller, target) => DeleteRemovesOneRow(w.db, caller, target, op.at, order);
      case _ => OtherStepsKeepRows(w.db, op);
    }
  }

  lemma DeleteRemovesOneRow(db: Db, caller: User, target: Id, now: Time, order: Id)
    requires order in db.orders && order !in DeleteOrder(db, caller, target, now).db.orders
    ensures order == target && MayDelete(caller, db.orders[order])
    ensures PeriodOver(db.orders[order], WithSettings(db).settings.value, now)
  {
    assert DeleteRefusal(db, caller, target, now).None?;
    RemoveTables(WithSettings(db), target, now);
  }

  lemma OtherStepsKeepRows(db: Db, op: Op)
    requires !op.call.Delete? && !op.call.Purge?
    ensures forall o | o in db.orders :: o in Apply(db, op).db.orders
  {
    match op.call {
      case Place(lines, customer, order) =>
      case Transition(move, caller, order) => MovesKeepRows(db, move, caller, order, op.at);
      case Fulfil(choice, caller, order) => ChoicesKeepOrders(db, choice, caller, order, op.at);
      case DriverFlow(flow, caller, order) => FlowsKeepRows(db, flow, caller, order, op.at);
      case Configure(days, hours) =>
      case Tend(catalogue, sellers, drivers) =>
    }
  }

  lemma ChoicesKeepOrders(db: Db, choice: Choice, caller: User, order: Id, at: Time)
    ensures ApplyChoice(db, choice, caller, order, at).db.orders == db.orders
    ensures ApplyChoice(db, choice, caller, order, at).db.settings == db.settings
  {
  }

  lemma MovesKeepRows(db: Db, move: Move, caller: User, order: Id, at: Time)
    ensures forall o | o in db.orders :: o in ApplyMove(db, move, caller, order, at).db.orders
    ensures ApplyMove(db, move, caller, order, at).db.settings == db.settings
  {
    MoveWithin(db, move, caller, order, at);
  }

  lemma FlowsKeepRows(db: Db, flow: Flow, caller: User, order: Id, at: Time)
    ensures forall o | o in db.orders :: o in ApplyFlow(db, flow, caller, order, at).db.orders
    ensures ApplyFlow(db, flow, caller, order, at).db.settings == db.settings
  {
    FlowWithin(db, flow, caller, order, at);
  }

  lemma StepKeepsSettings(db: Db, op: Op)
    requires SettingsOk(db.settings)
    ensures SettingsOk(Apply(db, op).db.settings)
  {
    match op.call {
      case Place(lines, customer, order) =>
      case Transition(move, caller, order) => MovesKeepRows(db, move, caller, order, op.at);
      case Fulfil(choice, caller, order) => ChoicesKeepOrders(db, choice, caller, order, op.at);
      case DriverFlow(flow, caller, order) => FlowsKeepRows(db, flow, caller, order, op.at);
      case Configure(days, hours) => ConfiguringKeepsSettings(db, days, hours, op.at);
      case Delete(caller, order) => DeletingKeepsSettings(db, caller, order, op.at);
      case Purge(due, expired) => PurgingKeepsSettings(db, due, expired, op.at);
      case Tend(catalogue, sellers, drivers) =>
    }
  }

  lemma ConfiguringKeepsSettings(db: Db, days: Option<int>, hours: Option<int>, at: Time)
    requires SettingsOk(db.settings)
    ensures SettingsOk(UpdateSettings(db, days, hours).db.settings)
  {
  }

  lemma DeletingKeepsSettings(db: Db, caller: User, order: Id, at: Time)
    requires SettingsOk(db.settings)
    ensures SettingsOk(DeleteOrder(db, caller, order, at).db.settings)
  {
    var after := DeleteOrder(db, caller, order, at).db.settings;
    assert after == db.settings || after == WithSettings(db).settings;
  }

  lemma PurgingKeepsSettings(db: Db, due: seq<Id>, expired: seq<Id>, at: Time)
    requires SettingsOk(db.settings)
    ensures SettingsOk(RunPurge(db, due, expired, at).db.settings)
  {
    RemovingKeepsSettings(CompleteAll(WithSettings(db), due, at), expired, at);
  }

  lemma {:induction false} RemovingKeepsSettings(db: Db, rows: seq<Id>, now: Time)
    ensures RemoveAll(db, rows, now).settings == db.settings
  {
    if rows != [] {
      RemovingKeepsSettings(db, rows[..|rows| - 1], now);
    }
  }

  /**
   When no row was skipped, nothing is left for a second run at the same instant: its two queries
   return no rows and it leaves every table as it found it.
   */
  lemma SecondPurgeChangesNothing(db: Db, due: seq<Id>, expired: seq<Id>, again: seq<Id>, more: seq<Id>, now: Time)
    requires SettingsOk(db.settings) && PurgeRows(db, due, expired, now)
    requires forall o | o in DueForCompletion(WithSettings(db), now) :: o in due
    requires forall o | o in DueForPurge(CompleteAll(WithSettings(db), due, now), now) :: o in expired
    requires PurgeRows(RunPurge(db, due, expired, now).db, again, more, now)
    ensures again == [] && more == []
    ensures RunPurge(RunPurge(db, due, expired, now).db, again, more, now).db == RunPurge(db, due, expired, now).db
  {
    var first := RunPurge(db, due, expired, now).db;
    var mid := CompleteAll(WithSettings(db), due, now);
    PurgeOrders(db, due, expired, now);
    CompleteAllTables(WithSettings(db), due, now);
    RemovingKeepsSettings(mid, expired, now);
    assert WithSettings(first) == first;
    if again != [] {
      assert again[0] in again;
      NothingLeft(db, due, expired, again[0], now);
    }
    if more != [] {
      assert more[0] in more;
      NothingLeft(db, due, expired, more[0], now);
    }
  }

  lemma NothingLeft(db: Db, due: seq<Id>, expired: seq<Id>, order: Id, now: Time)
    requires SettingsOk(db.settings) && PurgeRows(db, due, expired, now)
    requires forall o | o in DueForCompletion(WithSettings(db), now) :: o in due
    requires forall o | o in DueForPurge(CompleteAll(WithSettings(db), due, now), now) :: o in expired
    ensures var first := RunPurge(db, due, expired, now).db;
            first.settings.Some? && order !in DueForCompletion(first, now) && order !in DueForPurge(first, now)
  {
    var mid := CompleteAll(WithSettings(db), due, now);
    var first := RunPurge(db, due, expired, now).db;
    PurgeOrders(db, due, expired, now);
    CompleteAllTables(WithSettings(db), due, now);
    RemovingKeepsSettings(mid, expired, now);
    assert first.orders == MarkAll(db.orders, due, now) - Elements(expired) && first.settings == mid.settings;
    if order in first.orders {
      assert order !in expired && first.orders[order] == mid.orders[order];
      assert order !in DueForPurge(mid, now);
      if order !in due {
        assert order !in DueForCompletion(WithSettings(db), now);
        assert first.orders[order] == db.orders[order];
      }
    }
  }
}
