/** Conservation of stock over every run of every call. */
module Stock {
  import opened Common
  import opened Frames
  import opened Checkout
  import opened Marketplace
  import opened Runs
  import opened Retention
  import opened Lifecycle
  import opened Ledger

  /** Everything ever ordered of one product, whatever became of the orders. */
  function EverOrdered(sequence: seq<Id>, placed: map<Id, Order>, product: Id): nat
    requires forall o | o in sequence :: o in placed
  {
    if sequence == [] then 0
    else
      var o := sequence[|sequence| - 1];
      EverOrdered(sequence[..|sequence| - 1], placed, product) + ItemUnits(placed[o].items, product)
  }

  /** No order holds anything of a product that was never listed. */
  predicate OnlyListed(w: World)
    requires forall o | o in w.sequence :: o in w.placed
  {
    forall o | o in w.sequence :: forall item | item in w.placed[o].items :: item.product in w.opening
  }

  /** Finite opening stock is current stock plus all that was ever ordered; unlimited stock stays unlimited. */
  predicate Balanced(w: World, product: Id)
    requires forall o | o in w.sequence :: o in w.placed
    requires product in w.opening && product in w.db.products
  {
    match w.opening[product]
    case None => w.db.products[product].stock.None?
    case Some(opening) =>
      w.db.products[product].stock.Some?
      && opening == w.db.products[product].stock.value + EverOrdered(w.sequence, w.placed, product)
  }

  predicate Conserved(w: World)
    requires forall o | o in w.sequence :: o in w.placed
  {
    && (forall p | p in w.db.products :: p in w.opening)
    && (forall p | p in w.opening :: p in w.db.products && Balanced(w, p))
  }

  predicate Accounted(w: World) {
    && Booked(w)
    && (forall o | o in w.sequence :: o in w.placed)
    && Conserved(w) && OnlyListed(w)
  }

  lemma {:induction false} NothingOfIt(items: seq<OrderItem>, product: Id)
    requires forall item | item in items :: item.product != product
    ensures ItemUnits(items, product) == 0
  {
    if items != [] {
      assert items[|items| - 1] in items;
      NothingOfIt(items[..|items| - 1], product);
    }
  }

  lemma {:induction false} NeverOrdered(sequence: seq<Id>, placed: map<Id, Order>, product: Id)
    requires forall o | o in sequence :: o in placed && forall item | item in placed[o].items :: item.product != product
    ensures EverOrdered(sequence, placed, product) == 0
  {
    if sequence != [] {
      var last := sequence[|sequence| - 1];
      assert last in sequence;
      NothingOfIt(placed[last].items, product);
      NeverOrdered(sequence[..|sequence| - 1], placed, product);
    }
  }

  lemma {:induction false} ItemsNameTheirKeys(products: map<Id, Product>, keys: seq<Id>, lines: seq<Line>)
    requires forall k | k in keys :: k in products
    ensures forall item | item in Items(products, keys, lines) :: item.product in products
  {
    if keys != [] {
      ItemsNameTheirKeys(products, keys[..|keys| - 1], lines);
    }
  }

  /** A new order names listed products. */
  lemma PlacedItemsAreListed(db: Db, lines: seq<Line>, customer: User, order: Id, at: Time)
    requires CreateOrder(db, customer, lines, order, at).outcome.Done?
    ensures order in CreateOrder(db, customer, lines, order, at).db.orders
    ensures forall item | item in CreateOrder(db, customer, lines, order, at).db.orders[order].items ::
              item.product in db.products
  {
    PlacedOrder(db, lines, customer, order, at);
    AcceptedPlan(db.products, customer, lines);
    ItemsNameTheirKeys(db.products, FirstSeen(lines), lines);
  }

  lemma {:induction false} LaterOrdersDoNotMatter(sequence: seq<Id>, placed: map<Id, Order>, more: map<Id, Order>, product: Id)
    requires forall o | o in sequence :: o in placed && o in more && more[o] == placed[o]
    ensures EverOrdered(sequence, more, product) == EverOrdered(sequence, placed, product)
  {
    if sequence != [] {
      LaterOrdersDoNotMatter(sequence[..|sequence| - 1], placed, more, product);
    }
  }

  predicate SameProducts(before: Db, after: Db) {
    after.products == before.products
  }

  lemma TransitionsKeepProducts(db: Db, move: Move, caller: User, order: Id, at: Time)
    ensures SameProducts(db, ApplyMove(db, move, caller, order, at).db)
  {
    MoveWithin(db, move, caller, order, at);
  }

  lemma FlowsKeepProducts(db: Db, flow: Flow, caller: User, order: Id, at: Time)
    ensures SameProducts(db, ApplyFlow(db, flow, caller, order, at).db)
  {
    FlowWithin(db, flow, caller, order, at);
  }

  lemma ChoicesKeepProducts(db: Db, choice: Choice, caller: User, order: Id, at: Time)
    ensures SameProducts(db, ApplyChoice(db, choice, caller, order, at).db)
  {
  }

  lemma DeleteKeepsProducts(db: Db, caller: User, order: Id, at: Time)
    ensures SameProducts(db, DeleteOrder(db, caller, order, at).db)
  {
    if DeleteRefusal(db, caller, order, at).None? {
      RemoveTables(WithSettings(db), order, at);
    }
  }

  lemma {:induction false} CompletingKeepsProducts(db: Db, rows: seq<Id>, at: Time)
    ensures CompleteAll(db, rows, at).products == db.products
  {
    if rows != [] {
      CompletingKeepsProducts(db, rows[..|rows| - 1], at);
    }
  }

  lemma {:induction false} RemovingKeepsProducts(db: Db, rows: seq<Id>, at: Time)
    ensures RemoveAll(db, rows, at).products == db.products
  {
    if rows != [] {
      RemovingKeepsProducts(db, rows[..|rows| - 1], at);
    }
  }

  lemma PurgeKeepsProducts(db: Db, due: seq<Id>, expired: seq<Id>, at: Time)
    ensures SameProducts(db, RunPurge(db, due, expired, at).db)
  {
    CompletingKeepsProducts(WithSettings(db), due, at);
    RemovingKeepsProducts(CompleteAll(WithSettings(db), due, at), expired, at);
  }

  lemma RefusedCheckoutKeepsProducts(db: Db, lines: seq<Line>, customer: User, order: Id, at: Time)
    requires CreateOrder(db, customer, lines, order, at).outcome.Failed?
    ensures SameProducts(db, CreateOrder(db, customer, lines, order, at).db)
  {
  }

  lemma ConfiguringKeepsProducts(db: Db, days: Option<int>, hours: Option<int>)
    ensures SameProducts(db, UpdateSettings(db, days, hours).db)
  {
  }

  /** Of both services only an accepted checkout writes product rows: a refused one, a cancellation, a deletion and a purge do not. */
  lemma OnlyCheckoutTakesStock(db: Db, op: Op)
    requires !Places(db, op)
    ensures if op.call.Tend? then Apply(db, op).db.products == op.call.catalogue else SameProducts(db, Apply(db, op).db)
  {
    match op.call {
      case Place(lines, customer, order) => RefusedCheckoutKeepsProducts(db, lines, customer, order, op.at);
      case Transition(move, caller, order) => TransitionsKeepProducts(db, move, caller, order, op.at);
      case Fulfil(choice, caller, order) => ChoicesKeepProducts(db, choice, caller, order, op.at);
      case Delete(caller, order) => DeleteKeepsProducts(db, caller, order, op.at);
      case Purge(due, expired) => PurgeKeepsProducts(db, due, expired, op.at);
      case Configure(days, hours) => ConfiguringKeepsProducts(db, days, hours);
      case DriverFlow(flow, caller, order) => FlowsKeepProducts(db, flow, caller, order, op.at);
      case Tend(catalogue, sellers, drivers) =>
    }
  }

  /** The stock column after a checkout and what the new order adds to the account. */
  lemma CheckoutBalances(w: World, lines: seq<Line>, customer: User, order: Id, at: Time, product: Id)
    requires forall o | o in w.sequence :: o in w.placed
    requires order !in w.placed && product in w.db.products
    requires CreateOrder(w.db, customer, lines, order, at).outcome.Done?
    ensures var db := CreateOrder(w.db, customer, lines, order, at).db;
            && order in db.orders && product in db.products
            && (w.db.products[product].stock.None? ==> db.products[product].stock.None?)
            && (w.db.products[product].stock.Some? ==>
                  && db.products[product].stock.Some?
                  && db.products[product].stock.value + ItemUnits(db.orders[order].items, product)
                     == w.db.products[product].stock.value)
  {
    PlacedOrder(w.db, lines, customer, order, at);
    PlanTakesItsLinesFromStock(w.db.products, customer, lines);
    PlanIsWorthItsLines(w.db.products, customer, lines);
  }

  lemma PlacingKeepsTheBalance(w: World, op: Op, product: Id)
    requires Accounted(w) && Admissible(w, op) && Places(w.db, op) && product in w.opening
    requires forall o | o in Advance(w, op).sequence :: o in Advance(w, op).placed
    ensures product in Advance(w, op).db.products && Balanced(Advance(w, op), product)
  {
    var next := Advance(w, op);
    assert Balanced(w, product);
    CheckoutBalances(w, op.call.lines, op.call.caller, op.call.order, op.at, product);
    LaterOrdersDoNotMatter(w.sequence, w.placed, next.placed, product);
    assert next.sequence[..|w.sequence|] == w.sequence;
  }

  lemma StepConserves(w: World, op: Op)
    requires Accounted(w) && SettingsOk(w.db.settings) && Admissible(w, op)
    ensures Accounted(Advance(w, op))
  {
    StepKeepsBooked(w, op);
    if Places(w.db, op) {
      PlacingConserves(w, op);
    } else if op.call.Tend? {
      TendingConserves(w, op);
    } else {
      OnlyCheckoutTakesStock(w.db, op);
      assert forall p | p in w.opening :: Balanced(w, p);
    }
  }

  lemma PlacingConserves(w: World, op: Op)
    requires Accounted(w) && Admissible(w, op) && Places(w.db, op)
    requires forall o | o in Advance(w, op).sequence :: o in Advance(w, op).placed
    ensures Conserved(Advance(w, op)) && OnlyListed(Advance(w, op))
  {
    var next := Advance(w, op);
    ProductsStay(w.db, op.call.lines, op.call.caller, op.call.order, op.at);
    PlacedItemsAreListed(w.db, op.call.lines, op.call.caller, op.call.order, op.at);
    forall p | p in w.opening
      ensures p in next.db.products && Balanced(next, p)
    {
      PlacingKeepsTheBalance(w, op, p);
    }
  }

  /** Listed products keep their account, and those listed now open one with nothing ordered. */
  lemma TendingConserves(w: World, op: Op)
    requires Accounted(w) && Admissible(w, op) && op.call.Tend?
    ensures Conserved(Advance(w, op)) && OnlyListed(Advance(w, op))
  {
    var next := Advance(w, op);
    assert next.db.products == op.call.catalogue && next.sequence == w.sequence && next.placed == w.placed;
    forall p | p in next.opening
      ensures p in next.db.products && Balanced(next, p)
    {
      if p in w.opening {
        assert Balanced(w, p);
      } else {
        NeverOrdered(w.sequence, w.placed, p);
      }
    }
  }

  lemma ProductsStay(db: Db, lines: seq<Line>, customer: User, order: Id, at: Time)
    requires CreateOrder(db, customer, lines, order, at).outcome.Done?
    ensures forall p | p in CreateOrder(db, customer, lines, order, at).db.products :: p in db.products
  {
    PlanTakesItsLinesFromStock(db.products, customer, lines);
  }

  /** Stock is conserved by every run. */
  lemma {:induction false} RunConserves(w: World, ops: seq<Op>)
    requires Accounted(w) && SettingsOk(w.db.settings) && IsRun(w, ops)
    ensures Accounted(After(w, ops))
    decreases |ops|
  {
    if ops != [] {
      StepConserves(w, ops[0]);
      StepKeepsSettings(w.db, ops[0]);
      RunConserves(Advance(w, ops[0]), ops[1..]);
    }
  }

  lemma EveryRunConserves(w: World, ops: seq<Op>)
    requires IsStart(w) && IsRun(w, ops)
    ensures Accounted(After(w, ops))
  {
    RunConserves(w, ops);
  }
}
