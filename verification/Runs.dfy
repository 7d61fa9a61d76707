/** Runs of the order service and the driver's delivery flow, one service call per step. */
module Runs {
  import opened Common
  import opened Checkout
  import opened Marketplace

  /** A lifecycle transition; row is the key a lazily created delivery would get. */
  datatype Move = Accept | Prepare | Send(row: Id) | Deliver | Confirm | Cancel

  /** A fulfilment choice; row is the key of the inserted row. */
  datatype Choice = SelfDeliver(row: Id) | AskForDriver(row: Id) | Assign(driver: Id)

  /** A call of the driver's delivery flow. */
  datatype Flow = DriverAccept(row: Id, plain: string) | SubmitCode(submitted: string) | Chat

  datatype Call =
    | Place(lines: seq<Line>, caller: User, order: Id)
    | Transition(move: Move, caller: User, order: Id)
    | Fulfil(choice: Choice, caller: User, order: Id)
    | Delete(caller: User, order: Id)
    | Purge(due: seq<Id>, expired: seq<Id>)
    | Configure(retentionDays: Option<int>, graceHours: Option<int>)
    | DriverFlow(flow: Flow, caller: User, order: Id)
    | Tend(catalogue: map<Id, Product>, sellers: map<Id, SellerRow>, drivers: set<Id>)

  /** A call and the clock it reads. */
  datatype Op = Op(call: Call, at: Time)

  function ApplyMove(db: Db, move: Move, caller: User, order: Id, at: Time): Step {
    match move
    case Accept => AcceptOrder(db, caller, order, at)
    case Prepare => MarkPreparing(db, caller, order, at)
    case Send(row) => SendOut(db, caller, order, row, at)
    case Deliver => MarkDelivered(db, caller, order, at)
    case Confirm => CompleteOrder(db, caller, order, at)
    case Cancel => CancelOrder(db, caller, order, at)
  }

  function ApplyChoice(db: Db, choice: Choice, caller: User, order: Id, at: Time): Step {
    match choice
    case SelfDeliver(row) => ChooseSelfDelivery(db, caller, order, row)
    case AskForDriver(row) => RequestDriver(db, caller, order, row, at)
    case Assign(driver) => AssignDriver(db, caller, order, driver, at)
  }

  function ApplyFlow(db: Db, flow: Flow, caller: User, order: Id, at: Time): Step {
    match flow
    case DriverAccept(row, plain) => FlowAccept(db, caller, order, row, plain, at)
    case SubmitCode(submitted) => FlowComplete(db, caller, order, submitted, at)
    case Chat => PostMessage(db, caller, order)
  }

  /** What the other services write: the catalogue, the seller profiles and who drives. */
  function Tended(db: Db, catalogue: map<Id, Product>, sellers: map<Id, SellerRow>, drivers: set<Id>): Db {
    db.(products := catalogue, sellers := sellers, activeDrivers := drivers)
  }

  function Apply(db: Db, op: Op): Step {
    match op.call
    case Place(lines, customer, order) => CreateOrder(db, customer, lines, order, op.at)
    case Transition(move, caller, order) => ApplyMove(db, move, caller, order, op.at)
    case Fulfil(choice, caller, order) => ApplyChoice(db, choice, caller, order, op.at)
    case Delete(caller, order) => DeleteOrder(db, caller, order, op.at)
    case Purge(due, expired) => RunPurge(db, due, expired, op.at)
    case Configure(days, hours) => UpdateSettings(db, days, hours)
    case DriverFlow(flow, caller, order) => ApplyFlow(db, flow, caller, order, op.at)
    case Tend(catalogue, sellers, drivers) => Step(Tended(db, catalogue, sellers, drivers), Done)
  }

  /**
   The tables together with what no table remembers: the stock each product was listed with, every order
   ever placed (as it was inserted, and in which sequence), and every order ever seen completed.
   */
  datatype World = World(
    db: Db, clock: Time, opening: map<Id, Option<nat>>,
    sequence: seq<Id>, placed: map<Id, Order>, completed: set<Id>)

  function CompletedIn(db: Db): set<Id> {
    set o | o in db.orders && db.orders[o].status == Completed
  }

  predicate FreshMove(db: Db, move: Move) {
    move.Send? ==> move.row !in db.deliveries
  }

  predicate FreshChoice(db: Db, choice: Choice) {
    match choice
    case SelfDeliver(row) => row !in db.deliveries
    case AskForDriver(row) => row !in db.assignments
    case Assign(_) => true
  }

  predicate FreshFlow(db: Db, flow: Flow) {
    flow.DriverAccept? ==> flow.row !in db.deliveries
  }

  /** Listed products stay listed and keep their stock; everything else about them may change, and new ones may come. */
  predicate KeepsStock(products: map<Id, Product>, catalogue: map<Id, Product>) {
    forall p | p in products :: p in catalogue && catalogue[p].stock == products[p].stock
  }

  /** Generated keys are new, the clock does not go back, and a purge works on rows its queries return. */
  predicate Admissible(w: World, op: Op) {
    && w.clock <= op.at
    && match op.call
       case Place(_, _, order) => order !in w.placed
       case Transition(move, _, _) => FreshMove(w.db, move)
       case Fulfil(choice, _, _) => FreshChoice(w.db, choice)
       case Purge(due, expired) => PurgeRows(w.db, due, expired, op.at)
       case DriverFlow(flow, _, _) => FreshFlow(w.db, flow)
       case Tend(catalogue, _, _) => KeepsStock(w.db.products, catalogue)
       case _ => true
  }

  predicate Places(db: Db, op: Op) {
    op.call.Place? && CreateOrder(db, op.call.caller, op.call.lines, op.call.order, op.at).outcome.Done?
  }

  /** Products listed later open with the stock they are listed with. */
  function Listed(opening: map<Id, Option<nat>>, products: map<Id, Product>): map<Id, Option<nat>> {
    map p | p in opening.Keys + products.Keys :: if p in opening then opening[p] else products[p].stock
  }

  function Advance(w: World, op: Op): World {
    var db := Apply(w.db, op).db;
    World(
      db, op.at, if op.call.Tend? then Listed(w.opening, op.call.catalogue) else w.opening,
      if Places(w.db, op) then w.sequence + [op.call.order] else w.sequence,
      if Places(w.db, op) then w.placed[op.call.order := db.orders[op.call.order]] else w.placed,
      w.completed + CompletedIn(db))
  }

  predicate IsRun(w: World, ops: seq<Op>)
    decreases |ops|
  {
    ops == [] || (Admissible(w, ops[0]) && IsRun(Advance(w, ops[0]), ops[1..]))
  }

  function After(w: World, ops: seq<Op>): World
    decreases |ops|
  {
    if ops == [] then w else After(Advance(w, ops[0]), ops[1..])
  }

  function StockColumn(products: map<Id, Product>): map<Id, Option<nat>> {
    map p | p in products :: products[p].stock
  }

  predicate SettingsOk(settings: Option<Settings>) {
    settings.Some? ==> settings.value.retentionDays >= 1 && settings.value.graceHours >= 1
  }

  /** Any catalogue, any settings the service accepts, and no orders yet. */
  predicate IsStart(w: World) {
    && w.db.orders == map[] && w.db.deliveries == map[] && w.db.assignments == map[]
    && w.db.ledger == [] && w.db.codes == map[] && w.db.attempts == map[] && w.db.messages == map[]
    && SettingsOk(w.db.settings)
    && w.opening == StockColumn(w.db.products)
    && w.sequence == [] && w.placed == map[] && w.completed == {}
  }
}
