/**
 The fanout of events to sockets as a plain relation: which connection follows which topic, in which
 bucket, and what every connection has received.  Gateway.dfy holds the indexes that refine it.
 */
module Fanout {
  import opened Common
  import opened Fulfilment
  import opened Marketplace
  import opened Visibility

  datatype DeliveryRole = ToInternal | ToCustomer

  /** Location events carry coordinates; status and eta events do not. */
  datatype Event = Chat(conversation: Id, body: string) | Location(order: Id, body: string) | Progress(order: Id, body: string)

  /**
   chats, internal and customer relate connections to topics; inbox holds what was sent to a connection,
   user the account it authenticated as, and alive the connections whose socket still takes text.
   */
  datatype Net<!C(==)> = Net(
    chats: set<(C, Id)>, internal: set<(C, Id)>, customer: set<(C, Id)>,
    inbox: map<C, seq<Event>>, user: map<C, User>, alive: set<C>)

  // ---------------------------------------------------------------------------
  // The bucket of a subscriber
  // ---------------------------------------------------------------------------

  /** _resolve_delivery_role. */
  function ResolveDeliveryRole(db: Db, user: User, order: Id): Result<Option<DeliveryRole>> {
    if order !in db.orders || db.orders[order].deletedAt.Some? then Ok(None)
    else
      var role := ResolveRole(db, user, order);
      if role.Err? then Err(role.error)
      else if role.value == AsNobody then Ok(None)
      else if role.value == AsCustomer then Ok(Some(ToCustomer))
      else Ok(Some(ToInternal))
  }

  /** Callers who may see the order get the bucket of their own role, and nobody else gets one. */
  lemma ResolvedBucket(db: Db, user: User, order: Id)
    requires OneDeliveryEach(db.deliveries)
    ensures ResolveDeliveryRole(db, user, order) ==
              if order in db.orders && db.orders[order].deletedAt.None? && TwiceAssigned(db, user, order)
              then Err(MultipleResultsFound)
              else if GetOrder(db, user, order).Err? then Ok(None)
              else Ok(Some(if user.role == Customer then ToCustomer else ToInternal))
    ensures order in db.orders && db.orders[order].deletedAt.None? && TwiceAssigned(db, user, order) ==>
              GetOrder(db, user, order).Ok?
  {
    if order in db.orders && db.orders[order].deletedAt.None? {
      TrackedExactlyWhenFetched(db, user, order);
      if ResolveRole(db, user, order).Ok? {
        InternalMeansNotACustomer(db, user, order);
      }
    }
  }

  // ---------------------------------------------------------------------------
  // The operations on the relation
  // ---------------------------------------------------------------------------

  function Connect<C(==)>(net: Net<C>, conn: C, user: User): Net<C> {
    net.(inbox := net.inbox[conn := []], user := net.user[conn := user], alive := net.alive + {conn})
  }

  function Subscribe<C(==)>(net: Net<C>, conn: C, topic: Id): Net<C> {
    net.(chats := net.chats + {(conn, topic)})
  }

  function Unsubscribe<C(==)>(net: Net<C>, conn: C, topic: Id): Net<C> {
    net.(chats := net.chats - {(conn, topic)})
  }

  function SubscribeDelivery<C(==)>(net: Net<C>, conn: C, order: Id, role: DeliveryRole): Net<C> {
    match role
    case ToInternal => net.(internal := net.internal + {(conn, order)})
    case ToCustomer => net.(customer := net.customer + {(conn, order)})
  }

  function UnsubscribeDelivery<C(==)>(net: Net<C>, conn: C, order: Id): Net<C> {
    net.(internal := net.internal - {(conn, order)}, customer := net.customer - {(conn, order)})
  }

  function Others<C(==)>(pairs: set<(C, Id)>, conn: C): set<(C, Id)> {
    set p | p in pairs && p.0 != conn
  }

  function DisconnectAll<C(==)>(net: Net<C>, conn: C): Net<C> {
    net.(chats := Others(net.chats, conn), internal := Others(net.internal, conn), customer := Others(net.customer, conn))
  }

  /** A delivery subscribe: the caller's role on the order picks the bucket; without one the connection ends. */
  function Watch<C(==)>(net: Net<C>, conn: C, order: Id, db: Db): Net<C>
    requires conn in net.user
  {
    var role := ResolveDeliveryRole(db, net.user[conn], order);
    if role.Ok? && role.value.Some? then SubscribeDelivery(net, conn, order, role.value.value)
    else DisconnectAll(net, conn)
  }

  function Followers<C(==)>(pairs: set<(C, Id)>, topic: Id): set<C> {
    set p | p in pairs && p.1 == topic :: p.0
  }

  /** One copy to each receiver whose socket is alive; a dead socket drops it silently. */
  function Send<C(==)>(net: Net<C>, receivers: set<C>, event: Event): Net<C> {
    net.(inbox := WithCopies(net.inbox, receivers * net.alive, event))
  }

  function WithCopies<C(==)>(inbox: map<C, seq<Event>>, receivers: set<C>, event: Event): map<C, seq<Event>> {
    map c | c in inbox :: if c in receivers then inbox[c] + [event] else inbox[c]
  }

  function BroadcastChat<C(==)>(net: Net<C>, topic: Id, event: Event): Net<C> {
    Send(net, Followers(net.chats, topic), event)
  }

  function BroadcastLocation<C(==)>(net: Net<C>, order: Id, event: Event): Net<C> {
    Send(net, Followers(net.internal, order), event)
  }

  function BroadcastAll<C(==)>(net: Net<C>, order: Id, event: Event): Net<C> {
    SendToBuckets(net, Followers(net.internal, order), Followers(net.customer, order), event)
  }

  /** First one list, then the other: a connection on both would get two copies. */
  function SendToBuckets<C(==)>(net: Net<C>, internal: set<C>, customer: set<C>, event: Event): Net<C> {
    Send(Send(net, internal, event), customer, event)
  }

  // ---------------------------------------------------------------------------
  // Runs
  // ---------------------------------------------------------------------------

  datatype Op<!C(==)> =
    | OpConnect(conn: C, user: User)
    | OpSubscribe(conn: C, topic: Id)
    | OpUnsubscribe(conn: C, topic: Id)
    | OpWatch(conn: C, topic: Id, db: Db)  // db as the handler's session finds it
    | OpUnwatch(conn: C, topic: Id)
    | OpDisconnect(conn: C)
    | OpDrop(conn: C)  // the peer goes away; the socket takes no more text
    | OpChat(topic: Id, body: string)
    | OpLocation(topic: Id, body: string)
    | OpProgress(topic: Id, body: string)

  function Apply<C(==)>(net: Net<C>, op: Op<C>): Net<C>
    requires Admissible(net, op)
  {
    match op
    case OpConnect(conn, user) => Connect(net, conn, user)
    case OpSubscribe(conn, topic) => Subscribe(net, conn, topic)
    case OpUnsubscribe(conn, topic) => Unsubscribe(net, conn, topic)
    case OpWatch(conn, topic, db) => Watch(net, conn, topic, db)
    case OpUnwatch(conn, topic) => UnsubscribeDelivery(net, conn, topic)
    case OpDisconnect(conn) => DisconnectAll(net, conn)
    case OpDrop(conn) => net.(alive := net.alive - {conn})
    case OpChat(topic, body) => BroadcastChat(net, topic, Chat(topic, body))
    case OpLocation(topic, body) => BroadcastLocation(net, topic, Location(topic, body))
    case OpProgress(topic, body) => BroadcastAll(net, topic, Progress(topic, body))
  }

  /** A new connection is new and the others are known; the database keeps one delivery per order. */
  predicate Admissible<C(==)>(net: Net<C>, op: Op<C>) {
    match op
    case OpConnect(conn, _) => conn !in net.inbox
    case OpSubscribe(conn, _) => conn in net.inbox
    case OpWatch(conn, _, db) => conn in net.user && OneDeliveryEach(db.deliveries)
    case _ => true
  }

  predicate IsRun<C(==)>(net: Net<C>, ops: seq<Op<C>>)
    decreases |ops|
  {
    ops == [] || (Admissible(net, ops[0]) && IsRun(Apply(net, ops[0]), ops[1..]))
  }

  function After<C(==)>(net: Net<C>, ops: seq<Op<C>>): Net<C>
    requires IsRun(net, ops)
    decreases |ops|
  {
    if ops == [] then net else After(Apply(net, ops[0]), ops[1..])
  }

  function Silence<C(==)>(): Net<C> {
    Net({}, {}, {}, map[], map[], {})
  }

  // ---------------------------------------------------------------------------
  // What every run keeps
  // ---------------------------------------------------------------------------

  /** A connection is in the bucket of its role, so never in both. */
  predicate Partitioned<C(==)>(net: Net<C>) {
    && (forall p | p in net.internal :: p.0 in net.user && net.user[p.0].role != Customer)
    && (forall p | p in net.customer :: p.0 in net.user && net.user[p.0].role == Customer)
  }

  /** No connection authenticated as a customer has been sent coordinates. */
  predicate NoLeak<C(==)>(net: Net<C>) {
    forall c, k | c in net.inbox && c in net.user && net.user[c].role == Customer && 0 <= k < |net.inbox[c]| ::
      !net.inbox[c][k].Location?
  }

  predicate Known<C(==)>(net: Net<C>) {
    && (forall c | c in net.user :: c in net.inbox)
    && (forall c | c in net.inbox :: c in net.user)
    && (forall p | p in net.chats :: p.0 in net.inbox)
  }

  predicate Safe<C(==)>(net: Net<C>) {
    Known(net) && Partitioned(net) && NoLeak(net)
  }

  lemma SendingIsSafe<C>(net: Net<C>, receivers: set<C>, event: Event)
    requires Safe(net)
    requires event.Location? ==> forall c | c in receivers && c in net.user :: net.user[c].role != Customer
    ensures Safe(Send(net, receivers, event))
  {
    var after := Send(net, receivers, event);
    forall c, k | c in after.inbox && after.user[c].role == Customer && 0 <= k < |after.inbox[c]|
      ensures !after.inbox[c][k].Location?
    {
      if k < |net.inbox[c]| {
        assert !net.inbox[c][k].Location?;
      }
    }
  }

  lemma StepIsSafe<C>(net: Net<C>, op: Op<C>)
    requires Safe(net) && Admissible(net, op)
    ensures Safe(Apply(net, op))
  {
    match op
    case OpChat(topic, body) => SendingIsSafe(net, Followers(net.chats, topic), Chat(topic, body));
    case OpLocation(topic, body) => SendingIsSafe(net, Followers(net.internal, topic), Location(topic, body));
    case OpProgress(topic, body) =>
      SendingIsSafe(net, Followers(net.internal, topic), Progress(topic, body));
      SendingIsSafe(Send(net, Followers(net.internal, topic), Progress(topic, body)),
                    Followers(net.customer, topic), Progress(topic, body));
    case OpWatch(conn, topic, db) => ResolvedBucket(db, net.user[conn], topic);
    case _ =>
  }

  lemma {:induction false} RunIsSafe<C>(net: Net<C>, ops: seq<Op<C>>)
    requires Safe(net) && IsRun(net, ops)
    ensures Safe(After(net, ops))
    decreases |ops|
  {
    if ops != [] {
      StepIsSafe(net, ops[0]);
      RunIsSafe(Apply(net, ops[0]), ops[1..]);
    }
  }

  /** No run whatever sends coordinates to a customer's connection. */
  lemma NoRunLeaksALocation<C>(ops: seq<Op<C>>, conn: C, k: nat)
    requires IsRun(Silence(), ops)
    ensures var net := After(Silence(), ops);
            conn in net.inbox && conn in net.user && net.user[conn].role == Customer && k < |net.inbox[conn]| ==>
              !net.inbox[conn][k].Location?
  {
    RunIsSafe(Silence(), ops);
  }

  /** What one call puts into the inbox of a known connection: an event of a topic it follows, while its socket is alive. */
  function Heard<C(==)>(net: Net<C>, op: Op<C>, conn: C): seq<Event> {
    if conn !in net.alive then []
    else
      match op
      case OpChat(topic, body) => if (conn, topic) in net.chats then [Chat(topic, body)] else []
      case OpLocation(topic, body) => if (conn, topic) in net.internal then [Location(topic, body)] else []
      case OpProgress(topic, body) =>
        if (conn, topic) in net.internal || (conn, topic) in net.customer then [Progress(topic, body)] else []
      case _ => []
  }

  function HeardInAll<C(==)>(net: Net<C>, ops: seq<Op<C>>, conn: C): seq<Event>
    requires IsRun(net, ops)
    decreases |ops|
  {
    if ops == [] then [] else Heard(net, ops[0], conn) + HeardInAll(Apply(net, ops[0]), ops[1..], conn)
  }

  /** Every event reaches each live follower of its topic exactly once, and nobody else. */
  lemma StepIsHeard<C>(net: Net<C>, op: Op<C>, conn: C)
    requires Safe(net) && Admissible(net, op) && conn in net.inbox
    ensures conn in Apply(net, op).inbox && Apply(net, op).inbox[conn] == net.inbox[conn] + Heard(net, op, conn)
  {
    match op
    case OpChat(topic, _) => assert conn in Followers(net.chats, topic) <==> (conn, topic) in net.chats;
    case OpLocation(topic, _) => assert conn in Followers(net.internal, topic) <==> (conn, topic) in net.internal;
    case OpProgress(topic, _) =>
      assert conn in Followers(net.internal, topic) <==> (conn, topic) in net.internal;
      assert conn in Followers(net.customer, topic) <==> (conn, topic) in net.customer;
    case _ =>
  }

  lemma Appending(a: seq<Event>, b: seq<Event>, c: seq<Event>)
    ensures a + b + c == a + (b + c)
  {
  }

  /** Over every run a connection receives, in order, exactly the events of the topics it followed when they were sent. */
  lemma {:induction false} RunIsHeard<C>(net: Net<C>, ops: seq<Op<C>>, conn: C)
    requires Safe(net) && IsRun(net, ops) && conn in net.inbox
    ensures conn in After(net, ops).inbox && After(net, ops).inbox[conn] == net.inbox[conn] + HeardInAll(net, ops, conn)
    decreases |ops|
  {
    if ops != [] {
      var next := Apply(net, ops[0]);
      StepIsHeard(net, ops[0], conn);
      StepIsSafe(net, ops[0]);
      RunIsHeard(next, ops[1..], conn);
      Appending(net.inbox[conn], Heard(net, ops[0], conn), HeardInAll(next, ops[1..], conn));
    }
  }

  /** After every run a progress event reaches each live follower of the order exactly once, and nobody else. */
  lemma EachFollowerGetsOneCopy<C>(ops: seq<Op<C>>, order: Id, body: string, conn: C)
    requires IsRun(Silence(), ops) && conn in After(Silence(), ops).inbox
    ensures var net := After(Silence(), ops);
            var follows := (conn, order) in net.internal || (conn, order) in net.customer;
            && !((conn, order) in net.internal && (conn, order) in net.customer)
            && Apply(net, OpProgress(order, body)).inbox[conn] ==
               net.inbox[conn] + (if follows && conn in net.alive then [Progress(order, body)] else [])
  {
    var net := After(Silence(), ops);
    RunIsSafe(Silence(), ops);
    StepIsHeard(net, OpProgress(order, body), conn);
  }

  /** A location reaches the live internal followers of its order, a chat event those of its conversation, after any run. */
  lemma EventsReachTheirFollowers<C>(ops: seq<Op<C>>, topic: Id, body: string, conn: C)
    requires IsRun(Silence(), ops) && conn in After(Silence(), ops).inbox
    ensures var net := After(Silence(), ops);
            && Apply(net, OpLocation(topic, body)).inbox[conn] ==
               net.inbox[conn] + (if (conn, topic) in net.internal && conn in net.alive then [Location(topic, body)] else [])
            && Apply(net, OpChat(topic, body)).inbox[conn] ==
               net.inbox[conn] + (if (conn, topic) in net.chats && conn in net.alive then [Chat(topic, body)] else [])
  {
    var net := After(Silence(), ops);
    RunIsSafe(Silence(), ops);
    StepIsHeard(net, OpLocation(topic, body), conn);
    StepIsHeard(net, OpChat(topic, body), conn);
  }

  /** Who watches an order is told where it is: the seller, an admin or the driver who subscribes hears the next location. */
  lemma WatchersHearLocations<C>(net: Net<C>, conn: C, order: Id, db: Db, body: string)
    requires Safe(net) && conn in net.inbox && conn in net.alive && OneDeliveryEach(db.deliveries)
    requires GetOrder(db, net.user[conn], order).Ok? && !TwiceAssigned(db, net.user[conn], order)
    ensures var watched := Apply(net, OpWatch(conn, order, db));
            && conn in Apply(watched, OpLocation(order, body)).inbox && conn in Apply(watched, OpProgress(order, body)).inbox
            && Apply(watched, OpLocation(order, body)).inbox[conn]
               == net.inbox[conn] + (if net.user[conn].role == Customer then [] else [Location(order, body)])
            && Apply(watched, OpProgress(order, body)).inbox[conn] == net.inbox[conn] + [Progress(order, body)]
  {
    var watched := Apply(net, OpWatch(conn, order, db));
    ResolvedBucket(db, net.user[conn], order);
    StepIsSafe(net, OpWatch(conn, order, db));
    StepIsHeard(net, OpWatch(conn, order, db), conn);
    StepIsHeard(watched, OpLocation(order, body), conn);
    StepIsHeard(watched, OpProgress(order, body), conn);
  }

  /** Subscribing and unsubscribing again restores a relation the connection was not in. */
  lemma UnsubscribeUndoesSubscribe<C>(net: Net<C>, conn: C, topic: Id, role: DeliveryRole)
    ensures (conn, topic) !in net.chats ==> Unsubscribe(Subscribe(net, conn, topic), conn, topic) == net
    ensures (conn, topic) !in net.internal && (conn, topic) !in net.customer ==>
              UnsubscribeDelivery(SubscribeDelivery(net, conn, topic, role), conn, topic) == net
  {
    if (conn, topic) !in net.chats {
      assert net.chats + {(conn, topic)} - {(conn, topic)} == net.chats;
    }
    if (conn, topic) !in net.internal && (conn, topic) !in net.customer {
      var back := UnsubscribeDelivery(SubscribeDelivery(net, conn, topic, role), conn, topic);
      assert back.internal == net.internal && back.customer == net.customer;
    }
  }
}
