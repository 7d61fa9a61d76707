/** The connection registry: two mutable indexes, topic to connections and connection to topics, that must agree. */
module Gateway {
  import opened Common
  import opened Fanout
  import opened Indexes
  import opened Fulfilment
  import opened Marketplace
  import opened Visibility

  /** A socket and what its connection follows; equal by identity. */
  class WSConnection {
    const user: User
    var conversations: set<Id>
    var deliveryOrders: set<Id>
    /** Whether the socket still takes text, and the text it took. */
    var alive: bool
    var inbox: seq<Event>

    constructor (user: User)
      ensures this.user == user && conversations == {} && deliveryOrders == {} && alive && inbox == []
    {
      this.user := user;
      conversations, deliveryOrders, alive, inbox := {}, {}, true, [];
    }

    /** _send_text: a failing send is swallowed. */
    method SendText(event: Event)
      modifies this`inbox
      ensures inbox == if alive then old(inbox) + [event] else old(inbox)
    {
      if alive {
        inbox := inbox + [event];
      }
    }
  }

  class ConnectionRegistry {
    var subs: Index<WSConnection>
    var deliverySubs: DeliveryIndex<WSConnection>
    /** Every connection accepted so far. */
    ghost var conns: set<WSConnection>

    ghost function ChatFollows(): Follows<WSConnection>
      reads this`conns, conns`conversations
    {
      map c | c in conns :: c.conversations
    }

    ghost function DeliveryFollows(): Follows<WSConnection>
      reads this`conns, conns`deliveryOrders
    {
      map c | c in conns :: c.deliveryOrders
    }

    ghost function Inboxes(): map<WSConnection, seq<Event>>
      reads this`conns, conns`inbox
    {
      map c | c in conns :: c.inbox
    }

    ghost function Users(): map<WSConnection, User>
      reads this`conns
    {
      map c | c in conns :: c.user
    }

    ghost function Alive(): set<WSConnection>
      reads this`conns, conns`alive
    {
      set c | c in conns && c.alive
    }

    /** The indexes agree and no empty topic is stored. */
    ghost predicate Valid()
      reads this, conns
    {
      Mirror(subs, ChatFollows()) && Mirror(Members(deliverySubs), DeliveryFollows())
    }

    /** The relation the indexes stand for. */
    ghost function View(): Net<WSConnection>
      reads this, conns
    {
      Net(Pairs(subs), Bucket(deliverySubs, ToInternal), Bucket(deliverySubs, ToCustomer),
          Inboxes(), Users(), Alive())
    }

    constructor ()
      ensures Valid() && View() == Silence() && conns == {}
    {
      subs, deliverySubs, conns := map[], map[], {};
    }

    /** Sockets and the delivery index are as they were. */
    twostate predicate OnlyChatsMoved()
      reads this, conns
    {
      && conns == old(conns) && deliverySubs == old(deliverySubs) && DeliveryFollows() == old(DeliveryFollows())
      && Inboxes() == old(Inboxes()) && Users() == old(Users()) && Alive() == old(Alive())
    }

    /** Sockets and the conversation index are as they were. */
    twostate predicate OnlyDeliveriesMoved()
      reads this, conns
    {
      && conns == old(conns) && subs == old(subs) && ChatFollows() == old(ChatFollows())
      && Inboxes() == old(Inboxes()) && Users() == old(Users()) && Alive() == old(Alive())
    }

    twostate predicate OnlyInboxesMoved()
      reads this, conns
    {
      && conns == old(conns) && subs == old(subs) && deliverySubs == old(deliverySubs)
      && ChatFollows() == old(ChatFollows()) && DeliveryFollows() == old(DeliveryFollows())
      && Users() == old(Users()) && Alive() == old(Alive())
    }

    // -------------------------------------------------------------------------
    // Messaging
    // -------------------------------------------------------------------------

    method Subscribe(conn: WSConnection, conversation: Id)
      requires Valid() && conn in conns
      modifies this`subs, conn`conversations
      ensures Valid() && View() == Fanout.Subscribe(old(View()), conn, conversation)
      ensures View().chats == old(View().chats) + {(conn, conversation)} && conversation in conn.conversations
    {
      PutAddsThePair(subs, ChatFollows(), conn, conversation);
      AddChat(conn, conversation);
    }

    method AddChat(conn: WSConnection, conversation: Id)
      requires conn in conns
      modifies this`subs, conn`conversations
      ensures subs == Put(old(subs), conn, conversation)
      ensures ChatFollows() == old(ChatFollows())[conn := old(conn.conversations) + {conversation}]
      ensures OnlyChatsMoved()
    {
      conn.conversations := conn.conversations + {conversation};
      var bucket := if conversation in subs then subs[conversation] else {};
      subs := subs[conversation := bucket + {conn}];
    }

    method Unsubscribe(conn: WSConnection, conversation: Id)
      requires Valid() && conn in conns
      modifies this`subs, conn`conversations
      ensures Valid() && View() == Fanout.Unsubscribe(old(View()), conn, conversation)
      ensures View().chats == old(View().chats) - {(conn, conversation)} && conversation !in conn.conversations
    {
      TakeDropsThePair(subs, ChatFollows(), conn, conversation);
      DropChat(conn, conversation);
    }

    method DropChat(conn: WSConnection, conversation: Id)
      requires conn in conns
      modifies this`subs, conn`conversations
      ensures subs == Take(old(subs), conn, conversation)
      ensures ChatFollows() == old(ChatFollows())[conn := old(conn.conversations) - {conversation}]
      ensures OnlyChatsMoved()
    {
      conn.conversations := conn.conversations - {conversation};
      DiscardSub(conn, conversation);
    }

    /** Discard the connection from the topic, and the topic when it is left empty. */
    method DiscardSub(conn: WSConnection, conversation: Id)
      modifies this`subs
      ensures subs == Take(old(subs), conn, conversation)
    {
      if conversation in subs {
        var bucket := subs[conversation] - {conn};
        if bucket == {} {
          subs := subs - {conversation};
        } else {
          subs := subs[conversation := bucket];
        }
      }
    }

    method SubscribersOf(conversation: Id) returns (receivers: set<WSConnection>)
      requires Valid()
      ensures receivers == Followers(View().chats, conversation) <= conns
    {
      receivers := if conversation in subs then subs[conversation] else {};
      assert forall c | c in receivers :: (c, conversation) in View().chats;
    }

    // -------------------------------------------------------------------------
    // Delivery
    // -------------------------------------------------------------------------

    method SubscribeDelivery(conn: WSConnection, order: Id, role: DeliveryRole)
      requires Valid() && conn in conns
      modifies this`deliverySubs, conn`deliveryOrders
      ensures Valid() && View() == Fanout.SubscribeDelivery(old(View()), conn, order, role)
      ensures match role
              case ToInternal => View().internal == old(View().internal) + {(conn, order)} && View().customer == old(View().customer)
              case ToCustomer => View().customer == old(View().customer) + {(conn, order)} && View().internal == old(View().internal)
    {
      PutInAddsThePair(deliverySubs, DeliveryFollows(), conn, order, role);
      AddDelivery(conn, order, role);
    }

    method AddDelivery(conn: WSConnection, order: Id, role: DeliveryRole)
      requires conn in conns
      modifies this`deliverySubs, conn`deliveryOrders
      ensures deliverySubs == PutIn(old(deliverySubs), conn, order, role)
      ensures DeliveryFollows() == old(DeliveryFollows())[conn := old(conn.deliveryOrders) + {order}]
      ensures OnlyDeliveriesMoved()
    {
      conn.deliveryOrders := conn.deliveryOrders + {order};
      var topic := if order in deliverySubs then deliverySubs[order] else Buckets({}, {});
      match role {
        case ToInternal => topic := topic.(internal := topic.internal + {conn});
        case ToCustomer => topic := topic.(customer := topic.customer + {conn});
      }
      deliverySubs := deliverySubs[order := topic];
    }

    method UnsubscribeDelivery(conn: WSConnection, order: Id)
      requires Valid() && conn in conns
      modifies this`deliverySubs, conn`deliveryOrders
      ensures Valid() && View() == Fanout.UnsubscribeDelivery(old(View()), conn, order)
      ensures View().internal == old(View().internal) - {(conn, order)}
      ensures View().customer == old(View().customer) - {(conn, order)}
    {
      TakeOutDropsThePairs(deliverySubs, DeliveryFollows(), conn, order, ToInternal);
      TakeOutDropsThePairs(deliverySubs, DeliveryFollows(), conn, order, ToCustomer);
      DropDelivery(conn, order);
    }

    method DropDelivery(conn: WSConnection, order: Id)
      requires conn in conns
      modifies this`deliverySubs, conn`deliveryOrders
      ensures deliverySubs == TakeOut(old(deliverySubs), conn, order)
      ensures DeliveryFollows() == old(DeliveryFollows())[conn := old(conn.deliveryOrders) - {order}]
      ensures OnlyDeliveriesMoved()
    {
      conn.deliveryOrders := conn.deliveryOrders - {order};
      DiscardDelivery(conn, order);
    }

    method DiscardDelivery(conn: WSConnection, order: Id)
      modifies this`deliverySubs
      ensures deliverySubs == TakeOut(old(deliverySubs), conn, order)
    {
      if order in deliverySubs {
        var topic := Buckets(deliverySubs[order].internal - {conn}, deliverySubs[order].customer - {conn});
        if topic.internal == {} && topic.customer == {} {
          deliverySubs := deliverySubs - {order};
        } else {
          deliverySubs := deliverySubs[order := topic];
        }
      }
    }

    method DeliveryInternalSubscribers(order: Id) returns (receivers: set<WSConnection>)
      requires Valid()
      ensures receivers == Followers(View().internal, order) <= conns
    {
      receivers := if order in deliverySubs then deliverySubs[order].internal else {};
      assert forall c | c in receivers :: (c, order) in Bucket(deliverySubs, ToInternal);
      assert forall c | c in receivers :: c in Members(deliverySubs)[order];
    }

    method DeliveryCustomerSubscribers(order: Id) returns (receivers: set<WSConnection>)
      requires Valid()
      ensures receivers == Followers(View().customer, order) <= conns
    {
      receivers := if order in deliverySubs then deliverySubs[order].customer else {};
      assert forall c | c in receivers :: (c, order) in Bucket(deliverySubs, ToCustomer);
      assert forall c | c in receivers :: c in Members(deliverySubs)[order];
    }

    // -------------------------------------------------------------------------
    // Disconnect
    // -------------------------------------------------------------------------

    method DisconnectAll(conn: WSConnection)
      requires Valid() && conn in conns
      modifies this`subs, this`deliverySubs, conn`conversations, conn`deliveryOrders
      ensures Valid() && View() == Fanout.DisconnectAll(old(View()), conn)
      ensures conn.conversations == {} && conn.deliveryOrders == {}
      ensures OnlyLeft(conn)
    {
      TakeAllDropsTheConnection(subs, ChatFollows(), conn);
      TakeOutAllDropsTheConnection(deliverySubs, DeliveryFollows(), conn, ToInternal);
      TakeOutAllDropsTheConnection(deliverySubs, DeliveryFollows(), conn, ToCustomer);
      LeaveConversations(conn);
      LeaveDeliveries(conn);
      LeavingIsAll(old(subs), subs, old(deliverySubs), deliverySubs, conn);
    }

    /** In no bucket any more, while every other connection is in the buckets it was in and follows what it followed. */
    twostate predicate OnlyLeft(conn: WSConnection)
      reads this, conns
    {
      && (forall t | t in subs :: !Has(subs, t, conn))
      && (forall o | o in deliverySubs ::
            !Has(BucketOf(deliverySubs, ToInternal), o, conn) && !Has(BucketOf(deliverySubs, ToCustomer), o, conn))
      && (forall c | c in old(conns) && c != conn :: forall t | t in old(subs).Keys + subs.Keys ::
            Has(subs, t, c) <==> Has(old(subs), t, c))
      && (forall c, role | c in old(conns) && c != conn :: forall o | o in old(deliverySubs).Keys + deliverySubs.Keys ::
            Has(BucketOf(deliverySubs, role), o, c) <==> Has(BucketOf(old(deliverySubs), role), o, c))
    }

    method LeaveConversations(conn: WSConnection)
      requires conn in conns
      modifies this`subs, conn`conversations
      ensures subs == TakeAll(old(subs), conn, old(conn.conversations))
      ensures ChatFollows() == old(ChatFollows())[conn := {}]
      ensures OnlyChatsMoved()
    {
      var left := conn.conversations;
      assert conn.conversations - left == {};
      while left != {}
        invariant left <= conn.conversations == old(conn.conversations)
        invariant subs == TakeAll(old(subs), conn, conn.conversations - left)
      {
        var t :| t in left;
        TakeAllOneMore(old(subs), conn, conn.conversations - left, t);
        assert conn.conversations - (left - {t}) == conn.conversations - left + {t};
        left := left - {t};
        DiscardSub(conn, t);
      }
      assert conn.conversations - {} == conn.conversations;
      conn.conversations := {};
    }

    method LeaveDeliveries(conn: WSConnection)
      requires conn in conns
      modifies this`deliverySubs, conn`deliveryOrders
      ensures deliverySubs == TakeOutAll(old(deliverySubs), conn, old(conn.deliveryOrders))
      ensures DeliveryFollows() == old(DeliveryFollows())[conn := {}]
      ensures OnlyDeliveriesMoved()
    {
      var left := conn.deliveryOrders;
      assert conn.deliveryOrders - left == {};
      while left != {}
        invariant left <= conn.deliveryOrders == old(conn.deliveryOrders)
        invariant deliverySubs == TakeOutAll(old(deliverySubs), conn, conn.deliveryOrders - left)
      {
        var o :| o in left;
        TakeOutAllOneMore(old(deliverySubs), conn, conn.deliveryOrders - left, o);
        assert conn.deliveryOrders - (left - {o}) == conn.deliveryOrders - left + {o};
        left := left - {o};
        DiscardDelivery(conn, o);
      }
      assert conn.deliveryOrders - {} == conn.deliveryOrders;
      conn.deliveryOrders := {};
    }

    // -------------------------------------------------------------------------
    // Broadcasts
    // -------------------------------------------------------------------------

    method SendToEach(receivers: set<WSConnection>, event: Event)
      requires Valid() && receivers <= conns
      modifies receivers`inbox
      ensures Valid() && View() == Send(old(View()), receivers, event)
      ensures forall c | c in conns :: c.inbox == old(c.inbox) + (if c in receivers && c.alive then [event] else [])
    {
      DeliverToEach(receivers, event);
    }

    method SendToBoth(internal: set<WSConnection>, customer: set<WSConnection>, event: Event)
      requires Valid() && internal <= conns && customer <= conns
      modifies internal`inbox, customer`inbox
      ensures Valid() && View() == SendToBuckets(old(View()), internal, customer, event)
      ensures forall c | c in conns ::
                c.inbox == old(c.inbox) + (if c in internal && c.alive then [event] else [])
                                        + (if c in customer && c.alive then [event] else [])
    {
      SendToEach(internal, event);
      SendToEach(customer, event);
    }

    /** The for loop of every broadcaster over the list it took under the lock. */
    method DeliverToEach(receivers: set<WSConnection>, event: Event)
      requires receivers <= conns
      modifies receivers`inbox
      ensures Inboxes() == WithCopies(old(Inboxes()), receivers * old(Alive()), event)
      ensures forall c | c in conns :: c.inbox == old(c.inbox) + (if c in receivers && c.alive then [event] else [])
      ensures OnlyInboxesMoved()
    {
      CopyToEach(receivers, event);
      assert forall c | c in conns :: c in receivers * old(Alive()) <==> c in receivers && old(c.alive);
    }

    method CopyToEach(receivers: set<WSConnection>, event: Event)
      modifies receivers`inbox
      ensures forall c | c in receivers :: c.inbox == if c.alive then old(c.inbox) + [event] else old(c.inbox)
    {
      var left := receivers;
      while left != {}
        invariant left <= receivers
        invariant forall c | c in left :: c.inbox == old(c.inbox)
        invariant forall c | c in receivers - left :: c.inbox == if c.alive then old(c.inbox) + [event] else old(c.inbox)
      {
        var c :| c in left;
        c.SendText(event);
        left := left - {c};
      }
    }

    method BroadcastChat(conversation: Id, event: Event)
      requires Valid()
      modifies conns`inbox
      ensures Valid() && View() == Fanout.BroadcastChat(old(View()), conversation, event)
      ensures forall c | c in conns ::
                c.inbox == old(c.inbox) + (if (c, conversation) in View().chats && c.alive then [event] else [])
    {
      var receivers := SubscribersOf(conversation);
      SendToEach(receivers, event);
    }

    /** broadcast_delivery_location_internal. */
    method BroadcastLocation(order: Id, event: Event)
      requires Valid()
      modifies conns`inbox
      ensures Valid() && View() == Fanout.BroadcastLocation(old(View()), order, event)
      ensures forall c | c in conns ::
                c.inbox == old(c.inbox) + (if (c, order) in View().internal && c.alive then [event] else [])
    {
      var receivers := DeliveryInternalSubscribers(order);
      SendToEach(receivers, event);
    }

    /** broadcast_delivery_event_all. */
    method BroadcastAll(order: Id, event: Event)
      requires Valid()
      modifies conns`inbox
      ensures Valid() && View() == Fanout.BroadcastAll(old(View()), order, event)
      ensures forall c | c in conns ::
                c.inbox == old(c.inbox) + (if (c, order) in View().internal && c.alive then [event] else [])
                                        + (if (c, order) in View().customer && c.alive then [event] else [])
    {
      ghost var net := View();
      var internal := DeliveryInternalSubscribers(order);
      var customer := DeliveryCustomerSubscribers(order);
      SendToBoth(internal, customer, event);
      BroadcastsToItsBuckets(net, View(), order, internal, customer, event);
    }

    // -------------------------------------------------------------------------
    // The handler
    // -------------------------------------------------------------------------

    /** An authenticated socket is accepted. */
    method Accept(user: User) returns (conn: WSConnection)
      requires Valid()
      modifies this`conns
      ensures Valid() && fresh(conn) && conns == old(conns) + {conn} && conn.user == user
      ensures View() == Connect(old(View()), conn, user)
    {
      ghost var chats, deliveries := ChatFollows(), DeliveryFollows();
      conn := Enter(user);
      NewFollower(subs, chats, conn);
      NewFollower(Members(deliverySubs), deliveries, conn);
    }

    method Enter(user: User) returns (conn: WSConnection)
      modifies this`conns
      ensures fresh(conn) && conns == old(conns) + {conn} && conn.user == user
      ensures ChatFollows() == old(ChatFollows())[conn := {}] && DeliveryFollows() == old(DeliveryFollows())[conn := {}]
      ensures Inboxes() == old(Inboxes())[conn := []] && Users() == old(Users())[conn := user]
      ensures Alive() == old(Alive()) + {conn}
    {
      conn := new WSConnection(user);
      conns := conns + {conn};
      assert Users() == old(Users())[conn := user] && Alive() == old(Alive()) + {conn};
      assert Inboxes() == old(Inboxes())[conn := []];
    }

    /**
     A delivery subscribe: the caller's role on the order picks the bucket; no role, or a lookup that
     raises, ends the connection.
     */
    method HandleDeliverySubscribe(db: Db, conn: WSConnection, order: Id) returns (closed: bool)
      requires Valid() && conn in conns && OneDeliveryEach(db.deliveries)
      modifies this`subs, this`deliverySubs, conn`conversations, conn`deliveryOrders
      ensures Valid() && View() == Watch(old(View()), conn, order, db)
      ensures closed <==> GetOrder(db, conn.user, order).Err? || TwiceAssigned(db, conn.user, order)
      ensures closed ==> conn.conversations == {} && conn.deliveryOrders == {}
      ensures !closed ==>
                (conn, order) in (if conn.user.role == Customer then View().customer else View().internal)
    {
      ResolvedBucket(db, conn.user, order);
      var role := ResolveDeliveryRole(db, conn.user, order);
      if role.Err? || role.value.None? {
        DisconnectAll(conn);
        return true;
      }
      SubscribeDelivery(conn, order, role.value.value);
      closed := false;
    }
  }

  lemma LeavingIsAll<C>(
      subs: Index<C>, subs': Index<C>, topics: DeliveryIndex<C>, topics': DeliveryIndex<C>, conn: C)
    requires Pairs(subs') == Others(Pairs(subs), conn)
    requires forall role :: Bucket(topics', role) == Others(Bucket(topics, role), conn)
    ensures forall t :: !Has(subs', t, conn)
    ensures forall role, o :: !Has(BucketOf(topics', role), o, conn)
    ensures forall c, t | c != conn :: Has(subs', t, c) <==> Has(subs, t, c)
    ensures forall c, role, o | c != conn :: Has(BucketOf(topics', role), o, c) <==> Has(BucketOf(topics, role), o, c)
  {
    forall c, t
      ensures !Has(subs', t, conn) && (c != conn ==> (Has(subs', t, c) <==> Has(subs, t, c)))
    {
      DisconnectedIsNowhere(subs, subs', conn, t, c);
    }
    forall c, role, o
      ensures !Has(BucketOf(topics', role), o, conn)
      ensures c != conn ==> (Has(BucketOf(topics', role), o, c) <==> Has(BucketOf(topics, role), o, c))
    {
      BucketPairs(topics, role);
      BucketPairs(topics', role);
      DisconnectedIsNowhere(BucketOf(topics, role), BucketOf(topics', role), conn, o, c);
    }
  }

  lemma BroadcastsToItsBuckets<C>(
      before: Net<C>, after: Net<C>, order: Id, internal: set<C>, customer: set<C>, event: Event)
    requires internal == Followers(before.internal, order) && customer == Followers(before.customer, order)
    requires after == SendToBuckets(before, internal, customer, event)
    ensures after == Fanout.BroadcastAll(before, order, event)
  {
  }
}
