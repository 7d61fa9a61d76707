/** The two indexes of the connection registry as values: what one update of both does to the relation. */
module Indexes {
  import opened Common
  import opened Fanout

  /** Topic to its connections, and back. */
  type Index<!C(==)> = map<Id, set<C>>
  type Follows<!C(==)> = map<C, set<Id>>

  /** The two buckets of a delivery topic. */
  datatype Buckets<!C(==)> = Buckets(internal: set<C>, customer: set<C>)

  type DeliveryIndex<!C(==)> = map<Id, Buckets<C>>

  /** A connection is in a topic's bucket exactly when the topic is in its own set, and no topic is empty. */
  predicate Mirror<C(==)>(subs: Index<C>, follows: Follows<C>) {
    && (forall t | t in subs :: subs[t] != {})
    && (forall t | t in subs :: forall c | c in subs[t] :: c in follows && t in follows[c])
    && (forall c | c in follows :: forall t | t in follows[c] :: t in subs && c in subs[t])
  }

  function Pairs<C(==)>(subs: Index<C>): set<(C, Id)> {
    set t, c | t in subs && c in subs[t] :: (c, t)
  }

  function Put<C(==)>(subs: Index<C>, conn: C, topic: Id): Index<C> {
    subs[topic := (if topic in subs then subs[topic] else {}) + {conn}]
  }

  function Take<C(==)>(subs: Index<C>, conn: C, topic: Id): Index<C> {
    if topic !in subs then subs
    else if subs[topic] - {conn} == {} then subs - {topic}
    else subs[topic := subs[topic] - {conn}]
  }

  lemma NewFollower<C>(subs: Index<C>, follows: Follows<C>, conn: C)
    requires Mirror(subs, follows) && conn !in follows
    ensures Mirror(subs, follows[conn := {}])
  {
  }

  lemma PutAddsThePair<C>(subs: Index<C>, follows: Follows<C>, conn: C, topic: Id)
    requires Mirror(subs, follows) && conn in follows
    ensures Mirror(Put(subs, conn, topic), follows[conn := follows[conn] + {topic}])
    ensures Pairs(Put(subs, conn, topic)) == Pairs(subs) + {(conn, topic)}
  {
  }

  lemma TakeDropsThePair<C>(subs: Index<C>, follows: Follows<C>, conn: C, topic: Id)
    requires Mirror(subs, follows) && conn in follows
    ensures Mirror(Take(subs, conn, topic), follows[conn := follows[conn] - {topic}])
    ensures Pairs(Take(subs, conn, topic)) == Pairs(subs) - {(conn, topic)}
  {
    var rest, after := Take(subs, conn, topic), follows[conn := follows[conn] - {topic}];
    StillThere(subs, conn, topic);
    forall t, c | t in rest && c in rest[t]
      ensures c in after && t in after[c]
    {
      assert t in subs && c in subs[t];
    }
    forall c, t | c in after && t in after[c]
      ensures t in rest && c in rest[t]
    {
      assert t in follows[c] && t in subs && c in subs[t];
    }
  }

  lemma StillThere<C>(subs: Index<C>, conn: C, topic: Id)
    ensures forall t, c | t in subs && c in subs[t] && (c != conn || t != topic) ::
              t in Take(subs, conn, topic) && c in Take(subs, conn, topic)[t]
    ensures forall t, c | t in Take(subs, conn, topic) && c in Take(subs, conn, topic)[t] ::
              t in subs && c in subs[t] && (c != conn || t != topic)
  {
    var rest := Take(subs, conn, topic);
    forall t, c | t in subs && c in subs[t] && (c != conn || t != topic)
      ensures t in rest && c in rest[t]
    {
      if t == topic { assert c in subs[topic] - {conn}; }
    }
  }

  /** What the loop of disconnect_all leaves of the index. */
  function TakeAll<C(==)>(subs: Index<C>, conn: C, topics: set<Id>): Index<C> {
    map t | t in subs && (t in topics ==> subs[t] - {conn} != {}) ::
      if t in topics then subs[t] - {conn} else subs[t]
  }

  lemma TakeAllDropsTheConnection<C>(subs: Index<C>, follows: Follows<C>, conn: C)
    requires Mirror(subs, follows) && conn in follows
    ensures Mirror(TakeAll(subs, conn, follows[conn]), follows[conn := {}])
    ensures Pairs(TakeAll(subs, conn, follows[conn])) == Others(Pairs(subs), conn)
  {
    var rest, after := TakeAll(subs, conn, follows[conn]), follows[conn := {}];
    forall t, c | t in subs && c in subs[t] && c != conn
      ensures t in rest && c in rest[t]
    {
      assert c in subs[t] - {conn};
    }
    forall t, c | t in rest && c in rest[t]
      ensures t in subs && c in subs[t] && c != conn && c in after && t in after[c]
    {
      assert t in follows[c];
    }
    forall c, t | c in after && t in after[c]
      ensures t in rest && c in rest[t]
    {
      assert t in follows[c] && t in subs && c in subs[t];
    }
  }

  predicate Has<C(==)>(subs: Index<C>, topic: Id, conn: C) {
    topic in subs && conn in subs[topic]
  }

  /** What that means bucket by bucket: the connection is in none, everybody else where they were. */
  lemma DisconnectedIsNowhere<C>(before: Index<C>, after: Index<C>, conn: C, topic: Id, other: C)
    requires Pairs(after) == Others(Pairs(before), conn)
    ensures !Has(after, topic, conn)
    ensures other != conn ==> (Has(after, topic, other) <==> Has(before, topic, other))
  {
    assert Has(after, topic, conn) <==> (conn, topic) in Pairs(after);
    assert Has(after, topic, other) <==> (other, topic) in Pairs(after);
    assert Has(before, topic, other) <==> (other, topic) in Pairs(before);
  }

  function BucketOf<C(==)>(topics: DeliveryIndex<C>, role: DeliveryRole): Index<C> {
    map o | o in topics :: if role == ToInternal then topics[o].internal else topics[o].customer
  }

  lemma BucketPairs<C>(topics: DeliveryIndex<C>, role: DeliveryRole)
    ensures Pairs(BucketOf(topics, role)) == Bucket(topics, role)
  {
  }

  /** One more iteration of that loop. */
  lemma TakeAllOneMore<C>(subs: Index<C>, conn: C, topics: set<Id>, topic: Id)
    requires topic !in topics
    ensures TakeAll(subs, conn, topics + {topic}) == Take(TakeAll(subs, conn, topics), conn, topic)
  {
  }

  // ---------------------------------------------------------------------------
  // The delivery index
  // ---------------------------------------------------------------------------

  function Members<C(==)>(topics: DeliveryIndex<C>): Index<C> {
    map o | o in topics :: topics[o].internal + topics[o].customer
  }

  function Bucket<C(==)>(topics: DeliveryIndex<C>, role: DeliveryRole): set<(C, Id)> {
    if role == ToInternal then set o, c | o in topics && c in topics[o].internal :: (c, o)
    else set o, c | o in topics && c in topics[o].customer :: (c, o)
  }

  function PutIn<C(==)>(topics: DeliveryIndex<C>, conn: C, order: Id, role: DeliveryRole): DeliveryIndex<C> {
    var topic := if order in topics then topics[order] else Buckets({}, {});
    topics[order := if role == ToInternal then topic.(internal := topic.internal + {conn})
                    else topic.(customer := topic.customer + {conn})]
  }

  function Leaving<C(==)>(topic: Buckets<C>, conn: C): Buckets<C> {
    Buckets(topic.internal - {conn}, topic.customer - {conn})
  }

  function TakeOut<C(==)>(topics: DeliveryIndex<C>, conn: C, order: Id): DeliveryIndex<C> {
    if order !in topics then topics
    else if Leaving(topics[order], conn) == Buckets({}, {}) then topics - {order}
    else topics[order := Leaving(topics[order], conn)]
  }

  lemma PutInAddsThePair<C>(topics: DeliveryIndex<C>, follows: Follows<C>, conn: C, order: Id, role: DeliveryRole)
    requires Mirror(Members(topics), follows) && conn in follows
    ensures Mirror(Members(PutIn(topics, conn, order, role)), follows[conn := follows[conn] + {order}])
    ensures Bucket(PutIn(topics, conn, order, role), role) == Bucket(topics, role) + {(conn, order)}
    ensures Bucket(PutIn(topics, conn, order, role), Other(role)) == Bucket(topics, Other(role))
  {
    PutInMembers(topics, conn, order, role);
    PutAddsThePair(Members(topics), follows, conn, order);
    PutInBucket(topics, conn, order, role, role);
    PutInBucket(topics, conn, order, role, Other(role));
  }

  function Other(role: DeliveryRole): DeliveryRole {
    if role == ToInternal then ToCustomer else ToInternal
  }

  lemma PutInMembers<C>(topics: DeliveryIndex<C>, conn: C, order: Id, role: DeliveryRole)
    ensures Members(PutIn(topics, conn, order, role)) == Put(Members(topics), conn, order)
  {
    var topic := if order in topics then topics[order] else Buckets({}, {});
    var after := PutIn(topics, conn, order, role);
    assert after[order].internal + after[order].customer == topic.internal + topic.customer + {conn};
    assert topic.internal + topic.customer == if order in topics then Members(topics)[order] else {};
    assert forall o | o in topics && o != order :: after[o] == topics[o];
  }

  lemma PutInBucket<C>(topics: DeliveryIndex<C>, conn: C, order: Id, role: DeliveryRole, r: DeliveryRole)
    ensures Bucket(PutIn(topics, conn, order, role), r) == Bucket(topics, r) + (if r == role then {(conn, order)} else {})
  {
    var after := PutIn(topics, conn, order, role);
    assert forall o | o in topics && o != order :: after[o] == topics[o];
    if role == ToInternal {
      assert after[order].internal == (if order in topics then topics[order].internal else {}) + {conn};
      assert after[order].customer == (if order in topics then topics[order].customer else {});
    } else {
      assert after[order].customer == (if order in topics then topics[order].customer else {}) + {conn};
      assert after[order].internal == (if order in topics then topics[order].internal else {});
    }
  }

  lemma TakeOutDropsThePairs<C>(topics: DeliveryIndex<C>, follows: Follows<C>, conn: C, order: Id, role: DeliveryRole)
    requires Mirror(Members(topics), follows) && conn in follows
    ensures Mirror(Members(TakeOut(topics, conn, order)), follows[conn := follows[conn] - {order}])
    ensures Bucket(TakeOut(topics, conn, order), role) == Bucket(topics, role) - {(conn, order)}
  {
    TakeOutMembers(topics, conn, order);
    TakeDropsThePair(Members(topics), follows, conn, order);
    TakeOutBucket(topics, conn, order, role);
  }

  lemma TakeOutMembers<C>(topics: DeliveryIndex<C>, conn: C, order: Id)
    ensures Members(TakeOut(topics, conn, order)) == Take(Members(topics), conn, order)
  {
    if order in topics {
      var topic := topics[order];
      assert Members(topics)[order] - {conn} == Leaving(topic, conn).internal + Leaving(topic, conn).customer;
      assert Leaving(topic, conn) == Buckets({}, {}) <==> Members(topics)[order] - {conn} == {};
    }
  }

  lemma TakeOutBucket<C>(topics: DeliveryIndex<C>, conn: C, order: Id, role: DeliveryRole)
    ensures Bucket(TakeOut(topics, conn, order), role) == Bucket(topics, role) - {(conn, order)}
  {
    var rest := TakeOut(topics, conn, order);
    forall o, c | o in topics && (c != conn || o != order) && c in (if role == ToInternal then topics[o].internal else topics[o].customer)
      ensures (c, o) in Bucket(rest, role)
    {
      if o == order {
        assert c in (if role == ToInternal then Leaving(topics[o], conn).internal else Leaving(topics[o], conn).customer);
      }
    }
  }

  function TakeOutAll<C(==)>(topics: DeliveryIndex<C>, conn: C, orders: set<Id>): DeliveryIndex<C> {
    map o | o in topics && (o in orders ==> Leaving(topics[o], conn) != Buckets({}, {})) ::
      if o in orders then Leaving(topics[o], conn) else topics[o]
  }

  lemma TakeOutAllOneMore<C>(topics: DeliveryIndex<C>, conn: C, orders: set<Id>, order: Id)
    requires order !in orders
    ensures TakeOutAll(topics, conn, orders + {order}) == TakeOut(TakeOutAll(topics, conn, orders), conn, order)
  {
  }

  lemma TakeOutAllDropsTheConnection<C>(topics: DeliveryIndex<C>, follows: Follows<C>, conn: C, role: DeliveryRole)
    requires Mirror(Members(topics), follows) && conn in follows
    ensures Mirror(Members(TakeOutAll(topics, conn, follows[conn])), follows[conn := {}])
    ensures Bucket(TakeOutAll(topics, conn, follows[conn]), role) == Others(Bucket(topics, role), conn)
  {
    var orders := follows[conn];
    TakeOutAllMembers(topics, conn, orders);
    TakeAllDropsTheConnection(Members(topics), follows, conn);
    TakeOutAllBucket(topics, follows, conn, role);
  }

  lemma TakeOutAllMembers<C>(topics: DeliveryIndex<C>, conn: C, orders: set<Id>)
    ensures Members(TakeOutAll(topics, conn, orders)) == TakeAll(Members(topics), conn, orders)
  {
    forall o | o in topics
      ensures Members(topics)[o] - {conn} == Leaving(topics[o], conn).internal + Leaving(topics[o], conn).customer
      ensures Leaving(topics[o], conn) == Buckets({}, {}) <==> Members(topics)[o] - {conn} == {}
    {
    }
  }

  lemma TakeOutAllBucket<C>(topics: DeliveryIndex<C>, follows: Follows<C>, conn: C, role: DeliveryRole)
    requires Mirror(Members(topics), follows) && conn in follows
    ensures Bucket(TakeOutAll(topics, conn, follows[conn]), role) == Others(Bucket(topics, role), conn)
  {
    var orders := follows[conn];
    var rest := TakeOutAll(topics, conn, orders);
    forall c, o | (c, o) in Bucket(topics, role) && c != conn
      ensures (c, o) in Bucket(rest, role)
    {
      assert c in (if role == ToInternal then Leaving(topics[o], conn).internal else Leaving(topics[o], conn).customer);
    }
    forall c, o | (c, o) in Bucket(rest, role)
      ensures (c, o) in Bucket(topics, role) && c != conn
    {
      assert c in Members(topics)[o];
    }
  }
}
