/** The arithmetic of create_order: duplicate lines, stock, prices and order items. */
module Checkout {
  import opened Common

  /** A line's quantity, positive by the request schema. */
  type Quantity = q: int | 0 < q witness 1

  datatype Line = Line(product: Id, quantity: Quantity)

  /** stock == None is unlimited stock. */
  datatype Product = Product(
    seller: Id, store: Id, name: string, price: int, stock: Option<nat>, isActive: bool, deleted: bool)

  datatype OrderItem = OrderItem(product: Id, name: string, unitPrice: int, quantity: nat)

  /** What an accepted checkout writes: the updated product rows and the new order's columns. */
  datatype Plan = Plan(
    seller: Id, store: Id, subtotal: int, items: seq<OrderItem>, products: map<Id, Product>)

  // ---------------------------------------------------------------------------
  // Aggregation
  // ---------------------------------------------------------------------------

  function ProductIds(lines: seq<Line>): set<Id> {
    set line | line in lines :: line.product
  }

  /** How much of one product the lines ask for together. */
  function Ordered(lines: seq<Line>, product: Id): nat {
    if lines == [] then 0
    else
      var last := lines[|lines| - 1];
      Ordered(lines[..|lines| - 1], product) + (if last.product == product then last.quantity else 0)
  }

  /** The products in the order a dictionary filled from the lines lists them. */
  function FirstSeen(lines: seq<Line>): seq<Id> {
    if lines == [] then []
    else
      var seen := FirstSeen(lines[..|lines| - 1]);
      var product := lines[|lines| - 1].product;
      if product in seen then seen else seen + [product]
  }

  function Aggregated(lines: seq<Line>): map<Id, nat> {
    map product | product in ProductIds(lines) :: Ordered(lines, product)
  }

  lemma {:induction false} FirstSeenIsDistinct(lines: seq<Line>)
    ensures Distinct(FirstSeen(lines))
    ensures Elements(FirstSeen(lines)) == ProductIds(lines)
  {
    if lines != [] {
      var init, last := lines[..|lines| - 1], lines[|lines| - 1];
      FirstSeenIsDistinct(init);
      assert lines == init + [last];
      assert ProductIds(lines) == ProductIds(init) + {last.product};
      var seen := FirstSeen(init);
      assert forall p :: p in seen <==> p in ProductIds(init) by {
        assert forall p :: p in seen <==> p in Elements(seen);
      }
    }
  }

  lemma {:induction false} NothingOrdered(lines: seq<Line>, product: Id)
    ensures Ordered(lines, product) == 0 <==> product !in ProductIds(lines)
  {
    if lines != [] {
      var init, last := lines[..|lines| - 1], lines[|lines| - 1];
      assert lines == init + [last];
      assert ProductIds(lines) == ProductIds(init) + {last.product};
      NothingOrdered(init, product);
    }
  }

  /** One more line adds its product to the keys and its quantity to that product. */
  lemma OneMoreSeen(lines: seq<Line>)
    requires lines != []
    ensures var init, line := lines[..|lines| - 1], lines[|lines| - 1];
            && ProductIds(lines) == ProductIds(init) + {line.product}
            && FirstSeen(lines) == (if line.product in ProductIds(init) then FirstSeen(init) else FirstSeen(init) + [line.product])
            && (line.product !in ProductIds(init) ==> Ordered(init, line.product) == 0)
  {
    var init, line := lines[..|lines| - 1], lines[|lines| - 1];
    assert lines == init + [line];
    FirstSeenIsDistinct(init);
    assert line.product in FirstSeen(init) <==> line.product in Elements(FirstSeen(init));
    NothingOrdered(init, line.product);
  }

  /** The quantities so far, product by product. */
  predicate Counts(quantities: map<Id, nat>, lines: seq<Line>) {
    && quantities.Keys == ProductIds(lines)
    && forall p | p in quantities :: quantities[p] == Ordered(lines, p)
  }

  lemma OneMoreCounted(quantities: map<Id, nat>, lines: seq<Line>)
    requires lines != [] && Counts(quantities, lines[..|lines| - 1])
    ensures var line := lines[|lines| - 1];
            var soFar := if line.product in quantities then quantities[line.product] else 0;
            Counts(quantities[line.product := soFar + line.quantity], lines)
  {
    OneMoreSeen(lines);
  }

  /** The dictionary after some lines: its keys in insertion order and its values. */
  predicate Filled(keys: seq<Id>, quantities: map<Id, nat>, lines: seq<Line>) {
    keys == FirstSeen(lines) && Counts(quantities, lines)
  }

  lemma OneMoreFilled(keys: seq<Id>, quantities: map<Id, nat>, lines: seq<Line>, i: nat)
    requires i < |lines| && Filled(keys, quantities, lines[..i])
    ensures var product := lines[i].product;
            var soFar := if product in quantities then quantities[product] else 0;
            Filled(if product in quantities then keys else keys + [product],
                   quantities[product := soFar + lines[i].quantity],
                   lines[..i + 1])
  {
    assert lines[..i + 1][..i] == lines[..i];
    OneMoreSeen(lines[..i + 1]);
    OneMoreCounted(quantities, lines[..i + 1]);
  }

  lemma FilledIsAggregated(keys: seq<Id>, quantities: map<Id, nat>, lines: seq<Line>)
    requires Filled(keys, quantities, lines)
    ensures keys == FirstSeen(lines) && quantities == Aggregated(lines)
  {
  }

  /** The loop that fills qty_by_id: a dictionary, hence a map with an insertion order. */
  method Aggregate(lines: seq<Line>) returns (keys: seq<Id>, quantities: map<Id, nat>)
    ensures keys == FirstSeen(lines)
    ensures quantities == Aggregated(lines)
  {
    keys, quantities := [], map[];
    for i := 0 to |lines|
      invariant Filled(keys, quantities, lines[..i])
    {
      var line := lines[i];
      OneMoreFilled(keys, quantities, lines, i);
      var soFar := if line.product in quantities then quantities[line.product] else 0;
      if line.product !in quantities {
        keys := keys + [line.product];
      }
      quantities := quantities[line.product := soFar + line.quantity];
    }
    assert lines[..|lines|] == lines;
    FilledIsAggregated(keys, quantities, lines);
  }

  // ---------------------------------------------------------------------------
  // Sums
  // ---------------------------------------------------------------------------

  /** Sum over the lines, as the customer wrote them. */
  function LineSum(lines: seq<Line>, weight: Id -> int): int {
    if lines == [] then 0
    else
      var last := lines[|lines| - 1];
      LineSum(lines[..|lines| - 1], weight) + weight(last.product) * last.quantity
  }

  /** Sum over the distinct products, as the service computes it. */
  function KeySum(keys: seq<Id>, lines: seq<Line>, weight: Id -> int): int {
    if keys == [] then 0
    else
      var last := keys[|keys| - 1];
      KeySum(keys[..|keys| - 1], lines, weight) + weight(last) * Ordered(lines, last)
  }

  function Price(products: map<Id, Product>): Id -> int {
    p => if p in products then products[p].price else 0
  }

  function One(): Id -> int { p => 1 }

  function ItemTotal(items: seq<OrderItem>): int {
    if items == [] then 0
    else
      var last := items[|items| - 1];
      ItemTotal(items[..|items| - 1]) + last.unitPrice * last.quantity
  }

  /** The item_count column of a snapshot. */
  function ItemCount(items: seq<OrderItem>): nat {
    if items == [] then 0 else ItemCount(items[..|items| - 1]) + items[|items| - 1].quantity
  }

  /** How much of one product the written order items carry. */
  function ItemUnits(items: seq<OrderItem>, product: Id): nat {
    if items == [] then 0
    else
      var last := items[|items| - 1];
      ItemUnits(items[..|items| - 1], product) + (if last.product == product then last.quantity else 0)
  }

  function Items(products: map<Id, Product>, keys: seq<Id>, lines: seq<Line>): seq<OrderItem>
    requires forall k | k in keys :: k in products
  {
    if keys == [] then []
    else
      var last := keys[|keys| - 1];
      Items(products, keys[..|keys| - 1], lines)
      + [OrderItem(last, products[last].name, products[last].price, Ordered(lines, last))]
  }

  /** One more line changes the aggregated sum by exactly that line, if its product is a key. */
  lemma {:induction false} OneMoreLine(keys: seq<Id>, init: seq<Line>, line: Line, weight: Id -> int)
    requires Distinct(keys)
    ensures KeySum(keys, init + [line], weight)
         == KeySum(keys, init, weight) + (if line.product in keys then weight(line.product) * line.quantity else 0)
  {
    if keys != [] {
      var last := keys[|keys| - 1];
      var front := keys[..|keys| - 1];
      assert keys == front + [last];
      OneMoreLine(front, init, line, weight);
      var lines := init + [line];
      assert lines[..|lines| - 1] == init;
      if line.product == last {
        assert last !in front;
        Distribute(weight(last), Ordered(init, last), line.quantity);
      }
    }
  }

  lemma Distribute(w: int, a: int, b: int)
    ensures w * (a + b) == w * a + w * b
  {
  }

  /** Aggregation preserves every weighted sum. */
  lemma {:induction false} AggregationPreservesSums(lines: seq<Line>, weight: Id -> int)
    ensures KeySum(FirstSeen(lines), lines, weight) == LineSum(lines, weight)
  {
    if lines != [] {
      var init, line := lines[..|lines| - 1], lines[|lines| - 1];
      assert lines == init + [line];
      AggregationPreservesSums(init, weight);
      var seen := FirstSeen(init);
      FirstSeenIsDistinct(init);
      OneMoreLine(seen, init, line, weight);
      if line.product !in seen {
        assert line.product !in Elements(seen);
        NothingOrdered(init, line.product);
        assert FirstSeen(lines)[..|seen|] == seen;
      }
    }
  }

  lemma {:induction false} ItemsCarryTheKeySums(products: map<Id, Product>, keys: seq<Id>, lines: seq<Line>)
    requires forall k | k in keys :: k in products
    ensures ItemTotal(Items(products, keys, lines)) == KeySum(keys, lines, Price(products))
    ensures ItemCount(Items(products, keys, lines)) == KeySum(keys, lines, One())
  {
    if keys != [] {
      ItemsCarryTheKeySums(products, keys[..|keys| - 1], lines);
      var items := Items(products, keys, lines);
      assert items[..|items| - 1] == Items(products, keys[..|keys| - 1], lines);
    }
  }

  lemma {:induction false} ItemsCarryTheOrderedUnits(
      products: map<Id, Product>, keys: seq<Id>, lines: seq<Line>, product: Id)
    requires Distinct(keys) && forall k | k in keys :: k in products
    ensures ItemUnits(Items(products, keys, lines), product)
         == if product in keys then Ordered(lines, product) else 0
  {
    if keys != [] {
      var front, last := keys[..|keys| - 1], keys[|keys| - 1];
      assert keys == front + [last];
      ItemsCarryTheOrderedUnits(products, front, lines, product);
      var items := Items(products, keys, lines);
      assert items[..|items| - 1] == Items(products, front, lines);
    }
  }

  /** The request schema: 1 to 100 lines of 1 to 10000 units. */
  predicate WithinSchema(lines: seq<Line>) {
    1 <= |lines| <= 100 && forall line | line in lines :: line.quantity <= 10000
  }

  lemma {:induction false} SumsAreBounded(lines: seq<Line>, product: Id)
    requires forall line | line in lines :: line.quantity <= 10000
    ensures Ordered(lines, product) <= LineSum(lines, One()) <= 10000 * |lines|
  {
    if lines != [] {
      SumsAreBounded(lines[..|lines| - 1], product);
      assert lines[|lines| - 1] in lines;
    }
  }

  // ---------------------------------------------------------------------------
  // The checkout decision
  // ---------------------------------------------------------------------------

  /** The first failing check, in the order the loop over qty_by_id meets the products. */
  function FirstProblem(products: map<Id, Product>, keys: seq<Id>, quantities: map<Id, nat>): Option<Error>
    requires forall k | k in keys :: k in products && k in quantities
  {
    if keys == [] then None
    else
      var earlier := FirstProblem(products, keys[..|keys| - 1], quantities);
      if earlier.Some? then earlier
      else
        var product := products[keys[|keys| - 1]];
        if product.deleted || !product.isActive then Some(ProductNotVisible)
        else if product.stock.Some? && product.stock.value < quantities[keys[|keys| - 1]] then Some(ProductOutOfStock)
        else None
  }

  function Take(product: Product, quantity: nat): Product
    requires product.stock.Some? ==> quantity <= product.stock.value
  {
    if product.stock.Some? then product.(stock := Some(product.stock.value - quantity)) else product
  }

  /** Every product row after the lines were taken from stock. */
  function AfterSale(products: map<Id, Product>, lines: seq<Line>): map<Id, Product>
    requires forall p | p in ProductIds(lines) && p in products && products[p].stock.Some? ::
               Ordered(lines, p) <= products[p].stock.value
  {
    map p | p in products :: if p in ProductIds(lines) then Take(products[p], Ordered(lines, p)) else products[p]
  }

  lemma {:induction false} NoProblemMeansFits(products: map<Id, Product>, keys: seq<Id>, quantities: map<Id, nat>)
    requires forall k | k in keys :: k in products && k in quantities
    ensures FirstProblem(products, keys, quantities).None? <==>
            forall k | k in keys :: !products[k].deleted && products[k].isActive
              && (products[k].stock.Some? ==> quantities[k] <= products[k].stock.value)
  {
    if keys != [] {
      var front, last := keys[..|keys| - 1], keys[|keys| - 1];
      NoProblemMeansFits(products, front, quantities);
      assert keys == front + [last];
    }
  }

  /** The first check of create_order that raises, if any. */
  function Refusal(products: map<Id, Product>, customer: User, lines: seq<Line>): Option<Error> {
    var wanted := ProductIds(lines);
    if customer.role != Customer then Some(ProductNotVisible)
    else if lines == [] then Some(OrderInvalidTransition)
    else if customer.referringSeller.None? then Some(ProductNotVisible)
    else if !(wanted <= products.Keys) then Some(ProductNotVisible)
    else if exists p | p in wanted :: products[p].seller != customer.referringSeller.value then Some(ProductNotVisible)
    else
      FirstSeenIsDistinct(lines);
      assert forall k :: k in FirstSeen(lines) <==> k in Elements(FirstSeen(lines));
      FirstProblem(products, FirstSeen(lines), Aggregated(lines))
  }

  /** create_order up to its first INSERT, as a function of the locked product rows. */
  function Decide(products: map<Id, Product>, customer: User, lines: seq<Line>): Result<Plan> {
    var refusal := Refusal(products, customer, lines);
    if refusal.Some? then Err(refusal.value)
    else
      AcceptedIffOrderableAndFits(products, customer, lines);
      var keys := FirstSeen(lines);
      FirstSeenIsDistinct(lines);
      assert forall k :: k in keys <==> k in Elements(keys);
      assert lines[0].product in ProductIds(lines);
      Ok(Plan(
           customer.referringSeller.value,
           products[Least(ProductIds(lines))].store,
           KeySum(keys, lines, Price(products)),
           Items(products, keys, lines),
           AfterSale(products, lines)))
  }

  /** The lines together fit: no row is short of what all its lines ask for. */
  predicate Fits(products: map<Id, Product>, lines: seq<Line>) {
    forall p | p in ProductIds(lines) && p in products && products[p].stock.Some? ::
      Ordered(lines, p) <= products[p].stock.value
  }

  predicate Orderable(products: map<Id, Product>, customer: User, lines: seq<Line>) {
    && customer.role == Customer && customer.referringSeller.Some?
    && lines != []
    && forall p | p in ProductIds(lines) ::
         p in products && products[p].seller == customer.referringSeller.value
         && products[p].isActive && !products[p].deleted
  }

  /** A checkout goes through exactly when every product is orderable and the lines together fit. */
  lemma AcceptedIffOrderableAndFits(products: map<Id, Product>, customer: User, lines: seq<Line>)
    ensures Refusal(products, customer, lines).None? <==> Orderable(products, customer, lines) && Fits(products, lines)
  {
    FirstSeenIsDistinct(lines);
    var keys := FirstSeen(lines);
    assert forall k :: k in keys <==> k in Elements(keys);
    if ProductIds(lines) <= products.Keys {
      NoProblemMeansFits(products, keys, Aggregated(lines));
    }
    if lines != [] {
      assert lines[0].product in ProductIds(lines);
    }
  }

  /** What Decide computes on the accepting path. */
  lemma AcceptedPlan(products: map<Id, Product>, customer: User, lines: seq<Line>)
    requires Decide(products, customer, lines).Ok?
    ensures Fits(products, lines) && ProductIds(lines) <= products.Keys && lines != []
    ensures customer.referringSeller.Some?
    ensures Elements(FirstSeen(lines)) == ProductIds(lines) != {}
    ensures forall k :: k in FirstSeen(lines) <==> k in ProductIds(lines)
    ensures Decide(products, customer, lines).value == Plan(
              customer.referringSeller.value,
              products[Least(ProductIds(lines))].store,
              KeySum(FirstSeen(lines), lines, Price(products)),
              Items(products, FirstSeen(lines), lines),
              AfterSale(products, lines))
  {
    FirstSeenIsDistinct(lines);
    AcceptedIffOrderableAndFits(products, customer, lines);
    assert lines[0].product in ProductIds(lines);
    assert forall k :: k in FirstSeen(lines) <==> k in Elements(FirstSeen(lines));
  }

  /** The subtotal is the line-by-line total, and the written order items carry the same total and units. */
  lemma PlanIsWorthItsLines(products: map<Id, Product>, customer: User, lines: seq<Line>)
    requires Decide(products, customer, lines).Ok?
    ensures var plan := Decide(products, customer, lines).value;
            && plan.subtotal == LineSum(lines, Price(products)) == ItemTotal(plan.items)
            && ItemCount(plan.items) == LineSum(lines, One())
            && forall p :: ItemUnits(plan.items, p) == Ordered(lines, p)
  {
    var keys := FirstSeen(lines);
    AcceptedPlan(products, customer, lines);
    FirstSeenIsDistinct(lines);
    AggregationPreservesSums(lines, Price(products));
    AggregationPreservesSums(lines, One());
    ItemsCarryTheKeySums(products, keys, lines);
    forall p ensures ItemUnits(Items(products, keys, lines), p) == Ordered(lines, p) {
      ItemsCarryTheOrderedUnits(products, keys, lines, p);
      NothingOrdered(lines, p);
    }
  }

  /** Stock falls by exactly what the lines ask for; unlimited stock and every other column stay. */
  lemma PlanTakesItsLinesFromStock(products: map<Id, Product>, customer: User, lines: seq<Line>)
    requires Decide(products, customer, lines).Ok?
    ensures var after := Decide(products, customer, lines).value.products;
            && after.Keys == products.Keys
            && forall p | p in products ::
                 && after[p].(stock := products[p].stock) == products[p]
                 && (products[p].stock.None? ==> after[p].stock.None?)
                 && (products[p].stock.Some? ==>
                       after[p].stock.Some? && after[p].stock.value == products[p].stock.value - Ordered(lines, p))
  {
    AcceptedPlan(products, customer, lines);
    forall p ensures p !in ProductIds(lines) ==> Ordered(lines, p) == 0 {
      NothingOrdered(lines, p);
    }
  }

  /** Under the request schema no aggregate and no item count exceeds a million. */
  lemma SchemaBoundsTheAggregates(products: map<Id, Product>, customer: User, lines: seq<Line>)
    requires WithinSchema(lines)
    ensures forall p | p in Aggregated(lines) :: 0 < Aggregated(lines)[p] <= 1_000_000
    ensures Decide(products, customer, lines).Ok? ==>
              0 < ItemCount(Decide(products, customer, lines).value.items) <= 1_000_000
  {
    forall p ensures Ordered(lines, p) <= LineSum(lines, One()) <= 1_000_000 {
      SumsAreBounded(lines, p);
    }
    forall p ensures Ordered(lines, p) == 0 <==> p !in ProductIds(lines) {
      NothingOrdered(lines, p);
    }
    assert lines[0].product in ProductIds(lines);
    if Decide(products, customer, lines).Ok? {
      PlanIsWorthItsLines(products, customer, lines);
    }
  }

  /** The decision reads the rows of the ordered products and no others. */
  lemma DecideReadsOnlyItsRows(all: map<Id, Product>, rows: map<Id, Product>, customer: User, lines: seq<Line>)
    requires rows == map p | p in all && p in ProductIds(lines) :: all[p]
    ensures var whole, part := Decide(all, customer, lines), Decide(rows, customer, lines);
            if part.Err? then whole == part
            else whole == Ok(part.value.(products := all + part.value.products))
  {
    SameRowsSameRefusal(all, rows, customer, lines);
    if Decide(all, customer, lines).Ok? {
      AcceptedPlan(all, customer, lines);
      AcceptedPlan(rows, customer, lines);
      SameRowsSameItems(all, rows, FirstSeen(lines), lines);
      SaleTouchesOnlyItsRows(all, rows, lines);
    }
  }

  lemma SaleTouchesOnlyItsRows(all: map<Id, Product>, rows: map<Id, Product>, lines: seq<Line>)
    requires rows == map p | p in all && p in ProductIds(lines) :: all[p]
    requires Fits(all, lines)
    ensures Fits(rows, lines) && AfterSale(all, lines) == all + AfterSale(rows, lines)
  {
  }

  lemma SameRowsSameRefusal(all: map<Id, Product>, rows: map<Id, Product>, customer: User, lines: seq<Line>)
    requires rows == map p | p in all && p in ProductIds(lines) :: all[p]
    ensures Refusal(all, customer, lines) == Refusal(rows, customer, lines)
  {
    if ProductIds(lines) <= all.Keys {
      assert rows.Keys == ProductIds(lines);
      FirstSeenIsDistinct(lines);
      var keys := FirstSeen(lines);
      assert forall k :: k in keys <==> k in Elements(keys);
      SameRowsSameProblem(all, rows, keys, Aggregated(lines));
    } else {
      assert !(ProductIds(lines) <= rows.Keys);
    }
  }

  lemma {:induction false} SameRowsSameProblem(
      all: map<Id, Product>, rows: map<Id, Product>, keys: seq<Id>, quantities: map<Id, nat>)
    requires forall k | k in keys :: k in quantities && k in all && k in rows && all[k] == rows[k]
    ensures FirstProblem(all, keys, quantities) == FirstProblem(rows, keys, quantities)
  {
    if keys != [] {
      SameRowsSameProblem(all, rows, keys[..|keys| - 1], quantities);
    }
  }

  lemma {:induction false} SameRowsSameItems(
      all: map<Id, Product>, rows: map<Id, Product>, keys: seq<Id>, lines: seq<Line>)
    requires forall k | k in keys :: k in all && k in rows && all[k] == rows[k]
    ensures Items(all, keys, lines) == Items(rows, keys, lines)
    ensures KeySum(keys, lines, Price(all)) == KeySum(keys, lines, Price(rows))
  {
    if keys != [] {
      SameRowsSameItems(all, rows, keys[..|keys| - 1], lines);
    }
  }
}
