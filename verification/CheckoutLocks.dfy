/**
 Concurrent create_order calls.  Each takes its product row locks one at a time in ascending id order,
 reads each row as it locks it, and at commit writes its rows and releases its locks.
 */
module CheckoutLocks {
  import opened Common
  import opened Checkout

  datatype Request = Request(customer: User, lines: seq<Line>)

  /** A call in progress: the rows it must lock, how many it holds, and what it read under those locks. */
  datatype Worker = Worker(request: Request, need: seq<Id>, locked: nat, seen: map<Id, Product>, done: bool)

  /** The committed product rows, the calls, and the calls that have ended, in commit order. */
  datatype Shop = Shop(products: map<Id, Product>, workers: seq<Worker>, commits: seq<nat>)

  predicate Ascending(s: seq<Id>) {
    forall i, j | 0 <= i < j < |s| :: s[i] < s[j]
  }

  function Held(w: Worker): set<Id>
    requires w.locked <= |w.need|
  {
    if w.done then {} else Elements(w.need[..w.locked])
  }

  predicate Lockable(shop: Shop) {
    forall w | w in shop.workers :: w.locked <= |w.need|
  }

  /** The next lock of the call is free, or it holds all and can commit. */
  predicate CanStep(shop: Shop, i: nat)
    requires forall w | w in shop.workers :: w.locked <= |w.need|
  {
    && i < |shop.workers|
    && !shop.workers[i].done
    && (shop.workers[i].locked < |shop.workers[i].need| ==>
          forall j | 0 <= j < |shop.workers| && j != i ::
            shop.workers[i].need[shop.workers[i].locked] !in Held(shop.workers[j]))
  }

  /** What the call does with the rows it read: the serial checkout on them. */
  function Sell(products: map<Id, Product>, request: Request): map<Id, Product> {
    var decision := Decide(products, request.customer, request.lines);
    if decision.Ok? then decision.value.products else products
  }

  function StepOf(shop: Shop, i: nat): Shop
    requires i < |shop.workers|
  {
    var w := shop.workers[i];
    if w.locked < |w.need| then
      var row := w.need[w.locked];
      var seen := if row in shop.products then w.seen[row := shop.products[row]] else w.seen;
      shop.(workers := shop.workers[i := w.(locked := w.locked + 1, seen := seen)])
    else
      Shop(shop.products + Sell(w.seen, w.request),
           shop.workers[i := w.(done := true)],
           shop.commits + [i])
  }

  predicate Names(order: seq<nat>, workers: seq<Worker>) {
    forall k | 0 <= k < |order| :: order[k] < |workers|
  }

  /** One call after the other, in the order given. */
  function Serial(products: map<Id, Product>, workers: seq<Worker>, order: seq<nat>): map<Id, Product>
    requires Names(order, workers)
  {
    if order == [] then products
    else
      var front, last := order[..|order| - 1], order[|order| - 1];
      Sell(Serial(products, workers, front), workers[last].request)
  }

  /** The rows the SELECT ... FOR UPDATE names; a caller refused before it locks nothing. */
  function Wanted(request: Request): set<Id> {
    if request.customer.role == Customer && request.customer.referringSeller.Some? then ProductIds(request.lines) else {}
  }

  predicate WellFormed(w: Worker, products: map<Id, Product>) {
    && Ascending(w.need)
    && Elements(w.need) == Wanted(w.request) * products.Keys
    && w.locked <= |w.need|
    && (!w.done ==>
          w.seen == map p | p in products && p in Elements(w.need[..w.locked]) :: products[p])
  }

  predicate Exclusive(shop: Shop)
    requires forall w | w in shop.workers :: w.locked <= |w.need|
  {
    forall i, j | 0 <= i < j < |shop.workers| :: Held(shop.workers[i]) !! Held(shop.workers[j])
  }

  /** Kept by every step: exclusive locks, what was read under a lock is still true, and a serial history. */
  predicate Sound(shop: Shop, opening: map<Id, Product>) {
    && (forall i | 0 <= i < |shop.workers| :: WellFormed(shop.workers[i], shop.products))
    && Exclusive(shop)
    && Distinct(shop.commits)
    && Names(shop.commits, shop.workers)
    && (forall i | 0 <= i < |shop.workers| :: shop.workers[i].done ==> i in shop.commits)
    && (forall k | 0 <= k < |shop.commits| :: shop.workers[shop.commits[k]].done)
    && shop.products == Serial(opening, shop.workers, shop.commits)
  }

  // ---------------------------------------------------------------------------
  // No deadlock
  // ---------------------------------------------------------------------------

  predicate Waiting(shop: Shop, i: nat) {
    i < |shop.workers| && !shop.workers[i].done && shop.workers[i].locked < |shop.workers[i].need|
  }

  function Next(shop: Shop, i: nat): Id
    requires Waiting(shop, i)
  {
    shop.workers[i].need[shop.workers[i].locked]
  }

  /** The waiting call whose next lock is the highest. */
  lemma HighestWaiting(shop: Shop, start: nat) returns (top: nat)
    requires Waiting(shop, start)
    ensures Waiting(shop, top)
    ensures forall j | Waiting(shop, j) :: Next(shop, j) <= Next(shop, top)
  {
    top := start;
    for k := 0 to |shop.workers|
      invariant Waiting(shop, top)
      invariant forall j | 0 <= j < k && Waiting(shop, j) :: Next(shop, j) <= Next(shop, top)
    {
      if Waiting(shop, k) && Next(shop, k) > Next(shop, top) {
        top := k;
      }
    }
  }

  /** While some call is unfinished, some call can step. */
  lemma NeverDeadlocked(shop: Shop, opening: map<Id, Product>, unfinished: nat) returns (i: nat)
    requires Sound(shop, opening) && unfinished < |shop.workers| && !shop.workers[unfinished].done
    ensures CanStep(shop, i)
  {
    if !Waiting(shop, unfinished) {
      return unfinished;
    }
    i := HighestWaiting(shop, unfinished);
    if !CanStep(shop, i) {
      var holder: nat :| holder < |shop.workers| && holder != i && Next(shop, i) in Held(shop.workers[holder]);
      HoldsBelowItsNext(shop, opening, holder, Next(shop, i));
      i := holder;
    }
  }

  /** Locks are taken in ascending order: a waiting call waits for a row above all it holds. */
  lemma HoldsBelowItsNext(shop: Shop, opening: map<Id, Product>, holder: nat, row: Id)
    requires Sound(shop, opening) && holder < |shop.workers| && row in Held(shop.workers[holder])
    ensures !shop.workers[holder].done
    ensures Waiting(shop, holder) ==> row < Next(shop, holder)
  {
    var w := shop.workers[holder];
    assert WellFormed(w, shop.products);
    var k :| 0 <= k < w.locked && w.need[k] == row;
  }

  // ---------------------------------------------------------------------------
  // Serial histories
  // ---------------------------------------------------------------------------

  /** Only the requests matter to the serial history. */
  lemma {:induction false} SerialReadsRequests(products: map<Id, Product>, a: seq<Worker>, b: seq<Worker>, order: seq<nat>)
    requires |a| == |b| && forall i | 0 <= i < |a| :: a[i].request == b[i].request
    requires Names(order, a)
    ensures Serial(products, a, order) == Serial(products, b, order)
  {
    if order != [] {
      SerialReadsRequests(products, a, b, order[..|order| - 1]);
    }
  }

  /** What was read under the locks decides like the whole table, and writes only the locked rows. */
  lemma CommitIsSerial(products: map<Id, Product>, w: Worker)
    requires WellFormed(w, products) && !w.done && w.locked == |w.need|
    ensures products + Sell(w.seen, w.request) == Sell(products, w.request)
    ensures Sell(products, w.request).Keys == products.Keys
    ensures forall p | p in products && p !in Held(w) :: Sell(products, w.request)[p] == products[p]
  {
    assert w.need[..w.locked] == w.need;
    if Wanted(w.request) != ProductIds(w.request.lines) {
      assert Decide(products, w.request.customer, w.request.lines).Err?;
      return;
    }
    var rows := map p | p in products && p in ProductIds(w.request.lines) :: products[p];
    assert w.seen == rows by {
      assert forall p | p in products :: p in Elements(w.need) <==> p in ProductIds(w.request.lines);
    }
    DecideReadsOnlyItsRows(products, rows, w.request.customer, w.request.lines);
    var decision := Decide(products, w.request.customer, w.request.lines);
    if decision.Ok? {
      PlanTakesItsLinesFromStock(products, w.request.customer, w.request.lines);
      AcceptedPlan(products, w.request.customer, w.request.lines);
    }
  }

  /** The call holds one row more, and read it as it is. */
  lemma LockedOneMore(w: Worker, products: map<Id, Product>)
    requires WellFormed(w, products) && !w.done && w.locked < |w.need|
    ensures var row := w.need[w.locked];
            var next := w.(locked := w.locked + 1, seen := if row in products then w.seen[row := products[row]] else w.seen);
            && WellFormed(next, products) && Held(next) == Held(w) + {row}
  {
    var row := w.need[w.locked];
    assert w.need[..w.locked + 1] == w.need[..w.locked] + [row];
    assert row in Elements(w.need);
  }

  /** The row was free, so it is still held once. */
  lemma LockingStaysExclusive(shop: Shop, i: nat, next: Shop)
    requires Lockable(shop) && Lockable(next) && Exclusive(shop) && CanStep(shop, i)
    requires shop.workers[i].locked < |shop.workers[i].need|
    requires |next.workers| == |shop.workers|
    requires forall j | 0 <= j < |shop.workers| && j != i :: next.workers[j] == shop.workers[j]
    requires Held(next.workers[i]) == Held(shop.workers[i]) + {shop.workers[i].need[shop.workers[i].locked]}
    ensures Exclusive(next)
  {
    forall j, k | 0 <= j < k < |next.workers|
      ensures Held(next.workers[j]) !! Held(next.workers[k])
    {
      assert Held(shop.workers[j]) !! Held(shop.workers[k]);
    }
  }

  lemma LockingStep(shop: Shop, opening: map<Id, Product>, i: nat)
    requires Sound(shop, opening) && CanStep(shop, i) && shop.workers[i].locked < |shop.workers[i].need|
    ensures Sound(StepOf(shop, i), opening)
  {
    var next := StepOf(shop, i);
    assert WellFormed(shop.workers[i], shop.products);
    LockedOneMore(shop.workers[i], shop.products);
    forall j | 0 <= j < |next.workers|
      ensures WellFormed(next.workers[j], next.products)
    {
      assert WellFormed(shop.workers[j], shop.products);
    }
    LockingStaysExclusive(shop, i, next);
    SerialReadsRequests(opening, shop.workers, next.workers, shop.commits);
  }

  /** What a call wrote is a serial step, and only rows the call holds were written. */
  lemma CommitWrites(shop: Shop, opening: map<Id, Product>, i: nat)
    requires Sound(shop, opening) && CanStep(shop, i) && shop.workers[i].locked == |shop.workers[i].need|
    ensures var next := StepOf(shop, i);
            && next.products == Sell(shop.products, shop.workers[i].request)
            && next.products.Keys == shop.products.Keys
            && forall p | p in shop.products && p !in Held(shop.workers[i]) :: next.products[p] == shop.products[p]
  {
    assert WellFormed(shop.workers[i], shop.products);
    CommitIsSerial(shop.products, shop.workers[i]);
  }

  /** What a call read under its locks stays true when rows it does not hold are written. */
  lemma OthersRowsStay(w: Worker, before: map<Id, Product>, after: map<Id, Product>)
    requires WellFormed(w, before) && after.Keys == before.Keys
    requires forall p | p in before && p in Held(w) :: after[p] == before[p]
    ensures WellFormed(w, after)
  {
  }

  lemma CommitKeepsReads(shop: Shop, opening: map<Id, Product>, i: nat, j: nat)
    requires Sound(shop, opening) && CanStep(shop, i) && shop.workers[i].locked == |shop.workers[i].need|
    requires j < |shop.workers|
    ensures WellFormed(StepOf(shop, i).workers[j], StepOf(shop, i).products)
  {
    CommitWrites(shop, opening, i);
    assert WellFormed(shop.workers[j], shop.products);
    if j != i {
      assert Held(shop.workers[i]) !! Held(shop.workers[j]) by {
        assert Exclusive(shop) && (i < j || j < i);
      }
      OthersRowsStay(shop.workers[j], shop.products, StepOf(shop, i).products);
    }
  }

  lemma CommitStep(shop: Shop, opening: map<Id, Product>, i: nat)
    requires Sound(shop, opening) && CanStep(shop, i) && shop.workers[i].locked == |shop.workers[i].need|
    ensures Sound(StepOf(shop, i), opening)
  {
    var next := StepOf(shop, i);
    forall j | 0 <= j < |next.workers|
      ensures WellFormed(next.workers[j], next.products)
    {
      CommitKeepsReads(shop, opening, i, j);
    }
    forall j, k | 0 <= j < k < |next.workers|
      ensures Held(next.workers[j]) !! Held(next.workers[k])
    {
      assert Held(shop.workers[j]) !! Held(shop.workers[k]);
    }
    CommitIsLast(shop, opening, i);
  }

  lemma CommitIsLast(shop: Shop, opening: map<Id, Product>, i: nat)
    requires Sound(shop, opening) && CanStep(shop, i) && shop.workers[i].locked == |shop.workers[i].need|
    ensures var next := StepOf(shop, i);
            && Names(next.commits, next.workers)
            && Distinct(next.commits)
            && (forall j | 0 <= j < |next.workers| :: next.workers[j].done ==> j in next.commits)
            && (forall k | 0 <= k < |next.commits| :: next.workers[next.commits[k]].done)
            && next.products == Serial(opening, next.workers, next.commits)
  {
    var next := StepOf(shop, i);
    CommitWrites(shop, opening, i);
    CommitsGrow(shop.workers, next.workers, shop.commits, i);
    SerialReadsRequests(opening, shop.workers, next.workers, shop.commits);
    SerialOneMore(opening, next.workers, shop.commits, i);
  }

  lemma CommitsGrow(before: seq<Worker>, after: seq<Worker>, commits: seq<nat>, i: nat)
    requires i < |before| && !before[i].done && after == before[i := before[i].(done := true)]
    requires Names(commits, before) && Distinct(commits)
    requires forall j | 0 <= j < |before| :: before[j].done ==> j in commits
    requires forall k | 0 <= k < |commits| :: before[commits[k]].done
    ensures Names(commits + [i], after) && Distinct(commits + [i])
    ensures forall j | 0 <= j < |after| :: after[j].done ==> j in commits + [i]
    ensures forall k | 0 <= k < |commits + [i]| :: after[(commits + [i])[k]].done
  {
    forall j | 0 <= j < |after| && after[j].done
      ensures j in commits + [i]
    {
      assert j == i || j in commits;
    }
  }

  lemma SerialOneMore(products: map<Id, Product>, workers: seq<Worker>, order: seq<nat>, last: nat)
    requires Names(order, workers) && last < |workers|
    ensures Names(order + [last], workers)
    ensures Serial(products, workers, order + [last]) == Sell(Serial(products, workers, order), workers[last].request)
  {
    assert (order + [last])[..|order|] == order;
  }

  lemma StepKeepsSound(shop: Shop, opening: map<Id, Product>, i: nat)
    requires Sound(shop, opening) && CanStep(shop, i)
    ensures Sound(StepOf(shop, i), opening)
  {
    if shop.workers[i].locked < |shop.workers[i].need| {
      LockingStep(shop, opening, i);
    } else {
      CommitStep(shop, opening, i);
    }
  }

  // ---------------------------------------------------------------------------
  // Interleavings
  // ---------------------------------------------------------------------------

  /** A schedule names the call that steps next; each can step when its turn comes. */
  predicate IsInterleaving(shop: Shop, schedule: seq<nat>)
    decreases |schedule|
  {
    schedule == []
    || (Lockable(shop) && CanStep(shop, schedule[0]) && IsInterleaving(StepOf(shop, schedule[0]), schedule[1..]))
  }

  function Run(shop: Shop, schedule: seq<nat>): Shop
    requires IsInterleaving(shop, schedule)
    decreases |schedule|
  {
    if schedule == [] then shop else Run(StepOf(shop, schedule[0]), schedule[1..])
  }

  /** Steps the call has still to take. */
  function Left(w: Worker): int {
    if w.done then 0 else |w.need| - w.locked + 1
  }

  function TotalLeft(workers: seq<Worker>): int {
    if workers == [] then 0 else TotalLeft(workers[..|workers| - 1]) + Left(workers[|workers| - 1])
  }

  lemma {:induction false} ReplacingOne(workers: seq<Worker>, i: nat, w: Worker)
    requires i < |workers|
    ensures TotalLeft(workers[i := w]) == TotalLeft(workers) - Left(workers[i]) + Left(w)
  {
    var front := workers[..|workers| - 1];
    var after := workers[i := w];
    if i < |front| {
      ReplacingOne(front, i, w);
      assert after[..|after| - 1] == front[i := w];
    } else {
      assert after[..|after| - 1] == front;
    }
  }

  lemma {:induction false} LeftIsNotNegative(workers: seq<Worker>)
    requires forall w | w in workers :: w.locked <= |w.need|
    ensures TotalLeft(workers) >= 0
  {
    if workers != [] {
      LeftIsNotNegative(workers[..|workers| - 1]);
      assert workers[|workers| - 1] in workers;
    }
  }

  /** Calls that have just begun: nothing locked, nothing read. */
  predicate IsOpening(shop: Shop) {
    && shop.commits == []
    && forall i | 0 <= i < |shop.workers| ::
         var w := shop.workers[i];
         && WellFormed(w, shop.products) && w.locked == 0 && w.seen == map[] && !w.done
  }

  lemma OpeningIsSound(shop: Shop)
    requires IsOpening(shop)
    ensures Sound(shop, shop.products)
  {
    forall i, j | 0 <= i < j < |shop.workers|
      ensures Held(shop.workers[i]) !! Held(shop.workers[j])
    {
      assert WellFormed(shop.workers[i], shop.products) && Held(shop.workers[i]) == {};
    }
  }

  lemma SoundIsLockable(shop: Shop, opening: map<Id, Product>)
    requires Sound(shop, opening)
    ensures Lockable(shop)
  {
    forall w | w in shop.workers
      ensures w.locked <= |w.need|
    {
      var i :| 0 <= i < |shop.workers| && shop.workers[i] == w;
    }
  }

  /** Every interleaving is sound to its end and each of its steps uses up one of the steps left. */
  lemma {:induction false} InterleavingIsSound(shop: Shop, opening: map<Id, Product>, schedule: seq<nat>)
    requires Sound(shop, opening) && IsInterleaving(shop, schedule)
    ensures Sound(Run(shop, schedule), opening)
    ensures |Run(shop, schedule).workers| == |shop.workers|
    ensures forall i | 0 <= i < |shop.workers| :: Run(shop, schedule).workers[i].request == shop.workers[i].request
    ensures TotalLeft(Run(shop, schedule).workers) == TotalLeft(shop.workers) - |schedule|
    decreases |schedule|
  {
    if schedule != [] {
      var i := schedule[0];
      StepKeepsSound(shop, opening, i);
      ReplacingOne(shop.workers, i, StepOf(shop, i).workers[i]);
      InterleavingIsSound(StepOf(shop, i), opening, schedule[1..]);
    }
  }

  /**
   Any number of concurrent checkouts, however interleaved: the interleaving is no longer than the
   locks and commits there are; it can be continued unless every call has ended; every call that has
   ended appears once in the commit order; and the committed rows are those a serial run in that order leaves.
   */
  lemma EveryInterleavingIsSerial(shop: Shop, schedule: seq<nat>)
    requires IsOpening(shop) && IsInterleaving(shop, schedule)
    ensures var end := Run(shop, schedule);
            && |schedule| <= TotalLeft(shop.workers)
            && |end.workers| == |shop.workers|
            && Distinct(end.commits) && Names(end.commits, shop.workers)
            && (forall i | 0 <= i < |end.workers| :: end.workers[i].done == (i in end.commits))
            && end.products == Serial(shop.products, shop.workers, end.commits)
            && Lockable(end)
            && ((exists i | 0 <= i < |end.workers| :: !end.workers[i].done) ==> exists i: nat :: CanStep(end, i))
  {
    OpeningIsSound(shop);
    InterleavingIsSound(shop, shop.products, schedule);
    var end := Run(shop, schedule);
    SoundIsLockable(end, shop.products);
    SerialReadsRequests(shop.products, end.workers, shop.workers, end.commits);
    LeftIsNotNegative(end.workers);
    if unfinished :| 0 <= unfinished < |end.workers| && !end.workers[unfinished].done {
      var i := NeverDeadlocked(end, shop.products, unfinished);
    }
  }

  /** Finite stock falls by what the accepted call ordered, and an unlimited or refused one changes nothing. */
  lemma SerialStepTakesWhatFits(products: map<Id, Product>, request: Request, product: Id)
    requires product in products
    ensures var after := Sell(products, request);
            && product in after
            && after[product].stock ==
                 if products[product].stock.Some?
                    && Orderable(products, request.customer, request.lines) && Checkout.Fits(products, request.lines)
                 then Some(products[product].stock.value - Ordered(request.lines, product))
                 else products[product].stock
  {
    AcceptedIffOrderableAndFits(products, request.customer, request.lines);
    if Decide(products, request.customer, request.lines).Ok? {
      PlanTakesItsLinesFromStock(products, request.customer, request.lines);
    }
  }
}
