/** Vocabulary shared by every service: identifiers, the clock, roles and error codes. */
module Common {
  datatype Option<+T> = None | Some(value: T)

  datatype Result<+T> = Ok(value: T) | Err(error: Error)

  /** A UUID.  Only equality and the total order used by ORDER BY matter. */
  type Id = nat

  /** Microseconds since the epoch, the resolution of a timestamptz column. */
  type Time = int

  function Days(n: int): Time { n * 86_400_000_000 }

  function Hours(n: int): Time { n * 3_600_000_000 }

  /** The Postgres enum user_role. */
  datatype Role = Admin | Seller | Customer | Driver

  /** The columns of the authenticated caller that the services read. */
  datatype User = User(id: Id, role: Role, referringSeller: Option<Id>)

  datatype Error =
    | OrderNotFound
    | OrderInvalidTransition
    | OrderRetentionNotMet
    | RetentionSettingInvalid
    | ProductNotVisible
    | ProductOutOfStock
    | FulfillmentAlreadyChosen
    | SellerProfileMissing
    | DriverNotRequested
    | DriverAlreadyAssigned
    | DeliveryAlreadyStarted
    | DeliveryNotAccepted
    | DeliveryCodeLocked
    | DeliveryCodeInvalid(attemptsRemaining: int)
    | ChatNotOpen
    | ChatClosed
    | PermissionDenied
    | MultipleResultsFound   // what scalar_one_or_none raises on a second row
    | IntegrityError         // a unique or primary key is already taken

  /** What scalar_one_or_none finds in the primary keys of the matching rows. */
  datatype Lookup = NoRow | OneRow(id: Id) | ManyRows

  function ScalarOneOrNone(rows: set<Id>): (found: Lookup)
    ensures found.NoRow? <==> rows == {}
    ensures found.OneRow? ==> rows == {found.id}
    ensures found.ManyRows? ==> forall x | x in rows :: rows != {x}
  {
    if rows == {} then NoRow
    else if exists x | x in rows :: rows == {x} then
      var x :| x in rows && rows == {x};
      OneRow(x)
    else ManyRows
  }

  lemma ManyRowsMeansTwo(rows: set<Id>)
    ensures ScalarOneOrNone(rows).ManyRows? <==> exists x, y :: x in rows && y in rows && x != y
  {
    if rows != {} && !ScalarOneOrNone(rows).OneRow? {
      var x :| x in rows;
      assert rows != {x};
      assert rows == (rows - {x}) + {x};
      var y :| y in rows - {x};
    }
  }

  /** The first row in ascending key order. */
  function Least(ids: set<Id>): (least: Id)
    requires ids != {}
    ensures least in ids && forall x | x in ids :: least <= x
  {
    LeastExists(ids);
    var least :| IsLeast(ids, least);
    least
  }

  predicate IsLeast(ids: set<Id>, least: Id) {
    least in ids && forall x | x in ids :: least <= x
  }

  lemma LeastExists(ids: set<Id>)
    requires ids != {}
    ensures exists least :: IsLeast(ids, least)
  {
    var x :| x in ids;
    var rest := ids - {x};
    if rest == {} {
      assert forall z | z in ids :: z == x || z in rest;
      assert IsLeast(ids, x);
    } else {
      LeastExists(rest);
      var y :| IsLeast(rest, y);
      var least := if x <= y then x else y;
      forall z | z in ids
        ensures least <= z
      {
        assert z == x || z in rest;
      }
      assert IsLeast(ids, least);
    }
  }

  predicate Distinct<T(==)>(s: seq<T>) {
    forall i, j | 0 <= i < j < |s| :: s[i] != s[j]
  }

  function Elements<T>(s: seq<T>): set<T> {
    set x | x in s
  }
}
