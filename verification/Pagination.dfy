/** The keyset pagination of the admin lists: the cursor is the timestamp of the last row shown. */
module Pagination {
  import opened Common

  /** A row; matches says it passes the list's filters and is not deleted. */
  datatype Row = Row(id: Id, at: Time, matches: bool)

  /** One page and the cursor of the next, if there is one. */
  datatype Page = Page(rows: seq<Row>, next: Option<Time>)

  // ---------------------------------------------------------------------------
  // The query
  // ---------------------------------------------------------------------------

  function Clamp(limit: int): (c: nat)
    ensures 1 <= c <= 100 && (1 <= limit <= 100 ==> c == limit) && (limit < 1 ==> c == 1) && (limit > 100 ==> c == 100)
  {
    var capped := if limit < 100 then limit else 100;
    if capped > 1 then capped else 1
  }

  /** WHERE the filters hold AND at < cursor. */
  function Matching(table: seq<Row>, cursor: Option<Time>): seq<Row> {
    if table == [] then []
    else
      var row := table[0];
      (if row.matches && (cursor.Some? ==> row.at < cursor.value) then [row] else []) + Matching(table[1..], cursor)
  }

  /** ORDER BY at DESC; rows of one instant stay in table order. */
  function Insert(row: Row, sorted: seq<Row>): seq<Row> {
    if sorted == [] || sorted[0].at <= row.at then [row] + sorted else [sorted[0]] + Insert(row, sorted[1..])
  }

  function Descending(rows: seq<Row>): seq<Row> {
    if rows == [] then [] else Insert(rows[0], Descending(rows[1..]))
  }

  /** list_users, list_products and list_orders: fetch one row more than the page to see whether there is a next. */
  function List(table: seq<Row>, cursor: Option<Time>, limit: int): Page {
    var c := Clamp(limit);
    var all := Descending(Matching(table, cursor));
    var fetched := if |all| > c + 1 then all[..c + 1] else all;
    var hasMore := |fetched| > c;
    var rows := if hasMore then fetched[..c] else fetched;
    Page(rows, if hasMore then Some(rows[c - 1].at) else None)
  }

  // ---------------------------------------------------------------------------
  // Sorting
  // ---------------------------------------------------------------------------

  predicate IsDescending(rows: seq<Row>) {
    forall i, j | 0 <= i < j < |rows| :: rows[i].at >= rows[j].at
  }

  lemma {:induction false} InsertPermutes(row: Row, sorted: seq<Row>)
    ensures multiset(Insert(row, sorted)) == multiset(sorted) + multiset{row}
  {
    if sorted != [] && sorted[0].at > row.at {
      InsertPermutes(row, sorted[1..]);
      assert sorted == [sorted[0]] + sorted[1..];
    }
  }

  lemma InsertMembers(row: Row, sorted: seq<Row>, r: Row)
    requires r in Insert(row, sorted)
    ensures r == row || r in sorted
  {
    InsertPermutes(row, sorted);
    assert r in multiset(Insert(row, sorted));
  }

  lemma {:induction false} InsertSorts(row: Row, sorted: seq<Row>)
    requires IsDescending(sorted)
    ensures IsDescending(Insert(row, sorted))
  {
    if sorted != [] && sorted[0].at > row.at {
      var rest := Insert(row, sorted[1..]);
      InsertSorts(row, sorted[1..]);
      forall k | 0 <= k < |rest|
        ensures rest[k].at <= sorted[0].at
      {
        InsertMembers(row, sorted[1..], rest[k]);
      }
    }
  }

  /** Descending is a descending permutation. */
  lemma {:induction false} DescendingSorts(rows: seq<Row>)
    ensures IsDescending(Descending(rows)) && multiset(Descending(rows)) == multiset(rows)
    ensures |Descending(rows)| == |rows|
  {
    if rows != [] {
      DescendingSorts(rows[1..]);
      InsertSorts(rows[0], Descending(rows[1..]));
      InsertPermutes(rows[0], Descending(rows[1..]));
      assert rows == [rows[0]] + rows[1..];
    }
    assert |multiset(Descending(rows))| == |multiset(rows)|;
  }

  lemma {:induction false} InsertLength(row: Row, sorted: seq<Row>)
    ensures |Insert(row, sorted)| == |sorted| + 1
  {
    if sorted != [] && sorted[0].at > row.at {
      InsertLength(row, sorted[1..]);
    }
  }

  lemma {:induction false} DescendingLength(rows: seq<Row>)
    ensures |Descending(rows)| == |rows|
  {
    if rows != [] {
      DescendingLength(rows[1..]);
      InsertLength(rows[0], Descending(rows[1..]));
    }
  }

  /** The rows before an instant. */
  function Before(rows: seq<Row>, at: Time): seq<Row> {
    if rows == [] then [] else (if rows[0].at < at then [rows[0]] else []) + Before(rows[1..], at)
  }

  lemma {:induction false} InsertBefore(row: Row, sorted: seq<Row>, at: Time)
    ensures Before(Insert(row, sorted), at) == if row.at < at then Insert(row, Before(sorted, at)) else Before(sorted, at)
  {
    if sorted == [] || sorted[0].at <= row.at {
      assert Insert(row, sorted)[1..] == sorted;
    } else {
      InsertBefore(row, sorted[1..], at);
      assert Insert(row, sorted)[1..] == Insert(row, sorted[1..]);
      if sorted[0].at < at {
        assert Before(sorted, at)[1..] == Before(sorted[1..], at);
      } else {
        assert Before(sorted, at) == Before(sorted[1..], at);
      }
    }
  }

  lemma {:induction false} DescendingBefore(rows: seq<Row>, at: Time)
    ensures Before(Descending(rows), at) == Descending(Before(rows, at))
  {
    if rows != [] {
      DescendingBefore(rows[1..], at);
      InsertBefore(rows[0], Descending(rows[1..]), at);
      if rows[0].at < at {
        assert Before(rows, at)[1..] == Before(rows[1..], at);
      } else {
        assert Before(rows, at) == Before(rows[1..], at);
      }
    }
  }

  lemma {:induction false} MatchingBefore(table: seq<Row>, cursor: Option<Time>, at: Time)
    requires cursor.Some? ==> at <= cursor.value
    ensures Before(Matching(table, cursor), at) == Matching(table, Some(at))
  {
    if table != [] {
      MatchingBefore(table[1..], cursor, at);
      var row := table[0];
      if row.matches && (cursor.Some? ==> row.at < cursor.value) {
        assert Matching(table, cursor)[1..] == Matching(table[1..], cursor);
      } else {
        assert Matching(table, cursor) == Matching(table[1..], cursor);
      }
    }
  }

  /** How many rows of a descending list are at or after the instant. */
  function Upto(rows: seq<Row>, at: Time): (n: nat)
    ensures n <= |rows|
  {
    if rows == [] || rows[0].at < at then 0 else 1 + Upto(rows[1..], at)
  }

  lemma {:induction false} BeforeIsASuffix(rows: seq<Row>, at: Time)
    requires IsDescending(rows)
    ensures Before(rows, at) == rows[Upto(rows, at)..]
    ensures forall k | 0 <= k < |rows| :: rows[k].at >= at ==> k < Upto(rows, at)
    ensures forall k | 0 <= k < Upto(rows, at) :: rows[k].at >= at
  {
    if rows != [] {
      var rest := rows[1..];
      BeforeIsASuffix(rest, at);
      if rows[0].at < at {
        assert Upto(rest, at) == 0 by {
          if rest != [] { assert rest[0].at <= rows[0].at; }
        }
        assert Before(rest, at) == rest;
        assert Before(rows, at) == [rows[0]] + rest == rows;
      } else {
        assert Before(rows, at) == Before(rest, at) == rest[Upto(rest, at)..] == rows[Upto(rows, at)..];
        forall k | 0 <= k < |rows|
          ensures rows[k].at >= at ==> k < Upto(rows, at)
          ensures k < Upto(rows, at) ==> rows[k].at >= at
        {
          if k > 0 { assert rows[k] == rest[k - 1]; }
        }
      }
    }
  }

  /** The rows after a page's cursor are a suffix of the rows the page was cut from. */
  lemma AfterTheCursor(table: seq<Row>, cursor: Option<Time>, at: Time)
    requires cursor.Some? ==> at <= cursor.value
    ensures var all := Descending(Matching(table, cursor));
            && IsDescending(all)
            && Descending(Matching(table, Some(at))) == all[Upto(all, at)..]
            && (forall k | 0 <= k < |all| :: all[k].at >= at ==> k < Upto(all, at))
            && (forall k | 0 <= k < Upto(all, at) :: all[k].at >= at)
  {
    var rows := Matching(table, cursor);
    DescendingSorts(rows);
    MatchingBefore(table, cursor, at);
    DescendingBefore(rows, at);
    BeforeIsASuffix(Descending(rows), at);
  }

  lemma {:induction false} MatchingIsBelow(table: seq<Row>, cursor: Option<Time>)
    ensures forall r | r in Matching(table, cursor) :: r in table && r.matches && (cursor.Some? ==> r.at < cursor.value)
  {
    if table != [] {
      MatchingIsBelow(table[1..], cursor);
    }
  }

  /** The row is on the list, and later than the cursor in its order. */
  predicate IsListed(r: Row, cursor: Option<Time>) {
    r.matches && match cursor case None => true case Some(at) => r.at < at
  }

  /** The query returns each listed row as often as the table has it, and no other. */
  lemma {:induction false} MatchingCounts(table: seq<Row>, cursor: Option<Time>, r: Row)
    ensures multiset(Matching(table, cursor))[r] == if IsListed(r, cursor) then multiset(table)[r] else 0
  {
    if table != [] {
      MatchingCounts(table[1..], cursor, r);
      assert table == [table[0]] + table[1..];
    }
  }

  /** The first n of a descending list, with what a row left out says about them. */
  lemma FirstOfDescending(all: seq<Row>, n: nat, r: Row)
    requires IsDescending(all) && n <= |all|
    ensures multiset(all[..n])[r] <= multiset(all)[r]
    ensures multiset(all[..n])[r] < multiset(all)[r] ==> forall k | 0 <= k < n :: all[k].at >= r.at
  {
    var rest := all[n..];
    assert all == all[..n] + rest;
    if multiset(all[..n])[r] < multiset(all)[r] {
      assert r in multiset(rest);
      var j :| 0 <= j < |rest| && rest[j] == r;
      assert all[n + j] == r;
    }
  }

  lemma ListedCounts(table: seq<Row>, cursor: Option<Time>, r: Row)
    ensures var all := Descending(Matching(table, cursor));
            IsDescending(all) && multiset(all)[r] == if IsListed(r, cursor) then multiset(table)[r] else 0
  {
    MatchingCounts(table, cursor, r);
    DescendingSorts(Matching(table, cursor));
  }

  lemma PageIsFull(table: seq<Row>, cursor: Option<Time>, limit: int)
    ensures var page, all := List(table, cursor, limit), Descending(Matching(table, cursor));
            && |page.rows| <= |all| && page.rows == all[..|page.rows|] && |page.rows| <= Clamp(limit)
            && (page.next.None? ==> |page.rows| == |all|)
            && (page.next.Some? ==> |page.rows| == Clamp(limit) < |all|)
  {
  }

  /** A page shows all there is, or as many rows as it has room for, with none left out that is newer than one shown. */
  lemma PageShowsTheNewest(table: seq<Row>, cursor: Option<Time>, limit: int, r: Row)
    ensures var page := List(table, cursor, limit);
            var there := if IsListed(r, cursor) then multiset(table)[r] else 0;
            && |page.rows| <= Clamp(limit)
            && multiset(page.rows)[r] <= there
            && (page.next.None? ==> multiset(page.rows)[r] == there)
            && (page.next.Some? ==> |page.rows| == Clamp(limit))
            && (multiset(page.rows)[r] < there ==> forall k | 0 <= k < |page.rows| :: page.rows[k].at >= r.at)
  {
    var page := List(table, cursor, limit);
    var all := Descending(Matching(table, cursor));
    PageIsFull(table, cursor, limit);
    ListedCounts(table, cursor, r);
    FirstOfDescending(all, |page.rows|, r);
    assert page.rows == all[..|page.rows|] && all[..|all|] == all;
  }

  lemma ListedRowsMatch(table: seq<Row>, cursor: Option<Time>, k: nat)
    requires k < |Descending(Matching(table, cursor))|
    ensures var r := Descending(Matching(table, cursor))[k];
            r in table && r.matches && (cursor.Some? ==> r.at < cursor.value)
  {
    var all := Descending(Matching(table, cursor));
    DescendingSorts(Matching(table, cursor));
    assert all[k] in multiset(all);
    assert all[k] in multiset(Matching(table, cursor));
    MatchingIsBelow(table, cursor);
  }

  /** A page with a next cursor is the first rows of what there is, and the cursor is the last one's timestamp. */
  lemma PageIsAPrefix(table: seq<Row>, cursor: Option<Time>, limit: int)
    requires List(table, cursor, limit).next.Some?
    ensures var all, c, at := Descending(Matching(table, cursor)), Clamp(limit), List(table, cursor, limit).next.value;
            |all| > c && at == all[c - 1].at && List(table, cursor, limit).rows == all[..c]
  {
  }

  /** What lies after the c-th row's timestamp: a suffix from at least c on. */
  lemma RestIsSmaller(all: seq<Row>, rest: seq<Row>, c: nat, at: Time)
    requires IsDescending(all) && 1 <= c < |all| && at == all[c - 1].at && rest == all[Upto(all, at)..]
    requires forall k | 0 <= k < |all| :: all[k].at >= at ==> k < Upto(all, at)
    requires forall k | 0 <= k < Upto(all, at) :: all[k].at >= at
    ensures c <= Upto(all, at) && |rest| <= |all| - c
    ensures Upto(all, at) == c <==> all[c].at < at
  {
  }

  /** The next cursor is the timestamp of a row of the page, so the rows after it are fewer. */
  lemma NextPageIsSmaller(table: seq<Row>, cursor: Option<Time>, limit: int)
    requires List(table, cursor, limit).next.Some?
    ensures var all, c, at := Descending(Matching(table, cursor)), Clamp(limit), List(table, cursor, limit).next.value;
            && |all| > c && at == all[c - 1].at && List(table, cursor, limit).rows == all[..c]
            && c <= Upto(all, at)
            && Descending(Matching(table, Some(at))) == all[Upto(all, at)..]
            && |Matching(table, Some(at))| <= |Matching(table, cursor)| - c
            && (Upto(all, at) == c <==> all[c].at < at)
  {
    var all, c, at := Descending(Matching(table, cursor)), Clamp(limit), List(table, cursor, limit).next.value;
    PageIsAPrefix(table, cursor, limit);
    DescendingLength(Matching(table, cursor));
    ListedRowsMatch(table, cursor, c - 1);
    AfterTheCursor(table, cursor, at);
    DescendingLength(Matching(table, Some(at)));
    RestIsSmaller(all, Descending(Matching(table, Some(at))), c, at);
  }

  // ---------------------------------------------------------------------------
  // Following the cursor
  // ---------------------------------------------------------------------------

  /** All pages from a cursor on, one after the other. */
  function Walk(table: seq<Row>, cursor: Option<Time>, limit: int): seq<Row>
    decreases |Matching(table, cursor)|
  {
    var page := List(table, cursor, limit);
    if page.next.None? then page.rows
    else
      NextPageIsSmaller(table, cursor, limit);
      page.rows + Walk(table, page.next, limit)
  }

  /** No page ends between two rows of one instant. */
  predicate CutsNoTie(all: seq<Row>, c: nat)
    requires c >= 1
  {
    |all| <= c || (all[c].at < all[c - 1].at && CutsNoTie(all[c..], c))
  }

  /** One page and what the walk over the remaining rows shows. */
  lemma CompleteExactlyWhenTheRestIs(all: seq<Row>, c: nat, n: nat, rest: seq<Row>)
    requires 1 <= c < |all| && c <= n <= |all| && (n == c <==> all[c].at < all[c - 1].at)
    requires |rest| <= |all[n..]|
    requires rest == all[n..] <==> CutsNoTie(all[n..], c)
    requires rest == all[n..] <==> |rest| == |all[n..]|
    ensures |all[..c] + rest| <= |all|
    ensures all[..c] + rest == all <==> CutsNoTie(all, c)
    ensures all[..c] + rest == all <==> |all[..c] + rest| == |all|
  {
    if n == c {
      assert all == all[..c] + all[c..];
      if all[..c] + rest == all { assert (all[..c] + rest)[c..] == rest; }
    }
  }

  /**
   Following next_cursor ends, never shows more than there is, and shows the whole list in order exactly
   when no page boundary falls between rows of one instant.
   */
  lemma {:induction false} WalkIsCompleteExactlyWhen(table: seq<Row>, cursor: Option<Time>, limit: int)
    ensures var all := Descending(Matching(table, cursor));
            && |Walk(table, cursor, limit)| <= |all|
            && (Walk(table, cursor, limit) == all <==> CutsNoTie(all, Clamp(limit)))
            && (Walk(table, cursor, limit) == all <==> |Walk(table, cursor, limit)| == |all|)
    decreases |Matching(table, cursor)|
  {
    var page := List(table, cursor, limit);
    var all, c := Descending(Matching(table, cursor)), Clamp(limit);
    if page.next.Some? {
      NextPageIsSmaller(table, cursor, limit);
      WalkIsCompleteExactlyWhen(table, page.next, limit);
      CompleteExactlyWhenTheRestIs(all, c, Upto(all, page.next.value), Walk(table, page.next, limit));
    }
  }

  predicate DistinctTimes(rows: seq<Row>) {
    forall i, j | 0 <= i < j < |rows| :: rows[i].at != rows[j].at
  }

  lemma {:induction false} DistinctTimesAreNotCut(all: seq<Row>, c: nat)
    requires c >= 1 && IsDescending(all) && DistinctTimes(all)
    ensures CutsNoTie(all, c)
    decreases |all|
  {
    if |all| > c {
      DistinctTimesAreNotCut(all[c..], c);
    }
  }

  lemma {:induction false} OneByOneCutsEveryTie(all: seq<Row>)
    requires IsDescending(all) && CutsNoTie(all, 1)
    ensures DistinctTimes(all)
  {
    if |all| > 1 {
      OneByOneCutsEveryTie(all[1..]);
      forall j | 0 < j < |all|
        ensures all[j].at < all[0].at
      {
        assert all[j].at <= all[1].at;
      }
    }
  }

  /** No two listed rows of the table are of one instant. */
  predicate DistinctListed(table: seq<Row>) {
    forall i, j | 0 <= i < j < |table| && table[i].matches && table[j].matches :: table[i].at != table[j].at
  }

  lemma OneMoreTime(row: Row, rows: seq<Row>)
    ensures DistinctTimes([row] + rows) <==> DistinctTimes(rows) && forall r | r in rows :: r.at != row.at
  {
    var longer := [row] + rows;
    if DistinctTimes(longer) {
      forall i, j | 0 <= i < j < |rows|
        ensures rows[i].at != rows[j].at
      {
        assert longer[i + 1].at != longer[j + 1].at;
      }
      forall r | r in rows
        ensures r.at != row.at
      {
        var k :| 0 <= k < |rows| && rows[k] == r;
        assert longer[0].at != longer[k + 1].at;
      }
    }
  }

  lemma {:induction false} InsertKeepsTimes(row: Row, sorted: seq<Row>)
    ensures DistinctTimes(Insert(row, sorted)) <==> DistinctTimes([row] + sorted)
    ensures forall r :: r in Insert(row, sorted) <==> r == row || r in sorted
  {
    if sorted != [] && sorted[0].at > row.at {
      InsertKeepsTimes(row, sorted[1..]);
      assert sorted == [sorted[0]] + sorted[1..];
      OneMoreTime(sorted[0], Insert(row, sorted[1..]));
      OneMoreTime(row, sorted[1..]);
      OneMoreTime(sorted[0], sorted[1..]);
      OneMoreTime(row, sorted);
    }
  }

  lemma {:induction false} DescendingKeepsTimes(rows: seq<Row>)
    ensures DistinctTimes(Descending(rows)) <==> DistinctTimes(rows)
    ensures forall r :: r in Descending(rows) <==> r in rows
  {
    if rows != [] {
      DescendingKeepsTimes(rows[1..]);
      InsertKeepsTimes(rows[0], Descending(rows[1..]));
      assert rows == [rows[0]] + rows[1..];
      OneMoreTime(rows[0], rows[1..]);
      OneMoreTime(rows[0], Descending(rows[1..]));
    }
  }

  lemma OneMoreListed(row: Row, rest: seq<Row>)
    ensures DistinctListed([row] + rest) <==>
              DistinctListed(rest) && (row.matches ==> forall r | r in rest && r.matches :: r.at != row.at)
  {
    var longer := [row] + rest;
    if DistinctListed(longer) {
      forall i, j | 0 <= i < j < |rest| && rest[i].matches && rest[j].matches
        ensures rest[i].at != rest[j].at
      {
        assert longer[i + 1].at != longer[j + 1].at;
      }
      forall r | r in rest && r.matches && row.matches
        ensures r.at != row.at
      {
        var k :| 0 <= k < |rest| && rest[k] == r;
        assert longer[0].at != longer[k + 1].at;
      }
    }
  }

  lemma {:induction false} ListedMembers(table: seq<Row>)
    ensures forall r :: r in Matching(table, None) <==> r in table && r.matches
  {
    if table != [] {
      ListedMembers(table[1..]);
      assert table == [table[0]] + table[1..];
    }
  }

  lemma {:induction false} ListedTimes(table: seq<Row>)
    ensures DistinctTimes(Matching(table, None)) <==> DistinctListed(table)
  {
    if table != [] {
      var row, rest := table[0], table[1..];
      ListedTimes(rest);
      ListedMembers(rest);
      OneMoreListed(row, rest);
      assert table == [row] + rest;
      if row.matches {
        OneMoreTime(row, Matching(rest, None));
      } else {
        assert Matching(table, None) == Matching(rest, None);
      }
    }
  }

  lemma ListedTimesAreDistinct(table: seq<Row>)
    ensures DistinctTimes(Descending(Matching(table, None))) <==> DistinctListed(table)
  {
    DescendingKeepsTimes(Matching(table, None));
    ListedTimes(table);
  }

  /** Each listed row of the table as often as it is there, and no other. */
  ghost predicate ShowsAll(shown: seq<Row>, table: seq<Row>) {
    forall r :: multiset(shown)[r] == if r.matches then multiset(table)[r] else 0
  }

  lemma ShowsAllExactly(shown: seq<Row>, table: seq<Row>)
    ensures ShowsAll(shown, table) <==> multiset(shown) == multiset(Matching(table, None))
  {
    var wanted := multiset(Matching(table, None));
    forall r
      ensures wanted[r] == if r.matches then multiset(table)[r] else 0
    {
      MatchingCounts(table, None, r);
    }
    if ShowsAll(shown, table) {
      assert forall r :: multiset(shown)[r] == wanted[r];
    }
  }

  /** With distinct timestamps every limit shows every listed row exactly as often as the table has it, newest first. */
  lemma DistinctTimesAreWalkedInFull(table: seq<Row>, limit: int)
    requires DistinctListed(table)
    ensures IsDescending(Walk(table, None, limit)) && ShowsAll(Walk(table, None, limit), table)
  {
    var rows := Matching(table, None);
    ListedTimesAreDistinct(table);
    DescendingSorts(rows);
    DistinctTimesAreNotCut(Descending(rows), Clamp(limit));
    WalkIsCompleteExactlyWhen(table, None, limit);
    ShowsAllExactly(Walk(table, None, limit), table);
  }

  /** And only then: with two rows of one instant, pages of one row lose a row. */
  lemma SinglePagesNeedDistinctTimes(table: seq<Row>)
    ensures ShowsAll(Walk(table, None, 1), table) <==> DistinctListed(table)
  {
    var all := Descending(Matching(table, None));
    DescendingSorts(Matching(table, None));
    WalkIsCompleteExactlyWhen(table, None, 1);
    ListedTimesAreDistinct(table);
    ShowsAllExactly(Walk(table, None, 1), table);
    if DistinctListed(table) {
      DistinctTimesAreWalkedInFull(table, 1);
    } else if multiset(Walk(table, None, 1)) == multiset(Matching(table, None)) {
      assert |multiset(Walk(table, None, 1))| == |multiset(all)|;
      OneByOneCutsEveryTie(all);
    }
  }

  lemma ConcatDescends(a: seq<Row>, b: seq<Row>, at: Time)
    requires IsDescending(a) && IsDescending(b)
    requires forall k | 0 <= k < |a| :: a[k].at >= at
    requires forall k | 0 <= k < |b| :: b[k].at < at
    ensures IsDescending(a + b)
  {
  }

  lemma PageRowsMatch(table: seq<Row>, cursor: Option<Time>, limit: int, k: nat)
    requires k < |List(table, cursor, limit).rows|
    ensures var r := List(table, cursor, limit).rows[k];
            && r in table && r.matches && (cursor.Some? ==> r.at < cursor.value)
            && (List(table, cursor, limit).next.Some? ==> r.at >= List(table, cursor, limit).next.value)
  {
    var all := Descending(Matching(table, cursor));
    DescendingSorts(Matching(table, cursor));
    ListedRowsMatch(table, cursor, k);
  }

  /** Ties or not, every row shown matches. */
  lemma {:induction false} WalkShowsMatches(table: seq<Row>, cursor: Option<Time>, limit: int, k: nat)
    requires k < |Walk(table, cursor, limit)|
    ensures var r := Walk(table, cursor, limit)[k];
            r in table && r.matches && (cursor.Some? ==> r.at < cursor.value)
    decreases |Matching(table, cursor)|
  {
    var page := List(table, cursor, limit);
    if k < |page.rows| {
      PageRowsMatch(table, cursor, limit, k);
    } else {
      NextPageIsSmaller(table, cursor, limit);
      ListedRowsMatch(table, cursor, Clamp(limit) - 1);
      WalkShowsMatches(table, page.next, limit, k - |page.rows|);
    }
  }

  lemma ShownIsBefore(table: seq<Row>, at: Time, limit: int)
    ensures forall k | 0 <= k < |Walk(table, Some(at), limit)| :: Walk(table, Some(at), limit)[k].at < at
  {
    forall k | 0 <= k < |Walk(table, Some(at), limit)|
      ensures Walk(table, Some(at), limit)[k].at < at
    {
      WalkShowsMatches(table, Some(at), limit, k);
    }
  }

  lemma PageIsFrom(table: seq<Row>, cursor: Option<Time>, limit: int)
    requires List(table, cursor, limit).next.Some?
    ensures var page := List(table, cursor, limit);
            IsDescending(page.rows) && forall k | 0 <= k < |page.rows| :: page.rows[k].at >= page.next.value
  {
    DescendingSorts(Matching(table, cursor));
    PageIsAPrefix(table, cursor, limit);
  }

  /** And none is shown after an older one. */
  lemma {:induction false} WalkDescends(table: seq<Row>, cursor: Option<Time>, limit: int)
    ensures IsDescending(Walk(table, cursor, limit))
    decreases |Matching(table, cursor)|
  {
    var page := List(table, cursor, limit);
    DescendingSorts(Matching(table, cursor));
    if page.next.Some? {
      NextPageIsSmaller(table, cursor, limit);
      WalkDescends(table, page.next, limit);
      ShownIsBefore(table, page.next.value, limit);
      PageIsFrom(table, cursor, limit);
      ConcatDescends(page.rows, Walk(table, page.next, limit), page.next.value);
    }
  }
}
