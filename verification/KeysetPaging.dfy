/**
 Lists paged by keyset cursors: each page asks for the rows strictly after the
 sort key of the last row returned, and for one row more than it shows.
 */
module KeysetPaging {
  import opened Wrappers
  import opened Json

  // ---------------------------------------------------------------- sort keys

  datatype Column = Number(value: real) | Text(text: string)

  datatype Direction = Ascending | Descending

  type Key = seq<Column>

  predicate TextLess(a: string, b: string) {
    a != b && AtMost(a, b)
  }

  /** SQL's order of values: numbers before texts, texts by code point. */
  predicate Less(a: Column, b: Column) {
    match (a, b)
    case (Number(x), Number(y)) => x < y
    case (Number(_), Text(_)) => true
    case (Text(_), Number(_)) => false
    case (Text(x), Text(y)) => TextLess(x, y)
  }

  predicate Precedes(direction: Direction, a: Column, b: Column) {
    match direction
    case Ascending => Less(a, b)
    case Descending => Less(b, a)
  }

  /** `ORDER BY`: the first column that differs decides, in its direction. */
  predicate Before(order: seq<Direction>, a: Key, b: Key)
    requires |a| == |b| == |order|
  {
    order != []
    && (Precedes(order[0], a[0], b[0]) || (a[0] == b[0] && Before(order[1..], a[1..], b[1..])))
  }

  lemma LessIsTotal(a: Column, b: Column)
    ensures Less(a, b) || Less(b, a) || a == b
    ensures !(Less(a, b) && Less(b, a)) && !Less(a, a)
  {
    if a.Text? && b.Text? {
      AtMostIsTotal(a.text, b.text);
    }
  }

  lemma LessIsTransitive(a: Column, b: Column, c: Column)
    requires Less(a, b) && Less(b, c)
    ensures Less(a, c)
  {
    LessIsTotal(a, b);
    LessIsTotal(b, c);
    if a.Text? && b.Text? && c.Text? {
      AtMostIsTransitive(a.text, b.text, c.text);
      AtMostIsTotal(a.text, b.text);
      AtMostIsTotal(b.text, c.text);
    }
  }

  lemma {:induction false} BeforeIsTotal(order: seq<Direction>, a: Key, b: Key)
    requires |a| == |b| == |order|
    ensures Before(order, a, b) || Before(order, b, a) || a == b
    ensures !(Before(order, a, b) && Before(order, b, a)) && !Before(order, a, a)
  {
    if order != [] {
      LessIsTotal(a[0], b[0]);
      LessIsTotal(a[0], a[0]);
      BeforeIsTotal(order[1..], a[1..], b[1..]);
      assert a == [a[0]] + a[1..] && b == [b[0]] + b[1..];
    }
  }

  lemma {:induction false} BeforeIsTransitive(order: seq<Direction>, a: Key, b: Key, c: Key)
    requires |a| == |b| == |c| == |order| && Before(order, a, b) && Before(order, b, c)
    ensures Before(order, a, c)
  {
    var d := order[0];
    if Precedes(d, a[0], b[0]) && Precedes(d, b[0], c[0]) {
      if d == Ascending {
        LessIsTransitive(a[0], b[0], c[0]);
      } else {
        LessIsTransitive(c[0], b[0], a[0]);
      }
    } else if a[0] == b[0] == c[0] {
      LessIsTotal(a[0], a[0]);
      BeforeIsTransitive(order[1..], a[1..], b[1..], c[1..]);
    }
  }

  // ---------------------------------------------------------------- queries

  datatype Row<T> = Row(key: Key, item: T)

  ghost predicate Fits<T>(order: seq<Direction>, rows: seq<Row<T>>) {
    forall i :: 0 <= i < |rows| ==> |rows[i].key| == |order|
  }

  /** The last column of every key is unique, so the keys are. */
  ghost predicate DistinctKeys<T>(rows: seq<Row<T>>) {
    forall i, j :: 0 <= i < j < |rows| ==> rows[i].key != rows[j].key
  }

  ghost predicate Sorted<T>(order: seq<Direction>, rows: seq<Row<T>>)
    requires Fits(order, rows)
  {
    forall i, j :: 0 <= i < j < |rows| ==> Before(order, rows[i].key, rows[j].key)
  }

  function Insert<T>(order: seq<Direction>, row: Row<T>, rows: seq<Row<T>>): (r: seq<Row<T>>)
    requires Fits(order, rows) && |row.key| == |order|
    ensures Fits(order, r) && multiset(r) == multiset(rows) + multiset{row}
  {
    if rows == [] then [row]
    else if Before(order, row.key, rows[0].key) then [row] + rows
    else
      assert rows == [rows[0]] + rows[1..];
      [rows[0]] + Insert(order, row, rows[1..])
  }

  /** `ORDER BY` */
  function OrderBy<T>(order: seq<Direction>, rows: seq<Row<T>>): (r: seq<Row<T>>)
    requires Fits(order, rows)
    ensures Fits(order, r) && multiset(r) == multiset(rows)
  {
    if rows == [] then []
    else
      assert rows == [rows[0]] + rows[1..];
      Insert(order, rows[0], OrderBy(order, rows[1..]))
  }

  /** `WHERE key > ?` in the sense of the order. */
  function After<T>(order: seq<Direction>, rows: seq<Row<T>>, position: Key): (r: seq<Row<T>>)
    requires Fits(order, rows) && |position| == |order|
    ensures Fits(order, r)
  {
    if rows == [] then []
    else if Before(order, position, rows[0].key) then [rows[0]] + After(order, rows[1..], position)
    else After(order, rows[1..], position)
  }

  function Take<T>(rows: seq<Row<T>>, n: nat): seq<Row<T>> {
    if |rows| > n then rows[..n] else rows
  }

  datatype Page<T> = Page(items: seq<Row<T>>, next: Option<Key>)

  /** One page: `LIMIT limit + 1`, and a cursor only if the extra row was there. */
  function ListPage<T>(order: seq<Direction>, rows: seq<Row<T>>, position: Option<Key>, limit: nat): Page<T>
    requires Fits(order, rows) && limit > 0 && (position.Some? ==> |position.value| == |order|)
  {
    var matching := if position.Some? then After(order, rows, position.value) else rows;
    var fetched := Take(OrderBy(order, matching), limit + 1);
    Page(Take(fetched, limit), if |fetched| > limit then Some(fetched[limit - 1].key) else None)
  }

  // ---------------------------------------------------------------- sorting and filtering

  lemma {:induction false} InsertSorts<T>(order: seq<Direction>, row: Row<T>, rows: seq<Row<T>>)
    requires Fits(order, rows) && |row.key| == |order| && Sorted(order, rows)
    requires forall i :: 0 <= i < |rows| ==> rows[i].key != row.key
    ensures Sorted(order, Insert(order, row, rows))
  {
    hide Before;
    if rows != [] {
      if Before(order, row.key, rows[0].key) {
        forall i | 0 < i < |rows|
          ensures Before(order, row.key, rows[i].key)
        {
          BeforeIsTransitive(order, row.key, rows[0].key, rows[i].key);
        }
      } else {
        BeforeIsTotal(order, row.key, rows[0].key);
        InsertSorts(order, row, rows[1..]);
        var rest := Insert(order, row, rows[1..]);
        forall i | 0 <= i < |rest|
          ensures Before(order, rows[0].key, rest[i].key)
        {
          assert rest[i] in multiset(rest);
          assert rest[i] in rows[1..] || rest[i] == row;
        }
      }
    }
  }

  lemma {:induction false} OrderBySorts<T>(order: seq<Direction>, rows: seq<Row<T>>)
    requires Fits(order, rows) && DistinctKeys(rows)
    ensures Sorted(order, OrderBy(order, rows))
  {
    if rows != [] {
      OrderBySorts(order, rows[1..]);
      var rest := OrderBy(order, rows[1..]);
      forall i | 0 <= i < |rest|
        ensures rest[i].key != rows[0].key
      {
        assert rest[i] in multiset(rows[1..]);
      }
      InsertSorts(order, rows[0], rest);
    }
  }

  lemma {:induction false} AfterCounts<T>(order: seq<Direction>, rows: seq<Row<T>>, position: Key, x: Row<T>)
    requires Fits(order, rows) && |position| == |order|
    ensures multiset(After(order, rows, position))[x]
            == if |x.key| == |order| && Before(order, position, x.key) then multiset(rows)[x] else 0
  {
    if rows != [] {
      assert rows == [rows[0]] + rows[1..];
      AfterCounts(order, rows[1..], position, x);
    }
  }

  lemma SameElements<T>(a: seq<Row<T>>, b: seq<Row<T>>)
    requires multiset(a) == multiset(b)
    ensures forall x :: x in a <==> x in b
  {
    forall x
      ensures x in a <==> x in b
    {
      assert x in multiset(a) <==> x in multiset(b);
    }
  }

  /** Two sorted lists of the same rows start with the same row. */
  lemma SameFirst<T>(order: seq<Direction>, a: seq<Row<T>>, b: seq<Row<T>>)
    requires Fits(order, a) && Fits(order, b) && Sorted(order, a) && Sorted(order, b)
    requires multiset(a) == multiset(b) && a != [] && b != []
    ensures a[0] == b[0]
  {
    hide Before;
    SameElements(a, b);
    assert a[0] in a && b[0] in b;
    BeforeIsTotal(order, a[0].key, b[0].key);
  }

  lemma TailsMatch<T>(a: seq<T>, b: seq<T>)
    requires multiset(a) == multiset(b) && a != [] && b != [] && a[0] == b[0]
    ensures multiset(a[1..]) == multiset(b[1..])
  {
    assert a == [a[0]] + a[1..] && b == [b[0]] + b[1..];
    assert multiset(a[1..]) == multiset(a) - multiset{a[0]};
    assert multiset(b[1..]) == multiset(b) - multiset{b[0]};
  }

  lemma SameLength<T>(a: seq<T>, b: seq<T>)
    requires multiset(a) == multiset(b)
    ensures |a| == |b|
  {
    assert |a| == |multiset(a)| == |multiset(b)| == |b|;
  }

  lemma {:induction false} SortedIsUnique<T>(order: seq<Direction>, a: seq<Row<T>>, b: seq<Row<T>>)
    requires Fits(order, a) && Fits(order, b) && Sorted(order, a) && Sorted(order, b)
    requires multiset(a) == multiset(b)
    ensures a == b
  {
    hide Before;
    SameLength(a, b);
    if a != [] {
      SameFirst(order, a, b);
      TailsMatch(a, b);
      TailIsSorted(order, a, 1);
      TailIsSorted(order, b, 1);
      hide Sorted, Fits;
      SortedIsUnique(order, a[1..], b[1..]);
      assert a == [a[0]] + a[1..] && b == [b[0]] + b[1..];
    }
  }

  /** Of a sorted list, what comes after an element is the list after it. */
  lemma {:induction false} AfterOfSorted<T>(order: seq<Direction>, rows: seq<Row<T>>, k: nat)
    requires Fits(order, rows) && Sorted(order, rows) && k < |rows|
    ensures After(order, rows, rows[k].key) == rows[k + 1..]
  {
    if k == 0 {
      BeforeIsTotal(order, rows[0].key, rows[0].key);
      AllAfter(order, rows[1..], rows[0].key);
    } else {
      BeforeIsTotal(order, rows[0].key, rows[k].key);
      AfterOfSorted(order, rows[1..], k - 1);
      assert rows[1..][k..] == rows[k + 1..];
    }
  }

  lemma {:induction false} AllAfter<T>(order: seq<Direction>, rows: seq<Row<T>>, position: Key)
    requires Fits(order, rows) && |position| == |order|
    requires forall i :: 0 <= i < |rows| ==> Before(order, position, rows[i].key)
    ensures After(order, rows, position) == rows
  {
    if rows != [] {
      AllAfter(order, rows[1..], position);
    }
  }

  lemma {:induction false} NoneAfter<T>(order: seq<Direction>, rows: seq<Row<T>>, more: seq<Row<T>>, position: Key)
    requires Fits(order, rows) && Fits(order, more) && |position| == |order|
    requires forall i :: 0 <= i < |more| ==> Before(order, more[i].key, position)
    ensures Fits(order, rows + more)
    ensures After(order, rows + more, position) == After(order, rows, position)
  {
    if rows != [] {
      assert (rows + more)[1..] == rows[1..] + more;
      NoneAfter(order, rows[1..], more, position);
    } else if more != [] {
      assert rows + more == more && (rows + more)[1..] == [] + more[1..];
      BeforeIsTotal(order, more[0].key, position);
      NoneAfter(order, rows, more[1..], position);
    } else {
      assert rows + more == rows;
    }
  }

  lemma {:induction false} AfterKeepsDistinct<T>(order: seq<Direction>, rows: seq<Row<T>>, position: Key)
    requires Fits(order, rows) && DistinctKeys(rows) && |position| == |order|
    ensures DistinctKeys(After(order, rows, position))
    ensures forall x :: x in After(order, rows, position) ==> x in rows
  {
    if rows != [] {
      AfterKeepsDistinct(order, rows[1..], position);
      var rest := After(order, rows[1..], position);
      forall i | 0 <= i < |rest|
        ensures rest[i].key != rows[0].key
      {
        assert rest[i] in rows[1..];
      }
    }
  }

  lemma OrderByLength<T>(order: seq<Direction>, rows: seq<Row<T>>)
    requires Fits(order, rows)
    ensures |OrderBy(order, rows)| == |rows|
  {
    assert |OrderBy(order, rows)| == |multiset(OrderBy(order, rows))| == |multiset(rows)| == |rows|;
  }

  lemma AfterOfPermutation<T>(order: seq<Direction>, a: seq<Row<T>>, b: seq<Row<T>>, position: Key)
    requires Fits(order, a) && Fits(order, b) && multiset(a) == multiset(b) && |position| == |order|
    ensures multiset(After(order, a, position)) == multiset(After(order, b, position))
  {
    hide *;
    forall x: Row<T>
      ensures multiset(After(order, a, position))[x] == multiset(After(order, b, position))[x]
    {
      AfterCounts(order, a, position, x);
      AfterCounts(order, b, position, x);
    }
    SameCounts(multiset(After(order, a, position)), multiset(After(order, b, position)));
  }

  lemma SameCounts<X>(a: multiset<X>, b: multiset<X>)
    requires forall x: X :: a[x] == b[x]
    ensures a == b
  {
  }

  lemma TailIsSorted<T>(order: seq<Direction>, rows: seq<Row<T>>, k: nat)
    requires Fits(order, rows) && Sorted(order, rows) && k <= |rows|
    ensures Fits(order, rows[k..]) && Sorted(order, rows[k..])
  {
  }

  /** Filtering and then ordering gives the rest of the ordered list. */
  lemma RestOfList<T>(order: seq<Direction>, rows: seq<Row<T>>, k: nat)
    requires Fits(order, rows) && DistinctKeys(rows) && k < |rows|
    ensures |OrderBy(order, rows)| == |rows|
    ensures OrderBy(order, After(order, rows, OrderBy(order, rows)[k].key)) == OrderBy(order, rows)[k + 1..]
  {
    hide Insert, OrderBy, After, Before, Sorted, DistinctKeys;
    OrderByLength(order, rows);
    var sorted := OrderBy(order, rows);
    var position := sorted[k].key;
    OrderBySorts(order, rows);
    AfterOfSorted(order, sorted, k);
    AfterOfPermutation(order, rows, sorted, position);
    AfterKeepsDistinct(order, rows, position);
    OrderBySorts(order, After(order, rows, position));
    TailIsSorted(order, sorted, k + 1);
    SortedIsUnique(order, OrderBy(order, After(order, rows, position)), sorted[k + 1..]);
  }

  // ---------------------------------------------------------------- following the cursors

  /** Rows that arrived after the first page, all of which sort before everything that was there. */
  ghost predicate ArrivedInFront<T>(order: seq<Direction>, rows: seq<Row<T>>, table: seq<Row<T>>)
    requires Fits(order, rows)
  {
    && |rows| <= |table| && table[..|rows|] == rows && Fits(order, table)
    && forall i, j :: 0 <= i < |rows| <= j < |table| ==> Before(order, table[j].key, rows[i].key)
  }

  lemma ArrivedFits<T>(order: seq<Direction>, rows: seq<Row<T>>, table: seq<Row<T>>)
    requires Fits(order, rows) && ArrivedInFront(order, rows, table)
    ensures Fits(order, table)
  {
  }

  /** A page after the first does not depend on rows that arrived in front. */
  lemma PageIgnoresArrivals<T>(order: seq<Direction>, rows: seq<Row<T>>, table: seq<Row<T>>, k: nat, limit: nat)
    requires Fits(order, rows) && DistinctKeys(rows) && ArrivedInFront(order, rows, table) && k < |rows| && limit > 0
    ensures |OrderBy(order, rows)| == |rows|
    ensures ListPage(order, table, Some(OrderBy(order, rows)[k].key), limit) == ListPage(order, rows, Some(OrderBy(order, rows)[k].key), limit)
  {
    hide OrderBy, After, Before, DistinctKeys;
    OrderByLength(order, rows);
    var row := OrderBy(order, rows)[k];
    assert row in multiset(rows);
    var i :| 0 <= i < |rows| && rows[i] == row;
    assert table == rows + table[|rows|..];
    NoneAfter(order, rows, table[|rows|..], row.key);
  }

  lemma PageOfRest<T>(sorted: seq<Row<T>>, k: nat, limit: nat)
    requires k <= |sorted| && limit > 0
    ensures
      var fetched := Take(sorted[k..], limit + 1);
      if k + limit < |sorted| then |fetched| == limit + 1 && Take(fetched, limit) == sorted[k..k + limit] && fetched[limit - 1] == sorted[k + limit - 1]
      else |fetched| <= limit && Take(fetched, limit) == sorted[k..]
  {
  }

  /** The page at place `k` of the ordered list. */
  lemma PageAt<T>(order: seq<Direction>, rows: seq<Row<T>>, k: nat, limit: nat)
    requires Fits(order, rows) && DistinctKeys(rows) && k <= |rows| && limit > 0
    ensures |OrderBy(order, rows)| == |rows|
    ensures
      var sorted := OrderBy(order, rows);
      var page := ListPage(order, rows, if k == 0 then None else Some(sorted[k - 1].key), limit);
      if k + limit < |rows| then page == Page(sorted[k..k + limit], Some(sorted[k + limit - 1].key))
      else page == Page(sorted[k..], None)
  {
    hide OrderBy, After, DistinctKeys, Take, Before, Sorted;
    OrderByLength(order, rows);
    var sorted := OrderBy(order, rows);
    if k > 0 {
      RestOfList(order, rows, k - 1);
    } else {
      assert sorted[0..] == sorted;
    }
    PageOfRest(sorted, k, limit);
  }

  /**
   Following cursors from the start ends, and returns every row of the first
   page's table exactly once in the advertised order - also while rows that sort
   in front keep arriving; `tables[i]` is the table that page i reads.
   */
  method FollowCursors<T>(order: seq<Direction>, tables: seq<seq<Row<T>>>, limit: nat) returns (all: seq<Row<T>>)
    requires tables != [] && limit > 0
    requires Fits(order, tables[0]) && DistinctKeys(tables[0])
    requires forall i :: 0 <= i < |tables| ==> ArrivedInFront(order, tables[0], tables[i])
    ensures all == OrderBy(order, tables[0]) && multiset(all) == multiset(tables[0])
  {
    hide OrderBy, ListPage, DistinctKeys, ArrivedInFront;
    ghost var rows := tables[0];
    ghost var sorted := OrderBy(order, rows);
    OrderByLength(order, rows);
    all := [];
    var position := None;
    var turn, done := 0, false;
    while !done
      invariant |all| <= |rows| && all == sorted[..|all|]
      invariant turn == 0 <==> all == [] && !done
      invariant !done && turn > 0 ==> |all| < |rows| && position == Some(sorted[|all| - 1].key)
      invariant turn == 0 ==> position == None
      invariant done ==> all == sorted
      decreases !done, |rows| - |all|
    {
      var table := if turn < |tables| then tables[turn] else tables[|tables| - 1];
      ArrivedFits(order, rows, table);
      PageAt(order, rows, |all|, limit);
      if turn > 0 {
        PageIgnoresArrivals(order, rows, table, |all| - 1, limit);
      }
      var page := ListPage(order, table, position, limit);
      all := all + page.items;
      position := page.next;
      turn := turn + 1;
      done := page.next.None?;
    }
  }
}
