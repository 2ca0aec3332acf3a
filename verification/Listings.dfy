/** The paged lists of the dashboard: their sort orders, and the conditions their cursors turn into. */
module Listings {
  import opened Wrappers
  import opened Json
  import opened KeysetPaging

  // ---------------------------------------------------------------- rows and conditions of any list

  /** The rows of a query over `items` whose sort columns are `key`. */
  function RowsOf<T>(items: seq<T>, key: T -> Key): seq<Row<T>> {
    seq(|items|, i requires 0 <= i < |items| => Row(key(items[i]), items[i]))
  }

  /** The `WHERE` clause. */
  function Select<T>(items: seq<T>, wanted: T -> bool): seq<T> {
    if items == [] then []
    else (if wanted(items[0]) then [items[0]] else []) + Select(items[1..], wanted)
  }

  /** If a condition means "strictly after the position" for every item, it selects the rows after the position. */
  lemma {:induction false} SelectIsAfter<T>(order: seq<Direction>, items: seq<T>, key: T -> Key, wanted: T -> bool, position: Key)
    requires |position| == |order| && forall x: T :: x in items ==> |key(x)| == |order|
    requires forall x: T :: x in items ==> (wanted(x) <==> Before(order, position, key(x)))
    ensures Fits(order, RowsOf(items, key))
    ensures RowsOf(Select(items, wanted), key) == After(order, RowsOf(items, key), position)
  {
    hide Before;
    var rows := RowsOf(items, key);
    if items != [] {
      SelectIsAfter(order, items[1..], key, wanted, position);
      assert rows[1..] == RowsOf(items[1..], key);
      var rest := Select(items[1..], wanted);
      assert items[0] in items;
      if wanted(items[0]) {
        assert RowsOf([items[0]] + rest, key) == [rows[0]] + RowsOf(rest, key);
      } else {
        assert [] + rest == rest;
      }
    }
  }

  lemma RowsHaveTheirKeys<T>(order: seq<Direction>, items: seq<T>, key: T -> Key, row: Row<T>)
    requires Fits(order, RowsOf(items, key)) && row in OrderBy(order, RowsOf(items, key))
    ensures row.key == key(row.item)
  {
    assert row in multiset(RowsOf(items, key));
  }

  // ---------------------------------------------------------------- violations

  datatype Violation = Violation(id: string, severityRank: int, lastDetected: real, fullName: Option<string>)

  datatype ViolationSort = Newest | Oldest | BySeverity | ByRepository

  /** The columns of `ORDER BY`, which are also the values of the cursor. */
  function ViolationKey(sort: ViolationSort, v: Violation): Key {
    match sort
    case Newest => [Number(v.lastDetected), Text(v.id)]
    case Oldest => [Number(v.lastDetected), Text(v.id)]
    case BySeverity => [Number(v.severityRank as real), Number(v.lastDetected), Text(v.id)]
    case ByRepository => [Text(v.fullName.GetOr("")), Number(v.lastDetected), Text(v.id)]
  }

  function ViolationOrder(sort: ViolationSort): seq<Direction> {
    match sort
    case Newest => [Descending, Descending]
    case Oldest => [Ascending, Ascending]
    case BySeverity => [Descending, Descending, Descending]
    case ByRepository => [Ascending, Descending, Descending]
  }

  /** The value types `decode_cursor` insists on. */
  predicate ViolationCursor(sort: ViolationSort, position: Key) {
    match sort
    case Newest => |position| == 2 && position[0].Number? && position[1].Text?
    case Oldest => |position| == 2 && position[0].Number? && position[1].Text?
    case BySeverity => |position| == 3 && position[0].Number? && position[1].Number? && position[2].Text?
    case ByRepository => |position| == 3 && position[0].Text? && position[1].Number? && position[2].Text?
  }

  /** The condition added for a cursor, as each branch of `list_violations` writes it. */
  predicate ViolationAfter(sort: ViolationSort, v: Violation, position: Key)
    requires ViolationCursor(sort, position)
  {
    match sort
    case Newest =>
      v.lastDetected < position[0].value || (v.lastDetected == position[0].value && TextLess(v.id, position[1].text))
    case Oldest =>
      v.lastDetected > position[0].value || (v.lastDetected == position[0].value && TextLess(position[1].text, v.id))
    case BySeverity =>
      v.severityRank as real < position[0].value
      || (v.severityRank as real == position[0].value
          && (v.lastDetected < position[1].value || (v.lastDetected == position[1].value && TextLess(v.id, position[2].text))))
    case ByRepository =>
      var name := v.fullName.GetOr("");
      TextLess(position[0].text, name)
      || (name == position[0].text
          && (v.lastDetected < position[1].value || (v.lastDetected == position[1].value && TextLess(v.id, position[2].text))))
  }

  lemma BeforeOne(order: seq<Direction>, a: Key, b: Key)
    requires |a| == |b| == |order| == 1
    ensures Before(order, a, b) <==> Precedes(order[0], a[0], b[0])
  {
  }

  lemma BeforeTwo(order: seq<Direction>, a: Key, b: Key)
    requires |a| == |b| == |order| == 2
    ensures Before(order, a, b) <==> Precedes(order[0], a[0], b[0]) || (a[0] == b[0] && Precedes(order[1], a[1], b[1]))
  {
    BeforeOne(order[1..], a[1..], b[1..]);
  }

  lemma BeforeThree(order: seq<Direction>, a: Key, b: Key)
    requires |a| == |b| == |order| == 3
    ensures Before(order, a, b) <==>
      || Precedes(order[0], a[0], b[0])
      || (a[0] == b[0] && (Precedes(order[1], a[1], b[1]) || (a[1] == b[1] && Precedes(order[2], a[2], b[2]))))
  {
    BeforeTwo(order[1..], a[1..], b[1..]);
  }

  /** Each hand-written condition is "strictly after the cursor" in that list's order. */
  lemma ConditionFollowsOrder(sort: ViolationSort, v: Violation, position: Key)
    requires ViolationCursor(sort, position)
    ensures |ViolationKey(sort, v)| == |position| == |ViolationOrder(sort)|
    ensures ViolationAfter(sort, v, position) <==> Before(ViolationOrder(sort), position, ViolationKey(sort, v))
  {
    hide Before, TextLess;
    var order, key := ViolationOrder(sort), ViolationKey(sort, v);
    if |order| == 2 {
      BeforeTwo(order, position, key);
    } else {
      BeforeThree(order, position, key);
    }
  }

  function ViolationRows(sort: ViolationSort, violations: seq<Violation>): seq<Row<Violation>> {
    RowsOf(violations, (v: Violation) => ViolationKey(sort, v))
  }

  lemma ViolationRowsFit(sort: ViolationSort, violations: seq<Violation>)
    ensures Fits(ViolationOrder(sort), ViolationRows(sort, violations))
  {
  }

  function SelectViolations(sort: ViolationSort, violations: seq<Violation>, position: Key): seq<Violation>
    requires ViolationCursor(sort, position)
  {
    Select(violations, (v: Violation) => ViolationAfter(sort, v, position))
  }

  /** The rows a cursor's condition selects are those after it. */
  lemma SelectionIsAfter(sort: ViolationSort, violations: seq<Violation>, position: Key)
    requires ViolationCursor(sort, position)
    ensures |position| == |ViolationOrder(sort)| && Fits(ViolationOrder(sort), ViolationRows(sort, violations))
    ensures ViolationRows(sort, SelectViolations(sort, violations, position))
            == After(ViolationOrder(sort), ViolationRows(sort, violations), position)
  {
    hide ViolationAfter, Before, ViolationKey, ViolationOrder, ViolationCursor;
    forall v
      ensures |ViolationKey(sort, v)| == |position| == |ViolationOrder(sort)|
      ensures ViolationAfter(sort, v, position) <==> Before(ViolationOrder(sort), position, ViolationKey(sort, v))
    {
      ConditionFollowsOrder(sort, v, position);
    }
    assert |ViolationKey(sort, Violation("", 0, 0.0, None))| == |position|;
    SelectIsAfter(ViolationOrder(sort), violations, (v: Violation) => ViolationKey(sort, v),
                  (v: Violation) => ViolationAfter(sort, v, position), position);
  }

  /** A key's cursor passes the type check of the next request. */
  lemma CursorsAreAccepted(sort: ViolationSort, v: Violation)
    ensures ViolationCursor(sort, ViolationKey(sort, v))
  {
  }

  /** The last column is the violation's own identifier. */
  lemma DifferentKeys(sort: ViolationSort, v: Violation, w: Violation)
    requires v.id != w.id
    ensures ViolationKey(sort, v) != ViolationKey(sort, w)
  {
    var n := |ViolationKey(sort, v)| - 1;
    assert ViolationKey(sort, v)[n] == Text(v.id) && ViolationKey(sort, w)[n] == Text(w.id);
  }

  lemma ViolationKeysAreDistinct(sort: ViolationSort, violations: seq<Violation>)
    requires forall i, j :: 0 <= i < j < |violations| ==> violations[i].id != violations[j].id
    ensures KeysetPaging.DistinctKeys(ViolationRows(sort, violations))
  {
    hide ViolationKey;
    var rows := ViolationRows(sort, violations);
    forall i, j | 0 <= i < j < |rows|
      ensures rows[i].key != rows[j].key
    {
      DifferentKeys(sort, violations[i], violations[j]);
    }
  }

  /** `list_violations` for one request. */
  method ListViolations(violations: seq<Violation>, sort: ViolationSort, cursor: Option<Key>, limit: nat)
    returns (page: Page<Violation>)
    requires limit > 0 && (cursor.Some? ==> ViolationCursor(sort, cursor.value))
    ensures cursor.Some? ==> |cursor.value| == |ViolationOrder(sort)|
    ensures Fits(ViolationOrder(sort), ViolationRows(sort, violations))
    ensures page == ListPage(ViolationOrder(sort), ViolationRows(sort, violations), cursor, limit)
    ensures page.next.Some? ==> ViolationCursor(sort, page.next.value)
  {
    var matching := violations;
    ViolationRowsFit(sort, violations);
    if cursor.Some? {
      SelectionIsAfter(sort, violations, cursor.value);
      matching := SelectViolations(sort, violations, cursor.value);
    }
    ViolationRowsFit(sort, matching);
    var rows := OrderBy(ViolationOrder(sort), ViolationRows(sort, matching));
    if |rows| > limit + 1 {
      rows := rows[..limit + 1];
    }
    var items := if |rows| > limit then rows[..limit] else rows;
    var next := None;
    if |rows| > limit {
      RowsHaveTheirKeys(ViolationOrder(sort), matching, (v: Violation) => ViolationKey(sort, v), rows[limit - 1]);
      CursorsAreAccepted(sort, rows[limit - 1].item);
      next := Some(ViolationKey(sort, rows[limit - 1].item));
    }
    return Page(items, next);
  }

  /** What each sort promises of two violations, the first listed before the second. */
  predicate Advertised(sort: ViolationSort, v: Violation, w: Violation) {
    match sort
    case Newest => v.lastDetected >= w.lastDetected
    case Oldest => v.lastDetected <= w.lastDetected
    case BySeverity => v.severityRank > w.severityRank || (v.severityRank == w.severityRank && v.lastDetected >= w.lastDetected)
    case ByRepository =>
      var a, b := v.fullName.GetOr(""), w.fullName.GetOr("");
      TextLess(a, b) || (a == b && v.lastDetected >= w.lastDetected)
  }

  lemma BeforeIsAdvertised(sort: ViolationSort, v: Violation, w: Violation)
    requires |ViolationKey(sort, v)| == |ViolationKey(sort, w)| == |ViolationOrder(sort)|
    requires Before(ViolationOrder(sort), ViolationKey(sort, v), ViolationKey(sort, w))
    ensures Advertised(sort, v, w)
  {
    hide Before, TextLess;
    if |ViolationOrder(sort)| == 2 {
      BeforeTwo(ViolationOrder(sort), ViolationKey(sort, v), ViolationKey(sort, w));
    } else {
      BeforeThree(ViolationOrder(sort), ViolationKey(sort, v), ViolationKey(sort, w));
    }
  }

  ghost predicate InAdvertisedOrder(sort: ViolationSort, all: seq<Row<Violation>>) {
    forall i, j :: 0 <= i < j < |all| ==> Advertised(sort, all[i].item, all[j].item)
  }

  lemma SortedIsAdvertised(sort: ViolationSort, violations: seq<Violation>)
    requires Fits(ViolationOrder(sort), ViolationRows(sort, violations))
    requires Sorted(ViolationOrder(sort), OrderBy(ViolationOrder(sort), ViolationRows(sort, violations)))
    ensures InAdvertisedOrder(sort, OrderBy(ViolationOrder(sort), ViolationRows(sort, violations)))
  {
    hide Before, OrderBy, ViolationKey, ViolationOrder, Advertised;
    var all := OrderBy(ViolationOrder(sort), ViolationRows(sort, violations));
    forall i, j | 0 <= i < j < |all|
      ensures Advertised(sort, all[i].item, all[j].item)
    {
      RowsHaveTheirKeys(ViolationOrder(sort), violations, (v: Violation) => ViolationKey(sort, v), all[i]);
      RowsHaveTheirKeys(ViolationOrder(sort), violations, (v: Violation) => ViolationKey(sort, v), all[j]);
      BeforeIsAdvertised(sort, all[i].item, all[j].item);
    }
  }

  /**
   Asking for page after page, each with the cursor of the one before, ends and
   lists every violation exactly once, in the advertised order of the sort.
   */
  method PageViolations(violations: seq<Violation>, sort: ViolationSort, limit: nat) returns (all: seq<Row<Violation>>)
    requires limit > 0 && forall i, j :: 0 <= i < j < |violations| ==> violations[i].id != violations[j].id
    ensures Fits(ViolationOrder(sort), ViolationRows(sort, violations))
    ensures all == OrderBy(ViolationOrder(sort), ViolationRows(sort, violations))
    ensures multiset(all) == multiset(ViolationRows(sort, violations)) && Sorted(ViolationOrder(sort), all)
    ensures InAdvertisedOrder(sort, all)
  {
    hide OrderBy, ListPage, Sorted, ViolationOrder, ViolationRows, KeysetPaging.DistinctKeys, ViolationCursor, InAdvertisedOrder;
    ghost var order, rows := ViolationOrder(sort), ViolationRows(sort, violations);
    ViolationRowsFit(sort, violations);
    ghost var sorted := OrderBy(order, rows);
    ViolationKeysAreDistinct(sort, violations);
    OrderByLength(order, rows);
    OrderBySorts(order, rows);
    SortedIsAdvertised(sort, violations);
    all := [];
    var cursor: Option<Key> := None;
    var done := false;
    while !done
      invariant |all| <= |sorted| && all == sorted[..|all|]
      invariant cursor.Some? ==> ViolationCursor(sort, cursor.value)
      invariant !done ==> cursor == if |all| == 0 then None else Some(sorted[|all| - 1].key)
      invariant !done && |all| > 0 ==> |all| < |sorted|
      invariant done ==> all == sorted
      decreases !done, |sorted| - |all|
    {
      PageAt(order, rows, |all|, limit);
      var page := ListViolations(violations, sort, cursor, limit);
      all, cursor, done := all + page.items, page.next, page.next.None?;
    }
  }

  // ---------------------------------------------------------------- audit events

  datatype AuditRow = AuditRow(occurredAt: real, rowid: nat)

  /** Audit events sort by time and then by row number. */
  function AuditKey(event: AuditRow): Key {
    [Number(event.occurredAt), Number(event.rowid as real)]
  }

  function AuditOrder(newest: bool): seq<Direction> {
    if newest then [Descending, Descending] else [Ascending, Ascending]
  }

  predicate AuditCursor(position: Key) {
    |position| == 2 && position[0].Number? && position[1].Number?
  }

  predicate AuditAfter(newest: bool, event: AuditRow, position: Key)
    requires AuditCursor(position)
  {
    var time, rowid := position[0].value, position[1].value;
    if newest then event.occurredAt < time || (event.occurredAt == time && event.rowid as real < rowid)
    else event.occurredAt > time || (event.occurredAt == time && event.rowid as real > rowid)
  }

  function EventRows(events: seq<AuditRow>): seq<Row<AuditRow>> {
    RowsOf(events, (e: AuditRow) => AuditKey(e))
  }

  /** The condition of `list_audit` follows its order. */
  lemma AuditConditionFollowsOrder(newest: bool, event: AuditRow, position: Key)
    requires AuditCursor(position)
    ensures AuditAfter(newest, event, position) <==> Before(AuditOrder(newest), position, AuditKey(event))
  {
    BeforeTwo(AuditOrder(newest), position, AuditKey(event));
  }

  lemma EventSelectionIsAfter(newest: bool, events: seq<AuditRow>, position: Key)
    requires AuditCursor(position)
    ensures Fits(AuditOrder(newest), EventRows(events))
    ensures EventRows(Select(events, (e: AuditRow) => AuditAfter(newest, e, position)))
            == After(AuditOrder(newest), EventRows(events), position)
  {
    hide AuditAfter, Before;
    forall e
      ensures AuditAfter(newest, e, position) <==> Before(AuditOrder(newest), position, AuditKey(e))
    {
      AuditConditionFollowsOrder(newest, e, position);
    }
    SelectIsAfter(AuditOrder(newest), events, (e: AuditRow) => AuditKey(e), (e: AuditRow) => AuditAfter(newest, e, position), position);
  }

  lemma EventRowsFit(newest: bool, events: seq<AuditRow>)
    ensures Fits(AuditOrder(newest), EventRows(events))
  {
  }

  lemma EventKeysAreDistinct(events: seq<AuditRow>)
    requires forall i, j :: 0 <= i < j < |events| ==> events[i].rowid != events[j].rowid
    ensures KeysetPaging.DistinctKeys(EventRows(events))
  {
    var rows := EventRows(events);
    forall i, j | 0 <= i < j < |rows|
      ensures rows[i].key != rows[j].key
    {
      assert rows[i].key[1] == Number(events[i].rowid as real) && rows[j].key[1] == Number(events[j].rowid as real);
    }
  }

  /** `list_audit` for one request. */
  method ListEvents(events: seq<AuditRow>, newest: bool, cursor: Option<Key>, limit: nat) returns (page: Page<AuditRow>)
    requires limit > 0 && (cursor.Some? ==> AuditCursor(cursor.value))
    ensures Fits(AuditOrder(newest), EventRows(events))
    ensures page == ListPage(AuditOrder(newest), EventRows(events), cursor, limit)
    ensures page.next.Some? ==> AuditCursor(page.next.value)
  {
    var matching := events;
    EventRowsFit(newest, events);
    if cursor.Some? {
      EventSelectionIsAfter(newest, events, cursor.value);
      matching := Select(events, (e: AuditRow) => AuditAfter(newest, e, cursor.value));
    }
    EventRowsFit(newest, matching);
    var rows := OrderBy(AuditOrder(newest), EventRows(matching));
    if |rows| > limit + 1 {
      rows := rows[..limit + 1];
    }
    var next := None;
    if |rows| > limit {
      RowsHaveTheirKeys(AuditOrder(newest), matching, (e: AuditRow) => AuditKey(e), rows[limit - 1]);
      next := Some(AuditKey(rows[limit - 1].item));
    }
    return Page(if |rows| > limit then rows[..limit] else rows, next);
  }

  /** Events are listed by time, in the direction asked for. */
  ghost predicate InTimeOrder(newest: bool, all: seq<Row<AuditRow>>) {
    forall i, j :: 0 <= i < j < |all| ==>
      if newest then all[i].item.occurredAt >= all[j].item.occurredAt else all[i].item.occurredAt <= all[j].item.occurredAt
  }

  lemma SortedIsInTimeOrder(newest: bool, events: seq<AuditRow>)
    requires Fits(AuditOrder(newest), EventRows(events))
    requires Sorted(AuditOrder(newest), OrderBy(AuditOrder(newest), EventRows(events)))
    ensures InTimeOrder(newest, OrderBy(AuditOrder(newest), EventRows(events)))
  {
    hide Before, OrderBy;
    var all := OrderBy(AuditOrder(newest), EventRows(events));
    forall i, j | 0 <= i < j < |all|
      ensures if newest then all[i].item.occurredAt >= all[j].item.occurredAt else all[i].item.occurredAt <= all[j].item.occurredAt
    {
      RowsHaveTheirKeys(AuditOrder(newest), events, (e: AuditRow) => AuditKey(e), all[i]);
      RowsHaveTheirKeys(AuditOrder(newest), events, (e: AuditRow) => AuditKey(e), all[j]);
      BeforeTwo(AuditOrder(newest), all[i].key, all[j].key);
    }
  }

  /** Following the cursors of `list_audit` lists every event exactly once, in either direction. */
  method PageEvents(events: seq<AuditRow>, newest: bool, limit: nat) returns (all: seq<Row<AuditRow>>)
    requires limit > 0 && forall i, j :: 0 <= i < j < |events| ==> events[i].rowid != events[j].rowid
    ensures Fits(AuditOrder(newest), EventRows(events))
    ensures all == OrderBy(AuditOrder(newest), EventRows(events))
    ensures multiset(all) == multiset(EventRows(events)) && Sorted(AuditOrder(newest), all)
    ensures InTimeOrder(newest, all)
  {
    hide OrderBy, ListPage, Sorted, AuditOrder, EventRows, KeysetPaging.DistinctKeys, AuditCursor, InTimeOrder;
    ghost var order, rows := AuditOrder(newest), EventRows(events);
    EventRowsFit(newest, events);
    ghost var sorted := OrderBy(order, rows);
    EventKeysAreDistinct(events);
    OrderByLength(order, rows);
    OrderBySorts(order, rows);
    SortedIsInTimeOrder(newest, events);
    all := [];
    var cursor: Option<Key> := None;
    var done := false;
    while !done
      invariant |all| <= |sorted| && all == sorted[..|all|]
      invariant cursor.Some? ==> AuditCursor(cursor.value)
      invariant !done ==> cursor == if |all| == 0 then None else Some(sorted[|all| - 1].key)
      invariant !done && |all| > 0 ==> |all| < |sorted|
      invariant done ==> all == sorted
      decreases !done, |sorted| - |all|
    {
      PageAt(order, rows, |all|, limit);
      var page := ListEvents(events, newest, cursor, limit);
      all, cursor, done := all + page.items, page.next, page.next.None?;
    }
  }

  // ---------------------------------------------------------------- scans, named by their sequence numbers

  function ScanKey(sequence: nat): Key {
    [Number(sequence as real)]
  }

  function ScanOrder(newest: bool): seq<Direction> {
    if newest then [Descending] else [Ascending]
  }

  predicate ScanCursor(position: Key) {
    |position| == 1 && position[0].Number?
  }

  predicate ScanAfter(newest: bool, sequence: nat, position: Key)
    requires ScanCursor(position)
  {
    if newest then sequence as real < position[0].value else sequence as real > position[0].value
  }

  function ScanRows(scans: seq<nat>): seq<Row<nat>> {
    RowsOf(scans, (n: nat) => ScanKey(n))
  }

  /** The condition of `list_scans` follows its order. */
  lemma ScanConditionFollowsOrder(newest: bool, sequence: nat, position: Key)
    requires ScanCursor(position)
    ensures ScanAfter(newest, sequence, position) <==> Before(ScanOrder(newest), position, ScanKey(sequence))
  {
    BeforeOne(ScanOrder(newest), position, ScanKey(sequence));
  }

  lemma ScanSelectionIsAfter(newest: bool, scans: seq<nat>, position: Key)
    requires ScanCursor(position)
    ensures Fits(ScanOrder(newest), ScanRows(scans))
    ensures ScanRows(Select(scans, (n: nat) => ScanAfter(newest, n, position))) == After(ScanOrder(newest), ScanRows(scans), position)
  {
    hide ScanAfter, Before;
    forall n: nat
      ensures ScanAfter(newest, n, position) <==> Before(ScanOrder(newest), position, ScanKey(n))
    {
      ScanConditionFollowsOrder(newest, n, position);
    }
    SelectIsAfter(ScanOrder(newest), scans, (n: nat) => ScanKey(n), (n: nat) => ScanAfter(newest, n, position), position);
  }

  lemma ScanRowsFit(newest: bool, scans: seq<nat>)
    ensures Fits(ScanOrder(newest), ScanRows(scans))
  {
  }

  predicate Distinct(scans: seq<nat>) {
    forall i, j :: 0 <= i < j < |scans| ==> scans[i] != scans[j]
  }

  lemma ScanKeysAreDistinct(scans: seq<nat>)
    requires Distinct(scans)
    ensures KeysetPaging.DistinctKeys(ScanRows(scans))
  {
    var rows := ScanRows(scans);
    forall i, j | 0 <= i < j < |rows|
      ensures rows[i].key != rows[j].key
    {
      assert rows[i].key[0] == Number(scans[i] as real) && rows[j].key[0] == Number(scans[j] as real);
    }
  }

  /** `list_scans` for one request. */
  method ListScans(scans: seq<nat>, newest: bool, cursor: Option<Key>, limit: nat) returns (page: Page<nat>)
    requires limit > 0 && (cursor.Some? ==> ScanCursor(cursor.value))
    ensures Fits(ScanOrder(newest), ScanRows(scans))
    ensures page == ListPage(ScanOrder(newest), ScanRows(scans), cursor, limit)
    ensures page.next.Some? ==> ScanCursor(page.next.value)
  {
    var matching := scans;
    ScanRowsFit(newest, scans);
    if cursor.Some? {
      ScanSelectionIsAfter(newest, scans, cursor.value);
      matching := Select(scans, (n: nat) => ScanAfter(newest, n, cursor.value));
    }
    ScanRowsFit(newest, matching);
    var rows := OrderBy(ScanOrder(newest), ScanRows(matching));
    if |rows| > limit + 1 {
      rows := rows[..limit + 1];
    }
    var next := None;
    if |rows| > limit {
      RowsHaveTheirKeys(ScanOrder(newest), matching, (n: nat) => ScanKey(n), rows[limit - 1]);
      next := Some(ScanKey(rows[limit - 1].item));
    }
    return Page(if |rows| > limit then rows[..limit] else rows, next);
  }

  /** The listed sequence numbers run in the direction asked for. */
  predicate InDirection(newest: bool, all: seq<Row<nat>>) {
    forall i, j :: 0 <= i < j < |all| ==> if newest then all[i].item > all[j].item else all[i].item < all[j].item
  }

  lemma SortedScans(newest: bool, scans: seq<nat>)
    requires Distinct(scans)
    ensures Fits(ScanOrder(newest), ScanRows(scans))
    ensures InDirection(newest, OrderBy(ScanOrder(newest), ScanRows(scans)))
    ensures |OrderBy(ScanOrder(newest), ScanRows(scans))| == |scans|
  {
    hide OrderBy, Before;
    ScanRowsFit(newest, scans);
    ScanKeysAreDistinct(scans);
    var all := OrderBy(ScanOrder(newest), ScanRows(scans));
    OrderByLength(ScanOrder(newest), ScanRows(scans));
    OrderBySorts(ScanOrder(newest), ScanRows(scans));
    forall i, j | 0 <= i < j < |all|
      ensures if newest then all[i].item > all[j].item else all[i].item < all[j].item
    {
      RowsHaveTheirKeys(ScanOrder(newest), scans, (n: nat) => ScanKey(n), all[i]);
      RowsHaveTheirKeys(ScanOrder(newest), scans, (n: nat) => ScanKey(n), all[j]);
      BeforeOne(ScanOrder(newest), all[i].key, all[j].key);
    }
  }

  /** Following the cursors of `list_scans` over a fixed snapshot lists every scan exactly once, in either direction. */
  method PageScans(scans: seq<nat>, newest: bool, limit: nat) returns (all: seq<Row<nat>>)
    requires limit > 0 && Distinct(scans)
    ensures multiset(all) == multiset(ScanRows(scans)) && InDirection(newest, all)
  {
    all := PageGrowingScans([scans], newest, limit);
  }

  /** Sequence numbers only grow: what is added to the table is newer than what was there. */
  predicate OnlyNewer(scans: seq<nat>, later: seq<nat>) {
    scans <= later && forall i, j :: 0 <= i < |scans| <= j < |later| ==> scans[i] < later[j]
  }

  /** Scans that are started while a reader pages newest-first arrive in front of what it has yet to read. */
  lemma NewScansArriveInFront(scans: seq<nat>, later: seq<nat>)
    requires OnlyNewer(scans, later)
    ensures Fits(ScanOrder(true), ScanRows(scans))
    ensures ArrivedInFront(ScanOrder(true), ScanRows(scans), ScanRows(later))
  {
    hide Before;
    ScanRowsFit(true, scans);
    ScanRowsFit(true, later);
    forall i, j | 0 <= i < |scans| <= j < |later|
      ensures Before(ScanOrder(true), ScanRows(later)[j].key, ScanRows(scans)[i].key)
    {
      BeforeOne(ScanOrder(true), ScanKey(later[j]), ScanKey(scans[i]));
    }
    assert ScanRows(later)[..|scans|] == ScanRows(scans);
  }

  lemma SameTable(newest: bool, scans: seq<nat>)
    ensures Fits(ScanOrder(newest), ScanRows(scans))
    ensures ArrivedInFront(ScanOrder(newest), ScanRows(scans), ScanRows(scans))
  {
    ScanRowsFit(newest, scans);
  }

  /** The table a page reads: newest-first it may have grown since the first page, oldest-first not. */
  predicate MayRead(newest: bool, scans: seq<nat>, table: seq<nat>) {
    if newest then OnlyNewer(scans, table) else table == scans
  }

  /** The page after `k` scans is the same from the grown table. */
  lemma PageOfGrowingTable(newest: bool, scans: seq<nat>, table: seq<nat>, k: nat, limit: nat)
    requires Distinct(scans) && MayRead(newest, scans, table) && k <= |scans| && limit > 0 && (k == 0 ==> table == scans)
    ensures Fits(ScanOrder(newest), ScanRows(scans)) && Fits(ScanOrder(newest), ScanRows(table))
    ensures |OrderBy(ScanOrder(newest), ScanRows(scans))| == |scans|
    ensures
      var sorted := OrderBy(ScanOrder(newest), ScanRows(scans));
      var page := ListPage(ScanOrder(newest), ScanRows(table), if k == 0 then None else Some(sorted[k - 1].key), limit);
      if k + limit < |scans| then page == Page(sorted[k..k + limit], Some(sorted[k + limit - 1].key))
      else page == Page(sorted[k..], None)
  {
    hide OrderBy, ListPage, KeysetPaging.DistinctKeys, ArrivedInFront, Fits, OnlyNewer, ScanOrder;
    ScanRowsFit(newest, scans);
    ScanRowsFit(newest, table);
    ScanKeysAreDistinct(scans);
    PageAt(ScanOrder(newest), ScanRows(scans), k, limit);
    if k > 0 {
      if newest {
        NewScansArriveInFront(scans, table);
      } else {
        SameTable(newest, scans);
      }
      PageIgnoresArrivals(ScanOrder(newest), ScanRows(scans), ScanRows(table), k - 1, limit);
    }
  }

  /**
   Each page reads the table as it is then. Newest-first, every scan that was
   there at the first page is listed exactly once, newest first, however many are
   started meanwhile; oldest-first, the table must not change.
   */
  method PageGrowingScans(tables: seq<seq<nat>>, newest: bool, limit: nat) returns (all: seq<Row<nat>>)
    requires tables != [] && limit > 0 && Distinct(tables[0])
    requires forall i :: 0 <= i < |tables| ==> MayRead(newest, tables[0], tables[i])
    ensures multiset(all) == multiset(ScanRows(tables[0])) && InDirection(newest, all)
  {
    hide OrderBy, ListPage, ScanOrder, ScanRows, ScanCursor, Fits, InDirection, Distinct, MayRead;
    ghost var scans := tables[0];
    SortedScans(newest, scans);
    ghost var sorted := OrderBy(ScanOrder(newest), ScanRows(scans));
    all := [];
    var cursor: Option<Key> := None;
    var turn, done := 0, false;
    while !done
      invariant |all| <= |scans| && |sorted| == |scans| && all == sorted[..|all|]
      invariant turn == 0 <==> all == [] && !done
      invariant cursor.Some? ==> ScanCursor(cursor.value)
      invariant !done && turn > 0 ==> |all| < |scans|
      invariant !done ==> cursor == if |all| == 0 then None else Some(sorted[|all| - 1].key)
      invariant done ==> all == sorted
      decreases !done, |scans| - |all|
    {
      var table := if turn < |tables| then tables[turn] else tables[|tables| - 1];
      PageOfGrowingTable(newest, scans, table, |all|, limit);
      var page := ListScans(table, newest, cursor, limit);
      all, cursor, turn, done := all + page.items, page.next, turn + 1, page.next.None?;
    }
  }
}
