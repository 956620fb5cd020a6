// Cursor pagination of the audit log: rows are sorted by creation time, but resumed by id
// (packages/api/src/audit/audit.service.ts, listAuditLogs).
module AuditPagination {
  import opened Wrappers

  // Ids are compared by the database; any total order will do, so they are integers here.
  datatype AuditLog = AuditLog(
    id: int,
    workspaceId: string,
    actorType: string,
    actorId: string,
    action: string,
    resourceType: string,
    resourceId: string,
    createdAt: int)

  datatype Filters = Filters(
    actorType: Option<string>,
    actorId: Option<string>,
    action: Option<string>,
    resourceType: Option<string>,
    resourceId: Option<string>,
    startDate: Option<int>,
    endDate: Option<int>)

  // A missing or empty filter lets everything through.
  predicate Passes(filter: Option<string>, field: string) {
    filter.GetOr("") == "" || field == filter.value
  }

  predicate Matches(log: AuditLog, workspaceId: string, filters: Filters) {
    && log.workspaceId == workspaceId
    && Passes(filters.actorType, log.actorType)
    && Passes(filters.actorId, log.actorId)
    && Passes(filters.action, log.action)
    && Passes(filters.resourceType, log.resourceType)
    && Passes(filters.resourceId, log.resourceId)
    && (filters.startDate.None? || filters.startDate.value <= log.createdAt)
    && (filters.endDate.None? || log.createdAt <= filters.endDate.value)
  }

  predicate BeforeCursor(log: AuditLog, cursor: Option<int>) {
    cursor.None? || log.id < cursor.value
  }

  // The rows of a table, given newest first, that the query's conditions select.
  function Selected(table: seq<AuditLog>, workspaceId: string, filters: Filters, cursor: Option<int>)
    : seq<AuditLog>
  {
    if table == [] then []
    else
      var rest := Selected(table[1..], workspaceId, filters, cursor);
      if Matches(table[0], workspaceId, filters) && BeforeCursor(table[0], cursor) then [table[0]] + rest else rest
  }

  datatype Page = Page(data: seq<AuditLog>, hasMore: bool, nextCursor: Option<int>)

  function Take(rows: seq<AuditLog>, count: nat): seq<AuditLog> {
    if count < |rows| then rows[..count] else rows
  }

  // One row more than asked for is fetched, to see whether there are more.
  function PageOf(selected: seq<AuditLog>, limit: nat): Page {
    var logs := Take(selected, limit + 1);
    var hasMore := |logs| > limit;
    var data := if hasMore then logs[..limit] else logs;
    Page(data, hasMore, if hasMore && data != [] then Some(data[|data| - 1].id) else None)
  }

  function ListAuditLogs(
      table: seq<AuditLog>, workspaceId: string, filters: Filters, limit: nat, cursor: Option<int>): Page
  {
    PageOf(Selected(table, workspaceId, filters, cursor), limit)
  }

  // ---------- Rows below a cursor ----------

  function Below(rows: seq<AuditLog>, cursor: Option<int>): (below: seq<AuditLog>)
    ensures |below| <= |rows|
    ensures forall row | row in below :: row in rows && BeforeCursor(row, cursor)
  {
    if rows == [] then []
    else
      var rest := Below(rows[1..], cursor);
      if BeforeCursor(rows[0], cursor) then [rows[0]] + rest else rest
  }

  // The cursor condition can be applied after the other ones.
  lemma {:induction false} CursorComesLast(
      table: seq<AuditLog>, workspaceId: string, filters: Filters, cursor: Option<int>)
    ensures Selected(table, workspaceId, filters, cursor) == Below(Selected(table, workspaceId, filters, None), cursor)
  {
    if table != [] {
      CursorComesLast(table[1..], workspaceId, filters, cursor);
    }
  }

  lemma {:induction false} BelowIsComplete(rows: seq<AuditLog>, cursor: Option<int>, row: AuditLog)
    requires row in rows && BeforeCursor(row, cursor)
    ensures row in Below(rows, cursor)
  {
    if row != rows[0] {
      BelowIsComplete(rows[1..], cursor, row);
    }
  }

  // Resuming at the id of a row below the cursor leaves strictly fewer rows.
  lemma {:induction false} LowerCursor(rows: seq<AuditLog>, cursor: Option<int>, next: int)
    requires cursor.Some? ==> next <= cursor.value
    ensures |Below(rows, Some(next))| <= |Below(rows, cursor)|
    ensures (exists row | row in rows :: BeforeCursor(row, cursor) && row.id >= next) ==>
      |Below(rows, Some(next))| < |Below(rows, cursor)|
  {
    if rows != [] {
      LowerCursor(rows[1..], cursor, next);
      if exists row | row in rows :: BeforeCursor(row, cursor) && row.id >= next {
        var row :| row in rows && BeforeCursor(row, cursor) && row.id >= next;
        assert row == rows[0] || row in rows[1..];
      }
    }
  }

  // ---------- Following the cursor ----------

  lemma NextPageIsSmaller(rows: seq<AuditLog>, limit: nat, cursor: Option<int>)
    requires limit >= 1 && PageOf(Below(rows, cursor), limit).hasMore
    ensures var page := PageOf(Below(rows, cursor), limit);
      page.nextCursor.Some? && |Below(rows, page.nextCursor)| < |Below(rows, cursor)|
  {
    hide Below;
    var below := Below(rows, cursor);
    var last := below[limit - 1];
    assert last in below;
    LowerCursor(rows, cursor, last.id);
  }

  // All pages laid end to end, following nextCursor until hasMore is false. This always ends.
  function Follow(rows: seq<AuditLog>, limit: nat, cursor: Option<int>): seq<AuditLog>
    requires limit >= 1
    decreases |Below(rows, cursor)|
  {
    var page := PageOf(Below(rows, cursor), limit);
    if page.hasMore then
      NextPageIsSmaller(rows, limit, cursor);
      page.data + Follow(rows, limit, page.nextCursor)
    else
      page.data
  }

  predicate DistinctIds(rows: seq<AuditLog>) {
    forall i, j | 0 <= i < j < |rows| :: rows[i].id != rows[j].id
  }

  // Rows before b have ids above that of b, rows after it have ids below.
  predicate Separates(rows: seq<AuditLog>, b: nat)
    requires b < |rows|
  {
    && (forall i | 0 <= i < b :: rows[i].id > rows[b].id)
    && (forall j | b < j < |rows| :: rows[j].id < rows[b].id)
  }

  // Wherever a page ends that starts at row s or later, the ids agree with the creation order around its last row.
  predicate PagesSeparateFrom(rows: seq<AuditLog>, limit: nat, s: nat)
    requires limit >= 1
    decreases |rows| - s
  {
    s + limit < |rows| ==>
      Separates(rows, s + limit - 1) && PagesSeparateFrom(rows, limit, s + limit)
  }

  predicate PagesSeparate(rows: seq<AuditLog>, limit: nat)
    requires limit >= 1
  {
    PagesSeparateFrom(rows, limit, 0)
  }

  lemma {:induction false} BelowAll(rows: seq<AuditLog>, cursor: Option<int>)
    requires forall i | 0 <= i < |rows| :: BeforeCursor(rows[i], cursor)
    ensures Below(rows, cursor) == rows
  {
    if rows != [] {
      BelowAll(rows[1..], cursor);
    }
  }

  lemma {:induction false} BelowSkips(rows: seq<AuditLog>, cursor: Option<int>, k: nat)
    requires k <= |rows| && forall i | 0 <= i < k :: !BeforeCursor(rows[i], cursor)
    ensures Below(rows, cursor) == Below(rows[k..], cursor)
  {
    if k > 0 {
      BelowSkips(rows[1..], cursor, k - 1);
      assert rows[1..][k - 1..] == rows[k..];
    } else {
      assert rows[k..] == rows;
    }
  }

  lemma BelowBoundary(rows: seq<AuditLog>, b: nat)
    requires b < |rows| && Separates(rows, b)
    ensures Below(rows, Some(rows[b].id)) == rows[b + 1..]
  {
    BelowSkips(rows, Some(rows[b].id), b + 1);
    BelowAll(rows[b + 1..], Some(rows[b].id));
  }

  // A page that starts at row s, when the cursor has selected exactly the rows from s on.
  lemma LastPageAt(rows: seq<AuditLog>, limit: nat, cursor: Option<int>, s: nat)
    requires limit >= 1 && s <= |rows| <= s + limit && Below(rows, cursor) == rows[s..]
    ensures Follow(rows, limit, cursor) == rows[s..]
  {
  }

  lemma PageAt(rows: seq<AuditLog>, limit: nat, cursor: Option<int>, s: nat)
    requires limit >= 1 && s + limit < |rows| && Below(rows, cursor) == rows[s..]
    ensures Follow(rows, limit, cursor)
      == rows[s..s + limit] + Follow(rows, limit, Some(rows[s + limit - 1].id))
  {
    FullPage(rows, limit, s);
    assert PageOf(Below(rows, cursor), limit)
        == Page(rows[s..s + limit], true, Some(rows[s + limit - 1].id));
  }

  lemma FullPage(rows: seq<AuditLog>, limit: nat, s: nat)
    requires limit >= 1 && s + limit < |rows|
    ensures PageOf(rows[s..], limit) == Page(rows[s..s + limit], true, Some(rows[s + limit - 1].id))
  {
    assert rows[s..][..limit + 1][..limit] == rows[s..s + limit];
  }

  lemma {:induction false} FollowsInOrder(rows: seq<AuditLog>, limit: nat, cursor: Option<int>, s: nat)
    requires limit >= 1 && s <= |rows|
    requires Below(rows, cursor) == rows[s..] && PagesSeparateFrom(rows, limit, s)
    ensures Follow(rows, limit, cursor) == rows[s..]
    decreases |rows| - s
  {
    hide Follow;
    if s + limit < |rows| {
      var b := s + limit - 1;
      PageAt(rows, limit, cursor, s);
      BelowBoundary(rows, b);
      FollowsInOrder(rows, limit, Some(rows[b].id), s + limit);
      assert rows[s..] == rows[s..s + limit] + rows[s + limit..];
    } else {
      LastPageAt(rows, limit, cursor, s);
    }
  }

  lemma {:induction false} FollowOnlyBelow(rows: seq<AuditLog>, limit: nat, cursor: Option<int>)
    requires limit >= 1
    ensures forall row | row in Follow(rows, limit, cursor) :: row in Below(rows, cursor)
    decreases |Below(rows, cursor)|
  {
    var page := PageOf(Below(rows, cursor), limit);
    if page.hasMore {
      NextPageIsSmaller(rows, limit, cursor);
      FollowOnlyBelow(rows, limit, page.nextCursor);
      NextBelowIsBelow(rows, limit, cursor);
    }
  }

  lemma NextBelowIsBelow(rows: seq<AuditLog>, limit: nat, cursor: Option<int>)
    requires limit >= 1 && PageOf(Below(rows, cursor), limit).hasMore
    ensures forall row | row in Below(rows, PageOf(Below(rows, cursor), limit).nextCursor) ::
      row in Below(rows, cursor)
  {
    var below := Below(rows, cursor);
    var next := PageOf(below, limit).nextCursor;
    assert below[limit - 1] in below;
    forall row | row in Below(rows, next)
      ensures row in below
    {
      BelowIsComplete(rows, cursor, row);
    }
  }

  lemma FollowStartsBelow(rows: seq<AuditLog>, limit: nat, cursor: Option<int>)
    requires limit >= 1
    ensures Below(rows, cursor) != [] ==>
      Follow(rows, limit, cursor) != [] && Follow(rows, limit, cursor)[0] == Below(rows, cursor)[0]
  {
  }

  // The first row below a cursor is the first in the list with a smaller id.
  lemma {:induction false} FirstBelow(rows: seq<AuditLog>, cursor: Option<int>, i: nat)
    requires i < |rows| && BeforeCursor(rows[i], cursor)
    ensures Below(rows, cursor) != []
    ensures exists k | 0 <= k <= i :: rows[k] == Below(rows, cursor)[0]
  {
    if !BeforeCursor(rows[0], cursor) {
      FirstBelow(rows[1..], cursor, i - 1);
      var k :| 0 <= k <= i - 1 && rows[1..][k] == Below(rows[1..], cursor)[0];
      assert rows[k + 1] == Below(rows, cursor)[0];
    }
  }

  lemma LaterIsInTail(rows: seq<AuditLog>, b: nat, row: AuditLog)
    requires b < |rows|
    ensures row in multiset(rows[b + 1..]) <==> exists j | b < j < |rows| :: rows[j] == row
  {
    if row in multiset(rows[b + 1..]) {
      var i :| 0 <= i < |rows[b + 1..]| && rows[b + 1..][i] == row;
      assert rows[b + 1 + i] == row;
    }
    if exists j | b < j < |rows| :: rows[j] == row {
      var j :| b < j < |rows| && rows[j] == row;
      assert rows[b + 1..][j - (b + 1)] == row;
    }
  }

  // If the pages after row b deliver just the rows after b, then b separates the ids.
  lemma DeliveryShowsSeparation(rows: seq<AuditLog>, limit: nat, b: nat)
    requires limit >= 1 && b < |rows| && DistinctIds(rows)
    requires multiset(Follow(rows, limit, Some(rows[b].id))) == multiset(rows[b + 1..])
    ensures Separates(rows, b)
  {
    hide Follow;
    var cursor := Some(rows[b].id);
    var later := Follow(rows, limit, cursor);
    FollowOnlyBelow(rows, limit, cursor);
    FollowStartsBelow(rows, limit, cursor);
    if later != [] {
      LaterIsInTail(rows, b, later[0]);
      assert later[0] in multiset(later);
    }
    forall j | b < j < |rows|
      ensures rows[j].id < rows[b].id
    {
      LaterIsInTail(rows, b, rows[j]);
      assert rows[j] in multiset(later);
      assert BeforeCursor(rows[j], cursor);
    }
    forall i | 0 <= i < b
      ensures rows[i].id > rows[b].id
    {
      if rows[i].id < rows[b].id {
        FirstBelow(rows, cursor, i);
        assert false;
      }
    }
  }

  lemma RestIsDelivered(rows: seq<AuditLog>, limit: nat, cursor: Option<int>, s: nat)
    requires limit >= 1 && s + limit < |rows| && Below(rows, cursor) == rows[s..]
    requires multiset(Follow(rows, limit, cursor)) == multiset(rows[s..])
    ensures multiset(Follow(rows, limit, Some(rows[s + limit - 1].id))) == multiset(rows[s + limit..])
  {
    hide Follow;
    hide Below;
    PageAt(rows, limit, cursor, s);
    assert rows[s..] == rows[s..s + limit] + rows[s + limit..];
    SamePrefix(
      rows[s..s + limit], Follow(rows, limit, Some(rows[s + limit - 1].id)), rows[s + limit..]);
  }

  lemma {:induction false} DeliveryShowsSeparations(rows: seq<AuditLog>, limit: nat, cursor: Option<int>, s: nat)
    requires limit >= 1 && s <= |rows| && DistinctIds(rows)
    requires Below(rows, cursor) == rows[s..]
    requires multiset(Follow(rows, limit, cursor)) == multiset(rows[s..])
    ensures PagesSeparateFrom(rows, limit, s)
    decreases |rows| - s
  {
    hide Follow;
    hide Below;
    if s + limit < |rows| {
      var b := s + limit - 1;
      RestIsDelivered(rows, limit, cursor, s);
      DeliveryShowsSeparation(rows, limit, b);
      BelowBoundary(rows, b);
      DeliveryShowsSeparations(rows, limit, Some(rows[b].id), s + limit);
    }
  }

  lemma SamePrefix<T>(prefix: seq<T>, left: seq<T>, right: seq<T>)
    requires multiset(prefix + left) == multiset(prefix + right)
    ensures multiset(left) == multiset(right)
  {
    assert multiset(prefix + left) - multiset(prefix) == multiset(left);
    assert multiset(prefix + right) - multiset(prefix) == multiset(right);
  }

  // Following the cursor delivers every row exactly once if and only if the ids agree with the creation
  // order at every page end; and then the rows come in that order.
  lemma DeliversOnceExactly(rows: seq<AuditLog>, limit: nat)
    requires limit >= 1 && DistinctIds(rows)
    ensures multiset(Follow(rows, limit, None)) == multiset(rows) <==> PagesSeparate(rows, limit)
    ensures Follow(rows, limit, None) == rows <==> PagesSeparate(rows, limit)
  {
    BelowAll(rows, None);
    assert rows[0..] == rows;
    if PagesSeparate(rows, limit) {
      FollowsInOrder(rows, limit, None, 0);
    }
    if multiset(Follow(rows, limit, None)) == multiset(rows) {
      DeliveryShowsSeparations(rows, limit, None, 0);
    }
  }

  predicate DescendingIds(rows: seq<AuditLog>) {
    forall i, j | 0 <= i < j < |rows| :: rows[i].id > rows[j].id
  }

  lemma {:induction false} DescendingSeparates(rows: seq<AuditLog>, limit: nat, s: nat)
    requires limit >= 1
    ensures DescendingIds(rows) ==> PagesSeparateFrom(rows, limit, s)
    ensures limit == 1 && PagesSeparateFrom(rows, limit, s) ==>
      forall i, j | s <= i < j < |rows| :: rows[i].id > rows[j].id
    decreases |rows| - s
  {
    if s + limit < |rows| {
      DescendingSeparates(rows, limit, s + limit);
    }
  }

  // It works for every limit exactly when the ids descend all the way.
  lemma DeliversForEveryLimit(rows: seq<AuditLog>)
    requires DistinctIds(rows)
    ensures (forall limit: nat | limit >= 1 :: Follow(rows, limit, None) == rows) <==> DescendingIds(rows)
  {
    hide Follow;
    if DescendingIds(rows) {
      forall limit: nat | limit >= 1
        ensures Follow(rows, limit, None) == rows
      {
        DescendingSeparates(rows, limit, 0);
        DeliversOnceExactly(rows, limit);
      }
    } else {
      DescendingSeparates(rows, 1, 0);
      DeliversOnceExactly(rows, 1);
      assert Follow(rows, 1, None) != rows;
    }
  }

  // Following the cursor through the service itself, with the same filters for every page.
  function FollowListing(
      table: seq<AuditLog>, workspaceId: string, filters: Filters, limit: nat, cursor: Option<int>): seq<AuditLog>
    requires limit >= 1
    decreases |Selected(table, workspaceId, filters, cursor)|
  {
    var page := ListAuditLogs(table, workspaceId, filters, limit, cursor);
    if page.hasMore then
      ListingShrinks(table, workspaceId, filters, limit, cursor);
      page.data + FollowListing(table, workspaceId, filters, limit, page.nextCursor)
    else
      page.data
  }

  lemma ListingShrinks(table: seq<AuditLog>, workspaceId: string, filters: Filters, limit: nat, cursor: Option<int>)
    requires limit >= 1 && ListAuditLogs(table, workspaceId, filters, limit, cursor).hasMore
    ensures var next := ListAuditLogs(table, workspaceId, filters, limit, cursor).nextCursor;
      next.Some?
      && |Selected(table, workspaceId, filters, next)| < |Selected(table, workspaceId, filters, cursor)|
  {
    var next := ListAuditLogs(table, workspaceId, filters, limit, cursor).nextCursor;
    CursorComesLast(table, workspaceId, filters, cursor);
    CursorComesLast(table, workspaceId, filters, next);
    NextPageIsSmaller(Selected(table, workspaceId, filters, None), limit, cursor);
  }

  lemma {:induction false} ListingFollows(
      table: seq<AuditLog>, workspaceId: string, filters: Filters, limit: nat, cursor: Option<int>)
    requires limit >= 1
    ensures FollowListing(table, workspaceId, filters, limit, cursor)
      == Follow(Selected(table, workspaceId, filters, None), limit, cursor)
    decreases |Selected(table, workspaceId, filters, cursor)|
  {
    CursorComesLast(table, workspaceId, filters, cursor);
    var page := ListAuditLogs(table, workspaceId, filters, limit, cursor);
    if page.hasMore {
      ListingShrinks(table, workspaceId, filters, limit, cursor);
      ListingFollows(table, workspaceId, filters, limit, page.nextCursor);
    }
  }

  // For any table with distinct ids, any filters and any limit of at least 1: the listing delivers the rows
  // that match, newest first and each once, if and only if ids and creation order agree at every page end.
  lemma ListingDeliversExactly(table: seq<AuditLog>, workspaceId: string, filters: Filters, limit: nat)
    requires limit >= 1 && DistinctIds(Selected(table, workspaceId, filters, None))
    ensures var rows := Selected(table, workspaceId, filters, None);
      FollowListing(table, workspaceId, filters, limit, None) == rows <==> PagesSeparate(rows, limit)
  {
    ListingFollows(table, workspaceId, filters, limit, None);
    DeliversOnceExactly(Selected(table, workspaceId, filters, None), limit);
  }

  // With ids that do not follow the creation order a row can be lost: of two rows the newer has the smaller id.
  lemma RowLost(newer: AuditLog, older: AuditLog)
    requires newer.id < older.id
    ensures Follow([newer, older], 1, None) == [newer]
  {
    var rows := [newer, older];
    BelowAll(rows, None);
    BelowSkips(rows, Some(newer.id), 2);
    assert rows[0..] == rows && rows[0..1] == [newer];
    assert Below(rows, Some(newer.id)) == rows[2..];
    PageAt(rows, 1, None, 0);
    LastPageAt(rows, 1, Some(newer.id), 2);
  }
}
