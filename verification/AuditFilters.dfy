// Which rows the audit listing is about, and that no other workspace has any part in it.
module AuditFilters {
  import opened Wrappers
  import opened Filtering
  import opened AuditPagination
  import opened AuditTies

  predicate Given(filter: Option<string>) {
    filter != None && filter != Some("")
  }

  // A row of the workspace that equals every filter given, lies within the dates given, both inclusive, and
  // below the cursor. An empty filter counts as not given.
  predicate Asked(log: AuditLog, workspaceId: string, filters: Filters, cursor: Option<int>) {
    && log.workspaceId == workspaceId
    && (Given(filters.actorType) ==> Some(log.actorType) == filters.actorType)
    && (Given(filters.actorId) ==> Some(log.actorId) == filters.actorId)
    && (Given(filters.action) ==> Some(log.action) == filters.action)
    && (Given(filters.resourceType) ==> Some(log.resourceType) == filters.resourceType)
    && (Given(filters.resourceId) ==> Some(log.resourceId) == filters.resourceId)
    && (filters.startDate.Some? ==> filters.startDate.value <= log.createdAt)
    && (filters.endDate.Some? ==> log.createdAt <= filters.endDate.value)
    && (cursor.Some? ==> log.id < cursor.value)
  }

  function AskedFor(workspaceId: string, filters: Filters, cursor: Option<int>): AuditLog -> bool {
    log => Asked(log, workspaceId, filters, cursor)
  }

  lemma MatchIsAsked(log: AuditLog, workspaceId: string, filters: Filters, cursor: Option<int>)
    ensures Matches(log, workspaceId, filters) && BeforeCursor(log, cursor)
      <==> AskedFor(workspaceId, filters, cursor)(log)
  {
  }

  // The query returns exactly the rows asked for, in the table's order and each as often as it stands there.
  lemma {:induction false} SelectedIsAsked(
      table: seq<AuditLog>, workspaceId: string, filters: Filters, cursor: Option<int>)
    ensures IsFilter(
      Selected(table, workspaceId, filters, cursor), table, AskedFor(workspaceId, filters, cursor))
  {
    hide Matches;
    hide BeforeCursor;
    hide AskedFor;
    hide IsFilter;
    var keep := AskedFor(workspaceId, filters, cursor);
    if table == [] {
      NothingToFilter(keep);
    } else {
      SelectedIsAsked(table[1..], workspaceId, filters, cursor);
      FilterPrepends(Selected(table[1..], workspaceId, filters, cursor), table[1..], table[0], keep);
      assert [table[0]] + table[1..] == table;
      MatchIsAsked(table[0], workspaceId, filters, cursor);
    }
  }

  lemma SelectedRow(table: seq<AuditLog>, workspaceId: string, filters: Filters, cursor: Option<int>, log: AuditLog)
    ensures log in Selected(table, workspaceId, filters, cursor)
      <==> log in table && Asked(log, workspaceId, filters, cursor)
  {
    SelectedIsAsked(table, workspaceId, filters, cursor);
    FilteredItems(
      Selected(table, workspaceId, filters, cursor), table, AskedFor(workspaceId, filters, cursor), log);
  }

  // Whatever the limit, no page of a listing holds a row that was not asked for.
  lemma ListingIsAsked(
      table: seq<AuditLog>, workspaceId: string, filters: Filters, limit: nat, cursor: Option<int>, log: AuditLog)
    requires limit >= 1 && log in FollowListing(table, workspaceId, filters, limit, cursor)
    ensures log in table && Asked(log, workspaceId, filters, cursor)
  {
    var rows := Selected(table, workspaceId, filters, None);
    ListingFollows(table, workspaceId, filters, limit, cursor);
    FollowOnlyBelow(rows, limit, cursor);
    CursorComesLast(table, workspaceId, filters, cursor);
    SelectedRow(table, workspaceId, filters, cursor, log);
  }

  // ---------- Other workspaces ----------

  function OwnRows(table: seq<AuditLog>, workspaceId: string): seq<AuditLog> {
    if table == [] then []
    else (if table[0].workspaceId == workspaceId then [table[0]] else []) + OwnRows(table[1..], workspaceId)
  }

  lemma {:induction false} SelectedFromOwn(
      table: seq<AuditLog>, workspaceId: string, filters: Filters, cursor: Option<int>)
    ensures Selected(table, workspaceId, filters, cursor)
      == Selected(OwnRows(table, workspaceId), workspaceId, filters, cursor)
  {
    if table != [] {
      SelectedFromOwn(table[1..], workspaceId, filters, cursor);
      var own := OwnRows(table, workspaceId);
      if table[0].workspaceId == workspaceId {
        assert own[0] == table[0] && own[1..] == OwnRows(table[1..], workspaceId);
      } else {
        assert own == OwnRows(table[1..], workspaceId);
      }
    }
  }

  // Rows of other workspaces can be added, removed or changed: the pages of a workspace stay the same.
  lemma ListingIgnoresOthers(
      table: seq<AuditLog>, other: seq<AuditLog>, workspaceId: string, filters: Filters, limit: nat,
      cursor: Option<int>)
    requires limit >= 1 && OwnRows(table, workspaceId) == OwnRows(other, workspaceId)
    ensures ListAuditLogs(table, workspaceId, filters, limit, cursor)
      == ListAuditLogs(other, workspaceId, filters, limit, cursor)
    ensures FollowListing(table, workspaceId, filters, limit, cursor)
      == FollowListing(other, workspaceId, filters, limit, cursor)
  {
    SelectedFromOwn(table, workspaceId, filters, cursor);
    SelectedFromOwn(other, workspaceId, filters, cursor);
    SelectedFromOwn(table, workspaceId, filters, None);
    SelectedFromOwn(other, workspaceId, filters, None);
    ListingFollows(table, workspaceId, filters, limit, cursor);
    ListingFollows(other, workspaceId, filters, limit, cursor);
  }

  lemma {:induction false} AnswerOnlyBelow(
      rows: seq<AuditLog>, answer: Answer, limit: nat, cursor: Option<int>, log: AuditLog)
    requires limit >= 1 && Answers(answer, rows) && log in FollowAnswer(rows, answer, limit, cursor)
    ensures log in rows
    decreases |Below(rows, cursor)|
  {
    var given := answer(cursor);
    assert multiset(given) == multiset(Below(rows, cursor)) by {
      assert NewestFirst(given) && multiset(given) == multiset(Below(rows, cursor));
    }
    var page := PageOf(given, limit);
    if log in page.data {
      assert log in given;
      assert log in multiset(Below(rows, cursor));
      assert log in Below(rows, cursor);
    } else {
      NextAnswerIsSmaller(rows, answer, limit, cursor);
      AnswerOnlyBelow(rows, answer, limit, page.nextCursor, log);
    }
  }

  // The same however the database orders rows of equal creation time: the answers it may give, and so the pages,
  // do not depend on other workspaces, and under none of them a row is delivered that was not asked for.
  lemma AnswersIgnoreOthers(
      table: seq<AuditLog>, other: seq<AuditLog>, workspaceId: string, filters: Filters, limit: nat, answer: Answer)
    requires limit >= 1 && OwnRows(table, workspaceId) == OwnRows(other, workspaceId)
    requires Answers(answer, Selected(table, workspaceId, filters, None))
    ensures Answers(answer, Selected(other, workspaceId, filters, None))
    ensures var delivered := FollowAnswer(Selected(table, workspaceId, filters, None), answer, limit, None);
      && delivered == FollowAnswer(Selected(other, workspaceId, filters, None), answer, limit, None)
      && forall log | log in delivered :: log in table && Asked(log, workspaceId, filters, None)
  {
    var rows := Selected(table, workspaceId, filters, None);
    SelectedFromOwn(table, workspaceId, filters, None);
    SelectedFromOwn(other, workspaceId, filters, None);
    forall log | log in FollowAnswer(rows, answer, limit, None)
      ensures log in table && Asked(log, workspaceId, filters, None)
    {
      AnswerOnlyBelow(rows, answer, limit, None, log);
      SelectedRow(table, workspaceId, filters, None, log);
    }
  }
}
