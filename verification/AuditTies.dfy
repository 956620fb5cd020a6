// The audit listing when several rows have the same creation time: the database may order them anew for
// every page (packages/api/src/audit/audit.service.ts, listAuditLogs).
module AuditTies {
  import opened Wrappers
  import opened AuditPagination

  predicate NewestFirst(rows: seq<AuditLog>) {
    forall i, j | 0 <= i < j < |rows| :: rows[i].createdAt >= rows[j].createdAt
  }

  // The query orders by creation time only, so each time it may return rows of equal time in another order.
  // An answer gives, for each cursor, the rows in the order in which the database returns them.
  type Answer = Option<int> -> seq<AuditLog>

  ghost predicate Answers(answer: Answer, rows: seq<AuditLog>) {
    forall cursor :: NewestFirst(answer(cursor)) && multiset(answer(cursor)) == multiset(Below(rows, cursor))
  }

  // All pages laid end to end, when the database answers in this way.
  ghost function FollowAnswer(rows: seq<AuditLog>, answer: Answer, limit: nat, cursor: Option<int>): seq<AuditLog>
    requires limit >= 1 && Answers(answer, rows)
    decreases |Below(rows, cursor)|
  {
    var page := PageOf(answer(cursor), limit);
    if page.hasMore then
      NextAnswerIsSmaller(rows, answer, limit, cursor);
      page.data + FollowAnswer(rows, answer, limit, page.nextCursor)
    else
      page.data
  }

  lemma NextAnswerIsSmaller(rows: seq<AuditLog>, answer: Answer, limit: nat, cursor: Option<int>)
    requires limit >= 1 && Answers(answer, rows) && PageOf(answer(cursor), limit).hasMore
    ensures var page := PageOf(answer(cursor), limit);
      page.nextCursor.Some? && |Below(rows, page.nextCursor)| < |Below(rows, cursor)|
  {
    hide Below;
    var given := answer(cursor);
    FirstRows(given, limit);
    assert NewestFirst(given) && multiset(given) == multiset(Below(rows, cursor));
    assert given[limit - 1] in multiset(given);
    assert given[limit - 1] in Below(rows, cursor);
    LowerCursor(rows, cursor, given[limit - 1].id);
  }

  // No other row was created at the same time as row b.
  predicate HasOwnTime(rows: seq<AuditLog>, b: nat)
    requires b < |rows|
  {
    forall k | 0 <= k < |rows| && k != b :: rows[k].createdAt != rows[b].createdAt
  }

  // At the end of every page but the last, from row s on: the row has a creation time of its own, and ids
  // agree with the creation order around it.
  predicate PagesPartFrom(rows: seq<AuditLog>, limit: nat, s: nat)
    requires limit >= 1
    decreases |rows| - s
  {
    s + limit < |rows| ==>
      && Separates(rows, s + limit - 1) && HasOwnTime(rows, s + limit - 1)
      && PagesPartFrom(rows, limit, s + limit)
  }

  // In any order that is newest first, the rows newer than one with its own time are the same, and come first.
  lemma SplitAtOwnTime(left: seq<AuditLog>, row: AuditLog, right: seq<AuditLog>, other: seq<AuditLog>)
    requires multiset(other) == multiset(left + [row] + right) && NewestFirst(other)
    requires forall l | l in left :: l.createdAt > row.createdAt
    requires forall r | r in right :: r.createdAt < row.createdAt
    ensures |left| < |other| && other[|left|] == row
    ensures multiset(other[..|left|]) == multiset(left)
  {
    assert row in multiset(left + [row] + right);
    assert row in multiset(other);
    var i :| 0 <= i < |other| && other[i] == row;
    var before, after := other[..i], other[i + 1..];
    assert other == before + [row] + after;
    WithoutMiddle(before, after, left, right, row);
    NoneEqual(before, after, left, right, row);
    SameNewer(before, after, left, right, row);
    assert |multiset(before)| == |multiset(left)|;
  }

  lemma WithoutMiddle(
      before: seq<AuditLog>, after: seq<AuditLog>, left: seq<AuditLog>, right: seq<AuditLog>, row: AuditLog)
    requires multiset(before + [row] + after) == multiset(left + [row] + right)
    ensures multiset(before) + multiset(after) == multiset(left) + multiset(right)
  {
    assert multiset(before + [row] + after) - multiset{row} == multiset(before) + multiset(after);
    assert multiset(left + [row] + right) - multiset{row} == multiset(left) + multiset(right);
  }

  lemma NoneEqual(
      before: seq<AuditLog>, after: seq<AuditLog>, left: seq<AuditLog>, right: seq<AuditLog>, row: AuditLog)
    requires multiset(before) + multiset(after) == multiset(left) + multiset(right)
    requires forall b | b in before :: b.createdAt >= row.createdAt
    requires forall a | a in after :: a.createdAt <= row.createdAt
    requires forall l | l in left :: l.createdAt > row.createdAt
    requires forall r | r in right :: r.createdAt < row.createdAt
    ensures forall b | b in before :: b.createdAt > row.createdAt
    ensures forall a | a in after :: a.createdAt < row.createdAt
  {
    forall b | b in before
      ensures b.createdAt > row.createdAt
    {
      assert b in multiset(before) + multiset(after);
      assert b in multiset(left) + multiset(right);
      assert b in left || b in right;
    }
    forall a | a in after
      ensures a.createdAt < row.createdAt
    {
      assert a in multiset(before) + multiset(after);
      assert a in multiset(left) + multiset(right);
      assert a in left || a in right;
    }
  }

  lemma SameNewer(
      before: seq<AuditLog>, after: seq<AuditLog>, left: seq<AuditLog>, right: seq<AuditLog>, row: AuditLog)
    requires multiset(before) + multiset(after) == multiset(left) + multiset(right)
    requires forall b | b in before :: b.createdAt > row.createdAt
    requires forall a | a in after :: a.createdAt < row.createdAt
    requires forall l | l in left :: l.createdAt > row.createdAt
    requires forall r | r in right :: r.createdAt < row.createdAt
    ensures multiset(before) == multiset(left)
  {
    forall x: AuditLog
      ensures multiset(before)[x] == multiset(left)[x]
    {
      assert (multiset(before) + multiset(after))[x] == (multiset(left) + multiset(right))[x];
      if x.createdAt > row.createdAt {
        assert x !in after && x !in right;
      } else {
        assert x !in before && x !in left;
      }
    }
  }

  // A page of any answer, when the cursor has selected the rows from s on and the page's last row has its
  // own time: it ends with that row, holds the rows up to it, and the next cursor selects those after it.
  lemma AnsweredPage(rows: seq<AuditLog>, answer: Answer, limit: nat, cursor: Option<int>, s: nat)
    requires limit >= 1 && Answers(answer, rows) && NewestFirst(rows) && s + limit < |rows|
    requires Below(rows, cursor) == rows[s..] && HasOwnTime(rows, s + limit - 1)
    ensures PageOf(answer(cursor), limit).hasMore
    ensures PageOf(answer(cursor), limit).nextCursor == Some(rows[s + limit - 1].id)
    ensures multiset(PageOf(answer(cursor), limit).data) == multiset(rows[s..s + limit])
  {
    var b := s + limit - 1;
    assert NewestFirst(answer(cursor)) && multiset(answer(cursor)) == multiset(rows[s..]);
    GivenPage(rows, answer(cursor), limit, s);
    FirstRows(answer(cursor), limit);
  }

  lemma GivenPage(rows: seq<AuditLog>, given: seq<AuditLog>, limit: nat, s: nat)
    requires limit >= 1 && NewestFirst(rows) && s + limit < |rows| && HasOwnTime(rows, s + limit - 1)
    requires NewestFirst(given) && multiset(given) == multiset(rows[s..])
    ensures |given| == |rows| - s && given[limit - 1] == rows[s + limit - 1]
    ensures multiset(given[..limit]) == multiset(rows[s..s + limit])
  {
    hide NewestFirst;
    hide HasOwnTime;
    var b := s + limit - 1;
    var left, right := rows[s..b], rows[b + 1..];
    RowsAround(rows, s, b);
    assert |multiset(given)| == |multiset(rows[s..])|;
    SplitAtOwnTime(left, rows[b], right, given);
    assert given[..limit] == given[..|left|] + [rows[b]];
  }

  lemma RowsAround(rows: seq<AuditLog>, s: nat, b: nat)
    requires s <= b < |rows| && NewestFirst(rows) && HasOwnTime(rows, b)
    ensures rows[s..] == rows[s..b] + [rows[b]] + rows[b + 1..]
    ensures rows[s..b + 1] == rows[s..b] + [rows[b]]
    ensures forall l | l in rows[s..b] :: l.createdAt > rows[b].createdAt
    ensures forall r | r in rows[b + 1..] :: r.createdAt < rows[b].createdAt
  {
  }

  lemma FirstRows(given: seq<AuditLog>, limit: nat)
    requires 1 <= limit < |given|
    ensures PageOf(given, limit) == Page(given[..limit], true, Some(given[limit - 1].id))
  {
    assert given[..limit + 1][..limit] == given[..limit];
  }

  lemma AnswerStep(rows: seq<AuditLog>, answer: Answer, limit: nat, cursor: Option<int>, s: nat)
    requires limit >= 1 && Answers(answer, rows) && NewestFirst(rows) && s + limit < |rows|
    requires Below(rows, cursor) == rows[s..] && HasOwnTime(rows, s + limit - 1)
    ensures multiset(FollowAnswer(rows, answer, limit, cursor))
      == multiset(rows[s..s + limit]) + multiset(FollowAnswer(rows, answer, limit, Some(rows[s + limit - 1].id)))
  {
    hide Below;
    AnsweredPage(rows, answer, limit, cursor, s);
    hide PageOf;
  }

  lemma AnswerLast(rows: seq<AuditLog>, answer: Answer, limit: nat, cursor: Option<int>, s: nat)
    requires limit >= 1 && Answers(answer, rows) && s <= |rows| <= s + limit
    requires Below(rows, cursor) == rows[s..]
    ensures multiset(FollowAnswer(rows, answer, limit, cursor)) == multiset(rows[s..])
  {
    hide Below;
    assert NewestFirst(answer(cursor)) && multiset(answer(cursor)) == multiset(rows[s..]);
    assert |multiset(answer(cursor))| == |multiset(rows[s..])|;
    assert PageOf(answer(cursor), limit) == Page(answer(cursor), false, None);
    hide PageOf;
  }

  lemma Cut(rows: seq<AuditLog>, s: nat, t: nat)
    requires s <= t <= |rows|
    ensures multiset(rows[s..]) == multiset(rows[s..t]) + multiset(rows[t..])
  {
    assert rows[s..] == rows[s..t] + rows[t..];
  }

  lemma {:induction false} AnswerDelivers(
      rows: seq<AuditLog>, answer: Answer, limit: nat, cursor: Option<int>, s: nat)
    requires limit >= 1 && Answers(answer, rows) && NewestFirst(rows) && s <= |rows|
    requires Below(rows, cursor) == rows[s..] && PagesPartFrom(rows, limit, s)
    ensures multiset(FollowAnswer(rows, answer, limit, cursor)) == multiset(rows[s..])
    decreases |rows| - s
  {
    hide FollowAnswer;
    hide Below;
    hide Answers;
    hide NewestFirst;
    hide HasOwnTime;
    hide Separates;
    if s + limit < |rows| {
      var b := s + limit - 1;
      AnswerStep(rows, answer, limit, cursor, s);
      BelowBoundary(rows, b);
      AnswerDelivers(rows, answer, limit, Some(rows[b].id), s + limit);
      Cut(rows, s, s + limit);
    } else {
      AnswerLast(rows, answer, limit, cursor, s);
    }
  }

  // ---------- Ties at the end of a page can be turned into a loss ----------

  lemma {:induction false} BelowCounts(rows: seq<AuditLog>, cursor: Option<int>, row: AuditLog)
    ensures multiset(Below(rows, cursor))[row] == if BeforeCursor(row, cursor) then multiset(rows)[row] else 0
  {
    if rows != [] {
      BelowCounts(rows[1..], cursor, row);
      assert rows == [rows[0]] + rows[1..];
    }
  }

  lemma BelowPermutes(rows: seq<AuditLog>, other: seq<AuditLog>, cursor: Option<int>)
    requires multiset(rows) == multiset(other)
    ensures multiset(Below(rows, cursor)) == multiset(Below(other, cursor))
  {
    forall row: AuditLog
      ensures multiset(Below(rows, cursor))[row] == multiset(Below(other, cursor))[row]
    {
      BelowCounts(rows, cursor, row);
      BelowCounts(other, cursor, row);
    }
  }

  lemma {:induction false} BelowIsNewestFirst(rows: seq<AuditLog>, cursor: Option<int>)
    requires NewestFirst(rows)
    ensures NewestFirst(Below(rows, cursor))
  {
    if rows != [] {
      BelowIsNewestFirst(rows[1..], cursor);
      var rest := Below(rows[1..], cursor);
      forall i | 0 <= i < |rest|
        ensures rows[0].createdAt >= rest[i].createdAt
      {
        assert rest[i] in rest;
      }
    }
  }

  // The answer that keeps one order of the rows for every page.
  function Fixed(other: seq<AuditLog>): Answer {
    cursor => Below(other, cursor)
  }

  lemma FixedAnswers(rows: seq<AuditLog>, other: seq<AuditLog>)
    requires multiset(rows) == multiset(other) && NewestFirst(other)
    ensures Answers(Fixed(other), rows)
  {
    forall cursor
      ensures NewestFirst(Fixed(other)(cursor)) && multiset(Fixed(other)(cursor)) == multiset(Below(rows, cursor))
    {
      BelowPermutes(rows, other, cursor);
      BelowIsNewestFirst(other, cursor);
    }
  }

  lemma {:induction false} FixedFollows(rows: seq<AuditLog>, other: seq<AuditLog>, limit: nat, cursor: Option<int>)
    requires limit >= 1 && multiset(rows) == multiset(other) && Answers(Fixed(other), rows)
    ensures FollowAnswer(rows, Fixed(other), limit, cursor) == Follow(other, limit, cursor)
    decreases |Below(rows, cursor)|
  {
    var page := PageOf(Below(other, cursor), limit);
    if page.hasMore {
      NextAnswerIsSmaller(rows, Fixed(other), limit, cursor);
      FixedFollows(rows, other, limit, page.nextCursor);
    }
  }

  // However the database breaks ties, every row is delivered exactly once.
  ghost predicate AlwaysDelivers(rows: seq<AuditLog>, limit: nat)
    requires limit >= 1
  {
    forall answer: Answer | Answers(answer, rows) ::
      multiset(FollowAnswer(rows, answer, limit, None)) == multiset(rows)
  }

  lemma DistinctInAnyOrder(rows: seq<AuditLog>, b: nat, k: nat)
    requires DistinctIds(rows) && b < |rows| && k < |rows|
    ensures DistinctIds(rows[b := rows[k]][k := rows[b]])
    ensures multiset(rows[b := rows[k]][k := rows[b]]) == multiset(rows)
  {
  }

  // Every order of the rows that is newest first has pages that separate.
  lemma EveryOrderSeparates(rows: seq<AuditLog>, other: seq<AuditLog>, limit: nat)
    requires limit >= 1 && AlwaysDelivers(rows, limit)
    requires DistinctIds(other) && NewestFirst(other) && multiset(other) == multiset(rows)
    ensures PagesSeparate(other, limit)
  {
    FixedAnswers(rows, other);
    FixedFollows(rows, other, limit, None);
    DeliversOnceExactly(other, limit);
  }

  lemma SwapSeparates(rows: seq<AuditLog>, limit: nat, b: nat, k: nat)
    requires limit >= 1 && AlwaysDelivers(rows, limit) && DistinctIds(rows) && NewestFirst(rows)
    requires b < |rows| && k < |rows| && rows[k].createdAt == rows[b].createdAt
    ensures PagesSeparate(rows[b := rows[k]][k := rows[b]], limit)
  {
    DistinctInAnyOrder(rows, b, k);
    EveryOrderSeparates(rows, rows[b := rows[k]][k := rows[b]], limit);
  }

  // Swapping the last row of a page with one of equal time separates there only if they are the same row.
  lemma TieCannotSeparate(rows: seq<AuditLog>, b: nat, k: nat)
    requires DistinctIds(rows) && b < |rows| && k < |rows| && k != b
    ensures !(Separates(rows, b) && Separates(rows[b := rows[k]][k := rows[b]], b))
  {
    var swapped := rows[b := rows[k]][k := rows[b]];
    assert swapped[b] == rows[k] && swapped[k] == rows[b];
  }

  ghost predicate SwapsSeparateFrom(rows: seq<AuditLog>, limit: nat, s: nat)
    requires limit >= 1
  {
    forall b, k | 0 <= b < |rows| && 0 <= k < |rows| && rows[k].createdAt == rows[b].createdAt ::
      PagesSeparateFrom(rows[b := rows[k]][k := rows[b]], limit, s)
  }

  lemma {:induction false} SwapsShowParting(rows: seq<AuditLog>, limit: nat, s: nat)
    requires limit >= 1 && DistinctIds(rows) && SwapsSeparateFrom(rows, limit, s)
    ensures PagesPartFrom(rows, limit, s)
    decreases |rows| - s
  {
    if s + limit < |rows| {
      var b := s + limit - 1;
      assert rows[b := rows[b]][b := rows[b]] == rows;
      assert PagesSeparateFrom(rows, limit, s);
      forall k | 0 <= k < |rows| && k != b
        ensures rows[k].createdAt != rows[b].createdAt
      {
        if rows[k].createdAt == rows[b].createdAt {
          assert PagesSeparateFrom(rows[b := rows[k]][k := rows[b]], limit, s);
          TieCannotSeparate(rows, b, k);
          assert false;
        }
      }
      SwapsShowParting(rows, limit, s + limit);
    }
  }

  // Whatever order the database gives to rows of equal creation time, every row is delivered exactly once: if
  // and only if, at the end of every page but the last, the row has a creation time of its own and ids agree
  // with the creation order around it.
  lemma AlwaysDeliversExactly(rows: seq<AuditLog>, limit: nat)
    requires limit >= 1 && DistinctIds(rows) && NewestFirst(rows)
    ensures AlwaysDelivers(rows, limit) <==> PagesPartFrom(rows, limit, 0)
  {
    BelowAll(rows, None);
    assert rows[0..] == rows;
    if PagesPartFrom(rows, limit, 0) {
      forall answer: Answer | Answers(answer, rows)
        ensures multiset(FollowAnswer(rows, answer, limit, None)) == multiset(rows)
      {
        AnswerDelivers(rows, answer, limit, None, 0);
      }
    }
    if AlwaysDelivers(rows, limit) {
      forall b, k | 0 <= b < |rows| && 0 <= k < |rows| && rows[k].createdAt == rows[b].createdAt
        ensures PagesSeparateFrom(rows[b := rows[k]][k := rows[b]], limit, 0)
      {
        SwapSeparates(rows, limit, b, k);
      }
      SwapsShowParting(rows, limit, 0);
    }
  }

  // ---------- The same for the service ----------

  // How the database may answer the queries that the listing makes, with the same filters for every page.
  ghost predicate ListingAnswers(answer: Answer, table: seq<AuditLog>, workspaceId: string, filters: Filters) {
    forall cursor ::
      && NewestFirst(answer(cursor))
      && multiset(answer(cursor)) == multiset(Selected(table, workspaceId, filters, cursor))
  }

  lemma {:induction false} SelectedIsNewestFirst(table: seq<AuditLog>, workspaceId: string, filters: Filters)
    requires NewestFirst(table)
    ensures NewestFirst(Selected(table, workspaceId, filters, None))
    ensures forall row | row in Selected(table, workspaceId, filters, None) :: row in table
  {
    if table != [] {
      SelectedIsNewestFirst(table[1..], workspaceId, filters);
      var rest := Selected(table[1..], workspaceId, filters, None);
      forall i | 0 <= i < |rest|
        ensures table[0].createdAt >= rest[i].createdAt
      {
        assert rest[i] in rest;
      }
    }
  }

  // For any table with distinct ids, any filters and any limit of at least 1: the listing delivers every row
  // that matches exactly once under every answer, if and only if pages part cleanly.
  lemma ListingAlwaysDeliversExactly(table: seq<AuditLog>, workspaceId: string, filters: Filters, limit: nat)
    requires limit >= 1 && NewestFirst(table) && DistinctIds(Selected(table, workspaceId, filters, None))
    ensures var rows := Selected(table, workspaceId, filters, None);
      && (forall answer: Answer :: ListingAnswers(answer, table, workspaceId, filters) <==> Answers(answer, rows))
      && (AlwaysDelivers(rows, limit) <==> PagesPartFrom(rows, limit, 0))
  {
    var rows := Selected(table, workspaceId, filters, None);
    forall answer: Answer
      ensures ListingAnswers(answer, table, workspaceId, filters) <==> Answers(answer, rows)
    {
      forall cursor
        ensures Selected(table, workspaceId, filters, cursor) == Below(rows, cursor)
      {
        CursorComesLast(table, workspaceId, filters, cursor);
      }
    }
    SelectedIsNewestFirst(table, workspaceId, filters);
    AlwaysDeliversExactly(rows, limit);
  }
}
