/**
  Following the cursors of the history. A walk is a list of pages read so far, finished or not; between two pages the
  table may grow by messages that are not older than the cursor.
*/
module HistoryWalk {
  import opened Wrappers
  import opened Store
  import opened History

  /** The pages in the order they are read, each with the table at that time. */
  datatype Pages = Stop | Page(table: set<Row>, rows: seq<Row>, rest: Pages)

  /** A page is followed by another only if it came with a cursor that is valid. */
  ghost predicate Walk(k: Pages, view: View, before: Time, size: nat)
    requires 0 < size
  {
    k.Page? ==>
      var cands := Candidates(k.table, view, before);
      && IsTop(k.rows, cands, size)
      && (k.rest.Page? ==>
            && |cands| > size
            && var cut := k.rows[size - 1].createdAt;
               cut != ZERO_TIME && OnlyNewerAdded(k.table, k.rest.table, cut) && Walk(k.rest, view, cut, size))
  }

  /** The last page read so far has no cursor. */
  ghost predicate Finished(k: Pages, view: View, before: Time, size: nat)
    requires 0 < size && Walk(k, view, before, size)
  {
    && k.Page?
    && if k.rest.Stop? then |Candidates(k.table, view, before)| <= size
       else Finished(k.rest, view, k.rows[size - 1].createdAt, size)
  }

  predicate OnlyNewerAdded(table: set<Row>, later: set<Row>, cut: Time) {
    table <= later && forall r | r in later && r !in table :: r.createdAt >= cut
  }

  function Shown(k: Pages): seq<Row> {
    match k case Stop => [] case Page(_, rows, rest) => rows + Shown(rest)
  }

  function Count(k: Pages): nat {
    match k case Stop => 0 case Page(_, _, rest) => 1 + Count(rest)
  }

  ghost predicate DistinctTimes(rows: set<Row>) {
    forall r, q | r in rows && q in rows && r != q :: r.createdAt != q.createdAt
  }

  /** The primary key. */
  ghost predicate UniqueIds(table: set<Row>) {
    forall r, q | r in table && q in table && r.id == q.id :: r == q
  }

  lemma {:induction false} Cardinality(rows: seq<Row>, s: set<Row>)
    requires Distinct(rows) && forall r :: r in s <==> r in rows
    ensures |s| == |rows|
  {
    if rows == [] {
      assert s == {};
    } else {
      var r, rest := rows[0], rows[1..];
      assert rows == [r] + rest;
      Cardinality(rest, s - {r});
    }
  }

  lemma {:induction false} Subset<T>(a: set<T>, b: set<T>)
    requires a <= b
    ensures |a| <= |b|
    ensures |a| == |b| ==> a == b
    decreases |b|
  {
    if a != {} {
      var x :| x in a;
      Subset(a - {x}, b - {x});
      assert a == (a - {x}) + {x} && b == (b - {x}) + {x};
    }
  }

  lemma Complete(rows: seq<Row>, cands: set<Row>)
    requires Distinct(rows) && |rows| == |cands| && forall i | 0 <= i < |rows| :: rows[i] in cands
    ensures forall r | r in cands :: r in rows
  {
    var page := set r | r in rows;
    Cardinality(rows, page);
    Subset(page, cands);
  }

  lemma OneMore(rows: seq<Row>, cands: set<Row>) returns (r: Row)
    requires Distinct(rows) && |rows| < |cands|
    ensures r in cands && r !in rows
  {
    var page := set q | q in rows;
    Cardinality(rows, page);
    if forall q | q in cands :: q in rows {
      Subset(cands, page);
      assert false;
    }
    r :| r in cands && r !in rows;
  }

  /** What is left behind the cursor of a full page: the strictly older candidates, fewer by a page at least. */
  lemma BehindCursor(table: set<Row>, later: set<Row>, rows: seq<Row>, view: View, before: Time, size: nat)
    requires 0 < size
    requires IsTop(rows, Candidates(table, view, before), size) && |rows| == size
    requires OnlyNewerAdded(table, later, rows[size - 1].createdAt)
    ensures
      var cut := rows[size - 1].createdAt;
      var cands, rest := Candidates(table, view, before), Candidates(later, view, cut);
      && rest == Candidates(table, view, cut)
      && rest == Older(cands, cut)
      && |rest| + size <= |cands|
      && (forall r | r in rest :: r !in rows)
  {
    var cut := rows[size - 1].createdAt;
    var cands, rest := Candidates(table, view, before), Candidates(later, view, cut);
    assert rows[size - 1] in cands;
    var page := set r | r in rows;
    Cardinality(rows, page);
    assert rest !! page;
    assert rest + page <= cands;
    Subset(rest + page, cands);
  }

  /**
    A cursor promises more, but not always on the next page: that page is empty just when everything left ties with the
    last message shown, which cannot happen without ties.
  */
  lemma NextPageEmptyIffOnlyTiesLeft(table: set<Row>, rows: seq<Row>, next: Option<Cursor>, view: View, before: Time,
      size: nat)
    requires 0 < size && IsPage(rows, next, Candidates(table, view, before), size) && next.Some?
    ensures
      var cands := Candidates(table, view, before);
      var cut := next.value.lastCreatedAt;
      && (Candidates(table, view, cut) == {} <==> forall r | r in cands && r !in rows :: r.createdAt == cut)
      && (DistinctTimes(cands) ==> Candidates(table, view, cut) != {})
  {
    var cands := Candidates(table, view, before);
    var cut := next.value.lastCreatedAt;
    var rest := Candidates(table, view, cut);
    BehindCursor(table, table, rows, view, before, size);
    assert forall r | r in cands && r !in rows :: r.createdAt <= cut;
    assert forall r | r in cands && r in rows :: r.createdAt >= cut;
    if rest == {} {
      assert forall r | r in cands :: r !in rest;
    } else {
      var r :| r in rest;
      assert r in cands && r !in rows && r.createdAt != cut;
    }
    if DistinctTimes(cands) {
      var r := OneMore(rows, cands);
      assert rows[size - 1] in cands && rows[size - 1] in rows;
      assert r in rest;
    }
  }

  /**
    No walk goes on for ever, whatever ties there are and whatever is added meanwhile: every page but the last is full,
    one that is not finished has only full pages, and together the pages fit into the candidates.
  */
  lemma {:induction false} WalkIsBounded(k: Pages, view: View, before: Time, size: nat)
    requires 0 < size && Walk(k, view, before, size) && k.Page?
    ensures (Count(k) - 1) * size <= |Candidates(k.table, view, before)|
    ensures !Finished(k, view, before, size) ==> Count(k) * size < |Candidates(k.table, view, before)|
  {
    if k.rest.Page? {
      WalkIsBounded(k.rest, view, k.rows[size - 1].createdAt, size);
      BehindCursor(k.table, k.rest.table, k.rows, view, before, size);
      OneMoreTimes(Count(k.rest) - 1, size);
      OneMoreTimes(Count(k.rest), size);
    }
  }

  lemma OneMoreTimes(n: nat, k: nat)
    ensures (n + 1) * k == n * k + k
  {
  }

  function Append(k: Pages, table: set<Row>, rows: seq<Row>): Pages {
    match k case Stop => Page(table, rows, Stop) case Page(t, r, rest) => Page(t, r, Append(rest, table, rows))
  }

  /** The time that the next page is read with. */
  function CursorTime(k: Pages, before: Time): Time {
    match k
    case Stop => before
    case Page(_, rows, rest) => if rows == [] then before else CursorTime(rest, rows[|rows| - 1].createdAt)
  }

  /** The table as it was for the last page. */
  function Latest(k: Pages): set<Row>
    requires k.Page?
  {
    if k.rest.Stop? then k.table else Latest(k.rest)
  }

  /**
    A walk that is not finished goes on with whatever page the query returns for its cursor, unless that cursor is
    refused for its zero time.
  */
  lemma {:induction false} WalkGoesOn(k: Pages, view: View, before: Time, size: nat, later: set<Row>, rows: seq<Row>)
    requires 0 < size && Walk(k, view, before, size) && !Finished(k, view, before, size)
    requires k.Page? ==>
      CursorTime(k, before) != ZERO_TIME && OnlyNewerAdded(Latest(k), later, CursorTime(k, before))
    requires IsTop(rows, Candidates(later, view, CursorTime(k, before)), size)
    ensures Walk(Append(k, later, rows), view, before, size)
    ensures Finished(Append(k, later, rows), view, before, size)
            <==> |Candidates(later, view, CursorTime(k, before))| <= size
  {
    if k.Page? {
      WalkGoesOn(k.rest, view, k.rows[size - 1].createdAt, size, later, rows);
    }
  }

  /** The same pages, read from one and the same table. */
  function FromTable(k: Pages, table: set<Row>): Pages {
    match k case Stop => Stop case Page(_, rows, rest) => Page(table, rows, FromTable(rest, table))
  }

  /** What is added meanwhile changes no page: they are all pages of the table as it was at the start. */
  lemma {:induction false} NewMessagesChangeNoPage(k: Pages, table: set<Row>, view: View, before: Time, size: nat)
    requires 0 < size && Walk(k, view, before, size) && k.Page?
    requires Candidates(table, view, before) == Candidates(k.table, view, before)
    ensures Walk(FromTable(k, table), view, before, size)
    ensures Finished(FromTable(k, table), view, before, size) <==> Finished(k, view, before, size)
  {
    if k.rest.Page? {
      var cut := k.rows[size - 1].createdAt;
      BehindCursor(k.table, k.rest.table, k.rows, view, before, size);
      BehindCursor(table, table, k.rows, view, before, size);
      NewMessagesChangeNoPage(k.rest, table, view, cut, size);
    }
  }

  lemma Joined(page: seq<Row>, rest: seq<Row>, cut: Time)
    requires Distinct(page) && Descending(page) && Distinct(rest) && Descending(rest)
    requires (forall r | r in page :: r.createdAt >= cut) && forall r | r in rest :: r.createdAt < cut
    ensures Distinct(page + rest) && Descending(page + rest)
  {
  }

  /** Nothing is repeated, nothing is out of order, and nothing appears that is not a candidate. */
  lemma {:induction false} WalkNeverRepeats(k: Pages, view: View, before: Time, size: nat)
    requires 0 < size && Walk(k, view, before, size)
    ensures Distinct(Shown(k)) && Descending(Shown(k))
    ensures k.Page? ==> forall r | r in Shown(k) :: r in Candidates(k.table, view, before)
  {
    if k.Page? && k.rest.Page? {
      var cut := k.rows[size - 1].createdAt;
      WalkNeverRepeats(k.rest, view, cut, size);
      BehindCursor(k.table, k.rest.table, k.rows, view, before, size);
      Joined(k.rows, Shown(k.rest), cut);
    } else if k.Page? {
      assert Shown(k) == k.rows;
    }
  }

  function Since(cands: set<Row>, t: Time): set<Row> { set r | r in cands && r.createdAt >= t }

  function Newer(cands: set<Row>, t: Time): set<Row> { set r | r in cands && r.createdAt > t }

  function Older(cands: set<Row>, t: Time): set<Row> { set r | r in cands && r.createdAt < t }

  /** `t` is the time of the candidate in place `size`, counted from the newest. */
  predicate IsCutTime(cands: set<Row>, size: nat, t: Time) {
    |Newer(cands, t)| < size <= |Since(cands, t)|
  }

  /**
    Candidates of one time fall on both sides of the end of a page. This can be seen in the table before anything is
    read: cut off the newest `size` with everything of the same time, and look whether these are more than `size`.
  */
  ghost predicate Straddles(cands: set<Row>, size: nat)
    requires 0 < size
    decreases |cands|
  {
    && |cands| > size
    && exists t ::
      IsCutTime(cands, size, t) && |Older(cands, t)| < |cands|
      && (|Since(cands, t)| > size || Straddles(Older(cands, t), size))
  }

  lemma CutTimeIsUnique(cands: set<Row>, size: nat, t: Time, u: Time)
    requires IsCutTime(cands, size, t) && IsCutTime(cands, size, u)
    ensures t == u
  {
    if t < u {
      Subset(Since(cands, u), Newer(cands, t));
    } else if u < t {
      Subset(Since(cands, t), Newer(cands, u));
    }
  }

  /** A full page ends at the cut time, and it has everything of that time just when it has room for it. */
  lemma PageEndsAtCutTime(page: seq<Row>, cands: set<Row>, size: nat)
    requires 0 < size <= |cands| && IsTop(page, cands, size)
    ensures
      var t := page[size - 1].createdAt;
      && IsCutTime(cands, size, t)
      && |Older(cands, t)| < |cands|
      && ((forall r | r in Since(cands, t) :: r in page) <==> |Since(cands, t)| <= size)
  {
    var t, all := page[size - 1].createdAt, set r | r in page;
    FewNewer(page, cands, size);
    Cardinality(page, all);
    Subset(all, Since(cands, t));
    assert page[size - 1] in cands && page[size - 1] !in Older(cands, t);
    Subset(Older(cands, t), cands);
    if forall r | r in Since(cands, t) :: r in page {
      Subset(Since(cands, t), all);
    }
  }

  lemma FewNewer(page: seq<Row>, cands: set<Row>, size: nat)
    requires 0 < size <= |cands| && IsTop(page, cands, size)
    ensures |Newer(cands, page[size - 1].createdAt)| < size
  {
    var t, front := page[size - 1].createdAt, page[..size - 1];
    var init := set r | r in front;
    Cardinality(front, init);
    forall r | r in Newer(cands, t)
      ensures r in front
    {
      assert r in page;
      var i :| 0 <= i < size && page[i] == r;
      assert i != size - 1;
      assert front[i] == r;
    }
    Subset(Newer(cands, t), init);
  }

  lemma StraddlesAt(cands: set<Row>, size: nat, t: Time)
    requires 0 < size < |cands| && IsCutTime(cands, size, t) && |Older(cands, t)| < |cands|
    ensures Straddles(cands, size) <==> |Since(cands, t)| > size || Straddles(Older(cands, t), size)
  {
    if Straddles(cands, size) {
      var u :| IsCutTime(cands, size, u) && |Older(cands, u)| < |cands|
        && (|Since(cands, u)| > size || Straddles(Older(cands, u), size));
      CutTimeIsUnique(cands, size, t, u);
    }
  }

  /**
    A walk comes to a full page that ends at the zero time while there is more, so that its cursor is refused. Like
    `Straddles` this can be seen in the table before anything is read.
  */
  ghost predicate RefusedAtZero(cands: set<Row>, size: nat)
    requires 0 < size
    decreases |cands|
  {
    && |cands| > size
    && exists t ::
      IsCutTime(cands, size, t) && |Older(cands, t)| < |cands|
      && (t == ZERO_TIME || RefusedAtZero(Older(cands, t), size))
  }

  lemma RefusedAt(cands: set<Row>, size: nat, t: Time)
    requires 0 < size < |cands| && IsCutTime(cands, size, t) && |Older(cands, t)| < |cands|
    ensures RefusedAtZero(cands, size) <==> t == ZERO_TIME || RefusedAtZero(Older(cands, t), size)
  {
    if RefusedAtZero(cands, size) {
      var u :| IsCutTime(cands, size, u) && |Older(cands, u)| < |cands|
        && (u == ZERO_TIME || RefusedAtZero(Older(cands, u), size));
      CutTimeIsUnique(cands, size, t, u);
    }
  }

  /**
    A returned cursor is refused when it comes back if and only if there are more messages than fit and the one in the
    last place of the page, counted from the newest, has the zero time.
  */
  lemma CursorIsRefusedIffCutAtZero(page: seq<Entry>, next: Option<Cursor>, cands: set<Row>, size: nat)
    requires ValidPageSize(size) && IsEntryPage(page, next, cands, size)
    ensures next.Some? && !ValidCursor(next.value) <==> |cands| > size && IsCutTime(cands, size, ZERO_TIME)
  {
    var rows: seq<Row> :| IsPage(rows, next, cands, size) && Shows(page, rows);
    if |cands| > size {
      PageEndsAtCutTime(rows, cands, size);
      if IsCutTime(cands, size, ZERO_TIME) {
        CutTimeIsUnique(cands, size, ZERO_TIME, rows[size - 1].createdAt);
      }
    }
  }

  /**
    A walk that cannot be continued has come to its end or to a refused cursor, and which of the two is decided by the
    table at its start.
  */
  lemma {:induction false} EndsWithErrorIffRefusedAtZero(k: Pages, view: View, before: Time, size: nat)
    requires 0 < size && Walk(k, view, before, size) && k.Page?
    requires Finished(k, view, before, size) || CursorTime(k, before) == ZERO_TIME
    ensures !Finished(k, view, before, size) <==> RefusedAtZero(Candidates(k.table, view, before), size)
  {
    var cands := Candidates(k.table, view, before);
    if |cands| > size {
      var cut := k.rows[size - 1].createdAt;
      PageEndsAtCutTime(k.rows, cands, size);
      RefusedAt(cands, size, cut);
      if k.rest.Page? {
        BehindCursor(k.table, k.rest.table, k.rows, view, before, size);
        EndsWithErrorIffRefusedAtZero(k.rest, view, cut, size);
      }
    }
  }

  /**
    Whether a finished walk has shown every message is decided by the table at its start: it has if and only if no
    messages of one time fall on both sides of the end of a page.
  */
  lemma {:induction false} ShowsAllIffNothingStraddles(k: Pages, view: View, before: Time, size: nat)
    requires 0 < size && Walk(k, view, before, size) && Finished(k, view, before, size)
    ensures
      var cands := Candidates(k.table, view, before);
      (forall r | r in cands :: r in Shown(k)) <==> !Straddles(cands, size)
  {
    var cands := Candidates(k.table, view, before);
    if k.rest.Stop? {
      assert Shown(k) == k.rows;
      Complete(k.rows, cands);
    } else {
      var cut := k.rows[size - 1].createdAt;
      BehindCursor(k.table, k.rest.table, k.rows, view, before, size);
      PageEndsAtCutTime(k.rows, cands, size);
      StraddlesAt(cands, size, cut);
      ShowsAllIffNothingStraddles(k.rest, view, cut, size);
      WalkNeverRepeats(k.rest, view, cut, size);
      assert forall r | r in cands :: r in Since(cands, cut) || r in Older(cands, cut);
      assert forall r | r in Shown(k.rest) :: r in Older(cands, cut);
      assert forall r | r in Older(cands, cut) :: r !in k.rows;
    }
  }

  /** Without ties nothing straddles, so a finished walk is exactly the candidates, newest first, each once. */
  lemma WalkIsTheSortedHistory(k: Pages, view: View, before: Time, size: nat)
    requires 0 < size && Walk(k, view, before, size) && Finished(k, view, before, size)
    requires DistinctTimes(Candidates(k.table, view, before))
    ensures forall r :: r in Shown(k) <==> r in Candidates(k.table, view, before)
    ensures forall i, j | 0 <= i < j < |Shown(k)| :: Shown(k)[i].createdAt > Shown(k)[j].createdAt
  {
    var all := Shown(k);
    WalkNeverRepeats(k, view, before, size);
    ShowsAllIffNothingStraddles(k, view, before, size);
    DistinctTimesDoNotStraddle(Candidates(k.table, view, before), size);
    forall i, j | 0 <= i < j < |all|
      ensures all[i].createdAt > all[j].createdAt
    {
      assert all[i] in all && all[j] in all && all[i] != all[j];
    }
  }

  lemma {:induction false} DistinctTimesDoNotStraddle(cands: set<Row>, size: nat)
    requires 0 < size && DistinctTimes(cands)
    ensures !Straddles(cands, size)
    decreases |cands|
  {
    if Straddles(cands, size) {
      var t :| IsCutTime(cands, size, t) && |Older(cands, t)| < |cands|
        && (|Since(cands, t)| > size || Straddles(Older(cands, t), size));
      DistinctTimesDoNotStraddle(Older(cands, t), size);
      if Since(cands, t) <= Newer(cands, t) {
        Subset(Since(cands, t), Newer(cands, t));
      }
      var r :| r in Since(cands, t) && r !in Newer(cands, t);
      Subset(Since(cands, t), Newer(cands, t) + {r});
    }
  }

  /** The last row of some page with a successor was created at the same time as `r`, and `r` is not on that page. */
  predicate CutOff(k: Pages, r: Row) {
    && k.Page? && k.rest.Page?
    && ((k.rows != [] && k.rows[|k.rows| - 1].createdAt == r.createdAt && r !in k.rows) || CutOff(k.rest, r))
  }

  /** A candidate is missed just when it ties with the last message of a page it is not on. */
  lemma {:induction false} MissedIffCutOff(k: Pages, view: View, before: Time, size: nat, r: Row)
    requires 0 < size && Walk(k, view, before, size) && Finished(k, view, before, size)
    requires r in Candidates(k.table, view, before)
    ensures r !in Shown(k) <==> CutOff(k, r)
  {
    if k.rest.Page? {
      var cut := k.rows[size - 1].createdAt;
      BehindCursor(k.table, k.rest.table, k.rows, view, before, size);
      WalkNeverRepeats(k.rest, view, cut, size);
      if r.createdAt < cut {
        MissedIffCutOff(k.rest, view, cut, size, r);
      } else {
        LaterPagesAreOlder(k.rest, view, cut, size, r);
      }
    } else {
      assert Shown(k) == k.rows;
      Complete(k.rows, Candidates(k.table, view, before));
    }
  }

  /** No page behind a cursor ends at or after the cursor's time. */
  lemma {:induction false} LaterPagesAreOlder(k: Pages, view: View, before: Time, size: nat, r: Row)
    requires 0 < size && Walk(k, view, before, size) && before <= r.createdAt
    ensures !CutOff(k, r)
  {
    if k.Page? && k.rest.Page? {
      var last := k.rows[size - 1];
      assert last in Candidates(k.table, view, before);
      LaterPagesAreOlder(k.rest, view, last.createdAt, size, r);
    }
  }

  function TiedRow(id: MessageId, t: Time): Row {
    Row(id, 0, None, "body", t, true, true, false, false, None)
  }

  /** One more message of one time than a page has room for. */
  function TiedTable(size: nat, t: Time): set<Row> {
    set id | 0 <= id <= size :: TiedRow(id, t)
  }

  lemma {:induction false} TiedTableHasOneMore(size: nat, t: Time)
    ensures |TiedTable(size, t)| == size + 1
  {
    if size == 0 {
      assert TiedTable(0, t) == {TiedRow(0, t)};
    } else {
      TiedTableHasOneMore(size - 1, t);
      assert TiedTable(size, t) == TiedTable(size - 1, t) + {TiedRow(size, t)};
      assert TiedRow(size, t) !in TiedTable(size - 1, t);
    }
  }

  /**
    On this table every finished walk has an empty second page and misses a message, whatever page the database
    returns first.
  */
  lemma TiesLoseAMessage(k: Pages, view: View, t: Time, before: Time, size: nat)
    requires 0 < size && t < before && view.chats == map[0 := view.client]
    requires Walk(k, view, before, size) && Finished(k, view, before, size)
    requires k.table == TiedTable(size, t)
    ensures Count(k) == 2 && k.rest.Page? && k.rest.rows == []
    ensures exists r :: r in Candidates(k.table, view, before) && r !in Shown(k)
  {
    var cands := Candidates(k.table, view, before);
    TiedTableHasOneMore(size, t);
    assert cands == TiedTable(size, t);
    assert k.rows[size - 1] in cands;
    assert k.rest.Page?;
    BehindCursor(k.table, k.rest.table, k.rows, view, before, size);
    assert Candidates(k.rest.table, view, t) == {};
    assert Shown(k) == k.rows + Shown(k.rest) && Shown(k.rest) == k.rest.rows + Shown(k.rest.rest);
    assert k.rest.rest.Stop? && Count(k.rest) == 1;
    var r := OneMore(k.rows, cands);
    assert r in cands && r !in Shown(k);
  }

  /** And there is such a walk. */
  lemma TiedWalk(view: View, t: Time, before: Time, size: nat) returns (k: Pages)
    requires 0 < size && ZERO_TIME != t < before && view.chats == map[0 := view.client]
    ensures Walk(k, view, before, size) && Finished(k, view, before, size) && k.table == TiedTable(size, t)
  {
    var table, rows := TiedTable(size, t), seq(size, i requires 0 <= i < size => TiedRow(i, t));
    TiedTableHasOneMore(size, t);
    assert Candidates(table, view, before) == table;
    assert Candidates(table, view, t) == {};
    k := Page(table, rows, Page(table, [], Stop));
  }

  /**
    With the zero time on this table, the first page comes with a cursor that is refused; so the walk ends with an
    error although a message is left.
  */
  lemma ZeroTimeCursorIsRefused(view: View, before: Time, size: nat) returns (k: Pages)
    requires 0 < size && ZERO_TIME < before && view.chats == map[0 := view.client]
    ensures Walk(k, view, before, size) && !Finished(k, view, before, size) && k.Page?
    ensures k.table == TiedTable(size, ZERO_TIME) && CursorTime(k, before) == ZERO_TIME
    ensures RefusedAtZero(Candidates(k.table, view, before), size)
  {
    var table, rows := TiedTable(size, ZERO_TIME), seq(size, i requires 0 <= i < size => TiedRow(i, ZERO_TIME));
    TiedTableHasOneMore(size, ZERO_TIME);
    assert Candidates(table, view, before) == table;
    k := Page(table, rows, Stop);
    EndsWithErrorIffRefusedAtZero(k, view, before, size);
  }

  /** Each message at most once, newest first. */
  ghost predicate NoRepeats(entries: seq<Entry>) {
    forall i, j | 0 <= i < j < |entries| ::
      entries[i].id != entries[j].id && entries[i].createdAt >= entries[j].createdAt
  }

  ghost predicate ShowsAll(entries: seq<Entry>, cands: set<Row>) {
    forall r | r in cands :: Adapt(r) in entries
  }

  ghost predicate ShowsOnly(entries: seq<Entry>, cands: set<Row>) {
    forall i | 0 <= i < |entries| :: exists r :: r in cands && entries[i] == Adapt(r)
  }

  lemma EntriesOfRows(entries: seq<Entry>, rows: seq<Row>, cands: set<Row>)
    requires Shows(entries, rows) && UniqueIds(cands) && Distinct(rows) && Descending(rows)
    requires forall r | r in rows :: r in cands
    ensures NoRepeats(entries) && ShowsOnly(entries, cands)
    ensures ShowsAll(entries, cands) <==> forall r | r in cands :: r in rows
  {
    forall i | 0 <= i < |entries|
      ensures exists r :: r in cands && entries[i] == Adapt(r)
    {
      assert rows[i] in cands;
    }
    forall i, j | 0 <= i < j < |entries|
      ensures entries[i].id != entries[j].id && entries[i].createdAt >= entries[j].createdAt
    {
      assert rows[i] in cands && rows[j] in cands && rows[i] != rows[j];
    }
    if ShowsAll(entries, cands) {
      forall r | r in cands
        ensures r in rows
      {
        EntryOfRow(entries, rows, cands, r);
      }
    }
    if forall r | r in cands :: r in rows {
      forall r | r in cands
        ensures Adapt(r) in entries
      {
        EntryOfRow(entries, rows, cands, r);
      }
    }
  }

  lemma EntryOfRow(entries: seq<Entry>, rows: seq<Row>, cands: set<Row>, r: Row)
    requires Shows(entries, rows) && UniqueIds(cands) && r in cands
    requires forall q | q in rows :: q in cands
    ensures r in rows <==> Adapt(r) in entries
  {
    if r in rows {
      var i :| 0 <= i < |rows| && rows[i] == r;
      assert entries[i] == Adapt(r);
    }
    if Adapt(r) in entries {
      var i :| 0 <= i < |entries| && entries[i] == Adapt(r);
      assert rows[i].id == r.id;
    }
  }

  /** No message twice, none that is not to be seen, and no more pages than the messages fill. */
  ghost predicate Sound(entries: seq<Entry>, calls: nat, cands: set<Row>, size: nat) {
    && NoRepeats(entries) && ShowsOnly(entries, cands)
    && 0 < calls && (calls - 1) * size <= |cands|
  }

  /** The time a page is read with. */
  function Bound(cursor: Option<Cursor>, before: Time): Time {
    match cursor case Some(c) => c.lastCreatedAt case None => before
  }

  /** The entries of `calls` pages are those of a walk, finished just when there was no error. */
  ghost predicate IsRead(entries: seq<Entry>, calls: nat, err: Option<HistoryError>, k: Pages, view: View, before: Time,
      size: nat)
    requires 0 < size
  {
    && Walk(k, view, before, size) && Shows(entries, Shown(k)) && calls == Count(k)
    && (err.None? <==> Finished(k, view, before, size))
    && (err.Some? ==> CursorTime(k, before) == ZERO_TIME)
  }

  /** What was read is what the client should see, and all of it if nothing straddles. */
  lemma EntriesOfWalk(entries: seq<Entry>, calls: nat, err: Option<HistoryError>, k: Pages, view: View, before: Time,
      size: nat)
    requires 0 < size && IsRead(entries, calls, err, k, view, before, size) && k.Page? && UniqueIds(k.table)
    ensures Sound(entries, calls, Candidates(k.table, view, before), size)
    ensures err.None? ==>
      var cands := Candidates(k.table, view, before);
      ShowsAll(entries, cands) <==> !Straddles(cands, size)
  {
    WalkIsBounded(k, view, before, size);
    EntriesOfShown(entries, k, view, before, size);
    if err.None? {
      ShowsAllIffNothingStraddles(k, view, before, size);
    }
  }

  lemma EntriesOfShown(entries: seq<Entry>, k: Pages, view: View, before: Time, size: nat)
    requires 0 < size && Walk(k, view, before, size) && k.Page? && UniqueIds(k.table) && Shows(entries, Shown(k))
    ensures
      var cands := Candidates(k.table, view, before);
      && NoRepeats(entries) && ShowsOnly(entries, cands)
      && (ShowsAll(entries, cands) <==> forall r | r in cands :: r in Shown(k))
  {
    WalkNeverRepeats(k, view, before, size);
    EntriesOfRows(entries, Shown(k), Candidates(k.table, view, before));
  }

  lemma OnlyPage(page: seq<Entry>, table: set<Row>, view: View, before: Time, size: nat) returns (k: Pages)
    requires 0 < size && IsEntryPage(page, None, Candidates(table, view, before), size)
    ensures IsRead(page, 1, None, k, view, before, size) && k.Page? && k.table == table
  {
    var rows :| IsPage(rows, None, Candidates(table, view, before), size) && Shows(page, rows);
    k := Page(table, rows, Stop);
    WalkOfOne(table, rows, view, before, size);
  }

  lemma WalkOfOne(table: set<Row>, rows: seq<Row>, view: View, before: Time, size: nat)
    requires 0 < size && IsPage(rows, None, Candidates(table, view, before), size)
    ensures
      var k := Page(table, rows, Stop);
      Walk(k, view, before, size) && Finished(k, view, before, size) && Shown(k) == rows && Count(k) == 1
  {
  }

  /** A page in front of what was read from its cursor on. */
  lemma FirstPage(page: seq<Entry>, rest: seq<Entry>, calls: nat, err: Option<HistoryError>, k: Pages, table: set<Row>,
      later: set<Row>, view: View, before: Time, cut: Time, size: nat) returns (l: Pages)
    requires 0 < size && IsEntryPage(page, Some(Cursor(cut, size)), Candidates(table, view, before), size)
    requires OnlyNewerAdded(table, later, cut) && (k.Page? ==> k.table == later && cut != ZERO_TIME)
    requires IsRead(rest, calls, err, k, view, cut, size)
    ensures IsRead(page + rest, calls + 1, err, l, view, before, size) && l.Page? && l.table == table
  {
    var rows :| IsPage(rows, Some(Cursor(cut, size)), Candidates(table, view, before), size) && Shows(page, rows);
    l := Page(table, rows, k);
    WalkCons(table, rows, k, view, before, size);
    ShowsConcat(page, rest, rows, Shown(k));
  }

  lemma WalkCons(table: set<Row>, rows: seq<Row>, k: Pages, view: View, before: Time, size: nat)
    requires 0 < size && IsTop(rows, Candidates(table, view, before), size) && |Candidates(table, view, before)| > size
    requires Walk(k, view, rows[size - 1].createdAt, size)
    requires k.Page? ==>
      rows[size - 1].createdAt != ZERO_TIME && OnlyNewerAdded(table, k.table, rows[size - 1].createdAt)
    ensures Walk(Page(table, rows, k), view, before, size)
    ensures Finished(Page(table, rows, k), view, before, size) <==> Finished(k, view, rows[size - 1].createdAt, size)
  {
  }

  lemma ShowsConcat(a: seq<Entry>, b: seq<Entry>, rows: seq<Row>, others: seq<Row>)
    requires Shows(a, rows) && Shows(b, others)
    ensures Shows(a + b, rows + others)
  {
  }

  lemma LessIsLeft(page: seq<Entry>, table: set<Row>, later: set<Row>, view: View, before: Time, cut: Time, size: nat)
    requires 0 < size && IsEntryPage(page, Some(Cursor(cut, size)), Candidates(table, view, before), size)
    requires OnlyNewerAdded(table, later, cut)
    ensures |Candidates(later, view, cut)| < |Candidates(table, view, before)|
  {
    var rows :| IsPage(rows, Some(Cursor(cut, size)), Candidates(table, view, before), size) && Shows(page, rows);
    BehindCursor(table, later, rows, view, before, size);
  }

  /** The last message read has the zero time, so that its cursor is refused. */
  predicate EndsAtZeroTime(entries: seq<Entry>) {
    entries != [] && entries[|entries| - 1].createdAt == ZERO_TIME
  }

  lemma EndsLikeTheRest(page: seq<Entry>, rest: seq<Entry>)
    ensures EndsAtZeroTime(page + rest) <==> EndsAtZeroTime(if rest == [] then page else rest)
  {
    assert rest == [] ==> page + rest == page;
  }

  /** Reading on from a cursor, or from the newest messages when there is none. */
  method ReadFrom(table: set<Row>, view: View, farFuture: Time, pageSize: int, cursor: Option<Cursor>)
    returns (entries: seq<Entry>, calls: nat, err: Option<HistoryError>, ghost k: Pages)
    requires ValidPageSize(pageSize) && (cursor.Some? ==> cursor.value.pageSize == pageSize)
    ensures IsRead(entries, calls, err, k, view, Bound(cursor, farFuture), pageSize)
    ensures if cursor.Some? && !ValidCursor(cursor.value) then k.Stop? else k.Page? && k.table == table
    ensures err.Some? ==>
      err == Some(InvalidCursor) && if k.Stop? then entries == [] else EndsAtZeroTime(entries)
    decreases |Candidates(table, view, Bound(cursor, farFuture))|
  {
    var r := GetClientChatMessages(table, view, farFuture, pageSize, cursor);
    if r.Failure? {
      assert r.error.InvalidPageSize? || r.error.InvalidCursor?;
      return [], 0, Some(r.error), Stop;
    }
    var (page, next) := r.value;
    ghost var before := Bound(cursor, farFuture);
    if next.None? {
      k := OnlyPage(page, table, view, before, pageSize);
      return page, 1, None, k;
    }
    ghost var cut := next.value.lastCreatedAt;
    var arrived := Arrivals(next.value.lastCreatedAt);
    LessIsLeft(page, table, table + arrived, view, before, cut, pageSize);
    var rest;
    rest, calls, err, k := ReadFrom(table + arrived, view, farFuture, pageSize, next);
    k := FirstPage(page, rest, calls, err, k, table, table + arrived, view, before, cut, pageSize);
    EndsLikeTheRest(page, rest);
    entries, calls := page + rest, calls + 1;
  }

  /** Messages that arrive while a page is looked at. */
  method Arrivals(cut: Time) returns (rows: set<Row>)
    ensures forall r | r in rows :: r.createdAt >= cut
  {
    rows := *;
    rows := set r | r in rows && r.createdAt >= cut;
  }

  /**
    A client that asks for pages until there is no cursor, while messages that are not older than its cursor arrive. It
    comes to an end; no message is shown twice, and all are shown if and only if nothing straddles the end of a page in
    the table at the start. It ends with an error if and only if the page size is bad or the table leads to a cursor of
    the zero time.
  */
  method ReadHistory(table: set<Row>, view: View, farFuture: Time, pageSize: int)
    returns (entries: seq<Entry>, calls: nat, err: Option<HistoryError>)
    requires UniqueIds(table)
    ensures err == Some(InvalidPageSize) <==> !ValidPageSize(pageSize)
    ensures ValidPageSize(pageSize) ==> Sound(entries, calls, Candidates(table, view, farFuture), pageSize)
    ensures err.None? ==>
      var cands := Candidates(table, view, farFuture);
      ShowsAll(entries, cands) <==> !Straddles(cands, pageSize)
    ensures err == Some(InvalidCursor) <==>
      ValidPageSize(pageSize) && RefusedAtZero(Candidates(table, view, farFuture), pageSize)
    ensures err == Some(InvalidCursor) ==> EndsAtZeroTime(entries)
  {
    if !ValidPageSize(pageSize) {
      var r := GetClientChatMessages(table, view, farFuture, pageSize, None);
      return [], 0, Some(r.error);
    }
    ghost var k;
    entries, calls, err, k := ReadFrom(table, view, farFuture, pageSize, None);
    EntriesOfWalk(entries, calls, err, k, view, farFuture, pageSize);
    EndsWithErrorIffRefusedAtZero(k, view, farFuture, pageSize);
  }
}
