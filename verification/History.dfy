/**
  Reading a client's history page by page. A page is the newest messages created before the cursor; one message more
  than fits is fetched, and only its presence is used.
*/
module History {
  import opened Wrappers
  import opened Store

  type UserId = nat
  type ChatId = nat

  const MIN_PAGE_SIZE := 10
  const MAX_PAGE_SIZE := 100

  /** The instant for which `Time.IsZero` holds. */
  const ZERO_TIME: Time := 0

  datatype Row = Row(id: MessageId, chat: ChatId, author: Option<UserId>, body: string, createdAt: Time,
                     visibleForClient: bool, visibleForManager: bool, blocked: bool, service: bool,
                     checkedAt: Option<Time>)

  /** What the repository hands out: a row without its internal columns. */
  datatype Entry = Entry(id: MessageId, chat: ChatId, author: Option<UserId>, body: string, createdAt: Time,
                         visibleForClient: bool, visibleForManager: bool, blocked: bool, service: bool)

  /** The chats with their clients, and the client whose history is read. */
  datatype View = View(chats: map<ChatId, UserId>, client: UserId)

  datatype Cursor = Cursor(lastCreatedAt: Time, pageSize: int)

  datatype HistoryError = InvalidPageSize | InvalidCursor

  function Adapt(r: Row): Entry {
    Entry(r.id, r.chat, r.author, r.body, r.createdAt, r.visibleForClient, r.visibleForManager, r.blocked, r.service)
  }

  predicate ValidPageSize(size: int) {
    MIN_PAGE_SIZE <= size <= MAX_PAGE_SIZE
  }

  predicate ValidCursor(c: Cursor) {
    c.lastCreatedAt != ZERO_TIME && ValidPageSize(c.pageSize)
  }

  /** The rows of the client's chats that the client may see and that are older than `before`. */
  function Candidates(table: set<Row>, view: View, before: Time): set<Row> {
    set r | r in table && r.visibleForClient && r.chat in view.chats && view.chats[r.chat] == view.client
          && r.createdAt < before
  }

  function Min(a: nat, b: nat): nat { if a <= b then a else b }

  ghost predicate Descending(rows: seq<Row>) {
    forall i, j | 0 <= i < j < |rows| :: rows[i].createdAt >= rows[j].createdAt
  }

  ghost predicate Distinct(rows: seq<Row>) {
    forall i, j | 0 <= i < j < |rows| :: rows[i] != rows[j]
  }

  /** The answer to `ORDER BY created_at DESC LIMIT n`; among rows of one time the database is free to choose. */
  ghost predicate IsTop(rows: seq<Row>, cands: set<Row>, n: nat) {
    && |rows| == Min(n, |cands|)
    && Distinct(rows) && Descending(rows)
    && (forall i | 0 <= i < |rows| :: rows[i] in cands)
    && (forall r, i {:trigger r in rows, rows[i]} | r in cands && r !in rows && 0 <= i < |rows| ::
          rows[i].createdAt >= r.createdAt)
  }

  /** The page that belongs to a set of candidates: its newest `size` rows, and a cursor just when there are more. */
  ghost predicate IsPage(rows: seq<Row>, next: Option<Cursor>, cands: set<Row>, size: nat)
    requires 0 < size
  {
    && IsTop(rows, cands, size)
    && next == if |cands| > size then Some(Cursor(rows[size - 1].createdAt, size)) else None
  }

  /** The same for the entries that are handed out: they show the rows of the page, one by one. */
  ghost predicate IsEntryPage(page: seq<Entry>, next: Option<Cursor>, cands: set<Row>, size: nat)
    requires 0 < size
  {
    exists rows :: IsPage(rows, next, cands, size) && Shows(page, rows)
  }

  ghost predicate Shows(page: seq<Entry>, rows: seq<Row>) {
    |page| == |rows| && forall i | 0 <= i < |rows| :: page[i] == Adapt(rows[i])
  }

  lemma {:induction false} NewestExists(cands: set<Row>) returns (r: Row)
    requires cands != {}
    ensures r in cands && forall q | q in cands :: q.createdAt <= r.createdAt
    decreases |cands|
  {
    r :| r in cands;
    var others := cands - {r};
    if others == {} {
      forall q | q in cands
        ensures q == r
      {
        assert q !in others;
      }
    } else {
      var q := NewestExists(others);
      if r.createdAt < q.createdAt {
        r := q;
      }
    }
  }

  /** The query. */
  method Select(table: set<Row>, view: View, before: Time, limit: nat)
      returns (rows: seq<Row>)
    ensures IsTop(rows, Candidates(table, view, before), limit)
  {
    var cands := Candidates(table, view, before);
    rows := [];
    var rest := cands;
    while |rows| < limit && rest != {}
      invariant |rows| <= limit && TopSoFar(rows, rest, cands)
      decreases |rest|
    {
      ghost var newest := NewestExists(rest);
      var r :| r in rest && forall q | q in rest :: q.createdAt <= r.createdAt;
      TopSnoc(rows, rest, cands, r);
      rows := rows + [r];
      rest := rest - {r};
    }
  }

  /** `rows` are the newest candidates in order, `rest` are the others. */
  ghost predicate TopSoFar(rows: seq<Row>, rest: set<Row>, cands: set<Row>) {
    && |rows| + |rest| == |cands| && rest <= cands
    && Distinct(rows) && Descending(rows)
    && (forall r | r in cands :: r in rest <==> r !in rows)
    && (forall i | 0 <= i < |rows| :: rows[i] in cands)
    && (forall r, i | r in rest && 0 <= i < |rows| :: rows[i].createdAt >= r.createdAt)
  }

  lemma TopSnoc(rows: seq<Row>, rest: set<Row>, cands: set<Row>, r: Row)
    requires TopSoFar(rows, rest, cands) && r in rest && forall q | q in rest :: q.createdAt <= r.createdAt
    ensures TopSoFar(rows + [r], rest - {r}, cands)
  {
  }

  lemma CutTop(rows: seq<Row>, cands: set<Row>, size: nat)
    requires 0 < size && IsTop(rows, cands, size + 1)
    ensures |rows| <= size ==> IsPage(rows, None, cands, size)
    ensures |rows| > size ==> IsPage(rows[..size], Some(Cursor(rows[size - 1].createdAt, size)), cands, size)
  {
    if |rows| > size {
      assert rows == rows[..size] + [rows[size]];
      assert forall r :: r in rows <==> r in rows[..size] || r == rows[size];
    }
  }

  lemma CutPage(rows: seq<Row>, entries: seq<Entry>, cands: set<Row>, size: nat)
    requires 0 < size && IsTop(rows, cands, size + 1) && Shows(entries, rows)
    ensures |rows| <= size ==> IsEntryPage(entries, None, cands, size)
    ensures |rows| > size ==>
      |rows| == size + 1 && IsEntryPage(entries[..size], Some(Cursor(entries[size - 1].createdAt, size)), cands, size)
  {
    CutTop(rows, cands, size);
    if |rows| > size {
      assert Shows(entries[..size], rows[..size]);
    }
  }

  /** Field by field, what a client gets to see of a message. */
  predicate IsEntryOf(e: Entry, q: Row) {
    && e.id == q.id && e.chat == q.chat && e.author == q.author && e.body == q.body && e.createdAt == q.createdAt
    && e.visibleForClient == q.visibleForClient && e.visibleForManager == q.visibleForManager
    && e.blocked == q.blocked && e.service == q.service
  }

  /** The entry shows a message of the client that the client may see and that is older than the cursor. */
  ghost predicate ComesFrom(e: Entry, table: set<Row>, view: View, before: Time) {
    exists q ::
      && q in table && IsEntryOf(e, q)
      && q.visibleForClient && q.chat in view.chats && view.chats[q.chat] == view.client && q.createdAt < before
  }

  ghost predicate IsOn(page: seq<Entry>, q: Row) {
    exists i :: 0 <= i < |page| && IsEntryOf(page[i], q)
  }

  /**
    A page, seen from the table: it has no message but those that the client may see, in chats of that client, older
    than the cursor; and such a message is on the page, unless the page is full, there is more, and the message is not
    newer than the last one on the page. Newer ones come first.
  */
  ghost predicate IsNewestOfClient(page: seq<Entry>, more: bool, table: set<Row>, view: View, before: Time, size: nat) {
    && |page| <= size && (more ==> |page| == size > 0)
    && (forall i {:trigger ComesFrom(page[i], table, view, before)} | 0 <= i < |page| ::
          ComesFrom(page[i], table, view, before))
    && (forall q {:trigger IsOn(page, q)} |
          && q in table
          && q.visibleForClient && q.chat in view.chats && view.chats[q.chat] == view.client && q.createdAt < before ::
          IsOn(page, q) || (more && q.createdAt <= page[size - 1].createdAt))
    && (forall i, j | 0 <= i < j < |page| :: page[i].createdAt >= page[j].createdAt)
  }

  lemma PageOfTable(page: seq<Entry>, next: Option<Cursor>, table: set<Row>, view: View, before: Time, size: nat)
    requires 0 < size && IsEntryPage(page, next, Candidates(table, view, before), size)
    ensures IsNewestOfClient(page, next.Some?, table, view, before, size)
  {
    var cands := Candidates(table, view, before);
    var rows: seq<Row> :| IsPage(rows, next, cands, size) && Shows(page, rows);
    forall i | 0 <= i < |page|
      ensures ComesFrom(page[i], table, view, before)
    {
      assert rows[i] in cands && IsEntryOf(page[i], rows[i]);
    }
    forall q | q in cands
      ensures IsOn(page, q) || (next.Some? && q.createdAt <= page[size - 1].createdAt)
    {
      OnPageOrOlder(page, next, rows, cands, size, q);
    }
  }

  lemma OnPageOrOlder(page: seq<Entry>, next: Option<Cursor>, rows: seq<Row>, cands: set<Row>, size: nat, q: Row)
    requires 0 < size && IsPage(rows, next, cands, size) && Shows(page, rows) && q in cands
    ensures IsOn(page, q) || (next.Some? && |page| == size && q.createdAt <= page[size - 1].createdAt)
  {
    if q in rows {
      var i :| 0 <= i < |rows| && rows[i] == q;
      assert IsEntryOf(page[i], q);
    } else if next.None? {
      NoneLeft(rows, cands, q);
    }
  }

  lemma NoneLeft(rows: seq<Row>, cands: set<Row>, q: Row)
    requires Distinct(rows) && |rows| == |cands| && q in cands && forall i | 0 <= i < |rows| :: rows[i] in cands
    ensures q in rows
  {
    if q !in rows {
      Fits(rows, cands - {q});
    }
  }

  lemma {:induction false} Fits(rows: seq<Row>, cands: set<Row>)
    requires Distinct(rows) && forall i | 0 <= i < |rows| :: rows[i] in cands
    ensures |rows| <= |cands|
  {
    if rows != [] {
      var n := |rows| - 1;
      Fits(rows[..n], cands - {rows[n]});
    }
  }

  /** The loop that copies the fetched rows. */
  method AdaptAll(msgs: seq<Row>) returns (result: seq<Entry>)
    ensures Shows(result, msgs)
  {
    result := [];
    for i := 0 to |msgs|
      invariant |result| == i && forall k | 0 <= k < i :: result[k] == Adapt(msgs[k])
    {
      result := result + [Adapt(msgs[i])];
    }
  }

  /**
    `getChatMessages` for a client. It fails only for a bad page size or a bad cursor; otherwise it returns the page of
    the candidates, and the cursor it returns is itself valid unless the last message of the page has the zero time.
  */
  method GetClientChatMessages(table: set<Row>, view: View, farFuture: Time, pageSize: int, cursor: Option<Cursor>)
    returns (r: Result<(seq<Entry>, Option<Cursor>), HistoryError>)
    ensures r == Failure(InvalidCursor) <==>
      cursor.Some? && !(cursor.value.lastCreatedAt != 0 && 10 <= cursor.value.pageSize <= 100)
    ensures r == Failure(InvalidPageSize) <==> cursor.None? && !(10 <= pageSize <= 100)
    ensures r.Success? ==>
      var size := if cursor.Some? then cursor.value.pageSize else pageSize;
      var before := if cursor.Some? then cursor.value.lastCreatedAt else farFuture;
      && ValidPageSize(size)
      && IsEntryPage(r.value.0, r.value.1, Candidates(table, view, before), size)
      && IsNewestOfClient(r.value.0, r.value.1.Some?, table, view, before, size)
      && (r.value.1.Some? ==>
            && r.value.0 != [] && r.value.1.value == Cursor(r.value.0[|r.value.0| - 1].createdAt, size)
            && (ValidCursor(r.value.1.value) <==> r.value.1.value.lastCreatedAt != ZERO_TIME))
  {
    var size, lastCreatedAt := pageSize, farFuture;
    if cursor.Some? {
      if !ValidCursor(cursor.value) {
        return Failure(InvalidCursor);
      }
      size, lastCreatedAt := cursor.value.pageSize, cursor.value.lastCreatedAt;
    } else if !ValidPageSize(pageSize) {
      return Failure(InvalidPageSize);
    }
    var page, next := FetchPage(table, view, lastCreatedAt, size);
    PageOfTable(page, next, table, view, lastCreatedAt, size);
    r := Success((page, next));
  }

  /** The query for one row more than fits, and the cut. */
  method FetchPage(table: set<Row>, view: View, before: Time, size: nat)
    returns (page: seq<Entry>, next: Option<Cursor>)
    requires 0 < size
    ensures IsEntryPage(page, next, Candidates(table, view, before), size)
    ensures next.Some? ==> page != [] && next.value == Cursor(page[|page| - 1].createdAt, size)
  {
    var msgs := Select(table, view, before, size + 1);
    var result := AdaptAll(msgs);
    CutPage(msgs, result, Candidates(table, view, before), size);
    if |result| <= size {
      return result, None;
    }
    result := result[..|result| - 1];
    return result, Some(Cursor(result[|result| - 1].createdAt, size));
  }
}
