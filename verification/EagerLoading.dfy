/**
  Eager loading of edges: the hash joins of the generated query builders. The rows that a query returns are arguments;
  each row has been scanned into an object of its own.
*/
module EagerLoading {
  import opened Wrappers

  type Id = nat

  class Chat {
    const id: Id
    var messages: seq<Message>

    constructor (id: Id)
      ensures this.id == id && messages == []
    {
      this.id := id;
      this.messages := [];
    }
  }

  class Message {
    const id: Id
    const chatId: Id
    var chat: Chat?

    constructor (id: Id, chatId: Id)
      ensures this.id == id && this.chatId == chatId && chat == null
    {
      this.id := id;
      this.chatId := chatId;
      this.chat := null;
    }
  }

  function Ids(nodes: seq<Chat>): seq<Id> {
    seq(|nodes|, i requires 0 <= i < |nodes| => nodes[i].id)
  }

  /** The nested-loop join, one chat at a time: its messages among the first n, in the order of the query. */
  function MessagesAmong(neighbors: seq<Message>, n: nat, id: Id): seq<Message>
    requires n <= |neighbors|
  {
    if n == 0 then []
    else MessagesAmong(neighbors, n - 1, id) + (if neighbors[n - 1].chatId == id then [neighbors[n - 1]] else [])
  }

  function MessagesOf(neighbors: seq<Message>, id: Id): seq<Message> {
    MessagesAmong(neighbors, |neighbors|, id)
  }

  predicate DistinctIds(nodes: seq<Chat>) {
    forall i, j | 0 <= i < j < |nodes| :: nodes[i].id != nodes[j].id
  }

  /** The last chat with this id. */
  function ChatOf(chats: seq<Chat>, id: Id): Option<Chat> {
    if chats == [] then None
    else if chats[|chats| - 1].id == id then Some(chats[|chats| - 1])
    else ChatOf(chats[..|chats| - 1], id)
  }

  ghost predicate LastWith(chats: seq<Chat>, id: Id, i: int) {
    0 <= i < |chats| && chats[i].id == id && forall j | i < j < |chats| :: chats[j].id != id
  }

  lemma {:induction false} ChatOfIsLast(chats: seq<Chat>, id: Id)
    ensures ChatOf(chats, id).None? <==> forall i | 0 <= i < |chats| :: chats[i].id != id
    ensures ChatOf(chats, id).Some? ==> exists i :: LastWith(chats, id, i) && ChatOf(chats, id) == Some(chats[i])
  {
    if chats != [] {
      var n := |chats| - 1;
      ChatOfIsLast(chats[..n], id);
      if chats[n].id == id {
        assert LastWith(chats, id, n);
      } else if ChatOf(chats, id).Some? {
        var i :| LastWith(chats[..n], id, i) && ChatOf(chats[..n], id) == Some(chats[..n][i]);
        assert chats[i] == chats[..n][i];
        assert forall j | i < j < n :: chats[j] == chats[..n][j];
        assert LastWith(chats, id, i);
      } else {
        assert forall i | 0 <= i < n :: chats[i] == chats[..n][i];
      }
    }
  }

  lemma {:induction false} ChatOfMember(chats: seq<Chat>, id: Id)
    ensures ChatOf(chats, id).Some? ==> ChatOf(chats, id).value in chats && ChatOf(chats, id).value.id == id
  {
    if chats != [] {
      ChatOfMember(chats[..|chats| - 1], id);
    }
  }

  /** Where ids are distinct, the only chat with an id is the last one with it. */
  lemma {:induction false} ChatOfUnique(chats: seq<Chat>, k: nat)
    requires k < |chats| && DistinctIds(chats)
    ensures ChatOf(chats, chats[k].id) == Some(chats[k])
  {
    if k < |chats| - 1 {
      ChatOfUnique(chats[..|chats| - 1], k);
    }
  }

  /** `nodeids` maps each id to the last node that has it. */
  ghost predicate Indexed(nodes: seq<Chat>, nodeids: map<Id, Chat>) {
    forall id :: ChatOf(nodes, id) == if id in nodeids then Some(nodeids[id]) else None
  }

  /** What a node holds once the first n neighbours are assigned through the index. */
  function Expected(nodeids: map<Id, Chat>, node: Chat, neighbors: seq<Message>, n: nat): seq<Message>
    requires n <= |neighbors|
  {
    if node.id in nodeids && nodeids[node.id] == node then MessagesAmong(neighbors, n, node.id) else []
  }

  ghost predicate Assigned(nodes: seq<Chat>, nodeids: map<Id, Chat>, neighbors: seq<Message>, n: nat)
    requires n <= |neighbors|
    reads nodes
  {
    forall i | 0 <= i < |nodes| :: nodes[i].messages == Expected(nodeids, nodes[i], neighbors, n)
  }

  /** The rows of the first n that the query returns once it is restricted to these chats, in its own order. */
  function InChats(rows: seq<Message>, n: nat, keys: seq<Id>): seq<Message>
    requires n <= |rows|
  {
    if n == 0 then []
    else InChats(rows, n - 1, keys) + (if rows[n - 1].chatId in keys then [rows[n - 1]] else [])
  }

  lemma {:induction false} MessagesOfPrefix(a: seq<Message>, b: seq<Message>, n: nat, id: Id)
    requires n <= |a|
    ensures MessagesAmong(a + b, n, id) == MessagesAmong(a, n, id)
  {
    if n > 0 {
      MessagesOfPrefix(a, b, n - 1, id);
    }
  }

  lemma MessagesSnoc(ms: seq<Message>, m: Message, id: Id)
    ensures MessagesOf(ms + [m], id) == MessagesOf(ms, id) + (if m.chatId == id then [m] else [])
  {
    MessagesOfPrefix(ms, [m], |ms|, id);
  }

  /** The restriction to the keys takes nothing away from a chat that is asked for. */
  lemma {:induction false} RestrictedJoin(rows: seq<Message>, n: nat, keys: seq<Id>, id: Id)
    requires n <= |rows| && id in keys
    ensures MessagesOf(InChats(rows, n, keys), id) == MessagesAmong(rows, n, id)
  {
    if n > 0 {
      RestrictedJoin(rows, n - 1, keys, id);
      if rows[n - 1].chatId in keys {
        MessagesSnoc(InChats(rows, n - 1, keys), rows[n - 1], id);
      } else {
        assert InChats(rows, n, keys) == InChats(rows, n - 1, keys);
      }
    }
  }

  /**
    `loadMessages` over the rows that its query would return for all chats. It never returns the foreign-key error, and
    every node ends up with its own messages in the order of the query, as in the nested-loop join; only among nodes of
    one id the last one gets them all.
  */
  method LoadMessages(nodes: seq<Chat>, rows: seq<Message>) returns (fks: seq<Id>, ok: bool)
    modifies nodes
    ensures fks == Ids(nodes) && ok
    ensures forall i | 0 <= i < |nodes| ::
        nodes[i].messages ==
        if ChatOf(nodes, nodes[i].id) == Some(nodes[i]) then MessagesOf(rows, nodes[i].id) else []
    ensures DistinctIds(nodes) ==> forall i | 0 <= i < |nodes| :: nodes[i].messages == MessagesOf(rows, nodes[i].id)
  {
    var nodeids;
    fks, nodeids := IndexNodes(nodes);
    var neighbors := QueryMessages(rows, fks);
    forall id | id in nodeids
      ensures nodeids[id] in nodes && nodeids[id].id == id
    {
      ChatOfMember(nodes, id);
    }
    ok := AssignMessages(nodes, nodeids, neighbors);
    NodesHaveTheirMessages(nodes, nodeids, rows);
  }

  lemma NodesHaveTheirMessages(nodes: seq<Chat>, nodeids: map<Id, Chat>, rows: seq<Message>)
    requires Indexed(nodes, nodeids)
    requires var ns := InChats(rows, |rows|, Ids(nodes)); Assigned(nodes, nodeids, ns, |ns|)
    ensures forall i | 0 <= i < |nodes| ::
        nodes[i].messages ==
        if ChatOf(nodes, nodes[i].id) == Some(nodes[i]) then MessagesOf(rows, nodes[i].id) else []
    ensures DistinctIds(nodes) ==> forall i | 0 <= i < |nodes| :: nodes[i].messages == MessagesOf(rows, nodes[i].id)
  {
    forall i | 0 <= i < |nodes|
      ensures nodes[i].messages ==
              if ChatOf(nodes, nodes[i].id) == Some(nodes[i]) then MessagesOf(rows, nodes[i].id) else []
      ensures DistinctIds(nodes) ==> ChatOf(nodes, nodes[i].id) == Some(nodes[i])
    {
      assert Ids(nodes)[i] in Ids(nodes);
      RestrictedJoin(rows, |rows|, Ids(nodes), nodes[i].id);
      if DistinctIds(nodes) {
        ChatOfUnique(nodes, i);
      }
    }
  }

  /** The query with its filter on the keys. */
  method QueryMessages(rows: seq<Message>, keys: seq<Id>) returns (neighbors: seq<Message>)
    ensures neighbors == InChats(rows, |rows|, keys)
    ensures forall m | m in neighbors :: m.chatId in keys
  {
    neighbors := [];
    for k := 0 to |rows|
      invariant neighbors == InChats(rows, k, keys)
      invariant forall m | m in neighbors :: m.chatId in keys
    {
      if rows[k].chatId in keys {
        neighbors := neighbors + [rows[k]];
      }
    }
  }

  /** The first loop: the keys of the query, the index of the nodes, and an empty edge list for each of them. */
  method IndexNodes(nodes: seq<Chat>) returns (fks: seq<Id>, nodeids: map<Id, Chat>)
    modifies nodes
    ensures fks == Ids(nodes) && Indexed(nodes, nodeids)
    ensures forall id :: id in nodeids <==> id in fks
    ensures forall i | 0 <= i < |nodes| :: nodes[i].messages == []
  {
    fks, nodeids := [], map[];
    for i := 0 to |nodes|
      invariant fks == Ids(nodes[..i]) && Indexed(nodes[..i], nodeids)
      invariant forall id :: id in nodeids <==> id in fks
      invariant forall k | 0 <= k < i :: nodes[k].messages == []
    {
      assert nodes[..i + 1][..i] == nodes[..i];
      assert Ids(nodes[..i + 1]) == Ids(nodes[..i]) + [nodes[i].id];
      fks := fks + [nodes[i].id];
      nodeids := nodeids[nodes[i].id := nodes[i]];
      nodes[i].messages := [];
    }
    assert nodes[..|nodes|] == nodes;
  }

  /** The second loop: each neighbour is appended to the node its key leads to. */
  method AssignMessages(nodes: seq<Chat>, nodeids: map<Id, Chat>, neighbors: seq<Message>) returns (ok: bool)
    requires forall id | id in nodeids :: nodeids[id] in nodes && nodeids[id].id == id
    requires Assigned(nodes, nodeids, neighbors, 0)
    modifies nodes
    ensures ok <==> forall m | m in neighbors :: m.chatId in nodeids
    ensures ok ==> Assigned(nodes, nodeids, neighbors, |neighbors|)
  {
    for k := 0 to |neighbors|
      invariant forall m | m in neighbors[..k] :: m.chatId in nodeids
      invariant Assigned(nodes, nodeids, neighbors, k)
    {
      if neighbors[k].chatId !in nodeids {
        return false;
      }
      AppendNeighbor(nodes, nodeids, neighbors, k);
    }
    ok := true;
  }

  method AppendNeighbor(ghost nodes: seq<Chat>, nodeids: map<Id, Chat>, neighbors: seq<Message>, k: nat)
    requires k < |neighbors| && neighbors[k].chatId in nodeids
    requires forall id | id in nodeids :: nodeids[id] in nodes && nodeids[id].id == id
    requires Assigned(nodes, nodeids, neighbors, k)
    modifies nodes
    ensures Assigned(nodes, nodeids, neighbors, k + 1)
  {
    var node := nodeids[neighbors[k].chatId];
    node.messages := node.messages + [neighbors[k]];
  }

  lemma {:induction false} MessagesAmongIsTheJoin(neighbors: seq<Message>, n: nat, id: Id, m: Message)
    requires n <= |neighbors|
    ensures multiset(MessagesAmong(neighbors, n, id))[m] == if m.chatId == id then multiset(neighbors[..n])[m] else 0
  {
    if n > 0 {
      assert neighbors[..n] == neighbors[..n - 1] + [neighbors[n - 1]];
      MessagesAmongIsTheJoin(neighbors, n - 1, id, m);
    }
  }

  /** A chat's messages come in the order of the query. */
  lemma {:induction false} MessagesInQueryOrder(a: seq<Message>, b: seq<Message>, id: Id)
    ensures MessagesOf(a + b, id) == MessagesOf(a, id) + MessagesOf(b, id)
  {
    if b == [] {
      assert a + b == a;
    } else {
      var init, m := b[..|b| - 1], b[|b| - 1];
      assert a + b == (a + init) + [m] && b == init + [m];
      MessagesSnoc(a + init, m, id);
      MessagesSnoc(init, m, id);
      MessagesInQueryOrder(a, init, id);
    }
  }

  /** A chat's messages are those that refer to it, each as often as the query returned it. */
  lemma MessagesOfIsTheJoin(neighbors: seq<Message>, id: Id, m: Message)
    ensures multiset(MessagesOf(neighbors, id))[m] == if m.chatId == id then multiset(neighbors)[m] else 0
  {
    MessagesAmongIsTheJoin(neighbors, |neighbors|, id, m);
    assert neighbors[..|neighbors|] == neighbors;
  }

  /** The keys a many-to-one load asks for: each one once, in the order of first use. */
  function KeysOf(nodes: seq<Message>): seq<Id> {
    if nodes == [] then []
    else
      var keys, fk := KeysOf(nodes[..|nodes| - 1]), nodes[|nodes| - 1].chatId;
      if fk in keys then keys else keys + [fk]
  }

  lemma {:induction false} KeysAreDistinctAndComplete(nodes: seq<Message>)
    ensures forall i, j | 0 <= i < j < |KeysOf(nodes)| :: KeysOf(nodes)[i] != KeysOf(nodes)[j]
    ensures forall id :: id in KeysOf(nodes) <==> exists i :: 0 <= i < |nodes| && nodes[i].chatId == id
  {
    if nodes != [] {
      var n := |nodes| - 1;
      KeysAreDistinctAndComplete(nodes[..n]);
      forall id
        ensures id in KeysOf(nodes) <==> exists i :: 0 <= i < |nodes| && nodes[i].chatId == id
      {
        if id in KeysOf(nodes[..n]) {
          var i :| 0 <= i < n && nodes[..n][i].chatId == id;
          assert nodes[i].chatId == id;
        }
        if exists i :: 0 <= i < |nodes| && nodes[i].chatId == id {
          var i :| 0 <= i < |nodes| && nodes[i].chatId == id;
          if i < n {
            assert nodes[..n][i].chatId == id;
          }
        }
        assert nodes[n].chatId in KeysOf(nodes);
      }
    }
  }

  /** The keys come in the order of their first use: those of the first nodes are the first keys. */
  lemma {:induction false} KeysInOrderOfUse(a: seq<Message>, b: seq<Message>)
    ensures KeysOf(a) <= KeysOf(a + b)
  {
    if b == [] {
      assert a + b == a;
    } else {
      var init := b[..|b| - 1];
      assert (a + b)[..|a + b| - 1] == a + init;
      KeysInOrderOfUse(a, init);
    }
  }

  lemma NoKeysNoNodes(nodes: seq<Message>)
    ensures KeysOf(nodes) == [] ==> nodes == []
  {
  }

  /** `nodeids` maps each key to the nodes that have it. */
  ghost predicate Grouped(nodes: seq<Message>, nodeids: map<Id, seq<Message>>) {
    && (forall id :: id in nodeids <==> id in KeysOf(nodes))
    && (forall id, k | id in nodeids && 0 <= k < |nodeids[id]| ::
        nodeids[id][k] in nodes && nodeids[id][k].chatId == id)
    && (forall i {:trigger nodes[i].chatId} | 0 <= i < |nodes| ::
          nodes[i].chatId in nodeids && nodes[i] in nodeids[nodes[i].chatId])
  }

  lemma GroupSnoc(nodes: seq<Message>, i: nat, nodeids: map<Id, seq<Message>>)
    requires i < |nodes| && Grouped(nodes[..i], nodeids)
    ensures
      var fk := nodes[i].chatId;
      && Grouped(nodes[..i + 1], nodeids[fk := (if fk in nodeids then nodeids[fk] else []) + [nodes[i]]])
      && KeysOf(nodes[..i + 1]) == (if fk in nodeids then KeysOf(nodes[..i]) else KeysOf(nodes[..i]) + [fk])
  {
    var fk := nodes[i].chatId;
    var after := nodeids[fk := (if fk in nodeids then nodeids[fk] else []) + [nodes[i]]];
    assert nodes[..i + 1][..i] == nodes[..i];
    assert nodes[..i + 1] == nodes[..i] + [nodes[i]];
    KeysAreDistinctAndComplete(nodes[..i]);
    forall k | 0 <= k < i + 1
      ensures nodes[k].chatId in after && nodes[k] in after[nodes[k].chatId]
    {
      assert k < i ==> nodes[..i][k] == nodes[k];
    }
  }

  /** The edge of a node after the neighbours so far: the chat returned for its key, or what it was. */
  function Edge(neighbors: seq<Chat>, id: Id, was: Chat?): Chat? {
    match ChatOf(neighbors, id) case Some(c) => c case None => was
  }

  /** The chats that the query returns once it is restricted to these ids, in its own order. */
  function WithIds(rows: seq<Chat>, ids: seq<Id>): seq<Chat> {
    if rows == [] then []
    else
      var c := rows[|rows| - 1];
      WithIds(rows[..|rows| - 1], ids) + (if c.id in ids then [c] else [])
  }

  /** The restriction loses no chat that is asked for, and returns no other. */
  lemma {:induction false} RestrictedLookup(rows: seq<Chat>, ids: seq<Id>, id: Id)
    requires id in ids
    ensures ChatOf(WithIds(rows, ids), id) == ChatOf(rows, id)
  {
    if rows != [] {
      var init, c := rows[..|rows| - 1], rows[|rows| - 1];
      RestrictedLookup(init, ids, id);
      if c.id in ids {
        var some := WithIds(init, ids);
        assert (some + [c])[..|some|] == some;
      } else {
        assert WithIds(rows, ids) == WithIds(init, ids);
      }
    }
  }

  lemma {:induction false} OnlyAskedFor(rows: seq<Chat>, ids: seq<Id>)
    ensures forall k | 0 <= k < |WithIds(rows, ids)| :: WithIds(rows, ids)[k].id in ids
  {
    if rows != [] {
      OnlyAskedFor(rows[..|rows| - 1], ids);
    }
  }

  /**
    `loadChat` over the stored chats. The query is asked for each key once, and not at all without nodes. It never
    returns the foreign-key error; every message whose chat is stored has that chat afterwards, and every other one
    has the edge it had.
  */
  method LoadChat(nodes: seq<Message>, rows: seq<Chat>) returns (ids: seq<Id>, ok: bool)
    modifies nodes
    ensures ids == KeysOf(nodes) && ok
    ensures forall i | 0 <= i < |nodes| :: nodes[i].chat == Edge(rows, nodes[i].chatId, old(nodes[i].chat))
    ensures DistinctIds(rows) ==>
      forall i, k | 0 <= i < |nodes| && 0 <= k < |rows| && nodes[i].chatId == rows[k].id :: nodes[i].chat == rows[k]
  {
    var nodeids;
    ids, nodeids := GroupNodes(nodes);
    if |ids| == 0 {
      NoKeysNoNodes(nodes);
      return ids, true;
    }
    var neighbors := QueryChats(rows, ids);
    ok := AssignChats(nodes, nodeids, neighbors);
    forall i | 0 <= i < |nodes|
      ensures ChatOf(neighbors, nodes[i].chatId) == ChatOf(rows, nodes[i].chatId)
    {
      assert nodes[i].chatId in nodeids;
      RestrictedLookup(rows, ids, nodes[i].chatId);
    }
    if DistinctIds(rows) {
      forall k | 0 <= k < |rows|
        ensures ChatOf(rows, rows[k].id) == Some(rows[k])
      {
        ChatOfUnique(rows, k);
      }
    }
  }

  /** The query with its filter on the ids. */
  method QueryChats(rows: seq<Chat>, ids: seq<Id>) returns (neighbors: seq<Chat>)
    ensures neighbors == WithIds(rows, ids)
    ensures forall k | 0 <= k < |neighbors| :: neighbors[k].id in ids
  {
    neighbors := [];
    for k := 0 to |rows|
      invariant neighbors == WithIds(rows[..k], ids)
    {
      assert rows[..k + 1][..k] == rows[..k];
      if rows[k].id in ids {
        neighbors := neighbors + [rows[k]];
      }
    }
    assert rows[..|rows|] == rows;
    OnlyAskedFor(rows, ids);
  }

  method GroupNodes(nodes: seq<Message>) returns (ids: seq<Id>, nodeids: map<Id, seq<Message>>)
    ensures ids == KeysOf(nodes) && Grouped(nodes, nodeids)
  {
    ids, nodeids := [], map[];
    for i := 0 to |nodes|
      invariant ids == KeysOf(nodes[..i])
      invariant Grouped(nodes[..i], nodeids)
    {
      GroupSnoc(nodes, i, nodeids);
      var fk := nodes[i].chatId;
      if fk !in nodeids {
        ids := ids + [fk];
      }
      nodeids := nodeids[fk := (if fk in nodeids then nodeids[fk] else []) + [nodes[i]]];
    }
    assert nodes[..|nodes|] == nodes;
  }

  method AssignChats(nodes: seq<Message>, nodeids: map<Id, seq<Message>>, neighbors: seq<Chat>) returns (ok: bool)
    requires Grouped(nodes, nodeids)
    modifies nodes
    ensures ok <==> forall k | 0 <= k < |neighbors| :: neighbors[k].id in nodeids
    ensures ok ==> forall i | 0 <= i < |nodes| :: nodes[i].chat == Edge(neighbors, nodes[i].chatId, old(nodes[i].chat))
  {
    for k := 0 to |neighbors|
      invariant forall j | 0 <= j < k :: neighbors[j].id in nodeids
      invariant forall i | 0 <= i < |nodes| ::
          nodes[i].chat == Edge(neighbors[..k], nodes[i].chatId, old(nodes[i].chat))
    {
      var n := neighbors[k];
      if n.id !in nodeids {
        return false;
      }
      assert neighbors[..k + 1][..k] == neighbors[..k];
      AssignGroup(nodes, nodeids[n.id], n);
    }
    assert neighbors[..|neighbors|] == neighbors;
    ok := true;
  }

  method AssignGroup(ghost nodes: seq<Message>, group: seq<Message>, n: Chat)
    requires forall g | 0 <= g < |group| :: group[g] in nodes && group[g].chatId == n.id
    requires forall i | 0 <= i < |nodes| && nodes[i].chatId == n.id :: nodes[i] in group
    modifies nodes
    ensures forall i | 0 <= i < |nodes| :: nodes[i].chat == if nodes[i].chatId == n.id then n else old(nodes[i].chat)
  {
    for g := 0 to |group|
      invariant forall h | 0 <= h < g :: group[h].chat == n
      invariant forall i | 0 <= i < |nodes| :: nodes[i].chat == n || nodes[i].chat == old(nodes[i].chat)
      invariant forall i | 0 <= i < |nodes| && nodes[i].chatId != n.id :: nodes[i].chat == old(nodes[i].chat)
    {
      group[g].chat := n;
    }
  }
}
