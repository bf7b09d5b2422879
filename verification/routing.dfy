/** The connections the server knows (`wss.clients` with the fields the
    server puts on each socket), the frames it sends, and which open
    connections a `wss.clients.forEach` loop delivers to. */
module Routing {
  import opened Wrappers
  import opened Directory
  import opened OrderedKeys

  /** A connection's handle: its position in connection order. */
  type ConnId = nat

  /** `ws.userId` (absent until the first `pubkey`), `ws.username`, and
      whether `readyState` is OPEN. */
  datatype Conn = Conn(userId: Option<UserId>, username: string, open: bool)

  /** Outbound frames. `Verbatim` re-sends the inbound text unchanged;
      `StoredKey` re-serialises a stored `pubkey` frame. */
  datatype Out =
    | UserIdAssigned(userId: UserId, username: string)
    | UserListUpdate(users: seq<UserRecord>)
    | StoredKey(frame: string)
    | Verbatim(text: string)
    | ChatRequest(fromUserId: UserId, fromUsername: string, requestId: string)
    | ChatRequestSent(targetName: string)
    | ChatStarted(chatId: string, peerId: UserId, peerName: string)
    | ChatRejected(rejecterName: string)
    | ChatEnded
    | ChatRefused(reason: ChatError)

  datatype Delivery = Delivery(to: ConnId, frame: Out)

  /** The filter of a `forEach` over the clients: all of them, all but the
      sender (`client !== ws`), or those holding a user id
      (`client.userId === id`). Every filter also demands an open socket. */
  datatype Audience = Everyone | AllBut(sender: ConnId) | Holders(id: UserId)

  predicate Admits(to: Audience, k: ConnId, c: Conn)
    ensures Admits(to, k, c) ==> c.open
    ensures to.AllBut? && Admits(to, k, c) ==> k != to.sender
    ensures to.Holders? && Admits(to, k, c) ==> c.userId == Some(to.id)
  {
    c.open &&
    match to
    case Everyone => true
    case AllBut(sender) => k != sender
    case Holders(id) => c.userId == Some(id)
  }

  /** The connections a `forEach` over `conns` delivers to, in order. */
  function Recipients(conns: seq<Conn>, to: Audience): (r: seq<ConnId>)
    ensures forall i :: 0 <= i < |r| ==> r[i] < |conns| && Admits(to, r[i], conns[r[i]])
    decreases |conns|
  {
    if |conns| == 0 then []
    else
      var last := |conns| - 1;
      Recipients(conns[..last], to) + (if Admits(to, last, conns[last]) then [last] else [])
  }

  /** One more connection adds at most its own delivery to the fanout. */
  lemma FanoutStep(conns: seq<Conn>, to: Audience, frame: Out, i: nat)
    requires i < |conns|
    ensures Fanout(Recipients(conns[..i + 1], to), frame) ==
      Fanout(Recipients(conns[..i], to), frame) + (if Admits(to, i, conns[i]) then [Delivery(i, frame)] else [])
  {
    assert conns[..i + 1][..i] == conns[..i];
    var before := Recipients(conns[..i], to);
    if Admits(to, i, conns[i]) {
      assert Recipients(conns[..i + 1], to) == before + [i];
    } else {
      assert Recipients(conns[..i + 1], to) == before;
    }
  }

  /** A connection receives exactly when it is open and the filter admits it. */
  lemma {:induction false} RecipientsExactly(conns: seq<Conn>, to: Audience, k: ConnId)
    ensures k in Recipients(conns, to) <==> k < |conns| && Admits(to, k, conns[k])
    decreases |conns|
  {
    if |conns| > 0 {
      var last := |conns| - 1;
      RecipientsExactly(conns[..last], to, k);
    }
  }

  /** Each connection receives at most once, in connection order. */
  lemma {:induction false} RecipientsIncreasing(conns: seq<Conn>, to: Audience)
    ensures Increasing(Recipients(conns, to))
    decreases |conns|
  {
    if |conns| > 0 {
      var last := |conns| - 1;
      var before := Recipients(conns[..last], to);
      RecipientsIncreasing(conns[..last], to);
      assert Increasing(before);
      if Admits(to, last, conns[last]) {
        var r := before + [last];
        assert Recipients(conns, to) == r;
        forall i, j | 0 <= i < j < |r|
          ensures r[i] < r[j]
        {
          assert r[i] == before[i];
          if j < |before| {
            assert r[j] == before[j];
          }
        }
      } else {
        assert Recipients(conns, to) == before;
      }
    }
  }

  predicate Increasing(r: seq<ConnId>) {
    forall i, j :: 0 <= i < j < |r| ==> r[i] < r[j]
  }

  /** One delivery of `frame` per recipient. */
  function Fanout(ids: seq<ConnId>, frame: Out): (ds: seq<Delivery>)
    ensures |ds| == |ids|
    ensures forall i :: 0 <= i < |ds| ==> ds[i].to == ids[i] && ds[i].frame == frame
  {
    seq(|ids|, i requires 0 <= i < |ids| => Delivery(ids[i], frame))
  }

  /** What the `pubkey` handler sends back to connection `c` from
      `clientKeys`: each stored frame, in key order, of every other open
      connection. */
  function KeyReplay(order: seq<ConnId>, keys: map<ConnId, string>, conns: seq<Conn>, c: ConnId): (ds: seq<Delivery>)
    requires forall i :: 0 <= i < |order| ==> order[i] in keys && order[i] < |conns|
    ensures |ds| <= |order|
    ensures forall i :: 0 <= i < |ds| ==>
      ds[i].to == c && exists k :: k in order && k != c && conns[k].open && ds[i].frame == StoredKey(keys[k])
    decreases |order|
  {
    if |order| == 0 then []
    else
      var k := order[|order| - 1];
      KeyReplay(order[..|order| - 1], keys, conns, c)
        + (if k != c && conns[k].open then [Delivery(c, StoredKey(keys[k]))] else [])
  }

  /** The positions in `order` whose stored frame the replay sends: those
      of the other open connections, in key order. */
  function ReplayPositions(order: seq<ConnId>, conns: seq<Conn>, c: ConnId): (pos: seq<nat>)
    requires forall i :: 0 <= i < |order| ==> order[i] < |conns|
    ensures forall i :: 0 <= i < |pos| ==> pos[i] < |order|
    decreases |order|
  {
    if |order| == 0 then []
    else
      var last := |order| - 1;
      ReplayPositions(order[..last], conns, c)
        + (if order[last] != c && conns[order[last]].open then [last] else [])
  }

  /** The replayed positions increase: the replay follows key order. */
  lemma {:induction false} ReplayPositionsIncreasing(order: seq<ConnId>, conns: seq<Conn>, c: ConnId)
    requires forall i :: 0 <= i < |order| ==> order[i] < |conns|
    ensures Increasing(ReplayPositions(order, conns, c))
    decreases |order|
  {
    if |order| > 0 {
      var last := |order| - 1;
      var pos0 := ReplayPositions(order[..last], conns, c);
      var pos := ReplayPositions(order, conns, c);
      ReplayPositionsIncreasing(order[..last], conns, c);
      if order[last] != c && conns[order[last]].open {
        assert pos == pos0 + [last];
        forall i, j | 0 <= i < j < |pos|
          ensures pos[i] < pos[j]
        {
          assert pos[i] == pos0[i];
          if j < |pos0| {
            assert pos[j] == pos0[j];
          }
        }
      } else {
        assert pos == pos0;
      }
    }
  }

  /** A position is replayed iff its connection is another open one. */
  lemma {:induction false} ReplayPositionsExactly(order: seq<ConnId>, conns: seq<Conn>, c: ConnId, j: nat)
    requires forall i :: 0 <= i < |order| ==> order[i] < |conns|
    ensures j in ReplayPositions(order, conns, c) <==> j < |order| && order[j] != c && conns[order[j]].open
    decreases |order|
  {
    if |order| > 0 {
      var last := |order| - 1;
      ReplayPositionsExactly(order[..last], conns, c, j);
    }
  }

  /** Delivery `i` of the replay carries the stored frame of the connection
      at position `pos[i]` of the key order. */
  lemma {:induction false} KeyReplayFollowsPositions(order: seq<ConnId>, keys: map<ConnId, string>, conns: seq<Conn>, c: ConnId)
    requires forall i :: 0 <= i < |order| ==> order[i] in keys && order[i] < |conns|
    ensures var ds := KeyReplay(order, keys, conns, c);
            var pos := ReplayPositions(order, conns, c);
            && |ds| == |pos|
            && forall i :: 0 <= i < |ds| ==> ds[i] == Delivery(c, StoredKey(keys[order[pos[i]]]))
    decreases |order|
  {
    if |order| > 0 {
      var last := |order| - 1;
      var front := order[..last];
      KeyReplayFollowsPositions(front, keys, conns, c);
      var ds0 := KeyReplay(front, keys, conns, c);
      var pos0 := ReplayPositions(front, conns, c);
      var ds := KeyReplay(order, keys, conns, c);
      var pos := ReplayPositions(order, conns, c);
      if order[last] != c && conns[order[last]].open {
        assert pos == pos0 + [last];
        assert ds == ds0 + [Delivery(c, StoredKey(keys[order[last]]))];
        forall i | 0 <= i < |ds|
          ensures ds[i] == Delivery(c, StoredKey(keys[order[pos[i]]]))
        {
          if i < |ds0| {
            assert ds[i] == ds0[i] && pos[i] == pos0[i];
            assert order[pos0[i]] == front[pos0[i]];
          }
        }
      } else {
        assert pos == pos0 && ds == ds0;
        forall i | 0 <= i < |ds|
          ensures ds[i] == Delivery(c, StoredKey(keys[order[pos[i]]]))
        {
          assert order[pos0[i]] == front[pos0[i]];
        }
      }
    }
  }

  /** With duplicate-free key order, a connection's stored frame is replayed
      iff it is another open connection, and then exactly once. */
  lemma KeyReplayOncePerKey(order: seq<ConnId>, keys: map<ConnId, string>, conns: seq<Conn>, c: ConnId, k: ConnId)
    requires forall i :: 0 <= i < |order| ==> order[i] in keys && order[i] < |conns|
    requires NoDup(order) && k in order
    ensures var pos := ReplayPositions(order, conns, c);
            (exists i :: 0 <= i < |pos| && order[pos[i]] == k) <==> k != c && conns[k].open
    ensures var pos := ReplayPositions(order, conns, c);
            forall i, j :: 0 <= i < j < |pos| ==> order[pos[i]] != order[pos[j]]
  {
    var pos := ReplayPositions(order, conns, c);
    ReplayPositionsIncreasing(order, conns, c);
    var j :| 0 <= j < |order| && order[j] == k;
    ReplayPositionsExactly(order, conns, c, j);
    if k != c && conns[k].open {
      var i :| 0 <= i < |pos| && pos[i] == j;
      assert order[pos[i]] == k;
    }
  }

  /** The records of a `user_list_update`, in the directory's key order. */
  function Snapshot(order: seq<UserId>, users: Users): (s: seq<UserRecord>)
    requires forall u :: u in order ==> u in users
    ensures |s| == |order|
    ensures forall i :: 0 <= i < |s| ==> s[i] == users[order[i]]
  {
    seq(|order|, i requires 0 <= i < |order| => users[order[i]])
  }

  /** A snapshot lists every user of the directory exactly once, each with
      its current record. */
  lemma SnapshotListsEachUserOnce(order: seq<UserId>, users: Users)
    requires Tracks(order, users.Keys) && WellFormed(users)
    ensures var s := Snapshot(order, users);
            && (forall i :: 0 <= i < |s| ==> s[i].userId in users && s[i] == users[s[i].userId])
            && (forall i, j :: 0 <= i < j < |s| ==> s[i].userId != s[j].userId)
            && (forall u :: u in users ==> exists i :: 0 <= i < |s| && s[i].userId == u)
  {
    var s := Snapshot(order, users);
    forall u | u in users
      ensures exists i :: 0 <= i < |s| && s[i].userId == u
    {
      var i :| 0 <= i < |order| && order[i] == u;
      assert s[i].userId == u;
    }
  }
}
