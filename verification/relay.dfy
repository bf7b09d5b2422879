/** The WebSocket server of server.js: the module-level maps and counter,
    the per-socket fields, one method per branch of the `message` handler,
    the `close` handler and `broadcastUserListUpdate`. Frames the server
    sends are appended to `outbox` as (connection, frame) deliveries. */
module Relay {
  import opened Wrappers
  import opened Text
  import opened OrderedKeys
  import opened Directory
  import opened Sessions
  import opened Routing

  datatype PayloadKind = Message | KyberCt | EncryptedMessage

  /** An inbound frame as the `type` dispatch sees it. `OtherType` is any
      other (or missing) `type`; `Malformed` is text that does not parse, or
      whose parse result cannot be read. */
  datatype Body =
    | Pubkey(key: Option<string>, username: Option<string>, savedUserId: Option<string>)
    | RequestChat(targetUserId: Option<UserId>)
    | AcceptChat(fromUserId: Option<UserId>, requestId: Option<string>)
    | RejectChat(fromUserId: Option<UserId>)
    | EndChat
    | Payload(kind: PayloadKind, targetUserId: Option<UserId>)
    | OtherType
    | Malformed

  /** The frame's text exactly as received, and what it parses to. */
  datatype Inbound = Inbound(text: string, body: Body)

  /** The informational `requestId` of a `chat_request`. */
  function RequestIdOf(from: UserId, target: UserId, millis: nat): (id: string)
    ensures var t := |from| + 1 + |target|;
      && |id| > t + 1
      && id[..|from|] == from && id[|from|] == '_' && id[|from| + 1..t] == target && id[t] == '_'
      && id[t + 1..] == Decimal(millis)
  {
    from + "_" + target + "_" + Decimal(millis)
  }

  /** The catch path: text shorter than two UTF-16 code units is dropped,
      anything else goes verbatim to every other open connection. */
  function FallbackRelay(conns: seq<Conn>, sender: ConnId, text: string): (ds: seq<Delivery>)
    ensures Utf16Length(text) < 2 ==> ds == []
    ensures forall i :: 0 <= i < |ds| ==> ds[i].to != sender && ds[i].frame == Verbatim(text)
    ensures Utf16Length(text) >= 2 ==> forall k: ConnId ::
      (exists i :: 0 <= i < |ds| && ds[i].to == k) <==> k < |conns| && k != sender && conns[k].open
  {
    if Utf16Length(text) < 2 then []
    else
      var ds := Fanout(Recipients(conns, AllBut(sender)), Verbatim(text));
      assert forall k: ConnId :: (exists i :: 0 <= i < |ds| && ds[i].to == k) <==> k < |conns| && k != sender && conns[k].open by {
        forall k: ConnId
          ensures (exists i :: 0 <= i < |ds| && ds[i].to == k) <==> k < |conns| && k != sender && conns[k].open
        {
          RecipientsExactly(conns, AllBut(sender), k);
        }
      }
      ds
  }

  /** One character outside the Basic Multilingual Plane is two code units
      long, so the catch path relays it rather than dropping it. */
  lemma AstralCharacterIsRelayed(conns: seq<Conn>, sender: ConnId, k: ConnId)
    requires k < |conns| && k != sender && conns[k].open
    ensures var ds := FallbackRelay(conns, sender, "\U{1F600}");
      exists i :: 0 <= i < |ds| && ds[i] == Delivery(k, Verbatim("\U{1F600}"))
  {
    var text := "\U{1F600}";
    assert Utf16Length(text) == 2 by {
      assert text[..0] == [];
    }
    var ds := FallbackRelay(conns, sender, text);
    var i :| 0 <= i < |ds| && ds[i].to == k;
  }

  /** `connectedUsers`: its key order lists its keys, and its records are
      well formed. */
  ghost predicate Listed(userOrder: seq<UserId>, users: Users) {
    Tracks(userOrder, users.Keys) && WellFormed(users)
  }

  /** `clientKeys`: its key order lists its keys, each one of the `n`
      connections. */
  ghost predicate KeyStore(keyOrder: seq<ConnId>, keys: map<ConnId, string>, n: nat) {
      && Tracks(keyOrder, keys.Keys)
      && (forall k :: k in keys ==> k < n)
      && (forall i :: 0 <= i < |keyOrder| ==> keyOrder[i] in keys && keyOrder[i] < n)
  }

  class Server {
    /** `wss.clients` in connection order, with `ws.userId` and `ws.username`. */
    var conns: seq<Conn>
    /** `connectedUsers`, and its key order. */
    var users: Users
    var userOrder: seq<UserId>
    /** `activeChats`. */
    var chats: map<ChatId, ChatSession>
    /** `clientKeys`: the last `pubkey` frame text of each connection, and its key order. */
    var keys: map<ConnId, string>
    var keyOrder: seq<ConnId>
    /** `nextUserId`. */
    var nextUserId: nat
    /** Every frame sent so far. */
    var outbox: seq<Delivery>

    ghost predicate Valid()
      reads this`nextUserId, this`users, this`userOrder, this`keys, this`keyOrder, this`conns
    {
      && nextUserId >= 1
      && Listed(userOrder, users)
      && KeyStore(keyOrder, keys, |conns|)
    }

    /** The broadcast `broadcastUserListUpdate` sends with the current state. */
    ghost function UserListBroadcast(): seq<Delivery>
      reads this`nextUserId, this`users, this`userOrder, this`keys, this`keyOrder, this`conns
      requires Valid()
    {
      Fanout(Recipients(conns, Everyone), UserListUpdate(Snapshot(userOrder, users)))
    }

    constructor ()
      ensures Valid()
      ensures conns == [] && users == map[] && userOrder == [] && chats == map[]
      ensures keys == map[] && keyOrder == [] && nextUserId == 1 && outbox == []
    {
      conns, users, userOrder, chats := [], map[], [], map[];
      keys, keyOrder, nextUserId, outbox := map[], [], 1, [];
    }

    /** A new socket joins `wss.clients`, open and not yet identified. */
    method Connect() returns (c: ConnId)
      requires Valid()
      modifies this`conns
      ensures Valid()
      ensures c == |old(conns)| && conns == old(conns) + [Conn(None, "", true)]
    {
      c := |conns|;
      conns := conns + [Conn(None, "", true)];
    }

    /** `wss.clients.forEach(client => if (<filter> && open) client.send(frame))`. */
    method Deliver(to: Audience, frame: Out)
      modifies this`outbox
      ensures outbox == old(outbox) + Fanout(Recipients(conns, to), frame)
    {
      var i := 0;
      while i < |conns|
        invariant 0 <= i <= |conns|
        invariant outbox == old(outbox) + Fanout(Recipients(conns[..i], to), frame)
      {
        FanoutStep(conns, to, frame, i);
        if Admits(to, i, conns[i]) {
          outbox := outbox + [Delivery(i, frame)];
        }
        i := i + 1;
      }
      assert conns[..|conns|] == conns;
    }

    /** `broadcastUserListUpdate`: the directory snapshot to every open connection. */
    method BroadcastUserList()
      requires Valid()
      modifies this`outbox
      ensures outbox == old(outbox) + UserListBroadcast()
    {
      Deliver(Everyone, UserListUpdate(Snapshot(userOrder, users)));
    }

    /** `clientKeys.forEach`: every other open connection's stored frame, to `c`. */
    method ReplayKeys(c: ConnId)
      requires Valid()
      modifies this`outbox
      ensures outbox == old(outbox) + KeyReplay(keyOrder, keys, conns, c)
    {
      var i := 0;
      while i < |keyOrder|
        invariant 0 <= i <= |keyOrder|
        invariant outbox == old(outbox) + KeyReplay(keyOrder[..i], keys, conns, c)
      {
        assert keyOrder[..i + 1][..i] == keyOrder[..i];
        var k := keyOrder[i];
        if k != c && conns[k].open {
          outbox := outbox + [Delivery(c, StoredKey(keys[k]))];
        }
        i := i + 1;
      }
      assert keyOrder[..|keyOrder|] == keyOrder;
    }

    /** The identity part of `pubkey`: a connection that has an id keeps
        it; one without gets `ChooseId`'s id and its display name. */
    method Identify(c: ConnId, username: Option<string>, savedUserId: Option<string>)
      requires Valid() && c < |conns|
      modifies this`conns, this`nextUserId
      ensures |conns| == |old(conns)|
      ensures forall k :: 0 <= k < |conns| && k != c ==> conns[k] == old(conns[k])
      ensures Valid() && conns[c].userId.Some? && conns[c].open == old(conns[c].open)
      ensures nextUserId >= old(nextUserId)
      ensures old(conns[c].userId).Some? ==> conns == old(conns) && nextUserId == old(nextUserId)
      ensures old(conns[c].userId).None? ==>
        var a := ChooseId(savedUserId, users, old(nextUserId));
        && nextUserId == a.next
        && conns[c].userId == Some(a.id)
        && conns[c].username == DisplayName(username, a.next - 1)
    {
      if conns[c].userId.None? {
        var a := ChooseId(savedUserId, users, nextUserId);
        var name := DisplayName(username, a.next - 1);
        var updated := conns[c := Conn(Some(a.id), name, conns[c].open)];
        assert |updated| == |conns|;
        conns, nextUserId := updated, a.next;
      }
    }

    /** `clientKeys.set(ws, data)`. */
    method StoreKey(c: ConnId, text: string)
      requires Valid() && c < |conns|
      modifies this`keys, this`keyOrder
      ensures Valid()
      ensures keys == old(keys)[c := text] && keyOrder == Insert(old(keyOrder), c)
    {
      InsertTracks(keyOrder, keys.Keys, c);
      keys, keyOrder := keys[c := text], Insert(keyOrder, c);
    }

    /** `connectedUsers.set(id, {…, inChat: false, chatWith: null})`. */
    method PutUser(id: UserId, name: string, key: Option<string>)
      requires Valid()
      modifies this`users, this`userOrder
      ensures Valid()
      ensures users == Upsert(old(users), id, name, key) && userOrder == Insert(old(userOrder), id)
    {
      InsertTracks(userOrder, users.Keys, id);
      users, userOrder := Upsert(users, id, name, key), Insert(userOrder, id);
    }

    /** `pubkey`: identify the connection (once), store its frame, write a
        fresh unpaired record, answer with `user_id`, broadcast, replay the
        other stored frames to it and relay its frame to the others. */
    method HandlePubkey(c: ConnId, text: string, key: Option<string>, username: Option<string>, savedUserId: Option<string>)
      requires Valid() && c < |conns| && conns[c].open
      modifies this`conns, this`nextUserId, this`keys, this`keyOrder, this`users, this`userOrder, this`outbox
      ensures Valid()
      ensures |conns| == |old(conns)|
      ensures forall k :: 0 <= k < |conns| && k != c ==> conns[k] == old(conns[k])
      ensures conns[c].open && conns[c].userId.Some? && nextUserId >= old(nextUserId)
      ensures old(conns[c].userId).Some? ==> conns == old(conns) && nextUserId == old(nextUserId)
      ensures old(conns[c].userId).None? ==>
        var a := ChooseId(savedUserId, old(users), old(nextUserId));
        && nextUserId == a.next
        && conns[c].userId == Some(a.id)
        && conns[c].username == DisplayName(username, a.next - 1)
      ensures var id := conns[c].userId.value;
        && users == Upsert(old(users), id, conns[c].username, key)
        && userOrder == Insert(old(userOrder), id)
      ensures keys == old(keys)[c := text] && keyOrder == Insert(old(keyOrder), c)
      ensures outbox == old(outbox)
        + [Delivery(c, UserIdAssigned(conns[c].userId.value, conns[c].username))]
        + UserListBroadcast()
        + KeyReplay(keyOrder, keys, conns, c)
        + Fanout(Recipients(conns, AllBut(c)), Verbatim(text))
    {
      Identify(c, username, savedUserId);
      Register(c, conns[c].userId.value, conns[c].username, text, key);
    }

    /** What `pubkey` does once the connection holds `id`: store the frame,
        write the record, and send the frames that follow. */
    method Register(c: ConnId, id: UserId, name: string, text: string, key: Option<string>)
      requires Valid() && c < |conns|
      modifies this`keys, this`keyOrder, this`users, this`userOrder, this`outbox
      ensures Valid()
      ensures users == Upsert(old(users), id, name, key) && userOrder == Insert(old(userOrder), id)
      ensures keys == old(keys)[c := text] && keyOrder == Insert(old(keyOrder), c)
      ensures outbox == old(outbox)
        + [Delivery(c, UserIdAssigned(id, name))]
        + UserListBroadcast()
        + KeyReplay(keyOrder, keys, conns, c)
        + Fanout(Recipients(conns, AllBut(c)), Verbatim(text))
    {
      StoreKey(c, text);
      PutUser(id, name, key);
      Announce(c, id, name, text);
    }

    /** The frames `pubkey` sends once the state is updated: `user_id` to
        the sender, the broadcast, the replay of the other stored frames to
        the sender, and the sender's own frame to everybody else. */
    method Announce(c: ConnId, id: UserId, name: string, text: string)
      requires Valid()
      modifies this`outbox
      ensures outbox == old(outbox)
        + [Delivery(c, UserIdAssigned(id, name))]
        + UserListBroadcast()
        + KeyReplay(keyOrder, keys, conns, c)
        + Fanout(Recipients(conns, AllBut(c)), Verbatim(text))
    {
      outbox := outbox + [Delivery(c, UserIdAssigned(id, name))];
      BroadcastUserList();
      ReplayKeys(c);
      Deliver(AllBut(c), Verbatim(text));
    }

    /** `request_chat`: one `chat_error` to the sender on failure; otherwise
        `chat_request` to the target's connections and `chat_request_sent`
        to the sender. Only the outbox changes. */
    method HandleRequestChat(c: ConnId, target: Option<UserId>, millis: nat)
      requires Valid() && c < |conns| && conns[c].open
      modifies this`outbox
      ensures var e := RequestError(users, conns[c].userId, target);
        e.Some? ==> outbox == old(outbox) + [Delivery(c, ChatRefused(e.value))]
      ensures var me := conns[c].userId;
        RequestError(users, me, target).None? ==>
        outbox == old(outbox)
          + Fanout(Recipients(conns, Holders(target.value)),
                   ChatRequest(me.value, users[me.value].username, RequestIdOf(me.value, target.value, millis)))
          + [Delivery(c, ChatRequestSent(users[target.value].username))]
    {
      var me := conns[c].userId;
      var e := RequestError(users, me, target);
      if e.Some? {
        outbox := outbox + [Delivery(c, ChatRefused(e.value))];
        return;
      }
      Deliver(Holders(target.value),
              ChatRequest(me.value, users[me.value].username, RequestIdOf(me.value, target.value, millis)));
      outbox := outbox + [Delivery(c, ChatRequestSent(users[target.value].username))];
    }

    /** `accept_chat`: unless either id is unknown, pair both records
        (without re-checking that they are idle), store the session under
        the sorted id, send `chat_started` to both sides and broadcast. */
    method HandleAcceptChat(c: ConnId, from: Option<UserId>, startTime: int)
      requires Valid() && c < |conns| && conns[c].open
      modifies this`users, this`chats, this`outbox
      ensures Valid()
      ensures var me := conns[c].userId;
        !(me.Some? && from.Some? && me.value in old(users) && from.value in old(users)) ==>
        && users == old(users) && chats == old(chats)
        && outbox == old(outbox) + [Delivery(c, ChatRefused(UserNotFound))]
      ensures var me := conns[c].userId;
        me.Some? && from.Some? && me.value in old(users) && from.value in old(users) ==>
        var id := ChatIdOf(from.value, me.value);
        && users == Paired(old(users), me.value, from.value)
        && chats == old(chats)[id := ChatSession(id, [from.value, me.value], startTime)]
        && outbox == old(outbox)
          + [Delivery(c, ChatStarted(id, from.value, users[from.value].username))]
          + Fanout(Recipients(conns, Holders(from.value)), ChatStarted(id, me.value, users[me.value].username))
          + UserListBroadcast()
      ensures var me := conns[c].userId;
        (&& old(Symmetric(users)) && me.Some? && from.Some? && me.value in old(users) && from.value in old(users)
         && Idle(old(users), me.value) && Idle(old(users), from.value)) ==> Symmetric(users)
    {
      var me := conns[c].userId;
      if me.None? || from.None? || from.value !in users || me.value !in users {
        outbox := outbox + [Delivery(c, ChatRefused(UserNotFound))];
        return;
      }
      var id := ChatIdOf(from.value, me.value);
      StartPair(me.value, from.value, startTime);
      outbox := outbox + [Delivery(c, ChatStarted(id, from.value, users[from.value].username))];
      Deliver(Holders(from.value), ChatStarted(id, me.value, users[me.value].username));
      BroadcastUserList();
    }

    /** The state part of `accept_chat`: both records paired, the session
        stored under the sorted id. */
    method StartPair(me: UserId, from: UserId, startTime: int)
      requires Valid() && me in users && from in users
      modifies this`users, this`chats
      ensures Valid()
      ensures users == Paired(old(users), me, from)
      ensures var id := ChatIdOf(from, me);
        chats == old(chats)[id := ChatSession(id, [from, me], startTime)]
      ensures old(Symmetric(users)) && Idle(old(users), me) && Idle(old(users), from) ==> Symmetric(users)
    {
      if Symmetric(users) && Idle(users, me) && Idle(users, from) {
        PairingIdleUsersKeepsSymmetry(users, me, from);
      }
      users := Paired(users, me, from);
      var id := ChatIdOf(from, me);
      chats := chats[id := ChatSession(id, [from, me], startTime)];
    }

    /** `reject_chat`: `chat_rejected` to the requester's connections. When
        the rejecter has no record, reading its name throws at the first
        such connection and the catch path relays the text instead. */
    method HandleRejectChat(c: ConnId, text: string, from: Option<UserId>)
      requires Valid() && c < |conns| && conns[c].open
      modifies this`outbox
      ensures var me := conns[c].userId;
        outbox == old(outbox) +
          if from.None? || from.value !in users then []
          else if me.Some? && me.value in users then
            Fanout(Recipients(conns, Holders(from.value)), ChatRejected(users[me.value].username))
          else if Recipients(conns, Holders(from.value)) == [] then []
          else FallbackRelay(conns, c, text)
    {
      if from.Some? && from.value in users {
        var me := conns[c].userId;
        if me.Some? && me.value in users {
          Deliver(Holders(from.value), ChatRejected(users[me.value].username));
        } else if Recipients(conns, Holders(from.value)) != [] {
          HandleMalformed(c, text);
        }
      }
    }

    /** `end_chat`: nothing unless the sender's record is in a chat;
        otherwise both records become idle, the session is deleted under the
        unsorted key, both sides get `chat_ended` and a broadcast follows. */
    method HandleEndChat(c: ConnId)
      requires Valid() && c < |conns| && conns[c].open
      modifies this`users, this`chats, this`outbox
      ensures Valid()
      ensures var me := conns[c].userId;
        !(me.Some? && me.value in old(users) && old(users)[me.value].inChat) ==>
        users == old(users) && chats == old(chats) && outbox == old(outbox)
      ensures var me := conns[c].userId;
        me.Some? && me.value in old(users) && old(users)[me.value].inChat ==>
        var peer := old(users)[me.value].chatWith.value;
        && users == Unpaired(old(users), me.value, peer)
        && chats == old(chats) - {EndKey(me.value, peer)}
        && outbox == old(outbox) + [Delivery(c, ChatEnded)]
          + Fanout(Recipients(conns, Holders(peer)), ChatEnded)
          + UserListBroadcast()
      ensures old(Symmetric(users)) ==> Symmetric(users)
    {
      var me := conns[c].userId;
      if me.Some? && me.value in users && users[me.value].inChat {
        var peer := users[me.value].chatWith.value;
        EndPair(me.value, peer);
        outbox := outbox + [Delivery(c, ChatEnded)];
        Deliver(Holders(peer), ChatEnded);
        BroadcastUserList();
      }
    }

    /** The state part of `end_chat`: both records idle, one key deleted. */
    method EndPair(me: UserId, peer: UserId)
      requires Valid() && me in users && users[me].chatWith == Some(peer)
      modifies this`users, this`chats
      ensures Valid()
      ensures users == Unpaired(old(users), me, peer)
      ensures chats == old(chats) - {EndKey(me, peer)}
      ensures old(Symmetric(users)) ==> Symmetric(users)
    {
      if Symmetric(users) {
        UnpairingKeepsSymmetry(users, me);
      }
      users := Unpaired(users, me, peer);
      chats := chats - {EndKey(me, peer)};
    }

    /** `message`, `kyber_ct`, `encrypted_message`: verbatim to the holders
        of a truthy `targetUserId`, otherwise to every other connection. */
    method HandlePayload(c: ConnId, text: string, target: Option<UserId>)
      requires c < |conns|
      modifies this`outbox
      ensures Truthy(target) ==>
        outbox == old(outbox) + Fanout(Recipients(conns, Holders(target.value)), Verbatim(text))
      ensures !Truthy(target) ==>
        outbox == old(outbox) + Fanout(Recipients(conns, AllBut(c)), Verbatim(text))
    {
      if Truthy(target) {
        Deliver(Holders(target.value), Verbatim(text));
      } else {
        Deliver(AllBut(c), Verbatim(text));
      }
    }

    /** The catch path, for text that does not parse or whose handling throws. */
    method HandleMalformed(c: ConnId, text: string)
      modifies this`outbox
      ensures outbox == old(outbox) + FallbackRelay(conns, c, text)
    {
      if Utf16Length(text) < 2 {
        return;
      }
      Deliver(AllBut(c), Verbatim(text));
    }

    /** The `message` handler: dispatch on the frame's type. Only `pubkey`
        touches the connection, its stored frame and the key orders; only
        `accept_chat` and `end_chat` touch the sessions. */
    method HandleMessage(c: ConnId, m: Inbound, millis: nat, startTime: int)
      requires Valid() && c < |conns| && conns[c].open
      modifies this`conns, this`nextUserId, this`keys, this`keyOrder, this`users, this`userOrder, this`chats, this`outbox
      ensures Valid()
      ensures nextUserId >= old(nextUserId)
      ensures !m.body.Pubkey? ==>
        conns == old(conns) && keys == old(keys) && keyOrder == old(keyOrder) && userOrder == old(userOrder)
      ensures !(m.body.AcceptChat? || m.body.EndChat?) ==> chats == old(chats)
      ensures old(Symmetric(users)) && !m.body.Pubkey? && !m.body.AcceptChat? ==> Symmetric(users)
    {
      if m.body.Pubkey? {
        HandlePubkey(c, m.text, m.body.key, m.body.username, m.body.savedUserId);
      } else {
        HandleChatFrame(c, m, millis, startTime);
      }
    }

    /** Every frame but `pubkey`: only the directory, the sessions and the
        outbox can change. */
    method HandleChatFrame(c: ConnId, m: Inbound, millis: nat, startTime: int)
      requires Valid() && c < |conns| && conns[c].open && !m.body.Pubkey?
      modifies this`users, this`chats, this`outbox
      ensures Valid()
      ensures !(m.body.AcceptChat? || m.body.EndChat?) ==> users == old(users) && chats == old(chats)
      ensures old(Symmetric(users)) && !m.body.AcceptChat? ==> Symmetric(users)
      ensures m.body.AcceptChat? ==>
        var me, from := conns[c].userId, m.body.fromUserId;
        if me.Some? && from.Some? && me.value in old(users) && from.value in old(users) then
          var id := ChatIdOf(from.value, me.value);
          users == Paired(old(users), me.value, from.value)
          && chats == old(chats)[id := ChatSession(id, [from.value, me.value], startTime)]
        else users == old(users) && chats == old(chats)
      ensures m.body.EndChat? ==>
        var me := conns[c].userId;
        if me.Some? && me.value in old(users) && old(users)[me.value].inChat then
          var peer := old(users)[me.value].chatWith.value;
          users == Unpaired(old(users), me.value, peer) && chats == old(chats) - {EndKey(me.value, peer)}
        else users == old(users) && chats == old(chats)
      ensures m.body.AcceptChat? ==>
        var me, from := conns[c].userId, m.body.fromUserId;
        if me.Some? && from.Some? && me.value in old(users) && from.value in old(users) then
          var id := ChatIdOf(from.value, me.value);
          outbox == old(outbox)
            + [Delivery(c, ChatStarted(id, from.value, users[from.value].username))]
            + Fanout(Recipients(conns, Holders(from.value)), ChatStarted(id, me.value, users[me.value].username))
            + UserListBroadcast()
        else outbox == old(outbox) + [Delivery(c, ChatRefused(UserNotFound))]
      ensures m.body.EndChat? ==>
        var me := conns[c].userId;
        if me.Some? && me.value in old(users) && old(users)[me.value].inChat then
          var peer := old(users)[me.value].chatWith.value;
          outbox == old(outbox) + [Delivery(c, ChatEnded)]
            + Fanout(Recipients(conns, Holders(peer)), ChatEnded)
            + UserListBroadcast()
        else outbox == old(outbox)
      ensures !(m.body.AcceptChat? || m.body.EndChat?) ==> outbox == old(outbox) + Routed(c, m, millis)
    {
      if m.body.AcceptChat? {
        HandleAcceptChat(c, m.body.fromUserId, startTime);
      } else if m.body.EndChat? {
        HandleEndChat(c);
      } else {
        Route(c, m, millis);
      }
    }

    /** What a frame that changes nothing but the outbox sends, branch by
        branch: a refused or forwarded chat request, a rejection notice, a
        directed or broadcast payload, any other `type` verbatim to every
        other connection, and unparseable text by the catch path. */
    ghost function Routed(c: ConnId, m: Inbound, millis: nat): seq<Delivery>
      reads this`conns, this`users
      requires c < |conns| && !(m.body.Pubkey? || m.body.AcceptChat? || m.body.EndChat?)
    {
      match m.body
      case RequestChat(target) =>
        var me := conns[c].userId;
        var e := RequestError(users, me, target);
        if e.Some? then [Delivery(c, ChatRefused(e.value))]
        else
          Fanout(Recipients(conns, Holders(target.value)),
                 ChatRequest(me.value, users[me.value].username, RequestIdOf(me.value, target.value, millis)))
          + [Delivery(c, ChatRequestSent(users[target.value].username))]
      case RejectChat(from) =>
        var me := conns[c].userId;
        if from.None? || from.value !in users then []
        else if me.Some? && me.value in users then
          Fanout(Recipients(conns, Holders(from.value)), ChatRejected(users[me.value].username))
        else if Recipients(conns, Holders(from.value)) == [] then []
        else FallbackRelay(conns, c, m.text)
      case Payload(_, target) =>
        if Truthy(target) then Fanout(Recipients(conns, Holders(target.value)), Verbatim(m.text))
        else Fanout(Recipients(conns, AllBut(c)), Verbatim(m.text))
      case OtherType => Fanout(Recipients(conns, AllBut(c)), Verbatim(m.text))
      case Malformed => FallbackRelay(conns, c, m.text)
    }

    /** The frames that change nothing but the outbox. A frame of any other
        `type` goes verbatim to every other connection. */
    method Route(c: ConnId, m: Inbound, millis: nat)
      requires Valid() && c < |conns| && conns[c].open
      requires !(m.body.Pubkey? || m.body.AcceptChat? || m.body.EndChat?)
      modifies this`outbox
      ensures outbox == old(outbox) + Routed(c, m, millis)
    {
      match m.body
      case RequestChat(target) => HandleRequestChat(c, target, millis);
      case RejectChat(from) => HandleRejectChat(c, m.text, from);
      case Payload(_, target) => HandlePayload(c, m.text, target);
      case OtherType => Deliver(AllBut(c), Verbatim(m.text));
      case Malformed => HandleMalformed(c, m.text);
    }

    /** The directory part of `close` for a connection holding `me`. */
    method DropUser(me: UserId)
      requires Valid()
      modifies this`users, this`userOrder, this`outbox
      ensures Valid()
      ensures users == Disconnected(old(users), me) && userOrder == Remove(old(userOrder), me)
      ensures var peer := PeerOf(old(users), me);
        outbox == old(outbox) + (if peer.Some? then Fanout(Recipients(conns, Holders(peer.value)), ChatEnded) else [])
      ensures old(Symmetric(users)) ==> Symmetric(users)
    {
      ghost var after := Disconnected(users, me);
      if Symmetric(users) {
        DisconnectKeepsSymmetry(users, me);
      }
      var order := Remove(userOrder, me);
      RemoveTracks(userOrder, users.Keys, me);
      var peer := PeerOf(users, me);
      if peer.Some? {
        users := Unpair(users, peer.value);
        Deliver(Holders(peer.value), ChatEnded);
      }
      users := users - {me};
      userOrder := order;
      assert users == after;
    }

    /** The socket leaves `wss.clients`: no later delivery reaches it. */
    method Detach(c: ConnId)
      requires Valid() && c < |conns|
      modifies this`conns
      ensures Valid()
      ensures conns == old(conns)[c := old(conns[c]).(open := false)]
    {
      conns := conns[c := conns[c].(open := false)];
    }

    /** `clientKeys.delete(ws)`. */
    method DropKey(c: ConnId)
      requires Valid()
      modifies this`keys, this`keyOrder
      ensures Valid()
      ensures keys == old(keys) - {c} && keyOrder == Remove(old(keyOrder), c)
    {
      RemoveTracks(keyOrder, keys.Keys, c);
      keys := keys - {c};
      keyOrder := Remove(keyOrder, c);
    }

    /** `close`: the socket has left `wss.clients`; a partner whose record
        exists becomes idle and gets `chat_ended`; the closer's record and
        stored frame are removed; `activeChats` is left as it is; a
        broadcast always follows. */
    method HandleClose(c: ConnId)
      requires Valid() && c < |conns| && conns[c].open
      modifies this`conns, this`users, this`userOrder, this`keys, this`keyOrder, this`outbox
      ensures Valid()
      ensures conns == old(conns)[c := old(conns[c]).(open := false)]
      ensures keys == old(keys) - {c} && keyOrder == Remove(old(keyOrder), c)
      ensures conns[c].userId.None? ==>
        users == old(users) && userOrder == old(userOrder) && outbox == old(outbox) + UserListBroadcast()
      ensures conns[c].userId.Some? ==>
        var me := conns[c].userId.value;
        var peer := PeerOf(old(users), me);
        && users == Disconnected(old(users), me)
        && userOrder == Remove(old(userOrder), me)
        && outbox == old(outbox)
          + (if peer.Some? then Fanout(Recipients(conns, Holders(peer.value)), ChatEnded) else [])
          + UserListBroadcast()
      ensures old(Symmetric(users)) ==> Symmetric(users)
    {
      Detach(c);
      var me := conns[c].userId;
      if me.Some? {
        DropUser(me.value);
      }
      DropKey(c);
      BroadcastUserList();
    }
  }
}
