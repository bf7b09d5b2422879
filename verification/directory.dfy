/** The user directory (`connectedUsers` in server.js): one record per
    identified user id, the identity rule of the `pubkey` frame, and the
    pairing transitions that `accept_chat`, `end_chat` and `close` apply to
    the records. */
module Directory {
  import opened Text
  import opened Wrappers

  type UserId = string

  /** A field of a parsed frame counts as present when it is truthy: for
      the string fields the server reads, that is "present and non-empty". */
  predicate Truthy(o: Option<string>) {
    o.Some? && o.value != ""
  }

  datatype UserRecord = UserRecord(
    userId: UserId,
    username: string,
    publicKey: Option<string>,
    connected: bool,
    inChat: bool,
    chatWith: Option<UserId>)

  type Users = map<UserId, UserRecord>

  /** Two records agree on everything but their chat state. */
  predicate SameIdentity(a: UserRecord, b: UserRecord) {
    a.userId == b.userId && a.username == b.username && a.publicKey == b.publicKey && a.connected == b.connected
  }

  /** Every record is filed under its own id, is marked connected, and is in
      a chat exactly when it names a partner. */
  ghost predicate WellFormed(users: Users) {
    forall u :: u in users ==>
      && users[u].userId == u
      && users[u].connected
      && (users[u].inChat <==> users[u].chatWith.Some?)
  }

  /** Pairing is mutual: whoever a record names as its partner exists and
      names it back. */
  ghost predicate Symmetric(users: Users) {
    forall u :: u in users && users[u].chatWith.Some? ==>
      && users[u].chatWith.value in users
      && users[users[u].chatWith.value].chatWith == Some(u)
  }

  predicate Idle(users: Users, u: UserId)
    requires u in users
  {
    !users[u].inChat
  }

  /** The id minted from the counter: `user_{n}`. */
  function MintedId(n: nat): (id: UserId)
    ensures |id| > 5 && id[..5] == "user_" && id[5..] == Decimal(n)
  {
    "user_" + Decimal(n)
  }

  /** Distinct counter values give distinct minted ids. */
  lemma MintedIdInjective(n: nat, m: nat)
    requires MintedId(n) == MintedId(m)
    ensures n == m
  {
    DecimalInjective(n, m);
  }

  /** The display name given when the frame has none: the Korean word for
      "user" followed by a number. */
  function DefaultUsername(n: nat): (name: string)
    ensures |name| > 3 && name[..3] == "\U{C0AC}\U{C6A9}\U{C790}" && name[3..] == Decimal(n)
  {
    "\U{C0AC}\U{C6A9}\U{C790}" + Decimal(n)
  }

  /** The display name a connection keeps: the frame's `username` when it
      is truthy, otherwise the default for counter value `n`. */
  function DisplayName(username: Option<string>, n: nat): (name: string)
    ensures |name| > 0
    ensures Truthy(username) ==> name == username.value
    ensures !Truthy(username) ==> name == DefaultUsername(n)
  {
    if Truthy(username) then username.value else DefaultUsername(n)
  }

  datatype Assignment = Assignment(id: UserId, next: nat)

  /** The id a connection without one receives: the `savedUserId` it
      proposes when that is truthy and not a key of the directory, otherwise
      a freshly minted id, which consumes the counter. */
  function ChooseId(saved: Option<string>, users: Users, next: nat): (a: Assignment)
    ensures a.next == next <==> Truthy(saved) && saved.value !in users
    ensures a.next == next ==> a.id == saved.value && a.id !in users && a.id != ""
    ensures a.next != next ==> a.next == next + 1 && a.id == MintedId(next)
  {
    if Truthy(saved) && saved.value !in users then Assignment(saved.value, next)
    else Assignment(MintedId(next), next + 1)
  }

  /** Minted ids are never checked against the directory: once a
      connection has reused the saved id `user_n` while the counter is
      still `n`, the next minted id is that same `user_n`, which is in use. */
  lemma MintedIdMayBeInUse(users: Users, n: nat, r: UserRecord)
    requires MintedId(n) !in users
    ensures var first := ChooseId(Some(MintedId(n)), users, n);
            var second := ChooseId(None, users[first.id := r], first.next);
            first.id == second.id && second.id in users[first.id := r]
  {
  }


  /** What a `pubkey` frame writes: a fresh, unpaired record under `id`,
      whatever was there before. */
  function Upsert(users: Users, id: UserId, name: string, key: Option<string>): (r: Users)
    ensures r.Keys == users.Keys + {id}
    ensures r[id].userId == id && r[id].username == name && r[id].publicKey == key
    ensures r[id].connected && !r[id].inChat && r[id].chatWith == None
    ensures forall u :: u in users && u != id ==> r[u] == users[u]
    ensures WellFormed(users) ==> WellFormed(r)
  {
    users[id := UserRecord(id, name, key, true, false, None)]
  }

  /** Re-sending `pubkey` while paired resets the sender's record only: its
      partner is left naming it, so pairing is no longer mutual. */
  lemma UpsertWhilePairedBreaksSymmetry(users: Users, a: UserId, b: UserId, name: string, key: Option<string>)
    requires a in users && b in users && a != b
    requires users[a].chatWith == Some(b) && users[b].chatWith == Some(a)
    ensures !Symmetric(Upsert(users, a, name, key))
  {
    var r := Upsert(users, a, name, key);
    assert r[b].chatWith == Some(a) && r[a].chatWith != Some(b);
  }

  /** Why `chat_request` fails, in the order server.js checks it. */
  datatype ChatError = UserNotFound | TargetBusy(targetName: string) | AlreadyInChat

  /** The outcome of `request_chat` from `me` to `target`: unknown user,
      then busy target, then busy sender. */
  function RequestError(users: Users, me: Option<UserId>, target: Option<UserId>): (e: Option<ChatError>)
    ensures e == None <==>
      me.Some? && target.Some? && me.value in users && target.value in users
      && Idle(users, me.value) && Idle(users, target.value)
    ensures e == Some(UserNotFound) <==>
      !(me.Some? && target.Some? && me.value in users && target.value in users)
    ensures e.Some? && e.value.TargetBusy? ==>
      && target.Some? && target.value in users && users[target.value].inChat
      && e.value.targetName == users[target.value].username
    ensures e == Some(AlreadyInChat) ==>
      target.Some? && target.value in users && Idle(users, target.value)
  {
    if me.None? || target.None? || target.value !in users || me.value !in users then Some(UserNotFound)
    else if users[target.value].inChat then Some(TargetBusy(users[target.value].username))
    else if users[me.value].inChat then Some(AlreadyInChat)
    else None
  }

  /** `accept_chat` by `me` of a request from `from`: both records are put
      in a chat with each other, with no check of their previous state. */
  function Paired(users: Users, me: UserId, from: UserId): (r: Users)
    requires me in users && from in users
    ensures r.Keys == users.Keys
    ensures r[me].inChat && r[me].chatWith == Some(from)
    ensures r[from].inChat && r[from].chatWith == Some(me)
    ensures forall u :: u in users ==>
      SameIdentity(r[u], users[u])
    ensures forall u :: u in users && u != me && u != from ==> r[u] == users[u]
    ensures WellFormed(users) ==> WellFormed(r)
  {
    var withMe := users[me := users[me].(inChat := true, chatWith := Some(from))];
    withMe[from := withMe[from].(inChat := true, chatWith := Some(me))]
  }

  /** Pairing two idle users keeps pairing mutual. */
  lemma PairingIdleUsersKeepsSymmetry(users: Users, me: UserId, from: UserId)
    requires WellFormed(users) && Symmetric(users)
    requires me in users && from in users && Idle(users, me) && Idle(users, from)
    ensures Symmetric(Paired(users, me, from))
  {
    var r := Paired(users, me, from);
    forall u | u in r && r[u].chatWith.Some?
      ensures r[u].chatWith.value in r && r[r[u].chatWith.value].chatWith == Some(u)
    {
      if u != me && u != from {
        var v := users[u].chatWith.value;
        assert users[v].chatWith == Some(u);
        assert v != me && v != from;
      }
    }
  }

  /** Without the re-check, a second acceptance of a request from a user
      who is already paired steals that user: its old partner still names it,
      so pairing is no longer mutual. */
  lemma AcceptOfPairedRequesterBreaksSymmetry(users: Users, a: UserId, b: UserId, c: UserId)
    requires a in users && b in users && c in users
    requires a != b && b != c && c != a
    requires users[a].chatWith == Some(b)
    ensures !Symmetric(Paired(users, c, b))
  {
    var r := Paired(users, c, b);
    assert r[a].chatWith == Some(b) && r[b].chatWith == Some(c);
  }

  /** Both records leave their chat (when present). */
  function Unpaired(users: Users, me: UserId, peer: UserId): (r: Users)
    ensures r.Keys == users.Keys
    ensures me in r ==> !r[me].inChat && r[me].chatWith == None
    ensures peer in r ==> !r[peer].inChat && r[peer].chatWith == None
    ensures forall u :: u in users ==>
      SameIdentity(r[u], users[u])
    ensures forall u :: u in users && u != me && u != peer ==> r[u] == users[u]
    ensures WellFormed(users) ==> WellFormed(r)
  {
    Unpair(Unpair(users, peer), me)
  }

  function Unpair(users: Users, u: UserId): (r: Users)
    ensures r.Keys == users.Keys
    ensures u in r ==> r[u] == users[u].(inChat := false, chatWith := None)
    ensures forall v :: v in users && v != u ==> r[v] == users[v]
  {
    if u in users then users[u := users[u].(inChat := false, chatWith := None)] else users
  }

  /** Ending a mutual pairing keeps pairing mutual for everybody else. */
  lemma UnpairingKeepsSymmetry(users: Users, me: UserId)
    requires WellFormed(users) && Symmetric(users)
    requires me in users && users[me].chatWith.Some?
    ensures Symmetric(Unpaired(users, me, users[me].chatWith.value))
  {
    var peer := users[me].chatWith.value;
    var r := Unpaired(users, me, peer);
    forall u | u in r && r[u].chatWith.Some?
      ensures r[u].chatWith.value in r && r[r[u].chatWith.value].chatWith == Some(u)
    {
      var v := users[u].chatWith.value;
      assert users[v].chatWith == Some(u);
      assert v != me && v != peer;
    }
  }

  /** After `end_chat`, either side may request a chat with the other again. */
  lemma EndedPairMayRequestAgain(users: Users, me: UserId)
    requires WellFormed(users) && Symmetric(users)
    requires me in users && users[me].chatWith.Some?
    ensures var peer := users[me].chatWith.value;
            var r := Unpaired(users, me, peer);
            RequestError(r, Some(me), Some(peer)) == None && RequestError(r, Some(peer), Some(me)) == None
  {
    assert users[me].chatWith.value in users;
  }

  /** The partner `close` notifies: the closer is in a chat with a user
      whose record still exists. */
  function PeerOf(users: Users, me: UserId): (p: Option<UserId>)
    ensures p.Some? <==>
      me in users && users[me].inChat && users[me].chatWith.Some? && users[me].chatWith.value in users
    ensures p.Some? ==> p == users[me].chatWith
  {
    if me in users && users[me].inChat && users[me].chatWith.Some? && users[me].chatWith.value in users
    then users[me].chatWith
    else None
  }

  /** The directory after `close` of a connection holding `me`: its partner,
      if any, becomes idle and its own record is removed. */
  function Disconnected(users: Users, me: UserId): (r: Users)
    ensures r.Keys == users.Keys - {me}
    ensures PeerOf(users, me).Some? && PeerOf(users, me).value != me ==>
      var p := PeerOf(users, me).value;
      r[p] == users[p].(inChat := false, chatWith := None)
    ensures forall u :: u in r && Some(u) != PeerOf(users, me) ==> r[u] == users[u]
    ensures WellFormed(users) ==> WellFormed(r)
  {
    var unpaired := if PeerOf(users, me).Some? then Unpair(users, PeerOf(users, me).value) else users;
    unpaired - {me}
  }

  /** Disconnecting keeps pairing mutual: only the partner named the closer,
      and the partner is made idle. */
  lemma DisconnectKeepsSymmetry(users: Users, me: UserId)
    requires WellFormed(users) && Symmetric(users)
    ensures Symmetric(Disconnected(users, me))
  {
    var r := Disconnected(users, me);
    forall u | u in r && r[u].chatWith.Some?
      ensures r[u].chatWith.value in r && r[r[u].chatWith.value].chatWith == Some(u)
    {
      assert Some(u) != PeerOf(users, me) && r[u] == users[u];
      var v := users[u].chatWith.value;
      assert users[v].chatWith == Some(u);
      assert v != me;
      assert Some(v) != PeerOf(users, me);
    }
  }
}
