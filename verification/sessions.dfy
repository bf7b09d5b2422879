/** Chat sessions (`activeChats` in server.js): the id a session is stored
    under when `accept_chat` creates it, and the key `end_chat` deletes. */
module Sessions {
  import opened Text
  import opened Directory

  type ChatId = string

  datatype ChatSession = ChatSession(chatId: ChatId, participants: seq<UserId>, startTime: int)

  /** The two ids in the order `[x, y].sort()` leaves them. */
  function SortedPair(x: UserId, y: UserId): (p: (UserId, UserId))
    ensures {p.0, p.1} == {x, y}
    ensures !Before(p.1, p.0)
  {
    BeforeAsymmetric(x, y);
    if Before(y, x) then (y, x) else (x, y)
  }

  /** The session id built at acceptance: the sorted pair joined by `_`. */
  function ChatIdOf(x: UserId, y: UserId): (id: ChatId)
    ensures |id| == |x| + 1 + |y|
    ensures var p := SortedPair(x, y);
      id[..|p.0|] == p.0 && id[|p.0|] == '_' && id[|p.0| + 1..] == p.1
  {
    var p := SortedPair(x, y);
    p.0 + "_" + p.1
  }

  /** The session id does not depend on who accepted. */
  lemma ChatIdSymmetric(x: UserId, y: UserId)
    ensures ChatIdOf(x, y) == ChatIdOf(y, x)
  {
    if x != y {
      BeforeTotal(x, y);
      BeforeAsymmetric(x, y);
    }
  }

  /** The first two minted ids pair up under `user_1_user_2`, whichever of
      them accepts. */
  lemma FirstTwoUsersChatId()
    ensures ChatIdOf(MintedId(1), MintedId(2)) == "user_1_user_2"
    ensures ChatIdOf(MintedId(2), MintedId(1)) == "user_1_user_2"
  {
    var one, two := MintedId(1), MintedId(2);
    FirstTwoMintedIds();
    assert SortedPair(one, two) == (one, two);
    ChatIdSymmetric(one, two);
  }

  lemma FirstTwoMintedIds()
    ensures MintedId(1) == "user_1" && MintedId(2) == "user_2"
    ensures Before(MintedId(1), MintedId(2))
  {
    assert Decimal(1) == "1" && Decimal(2) == "2";
    assert Before("1", "2");
    assert Before("_1", "_2") by { assert "_1"[1..] == "1" && "_2"[1..] == "2"; }
    assert Before("r_1", "r_2") by { assert "r_1"[1..] == "_1" && "r_2"[1..] == "_2"; }
    assert Before("er_1", "er_2") by { assert "er_1"[1..] == "r_1" && "er_2"[1..] == "r_2"; }
    assert Before("ser_1", "ser_2") by { assert "ser_1"[1..] == "er_1" && "ser_2"[1..] == "er_2"; }
    assert Before("user_1", "user_2") by { assert "user_1"[1..] == "ser_1" && "user_2"[1..] == "ser_2"; }
  }

  /** The key `end_chat` deletes: the ender's id first, unsorted. */
  function EndKey(ender: UserId, peer: UserId): (k: ChatId)
    ensures |k| == |ender| + 1 + |peer|
    ensures k[..|ender|] == ender && k[|ender|] == '_' && k[|ender| + 1..] == peer
  {
    ender + "_" + peer
  }

  /** When the ender's id sorts first (or the pair is a single id) the
      deleted key is the session's id. */
  lemma EndKeyHitsWhenEnderSortsFirst(ender: UserId, peer: UserId)
    requires Before(ender, peer) || ender == peer
    ensures EndKey(ender, peer) == ChatIdOf(ender, peer)
    ensures EndKey(ender, peer) == ChatIdOf(peer, ender)
  {
    BeforeAsymmetric(ender, peer);
    ChatIdSymmetric(ender, peer);
  }

  /** When the ender's id sorts second the deleted key is never the
      session's id (for ids of equal length, such as `user_1` and `user_2`),
      so the session stays in `activeChats`. */
  lemma EndKeyMissesWhenEnderSortsSecond(ender: UserId, peer: UserId)
    requires Before(peer, ender) && |ender| == |peer|
    ensures EndKey(ender, peer) != ChatIdOf(ender, peer)
    ensures EndKey(ender, peer) != ChatIdOf(peer, ender)
  {
    BeforeIrreflexive(ender);
    ChatIdSymmetric(ender, peer);
    assert SortedPair(ender, peer).0 == peer;
  }

  /** For minted ids the length restriction is not needed: whenever the
      ender's minted id sorts second (`user_9` ending with `user_10`, say),
      the deleted key is not the session's id. */
  lemma {:induction false} EndKeyMissesForMintedIds(m: nat, n: nat)
    requires Before(MintedId(n), MintedId(m))
    ensures EndKey(MintedId(m), MintedId(n)) != ChatIdOf(MintedId(m), MintedId(n))
  {
    var ender, peer := MintedId(m), MintedId(n);
    BeforeAsymmetric(ender, peer);
    assert SortedPair(ender, peer) == (peer, ender);
    var key, id := EndKey(ender, peer), ChatIdOf(ender, peer);
    if |ender| < |peer| {
      assert key[|ender|] == '_';
      assert id[|ender|] == peer[|ender|] == Decimal(n)[|ender| - 5];
    } else if |peer| < |ender| {
      assert id[|peer|] == '_';
      assert key[|peer|] == ender[|peer|] == Decimal(m)[|peer| - 5];
    } else {
      assert ender != peer;
      assert key[..|ender|] == ender && id[..|peer|] == peer;
    }
  }

  /** The session `accept_chat` stores outlives `end_chat` by the user whose
      id sorts second. */
  lemma EndChatLeaksSession(chats: map<ChatId, ChatSession>, ender: UserId, peer: UserId)
    requires ChatIdOf(peer, ender) in chats
    requires Before(peer, ender) && |ender| == |peer|
    ensures ChatIdOf(peer, ender) in chats - {EndKey(ender, peer)}
  {
    EndKeyMissesWhenEnderSortsSecond(ender, peer);
  }
}
