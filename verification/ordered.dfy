/** The key order of a JavaScript `Map`: iteration follows insertion order,
    `set` on a present key keeps its place, `set` on a new key appends it,
    and `delete` drops it. The server's `connectedUsers` and `clientKeys`
    are iterated in this order. */
module OrderedKeys {

  predicate NoDup<T(==,!new)>(s: seq<T>) {
    forall i, j :: 0 <= i < j < |s| ==> s[i] != s[j]
  }

  /** `order` lists the keys of a map exactly once each. */
  ghost predicate Tracks<T(!new)>(order: seq<T>, keys: set<T>) {
    NoDup(order) && forall x :: x in order <==> x in keys
  }

  /** Key order after `map.set(k, …)`. */
  function Insert<T(==,!new)>(order: seq<T>, k: T): (r: seq<T>)
    ensures forall x :: x in r <==> x in order || x == k
    ensures |order| <= |r| <= |order| + 1 && r[..|order|] == order
    ensures NoDup(order) ==> NoDup(r)
  {
    if k in order then order else order + [k]
  }

  /** Key order after `map.delete(k)`. */
  function Remove<T(==,!new)>(order: seq<T>, k: T): (r: seq<T>)
    ensures forall x :: x in r <==> x in order && x != k
    ensures NoDup(order) ==> NoDup(r)
    ensures k !in order ==> r == order
  {
    if |order| == 0 then []
    else if order[0] == k then Remove(order[1..], k)
    else
      var rest := Remove(order[1..], k);
      assert NoDup(order) ==> NoDup(order[1..]) && order[0] !in order[1..];
      [order[0]] + rest
  }

  /** `delete` cuts a key that occurs once out where it stands: the keys
      before it and the keys after it keep their relative order. */
  lemma {:induction false} RemoveKeepsOrder<T(!new)>(order: seq<T>, i: nat)
    requires i < |order|
    requires forall j :: 0 <= j < |order| && j != i ==> order[j] != order[i]
    ensures Remove(order, order[i]) == order[..i] + order[i + 1..]
    decreases i
  {
    var k, tail := order[i], order[1..];
    if i == 0 {
      assert k !in tail by {
        forall j | 0 <= j < |tail|
          ensures tail[j] != k
        {
          assert tail[j] == order[j + 1];
        }
      }
    } else {
      assert tail[i - 1] == k;
      forall j | 0 <= j < |tail| && j != i - 1
        ensures tail[j] != tail[i - 1]
      {
        assert tail[j] == order[j + 1];
      }
      RemoveKeepsOrder(tail, i - 1);
      assert order[0] != k;
      calc {
        Remove(order, k);
        [order[0]] + Remove(tail, k);
        [order[0]] + (tail[..i - 1] + tail[i..]);
        { assert order[..i] == [order[0]] + tail[..i - 1] && order[i + 1..] == tail[i..]; }
        order[..i] + order[i + 1..];
      }
    }
  }

  lemma InsertTracks<T(!new)>(order: seq<T>, keys: set<T>, k: T)
    requires Tracks(order, keys)
    ensures Tracks(Insert(order, k), keys + {k})
  {
  }

  lemma RemoveTracks<T(!new)>(order: seq<T>, keys: set<T>, k: T)
    requires Tracks(order, keys)
    ensures Tracks(Remove(order, k), keys - {k})
  {
  }
}
