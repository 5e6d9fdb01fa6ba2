/** Ordering messages by creation time: the `ORDER BY createdAt DESC` of
    the message query and the client's ascending re-sort. Both are stable
    insertion sorts on an integer key; ties keep their input order. */
module Ordering {
  import opened Schema

  /** Ascending by `key`. */
  ghost predicate SortedBy<T>(s: seq<T>, key: T -> int) {
    forall i, j :: 0 <= i < j < |s| ==> key(s[i]) <= key(s[j])
  }

  /** Puts `x` in front of the first element whose key is at least its own. */
  function Insert<T>(x: T, s: seq<T>, key: T -> int): (r: seq<T>)
    requires SortedBy(s, key)
    ensures SortedBy(r, key)
    ensures multiset(r) == multiset(s) + multiset{x}
    ensures forall k :: 0 <= k < |r| ==> r[k] == x || r[k] in s
    decreases |s|
  {
    if s == [] then [x]
    else if key(x) <= key(s[0]) then
      assert forall k :: 1 <= k < |[x] + s| ==> ([x] + s)[k] == s[k - 1];
      [x] + s
    else
      var rest := Insert(x, s[1..], key);
      assert s == [s[0]] + s[1..];
      InsertAbove(s, rest, x, key);
      [s[0]] + rest
  }

  /** Puts the head of a sorted list back in front of its re-inserted tail. */
  lemma InsertAbove<T>(s: seq<T>, rest: seq<T>, x: T, key: T -> int)
    requires s != [] && SortedBy(s, key) && SortedBy(rest, key)
    requires key(s[0]) < key(x)
    requires forall k :: 0 <= k < |rest| ==> rest[k] == x || rest[k] in s[1..]
    ensures SortedBy([s[0]] + rest, key)
    ensures forall k :: 0 <= k < |[s[0]] + rest| ==> ([s[0]] + rest)[k] == x || ([s[0]] + rest)[k] in s
  {
    var r := [s[0]] + rest;
    forall i, j | 0 <= i < j < |r| ensures key(r[i]) <= key(r[j]) {
      assert r[j] == rest[j - 1];
      if i == 0 && rest[j - 1] != x {
        var q :| 0 <= q < |s[1..]| && s[1..][q] == rest[j - 1];
        assert s[q + 1] == rest[j - 1];
      } else if i > 0 {
        assert r[i] == rest[i - 1];
      }
    }
  }

  /** A permutation of `s` sorted ascending by `key`. */
  function SortBy<T>(s: seq<T>, key: T -> int): (r: seq<T>)
    ensures SortedBy(r, key)
    ensures multiset(r) == multiset(s)
    decreases |s|
  {
    if s == [] then []
    else
      assert s == [s[0]] + s[1..];
      Insert(s[0], SortBy(s[1..], key), key)
  }

  function NewestKey(m: Message): int { -(m.createdAt as int) }
  function OldestKey(m: Message): int { m.createdAt }

  /** `order: [['createdAt', 'DESC']]`: newest first. */
  function NewestFirst(ms: seq<Message>): (r: seq<Message>)
    ensures multiset(r) == multiset(ms)
    ensures forall i, j :: 0 <= i < j < |r| ==> r[i].createdAt >= r[j].createdAt
  {
    var r := SortBy(ms, NewestKey);
    assert forall i, j :: 0 <= i < j < |r| ==> NewestKey(r[i]) <= NewestKey(r[j]);
    r
  }

  /** The client's `sort((a, b) => new Date(a.createdAt) - new Date(b.createdAt))`
      on a copy of the list: oldest first. */
  function OldestFirst(ms: seq<Message>): (r: seq<Message>)
    ensures multiset(r) == multiset(ms)
    ensures forall i, j :: 0 <= i < j < |r| ==> r[i].createdAt <= r[j].createdAt
  {
    var r := SortBy(ms, OldestKey);
    assert forall i, j :: 0 <= i < j < |r| ==> OldestKey(r[i]) <= OldestKey(r[j]);
    r
  }

  /** No two different messages share a creation time. */
  ghost predicate DistinctTimes(ms: seq<Message>) {
    forall x, y :: x in ms && y in ms && x.createdAt == y.createdAt ==> x == y
  }

  /** Two oldest-first lists holding the same messages are the same list
      when no two different messages among them share a timestamp. */
  lemma {:induction false} SortedUnique(a: seq<Message>, b: seq<Message>)
    requires multiset(a) == multiset(b)
    requires DistinctTimes(a)
    requires forall i, j :: 0 <= i < j < |a| ==> a[i].createdAt <= a[j].createdAt
    requires forall i, j :: 0 <= i < j < |b| ==> b[i].createdAt <= b[j].createdAt
    ensures a == b
    decreases |a|
  {
    assert |a| == |multiset(a)| == |multiset(b)| == |b|;
    if a != [] {
      SameHead(a, b);
      TailsAgree(a, b);
      SortedUnique(a[1..], b[1..]);
    }
  }

  /** The earliest message is the same in both lists. */
  lemma SameHead(a: seq<Message>, b: seq<Message>)
    requires a != [] && b != [] && multiset(a) == multiset(b)
    requires DistinctTimes(a)
    requires forall i, j :: 0 <= i < j < |a| ==> a[i].createdAt <= a[j].createdAt
    requires forall i, j :: 0 <= i < j < |b| ==> b[i].createdAt <= b[j].createdAt
    ensures a[0] == b[0]
  {
    assert a[0] in multiset(b) && b[0] in multiset(a);
    var i :| 0 <= i < |b| && b[i] == a[0];
    var j :| 0 <= j < |a| && a[j] == b[0];
    assert b[0].createdAt <= a[0].createdAt by { if i > 0 { assert b[0].createdAt <= b[i].createdAt; } }
    assert a[0].createdAt <= b[0].createdAt by { if j > 0 { assert a[0].createdAt <= a[j].createdAt; } }
    assert a[0] in a && b[0] in a;
  }

  /** Once the heads agree, the tails hold the same messages and keep the
      premises of `SortedUnique`. */
  lemma TailsAgree(a: seq<Message>, b: seq<Message>)
    requires a != [] && b != [] && multiset(a) == multiset(b) && a[0] == b[0]
    requires DistinctTimes(a)
    ensures multiset(a[1..]) == multiset(b[1..])
    ensures DistinctTimes(a[1..])
  {
    assert a == [a[0]] + a[1..] && b == [b[0]] + b[1..];
    assert multiset(a[1..]) == multiset(a) - multiset{a[0]};
    assert multiset(b[1..]) == multiset(b) - multiset{b[0]};
    forall x, y | x in a[1..] && y in a[1..] && x.createdAt == y.createdAt ensures x == y {
      assert x in a && y in a;
    }
  }

  /** The order a reader sees does not depend on the order the server sent:
      re-sorting the newest-first list gives the oldest-first sort of the
      group's messages, whenever no two different messages share a timestamp. */
  lemma ResortRestoresChronology(ms: seq<Message>)
    requires DistinctTimes(ms)
    ensures OldestFirst(NewestFirst(ms)) == OldestFirst(ms)
  {
    var a, b := OldestFirst(NewestFirst(ms)), OldestFirst(ms);
    assert multiset(a) == multiset(ms);
    assert DistinctTimes(a) by {
      forall x, y | x in a && y in a && x.createdAt == y.createdAt ensures x == y {
        assert x in multiset(ms) && y in multiset(ms);
      }
    }
    SortedUnique(a, b);
  }
}
