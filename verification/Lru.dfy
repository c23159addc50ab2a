/** A least-recently-used cache threaded through a hash map: every entry holds the keys of its
    neighbours, and the map keeps the two ends of the chain. */
module Lru {
  import opened Prelude

  datatype Node<K, V> = Node(value: V, previous: Option<K>, next: Option<K>)

  type Nodes<K, V> = map<K, Node<K, V>>

  // ---------------------------------------------------------------- recency lists

  ghost predicate Distinct<K>(order: seq<K>) {
    forall i, j | 0 <= i < j < |order| :: order[i] != order[j]
  }

  /** A recency list with one key taken out. */
  ghost function Without<K>(order: seq<K>, key: K): seq<K>
    decreases |order|
  {
    if order == [] then []
    else if order[0] == key then Without(order[1..], key)
    else [order[0]] + Without(order[1..], key)
  }

  /** A recency list with one key made the most recent. */
  ghost function Recent<K>(order: seq<K>, key: K): seq<K> {
    Without(order, key) + [key]
  }

  lemma {:induction false} WithoutAbsent<K>(order: seq<K>, key: K)
    requires key !in order
    ensures Without(order, key) == order
    decreases |order|
  {
    if order != [] {
      WithoutAbsent(order[1..], key);
      assert order == [order[0]] + order[1..];
    }
  }

  lemma {:induction false} DistinctSize<K>(order: seq<K>)
    requires Distinct(order)
    ensures |set k | k in order| == |order|
    decreases |order|
  {
    if order != [] {
      DistinctSize(order[1..]);
      assert order == [order[0]] + order[1..];
      assert (set k | k in order) == (set k | k in order[1..]) + {order[0]};
    }
  }

  lemma {:induction false} WithoutAt<K>(order: seq<K>, key: K, i: nat)
    requires Distinct(order) && i < |order| && order[i] == key
    ensures Without(order, key) == order[..i] + order[i + 1..]
    decreases |order|
  {
    if i == 0 {
      WithoutAbsent(order[1..], key);
    } else {
      WithoutAt(order[1..], key, i - 1);
      assert order[..i] + order[i + 1..] == [order[0]] + (order[1..][..i - 1] + order[1..][i..]);
    }
  }

  // ---------------------------------------------------------------- links

  ghost function Before<K>(order: seq<K>, i: int): Option<K>
    requires 0 <= i <= |order|
  {
    if i == 0 then None else Some(order[i - 1])
  }

  ghost function After<K>(order: seq<K>, i: int): Option<K>
    requires -1 <= i < |order|
  {
    if i + 1 == |order| then None else Some(order[i + 1])
  }

  ghost predicate LinkAt<K, V>(entries: Nodes<K, V>, order: seq<K>, i: nat)
    requires i < |order|
  {
    order[i] in entries && entries[order[i]].previous == Before(order, i) && entries[order[i]].next == After(order, i)
  }

  /** The links, the head and the tail spell out the recency list, oldest first. */
  ghost predicate Linked<K, V>(entries: Nodes<K, V>, head: Option<K>, tail: Option<K>, order: seq<K>) {
    && Distinct(order)
    && head == After(order, -1)
    && tail == Before(order, |order|)
    && (forall i | 0 <= i < |order| :: LinkAt(entries, order, i))
  }

  /** The links determine the list: they cannot represent two. */
  lemma {:induction false} LinksDetermineOrder<K, V>(
      entries: Nodes<K, V>, head: Option<K>, tail: Option<K>, a: seq<K>, b: seq<K>)
    requires Linked(entries, head, tail, a) && Linked(entries, head, tail, b)
    ensures a == b
  {
    PrefixAgrees(entries, head, tail, a, b, |a|);
    PrefixAgrees(entries, head, tail, b, a, |b|);
  }

  lemma {:induction false} PrefixAgrees<K, V>(
      entries: Nodes<K, V>, head: Option<K>, tail: Option<K>, a: seq<K>, b: seq<K>, n: nat)
    requires Linked(entries, head, tail, a) && Linked(entries, head, tail, b) && n <= |a|
    ensures n <= |b| && a[..n] == b[..n]
  {
    if n > 0 {
      PrefixAgrees(entries, head, tail, a, b, n - 1);
      assert After(a, n - 2) == Some(a[n - 1]);
      if n > 1 {
        assert LinkAt(entries, a, n - 2) && LinkAt(entries, b, n - 2);
        assert a[n - 2] == a[..n - 1][n - 2] == b[n - 2];
      }
      assert After(b, n - 2) == Some(a[n - 1]);
      assert a[..n] == a[..n - 1] + [a[n - 1]];
      assert b[..n] == b[..n - 1] + [b[n - 1]];
    }
  }

  // ---------------------------------------------------------------- link updates

  /** Sets the forward link of an entry, if there is such an entry. */
  function WithNext<K, V>(entries: Nodes<K, V>, at: Option<K>, next: Option<K>): Nodes<K, V> {
    if at.Some? && at.value in entries then entries[at.value := entries[at.value].(next := next)] else entries
  }

  /** Sets the backward link of an entry, if there is such an entry. */
  function WithPrevious<K, V>(entries: Nodes<K, V>, at: Option<K>, previous: Option<K>): Nodes<K, V> {
    if at.Some? && at.value in entries then entries[at.value := entries[at.value].(previous := previous)] else entries
  }

  ghost function ValuesOf<K, V>(entries: Nodes<K, V>): map<K, V> {
    map k | k in entries :: entries[k].value
  }

  lemma {:induction false} LinkUpdatesKeepValues<K, V>(entries: Nodes<K, V>, at: Option<K>, link: Option<K>)
    ensures ValuesOf(WithNext(entries, at, link)) == ValuesOf(entries)
    ensures ValuesOf(WithPrevious(entries, at, link)) == ValuesOf(entries)
  {
  }

  /** What unlinking the entry at position `i` does to the links around it. */
  function Unlinked<K, V>(entries: Nodes<K, V>, key: K): Nodes<K, V>
    requires key in entries
  {
    var previous, next := entries[key].previous, entries[key].next;
    var around := WithPrevious(WithNext(entries, previous, next), next, previous);
    WithPrevious(WithNext(around, Some(key), None), Some(key), None)
  }

  lemma {:induction false} UnlinkedKeepsValues<K, V>(entries: Nodes<K, V>, key: K)
    requires key in entries
    ensures ValuesOf(Unlinked(entries, key)) == ValuesOf(entries)
  {
    var previous, next := entries[key].previous, entries[key].next;
    var once := WithNext(entries, previous, next);
    var around := WithPrevious(once, next, previous);
    LinkUpdatesKeepValues(entries, previous, next);
    LinkUpdatesKeepValues(once, next, previous);
    LinkUpdatesKeepValues(around, Some(key), None);
    LinkUpdatesKeepValues(WithNext(around, Some(key), None), Some(key), None);
  }

  /** One entry's links after unlinking another one. */
  lemma {:induction false} UnlinkedAt<K, V>(entries: Nodes<K, V>, key: K, other: K)
    requires key in entries && other in entries && other != key
    ensures var after := Unlinked(entries, key);
            && other in after
            && after[other].next ==
               (if entries[key].previous == Some(other) then entries[key].next else entries[other].next)
            && after[other].previous ==
               (if entries[key].next == Some(other) then entries[key].previous else entries[other].previous)
  {
  }

  lemma {:induction false} UnlinkedLinked<K, V>(entries: Nodes<K, V>, order: seq<K>, i: nat, j: nat)
    requires Distinct(order) && i < |order| && j < |order| - 1
    requires forall m | 0 <= m < |order| :: LinkAt(entries, order, m)
    ensures order[i] in entries && LinkAt(Unlinked(entries, order[i]), order[..i] + order[i + 1..], j)
  {
    var m := if j < i then j else j + 1;
    assert LinkAt(entries, order, i) && LinkAt(entries, order, m);
    UnlinkedAt(entries, order[i], order[m]);
  }

  /** What linking a key behind the tail does to the links. */
  function Appended<K, V>(entries: Nodes<K, V>, tail: Option<K>, key: K, value: V): Nodes<K, V> {
    WithNext(entries, tail, Some(key))[key := Node(value, tail, None)]
  }

  lemma {:induction false} AppendedLinked<K, V>(entries: Nodes<K, V>, order: seq<K>, key: K, value: V, j: nat)
    requires Distinct(order) && key !in order && j <= |order|
    requires forall m | 0 <= m < |order| :: LinkAt(entries, order, m)
    ensures LinkAt(Appended(entries, Before(order, |order|), key, value), order + [key], j)
  {
    if j < |order| { assert LinkAt(entries, order, j); }
  }

  lemma {:induction false} AppendedValues<K, V>(entries: Nodes<K, V>, tail: Option<K>, key: K, value: V)
    ensures ValuesOf(Appended(entries, tail, key, value)) == ValuesOf(entries)[key := value]
  {
  }

  ghost predicate Covers<K, V>(entries: Nodes<K, V>, order: seq<K>) {
    forall k | k in entries :: k in order
  }

  lemma {:induction false} MemberLinked<K, V>(entries: Nodes<K, V>, head: Option<K>, tail: Option<K>, order: seq<K>)
    requires Linked(entries, head, tail, order)
    ensures forall k | k in order :: k in entries
  {
    forall k | k in order ensures k in entries {
      var i :| 0 <= i < |order| && order[i] == k;
      assert LinkAt(entries, order, i);
    }
  }

  lemma {:induction false} DetachesAt<K, V>(entries: Nodes<K, V>, head: Option<K>, tail: Option<K>, order: seq<K>, i: nat)
    requires Linked(entries, head, tail, order) && Covers(entries, order) && i < |order|
    ensures var key, rest := order[i], order[..i] + order[i + 1..];
            && key in entries && key !in rest
            && var after := Unlinked(entries, key);
            && Linked(after,
                      if entries[key].previous.None? then entries[key].next else head,
                      if entries[key].next.None? then entries[key].previous else tail,
                      rest)
            && key in after && Covers(after - {key}, rest) && ValuesOf(after) == ValuesOf(entries)
  {
    var key, rest := order[i], order[..i] + order[i + 1..];
    assert LinkAt(entries, order, i);
    UnlinkedKeepsValues(entries, key);
    forall j | 0 <= j < |rest| ensures LinkAt(Unlinked(entries, key), rest, j) {
      UnlinkedLinked(entries, order, i, j);
    }
    forall k | k in entries && k != key ensures k in rest {
      var m :| 0 <= m < |order| && order[m] == k;
      assert rest[if m < i then m else m - 1] == k;
    }
    assert ValuesOf(Unlinked(entries, key)).Keys == ValuesOf(entries).Keys;
  }

  lemma {:induction false} Appends<K, V>(
      entries: Nodes<K, V>, head: Option<K>, tail: Option<K>, order: seq<K>, key: K, value: V)
    requires Linked(entries, head, tail, order) && key !in order && Covers(entries - {key}, order)
    ensures var after := Appended(entries, tail, key, value);
            && Linked(after, if tail.None? then Some(key) else head, Some(key), order + [key])
            && Covers(after, order + [key]) && ValuesOf(after) == ValuesOf(entries)[key := value]
  {
    AppendedValues(entries, tail, key, value);
    forall j | 0 <= j < |order + [key]| ensures LinkAt(Appended(entries, tail, key, value), order + [key], j) {
      AppendedLinked(entries, order, key, value, j);
    }
  }

  lemma {:induction false} AppendsAbsent<K, V>(
      entries: Nodes<K, V>, head: Option<K>, tail: Option<K>, order: seq<K>, key: K, value: V)
    requires Linked(entries, head, tail, order) && key !in entries && Covers(entries, order)
    ensures Recent(order, key) == order + [key]
    ensures var after := Appended(entries, tail, key, value);
            && Linked(after, if tail.None? then Some(key) else head, Some(key), order + [key])
            && Covers(after, order + [key]) && ValuesOf(after) == ValuesOf(entries)[key := value]
  {
    MemberLinked(entries, head, tail, order);
    WithoutAbsent(order, key);
    Appends(entries, head, tail, order, key, value);
  }

  lemma {:induction false} StoredLinked<K, V>(
      entries: Nodes<K, V>, head: Option<K>, tail: Option<K>, order: seq<K>, key: K, value: V)
    requires Linked(entries, head, tail, order) && key in entries && Covers(entries, order)
    ensures var after := entries[key := entries[key].(value := value)];
            Linked(after, head, tail, order) && Covers(after, order)
            && ValuesOf(after) == ValuesOf(entries)[key := value]
  {
    var after := entries[key := entries[key].(value := value)];
    forall i | 0 <= i < |order| ensures LinkAt(after, order, i) { assert LinkAt(entries, order, i); }
  }

  lemma {:induction false} DropsDetached<K, V>(entries: Nodes<K, V>, head: Option<K>, tail: Option<K>, order: seq<K>, key: K)
    requires Linked(entries, head, tail, order) && key in entries && key !in order
    ensures Linked(entries - {key}, head, tail, order) && ValuesOf(entries - {key}) == ValuesOf(entries) - {key}
  {
    forall i | 0 <= i < |order| ensures LinkAt(entries - {key}, order, i) { assert LinkAt(entries, order, i); }
  }

  // ---------------------------------------------------------------- the cache

  class LruCache<K(==), V> {
    var entries: Nodes<K, V>
    var head: Option<K>
    var tail: Option<K>
    ghost var order: seq<K>

    ghost predicate Valid()
      reads this
    {
      Linked(entries, head, tail, order) && Covers(entries, order)
    }

    ghost function Values(): map<K, V>
      reads this
    {
      ValuesOf(entries)
    }

    constructor ()
      ensures Valid() && order == [] && Values() == map[]
    {
      entries, head, tail, order := map[], None, None, [];
    }

    method Len() returns (n: nat)
      requires Valid()
      ensures n == |order|
    {
      MemberLinked(entries, head, tail, order);
      DistinctSize(order);
      assert entries.Keys == set k | k in order;
      n := |entries|;
    }

    method Peek(key: K) returns (value: Option<V>)
      requires Valid()
      ensures value == if key in Values() then Some(Values()[key]) else None
    {
      value := if key in entries then Some(entries[key].value) else None;
    }

    /** Stores a value and makes its key the most recent, returning what it replaced. */
    method Insert(key: K, value: V) returns (previous: Option<V>)
      requires Valid()
      modifies this
      ensures Valid()
      ensures order == Recent(old(order), key)
      ensures Values() == old(Values())[key := value]
      ensures previous == if key in old(Values()) then Some(old(Values())[key]) else None
    {
      if key in entries {
        previous := Some(entries[key].value);
        StoredLinked(entries, head, tail, order, key, value);
        entries := entries[key := entries[key].(value := value)];
        Touch(key);
        return;
      }
      AppendsAbsent(entries, head, tail, order, key, value);
      previous := None;
      if tail.None? { head := Some(key); }
      entries := WithNext(entries, tail, Some(key));
      entries := entries[key := Node(value, tail, None)];
      tail := Some(key);
      order := order + [key];
    }

    /** Removes the least recent entry. */
    method PopLru() returns (popped: Option<(K, V)>)
      requires Valid()
      modifies this
      ensures Valid()
      ensures old(order) == [] ==> popped == None && order == [] && Values() == old(Values())
      ensures old(order) != [] ==>
                && old(order)[0] in old(Values())
                && popped == Some((old(order)[0], old(Values())[old(order)[0]]))
                && order == old(order)[1..] && Values() == old(Values()) - {old(order)[0]}
    {
      if head.None? { return None; }
      var key := head.value;
      DetachesAt(entries, head, tail, order, 0);
      Detach(key, 0);
      popped := Some((key, entries[key].value));
      DropsDetached(entries, head, tail, order, key);
      entries := entries - {key};
    }

    /** Makes a present key the most recent. */
    method Touch(key: K)
      requires Valid()
      modifies this
      ensures Valid() && Values() == old(Values())
      ensures order == if key in old(Values()) then Recent(old(order), key) else old(order)
    {
      if key !in entries { return; }
      ghost var i :| 0 <= i < |order| && order[i] == key;
      WithoutAt(order, key, i);
      if tail == Some(key) {
        assert i == |order| - 1;
        assert order[..i] + [key] == order;
        return;
      }
      Detach(key, i);
      PushBackExisting(key);
    }

    /** Unlinks a present entry; it stays in the map with no neighbours. */
    method Detach(key: K, ghost i: nat)
      requires Valid() && i < |order| && order[i] == key
      modifies this
      ensures Linked(entries, head, tail, order) && order == old(order)[..i] + old(order)[i + 1..]
      ensures key in entries && key !in order && Covers(entries - {key}, order)
      ensures Values() == old(Values())
    {
      DetachesAt(entries, head, tail, order, i);
      var previous, next := entries[key].previous, entries[key].next;
      if previous.None? { head := next; }
      if next.None? { tail := previous; }
      entries := WithNext(entries, previous, next);
      entries := WithPrevious(entries, next, previous);
      entries := WithPrevious(WithNext(entries, Some(key), None), Some(key), None);
      order := order[..i] + order[i + 1..];
    }

    /** Links a detached entry behind the tail. */
    method PushBackExisting(key: K)
      requires Linked(entries, head, tail, order) && key in entries && key !in order && Covers(entries - {key}, order)
      modifies this
      ensures Valid() && order == old(order) + [key] && Values() == old(Values())
    {
      Appends(entries, head, tail, order, key, entries[key].value);
      if tail.None? { head := Some(key); }
      entries := WithNext(entries, tail, Some(key));
      entries := entries[key := entries[key].(previous := tail, next := None)];
      tail := Some(key);
      order := order + [key];
    }
  }
}
