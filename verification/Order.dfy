/** Lexicographic orders on byte strings and on the composite keys that index tables and
    projections are sorted by. */
module Order {
  import opened Prelude

  /** Strict byte-wise lexicographic order, as on Rust slices and strings. */
  predicate Less(a: Data, b: Data) {
    if b == [] then false
    else if a == [] then true
    else if a[0] != b[0] then a[0] < b[0]
    else Less(a[1..], b[1..])
  }

  lemma {:induction false} LessIrreflexive(a: Data)
    ensures !Less(a, a)
  {
    if a != [] { LessIrreflexive(a[1..]); }
  }

  lemma {:induction false} LessTransitive(a: Data, b: Data, c: Data)
    requires Less(a, b) && Less(b, c)
    ensures Less(a, c)
  {
    if a != [] && a[0] == b[0] == c[0] { LessTransitive(a[1..], b[1..], c[1..]); }
  }

  lemma {:induction false} LessTotal(a: Data, b: Data)
    ensures a == b || Less(a, b) || Less(b, a)
  {
    if a != [] && b != [] {
      if a[0] == b[0] {
        LessTotal(a[1..], b[1..]);
        assert a == [a[0]] + a[1..] && b == [b[0]] + b[1..];
      }
    }
  }

  /** Where two byte strings are told apart: they agree before, and there the first one ends or has the
      smaller byte. */
  predicate DecidedAt(a: Data, b: Data, n: nat) {
    n <= |a| && n < |b| && a[..n] == b[..n] && (n < |a| ==> a[n] < b[n])
  }

  lemma {:induction false} LessAt(a: Data, b: Data, n: nat)
    requires DecidedAt(a, b, n)
    ensures Less(a, b)
    decreases n
  {
    if n > 0 {
      assert a[0] == a[..n][0] == b[..n][0] == b[0];
      assert a[1..][..n - 1] == a[..n][1..] && b[1..][..n - 1] == b[..n][1..];
      LessAt(a[1..], b[1..], n - 1);
    }
  }

  /** The order is decided at the first difference, where a proper prefix comes first. */
  lemma {:induction false} LessExactly(a: Data, b: Data)
    ensures Less(a, b) <==> exists n: nat :: DecidedAt(a, b, n)
  {
    if Less(a, b) {
      if a == [] || a[0] != b[0] {
        assert DecidedAt(a, b, 0);
      } else {
        LessExactly(a[1..], b[1..]);
        var n: nat :| DecidedAt(a[1..], b[1..], n);
        assert a[..n + 1] == [a[0]] + a[1..][..n] && b[..n + 1] == [b[0]] + b[1..][..n];
        assert DecidedAt(a, b, n + 1);
      }
    }
    if n: nat :| DecidedAt(a, b, n) { LessAt(a, b, n); }
  }

  /** A sort key: a byte string, then an optional byte string (absent first), then an ordinal. */
  datatype Key = Key(major: Data, version: Option<Data>, minor: nat)

  predicate VersionLess(a: Option<Data>, b: Option<Data>) {
    match (a, b)
    case (_, None) => false
    case (None, Some(_)) => true
    case (Some(x), Some(y)) => Less(x, y)
  }

  predicate KeyLess(a: Key, b: Key) {
    || Less(a.major, b.major)
    || (a.major == b.major && VersionLess(a.version, b.version))
    || (a.major == b.major && a.version == b.version && a.minor < b.minor)
  }

  lemma {:induction false} KeyIrreflexive(a: Key)
    ensures !KeyLess(a, a)
  {
    LessIrreflexive(a.major);
    if a.version.Some? { LessIrreflexive(a.version.value); }
  }

  lemma {:induction false} KeyTransitive(a: Key, b: Key, c: Key)
    requires KeyLess(a, b) && KeyLess(b, c)
    ensures KeyLess(a, c)
  {
    if Less(a.major, b.major) && Less(b.major, c.major) { LessTransitive(a.major, b.major, c.major); }
    if VersionLess(a.version, b.version) && VersionLess(b.version, c.version) && a.version.Some? {
      LessTransitive(a.version.value, b.version.value, c.version.value);
    }
  }

  lemma {:induction false} KeyTotal(a: Key, b: Key)
    ensures a == b || KeyLess(a, b) || KeyLess(b, a)
  {
    LessTotal(a.major, b.major);
    if a.version.Some? && b.version.Some? { LessTotal(a.version.value, b.version.value); }
  }

  /** Strictly increasing, as checked between neighbours. */
  predicate Ascending(keys: seq<Key>) {
    forall i | 0 < i < |keys| :: KeyLess(keys[i - 1], keys[i])
  }

  lemma {:induction false} AscendingPairs(keys: seq<Key>, i: nat, j: nat)
    requires Ascending(keys) && i < j < |keys|
    ensures KeyLess(keys[i], keys[j])
    decreases j
  {
    if i < j - 1 {
      AscendingPairs(keys, i, j - 1);
      KeyTransitive(keys[i], keys[j - 1], keys[j]);
    }
  }

  lemma {:induction false} AscendingDistinct(keys: seq<Key>, i: nat, j: nat)
    requires Ascending(keys) && i < |keys| && j < |keys| && keys[i] == keys[j]
    ensures i == j
  {
    KeyIrreflexive(keys[i]);
    if i < j { AscendingPairs(keys, i, j); }
    if j < i { AscendingPairs(keys, j, i); }
  }

  /** An ascending sequence is determined by its elements. */
  lemma {:induction false} AscendingUnique(a: seq<Key>, b: seq<Key>)
    requires Ascending(a) && Ascending(b)
    requires forall k :: k in a <==> k in b
    ensures a == b
    decreases |a|
  {
    assert (a != [] ==> a[0] in a) && (b != [] ==> b[0] in b);
    if a != [] && b != [] {
      HeadsAgree(a, b);
      forall k ensures k in a[1..] <==> k in b[1..] {
        TailMembers(a, k);
        TailMembers(b, k);
      }
      AscendingUnique(a[1..], b[1..]);
      assert a == [a[0]] + a[1..] && b == [b[0]] + b[1..];
    }
  }

  lemma {:induction false} TailMembers(a: seq<Key>, k: Key)
    requires Ascending(a) && a != []
    ensures k in a[1..] <==> k in a && k != a[0]
  {
    if k in a[1..] {
      var i :| 0 <= i < |a| - 1 && a[1..][i] == k;
      AscendingPairs(a, 0, i + 1);
      KeyIrreflexive(k);
    }
  }

  lemma {:induction false} HeadsAgree(a: seq<Key>, b: seq<Key>)
    requires Ascending(a) && Ascending(b) && a != [] && b != []
    requires forall k :: k in a <==> k in b
    ensures a[0] == b[0]
  {
    assert a[0] in b && b[0] in a;
    var i :| 0 <= i < |b| && b[i] == a[0];
    var j :| 0 <= j < |a| && a[j] == b[0];
    if i > 0 && j > 0 {
      AscendingPairs(b, 0, i);
      AscendingPairs(a, 0, j);
      KeyTransitive(a[0], b[0], a[0]);
      KeyIrreflexive(a[0]);
    }
  }

  function Insert(key: Key, sorted: seq<Key>): seq<Key> {
    if sorted == [] || KeyLess(key, sorted[0]) then [key] + sorted
    else if key == sorted[0] then sorted
    else [sorted[0]] + Insert(key, sorted[1..])
  }

  /** Sorting without repetition; by `AscendingUnique` any other sort gives the same sequence. */
  function Sort(keys: seq<Key>): seq<Key> {
    if keys == [] then [] else Insert(keys[0], Sort(keys[1..]))
  }

  lemma {:induction false} InsertSorted(key: Key, sorted: seq<Key>)
    requires Ascending(sorted)
    ensures Ascending(Insert(key, sorted))
    ensures forall k :: k in Insert(key, sorted) <==> k == key || k in sorted
    ensures Insert(key, sorted) != [] && Insert(key, sorted)[0] in [key] + sorted[..if sorted == [] then 0 else 1]
  {
    if sorted == [] || KeyLess(key, sorted[0]) || key == sorted[0] {
    } else {
      KeyTotal(key, sorted[0]);
      InsertSorted(key, sorted[1..]);
      var rest := Insert(key, sorted[1..]);
      assert rest[0] == key || (|sorted| > 1 && rest[0] == sorted[1]);
      assert sorted == [sorted[0]] + sorted[1..];
    }
  }

  lemma {:induction false} SortSorts(keys: seq<Key>)
    ensures Ascending(Sort(keys))
    ensures forall k :: k in Sort(keys) <==> k in keys
  {
    if keys != [] {
      SortSorts(keys[1..]);
      InsertSorted(keys[0], Sort(keys[1..]));
      assert keys == [keys[0]] + keys[1..];
    }
  }

  lemma {:induction false} InsertLength(key: Key, sorted: seq<Key>)
    requires key !in sorted
    ensures |Insert(key, sorted)| == |sorted| + 1
  {
    if sorted == [] || KeyLess(key, sorted[0]) {
    } else {
      InsertLength(key, sorted[1..]);
    }
  }

  /** Sorting distinct keys keeps all of them. */
  lemma {:induction false} SortLength(keys: seq<Key>)
    requires forall i, j | 0 <= i < j < |keys| :: keys[i] != keys[j]
    ensures |Sort(keys)| == |keys|
  {
    if keys != [] {
      SortLength(keys[1..]);
      SortSorts(keys[1..]);
      assert keys[0] !in keys[1..];
      InsertLength(keys[0], Sort(keys[1..]));
    }
  }
}
