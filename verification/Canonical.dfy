/** The canonical record lists of a run: one table of names and two sorted projections, each
    determined by the mutations. */
module Canonical {
  import opened Prelude
  import opened Types
  import opened Order
  import opened RunModel
  import opened Projections

  // ---------------------------------------------------------------- namespace key names

  function NameKeys(names: seq<Text>): (keys: seq<Key>)
    ensures |keys| == |names|
  {
    seq(|names|, i requires 0 <= i < |names| => Key(names[i], None, 0))
  }

  function MutationNames(ms: seq<Mutation>): (names: seq<Text>)
    ensures |names| == |ms|
  {
    seq(|ms|, i requires 0 <= i < |ms| => ms[i].keyId)
  }

  ghost predicate Named(ms: seq<Mutation>, id: Data) {
    exists i | 0 <= i < |ms| :: ms[i].keyId == id
  }

  /** A strictly ordered table of exactly the key names that mutations use. */
  ghost predicate IsNameTable(names: seq<Text>, ms: seq<Mutation>) {
    && Ascending(NameKeys(names))
    && (forall i | 0 <= i < |names| :: Named(ms, names[i]))
    && (forall i | 0 <= i < |ms| :: ms[i].keyId in names)
  }

  function Names(ms: seq<Mutation>): (names: seq<Text>)
    ensures IsNameTable(names, ms)
  {
    var sorted := Sort(NameKeys(MutationNames(ms)));
    SortedNames(ms);
    var names: seq<Text> := seq(|sorted|, i requires 0 <= i < |sorted| =>
      assert sorted[i] in sorted; sorted[i].major);
    NamesAre(ms, sorted, names);
    names
  }

  lemma {:induction false} NamesAre(ms: seq<Mutation>, sorted: seq<Key>, names: seq<Text>)
    requires Ascending(sorted) && |names| == |sorted|
    requires forall i | 0 <= i < |sorted| :: sorted[i] == Key(names[i], None, 0)
    requires forall k | k in sorted :: Named(ms, k.major)
    requires forall k | k in NameKeys(MutationNames(ms)) :: k in sorted
    ensures IsNameTable(names, ms)
  {
    assert NameKeys(names) == sorted;
    forall i | 0 <= i < |ms| ensures ms[i].keyId in names {
      assert NameKeys(MutationNames(ms))[i] in sorted;
      var j :| 0 <= j < |sorted| && sorted[j] == Key(ms[i].keyId, None, 0);
      assert names[j] == ms[i].keyId;
    }
    forall i | 0 <= i < |names| ensures Named(ms, names[i]) { assert sorted[i] in sorted; }
  }

  lemma {:induction false} SortedNames(ms: seq<Mutation>)
    ensures var sorted := Sort(NameKeys(MutationNames(ms)));
            Ascending(sorted)
            && (forall k | k in sorted :: Named(ms, k.major) && IsText(k.major) && k == Key(k.major, None, 0))
            && (forall k | k in NameKeys(MutationNames(ms)) :: k in sorted)
  {
    var keys := NameKeys(MutationNames(ms));
    SortSorts(keys);
    forall k | k in Sort(keys) ensures Named(ms, k.major) && IsText(k.major) && k == Key(k.major, None, 0) {
      assert k in keys;
      var i :| 0 <= i < |keys| && keys[i] == k;
      assert ms[i].keyId == k.major;
    }
  }

  /** The table is determined by the mutations. */
  lemma {:induction false} NameTableUnique(a: seq<Text>, b: seq<Text>, ms: seq<Mutation>)
    requires IsNameTable(a, ms) && IsNameTable(b, ms)
    ensures a == b
  {
    NamesIncluded(a, b, ms);
    NamesIncluded(b, a, ms);
    AscendingUnique(NameKeys(a), NameKeys(b));
    forall i | 0 <= i < |a| ensures a[i] == b[i] {
      assert NameKeys(a)[i] == NameKeys(b)[i];
    }
  }

  lemma {:induction false} NamesIncluded(a: seq<Text>, b: seq<Text>, ms: seq<Mutation>)
    requires IsNameTable(a, ms) && IsNameTable(b, ms)
    ensures forall k | k in NameKeys(a) :: k in NameKeys(b)
  {
    forall k | k in NameKeys(a) ensures k in NameKeys(b) {
      var i :| 0 <= i < |a| && NameKeys(a)[i] == k;
      assert Named(ms, a[i]);
      var m :| 0 <= m < |ms| && ms[m].keyId == a[i];
      var j :| 0 <= j < |b| && b[j] == a[i];
      assert NameKeys(b)[j] == k;
    }
  }

  /** No more names than mutations. */
  lemma {:induction false} NameTableSize(names: seq<Text>, ms: seq<Mutation>)
    requires IsNameTable(names, ms)
    ensures |names| <= |ms|
  {
    var used := MutationNames(ms);
    var ids := set x | x in used;
    forall i | 0 <= i < |names| ensures names[i] in ids {
      assert Named(ms, names[i]);
      var m :| 0 <= m < |ms| && ms[m].keyId == names[i];
      assert used[m] == names[i];
    }
    forall i, j | 0 <= i < j < |names| ensures names[i] != names[j] {
      assert NameKeys(names)[i] == Key(names[i], None, 0) && NameKeys(names)[j] == Key(names[j], None, 0);
      if names[i] == names[j] { AscendingDistinct(NameKeys(names), i, j); }
    }
    DistinctCount(names, ids);
    ElementCount(used);
  }

  lemma {:induction false} DistinctCount(names: seq<Text>, ids: set<Text>)
    requires forall i | 0 <= i < |names| :: names[i] in ids
    requires forall i, j | 0 <= i < j < |names| :: names[i] != names[j]
    ensures |names| <= |ids|
    decreases |names|
  {
    if names != [] { DistinctCount(names[1..], ids - {names[0]}); }
  }

  lemma {:induction false} ElementCount(names: seq<Text>)
    ensures |set x | x in names| <= |names|
    decreases |names|
  {
    if names != [] {
      ElementCount(names[1..]);
      assert names == [names[0]] + names[1..];
      assert (set x | x in names) == (set x | x in names[1..]) + {names[0]};
    }
  }

  /** Where a name is in the table. */
  function NameIndex(names: seq<Text>, id: Text): (i: nat)
    ensures i <= |names|
    ensures id in names ==> i < |names| && names[i] == id
  {
    if names == [] || names[0] == id then 0 else 1 + NameIndex(names[1..], id)
  }

  lemma {:induction false} NameIndexUnique(names: seq<Text>, i: nat)
    requires Ascending(NameKeys(names)) && i < |names|
    ensures NameIndex(names, names[i]) == i
  {
    var j := NameIndex(names, names[i]);
    assert NameKeys(names)[i] == NameKeys(names)[j];
    AscendingDistinct(NameKeys(names), i, j);
  }

  // ---------------------------------------------------------------- pairing

  function NsOf(names: seq<Text>, m: Mutation): NsRecord
    requires |names| < U32_LIMIT
  {
    var key := NameIndex(names, m.keyId);
    match m
    case Upsert(ordinal, blindKey, keyId, path, generation, payload, contentLen, modifiedAt, retention, hold, etag, sum) =>
      NsUpsert(ordinal, blindKey, key, generation, payload, contentLen, modifiedAt, retention, hold, sum, etag)
    case Tombstone(ordinal, blindKey, keyId, path, generation) => NsTombstone(ordinal, blindKey, key, generation)
  }

  function LsOf(m: Mutation): LsRecord {
    match m
    case Upsert(ordinal, blindKey, keyId, path, generation, payload, contentLen, modifiedAt, retention, hold, etag, sum) =>
      LsUpsert(path, ordinal, generation, contentLen, modifiedAt)
    case Tombstone(ordinal, blindKey, keyId, path, generation) => LsTombstone(path, ordinal, generation)
  }

  /** Joins the two projections of one mutation when their common facts agree. */
  function PairUp(names: seq<Text>, ns: NsRecord, ls: LsRecord): Option<Mutation>
    requires ns.key < |names|
  {
    if ns.NsUpsert? && ls.LsUpsert? && ns.generation == ls.generation && ns.contentLen == ls.contentLen
       && ns.modifiedAt == ls.modifiedAt
    then
      Some(Upsert(ls.ordinal, ns.blindKey, names[ns.key], ls.path, ls.generation, ns.payload, ls.contentLen,
                  ls.modifiedAt, ns.retention, ns.legalHold, ns.etag, ns.checksum))
    else if ns.NsTombstone? && ls.LsTombstone? && ns.generation == ls.generation then
      Some(Tombstone(ls.ordinal, ns.blindKey, names[ns.key], ls.path, ls.generation))
    else None
  }

  /** Pairing undoes projection. */
  lemma {:induction false} PairOfProjections(names: seq<Text>, m: Mutation)
    requires |names| < U32_LIMIT && m.keyId in names
    ensures NsOf(names, m).key < |names| && PairUp(names, NsOf(names, m), LsOf(m)) == Some(m)
  {
  }

  /** Projection undoes pairing. */
  lemma {:induction false} ProjectionsOfPair(names: seq<Text>, ns: NsRecord, ls: LsRecord)
    requires |names| < U32_LIMIT && Ascending(NameKeys(names)) && ns.key < |names| && ns.ordinal == ls.ordinal
    requires PairUp(names, ns, ls).Some?
    ensures var m := PairUp(names, ns, ls).value;
            NsOf(names, m) == ns && LsOf(m) == ls && m.ordinal == ns.ordinal && m.keyId == names[ns.key]
  {
    NameIndexUnique(names, ns.key);
  }

  // ---------------------------------------------------------------- sorted projections

  predicate Dense(ms: seq<Mutation>) {
    forall i | 0 <= i < |ms| :: ms[i].ordinal == i
  }

  function NsKey(r: NsRecord): Key {
    Key(r.blindKey, None, r.ordinal)
  }

  function LsKey(r: LsRecord): Key {
    Key(r.path, None, r.ordinal)
  }

  function NsKeys(nss: seq<NsRecord>): (keys: seq<Key>)
    ensures |keys| == |nss|
  {
    seq(|nss|, i requires 0 <= i < |nss| => NsKey(nss[i]))
  }

  function LsKeys(lss: seq<LsRecord>): (keys: seq<Key>)
    ensures |keys| == |lss|
  {
    seq(|lss|, i requires 0 <= i < |lss| => LsKey(lss[i]))
  }

  ghost predicate NsPlaced(names: seq<Text>, ms: seq<Mutation>, r: NsRecord)
    requires |names| < U32_LIMIT
  {
    r.ordinal < |ms| && r == NsOf(names, ms[r.ordinal])
  }

  ghost predicate NsPresent(nss: seq<NsRecord>, ordinal: nat) {
    exists j | 0 <= j < |nss| :: nss[j].ordinal == ordinal
  }

  /** The namespace projection: one record for every mutation, strictly ordered. */
  ghost predicate IsNsList(names: seq<Text>, ms: seq<Mutation>, nss: seq<NsRecord>)
    requires |names| < U32_LIMIT
  {
    && Ascending(NsKeys(nss))
    && (forall j | 0 <= j < |nss| :: NsPlaced(names, ms, nss[j]))
    && (forall o | 0 <= o < |ms| :: NsPresent(nss, o))
  }

  ghost predicate LsPlaced(ms: seq<Mutation>, r: LsRecord) {
    r.ordinal < |ms| && r == LsOf(ms[r.ordinal])
  }

  ghost predicate LsPresent(lss: seq<LsRecord>, ordinal: nat) {
    exists j | 0 <= j < |lss| :: lss[j].ordinal == ordinal
  }

  /** The listing projection: one record for every mutation, strictly ordered. */
  ghost predicate IsLsList(ms: seq<Mutation>, lss: seq<LsRecord>) {
    && Ascending(LsKeys(lss))
    && (forall j | 0 <= j < |lss| :: LsPlaced(ms, lss[j]))
    && (forall o | 0 <= o < |ms| :: LsPresent(lss, o))
  }

  /** Projections are determined by the mutations. */
  lemma {:induction false} NsListUnique(names: seq<Text>, ms: seq<Mutation>, a: seq<NsRecord>, b: seq<NsRecord>)
    requires |names| < U32_LIMIT && IsNsList(names, ms, a) && IsNsList(names, ms, b)
    ensures a == b
  {
    NsIncluded(names, ms, a, b);
    NsIncluded(names, ms, b, a);
    AscendingUnique(NsKeys(a), NsKeys(b));
    forall i | 0 <= i < |a| ensures a[i] == b[i] {
      assert NsKeys(a)[i] == NsKeys(b)[i];
      assert NsPlaced(names, ms, a[i]) && NsPlaced(names, ms, b[i]);
    }
  }

  lemma {:induction false} NsIncluded(names: seq<Text>, ms: seq<Mutation>, a: seq<NsRecord>, b: seq<NsRecord>)
    requires |names| < U32_LIMIT && IsNsList(names, ms, a) && IsNsList(names, ms, b)
    ensures forall k | k in NsKeys(a) :: k in NsKeys(b)
  {
    forall k | k in NsKeys(a) ensures k in NsKeys(b) {
      var i :| 0 <= i < |a| && NsKeys(a)[i] == k;
      assert NsPlaced(names, ms, a[i]);
      assert NsPresent(b, a[i].ordinal);
      var j :| 0 <= j < |b| && b[j].ordinal == a[i].ordinal;
      assert NsPlaced(names, ms, b[j]);
      assert NsKeys(b)[j] == k;
    }
  }

  lemma {:induction false} LsListUnique(ms: seq<Mutation>, a: seq<LsRecord>, b: seq<LsRecord>)
    requires IsLsList(ms, a) && IsLsList(ms, b)
    ensures a == b
  {
    LsIncluded(ms, a, b);
    LsIncluded(ms, b, a);
    AscendingUnique(LsKeys(a), LsKeys(b));
    forall i | 0 <= i < |a| ensures a[i] == b[i] {
      assert LsKeys(a)[i] == LsKeys(b)[i];
      assert LsPlaced(ms, a[i]) && LsPlaced(ms, b[i]);
    }
  }

  lemma {:induction false} LsIncluded(ms: seq<Mutation>, a: seq<LsRecord>, b: seq<LsRecord>)
    requires IsLsList(ms, a) && IsLsList(ms, b)
    ensures forall k | k in LsKeys(a) :: k in LsKeys(b)
  {
    forall k | k in LsKeys(a) ensures k in LsKeys(b) {
      var i :| 0 <= i < |a| && LsKeys(a)[i] == k;
      assert LsPlaced(ms, a[i]);
      assert LsPresent(b, a[i].ordinal);
      var j :| 0 <= j < |b| && b[j].ordinal == a[i].ordinal;
      assert LsPlaced(ms, b[j]);
      assert LsKeys(b)[j] == k;
    }
  }

  /** The keys mutations are sorted by in one projection. */
  function BlindKeys(ms: seq<Mutation>): (keys: seq<Key>)
    ensures |keys| == |ms|
  {
    seq(|ms|, i requires 0 <= i < |ms| => Key(ms[i].blindKey, None, ms[i].ordinal))
  }

  function PathKeys(ms: seq<Mutation>): (keys: seq<Key>)
    ensures |keys| == |ms|
  {
    seq(|ms|, i requires 0 <= i < |ms| => Key(ms[i].path, None, ms[i].ordinal))
  }

  /** Sorted keys of distinct ordinals: as many as mutations, each naming its own. */
  lemma {:induction false} SortedKeys(keys: seq<Key>)
    requires forall i | 0 <= i < |keys| :: keys[i].minor == i
    ensures var sorted := Sort(keys);
            && Ascending(sorted) && |sorted| == |keys|
            && (forall j | 0 <= j < |sorted| :: sorted[j].minor < |keys| && sorted[j] == keys[sorted[j].minor])
            && (forall i | 0 <= i < |keys| :: keys[i] in sorted)
  {
    SortSorts(keys);
    SortLength(keys);
    var sorted := Sort(keys);
    forall j | 0 <= j < |sorted| ensures sorted[j].minor < |keys| && sorted[j] == keys[sorted[j].minor] {
      assert sorted[j] in keys;
    }
  }

  /** The namespace records of dense mutations, in order of blind key and ordinal. */
  function NsRecords(names: seq<Text>, ms: seq<Mutation>): (nss: seq<NsRecord>)
    requires |names| < U32_LIMIT && Dense(ms)
    ensures IsNsList(names, ms, nss) && |nss| == |ms|
  {
    var sorted := Sort(BlindKeys(ms));
    SortedKeys(BlindKeys(ms));
    var nss := seq(|sorted|, j requires 0 <= j < |sorted| => NsOf(names, ms[sorted[j].minor]));
    NsRecordsAre(names, ms, sorted, nss);
    nss
  }

  lemma {:induction false} NsRecordsAre(names: seq<Text>, ms: seq<Mutation>, sorted: seq<Key>, nss: seq<NsRecord>)
    requires |names| < U32_LIMIT && Dense(ms) && Ascending(sorted) && |nss| == |sorted|
    requires forall j | 0 <= j < |sorted| :: sorted[j].minor < |ms| && sorted[j] == BlindKeys(ms)[sorted[j].minor]
                                             && nss[j] == NsOf(names, ms[sorted[j].minor])
    requires forall i | 0 <= i < |ms| :: BlindKeys(ms)[i] in sorted
    ensures IsNsList(names, ms, nss)
  {
    assert NsKeys(nss) == sorted;
    forall j | 0 <= j < |nss| ensures NsPlaced(names, ms, nss[j]) {}
    forall o | 0 <= o < |ms| ensures NsPresent(nss, o) {
      var j :| 0 <= j < |sorted| && sorted[j] == BlindKeys(ms)[o];
      assert nss[j].ordinal == o;
    }
  }

  /** The listing records of dense mutations, in order of path and ordinal. */
  function LsRecords(ms: seq<Mutation>): (lss: seq<LsRecord>)
    requires Dense(ms)
    ensures IsLsList(ms, lss) && |lss| == |ms|
  {
    var sorted := Sort(PathKeys(ms));
    SortedKeys(PathKeys(ms));
    var lss := seq(|sorted|, j requires 0 <= j < |sorted| => LsOf(ms[sorted[j].minor]));
    LsRecordsAre(ms, sorted, lss);
    lss
  }

  lemma {:induction false} LsRecordsAre(ms: seq<Mutation>, sorted: seq<Key>, lss: seq<LsRecord>)
    requires Dense(ms) && Ascending(sorted) && |lss| == |sorted|
    requires forall j | 0 <= j < |sorted| :: sorted[j].minor < |ms| && sorted[j] == PathKeys(ms)[sorted[j].minor]
                                             && lss[j] == LsOf(ms[sorted[j].minor])
    requires forall i | 0 <= i < |ms| :: PathKeys(ms)[i] in sorted
    ensures IsLsList(ms, lss)
  {
    assert LsKeys(lss) == sorted;
    forall j | 0 <= j < |lss| ensures LsPlaced(ms, lss[j]) {}
    forall o | 0 <= o < |ms| ensures LsPresent(lss, o) {
      var j :| 0 <= j < |sorted| && sorted[j] == PathKeys(ms)[o];
      assert lss[j].ordinal == o;
    }
  }
}
