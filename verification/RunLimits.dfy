/** Runs at the limits of the codec: encodable runs that decoding refuses, and a decodable run that
    encoding refuses. */
module RunLimits {
  import opened Prelude
  import opened Types
  import opened Wire
  import opened PayloadLayout
  import opened RunModel
  import opened RunRecords
  import opened Projections
  import opened RunFrames
  import opened Canonical
  import opened RunTables
  import opened RunScan
  import opened RunFinish
  import opened RunCodec
  import opened Packing
  import opened RunEncoder
  import opened RunEncoding
  import opened RunBundle
  import opened RunSizes

  // ---------------------------------------------------------------- ordinary runs have frames

  lemma {:induction false} TotalAtMost(frames: seq<Data>)
    requires BodiesOk(frames, 640)
    ensures TotalBytes(frames) <= 640 * |frames|
  {
    if frames != [] {
      TotalAtMost(frames[..|frames| - 1]);
      assert |frames[|frames| - 1]| <= 640;
    }
  }

  lemma {:induction false} BodiesAtMost(frames: seq<Data>)
    requires BodiesOk(frames, 640)
    ensures |PutBodies(frames, [])| <= 650 * |frames|
  {
    if frames != [] {
      BodiesAtMost(frames[1..]);
      WordVarint(|frames[0]|);
      RecordLength(frames[0], PutBodies(frames[1..], []));
    }
  }

  lemma {:induction false} BundleAtMost(frames: seq<Data>)
    requires BodiesOk(frames, 640) && |frames| < U64_LIMIT
    ensures |PutBundle(frames)| <= 10 + 650 * |frames|
  {
    BodiesAtMost(frames);
    VarintAtMost(|frames|, PutBodies(frames, []));
  }

  /** A valid run with short records and no pack of its own. */
  ghost predicate Ordinary(limits: Limits, run: Run) {
    && Roomlike(limits) && limits.maxTotalBytes >= 0x1000_0000_0000_0000
    && RunOk(limits, run) && Countable(run) && run.selfPack.None?
    && (forall i | 0 <= i < |run.mutations| :: |run.mutations[i].path| <= 64)
    && (forall m | m in Join(TablesFor(run)) :: ShortMeta(m))
  }

  ghost predicate ShortMeta(m: Meta) {
    (m.Completion? ==> |m.receipt.key| <= 1024) && |PutMeta(m)| <= 508
  }

  lemma {:induction false} OrdinaryFits(limits: Limits, run: Run)
    requires Ordinary(limits, run)
    ensures ListsFit(limits, ListsOf(run))
  {
    var l := ListsOf(run);
    forall i | 0 <= i < |l.metas| ensures MetaOk(limits, l.metas[i]) {
      MetasValid(limits, run, i);
      assert l.metas[i] in l.metas;
      assert ShortMeta(l.metas[i]);
    }
    forall i | 0 <= i < |l.nss| ensures |NsBodies(l.nss)[i]| <= 640 { NsAtMost(l.nss[i]); }
    forall i | 0 <= i < |l.lss| ensures |LsBody(l.lss[i])| <= 640 { LsBodyAtMost(l.lss[i]); }
  }

  lemma {:induction false} MetasModest(limits: Limits, metas: seq<Meta>)
    requires MetasOk(limits, metas) && forall m | m in metas :: ShortMeta(m)
    ensures Modest(MetaRecords(limits, metas))
  {
    var records := MetaRecords(limits, metas);
    forall i | 0 <= i < |records| ensures ModestAt(records, i) {
      assert metas[i] in metas;
      assert ShortMeta(metas[i]);
    }
  }

  lemma {:induction false} NamespaceModest(nss: seq<NsRecord>)
    ensures Modest(NamespaceRecords(nss))
  {
    var records := NamespaceRecords(nss);
    forall i | 0 <= i < |records| ensures ModestAt(records, i) { NsAtMost(nss[i]); }
  }

  lemma {:induction false} ListingModest(lss: seq<LsRecord>)
    requires forall i | 0 <= i < |lss| :: |lss[i].path| <= 64
    ensures Modest(ListingRecords(lss))
  {
    var records := ListingRecords(lss);
    forall i | 0 <= i < |records| ensures ModestAt(records, i) {
      LsBodyAtMost(lss[i]);
      var n := SharedPrefix([], lss[i].path);
      WordVarint(n);
      WordVarint(|lss[i].path| - n);
    }
  }

  lemma {:induction false} ListingShort(run: Run, lss: seq<LsRecord>)
    requires IsLsList(run.mutations, lss) && forall i | 0 <= i < |run.mutations| :: |run.mutations[i].path| <= 64
    ensures forall i | 0 <= i < |lss| :: |lss[i].path| <= 64
  {
    forall i | 0 <= i < |lss| ensures |lss[i].path| <= 64 { assert LsPlaced(run.mutations, lss[i]); }
  }

  lemma {:induction false} PackedTotal(limits: Limits, c: Common, l: Lists, cut: Cut)
    requires Roomlike(limits) && MetasOk(limits, l.metas) && PackedLists(limits, c, l, cut)
    ensures BodiesOk(AllFrames(cut), 640) && TotalBytes(AllFrames(cut)) <= 640 * |AllFrames(cut)|
  {
    PackedWithin(limits, PlanFor(c, Metadata(c.pack, c.keyCount)), MetaRecords(limits, l.metas), cut.metaEnds, cut.metas);
    PackedWithin(limits, PlanFor(c, Namespace), NamespaceRecords(l.nss), cut.nsEnds, cut.nss);
    PackedWithin(limits, PlanFor(c, Listing), ListingRecords(l.lss), cut.lsEnds, cut.lss);
    TotalAtMost(AllFrames(cut));
  }

  lemma {:induction false} ListsPacked(limits: Limits, c: Common, l: Lists) returns (cut: Cut)
    requires Roomlike(limits) && ListsFit(limits, l) && CountsMatch(c, l) && c.pack.None?
    requires Modest(MetaRecords(limits, l.metas)) && Modest(ListingRecords(l.lss)) && |l.nss| < U32_LIMIT
    requires |l.metas| < U32_LIMIT || (|l.metas| == U32_LIMIT && Crowded(MetaRecords(limits, l.metas)))
    ensures PackedLists(limits, c, l, cut)
    ensures |cut.metas| <= |l.metas| + 1 && |cut.nss| <= |l.nss| + 1 && |cut.lss| <= |l.nss| + 1
    ensures l.metas != [] && Crowded(MetaRecords(limits, l.metas)) ==> |cut.metas| == |l.metas|
  {
    NamespaceModest(l.nss);
    var metaEnds, metas := RoleFramed(limits, PlanFor(c, Metadata(c.pack, c.keyCount)), MetaRecords(limits, l.metas));
    var nsEnds, nss := RoleFramed(limits, PlanFor(c, Namespace), NamespaceRecords(l.nss));
    var lsEnds, lss := RoleFramed(limits, PlanFor(c, Listing), ListingRecords(l.lss));
    cut := Cut(metaEnds, nsEnds, lsEnds, metas, nss, lss);
  }

  /** Ordinary runs have frames; crowded metadata gets a frame for each record. */
  lemma {:induction false} OrdinaryFramed(limits: Limits, run: Run) returns (cut: Cut)
    requires Ordinary(limits, run) && MetasOk(limits, ListsOf(run).metas)
    requires var metas := ListsOf(run).metas;
             |metas| < U32_LIMIT || (|metas| == U32_LIMIT && Crowded(MetaRecords(limits, metas)))
    ensures Framed(limits, run, cut)
    ensures ListsOf(run).metas != [] && Crowded(MetaRecords(limits, ListsOf(run).metas)) ==>
            |cut.metas| == |ListsOf(run).metas|
    ensures BodiesOk(AllFrames(cut), 640) && |AllFrames(cut)| <= 4 * U32_LIMIT
  {
    var c, l := CommonFor(run), ListsOf(run);
    OrdinaryFits(limits, run);
    MetasModest(limits, l.metas);
    ListingShort(run, l.lss);
    ListingModest(l.lss);
    cut := ListsPacked(limits, c, l);
    PackedTotal(limits, c, l, cut);
  }

  // ---------------------------------------------------------------- limits that do not add up

  const NOTHING_RUN := Run(None, 1, None, [], [], [])

  lemma {:induction false} NothingIsOrdinary(limits: Limits)
    requires Roomlike(limits) && limits.maxTotalBytes >= 0x1000_0000_0000_0000
    ensures Ordinary(limits, NOTHING_RUN) && Accepted(limits, NOTHING_RUN) && Join(TablesFor(NOTHING_RUN)) == []
  {
    NameTableSize(Names([]), []);
  }

  lemma {:induction false} NothingFramed(limits: Limits) returns (cut: Cut)
    requires Roomlike(limits) && limits.maxTotalBytes >= 0x1000_0000_0000_0000
    ensures Encoded(limits, NOTHING_RUN, cut)
    ensures |cut.metas| == 1 && |PutBundle(AllFrames(cut))| <= limits.maxTotalBytes
  {
    NothingIsOrdinary(limits);
    OrdinaryFits(limits, NOTHING_RUN);
    cut := OrdinaryFramed(limits, NOTHING_RUN);
    PackedCounts(limits, NOTHING_RUN, cut);
    BundleAtMost(AllFrames(cut));
  }

  /** Under limits whose sum passes 2^64, a run is encoded and then refused. */
  lemma {:induction false} LimitSumFails() returns (limits: Limits, cut: Cut)
    ensures limits.maxContainers + limits.maxMutations + 1 >= U64_LIMIT
    ensures Encoded(limits, NOTHING_RUN, cut) && Decode(limits, AllFrames(cut)) == None
  {
    limits := Roomy(0xFFFF_FFFF_FFFF_FFFF, 0);
    cut := NothingFramed(limits);
    RoundTrip(limits, NOTHING_RUN, cut);
  }

  /** Under limits whose frame count passes 2^64, a bundle is refused although its frames are not. */
  lemma {:induction false} BundleLimitFails() returns (limits: Limits, cut: Cut)
    ensures FrameLimit(limits) >= U64_LIMIT
    ensures Encoded(limits, NOTHING_RUN, cut) && |PutBundle(AllFrames(cut))| <= limits.maxTotalBytes
    ensures Decode(limits, AllFrames(cut)) == Some(NOTHING_RUN)
    ensures DecodeBundled(limits, PutBundle(AllFrames(cut))) == None
  {
    limits := Roomy(0, 0x8000_0000_0000_0000);
    cut := NothingFramed(limits);
    RoundTrip(limits, NOTHING_RUN, cut);
    BundleRoundTrip(limits, NOTHING_RUN, cut);
  }

  // ---------------------------------------------------------------- as many metadata frames as there are ordinals

  function Digits(n: nat, width: nat): (b: Data)
    ensures |b| == width && forall i | 0 <= i < width :: b[i] < 128
  {
    if width == 0 then [] else Digits(n / 128, width - 1) + [(n % 128) as Byte]
  }

  lemma {:induction false} DigitsDiffer(m: nat, n: nat, width: nat)
    requires m != n && m < Pow128(width) && n < Pow128(width)
    ensures Digits(m, width) != Digits(n, width)
  {
    if m / 128 != n / 128 {
      DigitsDiffer(m / 128, n / 128, width - 1);
      assert Digits(m, width)[..width - 1] == Digits(m / 128, width - 1);
      assert Digits(n, width)[..width - 1] == Digits(n / 128, width - 1);
    } else {
      assert Digits(m, width)[width - 1] == (m % 128) as Byte && Digits(n, width)[width - 1] == (n % 128) as Byte;
    }
  }

  lemma {:induction false} AsciiIsUtf8(b: Data)
    requires forall i | 0 <= i < |b| :: b[i] < 128
    ensures ValidUtf8(b)
  {
    if b != [] { AsciiIsUtf8(b[1..]); }
  }

  function Padding(n: nat): (b: Data)
    ensures |b| == n && forall i | 0 <= i < n :: b[i] == 97
  {
    if n == 0 then [] else Padding(n - 1) + [97]
  }

  function KeyBytes(i: nat): (key: Data)
    ensures |key| == 490
  {
    Padding(485) + Digits(i, 5)
  }

  lemma {:induction false} KeyIsText(i: nat)
    ensures IsText(KeyBytes(i))
  {
    var key := KeyBytes(i);
    assert key[0] == 97;
    AsciiIsUtf8(key);
  }

  /** Distinct key names of 490 bytes. */
  function KeyFor(i: nat): (key: Text)
    ensures |key| == 490
  {
    KeyIsText(i);
    KeyBytes(i)
  }

  lemma {:induction false} KeysDiffer(i: nat, j: nat)
    requires i != j && i < U32_LIMIT && j < U32_LIMIT
    ensures KeyFor(i) != KeyFor(j)
  {
    assert Pow128(5) == 128 * (128 * (128 * (128 * (128 * Pow128(0)))));
    DigitsDiffer(i, j, 5);
    assert KeyFor(i)[485..] == Digits(i, 5) && KeyFor(j)[485..] == Digits(j, 5);
  }

  const X: Text := [120]
  const BYTES: Bytes32 := Padding(32)
  const MD5: Bytes16 := Padding(16)
  const ONE_PACK := Container(Exact(X, None, 17, BYTES, X, BYTES), 0, 0, 17, BYTES, BYTES, X, 1)

  /** One upsert into a pack, and tombstones under key names of their own. */
  function KeyMutation(i: U32): Mutation {
    if i == 0 then
      Upsert(i, BYTES, KeyFor(i), X, 1, InPack(0, RecordPointer(0, 0)), 1, 0, None, None,
             EtagValue(MD5, 0), None)
    else Tombstone(i, BYTES, KeyFor(i), X, 1)
  }

  function KeyMutations(n: U32): (ms: seq<Mutation>)
    ensures |ms| == n && forall i | 0 <= i < n :: ms[i] == KeyMutation(i)
  {
    seq(n, i requires 0 <= i < n => KeyMutation(i))
  }

  function ManyKeys(n: U32): Run {
    Run(None, 1, None, [ONE_PACK], [], KeyMutations(n))
  }

  lemma {:induction false} PackIsOk(limits: Limits)
    requires limits == Roomy(1, 0x1_0000_0000)
    ensures ContainerOk(limits, ONE_PACK) && RecordStored(1) == 17
  {
    assert Segments(1, 65536) == 1;
  }

  lemma {:induction false} ManyMutationsOk(limits: Limits, n: U32, i: nat)
    requires limits == Roomy(1, 0x1_0000_0000) && i < n
    ensures KeyMutation(i).ordinal == i && MutationOk(limits, ManyKeys(n), KeyMutation(i)) && CompositeOk(KeyMutation(i))
  {
    PackIsOk(limits);
  }

  lemma {:induction false} ManyUsed(n: U32)
    requires n > 0
    ensures AllUsed(ManyKeys(n)) && ClaimsAgree(ManyKeys(n).mutations)
  {
    var ms := ManyKeys(n).mutations;
    assert ms[0] == KeyMutation(0);
    assert UsesContainer(ms[0], 0);
    forall i | 0 <= i < n ensures !UsesSelf(ms[i]) && (i > 0 ==> ClaimOf(ms[i]).None?) { assert ms[i] == KeyMutation(i); }
  }

  lemma {:induction false} ManyKeysOk(limits: Limits, n: U32)
    requires limits == Roomy(1, 0x1_0000_0000) && n > 0
    ensures Accepted(limits, ManyKeys(n))
  {
    var run := ManyKeys(n);
    PackIsOk(limits);
    ManyUsed(n);
    forall i | 0 <= i < n
      ensures run.mutations[i].ordinal == i && MutationOk(limits, run, run.mutations[i]) && CompositeOk(run.mutations[i])
    {
      assert run.mutations[i] == KeyMutation(i);
      ManyMutationsOk(limits, n, i);
    }
  }

  lemma {:induction false} KeyNamesDiffer(n: U32, i: nat, j: nat)
    requires i < j < n
    ensures MutationNames(KeyMutations(n))[i] != MutationNames(KeyMutations(n))[j]
  {
    assert KeyMutations(n)[i] == KeyMutation(i) && KeyMutations(n)[j] == KeyMutation(j);
    KeysDiffer(i, j);
  }

  lemma {:induction false} NameLength(n: U32, name: Text)
    requires Named(KeyMutations(n), name)
    ensures |name| == 490
  {
    var ms := KeyMutations(n);
    var m :| 0 <= m < |ms| && ms[m].keyId == name;
    assert ms[m] == KeyMutation(m);
  }

  /** Distinct key names are all in the table. */
  lemma {:induction false} ManyNames(n: U32, names: seq<Text>)
    requires IsNameTable(names, KeyMutations(n))
    ensures |names| == n
    ensures forall i | 0 <= i < |names| :: |names[i]| == 490
  {
    var ms := KeyMutations(n);
    NameTableSize(names, ms);
    var ids := MutationNames(ms);
    forall i, j | 0 <= i < j < |ids| ensures ids[i] != ids[j] { KeyNamesDiffer(n, i, j); }
    forall i | 0 <= i < |ids| ensures ids[i] in (set x | x in names) { assert ms[i].keyId in names; }
    DistinctCount(ids, set x | x in names);
    ElementCount(names);
    forall i | 0 <= i < |names| ensures |names[i]| == 490 {
      assert Named(ms, names[i]);
      NameLength(n, names[i]);
    }
  }

  /** The metadata of the run: its pack, then its key names. */
  lemma {:induction false} ManyMetas(n: U32, i: nat)
    requires i < |Join(TablesFor(ManyKeys(n)))|
    ensures var m := Join(TablesFor(ManyKeys(n)))[i];
            if i == 0 then m == Pack(ONE_PACK) else m.KeyName? && |m.id| == 490
    ensures |Join(TablesFor(ManyKeys(n)))| == n + 1
  {
    var t := TablesFor(ManyKeys(n));
    ManyNames(n, t.names);
    JoinAt(t, i);
  }

  lemma {:induction false} ManyMetaLength(n: U32, i: nat)
    requires i < |Join(TablesFor(ManyKeys(n)))|
    ensures var m := Join(TablesFor(ManyKeys(n)))[i];
            && ShortMeta(m) && |PutMeta(m)| >= 160 && (i > 0 ==> |PutMeta(m)| > 490)
  {
    ManyMetas(n, i);
    if i == 0 { ContainerLength(ONE_PACK); } else { KeyNameLength(Join(TablesFor(ManyKeys(n)))[i].id); }
  }

  lemma {:induction false} ManyOrdinary(limits: Limits, n: U32)
    requires limits == Roomy(1, 0x1_0000_0000) && n > 0
    ensures Ordinary(limits, ManyKeys(n)) && |ListsOf(ManyKeys(n)).metas| == n + 1
  {
    var run := ManyKeys(n);
    ManyKeysOk(limits, n);
    RunIsCountable(limits, run);
    ManyNames(n, Names(run.mutations));
    forall i | 0 <= i < n ensures |run.mutations[i].path| <= 64 { assert run.mutations[i] == KeyMutation(i); }
    forall m | m in Join(TablesFor(run)) ensures ShortMeta(m) {
      var i :| 0 <= i < |Join(TablesFor(run))| && Join(TablesFor(run))[i] == m;
      ManyMetaLength(n, i);
    }
    assert |Join(TablesFor(run))| == n + 1;
  }

  lemma {:induction false} TwoBodies(records: seq<Prepared>, a: nat)
    requires a + 1 < |records| && records[a].path.None? && records[a + 1].path.None?
    ensures PayloadLen(records, a, a + 2) >= |records[a].body| + |records[a + 1].body|
  {
    PayloadNext(records, a, a);
    PayloadNext(records, a, a + 1);
  }

  lemma {:induction false} ManyCrowded(limits: Limits, n: U32)
    requires limits == Roomy(1, 0x1_0000_0000) && n > 0 && Ordinary(limits, ManyKeys(n))
    requires MetasOk(limits, Join(TablesFor(ManyKeys(n))))
    ensures Crowded(MetaRecords(limits, Join(TablesFor(ManyKeys(n)))))
  {
    var metas := Join(TablesFor(ManyKeys(n)));
    var records := MetaRecords(limits, metas);
    forall a | 0 <= a < |records| - 1 ensures CrowdedAt(records, a) {
      ManyMetaLength(n, a);
      ManyMetaLength(n, a + 1);
      TwoBodies(records, a);
    }
  }

  /** A run of 2^32 - 1 key names and a pack is encoded into 2^32 metadata frames under limits that add
      up, and is then refused: the ordinal after the last one is not representable. */
  lemma {:induction false} FrameOrdinalsRunOut() returns (limits: Limits, run: Run, cut: Cut)
    ensures limits.maxContainers + limits.maxMutations + 1 < U64_LIMIT && FrameLimit(limits) < U64_LIMIT
    ensures Encoded(limits, run, cut) && |cut.metas| == U32_LIMIT
    ensures Decode(limits, AllFrames(cut)) == None
    ensures |PutBundle(AllFrames(cut))| <= limits.maxTotalBytes
    ensures DecodeBundled(limits, PutBundle(AllFrames(cut))) == None
  {
    limits, run := Roomy(1, 0x1_0000_0000), ManyKeys(0xFFFF_FFFF);
    ManyKeysOk(limits, 0xFFFF_FFFF);
    ManyOrdinary(limits, 0xFFFF_FFFF);
    OrdinaryFits(limits, run);
    ManyCrowded(limits, 0xFFFF_FFFF);
    cut := OrdinaryFramed(limits, run);
    RoundTrip(limits, run, cut);
    BundleAtMost(AllFrames(cut));
    BundleRoundTrip(limits, run, cut);
  }

  // ---------------------------------------------------------------- decoding what encoding refuses

  /** A composite checksum of one part beside the ETag of two parts. */
  const UNEVEN := Upsert(0, BYTES, X, X, 1, Empty, 0, 0, None, None, EtagValue(MD5, 2),
                         Some(ChecksumValue(Crc32, Composite(1), [0, 0, 0, 0])))

  const UNEVEN_RUN := Run(None, 1, None, [], [], [UNEVEN])

  lemma {:induction false} UnevenIsOk(limits: Limits)
    requires limits == Roomy(1, 1)
    ensures RunOk(limits, UNEVEN_RUN) && !CompositeOk(UNEVEN)
  {
    assert MutationOk(limits, UNEVEN_RUN, UNEVEN);
    assert !UsesSelf(UNEVEN) && ClaimOf(UNEVEN).None?;
  }

  lemma {:induction false} UnevenNames(names: seq<Text>)
    requires IsNameTable(names, [UNEVEN])
    ensures |names| <= 1 && forall i | 0 <= i < |names| :: names[i] == X
  {
    NameTableSize(names, [UNEVEN]);
    forall i | 0 <= i < |names| ensures names[i] == X { assert Named([UNEVEN], names[i]); }
  }

  lemma {:induction false} UnevenMetas(i: nat)
    requires i < |Join(TablesFor(UNEVEN_RUN))|
    ensures |Join(TablesFor(UNEVEN_RUN))| <= 1 && ShortMeta(Join(TablesFor(UNEVEN_RUN))[i])
  {
    var t := TablesFor(UNEVEN_RUN);
    UnevenNames(t.names);
    JoinAt(t, i);
    KeyNameLength(X);
  }

  lemma {:induction false} UnevenIsOrdinary(limits: Limits)
    requires limits == Roomy(1, 1)
    ensures Ordinary(limits, UNEVEN_RUN) && |Join(TablesFor(UNEVEN_RUN))| <= 1
  {
    UnevenIsOk(limits);
    RunIsCountable(limits, UNEVEN_RUN);
    UnevenNames(Names(UNEVEN_RUN.mutations));
    var metas := Join(TablesFor(UNEVEN_RUN));
    assert |metas| <= 1;
    forall m | m in metas ensures ShortMeta(m) {
      var i :| 0 <= i < |metas| && metas[i] == m;
      UnevenMetas(i);
    }
  }

  /** Frames that decode to a run which encoding refuses, because only encoding compares the part
      count of a composite checksum with the ETag. */
  lemma {:induction false} DecodedButNotAccepted() returns (limits: Limits, frames: seq<Data>)
    ensures Decode(limits, frames) == Some(UNEVEN_RUN) && Unencodable(limits, UNEVEN_RUN)
  {
    limits := Roomy(1, 1);
    UnevenIsOk(limits);
    UnevenIsOrdinary(limits);
    OrdinaryFits(limits, UNEVEN_RUN);
    var cut := OrdinaryFramed(limits, UNEVEN_RUN);
    SmallRunsRoundTrip(limits, UNEVEN_RUN, cut);
    frames := AllFrames(cut);
    assert !Accepted(limits, UNEVEN_RUN) by { assert UNEVEN_RUN.mutations[0] == UNEVEN; }
  }
}
