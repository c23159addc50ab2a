/** The frozen vectors of index runs: the exact bytes that the repository pins for whole encoded runs, and
    that the model gives for the same runs. */
module FrozenVectors {
  import opened Prelude
  import opened Types
  import opened Order
  import opened Wire
  import opened RunModel
  import opened RunRecords
  import opened Projections
  import opened RunFrames
  import opened Canonical
  import opened RunTables
  import opened RunScan
  import opened RunFinish
  import opened RunCodec
  import opened Packing
  import opened FramePacking
  import opened RunEncoder
  import opened RunEncoding
  import opened RunBundle
  import opened FrozenBytes
  import opened FrozenRecords

  /** The default limits. */
  const DEFAULT_LIMITS := Limits(
    7 * 1024 * 1024, 1024 * 1024 - 1024, 16 * 1024, 4096, 65536, 1024, 256, 1024, 1024)

  // ---------------------------------------------------------------- encodings

  ghost predicate EncodesBy(run: Run, cut: Cut, bytes: Data) {
    Encoded(DEFAULT_LIMITS, run, cut) && PutBundle(AllFrames(cut)) == bytes && |bytes| <= 1000 && |cut.metas| <= 3
  }

  /** Under the default limits the run is encoded into these few bytes. */
  ghost predicate EncodesTo(run: Run, bytes: Data) {
    exists cut :: EncodesBy(run, cut, bytes)
  }

  lemma {:induction false} EncodingDecodes(run: Run, bytes: Data)
    requires EncodesTo(run, bytes)
    ensures DecodeBundled(DEFAULT_LIMITS, bytes) == Some(run)
  {
    var cut :| EncodesBy(run, cut, bytes);
    BundleRoundTrip(DEFAULT_LIMITS, run, cut);
  }

  /** Whatever encodes the run gives these bytes. */
  lemma {:induction false} EncodingIsOnly(run: Run, bytes: Data, other: Cut)
    requires EncodesTo(run, bytes) && Encoded(DEFAULT_LIMITS, run, other)
    ensures PutBundle(AllFrames(other)) == bytes
  {
    var cut :| EncodesBy(run, cut, bytes);
    PackedListsUnique(DEFAULT_LIMITS, CommonFor(run), ListsOf(run), cut, other);
  }

  // ---------------------------------------------------------------- one frame for each role

  /** Records that fit one frame are packed into that frame. */
  lemma {:induction false} OneFrame(limits: Limits, plan: Plan, records: seq<Prepared>, bodies: seq<Data>, frame: Data)
    requires records != [] && |bodies| == |records| < U32_LIMIT
    requires forall i | 0 <= i < |records| :: BodyAt(records, 0, i) == bodies[i]
    requires forall i | 0 <= i < |records| :: |bodies[i]| <= RecordLimit(limits, plan.role, records[i].body)
    requires frame == PutHeader(HeaderFor(plan, 0, |records|), PutBodies(bodies, [])) && |frame| <= limits.maxFrameBytes
    ensures Packed(limits, plan, records, [|records|], [frame])
  {
    var n, ends := |records|, [|records|];
    FrameIs(records, bodies);
    FrameLenIs(plan, records, 0, 0, n);
    OneWritten(limits, plan, records, bodies);
    assert FrameFits(plan, records, limits.maxFrameBytes, ends, 0) && StoppedFull(plan, records, limits.maxFrameBytes, ends, 0);
  }

  lemma {:induction false} FrameIs(records: seq<Prepared>, bodies: seq<Data>)
    requires |bodies| == |records| && forall i | 0 <= i < |records| :: BodyAt(records, 0, i) == bodies[i]
    ensures FrameBodies(records, 0, |records|) == bodies
  {
    forall i | 0 <= i < |records| ensures FrameBodies(records, 0, |records|)[i] == bodies[i] {
      FrameBodyAt(records, 0, |records|, i);
    }
  }

  lemma {:induction false} OneWritten(limits: Limits, plan: Plan, records: seq<Prepared>, bodies: seq<Data>)
    requires |bodies| == |records| < U32_LIMIT
    requires forall i | 0 <= i < |records| :: BodyAt(records, 0, i) == bodies[i]
    requires forall i | 0 <= i < |records| :: |bodies[i]| <= RecordLimit(limits, plan.role, records[i].body)
    ensures WrittenAt(limits, plan, records, [|records|], [FrameData(plan, records, 0, 0, |records|)], 0)
  {
    forall i | 0 <= i < |records| ensures BodyWithin(limits, plan.role, records, 0, i) { }
  }

  lemma {:induction false} OneRecord(a: Data)
    ensures PutBodies([a], []) == PutVarint(|a|, a)
  {
    assert [a][1..] == [] && a + [] == a;
    assert PutBodies([a], []) == PutRecord(a, PutBodies([], []));
  }

  /** Two length-prefixed records. */
  lemma {:induction false} TwoRecords(a: Data, b: Data)
    ensures PutBodies([a, b], []) == PutVarint(|a|, a + PutVarint(|b|, b))
  {
    assert [a, b][1..] == [b] && [b][1..] == [];
    OneRecord(b);
  }

  lemma {:induction false} ThreeFrames(a: Data, b: Data, c: Data)
    ensures PutBundle([a, b, c]) == [3] + PutVarint(|a|, a + PutVarint(|b|, b + PutVarint(|c|, c)))
  {
    assert [a, b, c][1..] == [b, c];
    TwoRecords(b, c);
  }

  /** A length of two varint bytes. */
  lemma {:induction false} LongVarint(n: nat, tail: Data)
    requires 128 <= n < 16384
    ensures PutVarint(n, tail) == [(n % 128 + 128) as Byte, (n / 128) as Byte] + tail
  {
    assert PutVarint(n / 128, tail) == [(n / 128) as Byte] + tail;
  }

  // ---------------------------------------------------------------- the run with an external pack

  /** A run of one upsert into a pack and one deletion under the same key, as in the vector; names and
      digests are arbitrary except for their lengths and order. */
  ghost predicate PackedShape(run: Run, c: Container, up: Mutation, del: Mutation) {
    && run == Run(None, 9, None, [c], [], [up, del])
    && |c.exact.objectId| == 14 && c.exact.versionId.Some? && |c.exact.versionId.value| == 9
    && c.exact.storedLen == 4096 && |c.exact.envelopeId| == 19
    && c.sectionOrdinal == 3 && c.sectionOffset == 512 && c.sectionLen == 2048 && |c.contentKeyId| == 9 && c.recordCount == 8
    && up.Upsert? && up.ordinal == 0 && up.generation == 17 && up.payload == InPack(0, RecordPointer(7, 100))
    && up.contentLen == 1234 && up.modifiedAt == -55 && up.retention == Some(Retention(Compliance, 30))
    && up.legalHold == Some(On) && up.etag.parts == 0 && up.checksum == None
    && del.Tombstone? && del.ordinal == 1 && del.generation == 18 && del.keyId == up.keyId
    && |up.keyId| == 11 && |up.path| == 21 && |del.path| == 14
    && Less(up.blindKey, del.blindKey) && Less(del.path, up.path) && SharedPrefix(del.path, up.path) == 7
  }

  lemma {:induction false} PackedRunOk(run: Run, c: Container, up: Mutation, del: Mutation)
    requires PackedShape(run, c, up, del)
    ensures Accepted(DEFAULT_LIMITS, run)
  {
    RecordStoredIs(1234);
    assert UsesContainer(run.mutations[0], 0);
    assert ClaimOf(up).Some? && ClaimOf(del).None?;
    assert !UsesSelf(up) && !UsesSelf(del);
  }

  lemma {:induction false} OneName(ms: seq<Mutation>, name: Text)
    requires ms != [] && forall i | 0 <= i < |ms| :: ms[i].keyId == name
    ensures Names(ms) == [name]
  {
    assert ms[0].keyId == name;
    assert IsNameTable([name], ms);
    NameTableUnique(Names(ms), [name], ms);
  }

  /** The canonical lists of two mutations that the two projections order differently. */
  lemma {:induction false} TwoMutations(names: seq<Text>, first: Mutation, second: Mutation)
    requires |names| < U32_LIMIT && first.ordinal == 0 && second.ordinal == 1
    requires Less(first.blindKey, second.blindKey) && Less(second.path, first.path)
    ensures NsRecords(names, [first, second]) == [NsOf(names, first), NsOf(names, second)]
    ensures LsRecords([first, second]) == [LsOf(second), LsOf(first)]
  {
    var ms := [first, second];
    var nss, lss := [NsOf(names, first), NsOf(names, second)], [LsOf(second), LsOf(first)];
    assert nss[0].ordinal == 0 && nss[1].ordinal == 1 && lss[0].ordinal == 1 && lss[1].ordinal == 0;
    assert IsNsList(names, ms, nss);
    assert IsLsList(ms, lss);
    NsListUnique(names, ms, NsRecords(names, ms), nss);
    LsListUnique(ms, LsRecords(ms), lss);
  }
  ghost function PackRecord(c: Container): Data
    requires c.exact.versionId.Some?
  {
    [0, 14] + (c.exact.objectId + ([1, 9] + (c.exact.versionId.value + ([0, 0, 0, 0, 0, 0, 0x10, 0] +
    (c.exact.digest + ([19] + (c.exact.envelopeId + (c.exact.envelopeDigest + ([3] + ([0, 0, 0, 0, 0, 0, 2,
    0] + ([0, 0, 0, 0, 0, 0, 8, 0] + (c.packId + (c.attemptId + ([9] + (c.contentKeyId +
    ([8]))))))))))))))))
  }

  /** The metadata frame: the pack and the key name. */
  ghost function PackedMetasOf(pack: Data, name: Text): Data {
    FRAME_DOMAIN + ([0, 10, 0, 0] + ([0, 0, 0, 0, 0, 0, 0, 9] + ([2, 2, 2] + ([0, 1] + ([0xd3, 0x01] + (pack
    + ([13] + ([3, 11] + (name)))))))))
  }

  ghost function PackedMetas(c: Container, name: Text): Data
    requires c.exact.versionId.Some?
  {
    PackedMetasOf(PackRecord(c), name)
  }

  ghost function PackedUpsert(up: Mutation): Data
    requires up.Upsert?
  {
    [0, 0] + (up.blindKey + ([0, 17, 2, 0, 7, 100, 0xd2, 0x09] + ([0xff, 0xff, 0xff, 0xff, 0xff, 0xff, 0xff,
    0xc9] + ([1, 2, 30, 2, 0, 0, 0, 0, 0] + (up.etag.digest)))))
  }

  /** The namespace frame: by blind key, the upsert and the deletion. */
  ghost function PackedNss(up: Mutation, del: Mutation): Data
    requires up.Upsert?
  {
    FRAME_DOMAIN + ([0, 10, 1, 0] + ([0, 0, 0, 0, 0, 0, 0, 9] + ([2, 2, 2] + ([0x4b] + (PackedUpsert(up) +
    ([0x24] + ([1, 1] + (del.blindKey + ([0, 18])))))))))
  }

  /** The listing frame: by path, the deletion and the upsert, which shares seven bytes of it. */
  ghost function PackedLss(up: Mutation, del: Mutation): Data
    requires |up.path| == 21
  {
    FRAME_DOMAIN + ([0, 10, 2, 0] + ([0, 0, 0, 0, 0, 0, 0, 9] + ([2, 2, 2] + ([0x13] + ([0, 14] + (del.path
    + ([1, 1, 18] + ([0x1d] + ([7, 14] + (up.path[7..] + ([0, 0, 17, 0xd2, 0x09] + ([0xff, 0xff, 0xff, 0xff,
    0xff, 0xff, 0xff, 0xc9]))))))))))))
  }

  lemma {:induction false} PackedMetasFrame(name: Text, plan: Plan, a: Data, b: Data)
    requires plan == Plan(Metadata(None, 1), 9, 2, 2)
    requires |a| == 0xd3 && b == [3, 11] + name && |b| == 13
    ensures PutHeader(HeaderFor(plan, 0, 2), PutBodies([a, b], [])) == PackedMetasOf(a, name)
    ensures |PackedMetasOf(a, name)| == 277
  {
    PackedMetasBodies(a, b);
    HeaderBytes(HeaderFor(plan, 0, 2), PutBodies([a, b], []));
    FrameDomain();
  }

  lemma {:induction false} PackedMetasBodies(a: Data, b: Data)
    requires |a| == 0xd3 && |b| == 13
    ensures PutBodies([a, b], []) == [0xd3, 0x01] + (a + ([13] + b))
  {
    TwoRecords(a, b);
    LongVarint(0xd3, a + PutVarint(13, b));
  }

  lemma {:induction false} PackedMetasOk(c: Container, name: Text)
    requires ContainerOk(DEFAULT_LIMITS, c) && |name| == 11 && |PutMeta(Pack(c))| == 0xd3
    ensures MetasOk(DEFAULT_LIMITS, [Pack(c), KeyName(name)])
  {
    KeyNameBytes(name);
  }

  /** Metadata records that fit one frame. */
  lemma {:induction false} MetasPacked(plan: Plan, metas: seq<Meta>, bodies: seq<Data>, frame: Data)
    requires plan.role.Metadata? && metas != [] && |bodies| == |metas| < 128 && MetasOk(DEFAULT_LIMITS, metas)
    requires forall i | 0 <= i < |metas| :: MetaRecords(DEFAULT_LIMITS, metas)[i].body == bodies[i] && |bodies[i]| <= 16384
    requires frame == PutHeader(HeaderFor(plan, 0, |metas|), PutBodies(bodies, [])) && |frame| <= 1000
    ensures Packed(DEFAULT_LIMITS, plan, MetaRecords(DEFAULT_LIMITS, metas), [|metas|], [frame])
  {
    var records := MetaRecords(DEFAULT_LIMITS, metas);
    forall i | 0 <= i < |records| ensures BodyAt(records, 0, i) == bodies[i] { assert records[i].path == None; }
    OneFrame(DEFAULT_LIMITS, plan, records, bodies, frame);
  }

  lemma {:induction false} PackedMetasPacked(c: Container, name: Text, plan: Plan)
    requires |c.exact.objectId| == 14 && c.exact.versionId.Some? && |c.exact.versionId.value| == 9
    requires c.exact.storedLen == 4096 && |c.exact.envelopeId| == 19
    requires c.sectionOrdinal == 3 && c.sectionOffset == 512 && c.sectionLen == 2048 && |c.contentKeyId| == 9 && c.recordCount == 8
    requires |name| == 11 && plan == Plan(Metadata(None, 1), 9, 2, 2)
    ensures MetasOk(DEFAULT_LIMITS, [Pack(c), KeyName(name)])
    ensures Packed(DEFAULT_LIMITS, plan, MetaRecords(DEFAULT_LIMITS, [Pack(c), KeyName(name)]), [2], [PackedMetas(c, name)])
    ensures |PackedMetas(c, name)| == 277
  {
    PackBytes(c);
    KeyNameBytes(name);
    PackedMetasOk(c, name);
    PackedMetasFrame(name, plan, PutMeta(Pack(c)), PutMeta(KeyName(name)));
    MetasPacked(plan, [Pack(c), KeyName(name)], [PutMeta(Pack(c)), PutMeta(KeyName(name))], PackedMetas(c, name));
  }

  lemma {:induction false} PackedNssPacked(names: seq<Text>, up: Mutation, del: Mutation, plan: Plan)
    requires up.Upsert? && up.ordinal == 0 && up.generation == 17 && up.payload == InPack(0, RecordPointer(7, 100))
    requires up.contentLen == 1234 && up.modifiedAt == -55 && up.retention == Some(Retention(Compliance, 30))
    requires up.legalHold == Some(On) && up.etag.parts == 0 && up.checksum == None
    requires del.Tombstone? && del.ordinal == 1 && del.generation == 18 && names == [up.keyId] && del.keyId == up.keyId
    requires plan == Plan(Namespace, 9, 2, 2)
    ensures var nss := [NsOf(names, up), NsOf(names, del)];
            && BodiesOk(NsBodies(nss), DEFAULT_LIMITS.maxRecordBytes)
            && Packed(DEFAULT_LIMITS, plan, NamespaceRecords(nss), [2], [PackedNss(up, del)])
    ensures |PackedNss(up, del)| == 161
  {
    var nss := [NsOf(names, up), NsOf(names, del)];
    PackedUpsertBytes(nss[0]);
    TombstoneBytes(nss[1]);
    PackedNssFrame(up, del, plan, PutNs(nss[0]), PutNs(nss[1]));
    OneFrame(DEFAULT_LIMITS, plan, NamespaceRecords(nss), [PutNs(nss[0]), PutNs(nss[1])], PackedNss(up, del));
  }

  lemma {:induction false} PackedNssFrame(up: Mutation, del: Mutation, plan: Plan, a: Data, b: Data)
    requires up.Upsert? && plan == Plan(Namespace, 9, 2, 2)
    requires a == PackedUpsert(up) && |a| == 0x4b && b == [1, 1] + (del.blindKey + [0, 18]) && |b| == 0x24
    ensures PutHeader(HeaderFor(plan, 0, 2), PutBodies([a, b], [])) == PackedNss(up, del)
    ensures |PackedNss(up, del)| == 161
  {
    TwoRecords(a, b);
    HeaderBytes(HeaderFor(plan, 0, 2), PutBodies([a, b], []));
    FrameDomain();
    assert [] + PutBodies([a, b], []) == PutBodies([a, b], []);
  }

  lemma {:induction false} PackedLssPacked(up: Mutation, del: Mutation, plan: Plan)
    requires up.Upsert? && up.ordinal == 0 && up.generation == 17 && up.contentLen == 1234 && up.modifiedAt == -55
    requires del.Tombstone? && del.ordinal == 1 && del.generation == 18
    requires |up.path| == 21 && |del.path| == 14 && SharedPrefix(del.path, up.path) == 7 && plan == Plan(Listing, 9, 2, 2)
    ensures var lss := [LsOf(del), LsOf(up)];
            && ListingFits(DEFAULT_LIMITS, lss)
            && Packed(DEFAULT_LIMITS, plan, ListingRecords(lss), [2], [PackedLss(up, del)])
    ensures |PackedLss(up, del)| == 98
  {
    var lss := [LsOf(del), LsOf(up)];
    var records, bodies := ListingRecords(lss), [PutLs([], lss[0]), PutLs(del.path, lss[1])];
    DeletedBytes(lss[0]);
    ChunkBytes(del.path, lss[1]);
    PackedLssFrame(up, del, plan, bodies[0], bodies[1]);
    BodyShorter([], lss[0]);
    BodyShorter(del.path, lss[1]);
    OneFrame(DEFAULT_LIMITS, plan, records, bodies, PackedLss(up, del));
  }

  lemma {:induction false} BodyShorter(previous: Data, r: LsRecord)
    ensures |LsBody(r)| <= |PutLs(previous, r)|
  {
    var n := SharedPrefix(previous, r.path);
    var rest := r.path[n..] + LsBody(r);
    VarintLength(|r.path| - n, rest);
    VarintLength(n, PutVarint(|r.path| - n, rest));
  }

  lemma {:induction false} PackedLssFrame(up: Mutation, del: Mutation, plan: Plan, a: Data, b: Data)
    requires plan == Plan(Listing, 9, 2, 2) && |up.path| == 21
    requires a == [0, 14] + (del.path + [1, 1, 18]) && |a| == 0x13
    requires b == [7, 14] + (up.path[7..] + ([0, 0, 17, 0xd2, 0x09] + [0xff, 0xff, 0xff, 0xff, 0xff, 0xff, 0xff, 0xc9])) && |b| == 0x1d
    ensures PutHeader(HeaderFor(plan, 0, 2), PutBodies([a, b], [])) == PackedLss(up, del)
    ensures |PackedLss(up, del)| == 98
  {
    TwoRecords(a, b);
    HeaderBytes(HeaderFor(plan, 0, 2), PutBodies([a, b], []));
    FrameDomain();
    assert [] + PutBodies([a, b], []) == PutBodies([a, b], []);
    Grouped([0, 14], del.path, [1, 1, 18], [0x1d] + b);
  }

  lemma {:induction false} Grouped(a: Data, b: Data, c: Data, d: Data)
    ensures (a + (b + c)) + d == a + (b + (c + d))
  {
  }

  // ---------------------------------------------------------------- the whole run with an external pack

  lemma {:induction false} PackedRunLists(run: Run, c: Container, up: Mutation, del: Mutation)
    requires PackedShape(run, c, up, del)
    ensures Countable(run) && CommonFor(run) == Common(9, 2, None, 1, 2)
    ensures var names := [up.keyId];
            ListsOf(run) == Lists([Pack(c), KeyName(up.keyId)], [NsOf(names, up), NsOf(names, del)], [LsOf(del), LsOf(up)])
  {
    OneName(run.mutations, up.keyId);
    TwoMutations([up.keyId], up, del);
    assert Join(TablesFor(run)) == [Pack(c), KeyName(up.keyId)];
  }

  /** The frames of such a run. */
  ghost function PackedCut(c: Container, up: Mutation, del: Mutation): Cut
    requires c.exact.versionId.Some? && up.Upsert? && |up.path| == 21
  {
    Cut([2], [2], [2], [PackedMetas(c, up.keyId)], [PackedNss(up, del)], [PackedLss(up, del)])
  }

  lemma {:induction false} PackedRunEncoded(run: Run, c: Container, up: Mutation, del: Mutation)
    requires PackedShape(run, c, up, del)
    ensures Encoded(DEFAULT_LIMITS, run, PackedCut(c, up, del))
    ensures PutBundle(AllFrames(PackedCut(c, up, del)))
         == [3, 0x95, 0x02] + (PackedMetas(c, up.keyId) + ([0xa1, 0x01] + (PackedNss(up, del) + ([0x62] + PackedLss(up, del)))))
    ensures |PutBundle(AllFrames(PackedCut(c, up, del)))| == 542
  {
    var cut := PackedCut(c, up, del);
    PackedRunOk(run, c, up, del);
    PackedRunLists(run, c, up, del);
    PackedMetasPacked(c, up.keyId, Plan(Metadata(None, 1), 9, 2, 2));
    PackedNssPacked([up.keyId], up, del, Plan(Namespace, 9, 2, 2));
    PackedLssPacked(up, del, Plan(Listing, 9, 2, 2));
    BundleOf(cut.metas[0], cut.nss[0], cut.lss[0]);
    ThreeTotal(cut.metas[0], cut.nss[0], cut.lss[0]);
    assert AllFrames(cut) == [cut.metas[0], cut.nss[0], cut.lss[0]];
  }

  lemma {:induction false} ThreeTotal(a: Data, b: Data, c: Data)
    ensures TotalBytes([a, b, c]) == |a| + |b| + |c|
  {
    assert [a, b, c][..2] == [a, b] && [a, b][..1] == [a] && [a][..0] == [];
    assert TotalBytes([a]) == TotalBytes([]) + |a|;
    assert TotalBytes([a, b]) == TotalBytes([a]) + |b|;
  }

  lemma {:induction false} BundleOf(a: Data, b: Data, c: Data)
    requires |a| == 277 && |b| == 161 && |c| == 98
    ensures PutBundle([a, b, c]) == [3, 0x95, 0x02] + (a + ([0xa1, 0x01] + (b + ([0x62] + c))))
  {
    ThreeFrames(a, b, c);
    LongVarint(161, b + PutVarint(98, c));
    LongVarint(277, a + PutVarint(161, b + PutVarint(98, c)));
  }

  const PACK_A: Container := Container(
    Exact(Name("objects/pack-a"), Some(Name("version-3")), 4096, Fill(0x22, 32), Name("keyrings/historical"), Fill(0x23, 32)),
    3, 512, 2048, Fill(0x11, 32), Fill(0xa3, 32), Name("content-1"), 8)

  const CHUNK: Mutation := Upsert(
    0, Fill(0x33, 32), NAMESPACE_1, CHUNK_PATH, 17, InPack(0, RecordPointer(7, 100)), 1234, -55,
    Some(Retention(Compliance, 30)), Some(On), EtagValue(Fill(0x55, 16), 0), None)

  const DELETION: Mutation := Tombstone(1, Fill(0x44, 32), NAMESPACE_1, DELETED_PATH, 18)

  const EXTERNAL_PACK_RUN: Run := Run(None, 9, None, [PACK_A], [], [CHUNK, DELETION])

  lemma {:induction false} FrozenPaths()
    ensures |CHUNK_PATH| == 21 && |DELETED_PATH| == 14
    ensures Less(DELETED_PATH, CHUNK_PATH) && SharedPrefix(DELETED_PATH, CHUNK_PATH) == 7
  {
    TenantPaths();
    LessAt(DELETED_PATH, CHUNK_PATH, 7);
    SharedPrefixUnique(DELETED_PATH, CHUNK_PATH, 7);
  }

  lemma {:induction false} FrozenKeys()
    ensures Less(CHUNK.blindKey, DELETION.blindKey)
  {
    LessAt(CHUNK.blindKey, DELETION.blindKey, 0);
  }

  lemma {:induction false} ExternalPackShape()
    ensures PackedShape(EXTERNAL_PACK_RUN, PACK_A, CHUNK, DELETION)
  {
    PathLengths();
    FrozenPaths();
    FrozenKeys();
  }

  /** The frozen bytes. */
  ghost function ExternalPackBytes(c: Container, up: Mutation, del: Mutation): Data
    requires c.exact.versionId.Some? && up.Upsert? && |up.path| == 21
  {
    [3, 0x95, 0x02] + (PackedMetas(c, up.keyId) + ([0xa1, 0x01] + (PackedNss(up, del) + ([0x62] + PackedLss(up, del)))))
  }

  lemma {:induction false} PackedRunFrozen(run: Run, c: Container, up: Mutation, del: Mutation)
    requires PackedShape(run, c, up, del)
    ensures EncodesTo(run, ExternalPackBytes(c, up, del))
  {
    PackedRunEncoded(run, c, up, del);
    assert EncodesBy(run, PackedCut(c, up, del), ExternalPackBytes(c, up, del));
  }

  /** The frozen run with an external pack is encoded into exactly the frozen bytes, which decode to it. */
  lemma {:induction false} ExternalPackVector()
    ensures PackedShape(EXTERNAL_PACK_RUN, PACK_A, CHUNK, DELETION)
    ensures EncodesTo(EXTERNAL_PACK_RUN, ExternalPackBytes(PACK_A, CHUNK, DELETION))
    ensures DecodeBundled(DEFAULT_LIMITS, ExternalPackBytes(PACK_A, CHUNK, DELETION)) == Some(EXTERNAL_PACK_RUN)
  {
    ExternalPackShape();
    PackedRunFrozen(EXTERNAL_PACK_RUN, PACK_A, CHUNK, DELETION);
    EncodingDecodes(EXTERNAL_PACK_RUN, ExternalPackBytes(PACK_A, CHUNK, DELETION));
  }

}
