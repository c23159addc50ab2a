/** The frozen vector of a run that completes a multipart upload into a standalone stream. */
module FrozenCompletion {
  import opened Prelude
  import opened Types
  import opened Wire
  import PayloadLayout
  import opened RunModel
  import opened RunRecords
  import opened Projections
  import opened RunFrames
  import opened Canonical
  import opened RunTables
  import opened RunScan
  import opened RunFinish
  import opened RunCodec
  import opened Packing
  import opened FramePacking
  import opened RunEncoder
  import opened RunEncoding
  import opened RunBundle
  import opened FrozenBytes
  import opened FrozenRecords
  import opened FrozenVectors

  /** A stream of one part, as in the vector; names and digests are arbitrary except for their lengths. */
  ghost predicate StreamShape(s: Stream) {
    && |s.exact.objectId| == 26 && s.exact.versionId.Some? && |s.exact.versionId.value| == 22
    && s.exact.storedLen == 131137 && |s.exact.envelopeId| == 30
    && s.layout.chunkSize == 65536 && s.layout.plaintextLen == 131089 && |s.layout.keyId| == 16
    && |s.layout.parts| == 1 && s.layout.parts[0].number == 1 && s.layout.parts[0].plaintextLen == 131089
  }

  ghost predicate UpsertShape(up: Mutation) {
    && up.Upsert? && up.ordinal == 0 && up.generation == 17 && up.payload == InStream(0)
    && up.contentLen == 131089 && up.modifiedAt == -55 && up.retention == Some(Retention(Compliance, 30))
    && up.legalHold == Some(On) && up.etag.parts == 1
    && up.checksum.Some? && up.checksum.value.algorithm == Crc32c && up.checksum.value.kind == Composite(1)
    && |up.keyId| == 11 && |up.path| == 21
  }

  /** The upsert with the receipt that covers it. */
  ghost predicate CompletionShape(run: Run, s: Stream, up: Mutation, r: Receipt) {
    && run == Run(Some(r), 9, None, [], [s], [up])
    && StreamShape(s) && UpsertShape(up)
    && r.sequence == 12 && r.key == up.path && r.contentLen == up.contentLen && r.etag == up.etag && r.checksum == up.checksum
  }

  lemma {:induction false} StreamIsOk(s: Stream)
    requires StreamShape(s)
    ensures StreamOk(DEFAULT_LIMITS, s)
  {
    var l := s.layout;
    PayloadLayout.SegmentsIsCeiling(131089, 65536);
    assert PayloadLayout.PlainTo(l, 1) == PayloadLayout.PlainTo(l, 0) + 131089;
    assert PayloadLayout.StoredTo(l, 1) == PayloadLayout.StoredTo(l, 0) + 131089 + 16 * PayloadLayout.Segments(131089, 65536);
  }

  lemma {:induction false} CompletionRunOk(run: Run, s: Stream, up: Mutation, r: Receipt)
    requires CompletionShape(run, s, up, r)
    ensures Accepted(DEFAULT_LIMITS, run)
  {
    StreamIsOk(s);
    assert UsesStream(run.mutations[0], 0);
    assert ClaimOf(up).None?;
    assert ReceiptCovers(r, run.mutations, 0);
  }

  ghost function StreamRecord(s: Stream): Data
    requires StreamShape(s)
  {
    [2, 26] + (s.exact.objectId + ([1, 22] + (s.exact.versionId.value + ([0, 0, 0, 0, 0, 2, 0, 0x41] +
    (s.exact.digest + ([30] + (s.exact.envelopeId + (s.exact.envelopeDigest + ([0x80, 0x80, 0x04, 0x91, 0x80,
    0x08, 16] + (s.layout.keyId + (s.layout.carrierId + ([1, 1] + (s.layout.parts[0].attemptId + ([0x91, 0x80,
    0x08]))))))))))))))
  }

  ghost function ReceiptRecord(r: Receipt): Data
    requires r.checksum.Some?
  {
    [4, 0x88, 0x58, 0x20] + (r.uploadId + ([0x0c, 0x58, 0x20] + (r.selectionDigest + ([0x58, 0x20] +
    (r.attemptsDigest + ([0x75] + (r.key + ([0x1a, 0, 2, 0, 0x11, 0x54, 0, 0, 0, 1] + (r.etag.digest + ([0x48,
    0x83, 0x01, 0x01, 0x44] + (r.checksum.value.digest)))))))))))
  }

  /** The metadata frame: the stream, the key name and the receipt. */
  ghost function CompletionMetas(stream: Data, name: Text, receipt: Data): Data {
    FRAME_DOMAIN + ([0, 10, 0, 0] + ([0, 0, 0, 0, 0, 0, 0, 9] + ([1, 3, 3] + ([0, 1] + ([0xf7, 0x01] + (stream +
    ([13] + ([3, 11] + (name + ([0xa2, 0x01] + (receipt)))))))))))
  }

  ghost function StreamedUpsert(up: Mutation): Data
    requires UpsertShape(up)
  {
    [0, 0] + (up.blindKey + ([0, 17, 5, 0, 0x91, 0x80, 0x08] + ([0xff, 0xff, 0xff, 0xff, 0xff, 0xff, 0xff, 0xc9]
    + ([1, 2, 30, 2, 8, 0x83, 0x01, 0x01, 0x44] + (up.checksum.value.digest + ([0, 0, 0, 1] +
    (up.etag.digest)))))))
  }

  ghost function CompletionNss(up: Mutation): Data
    requires UpsertShape(up)
  {
    FRAME_DOMAIN + ([0, 10, 1, 0] + ([0, 0, 0, 0, 0, 0, 0, 9] + ([1, 1, 1] + ([0x52] + (StreamedUpsert(up))))))
  }

  ghost function CompletionLss(up: Mutation): Data {
    FRAME_DOMAIN + ([0, 10, 2, 0] + ([0, 0, 0, 0, 0, 0, 0, 9] + ([1, 1, 1] + ([0x25] + ([0, 21] + (up.path +
    ([0, 0, 17, 0x91, 0x80, 0x08] + ([0xff, 0xff, 0xff, 0xff, 0xff, 0xff, 0xff, 0xc9]))))))))
  }

  lemma {:induction false} ThreeMetas(a: Data, b: Data, c: Data)
    requires |a| == 0xf7 && |b| == 13 && |c| == 0xa2
    ensures PutBodies([a, b, c], []) == [0xf7, 0x01] + (a + ([13] + (b + ([0xa2, 0x01] + c))))
  {
    assert [a, b, c][1..] == [b, c];
    TwoRecords(b, c);
    LongVarint(0xa2, c);
    LongVarint(0xf7, a + PutBodies([b, c], []));
  }

  lemma {:induction false} CompletionMetasFrame(name: Text, plan: Plan, a: Data, b: Data, c: Data)
    requires plan == Plan(Metadata(None, 1), 9, 1, 3)
    requires |a| == 0xf7 && b == [3, 11] + name && |b| == 13 && |c| == 0xa2
    ensures PutHeader(HeaderFor(plan, 0, 3), PutBodies([a, b, c], [])) == CompletionMetas(a, name, c)
    ensures |CompletionMetas(a, name, c)| == 477
  {
    ThreeMetas(a, b, c);
    HeaderBytes(HeaderFor(plan, 0, 3), PutBodies([a, b, c], []));
    FrameDomain();
    NameBetween(name, [0xa2, 0x01] + c);
  }

  lemma {:induction false} NameBetween(name: Data, tail: Data)
    ensures ([3, 11] + name) + tail == [3, 11] + (name + tail)
  {
  }

  lemma {:induction false} CompletionMetasOk(s: Stream, name: Text, r: Receipt)
    requires StreamOk(DEFAULT_LIMITS, s) && |name| == 11 && ValidReceipt(r)
    requires |PutMeta(Streamed(s))| == 0xf7 && |PutMeta(Completion(r))| == 0xa2
    ensures MetasOk(DEFAULT_LIMITS, [Streamed(s), KeyName(name), Completion(r)])
  {
    KeyNameBytes(name);
  }

  lemma {:induction false} CompletionMetasPacked(run: Run, s: Stream, up: Mutation, r: Receipt, plan: Plan)
    requires CompletionShape(run, s, up, r) && plan == Plan(Metadata(None, 1), 9, 1, 3)
    ensures var metas := [Streamed(s), KeyName(up.keyId), Completion(r)];
            && MetasOk(DEFAULT_LIMITS, metas)
            && Packed(DEFAULT_LIMITS, plan, MetaRecords(DEFAULT_LIMITS, metas), [3],
                      [CompletionMetas(StreamRecord(s), up.keyId, ReceiptRecord(r))])
    ensures |CompletionMetas(StreamRecord(s), up.keyId, ReceiptRecord(r))| == 477
  {
    var metas := [Streamed(s), KeyName(up.keyId), Completion(r)];
    StreamIsOk(s);
    StreamBytes(s);
    KeyNameBytes(up.keyId);
    ReceiptBytes(r);
    CompletionMetasOk(s, up.keyId, r);
    var bodies := [PutMeta(metas[0]), PutMeta(metas[1]), PutMeta(metas[2])];
    CompletionMetasFrame(up.keyId, plan, bodies[0], bodies[1], bodies[2]);
    MetasPacked(plan, metas, bodies, CompletionMetas(StreamRecord(s), up.keyId, ReceiptRecord(r)));
  }

  lemma {:induction false} CompletionNssFrame(up: Mutation, plan: Plan, a: Data)
    requires UpsertShape(up) && plan == Plan(Namespace, 9, 1, 1) && a == StreamedUpsert(up) && |a| == 0x52
    ensures PutHeader(HeaderFor(plan, 0, 1), PutBodies([a], [])) == CompletionNss(up)
    ensures |CompletionNss(up)| == 131
  {
    OneRecord(a);
    HeaderBytes(HeaderFor(plan, 0, 1), PutBodies([a], []));
    FrameDomain();
    assert [] + PutBodies([a], []) == PutBodies([a], []);
  }

  lemma {:induction false} CompletionNssPacked(names: seq<Text>, up: Mutation, plan: Plan)
    requires UpsertShape(up) && names == [up.keyId] && plan == Plan(Namespace, 9, 1, 1)
    ensures var nss := [NsOf(names, up)];
            && BodiesOk(NsBodies(nss), DEFAULT_LIMITS.maxRecordBytes)
            && Packed(DEFAULT_LIMITS, plan, NamespaceRecords(nss), [1], [CompletionNss(up)])
    ensures |CompletionNss(up)| == 131
  {
    var nss := [NsOf(names, up)];
    StreamedUpsertBytes(nss[0]);
    CompletionNssFrame(up, plan, PutNs(nss[0]));
    OneFrame(DEFAULT_LIMITS, plan, NamespaceRecords(nss), [PutNs(nss[0])], CompletionNss(up));
  }

  lemma {:induction false} CompletionLssFrame(up: Mutation, plan: Plan, a: Data)
    requires |up.path| == 21 && plan == Plan(Listing, 9, 1, 1) && |a| == 0x25
    requires a == [0, 21] + (up.path + ([0, 0, 17, 0x91, 0x80, 0x08] + [0xff, 0xff, 0xff, 0xff, 0xff, 0xff, 0xff, 0xc9]))
    ensures PutHeader(HeaderFor(plan, 0, 1), PutBodies([a], [])) == CompletionLss(up)
    ensures |CompletionLss(up)| == 86
  {
    OneRecord(a);
    HeaderBytes(HeaderFor(plan, 0, 1), PutBodies([a], []));
    FrameDomain();
    assert [] + PutBodies([a], []) == PutBodies([a], []);
  }

  lemma {:induction false} CompletionLssPacked(up: Mutation, plan: Plan)
    requires UpsertShape(up) && plan == Plan(Listing, 9, 1, 1)
    ensures var lss := [LsOf(up)];
            && ListingFits(DEFAULT_LIMITS, lss)
            && Packed(DEFAULT_LIMITS, plan, ListingRecords(lss), [1], [CompletionLss(up)])
    ensures |CompletionLss(up)| == 86
  {
    var lss := [LsOf(up)];
    var records, bodies := ListingRecords(lss), [PutLs([], lss[0])];
    StreamedChunkBytes(lss[0]);
    CompletionLssFrame(up, plan, bodies[0]);
    BodyShorter([], lss[0]);
    OneFrame(DEFAULT_LIMITS, plan, records, bodies, CompletionLss(up));
  }

  lemma {:induction false} OneMutation(names: seq<Text>, m: Mutation)
    requires |names| < U32_LIMIT && m.ordinal == 0
    ensures NsRecords(names, [m]) == [NsOf(names, m)] && LsRecords([m]) == [LsOf(m)]
  {
    assert NsRecords(names, [m])[0].ordinal == 0 && LsRecords([m])[0].ordinal == 0 by {
      assert NsPlaced(names, [m], NsRecords(names, [m])[0]);
      assert LsPlaced([m], LsRecords([m])[0]);
    }
  }

  lemma {:induction false} CompletionRunLists(run: Run, s: Stream, up: Mutation, r: Receipt)
    requires CompletionShape(run, s, up, r)
    ensures Countable(run) && CommonFor(run) == Common(9, 1, None, 1, 3)
    ensures var names := [up.keyId];
            ListsOf(run) == Lists([Streamed(s), KeyName(up.keyId), Completion(r)], [NsOf(names, up)], [LsOf(up)])
  {
    OneName(run.mutations, up.keyId);
    OneMutation([up.keyId], up);
    assert Join(TablesFor(run)) == [Streamed(s), KeyName(up.keyId), Completion(r)];
  }

  /** The frames of such a run. */
  ghost function CompletionCut(s: Stream, up: Mutation, r: Receipt): Cut
    requires StreamShape(s) && UpsertShape(up) && r.checksum.Some?
  {
    Cut([3], [1], [1], [CompletionMetas(StreamRecord(s), up.keyId, ReceiptRecord(r))], [CompletionNss(up)], [CompletionLss(up)])
  }

  /** The bytes of such a run. */
  ghost function CompletionBytes(s: Stream, up: Mutation, r: Receipt): Data
    requires StreamShape(s) && UpsertShape(up) && r.checksum.Some?
  {
    [3, 0xdd, 0x03] + (CompletionMetas(StreamRecord(s), up.keyId, ReceiptRecord(r))
      + ([0x83, 0x01] + (CompletionNss(up) + ([0x56] + CompletionLss(up)))))
  }

  lemma {:induction false} CompletionBundle(a: Data, b: Data, c: Data)
    requires |a| == 477 && |b| == 131 && |c| == 86
    ensures PutBundle([a, b, c]) == [3, 0xdd, 0x03] + (a + ([0x83, 0x01] + (b + ([0x56] + c))))
  {
    ThreeFrames(a, b, c);
    LongVarint(131, b + PutVarint(86, c));
    LongVarint(477, a + PutVarint(131, b + PutVarint(86, c)));
  }

  lemma {:induction false} CompletionRunEncoded(run: Run, s: Stream, up: Mutation, r: Receipt)
    requires CompletionShape(run, s, up, r)
    ensures Encoded(DEFAULT_LIMITS, run, CompletionCut(s, up, r))
    ensures PutBundle(AllFrames(CompletionCut(s, up, r))) == CompletionBytes(s, up, r) && |CompletionBytes(s, up, r)| == 700
  {
    var cut := CompletionCut(s, up, r);
    CompletionRunOk(run, s, up, r);
    CompletionRunLists(run, s, up, r);
    CompletionMetasPacked(run, s, up, r, Plan(Metadata(None, 1), 9, 1, 3));
    CompletionNssPacked([up.keyId], up, Plan(Namespace, 9, 1, 1));
    CompletionLssPacked(up, Plan(Listing, 9, 1, 1));
    CompletionBundle(cut.metas[0], cut.nss[0], cut.lss[0]);
    ThreeTotal(cut.metas[0], cut.nss[0], cut.lss[0]);
    assert AllFrames(cut) == [cut.metas[0], cut.nss[0], cut.lss[0]];
  }

  // ---------------------------------------------------------------- the vector

  const STREAM_OBJECT: Text := Name("objects/v03/standalone-148")
  const STREAM_VERSION: Text := Name("version-standalone-148")
  const STREAM_KEYRING: Text := Name("keyrings/standalone-historical")
  const STREAM_KEY: Text := Name("stream-content-1")

  const STANDALONE: Stream := Stream(
    Exact(STREAM_OBJECT, Some(STREAM_VERSION), 131137, Fill(0x94, 32), STREAM_KEYRING, Fill(0x95, 32)),
    PayloadLayout.Layout(65536, 131089, STREAM_KEY, Fill(0x91, 32), [PayloadLayout.Part(1, Fill(0x81, 32), 131089)]))

  const CRC: Checksum := ChecksumValue(Crc32c, Composite(1), [0xa4, 0xa4, 0xa4, 0xa4])

  const COMPLETED: Mutation := Upsert(
    0, Fill(0x33, 32), NAMESPACE_1, CHUNK_PATH, 17, InStream(0), 131089, -55,
    Some(Retention(Compliance, 30)), Some(On), EtagValue(Fill(0x56, 16), 1), Some(CRC))

  const RECEIPT: Receipt := Receipt(
    Fill(0x71, 32), 12, Fill(0x72, 32), Fill(0x73, 32), CHUNK_PATH, 131089, EtagValue(Fill(0x56, 16), 1), Some(CRC))

  const COMPLETION_RUN: Run := Run(Some(RECEIPT), 9, None, [], [STANDALONE], [COMPLETED])

  lemma {:induction false} StandaloneShape()
    ensures StreamShape(STANDALONE)
  {
  }

  lemma {:induction false} CompletedShape()
    ensures UpsertShape(COMPLETED)
  {
    PathLengths();
  }

  lemma {:induction false} FrozenCompletionShape()
    ensures CompletionShape(COMPLETION_RUN, STANDALONE, COMPLETED, RECEIPT)
  {
    StandaloneShape();
    CompletedShape();
  }

  lemma {:induction false} CompletionRunFrozen(run: Run, s: Stream, up: Mutation, r: Receipt)
    requires CompletionShape(run, s, up, r)
    ensures EncodesTo(run, CompletionBytes(s, up, r))
  {
    CompletionRunEncoded(run, s, up, r);
    assert EncodesBy(run, CompletionCut(s, up, r), CompletionBytes(s, up, r));
  }

  /** The frozen run with a completion receipt is encoded into exactly the frozen bytes, which decode to it. */
  lemma {:induction false} CompletionVector()
    ensures CompletionShape(COMPLETION_RUN, STANDALONE, COMPLETED, RECEIPT)
    ensures EncodesTo(COMPLETION_RUN, CompletionBytes(STANDALONE, COMPLETED, RECEIPT))
    ensures DecodeBundled(DEFAULT_LIMITS, CompletionBytes(STANDALONE, COMPLETED, RECEIPT)) == Some(COMPLETION_RUN)
  {
    FrozenCompletionShape();
    CompletionRunFrozen(COMPLETION_RUN, STANDALONE, COMPLETED, RECEIPT);
    EncodingDecodes(COMPLETION_RUN, CompletionBytes(STANDALONE, COMPLETED, RECEIPT));
  }
}
