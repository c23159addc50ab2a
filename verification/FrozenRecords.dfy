/** Byte forms of index-run records, as the frozen vectors of the repository have them. Identifiers and
    digests stand for themselves; only their lengths matter here. */
module FrozenRecords {
  import opened Prelude
  import opened Types
  import opened Wire
  import opened Cbor
  import PayloadLayout
  import opened RunModel
  import opened RunRecords
  import opened Projections
  import opened RunFrames
  import opened FrozenBytes

  // ---------------------------------------------------------------- numbers

  /** 1234 as a varint. */
  lemma {:induction false} Varint1234(tail: Data)
    ensures PutVarint(1234, tail) == [0xd2, 0x09] + tail
  {
    assert PutVarint(9, tail) == [9] + tail;
    assert 1234 % 128 + 128 == 0xd2 && 1234 / 128 == 9;
  }

  lemma {:induction false} Varint65536(tail: Data)
    ensures PutVarint(65536, tail) == [0x80, 0x80, 0x04] + tail
  {
    assert PutVarint(4, tail) == [4] + tail;
    assert PutVarint(512, tail) == [0x80] + PutVarint(4, tail);
    assert PutVarint(65536, tail) == [0x80] + PutVarint(512, tail);
  }

  lemma {:induction false} Varint131089(tail: Data)
    ensures PutVarint(131089, tail) == [0x91, 0x80, 0x08] + tail
  {
    assert PutVarint(8, tail) == [8] + tail;
    assert PutVarint(1024, tail) == [0x80] + PutVarint(8, tail);
    assert PutVarint(131089, tail) == [0x91] + PutVarint(1024, tail);
  }

  /** -55 in two's complement. */
  lemma {:induction false} Minus55(tail: Data)
    ensures PutI64(-55, tail) == [0xff, 0xff, 0xff, 0xff, 0xff, 0xff, 0xff, 0xc9] + tail
  {
    assert -55 + U64_LIMIT == 0xffff_ffff_ffff_ffc9;
    assert BigEndian(0xffff_ffff_ffff_ffc9, 8) == [0xff, 0xff, 0xff, 0xff, 0xff, 0xff, 0xff, 0xc9];
  }

  // ---------------------------------------------------------------- metadata

  /** The exact-object part of a record with short names. */
  lemma {:induction false} ExactBytes(e: Exact, stored: Data, tail: Data)
    requires |e.objectId| < 128 && e.versionId.Some? && |e.versionId.value| < 128 && |e.envelopeId| < 128
    requires BigEndian(e.storedLen, 8) == stored
    ensures PutExact(e, tail) ==
            [|e.objectId| as Byte] + (e.objectId + ([1, |e.versionId.value| as Byte] + (e.versionId.value + (stored
            + (e.digest + ([|e.envelopeId| as Byte] + (e.envelopeId + (e.envelopeDigest + tail))))))))
  {
    var rest := PutU64(e.storedLen, e.digest + PutRecord(e.envelopeId, e.envelopeDigest + tail));
    VersionBytes(e.versionId.value, rest);
  }

  lemma {:induction false} VersionBytes(version: Text, tail: Data)
    requires |version| < 128
    ensures PutVersion(Some(version), tail) == [1, |version| as Byte] + (version + tail)
  {
  }

  lemma {:induction false} TaggedExact(tag: Byte, e: Exact, stored: Data, tail: Data)
    requires |e.objectId| < 128 && e.versionId.Some? && |e.versionId.value| < 128 && |e.envelopeId| < 128
    requires BigEndian(e.storedLen, 8) == stored
    ensures PutByte(tag, PutExact(e, tail)) ==
            [tag, |e.objectId| as Byte] + (e.objectId + ([1, |e.versionId.value| as Byte] + (e.versionId.value + (stored
            + (e.digest + ([|e.envelopeId| as Byte] + (e.envelopeId + (e.envelopeDigest + tail))))))))
    ensures |PutByte(tag, PutExact(e, tail))| == 77 + |e.objectId| + |e.versionId.value| + |e.envelopeId| + |tail|
  {
    var rest := [1, |e.versionId.value| as Byte] + (e.versionId.value + (stored
      + (e.digest + ([|e.envelopeId| as Byte] + (e.envelopeId + (e.envelopeDigest + tail))))));
    ExactBytes(e, stored, tail);
    Tagged(tag, |e.objectId| as Byte, e.objectId, rest);
  }

  /** The record of a pack container. */
  lemma {:induction false} PackBytes(c: Container)
    requires |c.exact.objectId| == 14 && c.exact.versionId.Some? && |c.exact.versionId.value| == 9
    requires c.exact.storedLen == 4096 && |c.exact.envelopeId| == 19
    requires c.sectionOrdinal == 3 && c.sectionOffset == 512 && c.sectionLen == 2048
    requires |c.contentKeyId| == 9 && c.recordCount == 8
    ensures PutMeta(Pack(c)) ==
            [0, 14] + (c.exact.objectId + ([1, 9] + (c.exact.versionId.value + ([0, 0, 0, 0, 0, 0, 0x10, 0] +
            (c.exact.digest + ([19] + (c.exact.envelopeId + (c.exact.envelopeDigest + ([3] + ([0, 0, 0, 0, 0, 0, 2,
            0] + ([0, 0, 0, 0, 0, 0, 8, 0] + (c.packId + (c.attemptId + ([9] + (c.contentKeyId +
            ([8]))))))))))))))))
    ensures |PutMeta(Pack(c))| == 0xd3
  {
    Word(4096, 0, 0, 0x10, 0);
    Word(512, 0, 0, 2, 0);
    Word(2048, 0, 0, 8, 0);
    var section := PutVarint(3, PutU64(512, PutU64(2048, c.packId + (c.attemptId + PutRecord(c.contentKeyId, PutVarint(8, []))))));
    TaggedExact(0, c.exact, [0, 0, 0, 0, 0, 0, 0x10, 0], section);
    assert PutVarint(8, []) == [8];
  }

  /** A tag, a length and the bytes behind them, put together in two ways. */
  lemma {:induction false} Tagged(tag: Byte, length: Byte, field: Data, tail: Data)
    ensures [tag] + ([length] + (field + tail)) == [tag, length] + (field + tail)
  {
  }

  /** The record of a key name. */
  lemma {:induction false} KeyNameBytes(id: Text)
    requires |id| == 11
    ensures PutMeta(KeyName(id)) == [3, 11] + id && |PutMeta(KeyName(id))| == 13
  {
    assert id + [] == id;
  }

  /** The layout of a stream of one part. */
  lemma {:induction false} LayoutBytes(l: PayloadLayout.Layout)
    requires l.chunkSize == 65536 && l.plaintextLen == 131089 && |l.keyId| == 16
    requires |l.parts| == 1 && l.parts[0].number == 1 && l.parts[0].plaintextLen == 131089
    ensures PutLayout(l, []) ==
            [0x80, 0x80, 0x04, 0x91, 0x80, 0x08, 16] + (l.keyId + (l.carrierId + ([1, 1] + (l.parts[0].attemptId
            + [0x91, 0x80, 0x08]))))
  {
    var part := PutVarint(131089, []);
    Varint131089([]);
    assert part == [0x91, 0x80, 0x08];
    assert PutParts(l.parts[1..], []) == [];
    var parts := PutVarint(1, PutVarint(1, l.parts[0].attemptId + part));
    assert parts == [1, 1] + (l.parts[0].attemptId + part);
    var key := PutRecord(l.keyId, l.carrierId + parts);
    assert key == [16] + (l.keyId + (l.carrierId + parts));
    Varint131089(key);
    Varint65536(PutVarint(131089, key));
    assert [0x80, 0x80, 0x04] + ([0x91, 0x80, 0x08] + key) == [0x80, 0x80, 0x04, 0x91, 0x80, 0x08, 16] + (l.keyId + (l.carrierId + parts));
  }

  /** The record of a standalone stream. */
  lemma {:induction false} StreamBytes(s: Stream)
    requires |s.exact.objectId| == 26 && s.exact.versionId.Some? && |s.exact.versionId.value| == 22
    requires s.exact.storedLen == 131137 && |s.exact.envelopeId| == 30
    requires s.layout.chunkSize == 65536 && s.layout.plaintextLen == 131089 && |s.layout.keyId| == 16
    requires |s.layout.parts| == 1 && s.layout.parts[0].number == 1 && s.layout.parts[0].plaintextLen == 131089
    ensures PutMeta(Streamed(s)) ==
            [2, 26] + (s.exact.objectId + ([1, 22] + (s.exact.versionId.value + ([0, 0, 0, 0, 0, 2, 0, 0x41] +
            (s.exact.digest + ([30] + (s.exact.envelopeId + (s.exact.envelopeDigest + ([0x80, 0x80, 0x04, 0x91,
            0x80, 0x08, 16] + (s.layout.keyId + (s.layout.carrierId + ([1, 1] + (s.layout.parts[0].attemptId +
            ([0x91, 0x80, 0x08]))))))))))))))
    ensures |PutMeta(Streamed(s))| == 0xf7
  {
    Word(131137, 0, 2, 0, 0x41);
    LayoutBytes(s.layout);
    TaggedExact(2, s.exact, [0, 0, 0, 0, 0, 2, 0, 0x41], PutLayout(s.layout, []));
  }

  // ---------------------------------------------------------------- receipts

  /** A composite CRC32C of one part. */
  lemma {:induction false} ChecksumBytes(c: Checksum)
    requires c.algorithm == Crc32c && c.kind == Composite(1)
    ensures EncodeChecksum(c) == [0x83, 0x01, 0x01, 0x44] + c.digest && |EncodeChecksum(c)| == 8
  {
    assert c.digest + [] == c.digest;
    assert PutBlob(2, c.digest, []) == [0x44] + c.digest;
    assert PutSum(c) == [0x01] + PutBlob(2, c.digest, []);
  }

  lemma {:induction false} Blob32(bytes: Bytes32, tail: Data)
    ensures PutBlob(2, bytes, tail) == [0x58, 0x20] + (bytes + tail)
  {
    assert BigEndian(32, 1) == [0x20];
  }

  /** The outcome of a receipt: content length, ETag and checksum. */
  lemma {:induction false} OutcomeBytes(r: Receipt)
    requires r.contentLen == 131089 && r.etag.parts == 1
    requires r.checksum.Some? && r.checksum.value.algorithm == Crc32c && r.checksum.value.kind == Composite(1)
    ensures PutOutcome(r, []) ==
            [0x1a, 0, 2, 0, 0x11, 0x54, 0, 0, 0, 1] + (r.etag.digest + ([0x48, 0x83, 0x01, 0x01, 0x44] + r.checksum.value.digest))
  {
    var c, sum := r.checksum.value, PutOptionalChecksum(r.checksum, []);
    ChecksumBytes(c);
    SumBytes(EncodeChecksum(c), c.digest);
    Word(1, 0, 0, 0, 1);
    OutcomeStart(EncodeEtag(r.etag), r.etag.digest, sum);
  }

  lemma {:induction false} SumBytes(encoded: Data, digest: Data)
    requires encoded == [0x83, 0x01, 0x01, 0x44] + digest && |encoded| == 8
    ensures PutBlob(2, encoded, []) == [0x48, 0x83, 0x01, 0x01, 0x44] + digest
  {
  }

  lemma {:induction false} OutcomeStart(tag: Data, digest: Data, tail: Data)
    requires tag == [0, 0, 0, 1] + digest && |tag| == 20
    ensures PutHead(0, 131089, PutBlob(2, tag, tail)) == [0x1a, 0, 2, 0, 0x11, 0x54, 0, 0, 0, 1] + (digest + tail)
  {
    Word(131089, 0, 2, 0, 0x11);
  }

  /** The record of a completion receipt. */
  lemma {:induction false} ReceiptBytes(r: Receipt)
    requires r.sequence == 12 && |r.key| == 21 && r.contentLen == 131089 && r.etag.parts == 1
    requires r.checksum.Some? && r.checksum.value.algorithm == Crc32c && r.checksum.value.kind == Composite(1)
    ensures PutMeta(Completion(r)) ==
            [4, 0x88, 0x58, 0x20] + (r.uploadId + ([0x0c, 0x58, 0x20] + (r.selectionDigest + ([0x58, 0x20] +
            (r.attemptsDigest + ([0x75] + (r.key + ([0x1a, 0, 2, 0, 0x11, 0x54, 0, 0, 0, 1] + (r.etag.digest +
            ([0x48, 0x83, 0x01, 0x01, 0x44] + (r.checksum.value.digest)))))))))))
    ensures |PutMeta(Completion(r))| == 0xa2
  {
    OutcomeBytes(r);
    var outcome := PutOutcome(r, []);
    var key := PutBlob(3, r.key, outcome);
    KeyBlob(r.key, outcome);
    var attempts := PutBlob(2, r.attemptsDigest, key);
    Blob32(r.attemptsDigest, key);
    var selection := PutBlob(2, r.selectionDigest, attempts);
    Blob32(r.selectionDigest, attempts);
    var sequence := PutHead(0, 12, selection);
    SequenceStart(r.selectionDigest, attempts);
    Blob32(r.uploadId, sequence);
    ReceiptStart(r.uploadId, sequence);
  }

  lemma {:induction false} KeyBlob(key: Data, tail: Data)
    requires |key| == 21
    ensures PutBlob(3, key, tail) == [0x75] + (key + tail)
  {
  }

  lemma {:induction false} SequenceStart(digest: Bytes32, tail: Data)
    ensures PutHead(0, 12, [0x58, 0x20] + (digest + tail)) == [0x0c, 0x58, 0x20] + (digest + tail)
  {
  }

  lemma {:induction false} ReceiptStart(uploadId: Bytes32, tail: Data)
    ensures [4] + PutHead(4, 8, [0x58, 0x20] + (uploadId + tail)) == [4, 0x88, 0x58, 0x20] + (uploadId + tail)
  {
  }

  // ---------------------------------------------------------------- namespace records

  /** The retention, hold and ETag of the frozen upsert without a checksum. */
  lemma {:induction false} PlainPolicy(f: Facts)
    requires f.retention == Some(Retention(Compliance, 30)) && f.legalHold == Some(On) && f.checksum == None && f.etag.parts == 0
    ensures PutPolicy(f) == [1, 2, 30, 2, 0, 0, 0, 0, 0] + f.etag.digest
  {
    Word(0, 0, 0, 0, 0);
    assert EncodeEtag(f.etag) == [0, 0, 0, 0] + f.etag.digest;
  }

  lemma {:induction false} SummedPolicy(f: Facts)
    requires f.retention == Some(Retention(Compliance, 30)) && f.legalHold == Some(On) && f.etag.parts == 1
    requires f.checksum.Some? && f.checksum.value.algorithm == Crc32c && f.checksum.value.kind == Composite(1)
    ensures PutPolicy(f) == [1, 2, 30, 2, 8, 0x83, 0x01, 0x01, 0x44] + (f.checksum.value.digest + ([0, 0, 0, 1] + f.etag.digest))
  {
    Word(1, 0, 0, 0, 1);
    var tag := EncodeEtag(f.etag);
    assert tag == [0, 0, 0, 1] + f.etag.digest;
    ChecksumBytes(f.checksum.value);
    var sum := PutChecksum(f.checksum, tag);
    assert sum == [8] + (([0x83, 0x01, 0x01, 0x44] + f.checksum.value.digest) + tag);
  }

  /** An upsert into a pack. */
  lemma {:induction false} PackedUpsertBytes(r: NsRecord)
    requires r.NsUpsert? && r.ordinal == 0 && r.key == 0 && r.generation == 17
    requires FactsOf(r).payload == InPack(0, RecordPointer(7, 100)) && FactsOf(r).contentLen == 1234 && FactsOf(r).modifiedAt == -55
    requires FactsOf(r).retention == Some(Retention(Compliance, 30)) && FactsOf(r).legalHold == Some(On)
    requires FactsOf(r).checksum == None && FactsOf(r).etag.parts == 0
    ensures PutNs(r) ==
            [0, 0] + (r.blindKey + ([0, 17, 2, 0, 7, 100, 0xd2, 0x09] + ([0xff, 0xff, 0xff, 0xff, 0xff, 0xff, 0xff, 0xc9]
            + ([1, 2, 30, 2, 0, 0, 0, 0, 0] + FactsOf(r).etag.digest))))
    ensures |PutNs(r)| == 0x4b
  {
    PlainPolicy(FactsOf(r));
    Minus55(PutPolicy(FactsOf(r)));
    var time := PutI64(-55, PutPolicy(FactsOf(r)));
    PackedStart(time);
    NsStart(0, 0, r.blindKey, PutVarint(0, PutVarint(17, PutFacts(FactsOf(r)))));
  }

  lemma {:induction false} NsStart(ordinal: U32, tag: Byte, blindKey: Bytes32, tail: Data)
    requires ordinal < 128
    ensures PutVarint(ordinal, PutByte(tag, blindKey + tail)) == [ordinal as Byte, tag] + (blindKey + tail)
  {
  }

  lemma {:induction false} PackedStart(tail: Data)
    ensures PutVarint(0, PutVarint(17, PutPointer(InPack(0, RecordPointer(7, 100)), PutVarint(1234, tail))))
         == [0, 17, 2, 0, 7, 100, 0xd2, 0x09] + tail
  {
    Varint1234(tail);
  }

  lemma {:induction false} StreamedStart(tail: Data)
    ensures PutVarint(0, PutVarint(17, PutPointer(InStream(0), PutVarint(131089, tail))))
         == [0, 17, 5, 0, 0x91, 0x80, 0x08] + tail
  {
    Varint131089(tail);
  }

  /** An upsert of a stream, with a checksum. */
  lemma {:induction false} StreamedUpsertBytes(r: NsRecord)
    requires r.NsUpsert? && r.ordinal == 0 && r.key == 0 && r.generation == 17
    requires FactsOf(r).payload == InStream(0) && FactsOf(r).contentLen == 131089 && FactsOf(r).modifiedAt == -55
    requires FactsOf(r).retention == Some(Retention(Compliance, 30)) && FactsOf(r).legalHold == Some(On) && FactsOf(r).etag.parts == 1
    requires FactsOf(r).checksum.Some?
    requires FactsOf(r).checksum.value.algorithm == Crc32c && FactsOf(r).checksum.value.kind == Composite(1)
    ensures PutNs(r) ==
            [0, 0] + (r.blindKey + ([0, 17, 5, 0, 0x91, 0x80, 0x08] + ([0xff, 0xff, 0xff, 0xff, 0xff, 0xff, 0xff, 0xc9]
            + ([1, 2, 30, 2, 8, 0x83, 0x01, 0x01, 0x44] + (FactsOf(r).checksum.value.digest + ([0, 0, 0, 1] + FactsOf(r).etag.digest))))))
    ensures |PutNs(r)| == 0x52
  {
    SummedPolicy(FactsOf(r));
    Minus55(PutPolicy(FactsOf(r)));
    var time := PutI64(-55, PutPolicy(FactsOf(r)));
    StreamedStart(time);
    NsStart(0, 0, r.blindKey, PutVarint(0, PutVarint(17, PutFacts(FactsOf(r)))));
  }

  /** A tombstone. */
  lemma {:induction false} TombstoneBytes(r: NsRecord)
    requires !r.NsUpsert? && r.ordinal == 1 && r.key == 0 && r.generation == 18
    ensures PutNs(r) == [1, 1] + (r.blindKey + [0, 18]) && |PutNs(r)| == 0x24
  {
    assert PutVarint(0, PutVarint(18, [])) == [0, 18];
  }

  // ---------------------------------------------------------------- listing records

  lemma {:induction false} DeletedBytes(r: LsRecord)
    requires r.LsTombstone? && |r.path| == 14 && r.ordinal == 1 && r.generation == 18
    ensures PutLs([], r) == [0, 14] + (r.path + [1, 1, 18]) && |PutLs([], r)| == 0x13
  {
    assert LsBody(r) == [1, 1, 18];
    assert r.path[0..] == r.path;
  }

  /** The listing facts of the upsert into a pack, behind a path that shares seven bytes. */
  lemma {:induction false} ChunkBytes(previous: Data, r: LsRecord)
    requires r.LsUpsert? && |r.path| == 21 && r.ordinal == 0 && r.generation == 17 && r.contentLen == 1234 && r.modifiedAt == -55
    requires SharedPrefix(previous, r.path) == 7
    ensures PutLs(previous, r) == [7, 14] + (r.path[7..] + ([0, 0, 17, 0xd2, 0x09] + [0xff, 0xff, 0xff, 0xff, 0xff, 0xff, 0xff, 0xc9]))
    ensures |PutLs(previous, r)| == 0x1d
  {
    Minus55([]);
    Varint1234(PutI64(-55, []));
    assert [0xff, 0xff, 0xff, 0xff, 0xff, 0xff, 0xff, 0xc9] + [] == [0xff, 0xff, 0xff, 0xff, 0xff, 0xff, 0xff, 0xc9];
    assert LsBody(r) == [0, 0, 17, 0xd2, 0x09] + [0xff, 0xff, 0xff, 0xff, 0xff, 0xff, 0xff, 0xc9];
  }

  /** The listing facts of the streamed upsert. */
  lemma {:induction false} StreamedChunkBytes(r: LsRecord)
    requires r.LsUpsert? && |r.path| == 21 && r.ordinal == 0 && r.generation == 17 && r.contentLen == 131089 && r.modifiedAt == -55
    ensures PutLs([], r) == [0, 21] + (r.path + ([0, 0, 17, 0x91, 0x80, 0x08] + [0xff, 0xff, 0xff, 0xff, 0xff, 0xff, 0xff, 0xc9]))
    ensures |PutLs([], r)| == 0x25
  {
    Minus55([]);
    Varint131089(PutI64(-55, []));
    assert [0xff, 0xff, 0xff, 0xff, 0xff, 0xff, 0xff, 0xc9] + [] == [0xff, 0xff, 0xff, 0xff, 0xff, 0xff, 0xff, 0xc9];
    assert LsBody(r) == [0, 0, 17, 0x91, 0x80, 0x08] + [0xff, 0xff, 0xff, 0xff, 0xff, 0xff, 0xff, 0xc9];
    assert r.path[0..] == r.path;
  }

  // ---------------------------------------------------------------- tags

  /** The tags that the wire format assigns, beyond those in the vectors. */
  lemma {:induction false} Tags(record: RecordPointer, container: U32, tail: Data)
    ensures PutPointer(Empty, tail) == [0] + tail
    ensures PutPointer(InSelf(record), tail) == [1] + PutVarint(record.ordinal, PutVarint(record.offset, tail))
    ensures PutPointer(InPack(container, record), tail)
         == [2] + PutVarint(container, PutVarint(record.ordinal, PutVarint(record.offset, tail)))
    ensures PutPointer(InStream(container), tail) == [5] + PutVarint(container, tail)
    ensures ModeTag(Unlocked) == 0 && ModeTag(Governance) == 1 && ModeTag(Compliance) == 2
    ensures PutHold(None, tail) == [0] + tail && PutHold(Some(Off), tail) == [1] + tail && PutHold(Some(On), tail) == [2] + tail
    ensures AlgorithmTag(Crc32) == 0 && AlgorithmTag(Crc32c) == 1 && AlgorithmTag(Crc64Nvme) == 2
    ensures AlgorithmTag(Sha1) == 3 && AlgorithmTag(Sha256) == 4
    ensures PutRetention(None, tail) == [0] + tail && PutOptionalChecksum(None, tail) == [0xf6] + tail
  {
  }

  /** The facts of the commit's own pack in a metadata header. */
  lemma {:induction false} SelfPackBytes(p: SelfPack, tail: Data)
    requires |p.contentKeyId| < 128 && p.storedLen == 4096 && p.recordCount < 128
    ensures PutPack(None, tail) == [0] + tail
    ensures PutPack(Some(p), tail) ==
            [1] + (p.packId + (p.attemptId + ([|p.contentKeyId| as Byte] + (p.contentKeyId
            + ([0, 0, 0, 0, 0, 0, 0x10, 0] + ([p.recordCount as Byte] + tail))))))
  {
    Word(4096, 0, 0, 0x10, 0);
  }

  // ---------------------------------------------------------------- headers

  const FRAME_DOMAIN: Data := Ascii("rs3:index-run-frame-plaintext:v2\n")

  lemma {:induction false} FrameDomain()
    ensures DOMAIN == FRAME_DOMAIN && |DOMAIN| == 33
  {
  }

  /** The header of the only frame of a role in a run of sequence nine. */
  lemma {:induction false} HeaderBytes(h: Header, tail: Data)
    requires h.roleOrdinal == 0 && h.sequence == 9 && h.mutationCount < 128 && h.roleCount < 128 && h.frameCount < 128
    requires h.role.Metadata? ==> h.role.pack == None && h.role.keyCount < 128
    ensures PutHeader(h, tail) ==
            FRAME_DOMAIN + ([0, 10, if h.role.Metadata? then 0 else if h.role.Namespace? then 1 else 2, 0]
            + ([0, 0, 0, 0, 0, 0, 0, 9] + ([h.mutationCount as Byte, h.roleCount as Byte, h.frameCount as Byte]
            + ((if h.role.Metadata? then [0, h.role.keyCount as Byte] else []) + tail))))
  {
    FrameDomain();
    Word(9, 0, 0, 0, 9);
    assert BigEndian(10, 2) == [0, 10];
    var role := PutRole(h.role, tail);
    assert role == (if h.role.Metadata? then [0, h.role.keyCount as Byte] else []) + tail;
    var counts := PutVarint(h.mutationCount, PutVarint(h.roleCount, PutVarint(h.frameCount, role)));
    assert counts == [h.mutationCount as Byte, h.roleCount as Byte, h.frameCount as Byte] + role;
    HeaderStart(RoleTag(h.role), [0, 0, 0, 0, 0, 0, 0, 9] + counts);
  }

  lemma {:induction false} HeaderStart(tag: Byte, tail: Data)
    ensures PutInt(10, 2, PutByte(tag, PutVarint(0, tail))) == [0, 10, tag, 0] + tail
  {
    assert BigEndian(10, 2) == [0, 10];
  }
}
