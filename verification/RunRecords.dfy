/** The records of an index run: metadata, namespace and listing records, each with its byte form. */
module RunRecords {
  import opened Prelude
  import opened Types
  import opened Wire
  import opened Cbor
  import opened PayloadLayout
  import opened RunModel

  // ---------------------------------------------------------------- exact objects

  function PutVersion(version: Option<Text>, tail: Data): Data {
    match version
    case None => PutByte(0, tail)
    case Some(text) => PutByte(1, PutRecord(text, tail))
  }

  function ReadVersion(b: Data, maximum: nat): Option<Taken<Option<Text>>> {
    var tag :- ReadByte(b);
    if tag.value == 0 then Some(Taken(None, tag.rest))
    else if tag.value == 1 then
      var text :- ReadText(tag.rest, maximum);
      Some(Taken(Some(text.value), text.rest))
    else None
  }

  lemma {:induction false} VersionRoundTrip(version: Option<Text>, maximum: U64, tail: Data)
    requires version.Some? ==> |version.value| <= maximum
    ensures ReadVersion(PutVersion(version, tail), maximum) == Some(Taken(version, tail))
  {
    if version.Some? {
      TextRoundTrip(version.value, maximum, tail);
      ByteRoundTrip(1, PutRecord(version.value, tail));
    }
  }

  lemma {:induction false} VersionCanonical(b: Data, maximum: nat)
    requires ReadVersion(b, maximum).Some?
    ensures var t := ReadVersion(b, maximum).value;
            b == PutVersion(t.value, t.rest) && (t.value.Some? ==> |t.value.value| <= maximum)
  {
    ByteCanonical(b);
    if b[0] == 1 { TextCanonical(b[1..], maximum); }
  }

  function PutExact(e: Exact, tail: Data): Data {
    PutRecord(e.objectId, PutVersion(e.versionId, PutU64(e.storedLen,
      e.digest + PutRecord(e.envelopeId, e.envelopeDigest + tail))))
  }

  function ReadExact(limits: Limits, b: Data): Option<Taken<Exact>> {
    var objectId :- ReadText(b, limits.maxObjectIdBytes);
    var versionId :- ReadVersion(objectId.rest, limits.maxVersionIdBytes);
    var storedLen :- ReadU64(versionId.rest);
    var digest :- Read32(storedLen.rest);
    var envelopeId :- ReadText(digest.rest, limits.maxObjectIdBytes);
    var envelopeDigest :- Read32(envelopeId.rest);
    Some(Taken(Exact(objectId.value, versionId.value, storedLen.value, digest.value,
                     envelopeId.value, envelopeDigest.value), envelopeDigest.rest))
  }

  lemma {:induction false} ExactRoundTrip(limits: Limits, e: Exact, tail: Data)
    requires ExactOk(limits, e)
    ensures ReadExact(limits, PutExact(e, tail)) == Some(Taken(e, tail))
  {
    var envelope := PutRecord(e.envelopeId, e.envelopeDigest + tail);
    var stored := PutU64(e.storedLen, e.digest + envelope);
    TextRoundTrip(e.objectId, limits.maxObjectIdBytes, PutVersion(e.versionId, stored));
    VersionRoundTrip(e.versionId, limits.maxVersionIdBytes, stored);
    U64RoundTrip(e.storedLen, e.digest + envelope);
    Read32RoundTrip(e.digest, envelope);
    TextRoundTrip(e.envelopeId, limits.maxObjectIdBytes, e.envelopeDigest + tail);
    Read32RoundTrip(e.envelopeDigest, tail);
  }

  lemma {:induction false} ExactCanonical(limits: Limits, b: Data)
    requires ReadExact(limits, b).Some?
    ensures var t := ReadExact(limits, b).value; b == PutExact(t.value, t.rest) && ExactOk(limits, t.value)
  {
    var objectId := ReadText(b, limits.maxObjectIdBytes).value;
    var versionId := ReadVersion(objectId.rest, limits.maxVersionIdBytes).value;
    var storedLen := ReadU64(versionId.rest).value;
    var digest := Read32(storedLen.rest).value;
    var envelopeId := ReadText(digest.rest, limits.maxObjectIdBytes).value;
    TextCanonical(b, limits.maxObjectIdBytes);
    VersionCanonical(objectId.rest, limits.maxVersionIdBytes);
    U64Canonical(versionId.rest);
    Read32Canonical(storedLen.rest);
    TextCanonical(digest.rest, limits.maxObjectIdBytes);
    Read32Canonical(envelopeId.rest);
  }

  // ---------------------------------------------------------------- pack containers

  function PutContainer(c: Container, tail: Data): Data {
    PutExact(c.exact, PutVarint(c.sectionOrdinal, PutU64(c.sectionOffset, PutU64(c.sectionLen,
      c.packId + (c.attemptId + PutRecord(c.contentKeyId, PutVarint(c.recordCount, tail)))))))
  }

  function ReadContainer(limits: Limits, b: Data): Option<Taken<Container>> {
    var exact :- ReadExact(limits, b);
    var sectionOrdinal :- ReadU32(exact.rest);
    var sectionOffset :- ReadU64(sectionOrdinal.rest);
    var sectionLen :- ReadU64(sectionOffset.rest);
    var packId :- Read32(sectionLen.rest);
    var attemptId :- Read32(packId.rest);
    var contentKeyId :- ReadText(attemptId.rest, limits.maxKeyIdBytes);
    var recordCount :- ReadU32(contentKeyId.rest);
    var container := Container(exact.value, sectionOrdinal.value, sectionOffset.value, sectionLen.value,
                               packId.value, attemptId.value, contentKeyId.value, recordCount.value);
    if ContainerOk(limits, container) then Some(Taken(container, recordCount.rest)) else None
  }

  lemma {:induction false} ContainerRoundTrip(limits: Limits, c: Container, tail: Data)
    requires ContainerOk(limits, c)
    ensures ReadContainer(limits, PutContainer(c, tail)) == Some(Taken(c, tail))
  {
    var count := PutVarint(c.recordCount, tail);
    var key := PutRecord(c.contentKeyId, count);
    var length := PutU64(c.sectionLen, c.packId + (c.attemptId + key));
    var offset := PutU64(c.sectionOffset, length);
    ExactRoundTrip(limits, c.exact, PutVarint(c.sectionOrdinal, offset));
    U32RoundTrip(c.sectionOrdinal, offset);
    U64RoundTrip(c.sectionOffset, length);
    U64RoundTrip(c.sectionLen, c.packId + (c.attemptId + key));
    Read32RoundTrip(c.packId, c.attemptId + key);
    Read32RoundTrip(c.attemptId, key);
    TextRoundTrip(c.contentKeyId, limits.maxKeyIdBytes, count);
    U32RoundTrip(c.recordCount, tail);
  }

  lemma {:induction false} ContainerCanonical(limits: Limits, b: Data)
    requires ReadContainer(limits, b).Some?
    ensures var t := ReadContainer(limits, b).value; b == PutContainer(t.value, t.rest) && ContainerOk(limits, t.value)
  {
    var exact := ReadExact(limits, b).value;
    var sectionOrdinal := ReadU32(exact.rest).value;
    var sectionOffset := ReadU64(sectionOrdinal.rest).value;
    var sectionLen := ReadU64(sectionOffset.rest).value;
    var packId := Read32(sectionLen.rest).value;
    var attemptId := Read32(packId.rest).value;
    var contentKeyId := ReadText(attemptId.rest, limits.maxKeyIdBytes).value;
    ExactCanonical(limits, b);
    U32Canonical(exact.rest);
    U64Canonical(sectionOrdinal.rest);
    U64Canonical(sectionOffset.rest);
    Read32Canonical(sectionLen.rest);
    Read32Canonical(packId.rest);
    TextCanonical(attemptId.rest, limits.maxKeyIdBytes);
    U32Canonical(contentKeyId.rest);
  }

  // ---------------------------------------------------------------- payload layouts

  function PutPart(part: Part, tail: Data): Data {
    PutVarint(part.number, part.attemptId + PutVarint(part.plaintextLen, tail))
  }

  function ReadPart(b: Data): Option<Taken<Part>> {
    var number :- ReadU32(b);
    var attemptId :- Read32(number.rest);
    var plaintextLen :- ReadVarint(attemptId.rest);
    Some(Taken(Part(number.value, attemptId.value, plaintextLen.value), plaintextLen.rest))
  }

  lemma {:induction false} PartRoundTrip(part: Part, tail: Data)
    ensures ReadPart(PutPart(part, tail)) == Some(Taken(part, tail))
    ensures |PutPart(part, tail)| >= 34 + |tail|
  {
    var length := PutVarint(part.plaintextLen, tail);
    U32RoundTrip(part.number, part.attemptId + length);
    Read32RoundTrip(part.attemptId, length);
    VarintRoundTrip(part.plaintextLen, tail);
    VarintLength(part.plaintextLen, tail);
    VarintLength(part.number, part.attemptId + length);
  }

  lemma {:induction false} PartCanonical(b: Data)
    requires ReadPart(b).Some?
    ensures var t := ReadPart(b).value; b == PutPart(t.value, t.rest)
  {
    var number := ReadU32(b).value;
    U32Canonical(b);
    Read32Canonical(number.rest);
    VarintCanonical(Read32(number.rest).value.rest);
  }

  function PutParts(parts: seq<Part>, tail: Data): Data {
    if parts == [] then tail else PutPart(parts[0], PutParts(parts[1..], tail))
  }

  function ReadParts(b: Data, count: nat): Option<Taken<seq<Part>>>
    decreases count
  {
    if count == 0 then Some(Taken([], b))
    else
      var part :- ReadPart(b);
      var rest :- ReadParts(part.rest, count - 1);
      Some(Taken([part.value] + rest.value, rest.rest))
  }

  lemma {:induction false} PartsRoundTrip(parts: seq<Part>, tail: Data)
    ensures ReadParts(PutParts(parts, tail), |parts|) == Some(Taken(parts, tail))
    ensures |PutParts(parts, tail)| >= 34 * |parts| + |tail|
  {
    if parts != [] {
      PartsRoundTrip(parts[1..], tail);
      PartRoundTrip(parts[0], PutParts(parts[1..], tail));
      assert [parts[0]] + parts[1..] == parts;
    }
  }

  lemma {:induction false} PartsCanonical(b: Data, count: nat)
    requires ReadParts(b, count).Some?
    ensures var t := ReadParts(b, count).value; |t.value| == count && b == PutParts(t.value, t.rest)
    decreases count
  {
    if count > 0 {
      PartCanonical(b);
      PartsCanonical(ReadPart(b).value.rest, count - 1);
      var t := ReadParts(b, count).value;
      assert t.value[1..] == ReadParts(ReadPart(b).value.rest, count - 1).value.value;
    }
  }

  function PutLayout(l: Layout, tail: Data): Data {
    PutVarint(l.chunkSize, PutVarint(l.plaintextLen, PutRecord(l.keyId,
      l.carrierId + PutVarint(|l.parts|, PutParts(l.parts, tail)))))
  }

  /** Reads a layout; the part count must be backed by enough bytes before any part is read. */
  function ReadLayout(limits: Limits, b: Data): Option<Taken<Layout>> {
    var chunkSize :- ReadVarint(b);
    var plaintextLen :- ReadVarint(chunkSize.rest);
    var keyId :- ReadText(plaintextLen.rest, limits.maxKeyIdBytes);
    var carrierId :- Read32(keyId.rest);
    var count :- ReadCount(carrierId.rest, MAX_PARTS);
    if 34 * count.value > |count.rest| then None
    else
      var parts :- ReadParts(count.rest, count.value);
      var layout := Layout(chunkSize.value, plaintextLen.value, keyId.value, carrierId.value, parts.value);
      if LayoutOk(limits, layout) then Some(Taken(layout, parts.rest)) else None
  }

  lemma {:induction false} LayoutRoundTrip(limits: Limits, l: Layout, tail: Data)
    requires LayoutOk(limits, l)
    ensures ReadLayout(limits, PutLayout(l, tail)) == Some(Taken(l, tail))
  {
    var parts := PutParts(l.parts, tail);
    var count := PutVarint(|l.parts|, parts);
    var key := PutRecord(l.keyId, l.carrierId + count);
    VarintRoundTrip(l.chunkSize, PutVarint(l.plaintextLen, key));
    VarintRoundTrip(l.plaintextLen, key);
    TextRoundTrip(l.keyId, limits.maxKeyIdBytes, l.carrierId + count);
    Read32RoundTrip(l.carrierId, count);
    CountRoundTrip(|l.parts|, MAX_PARTS, parts);
    PartsRoundTrip(l.parts, tail);
  }

  lemma {:induction false} LayoutCanonical(limits: Limits, b: Data)
    requires ReadLayout(limits, b).Some?
    ensures var t := ReadLayout(limits, b).value; b == PutLayout(t.value, t.rest) && LayoutOk(limits, t.value)
  {
    var chunkSize := ReadVarint(b).value;
    var plaintextLen := ReadVarint(chunkSize.rest).value;
    var keyId := ReadText(plaintextLen.rest, limits.maxKeyIdBytes).value;
    var carrierId := Read32(keyId.rest).value;
    var count := ReadCount(carrierId.rest, MAX_PARTS).value;
    VarintCanonical(b);
    VarintCanonical(chunkSize.rest);
    TextCanonical(plaintextLen.rest, limits.maxKeyIdBytes);
    Read32Canonical(keyId.rest);
    CountCanonical(carrierId.rest, MAX_PARTS);
    PartsCanonical(count.rest, count.value);
  }

  // ---------------------------------------------------------------- metadata records

  datatype Meta = Pack(container: Container) | Streamed(stream: Stream) | KeyName(id: Text) | Completion(receipt: Receipt)

  function PutMeta(m: Meta): Data
    requires m.Completion? ==> |m.receipt.key| <= 1024
  {
    match m
    case Pack(c) => PutByte(0, PutContainer(c, []))
    case Streamed(s) => PutByte(2, PutExact(s.exact, PutLayout(s.layout, [])))
    case KeyName(id) => PutByte(3, PutRecord(id, []))
    case Completion(r) => PutByte(4, EncodeReceipt(r))
  }

  const MAX_STREAM_RECORD: nat := 512 * 1024

  /** Standalone part tables have a cap of their own; every other record has the ordinary one. */
  function MetaLimit(limits: Limits, streamed: bool): U64 {
    if !streamed then limits.maxRecordBytes
    else if MAX_STREAM_RECORD < limits.maxFrameBytes then MAX_STREAM_RECORD
    else limits.maxFrameBytes
  }

  predicate MetaValid(limits: Limits, m: Meta) {
    match m
    case Pack(c) => ContainerOk(limits, c)
    case Streamed(s) => StreamOk(limits, s)
    case KeyName(id) => |id| <= limits.maxKeyIdBytes
    case Completion(r) => ValidReceipt(r)
  }

  predicate MetaOk(limits: Limits, m: Meta) {
    MetaValid(limits, m) && |PutMeta(m)| <= MetaLimit(limits, m.Streamed?)
  }

  /** A metadata record fits when it is within the ordinary limit, or, for a stream with its part table, within
      512 KiB and a frame. */
  lemma {:induction false} MetaOkExactly(limits: Limits, m: Meta)
    requires MetaValid(limits, m)
    ensures MetaOk(limits, m) <==>
            if m.Streamed? then |PutMeta(m)| <= 524_288 && |PutMeta(m)| <= limits.maxFrameBytes
            else |PutMeta(m)| <= limits.maxRecordBytes
  {
  }

  function ReadMeta(limits: Limits, b: Data): Option<Meta> {
    var tag :- ReadByte(b);
    if |b| > MetaLimit(limits, tag.value == 2) then None
    else if tag.value == 0 then
      var container :- ReadContainer(limits, tag.rest);
      if container.rest == [] then Some(Pack(container.value)) else None
    else if tag.value == 2 then
      var exact :- ReadExact(limits, tag.rest);
      var layout :- ReadLayout(limits, exact.rest);
      var stream := Stream(exact.value, layout.value);
      if layout.rest == [] && StreamOk(limits, stream) then Some(Streamed(stream)) else None
    else if tag.value == 3 then
      var id :- ReadText(tag.rest, limits.maxKeyIdBytes);
      if id.rest == [] then Some(KeyName(id.value)) else None
    else if tag.value == 4 then
      var receipt :- DecodeReceipt(tag.rest);
      Some(Completion(receipt))
    else None
  }

  /** A metadata record is read back exactly, within its size limit. */
  lemma {:induction false} MetaRoundTrip(limits: Limits, m: Meta)
    requires MetaOk(limits, m)
    ensures ReadMeta(limits, PutMeta(m)) == Some(m)
  {
    match m {
      case Pack(c) =>
        ContainerRoundTrip(limits, c, []);
        ByteRoundTrip(0, PutContainer(c, []));
      case Streamed(s) =>
        var layout := PutLayout(s.layout, []);
        ByteRoundTrip(2, PutExact(s.exact, layout));
        ExactRoundTrip(limits, s.exact, layout);
        LayoutRoundTrip(limits, s.layout, []);
      case KeyName(id) =>
        TextRoundTrip(id, limits.maxKeyIdBytes, []);
        ByteRoundTrip(3, PutRecord(id, []));
      case Completion(r) =>
        ReceiptRoundTrip(r);
        ByteRoundTrip(4, EncodeReceipt(r));
    }
  }

  /** An accepted metadata record has exactly one byte form. */
  lemma {:induction false} MetaCanonical(limits: Limits, b: Data)
    requires ReadMeta(limits, b).Some?
    ensures var m := ReadMeta(limits, b).value; MetaOk(limits, m) && b == PutMeta(m)
  {
    ByteCanonical(b);
    var rest := b[1..];
    if b[0] == 0 {
      ContainerCanonical(limits, rest);
    } else if b[0] == 2 {
      ExactCanonical(limits, rest);
      LayoutCanonical(limits, ReadExact(limits, rest).value.rest);
    } else if b[0] == 3 {
      TextCanonical(rest, limits.maxKeyIdBytes);
    } else {
      ReceiptCanonical(rest);
    }
  }
}
