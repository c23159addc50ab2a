/** Canonical CBOR (RFC 8949, section 4.2.1) as far as checksums and completion receipts use it, and
    the fixed ETag encoding. */
module Cbor {
  import opened Prelude
  import opened Types
  import opened Wire

  // ---------------------------------------------------------------- heads

  /** A major type with the shortest form of its argument. */
  function PutHead(major: nat, n: U64, tail: Data): Data
    requires major < 8
  {
    var prefix := major * 32;
    if n < 24 then [(prefix + n) as Byte] + tail
    else if n < 0x100 then [(prefix + 24) as Byte] + PutInt(n, 1, tail)
    else if n < 0x1_0000 then [(prefix + 25) as Byte] + PutInt(n, 2, tail)
    else if n < 0x1_0000_0000 then [(prefix + 26) as Byte] + PutInt(n, 4, tail)
    else [(prefix + 27) as Byte] + PutInt(n, 8, tail)
  }

  /** Bytes that follow a head, by its additional information, and the least value they may hold. */
  function HeadWidth(additional: nat): Option<(nat, nat)> {
    if additional == 24 then Some((1, 24))
    else if additional == 25 then Some((2, 0x100))
    else if additional == 26 then Some((4, 0x1_0000))
    else if additional == 27 then Some((8, 0x1_0000_0000))
    else None
  }

  function ReadHead(b: Data, major: nat): Option<Taken<U64>> {
    var first :- ReadByte(b);
    if first.value as nat / 32 != major then None
    else
      var additional := first.value as nat % 32;
      if additional < 24 then Some(Taken(additional, first.rest))
      else
        var shape :- HeadWidth(additional);
        var n :- ReadInt(first.rest, shape.0);
        if shape.1 <= n.value < U64_LIMIT then Some(Taken(n.value, n.rest)) else None
  }

  lemma {:induction false} RadixOne()
    ensures Radix(1) == 0x100
  {
    assert Radix(1) == 256 * Radix(0);
  }

  lemma {:induction false} HeadRoundTrip(major: nat, n: U64, tail: Data)
    requires major < 8
    ensures ReadHead(PutHead(major, n, tail), major) == Some(Taken(n, tail))
  {
    RadixOne();
    RadixValues();
    var b := PutHead(major, n, tail);
    if n >= 24 {
      var additional := b[0] as nat % 32;
      var width := HeadWidth(additional).value.0;
      assert b[1..] == PutInt(n, width, tail);
      IntRoundTrip(n, width, tail);
    }
  }

  /** A value within the range of a width is written with that width. */
  lemma {:induction false} WideHead(major: nat, n: U64, additional: nat, tail: Data)
    requires major < 8 && HeadWidth(additional).Some?
    requires HeadWidth(additional).value.1 <= n < Radix(HeadWidth(additional).value.0)
    ensures additional < 32 && PutHead(major, n, tail) == [(major * 32 + additional) as Byte] + PutInt(n, HeadWidth(additional).value.0, tail)
  {
    RadixOne();
    RadixValues();
  }

  lemma {:induction false} HeadByte(first: Byte)
    ensures first as nat == first as nat / 32 * 32 + first as nat % 32
  {
  }

  lemma {:induction false} HeadCanonical(b: Data, major: nat)
    requires major < 8 && ReadHead(b, major).Some?
    ensures var t := ReadHead(b, major).value; b == PutHead(major, t.value, t.rest)
  {
    assert b == [b[0]] + b[1..];
    HeadByte(b[0]);
    var additional := b[0] as nat % 32;
    if additional >= 24 {
      var width := HeadWidth(additional).value.0;
      IntCanonical(b[1..], width);
      var n := ReadInt(b[1..], width).value;
      WideHead(major, n.value, additional, n.rest);
    }
  }

  lemma {:induction false} HeadLength(major: nat, n: U64, tail: Data)
    requires major < 8
    ensures |PutHead(major, n, tail)| <= 9 + |tail|
    ensures n < 0x1_0000 ==> |PutHead(major, n, tail)| <= 3 + |tail|
    ensures n < 0x100 ==> |PutHead(major, n, tail)| <= 2 + |tail|
    ensures |PutHead(major, n, tail)| > 0 && PutHead(major, n, tail)[0] as nat / 32 == major
  {
  }

  // ---------------------------------------------------------------- byte strings

  function PutBlob(major: nat, bytes: Data, tail: Data): Data
    requires major < 8 && |bytes| < U64_LIMIT
  {
    PutHead(major, |bytes|, bytes + tail)
  }

  function ReadBlob(b: Data, major: nat, maximum: nat): Option<Taken<Data>> {
    var length :- ReadHead(b, major);
    if length.value > maximum then None else ReadBytes(length.rest, length.value)
  }

  lemma {:induction false} BlobRoundTrip(major: nat, bytes: Data, maximum: nat, tail: Data)
    requires major < 8 && |bytes| <= maximum && |bytes| < U64_LIMIT
    ensures ReadBlob(PutBlob(major, bytes, tail), major, maximum) == Some(Taken(bytes, tail))
  {
    HeadRoundTrip(major, |bytes|, bytes + tail);
    BytesRoundTrip(bytes, tail);
  }

  lemma {:induction false} BlobCanonical(b: Data, major: nat, maximum: nat)
    requires major < 8 && ReadBlob(b, major, maximum).Some?
    ensures var t := ReadBlob(b, major, maximum).value;
            |t.value| <= maximum && |t.value| < U64_LIMIT && b == PutBlob(major, t.value, t.rest)
  {
    HeadCanonical(b, major);
    var length := ReadHead(b, major).value;
    BytesCanonical(length.rest, length.value);
  }

  // ---------------------------------------------------------------- ETags

  function EncodeEtag(etag: Etag): (b: Data)
    ensures |b| == 20
  {
    PutInt(etag.parts, 4, etag.digest)
  }

  function DecodeEtag(b: Data): Option<Etag> {
    if |b| != 20 then None
    else
      var parts := FromBigEndian(b[..4]);
      if parts <= MAX_PARTS then Some(EtagValue(b[4..], parts)) else None
  }

  lemma {:induction false} EtagRoundTrip(etag: Etag)
    ensures DecodeEtag(EncodeEtag(etag)) == Some(etag)
  {
    RadixValues();
    BigEndianRoundTrip(etag.parts, 4);
    assert EncodeEtag(etag)[..4] == BigEndian(etag.parts, 4) && EncodeEtag(etag)[4..] == etag.digest;
  }

  lemma {:induction false} EtagCanonical(b: Data)
    requires DecodeEtag(b).Some?
    ensures b == EncodeEtag(DecodeEtag(b).value)
  {
    BigEndianCanonical(b[..4]);
    assert b == b[..4] + b[4..];
  }

  // ---------------------------------------------------------------- checksums

  const MAX_CHECKSUM := 48

  function AlgorithmTag(a: Algorithm): U64 {
    match a
    case Crc32 => 0
    case Crc32c => 1
    case Crc64Nvme => 2
    case Sha1 => 3
    case Sha256 => 4
  }

  function TagAlgorithm(n: nat): Option<Algorithm> {
    if n == 0 then Some(Crc32) else if n == 1 then Some(Crc32c) else if n == 2 then Some(Crc64Nvme)
    else if n == 3 then Some(Sha1) else if n == 4 then Some(Sha256) else None
  }

  function KindParts(k: ChecksumKind): nat {
    match k
    case FullObject => 0
    case Composite(parts) => parts
  }

  function PutSum(c: Checksum): Data {
    PutHead(0, KindParts(c.kind), PutBlob(2, c.digest, []))
  }

  function ReadSum(algorithm: Algorithm, b: Data): Option<Checksum> {
    var parts :- ReadHead(b, 0);
    var digest :- ReadBlob(parts.rest, 2, DigestLength(algorithm));
    var kind := if parts.value == 0 then FullObject else Composite(parts.value);
    var checksum := ChecksumValue(algorithm, kind, digest.value);
    if parts.value < U32_LIMIT && digest.rest == [] && ValidChecksum(checksum) then Some(checksum) else None
  }

  lemma {:induction false} SumRoundTrip(c: Checksum)
    ensures ReadSum(c.algorithm, PutSum(c)) == Some(c)
  {
    HeadRoundTrip(0, KindParts(c.kind), PutBlob(2, c.digest, []));
    BlobRoundTrip(2, c.digest, DigestLength(c.algorithm), []);
  }

  lemma {:induction false} SumCanonical(algorithm: Algorithm, b: Data)
    requires ReadSum(algorithm, b).Some?
    ensures var c := ReadSum(algorithm, b).value; c.algorithm == algorithm && b == PutSum(c)
  {
    HeadCanonical(b, 0);
    BlobCanonical(ReadHead(b, 0).value.rest, 2, DigestLength(algorithm));
  }

  function EncodeChecksum(c: Checksum): Data {
    PutHead(4, 3, PutHead(0, AlgorithmTag(c.algorithm), PutSum(c)))
  }

  function DecodeChecksum(b: Data): Option<Checksum> {
    if |b| > MAX_CHECKSUM then None
    else
      var items :- ReadHead(b, 4);
      if items.value != 3 then None
      else
        var tag :- ReadHead(items.rest, 0);
        var algorithm :- TagAlgorithm(tag.value);
        ReadSum(algorithm, tag.rest)
  }

  lemma {:induction false} ChecksumLength(c: Checksum)
    ensures 0 < |EncodeChecksum(c)| <= MAX_CHECKSUM
  {
    var digest := PutBlob(2, c.digest, []);
    HeadLength(2, |c.digest|, c.digest + []);
    HeadLength(0, KindParts(c.kind), digest);
    HeadLength(0, AlgorithmTag(c.algorithm), PutSum(c));
    HeadLength(4, 3, PutHead(0, AlgorithmTag(c.algorithm), PutSum(c)));
  }

  /** What the three array items of a checksum decode to. */
  lemma {:induction false} ChecksumItems(b: Data, items: Data, tag: U64, rest: Data)
    requires |b| <= MAX_CHECKSUM && ReadHead(b, 4) == Some(Taken(3, items)) && ReadHead(items, 0) == Some(Taken(tag, rest))
    requires TagAlgorithm(tag).Some?
    ensures DecodeChecksum(b) == ReadSum(TagAlgorithm(tag).value, rest)
  {
  }

  lemma {:induction false} ChecksumArray(tag: U64, sum: Data)
    requires TagAlgorithm(tag).Some? && |PutHead(4, 3, PutHead(0, tag, sum))| <= MAX_CHECKSUM
    ensures DecodeChecksum(PutHead(4, 3, PutHead(0, tag, sum))) == ReadSum(TagAlgorithm(tag).value, sum)
  {
    var items := PutHead(0, tag, sum);
    HeadRoundTrip(4, 3, items);
    HeadRoundTrip(0, tag, sum);
    ChecksumItems(PutHead(4, 3, items), items, tag, sum);
  }

  lemma {:induction false} TaggedAlgorithm(a: Algorithm)
    ensures TagAlgorithm(AlgorithmTag(a)) == Some(a)
  {
  }

  lemma {:induction false} ChecksumRoundTrip(c: Checksum)
    ensures DecodeChecksum(EncodeChecksum(c)) == Some(c)
  {
    ChecksumLength(c);
    TaggedAlgorithm(c.algorithm);
    ChecksumArray(AlgorithmTag(c.algorithm), PutSum(c));
    SumRoundTrip(c);
  }

  lemma {:induction false} AlgorithmTagged(n: nat)
    requires TagAlgorithm(n).Some?
    ensures AlgorithmTag(TagAlgorithm(n).value) == n
  {
  }

  lemma {:induction false} ChecksumCanonical(b: Data)
    requires DecodeChecksum(b).Some?
    ensures b == EncodeChecksum(DecodeChecksum(b).value)
  {
    var items := ReadHead(b, 4).value;
    var tag := ReadHead(items.rest, 0).value;
    var algorithm := TagAlgorithm(tag.value).value;
    AlgorithmTagged(tag.value);
    ChecksumItems(b, items.rest, tag.value, tag.rest);
    SumCanonical(algorithm, tag.rest);
    HeadCanonical(items.rest, 0);
    HeadCanonical(b, 4);
  }

  // ---------------------------------------------------------------- completion receipts

  const MAX_RECEIPT := 2048

  function PutOptionalChecksum(checksum: Option<Checksum>, tail: Data): Data {
    match checksum
    case None => PutByte(0xf6, tail)
    case Some(c) => ChecksumLength(c); PutBlob(2, EncodeChecksum(c), tail)
  }

  function ReadOptionalChecksum(b: Data): Option<Taken<Option<Checksum>>> {
    if b != [] && b[0] == 0xf6 then Some(Taken(None, b[1..]))
    else
      var blob :- ReadBlob(b, 2, MAX_CHECKSUM);
      var checksum :- DecodeChecksum(blob.value);
      Some(Taken(Some(checksum), blob.rest))
  }

  lemma {:induction false} OptionalChecksumRoundTrip(checksum: Option<Checksum>, tail: Data)
    ensures ReadOptionalChecksum(PutOptionalChecksum(checksum, tail)) == Some(Taken(checksum, tail))
  {
    if checksum.Some? {
      var bytes := EncodeChecksum(checksum.value);
      ChecksumLength(checksum.value);
      ChecksumRoundTrip(checksum.value);
      BlobRoundTrip(2, bytes, MAX_CHECKSUM, tail);
      HeadLength(2, |bytes|, bytes + tail);
    }
  }

  lemma {:induction false} OptionalChecksumCanonical(b: Data)
    requires ReadOptionalChecksum(b).Some?
    ensures var t := ReadOptionalChecksum(b).value; b == PutOptionalChecksum(t.value, t.rest)
  {
    if b != [] && b[0] == 0xf6 {
      assert b == [b[0]] + b[1..];
    } else {
      BlobCanonical(b, 2, MAX_CHECKSUM);
      ChecksumCanonical(ReadBlob(b, 2, MAX_CHECKSUM).value.value);
    }
  }

  /** The last three fields of a receipt. */
  function PutOutcome(r: Receipt, tail: Data): Data {
    PutHead(0, r.contentLen, PutBlob(2, EncodeEtag(r.etag), PutOptionalChecksum(r.checksum, tail)))
  }

  function ReadOutcome(b: Data): Option<Taken<(U64, Etag, Option<Checksum>)>> {
    var contentLen :- ReadHead(b, 0);
    var bytes :- ReadBlob(contentLen.rest, 2, 20);
    var etag :- DecodeEtag(bytes.value);
    var checksum :- ReadOptionalChecksum(bytes.rest);
    Some(Taken((contentLen.value, etag, checksum.value), checksum.rest))
  }

  lemma {:induction false} OutcomeRoundTrip(r: Receipt, tail: Data)
    ensures ReadOutcome(PutOutcome(r, tail)) == Some(Taken((r.contentLen, r.etag, r.checksum), tail))
  {
    var checksum := PutOptionalChecksum(r.checksum, tail);
    HeadRoundTrip(0, r.contentLen, PutBlob(2, EncodeEtag(r.etag), checksum));
    BlobRoundTrip(2, EncodeEtag(r.etag), 20, checksum);
    EtagRoundTrip(r.etag);
    OptionalChecksumRoundTrip(r.checksum, tail);
  }

  lemma {:induction false} OutcomeCanonical(b: Data, r: Receipt)
    requires ReadOutcome(b).Some? && ReadOutcome(b).value.value == (r.contentLen, r.etag, r.checksum)
    ensures b == PutOutcome(r, ReadOutcome(b).value.rest)
  {
    var contentLen := ReadHead(b, 0).value;
    HeadCanonical(b, 0);
    BlobCanonical(contentLen.rest, 2, 20);
    var bytes := ReadBlob(contentLen.rest, 2, 20).value;
    EtagCanonical(bytes.value);
    OptionalChecksumCanonical(bytes.rest);
  }

  function Read32Blob(b: Data): Option<Taken<Bytes32>> {
    var blob :- ReadBlob(b, 2, 32);
    if |blob.value| == 32 then Some(Taken(blob.value, blob.rest)) else None
  }

  /** The fixed eight-field array. */
  function EncodeReceipt(r: Receipt): Data
    requires |r.key| <= 1024
  {
    PutHead(4, 8, PutBlob(2, r.uploadId, PutHead(0, r.sequence, PutBlob(2, r.selectionDigest,
      PutBlob(2, r.attemptsDigest, PutBlob(3, r.key, PutOutcome(r, [])))))))
  }

  function DecodeReceipt(b: Data): Option<Receipt> {
    if |b| > MAX_RECEIPT then None
    else
      var items :- ReadHead(b, 4);
      if items.value != 8 then None
      else
        var uploadId :- Read32Blob(items.rest);
        var sequence :- ReadHead(uploadId.rest, 0);
        var selection :- Read32Blob(sequence.rest);
        var attempts :- Read32Blob(selection.rest);
        var key :- ReadBlob(attempts.rest, 3, 1024);
        if !IsText(key.value) then None
        else
          var outcome :- ReadOutcome(key.rest);
          var (contentLen, etag, checksum) := outcome.value;
          var receipt := Receipt(uploadId.value, sequence.value, selection.value, attempts.value,
                                 key.value, contentLen, etag, checksum);
          if outcome.rest == [] && ValidReceipt(receipt) then Some(receipt) else None
  }

  lemma {:induction false} OutcomeLength(r: Receipt)
    ensures |PutOutcome(r, [])| <= 96
  {
    var checksum := PutOptionalChecksum(r.checksum, []);
    if r.checksum.Some? {
      ChecksumLength(r.checksum.value);
      HeadLength(2, |EncodeChecksum(r.checksum.value)|, EncodeChecksum(r.checksum.value) + []);
    }
    HeadLength(2, 20, EncodeEtag(r.etag) + checksum);
    HeadLength(0, r.contentLen, PutBlob(2, EncodeEtag(r.etag), checksum));
  }

  /** A valid receipt always fits its size bound. */
  lemma {:induction false} ReceiptLength(r: Receipt)
    requires |r.key| <= 1024
    ensures |EncodeReceipt(r)| <= MAX_RECEIPT
  {
    var outcome := PutOutcome(r, []);
    OutcomeLength(r);
    var key := PutBlob(3, r.key, outcome);
    HeadLength(3, |r.key|, r.key + outcome);
    var attempts := PutBlob(2, r.attemptsDigest, key);
    HeadLength(2, 32, r.attemptsDigest + key);
    var selection := PutBlob(2, r.selectionDigest, attempts);
    HeadLength(2, 32, r.selectionDigest + attempts);
    var sequence := PutHead(0, r.sequence, selection);
    HeadLength(0, r.sequence, selection);
    HeadLength(2, 32, r.uploadId + sequence);
    HeadLength(4, 8, PutBlob(2, r.uploadId, sequence));
  }

  lemma {:induction false} ReceiptRoundTrip(r: Receipt)
    requires ValidReceipt(r)
    ensures DecodeReceipt(EncodeReceipt(r)) == Some(r)
  {
    ReceiptLength(r);
    var outcome := PutOutcome(r, []);
    var key := PutBlob(3, r.key, outcome);
    var attempts := PutBlob(2, r.attemptsDigest, key);
    var selection := PutBlob(2, r.selectionDigest, attempts);
    var sequence := PutHead(0, r.sequence, selection);
    HeadRoundTrip(4, 8, PutBlob(2, r.uploadId, sequence));
    BlobRoundTrip(2, r.uploadId, 32, sequence);
    HeadRoundTrip(0, r.sequence, selection);
    BlobRoundTrip(2, r.selectionDigest, 32, attempts);
    BlobRoundTrip(2, r.attemptsDigest, 32, key);
    BlobRoundTrip(3, r.key, 1024, outcome);
    OutcomeRoundTrip(r, []);
  }

  lemma {:induction false} ReceiptCanonical(b: Data)
    requires DecodeReceipt(b).Some?
    ensures var r := DecodeReceipt(b).value; ValidReceipt(r) && b == EncodeReceipt(r)
  {
    var r := DecodeReceipt(b).value;
    var items := ReadHead(b, 4).value;
    var uploadId := Read32Blob(items.rest).value;
    var sequence := ReadHead(uploadId.rest, 0).value;
    var selection := Read32Blob(sequence.rest).value;
    var attempts := Read32Blob(selection.rest).value;
    var key := ReadBlob(attempts.rest, 3, 1024).value;
    HeadCanonical(b, 4);
    BlobCanonical(items.rest, 2, 32);
    HeadCanonical(uploadId.rest, 0);
    BlobCanonical(sequence.rest, 2, 32);
    BlobCanonical(selection.rest, 2, 32);
    BlobCanonical(attempts.rest, 3, 1024);
    OutcomeCanonical(key.rest, r);
  }
}
