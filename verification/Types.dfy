/** Strongly typed values shared by index runs, receipts and payload layouts. */
module Types {
  import opened Prelude

  /** Length of the well-formed UTF-8 scalar that starts `b` (RFC 3629, section 4), or zero. */
  function ScalarLength(b: Data): (n: nat)
    ensures n <= |b|
  {
    if b == [] then 0
    else if b[0] < 0x80 then 1
    else if |b| >= 2 && 0xC2 <= b[0] <= 0xDF && Tail(b[1]) then 2
    else if |b| >= 3 && 0xE0 <= b[0] <= 0xEF && Tail(b[1]) && Tail(b[2])
      && (b[0] == 0xE0 ==> b[1] >= 0xA0) && (b[0] == 0xED ==> b[1] <= 0x9F) then 3
    else if |b| >= 4 && 0xF0 <= b[0] <= 0xF4 && Tail(b[1]) && Tail(b[2]) && Tail(b[3])
      && (b[0] == 0xF0 ==> b[1] >= 0x90) && (b[0] == 0xF4 ==> b[1] <= 0x8F) then 4
    else 0
  }

  predicate Tail(b: Byte) {
    0x80 <= b <= 0xBF
  }

  function Scalar(b: Data, n: nat): nat
    requires n == ScalarLength(b) && n > 0
  {
    if n == 1 then b[0] as int
    else if n == 2 then (b[0] as int % 32) * 64 + b[1] as int % 64
    else if n == 3 then (b[0] as int % 16) * 4096 + (b[1] as int % 64) * 64 + b[2] as int % 64
    else (b[0] as int % 8) * 262144 + (b[1] as int % 64) * 4096 + (b[2] as int % 64) * 64 + b[3] as int % 64
  }

  /** Unicode White_Space, the characters that trimming removes. */
  predicate Space(n: nat) {
    || 0x09 <= n <= 0x0D || n == 0x20 || n == 0x85 || n == 0xA0 || n == 0x1680
    || 0x2000 <= n <= 0x200A || n == 0x2028 || n == 0x2029 || n == 0x202F || n == 0x205F || n == 0x3000
  }

  predicate ValidUtf8(b: Data)
    decreases |b|
  {
    b == [] || (ScalarLength(b) > 0 && ValidUtf8(b[ScalarLength(b)..]))
  }

  predicate HasVisible(b: Data)
    decreases |b|
  {
    b != [] && ScalarLength(b) > 0
    && (!Space(Scalar(b, ScalarLength(b))) || HasVisible(b[ScalarLength(b)..]))
  }

  /** What the identifier and path constructors accept: UTF-8 that is not blank. */
  predicate IsText(b: Data) {
    ValidUtf8(b) && HasVisible(b)
  }

  type Text = b: Data | IsText(b) witness (assert ScalarLength([120]) == 1; [120])

  type Bytes16 = b: Data | |b| == 16 witness seq(16, _ => 0)
  type Bytes32 = b: Data | |b| == 32 witness seq(32, _ => 0)

  const MAX_PARTS := 10_000

  /** An ETag; `parts == 0` is an ordinary PUT. */
  datatype EtagValue = EtagValue(digest: Bytes16, parts: nat)

  type Etag = e: EtagValue | e.parts <= MAX_PARTS witness EtagValue(seq(16, _ => 0), 0)

  function PartCount(etag: Etag): Option<nat> {
    if etag.parts == 0 then None else Some(etag.parts)
  }

  datatype Algorithm = Crc32 | Crc32c | Crc64Nvme | Sha1 | Sha256

  function DigestLength(algorithm: Algorithm): nat {
    match algorithm
    case Crc32 => 4
    case Crc32c => 4
    case Crc64Nvme => 8
    case Sha1 => 20
    case Sha256 => 32
  }

  datatype ChecksumKind = FullObject | Composite(parts: nat)

  datatype ChecksumValue = ChecksumValue(algorithm: Algorithm, kind: ChecksumKind, digest: Data)

  predicate ValidChecksum(c: ChecksumValue) {
    && |c.digest| == DigestLength(c.algorithm)
    && (c.kind.Composite? ==> 1 <= c.kind.parts <= MAX_PARTS && c.algorithm != Crc64Nvme)
  }

  type Checksum = c: ChecksumValue | ValidChecksum(c) witness ChecksumValue(Crc32, FullObject, [0, 0, 0, 0])

  /** The result of one accepted multipart completion. */
  datatype Receipt = Receipt(
    uploadId: Bytes32,
    sequence: U64,
    selectionDigest: Bytes32,
    attemptsDigest: Bytes32,
    key: Text,
    contentLen: U64,
    etag: Etag,
    checksum: Option<Checksum>)

  predicate ValidReceipt(r: Receipt) {
    && PartCount(r.etag).Some?
    && r.sequence != 0
    && |r.key| <= 1024
    && (r.checksum.Some? ==>
          && !(r.checksum.value.algorithm in {Sha1, Sha256} && r.checksum.value.kind.FullObject?)
          && (r.checksum.value.kind.Composite? ==> r.checksum.value.kind.parts == r.etag.parts))
  }

  /** A receipt is valid exactly when it is of a multipart object of at most 10000 parts, in a commit, under
      a key of at most 1024 bytes, and its checksum, if any, is a composite over its parts or a full-object
      checksum of a CRC. */
  lemma {:induction false} ValidReceiptExactly(r: Receipt)
    ensures ValidReceipt(r) <==>
            && 1 <= r.etag.parts <= 10_000 && r.sequence > 0 && |r.key| <= 1024
            && (match r.checksum
                case None => true
                case Some(ChecksumValue(algorithm, Composite(parts), _)) => parts == r.etag.parts
                case Some(ChecksumValue(algorithm, FullObject, _)) => algorithm in {Crc32, Crc32c, Crc64Nvme})
  {
  }
}
