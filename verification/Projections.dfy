/** The two projections of a mutation: namespace records ordered by blind key and listing records
    ordered by path, the latter front-coded against their predecessor in the frame. */
module Projections {
  import opened Prelude
  import opened Types
  import opened Wire
  import opened Cbor
  import opened RunModel

  // ---------------------------------------------------------------- pieces

  function PutPointer(p: Pointer, tail: Data): Data {
    match p
    case Empty => PutByte(0, tail)
    case InSelf(r) => PutByte(1, PutVarint(r.ordinal, PutVarint(r.offset, tail)))
    case InPack(c, r) => PutByte(2, PutVarint(c, PutVarint(r.ordinal, PutVarint(r.offset, tail))))
    case InStream(c) => PutByte(5, PutVarint(c, tail))
  }

  function ReadRecordPointer(b: Data): Option<Taken<RecordPointer>> {
    var ordinal :- ReadU32(b);
    var offset :- ReadU32(ordinal.rest);
    Some(Taken(RecordPointer(ordinal.value, offset.value), offset.rest))
  }

  function ReadPointer(b: Data): Option<Taken<Pointer>> {
    var tag :- ReadByte(b);
    if tag.value == 0 then Some(Taken(Empty, tag.rest))
    else if tag.value == 1 then
      var record :- ReadRecordPointer(tag.rest);
      Some(Taken(InSelf(record.value), record.rest))
    else if tag.value == 2 then
      var container :- ReadU32(tag.rest);
      var record :- ReadRecordPointer(container.rest);
      Some(Taken(InPack(container.value, record.value), record.rest))
    else if tag.value == 5 then
      var container :- ReadU32(tag.rest);
      Some(Taken(InStream(container.value), container.rest))
    else None
  }

  lemma {:induction false} PointerRoundTrip(p: Pointer, tail: Data)
    ensures ReadPointer(PutPointer(p, tail)) == Some(Taken(p, tail))
  {
    match p {
      case Empty =>
      case InSelf(r) =>
        ByteRoundTrip(1, PutVarint(r.ordinal, PutVarint(r.offset, tail)));
        U32RoundTrip(r.ordinal, PutVarint(r.offset, tail));
        U32RoundTrip(r.offset, tail);
      case InPack(c, r) =>
        ByteRoundTrip(2, PutVarint(c, PutVarint(r.ordinal, PutVarint(r.offset, tail))));
        U32RoundTrip(c, PutVarint(r.ordinal, PutVarint(r.offset, tail)));
        U32RoundTrip(r.ordinal, PutVarint(r.offset, tail));
        U32RoundTrip(r.offset, tail);
      case InStream(c) =>
        ByteRoundTrip(5, PutVarint(c, tail));
        U32RoundTrip(c, tail);
    }
  }

  lemma {:induction false} RecordPointerCanonical(b: Data)
    requires ReadRecordPointer(b).Some?
    ensures var t := ReadRecordPointer(b).value; b == PutVarint(t.value.ordinal, PutVarint(t.value.offset, t.rest))
  {
    U32Canonical(b);
    U32Canonical(ReadU32(b).value.rest);
  }

  lemma {:induction false} PointerCanonical(b: Data)
    requires ReadPointer(b).Some?
    ensures var t := ReadPointer(b).value; b == PutPointer(t.value, t.rest)
  {
    ByteCanonical(b);
    var rest := b[1..];
    if b[0] == 1 {
      RecordPointerCanonical(rest);
    } else if b[0] == 2 {
      U32Canonical(rest);
      RecordPointerCanonical(ReadU32(rest).value.rest);
    } else if b[0] == 5 {
      U32Canonical(rest);
    }
  }

  function ModeTag(m: Mode): Byte {
    match m
    case Unlocked => 0
    case Governance => 1
    case Compliance => 2
  }

  function PutRetention(r: Option<Retention>, tail: Data): Data {
    match r
    case None => PutByte(0, tail)
    case Some(x) => PutByte(1, PutByte(ModeTag(x.mode), PutVarint(x.days, tail)))
  }

  function ReadRetention(b: Data): Option<Taken<Option<Retention>>> {
    var tag :- ReadByte(b);
    if tag.value == 0 then Some(Taken(None, tag.rest))
    else if tag.value == 1 then
      var mode :- ReadByte(tag.rest);
      var days :- ReadU32(mode.rest);
      if mode.value == 0 then Some(Taken(Some(Retention(Unlocked, days.value)), days.rest))
      else if mode.value == 1 then Some(Taken(Some(Retention(Governance, days.value)), days.rest))
      else if mode.value == 2 then Some(Taken(Some(Retention(Compliance, days.value)), days.rest))
      else None
    else None
  }

  lemma {:induction false} RetentionRoundTrip(r: Option<Retention>, tail: Data)
    ensures ReadRetention(PutRetention(r, tail)) == Some(Taken(r, tail))
  {
    if r.Some? {
      var days := PutVarint(r.value.days, tail);
      ByteRoundTrip(1, PutByte(ModeTag(r.value.mode), days));
      ByteRoundTrip(ModeTag(r.value.mode), days);
      U32RoundTrip(r.value.days, tail);
    }
  }

  lemma {:induction false} RetentionCanonical(b: Data)
    requires ReadRetention(b).Some?
    ensures var t := ReadRetention(b).value; b == PutRetention(t.value, t.rest)
  {
    ByteCanonical(b);
    if b[0] == 1 {
      ByteCanonical(b[1..]);
      U32Canonical(b[1..][1..]);
    }
  }

  function PutHold(h: Option<Hold>, tail: Data): Data {
    PutByte(match h case None => 0 case Some(Off) => 1 case Some(On) => 2, tail)
  }

  function ReadHold(b: Data): Option<Taken<Option<Hold>>> {
    var tag :- ReadByte(b);
    if tag.value == 0 then Some(Taken(None, tag.rest))
    else if tag.value == 1 then Some(Taken(Some(Off), tag.rest))
    else if tag.value == 2 then Some(Taken(Some(On), tag.rest))
    else None
  }

  lemma {:induction false} HoldRoundTrip(h: Option<Hold>, tail: Data)
    ensures ReadHold(PutHold(h, tail)) == Some(Taken(h, tail))
  {
    ByteRoundTrip(match h case None => 0 case Some(Off) => 1 case Some(On) => 2, tail);
  }

  lemma {:induction false} HoldCanonical(b: Data)
    requires ReadHold(b).Some?
    ensures var t := ReadHold(b).value; b == PutHold(t.value, t.rest)
  {
    ByteCanonical(b);
  }

  /** A length byte, zero for no checksum, then the encoded checksum. */
  function PutChecksum(c: Option<Checksum>, tail: Data): Data {
    match c
    case None => PutByte(0, tail)
    case Some(x) => ChecksumLength(x); PutByte(|EncodeChecksum(x)| as Byte, EncodeChecksum(x) + tail)
  }

  function ReadChecksum(b: Data): Option<Taken<Option<Checksum>>> {
    var length :- ReadByte(b);
    if length.value == 0 then Some(Taken(None, length.rest))
    else if length.value as nat > MAX_CHECKSUM then None
    else
      var bytes :- ReadBytes(length.rest, length.value as nat);
      var checksum :- DecodeChecksum(bytes.value);
      Some(Taken(Some(checksum), bytes.rest))
  }

  lemma {:induction false} WireChecksumRoundTrip(c: Option<Checksum>, tail: Data)
    ensures ReadChecksum(PutChecksum(c, tail)) == Some(Taken(c, tail))
  {
    if c.Some? {
      var bytes := EncodeChecksum(c.value);
      ChecksumLength(c.value);
      ChecksumRoundTrip(c.value);
      ByteRoundTrip(|bytes| as Byte, bytes + tail);
      BytesRoundTrip(bytes, tail);
    }
  }

  lemma {:induction false} WireChecksumCanonical(b: Data)
    requires ReadChecksum(b).Some?
    ensures var t := ReadChecksum(b).value; b == PutChecksum(t.value, t.rest)
  {
    ByteCanonical(b);
    if b[0] != 0 {
      BytesCanonical(b[1..], b[0] as nat);
      ChecksumCanonical(ReadBytes(b[1..], b[0] as nat).value.value);
    }
  }

  // ---------------------------------------------------------------- namespace records

  /** A namespace record; `key` is an ordinal into the table of namespace key names. */
  datatype NsRecord =
    | NsUpsert(
        ordinal: U32, blindKey: Bytes32, key: U32, generation: U64, payload: Pointer, contentLen: U64,
        modifiedAt: I64, retention: Option<Retention>, legalHold: Option<Hold>, checksum: Option<Checksum>, etag: Etag)
    | NsTombstone(ordinal: U32, blindKey: Bytes32, key: U32, generation: U64)

  /** The facts that only an upsert carries. */
  datatype Facts = Facts(
    payload: Pointer, contentLen: U64, modifiedAt: I64, retention: Option<Retention>,
    legalHold: Option<Hold>, checksum: Option<Checksum>, etag: Etag)

  function FactsOf(r: NsRecord): Facts
    requires r.NsUpsert?
  {
    Facts(r.payload, r.contentLen, r.modifiedAt, r.retention, r.legalHold, r.checksum, r.etag)
  }

  function PutPolicy(f: Facts): Data {
    PutRetention(f.retention, PutHold(f.legalHold, PutChecksum(f.checksum, EncodeEtag(f.etag))))
  }

  function ReadPolicy(b: Data): Option<(Option<Retention>, Option<Hold>, Option<Checksum>, Etag)> {
    var retention :- ReadRetention(b);
    var legalHold :- ReadHold(retention.rest);
    var checksum :- ReadChecksum(legalHold.rest);
    var etag :- DecodeEtag(checksum.rest);
    Some((retention.value, legalHold.value, checksum.value, etag))
  }

  lemma {:induction false} PolicyRoundTrip(f: Facts)
    ensures ReadPolicy(PutPolicy(f)) == Some((f.retention, f.legalHold, f.checksum, f.etag))
  {
    var etag := EncodeEtag(f.etag);
    var checksum := PutChecksum(f.checksum, etag);
    RetentionRoundTrip(f.retention, PutHold(f.legalHold, checksum));
    HoldRoundTrip(f.legalHold, checksum);
    WireChecksumRoundTrip(f.checksum, etag);
    EtagRoundTrip(f.etag);
  }

  lemma {:induction false} PolicyCanonical(b: Data, f: Facts)
    requires ReadPolicy(b) == Some((f.retention, f.legalHold, f.checksum, f.etag))
    ensures b == PutPolicy(f)
  {
    var retention := ReadRetention(b).value;
    var legalHold := ReadHold(retention.rest).value;
    RetentionCanonical(b);
    HoldCanonical(retention.rest);
    WireChecksumCanonical(legalHold.rest);
    EtagCanonical(ReadChecksum(legalHold.rest).value.rest);
  }

  function PutFacts(f: Facts): Data {
    PutPointer(f.payload, PutVarint(f.contentLen, PutI64(f.modifiedAt, PutPolicy(f))))
  }

  function ReadFacts(b: Data): Option<Facts> {
    var payload :- ReadPointer(b);
    var contentLen :- ReadVarint(payload.rest);
    var modifiedAt :- ReadI64(contentLen.rest);
    var policy :- ReadPolicy(modifiedAt.rest);
    Some(Facts(payload.value, contentLen.value, modifiedAt.value, policy.0, policy.1, policy.2, policy.3))
  }

  lemma {:induction false} FactsRoundTrip(f: Facts)
    ensures ReadFacts(PutFacts(f)) == Some(f)
  {
    var policy := PutPolicy(f);
    var modified := PutI64(f.modifiedAt, policy);
    PointerRoundTrip(f.payload, PutVarint(f.contentLen, modified));
    VarintRoundTrip(f.contentLen, modified);
    I64RoundTrip(f.modifiedAt, policy);
    PolicyRoundTrip(f);
  }

  lemma {:induction false} FactsCanonical(b: Data)
    requires ReadFacts(b).Some?
    ensures b == PutFacts(ReadFacts(b).value)
  {
    var payload := ReadPointer(b).value;
    var contentLen := ReadVarint(payload.rest).value;
    PointerCanonical(b);
    VarintCanonical(payload.rest);
    I64Canonical(contentLen.rest);
    PolicyCanonical(ReadI64(contentLen.rest).value.rest, ReadFacts(b).value);
  }

  function PutNs(r: NsRecord): Data {
    PutVarint(r.ordinal, PutByte(if r.NsUpsert? then 0 else 1, r.blindKey + PutVarint(r.key, PutVarint(r.generation,
      if r.NsUpsert? then PutFacts(FactsOf(r)) else []))))
  }

  function ReadNs(b: Data): Option<NsRecord> {
    var ordinal :- ReadU32(b);
    var tag :- ReadByte(ordinal.rest);
    var blindKey :- Read32(tag.rest);
    var key :- ReadU32(blindKey.rest);
    var generation :- ReadVarint(key.rest);
    if tag.value == 0 then
      var f :- ReadFacts(generation.rest);
      Some(NsUpsert(ordinal.value, blindKey.value, key.value, generation.value, f.payload, f.contentLen,
                    f.modifiedAt, f.retention, f.legalHold, f.checksum, f.etag))
    else if tag.value == 1 && generation.rest == [] then
      Some(NsTombstone(ordinal.value, blindKey.value, key.value, generation.value))
    else None
  }

  /** A namespace record is read back exactly. */
  lemma {:induction false} NsRoundTrip(r: NsRecord)
    ensures ReadNs(PutNs(r)) == Some(r)
  {
    var facts := if r.NsUpsert? then PutFacts(FactsOf(r)) else [];
    var generation := PutVarint(r.generation, facts);
    var key := PutVarint(r.key, generation);
    var tag := if r.NsUpsert? then 0 else 1;
    U32RoundTrip(r.ordinal, PutByte(tag, r.blindKey + key));
    ByteRoundTrip(tag, r.blindKey + key);
    Read32RoundTrip(r.blindKey, key);
    U32RoundTrip(r.key, generation);
    VarintRoundTrip(r.generation, facts);
    if r.NsUpsert? { FactsRoundTrip(FactsOf(r)); }
  }

  /** An accepted namespace record has exactly one byte form. */
  lemma {:induction false} NsCanonical(b: Data)
    requires ReadNs(b).Some?
    ensures b == PutNs(ReadNs(b).value)
  {
    var ordinal := ReadU32(b).value;
    var tag := ReadByte(ordinal.rest).value;
    var blindKey := Read32(tag.rest).value;
    var key := ReadU32(blindKey.rest).value;
    var generation := ReadVarint(key.rest).value;
    U32Canonical(b);
    ByteCanonical(ordinal.rest);
    Read32Canonical(tag.rest);
    U32Canonical(blindKey.rest);
    VarintCanonical(key.rest);
    if tag.value == 0 {
      FactsCanonical(generation.rest);
      assert FactsOf(ReadNs(b).value) == ReadFacts(generation.rest).value;
    }
  }

  // ---------------------------------------------------------------- front-coded paths

  /** Length of the longest common prefix. */
  function SharedPrefix(previous: Data, current: Data): (n: nat)
    ensures n <= |previous| && n <= |current| && previous[..n] == current[..n]
    ensures n < |previous| && n < |current| ==> previous[n] != current[n]
  {
    if previous == [] || current == [] || previous[0] != current[0] then 0
    else
      var n := SharedPrefix(previous[1..], current[1..]);
      assert previous[..n + 1] == [previous[0]] + previous[1..][..n];
      assert current[..n + 1] == [current[0]] + current[1..][..n];
      n + 1
  }

  /** Two lengths that both look like the longest common prefix are equal. */
  lemma {:induction false} SharedPrefixUnique(previous: Data, current: Data, n: nat)
    requires n <= |previous| && n <= |current| && previous[..n] == current[..n]
    requires n < |previous| && n < |current| ==> previous[n] != current[n]
    ensures SharedPrefix(previous, current) == n
  {
    var m := SharedPrefix(previous, current);
    assert forall i | 0 <= i < n :: previous[i] == previous[..n][i] == current[..n][i] == current[i];
    assert forall i | 0 <= i < m :: previous[i] == previous[..m][i] == current[..m][i] == current[i];
  }

  function PutPath(previous: Data, path: Data, tail: Data): Data {
    var n := SharedPrefix(previous, path);
    PutVarint(n, PutVarint(|path| - n, path[n..] + tail))
  }

  /** Rebuilds a path; a prefix that could be longer is refused. */
  function ReadPath(limits: Limits, previous: Data, b: Data): Option<Taken<Text>> {
    var prefix :- ReadCount(b, limits.maxPathBytes);
    if prefix.value > |previous| then None
    else
      var suffixLen :- ReadCount(prefix.rest, limits.maxPathBytes);
      if prefix.value + suffixLen.value > limits.maxPathBytes then None
      else
        var suffix :- ReadBytes(suffixLen.rest, suffixLen.value);
        if prefix.value < |previous| && suffix.value != [] && previous[prefix.value] == suffix.value[0] then None
        else
          var path := previous[..prefix.value] + suffix.value;
          if IsText(path) then Some(Taken(path, suffix.rest)) else None
  }

  lemma {:induction false} PathRoundTrip(limits: Limits, previous: Data, path: Text, tail: Data)
    requires |path| <= limits.maxPathBytes
    ensures ReadPath(limits, previous, PutPath(previous, path, tail)) == Some(Taken(path, tail))
  {
    var n := SharedPrefix(previous, path);
    var suffix := path[n..];
    CountRoundTrip(n, limits.maxPathBytes, PutVarint(|suffix|, suffix + tail));
    CountRoundTrip(|suffix|, limits.maxPathBytes, suffix + tail);
    BytesRoundTrip(suffix, tail);
    assert previous[..n] + suffix == path;
  }

  lemma {:induction false} PathCanonical(limits: Limits, previous: Data, b: Data)
    requires ReadPath(limits, previous, b).Some?
    ensures var t := ReadPath(limits, previous, b).value;
            |t.value| <= limits.maxPathBytes && b == PutPath(previous, t.value, t.rest)
  {
    var t := ReadPath(limits, previous, b).value;
    var prefix := ReadCount(b, limits.maxPathBytes).value;
    var suffixLen := ReadCount(prefix.rest, limits.maxPathBytes).value;
    CountCanonical(b, limits.maxPathBytes);
    CountCanonical(prefix.rest, limits.maxPathBytes);
    BytesCanonical(suffixLen.rest, suffixLen.value);
    assert t.value[..prefix.value] == previous[..prefix.value];
    assert t.value[prefix.value..] == ReadBytes(suffixLen.rest, suffixLen.value).value.value;
    SharedPrefixUnique(previous, t.value, prefix.value);
  }

  // ---------------------------------------------------------------- listing records

  datatype LsRecord =
    | LsUpsert(path: Text, ordinal: U32, generation: U64, contentLen: U64, modifiedAt: I64)
    | LsTombstone(path: Text, ordinal: U32, generation: U64)

  /** The part of a listing record that does not depend on its predecessor. */
  function LsBody(r: LsRecord): Data {
    PutVarint(r.ordinal, PutByte(if r.LsUpsert? then 0 else 1, PutVarint(r.generation,
      if r.LsUpsert? then PutVarint(r.contentLen, PutI64(r.modifiedAt, [])) else [])))
  }

  function ReadLsBody(path: Text, b: Data): Option<LsRecord> {
    var ordinal :- ReadU32(b);
    var tag :- ReadByte(ordinal.rest);
    var generation :- ReadVarint(tag.rest);
    if tag.value == 0 then
      var contentLen :- ReadVarint(generation.rest);
      var modifiedAt :- ReadI64(contentLen.rest);
      if modifiedAt.rest == [] then
        Some(LsUpsert(path, ordinal.value, generation.value, contentLen.value, modifiedAt.value))
      else None
    else if tag.value == 1 && generation.rest == [] then
      Some(LsTombstone(path, ordinal.value, generation.value))
    else None
  }

  lemma {:induction false} LsBodyRoundTrip(r: LsRecord)
    ensures ReadLsBody(r.path, LsBody(r)) == Some(r)
  {
    var rest := if r.LsUpsert? then PutVarint(r.contentLen, PutI64(r.modifiedAt, [])) else [];
    var tag := if r.LsUpsert? then 0 else 1;
    U32RoundTrip(r.ordinal, PutByte(tag, PutVarint(r.generation, rest)));
    ByteRoundTrip(tag, PutVarint(r.generation, rest));
    VarintRoundTrip(r.generation, rest);
    if r.LsUpsert? {
      VarintRoundTrip(r.contentLen, PutI64(r.modifiedAt, []));
      I64RoundTrip(r.modifiedAt, []);
    }
  }

  lemma {:induction false} LsBodyCanonical(path: Text, b: Data)
    requires ReadLsBody(path, b).Some?
    ensures ReadLsBody(path, b).value.path == path && b == LsBody(ReadLsBody(path, b).value)
  {
    var ordinal := ReadU32(b).value;
    var tag := ReadByte(ordinal.rest).value;
    var generation := ReadVarint(tag.rest).value;
    U32Canonical(b);
    ByteCanonical(ordinal.rest);
    VarintCanonical(tag.rest);
    if tag.value == 0 {
      VarintCanonical(generation.rest);
      I64Canonical(ReadVarint(generation.rest).value.rest);
    }
  }

  function PutLs(previous: Data, r: LsRecord): Data {
    PutPath(previous, r.path, LsBody(r))
  }

  function ReadLs(limits: Limits, previous: Data, b: Data): Option<LsRecord> {
    var path :- ReadPath(limits, previous, b);
    ReadLsBody(path.value, path.rest)
  }

  /** A listing record is read back exactly against the same predecessor. */
  lemma {:induction false} LsRoundTrip(limits: Limits, previous: Data, r: LsRecord)
    requires |r.path| <= limits.maxPathBytes
    ensures ReadLs(limits, previous, PutLs(previous, r)) == Some(r)
  {
    PathRoundTrip(limits, previous, r.path, LsBody(r));
    LsBodyRoundTrip(r);
  }

  /** An accepted listing record has exactly one byte form after its predecessor. */
  lemma {:induction false} LsCanonical(limits: Limits, previous: Data, b: Data)
    requires ReadLs(limits, previous, b).Some?
    ensures var r := ReadLs(limits, previous, b).value; |r.path| <= limits.maxPathBytes && b == PutLs(previous, r)
  {
    PathCanonical(limits, previous, b);
    var path := ReadPath(limits, previous, b).value;
    LsBodyCanonical(path.value, path.rest);
  }
}
