/** Index-run frames: an independently authenticated header and length-prefixed records. */
module RunFrames {
  import opened Prelude
  import opened Wire
  import opened RunModel
  import opened RunRecords
  import opened Projections

  const DOMAIN := Ascii("rs3:index-run-frame-plaintext:v2\n")
  const WIRE_VERSION: nat := 10

  /** The role of a frame; metadata frames repeat the facts of the commit's own pack and the size of
      the namespace-key table. */
  datatype Role = Metadata(pack: Option<SelfPack>, keyCount: U64) | Namespace | Listing

  datatype Header = Header(
    role: Role,
    roleOrdinal: U32,
    sequence: U64,
    mutationCount: U32,
    roleCount: U64,
    frameCount: U64)

  function RoleTag(role: Role): Byte {
    match role
    case Metadata(_, _) => 0
    case Namespace => 1
    case Listing => 2
  }

  // ---------------------------------------------------------------- headers

  function PutPack(pack: Option<SelfPack>, tail: Data): Data {
    match pack
    case None => PutByte(0, tail)
    case Some(p) =>
      PutByte(1, p.packId + (p.attemptId + PutRecord(p.contentKeyId,
        PutU64(p.storedLen, PutVarint(p.recordCount, tail)))))
  }

  function ReadPack(limits: Limits, b: Data): Option<Taken<Option<SelfPack>>> {
    var tag :- ReadByte(b);
    if tag.value == 0 then Some(Taken(None, tag.rest))
    else if tag.value == 1 then
      var packId :- Read32(tag.rest);
      var attemptId :- Read32(packId.rest);
      var contentKeyId :- ReadText(attemptId.rest, limits.maxKeyIdBytes);
      var storedLen :- ReadU64(contentKeyId.rest);
      var recordCount :- ReadU32(storedLen.rest);
      var pack := SelfPack(packId.value, attemptId.value, contentKeyId.value, storedLen.value, recordCount.value);
      if SelfPackOk(limits, Some(pack)) then Some(Taken(Some(pack), recordCount.rest)) else None
    else None
  }

  lemma {:induction false} PackRoundTrip(limits: Limits, pack: Option<SelfPack>, tail: Data)
    requires SelfPackOk(limits, pack)
    ensures ReadPack(limits, PutPack(pack, tail)) == Some(Taken(pack, tail))
  {
    if pack.Some? {
      var p := pack.value;
      var count := PutVarint(p.recordCount, tail);
      var stored := PutU64(p.storedLen, count);
      var key := PutRecord(p.contentKeyId, stored);
      ByteRoundTrip(1, p.packId + (p.attemptId + key));
      Read32RoundTrip(p.packId, p.attemptId + key);
      Read32RoundTrip(p.attemptId, key);
      TextRoundTrip(p.contentKeyId, limits.maxKeyIdBytes, stored);
      U64RoundTrip(p.storedLen, count);
      U32RoundTrip(p.recordCount, tail);
    }
  }

  lemma {:induction false} PackCanonical(limits: Limits, b: Data)
    requires ReadPack(limits, b).Some?
    ensures var t := ReadPack(limits, b).value; b == PutPack(t.value, t.rest) && SelfPackOk(limits, t.value)
  {
    ByteCanonical(b);
    if b[0] == 1 {
      var packId := Read32(b[1..]).value;
      var attemptId := Read32(packId.rest).value;
      var contentKeyId := ReadText(attemptId.rest, limits.maxKeyIdBytes).value;
      Read32Canonical(b[1..]);
      Read32Canonical(packId.rest);
      TextCanonical(attemptId.rest, limits.maxKeyIdBytes);
      U64Canonical(contentKeyId.rest);
      U32Canonical(ReadU64(contentKeyId.rest).value.rest);
    }
  }

  function PutRole(role: Role, tail: Data): Data {
    match role
    case Metadata(pack, keyCount) => PutPack(pack, PutVarint(keyCount, tail))
    case Namespace => tail
    case Listing => tail
  }

  function ReadRole(limits: Limits, tag: Byte, b: Data): Option<Taken<Role>> {
    if tag == 0 then
      var pack :- ReadPack(limits, b);
      var keyCount :- ReadCount(pack.rest, limits.maxMutations);
      Some(Taken(Metadata(pack.value, keyCount.value), keyCount.rest))
    else if tag == 1 then Some(Taken(Namespace, b))
    else if tag == 2 then Some(Taken(Listing, b))
    else None
  }

  predicate RoleOk(limits: Limits, role: Role) {
    role.Metadata? ==> SelfPackOk(limits, role.pack) && role.keyCount <= limits.maxMutations
  }

  lemma {:induction false} RoleRoundTrip(limits: Limits, role: Role, tail: Data)
    requires RoleOk(limits, role)
    ensures ReadRole(limits, RoleTag(role), PutRole(role, tail)) == Some(Taken(role, tail))
  {
    if role.Metadata? {
      PackRoundTrip(limits, role.pack, PutVarint(role.keyCount, tail));
      CountRoundTrip(role.keyCount, limits.maxMutations, tail);
    }
  }

  lemma {:induction false} RoleCanonical(limits: Limits, tag: Byte, b: Data)
    requires ReadRole(limits, tag, b).Some?
    ensures var t := ReadRole(limits, tag, b).value;
            RoleTag(t.value) == tag && b == PutRole(t.value, t.rest) && RoleOk(limits, t.value)
  {
    if tag == 0 {
      PackCanonical(limits, b);
      CountCanonical(ReadPack(limits, b).value.rest, limits.maxMutations);
    }
  }

  /** How many records a role may have; the sum for metadata must itself fit a word. */
  function RoleLimit(limits: Limits, metadata: bool): Option<U64> {
    if !metadata then Some(limits.maxMutations)
    else if limits.maxContainers + limits.maxMutations + 1 < U64_LIMIT then
      Some(limits.maxContainers + limits.maxMutations + 1)
    else None
  }

  function PutCounts(h: Header, tail: Data): Data {
    PutVarint(h.roleOrdinal, PutU64(h.sequence, PutVarint(h.mutationCount,
      PutVarint(h.roleCount, PutVarint(h.frameCount, PutRole(h.role, tail))))))
  }

  function PutHeader(h: Header, tail: Data): Data {
    DOMAIN + PutInt(WIRE_VERSION, 2, PutByte(RoleTag(h.role), PutCounts(h, tail)))
  }

  function ReadCounts(limits: Limits, tag: Byte, b: Data): Option<Taken<Header>> {
    var roleOrdinal :- ReadU32(b);
    var sequence :- ReadU64(roleOrdinal.rest);
    var mutationCount :- ReadU32(sequence.rest);
    var maximum :- RoleLimit(limits, tag == 0);
    var roleCount :- ReadCount(mutationCount.rest, maximum);
    var frameCount :- ReadCount(roleCount.rest, maximum);
    var role :- ReadRole(limits, tag, frameCount.rest);
    Some(Taken(Header(role.value, roleOrdinal.value, sequence.value, mutationCount.value,
                      roleCount.value, frameCount.value), role.rest))
  }

  function ReadHeader(limits: Limits, b: Data): Option<Taken<Header>> {
    var domain :- ReadBytes(b, |DOMAIN|);
    if domain.value != DOMAIN then None
    else
      var version :- ReadInt(domain.rest, 2);
      if version.value != WIRE_VERSION then None
      else
        var tag :- ReadByte(version.rest);
        ReadCounts(limits, tag.value, tag.rest)
  }

  predicate HeaderOk(limits: Limits, h: Header) {
    && RoleOk(limits, h.role)
    && RoleLimit(limits, h.role.Metadata?).Some?
    && h.roleCount <= RoleLimit(limits, h.role.Metadata?).value
    && h.frameCount <= RoleLimit(limits, h.role.Metadata?).value
  }

  lemma {:induction false} CountsRoundTrip(limits: Limits, h: Header, tail: Data)
    requires HeaderOk(limits, h)
    ensures ReadCounts(limits, RoleTag(h.role), PutCounts(h, tail)) == Some(Taken(h, tail))
  {
    var maximum := RoleLimit(limits, h.role.Metadata?).value;
    var role := PutRole(h.role, tail);
    var frame := PutVarint(h.frameCount, role);
    var all := PutVarint(h.roleCount, frame);
    var mutations := PutVarint(h.mutationCount, all);
    U32RoundTrip(h.roleOrdinal, PutU64(h.sequence, mutations));
    U64RoundTrip(h.sequence, mutations);
    U32RoundTrip(h.mutationCount, all);
    CountRoundTrip(h.roleCount, maximum, frame);
    CountRoundTrip(h.frameCount, maximum, role);
    RoleRoundTrip(limits, h.role, tail);
  }

  lemma {:induction false} CountsCanonical(limits: Limits, tag: Byte, b: Data)
    requires ReadCounts(limits, tag, b).Some?
    ensures var t := ReadCounts(limits, tag, b).value;
            RoleTag(t.value.role) == tag && b == PutCounts(t.value, t.rest) && HeaderOk(limits, t.value)
  {
    var maximum := RoleLimit(limits, tag == 0).value;
    var roleOrdinal := ReadU32(b).value;
    var sequence := ReadU64(roleOrdinal.rest).value;
    var mutationCount := ReadU32(sequence.rest).value;
    var roleCount := ReadCount(mutationCount.rest, maximum).value;
    var frameCount := ReadCount(roleCount.rest, maximum).value;
    U32Canonical(b);
    U64Canonical(roleOrdinal.rest);
    U32Canonical(sequence.rest);
    CountCanonical(mutationCount.rest, maximum);
    CountCanonical(roleCount.rest, maximum);
    RoleCanonical(limits, tag, frameCount.rest);
  }

  lemma {:induction false} HeaderRoundTrip(limits: Limits, h: Header, tail: Data)
    requires HeaderOk(limits, h)
    ensures ReadHeader(limits, PutHeader(h, tail)) == Some(Taken(h, tail))
  {
    RadixValues();
    var counts := PutCounts(h, tail);
    var tag := PutByte(RoleTag(h.role), counts);
    BytesRoundTrip(DOMAIN, PutInt(WIRE_VERSION, 2, tag));
    IntRoundTrip(WIRE_VERSION, 2, tag);
    ByteRoundTrip(RoleTag(h.role), counts);
    CountsRoundTrip(limits, h, tail);
  }

  lemma {:induction false} HeaderCanonical(limits: Limits, b: Data)
    requires ReadHeader(limits, b).Some?
    ensures var t := ReadHeader(limits, b).value; b == PutHeader(t.value, t.rest) && HeaderOk(limits, t.value)
  {
    var domain := ReadBytes(b, |DOMAIN|).value;
    var version := ReadInt(domain.rest, 2).value;
    var tag := ReadByte(version.rest).value;
    BytesCanonical(b, |DOMAIN|);
    IntCanonical(domain.rest, 2);
    ByteCanonical(version.rest);
    CountsCanonical(limits, tag.value, tag.rest);
  }

  // ---------------------------------------------------------------- record lists

  function PutBodies(bodies: seq<Data>, tail: Data): Data {
    if bodies == [] then tail else PutRecord(bodies[0], PutBodies(bodies[1..], tail))
  }

  function ReadBodies(b: Data, count: nat, maximum: nat): Option<Taken<seq<Data>>>
    decreases count
  {
    if count == 0 then Some(Taken([], b))
    else
      var body :- ReadRecord(b, maximum);
      var rest :- ReadBodies(body.rest, count - 1, maximum);
      Some(Taken([body.value] + rest.value, rest.rest))
  }

  predicate BodiesOk(bodies: seq<Data>, maximum: nat) {
    forall i | 0 <= i < |bodies| :: |bodies[i]| <= maximum
  }

  lemma {:induction false} BodiesRoundTrip(bodies: seq<Data>, maximum: U64, tail: Data)
    requires BodiesOk(bodies, maximum)
    ensures ReadBodies(PutBodies(bodies, tail), |bodies|, maximum) == Some(Taken(bodies, tail))
  {
    if bodies != [] {
      BodiesRoundTrip(bodies[1..], maximum, tail);
      RecordRoundTrip(bodies[0], maximum, PutBodies(bodies[1..], tail));
      assert [bodies[0]] + bodies[1..] == bodies;
    }
  }

  lemma {:induction false} BodiesCanonical(b: Data, count: nat, maximum: nat)
    requires ReadBodies(b, count, maximum).Some?
    ensures var t := ReadBodies(b, count, maximum).value;
            |t.value| == count && b == PutBodies(t.value, t.rest) && BodiesOk(t.value, maximum)
    decreases count
  {
    if count > 0 {
      RecordCanonical(b, maximum);
      var body := ReadRecord(b, maximum).value;
      BodiesCanonical(body.rest, count - 1, maximum);
      var t := ReadBodies(b, count, maximum).value;
      assert t.value[1..] == ReadBodies(body.rest, count - 1, maximum).value.value;
    }
  }

  // ---------------------------------------------------------------- typed record lists

  predicate MetasOk(limits: Limits, metas: seq<Meta>) {
    forall i | 0 <= i < |metas| :: MetaOk(limits, metas[i])
  }

  function MetaBodies(limits: Limits, metas: seq<Meta>): (bodies: seq<Data>)
    requires MetasOk(limits, metas)
    ensures |bodies| == |metas| && forall i | 0 <= i < |metas| :: bodies[i] == PutMeta(metas[i])
  {
    seq(|metas|, i requires 0 <= i < |metas| => PutMeta(metas[i]))
  }

  function ReadMetas(limits: Limits, bodies: seq<Data>): Option<seq<Meta>> {
    TryMap((b: Data) => ReadMeta(limits, b), bodies)
  }

  function NsBodies(nss: seq<NsRecord>): (bodies: seq<Data>)
    ensures |bodies| == |nss| && forall i | 0 <= i < |nss| :: bodies[i] == PutNs(nss[i])
  {
    seq(|nss|, i requires 0 <= i < |nss| => PutNs(nss[i]))
  }

  function ReadNss(bodies: seq<Data>): Option<seq<NsRecord>> {
    TryMap(ReadNs, bodies)
  }

  /** The path a listing record is coded against: that of its predecessor in the frame. */
  function Previous(lss: seq<LsRecord>, i: nat): Data
    requires i < |lss|
  {
    if i == 0 then [] else lss[i - 1].path
  }

  function LsBodies(lss: seq<LsRecord>): (bodies: seq<Data>)
    ensures |bodies| == |lss| && forall i | 0 <= i < |lss| :: bodies[i] == PutLs(Previous(lss, i), lss[i])
  {
    seq(|lss|, i requires 0 <= i < |lss| => PutLs(Previous(lss, i), lss[i]))
  }

  function ReadLss(limits: Limits, previous: Data, bodies: seq<Data>): Option<seq<LsRecord>>
    decreases |bodies|
  {
    if bodies == [] then Some([])
    else
      var first :- ReadLs(limits, previous, bodies[0]);
      var rest :- ReadLss(limits, first.path, bodies[1..]);
      Some([first] + rest)
  }

  predicate PathsOk(limits: Limits, lss: seq<LsRecord>) {
    forall i | 0 <= i < |lss| :: |lss[i].path| <= limits.maxPathBytes
  }

  ghost predicate CodedAt(previous: Data, lss: seq<LsRecord>, bodies: seq<Data>, i: nat)
    requires i < |lss| == |bodies|
  {
    bodies[i] == PutLs(if i == 0 then previous else lss[i - 1].path, lss[i])
  }

  /** The bodies of listing records whose first one follows a given path. */
  ghost predicate CodedAfter(previous: Data, lss: seq<LsRecord>, bodies: seq<Data>) {
    |bodies| == |lss| && forall i | 0 <= i < |lss| :: CodedAt(previous, lss, bodies, i)
  }

  lemma {:induction false} CodedTail(previous: Data, lss: seq<LsRecord>, bodies: seq<Data>)
    requires CodedAfter(previous, lss, bodies) && lss != []
    ensures CodedAfter(lss[0].path, lss[1..], bodies[1..])
  {
    forall i | 0 <= i < |lss| - 1 ensures CodedAt(lss[0].path, lss[1..], bodies[1..], i) {
      assert CodedAt(previous, lss, bodies, i + 1);
    }
  }

  lemma {:induction false} CodedCons(previous: Data, first: LsRecord, lss: seq<LsRecord>, bodies: seq<Data>)
    requires bodies != [] && bodies[0] == PutLs(previous, first) && CodedAfter(first.path, lss, bodies[1..])
    ensures CodedAfter(previous, [first] + lss, bodies)
  {
    forall i | 0 <= i < |bodies| ensures CodedAt(previous, [first] + lss, bodies, i) {
      if i > 0 { assert CodedAt(first.path, lss, bodies[1..], i - 1); }
    }
  }

  lemma {:induction false} LssRoundTrip(limits: Limits, previous: Data, lss: seq<LsRecord>, bodies: seq<Data>)
    requires PathsOk(limits, lss) && CodedAfter(previous, lss, bodies)
    ensures ReadLss(limits, previous, bodies) == Some(lss)
    decreases |lss|
  {
    if lss != [] {
      assert CodedAt(previous, lss, bodies, 0);
      LsRoundTrip(limits, previous, lss[0]);
      CodedTail(previous, lss, bodies);
      LssRoundTrip(limits, lss[0].path, lss[1..], bodies[1..]);
      assert [lss[0]] + lss[1..] == lss;
    }
  }

  lemma {:induction false} LssCanonical(limits: Limits, previous: Data, bodies: seq<Data>)
    requires ReadLss(limits, previous, bodies).Some?
    ensures var lss := ReadLss(limits, previous, bodies).value;
            CodedAfter(previous, lss, bodies) && PathsOk(limits, lss)
    decreases |bodies|
  {
    if bodies != [] {
      LsCanonical(limits, previous, bodies[0]);
      var first := ReadLs(limits, previous, bodies[0]).value;
      LssCanonical(limits, first.path, bodies[1..]);
      CodedCons(previous, first, ReadLss(limits, first.path, bodies[1..]).value, bodies);
    }
  }

  lemma {:induction false} LsBodiesCoded(lss: seq<LsRecord>, bodies: seq<Data>)
    ensures CodedAfter([], lss, bodies) <==> bodies == LsBodies(lss)
  {
    if CodedAfter([], lss, bodies) {
      forall i | 0 <= i < |lss| ensures bodies[i] == LsBodies(lss)[i] { assert CodedAt([], lss, bodies, i); }
    }
    if bodies == LsBodies(lss) {
      forall i | 0 <= i < |lss| ensures CodedAt([], lss, bodies, i) { assert bodies[i] == PutLs(Previous(lss, i), lss[i]); }
    }
  }

  // ---------------------------------------------------------------- frames

  datatype Records = Metas(metas: seq<Meta>) | Nss(nss: seq<NsRecord>) | Lss(lss: seq<LsRecord>)

  datatype Frame = Frame(header: Header, records: Records)

  function Count(r: Records): nat {
    match r
    case Metas(metas) => |metas|
    case Nss(nss) => |nss|
    case Lss(lss) => |lss|
  }

  predicate RoleMatches(role: Role, r: Records) {
    match role
    case Metadata(_, _) => r.Metas?
    case Namespace => r.Nss?
    case Listing => r.Lss?
  }

  predicate RecordsOk(limits: Limits, r: Records) {
    match r
    case Metas(metas) => MetasOk(limits, metas)
    case Nss(nss) => BodiesOk(NsBodies(nss), limits.maxRecordBytes)
    case Lss(lss) => PathsOk(limits, lss) && BodiesOk(LsBodies(lss), limits.maxRecordBytes)
  }

  function Bodies(limits: Limits, r: Records): seq<Data>
    requires RecordsOk(limits, r)
  {
    match r
    case Metas(metas) => MetaBodies(limits, metas)
    case Nss(nss) => NsBodies(nss)
    case Lss(lss) => LsBodies(lss)
  }

  /** The largest record a role may hold before its tag is known. */
  function BodyLimit(limits: Limits, metadata: bool): U64 {
    if metadata && MetaLimit(limits, true) > limits.maxRecordBytes then MetaLimit(limits, true)
    else limits.maxRecordBytes
  }

  function ReadRecords(limits: Limits, role: Role, bodies: seq<Data>): Option<Records> {
    match role
    case Metadata(_, _) => (var metas :- ReadMetas(limits, bodies); Some(Metas(metas)))
    case Namespace => (var nss :- ReadNss(bodies); Some(Nss(nss)))
    case Listing => (var lss :- ReadLss(limits, [], bodies); Some(Lss(lss)))
  }

  lemma {:induction false} RecordsRoundTrip(limits: Limits, role: Role, r: Records)
    requires RoleMatches(role, r) && RecordsOk(limits, r)
    ensures ReadRecords(limits, role, Bodies(limits, r)) == Some(r)
    ensures BodiesOk(Bodies(limits, r), BodyLimit(limits, role.Metadata?)) && |Bodies(limits, r)| == Count(r)
  {
    match r {
      case Metas(metas) => MetasRoundTrip(limits, metas);
      case Nss(nss) => NssRoundTrip(nss);
      case Lss(lss) =>
        LsBodiesCoded(lss, LsBodies(lss));
        LssRoundTrip(limits, [], lss, LsBodies(lss));
    }
  }

  lemma {:induction false} MetasRoundTrip(limits: Limits, metas: seq<Meta>)
    requires MetasOk(limits, metas)
    ensures ReadMetas(limits, MetaBodies(limits, metas)) == Some(metas)
    ensures BodiesOk(MetaBodies(limits, metas), BodyLimit(limits, true))
  {
    var bodies := MetaBodies(limits, metas);
    var read := (b: Data) => ReadMeta(limits, b);
    forall i | 0 <= i < |bodies| ensures read(bodies[i]) == Some(metas[i]) {
      MetaRoundTrip(limits, metas[i]);
    }
    TryMapIs(read, bodies, metas);
  }

  lemma {:induction false} NssRoundTrip(nss: seq<NsRecord>)
    ensures ReadNss(NsBodies(nss)) == Some(nss)
  {
    var bodies := NsBodies(nss);
    forall i | 0 <= i < |bodies| ensures ReadNs(bodies[i]) == Some(nss[i]) {
      NsRoundTrip(nss[i]);
    }
    TryMapIs(ReadNs, bodies, nss);
  }

  lemma {:induction false} RecordsCanonical(limits: Limits, role: Role, bodies: seq<Data>)
    requires ReadRecords(limits, role, bodies).Some? && BodiesOk(bodies, BodyLimit(limits, role.Metadata?))
    ensures var r := ReadRecords(limits, role, bodies).value;
            RoleMatches(role, r) && Count(r) == |bodies| && RecordsOk(limits, r) && Bodies(limits, r) == bodies
  {
    match role {
      case Metadata(_, _) => MetasCanonical(limits, bodies);
      case Namespace => NssCanonical(bodies);
      case Listing =>
        LssCanonical(limits, [], bodies);
        LsBodiesCoded(ReadLss(limits, [], bodies).value, bodies);
    }
  }

  lemma {:induction false} MetasCanonical(limits: Limits, bodies: seq<Data>)
    requires ReadMetas(limits, bodies).Some?
    ensures var metas := ReadMetas(limits, bodies).value;
            MetasOk(limits, metas) && MetaBodies(limits, metas) == bodies
  {
    var metas := ReadMetas(limits, bodies).value;
    var read := (b: Data) => ReadMeta(limits, b);
    forall i | 0 <= i < |metas| ensures MetaOk(limits, metas[i]) && PutMeta(metas[i]) == bodies[i] {
      assert read(bodies[i]) == Some(TryMap(read, bodies).value[i]);
      MetaCanonical(limits, bodies[i]);
    }
  }

  lemma {:induction false} NssCanonical(bodies: seq<Data>)
    requires ReadNss(bodies).Some?
    ensures NsBodies(ReadNss(bodies).value) == bodies
  {
    var nss := ReadNss(bodies).value;
    forall i | 0 <= i < |nss| ensures PutNs(nss[i]) == bodies[i] {
      NsCanonical(bodies[i]);
    }
  }

  predicate FrameShape(limits: Limits, f: Frame) {
    && HeaderOk(limits, f.header)
    && RoleMatches(f.header.role, f.records)
    && RecordsOk(limits, f.records)
    && f.header.frameCount == Count(f.records)
  }

  function PutFrame(limits: Limits, f: Frame): Data
    requires FrameShape(limits, f)
  {
    PutHeader(f.header, PutBodies(Bodies(limits, f.records), []))
  }

  predicate FrameOk(limits: Limits, f: Frame) {
    FrameShape(limits, f) && |PutFrame(limits, f)| <= limits.maxFrameBytes
  }

  function ParseFrame(limits: Limits, b: Data): Option<Frame> {
    if |b| > limits.maxFrameBytes then None
    else
      var header :- ReadHeader(limits, b);
      var bodies :- ReadBodies(header.rest, header.value.frameCount, BodyLimit(limits, header.value.role.Metadata?));
      var records :- ReadRecords(limits, header.value.role, bodies.value);
      if bodies.rest == [] then Some(Frame(header.value, records)) else None
  }

  /** A frame is read back exactly. */
  lemma {:induction false} FrameRoundTrip(limits: Limits, f: Frame)
    requires FrameOk(limits, f)
    ensures ParseFrame(limits, PutFrame(limits, f)) == Some(f)
  {
    var bodies := Bodies(limits, f.records);
    RecordsRoundTrip(limits, f.header.role, f.records);
    HeaderRoundTrip(limits, f.header, PutBodies(bodies, []));
    BodiesRoundTrip(bodies, BodyLimit(limits, f.header.role.Metadata?), []);
  }

  /** An accepted frame has exactly one byte form. */
  lemma {:induction false} FrameCanonical(limits: Limits, b: Data)
    requires ParseFrame(limits, b).Some?
    ensures var f := ParseFrame(limits, b).value; FrameOk(limits, f) && PutFrame(limits, f) == b
  {
    var header := ReadHeader(limits, b).value;
    var maximum := BodyLimit(limits, header.value.role.Metadata?);
    HeaderCanonical(limits, b);
    BodiesCanonical(header.rest, header.value.frameCount, maximum);
    RecordsCanonical(limits, header.value.role, ReadBodies(header.rest, header.value.frameCount, maximum).value.value);
  }
}
