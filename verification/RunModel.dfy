/** Index runs: namespace mutations with the payload containers they point into, and what makes a
    run acceptable. */
module RunModel {
  import opened Prelude
  import opened Types
  import opened Order
  import opened PayloadLayout

  /** Encoder and decoder resource limits; machine words are 64 bits wide. */
  datatype Limits = Limits(
    maxTotalBytes: U64,
    maxFrameBytes: U64,
    maxRecordBytes: U64,
    maxContainers: U64,
    maxMutations: U64,
    maxPathBytes: U64,
    maxKeyIdBytes: U64,
    maxObjectIdBytes: U64,
    maxVersionIdBytes: U64)

  /** An exact backend object with the keyring envelope its payload was sealed under. */
  datatype Exact = Exact(
    objectId: Text,
    versionId: Option<Text>,
    storedLen: U64,
    digest: Bytes32,
    envelopeId: Text,
    envelopeDigest: Bytes32)

  /** An external payload pack. */
  datatype Container = Container(
    exact: Exact,
    sectionOrdinal: U32,
    sectionOffset: U64,
    sectionLen: U64,
    packId: Bytes32,
    attemptId: Bytes32,
    contentKeyId: Text,
    recordCount: U32)

  /** A standalone streamed payload. */
  datatype Stream = Stream(exact: Exact, layout: Layout)

  /** The payload pack carried by the same commit as the run. */
  datatype SelfPack = SelfPack(packId: Bytes32, attemptId: Bytes32, contentKeyId: Text, storedLen: U64, recordCount: U32)

  datatype RecordPointer = RecordPointer(ordinal: U32, offset: U32)

  datatype Pointer =
    | Empty
    | InSelf(record: RecordPointer)
    | InPack(container: U32, record: RecordPointer)
    | InStream(container: U32)

  datatype Mode = Unlocked | Governance | Compliance
  datatype Retention = Retention(mode: Mode, days: U32)
  datatype Hold = Off | On

  datatype Mutation =
    | Upsert(
        ordinal: U32, blindKey: Bytes32, keyId: Text, path: Text, generation: U64,
        payload: Pointer, contentLen: U64, modifiedAt: I64, retention: Option<Retention>,
        legalHold: Option<Hold>, etag: Etag, checksum: Option<Checksum>)
    | Tombstone(ordinal: U32, blindKey: Bytes32, keyId: Text, path: Text, generation: U64)

  datatype Run = Run(
    receipt: Option<Receipt>,
    sequence: U64,
    selfPack: Option<SelfPack>,
    containers: seq<Container>,
    streams: seq<Stream>,
    mutations: seq<Mutation>)

  // ---------------------------------------------------------------- containers

  const MAX_PACK: nat := 32 * 1024 * 1024
  const MAX_PACK_RECORDS: nat := 4096

  predicate ExactOk(limits: Limits, e: Exact) {
    && |e.objectId| <= limits.maxObjectIdBytes
    && (e.versionId.Some? ==> |e.versionId.value| <= limits.maxVersionIdBytes)
    && |e.envelopeId| <= limits.maxObjectIdBytes
  }

  predicate ContainerOk(limits: Limits, c: Container) {
    && ExactOk(limits, c.exact)
    && |c.contentKeyId| <= limits.maxKeyIdBytes
    && 0 < c.sectionLen <= MAX_PACK
    && 0 < c.recordCount <= MAX_PACK_RECORDS
    && c.sectionOffset + c.sectionLen <= c.exact.storedLen
  }

  predicate LayoutOk(limits: Limits, layout: Layout) {
    |layout.keyId| <= limits.maxKeyIdBytes && Acceptable(layout)
  }

  predicate StreamOk(limits: Limits, s: Stream) {
    && ExactOk(limits, s.exact)
    && LayoutOk(limits, s.layout)
    && StoredTo(s.layout, |s.layout.parts|) == s.exact.storedLen
  }

  predicate SelfPackOk(limits: Limits, pack: Option<SelfPack>) {
    pack.Some? ==>
      && |pack.value.contentKeyId| <= limits.maxKeyIdBytes
      && 0 < pack.value.storedLen <= MAX_PACK
      && 0 < pack.value.recordCount <= MAX_PACK_RECORDS
  }

  /** The order of exact objects: by identifier, then by version with no version first. */
  function ExactKey(e: Exact): Key {
    Key(e.objectId, e.versionId, 0)
  }

  function ContainerKeys(containers: seq<Container>): (keys: seq<Key>)
    ensures |keys| == |containers|
  {
    seq(|containers|, i requires 0 <= i < |containers| => ExactKey(containers[i].exact))
  }

  function StreamKeys(streams: seq<Stream>): (keys: seq<Key>)
    ensures |keys| == |streams|
  {
    seq(|streams|, i requires 0 <= i < |streams| => ExactKey(streams[i].exact))
  }

  /** No exact object is in both tables. */
  predicate DistinctObjects(containers: seq<Container>, streams: seq<Stream>) {
    forall i, j | 0 <= i < |containers| && 0 <= j < |streams| ::
      ExactKey(containers[i].exact) != ExactKey(streams[j].exact)
  }

  predicate TablesOk(limits: Limits, run: Run) {
    && |run.containers| + |run.streams| <= limits.maxContainers
    && (forall i | 0 <= i < |run.containers| :: ContainerOk(limits, run.containers[i]))
    && (forall i | 0 <= i < |run.streams| :: StreamOk(limits, run.streams[i]))
    && Ascending(ContainerKeys(run.containers))
    && Ascending(StreamKeys(run.streams))
    && DistinctObjects(run.containers, run.streams)
    && SelfPackOk(limits, run.selfPack)
  }

  // ---------------------------------------------------------------- mutations

  /** Ciphertext bytes of a pack record: its content and a tag for every 64 KiB segment. */
  function RecordStored(contentLen: nat): nat {
    contentLen + 16 * Segments(contentLen, 65536)
  }

  /** A record pointer lies inside a pack of some records and stored bytes. */
  predicate RecordOk(record: RecordPointer, contentLen: nat, recordCount: nat, packLen: nat) {
    && contentLen > 0
    && record.ordinal < recordCount
    && record.offset + RecordStored(contentLen) <= packLen
  }

  predicate PointerOk(run: Run, payload: Pointer, contentLen: nat) {
    match payload
    case Empty => contentLen == 0
    case InSelf(record) =>
      run.selfPack.Some? && RecordOk(record, contentLen, run.selfPack.value.recordCount, run.selfPack.value.storedLen)
    case InPack(container, record) =>
      && container < |run.containers|
      && RecordOk(record, contentLen, run.containers[container].recordCount, run.containers[container].sectionLen)
    case InStream(container) =>
      container < |run.streams| && run.streams[container].layout.plaintextLen == contentLen
  }

  predicate MutationOk(limits: Limits, run: Run, m: Mutation) {
    && |m.keyId| <= limits.maxKeyIdBytes
    && |m.path| <= limits.maxPathBytes
    && (m.Upsert? ==> PointerOk(run, m.payload, m.contentLen))
  }

  predicate UsesContainer(m: Mutation, container: nat) {
    m.Upsert? && m.payload.InPack? && m.payload.container == container
  }

  predicate UsesStream(m: Mutation, container: nat) {
    m.Upsert? && m.payload.InStream? && m.payload.container == container
  }

  predicate UsesSelf(m: Mutation) {
    m.Upsert? && m.payload.InSelf?
  }

  predicate ContainerUsed(mutations: seq<Mutation>, container: nat) {
    exists i | 0 <= i < |mutations| :: UsesContainer(mutations[i], container)
  }

  predicate StreamUsed(mutations: seq<Mutation>, container: nat) {
    exists i | 0 <= i < |mutations| :: UsesStream(mutations[i], container)
  }

  predicate SelfUsed(mutations: seq<Mutation>) {
    exists i | 0 <= i < |mutations| :: UsesSelf(mutations[i])
  }

  /** Every table entry is used, and the pack of the commit is present exactly when it is used. */
  predicate AllUsed(run: Run) {
    && (forall c | 0 <= c < |run.containers| :: ContainerUsed(run.mutations, c))
    && (forall c | 0 <= c < |run.streams| :: StreamUsed(run.mutations, c))
    && (run.selfPack.Some? <==> SelfUsed(run.mutations))
  }

  // ---------------------------------------------------------------- repeated record facts

  /** What an upsert says about a pack record: the pack (zero for the commit's own), the record, the
      start and the content length. */
  datatype Claim = Claim(source: nat, ordinal: nat, start: nat, contentLen: nat)

  function ClaimOf(m: Mutation): Option<Claim> {
    if m.Upsert? && m.payload.InSelf? then
      Some(Claim(0, m.payload.record.ordinal, m.payload.record.offset, m.contentLen))
    else if m.Upsert? && m.payload.InPack? then
      Some(Claim(m.payload.container + 1, m.payload.record.ordinal, m.payload.record.offset, m.contentLen))
    else None
  }

  function ClaimEnd(c: Claim): nat {
    c.start + RecordStored(c.contentLen)
  }

  /** Two claims on one pack name the same record with equal facts or occupy disjoint ranges. */
  predicate Agree(a: Claim, b: Claim) {
    a.source == b.source ==>
      if a.ordinal == b.ordinal then a == b
      else ClaimEnd(a) <= b.start || ClaimEnd(b) <= a.start
  }

  predicate ClaimsAgree(mutations: seq<Mutation>) {
    forall i, j | 0 <= i < |mutations| && 0 <= j < |mutations| ::
      ClaimOf(mutations[i]).Some? && ClaimOf(mutations[j]).Some? ==>
        Agree(ClaimOf(mutations[i]).value, ClaimOf(mutations[j]).value)
  }

  // ---------------------------------------------------------------- where records lie

  /** The record lies inside its pack: sixteen tag bytes for every started 64 KiB of its content. */
  predicate Within(record: RecordPointer, contentLen: nat, recordCount: nat, packLen: nat) {
    && 0 < contentLen && record.ordinal < recordCount
    && record.offset + contentLen + 16 * ((contentLen + 65535) / 65536) <= packLen
  }

  /** What an upsert points to is there, and long enough. */
  predicate InBounds(run: Run, payload: Pointer, contentLen: nat) {
    match payload
    case Empty => contentLen == 0
    case InSelf(record) =>
      run.selfPack.Some? && Within(record, contentLen, run.selfPack.value.recordCount, run.selfPack.value.storedLen)
    case InPack(container, record) =>
      && container < |run.containers|
      && Within(record, contentLen, run.containers[container].recordCount, run.containers[container].sectionLen)
    case InStream(container) => container < |run.streams| && contentLen == run.streams[container].layout.plaintextLen
  }

  predicate SamePack(a: Pointer, b: Pointer) {
    (a.InSelf? && b.InSelf?) || (a.InPack? && b.InPack? && a.container == b.container)
  }

  /** Two upserts into one pack name the same record with the same facts, or records whose ciphertext
      ranges do not overlap. */
  predicate Apart(a: Mutation, b: Mutation) {
    a.Upsert? && b.Upsert? && SamePack(a.payload, b.payload) ==>
      if a.payload.record.ordinal == b.payload.record.ordinal then
        a.payload.record.offset == b.payload.record.offset && a.contentLen == b.contentLen
      else
        || a.payload.record.offset + a.contentLen + 16 * ((a.contentLen + 65535) / 65536) <= b.payload.record.offset
        || b.payload.record.offset + b.contentLen + 16 * ((b.contentLen + 65535) / 65536) <= a.payload.record.offset
  }

  /** Every payload pointer of the run is in bounds, and no two records of a pack overlap. */
  ghost predicate RecordsPlaced(run: Run) {
    && (forall i | 0 <= i < |run.mutations| && run.mutations[i].Upsert? ::
          InBounds(run, run.mutations[i].payload, run.mutations[i].contentLen))
    && (forall i, j | 0 <= i < |run.mutations| && 0 <= j < |run.mutations| :: Apart(run.mutations[i], run.mutations[j]))
  }

  /** A record is stored as its content and sixteen bytes for every started 64 KiB of it. */
  lemma {:induction false} RecordStoredIs(contentLen: nat)
    ensures RecordStored(contentLen) == contentLen + 16 * ((contentLen + 65535) / 65536)
  {
    SegmentsIsCeiling(contentLen, 65536);
  }

  lemma {:induction false} InBoundsExactly(run: Run, payload: Pointer, contentLen: nat)
    ensures PointerOk(run, payload, contentLen) <==> InBounds(run, payload, contentLen)
  {
    RecordStoredIs(contentLen);
  }

  lemma {:induction false} ApartExactly(a: Mutation, b: Mutation)
    ensures Apart(a, b) <==>
            (ClaimOf(a).Some? && ClaimOf(b).Some? ==> Agree(ClaimOf(a).value, ClaimOf(b).value))
  {
    if a.Upsert? { RecordStoredIs(a.contentLen); }
    if b.Upsert? { RecordStoredIs(b.contentLen); }
  }

  /** The pointer and claim checks of a run hold exactly when its records are placed so. */
  lemma {:induction false} PlacedExactly(run: Run)
    ensures RecordsPlaced(run) <==>
            && (forall i | 0 <= i < |run.mutations| && run.mutations[i].Upsert? ::
                  PointerOk(run, run.mutations[i].payload, run.mutations[i].contentLen))
            && ClaimsAgree(run.mutations)
  {
    forall i | 0 <= i < |run.mutations| && run.mutations[i].Upsert?
      ensures PointerOk(run, run.mutations[i].payload, run.mutations[i].contentLen)
              <==> InBounds(run, run.mutations[i].payload, run.mutations[i].contentLen)
    {
      InBoundsExactly(run, run.mutations[i].payload, run.mutations[i].contentLen);
    }
    forall i, j | 0 <= i < |run.mutations| && 0 <= j < |run.mutations|
      ensures Apart(run.mutations[i], run.mutations[j]) <==>
              (ClaimOf(run.mutations[i]).Some? && ClaimOf(run.mutations[j]).Some? ==>
                 Agree(ClaimOf(run.mutations[i]).value, ClaimOf(run.mutations[j]).value))
    {
      ApartExactly(run.mutations[i], run.mutations[j]);
    }
  }

  // ---------------------------------------------------------------- completion receipts

  /** A receipt covers exactly one upsert, with its facts; every other mutation retires the same path
      in the same generation under another namespace key and another blind key. */
  predicate ReceiptCovers(r: Receipt, mutations: seq<Mutation>, u: nat)
    requires u < |mutations|
  {
    && mutations[u].Upsert?
    && mutations[u].path == r.key
    && mutations[u].contentLen == r.contentLen
    && mutations[u].etag == r.etag
    && mutations[u].checksum == r.checksum
    && (forall i | 0 <= i < |mutations| && i != u ::
          mutations[i].Tombstone? && mutations[i].path == mutations[u].path
          && mutations[i].generation == mutations[u].generation)
    && (forall i, j | 0 <= i < j < |mutations| ::
          mutations[i].keyId != mutations[j].keyId && mutations[i].blindKey != mutations[j].blindKey)
  }

  predicate ReceiptOk(run: Run) {
    run.receipt.Some? ==>
      && ValidReceipt(run.receipt.value)
      && exists u | 0 <= u < |run.mutations| :: ReceiptCovers(run.receipt.value, run.mutations, u)
  }

  /** The runs a decoder may return, before the sizes of their encodings are considered. */
  predicate RunOk(limits: Limits, run: Run) {
    && TablesOk(limits, run)
    && |run.mutations| <= limits.maxMutations && |run.mutations| < U32_LIMIT
    && (forall i | 0 <= i < |run.mutations| :: run.mutations[i].ordinal == i && MutationOk(limits, run, run.mutations[i]))
    && AllUsed(run)
    && ClaimsAgree(run.mutations)
    && ReceiptOk(run)
  }

  /** What makes a run acceptable, without the predicates it is checked by. */
  ghost predicate Sound(limits: Limits, run: Run) {
    // the tables
    && |run.containers| + |run.streams| <= limits.maxContainers
    && (forall i | 0 <= i < |run.containers| :: SoundPack(limits, run.containers[i]))
    && (forall i | 0 <= i < |run.streams| :: SoundStream(limits, run.streams[i]))
    && (forall i, j | 0 <= i < j < |run.containers| :: Before(run.containers[i].exact, run.containers[j].exact))
    && (forall i, j | 0 <= i < j < |run.streams| :: Before(run.streams[i].exact, run.streams[j].exact))
    && (forall i, j | 0 <= i < |run.containers| && 0 <= j < |run.streams| ::
          !SameObject(run.containers[i].exact, run.streams[j].exact))
    && (run.selfPack.Some? ==>
          && |run.selfPack.value.contentKeyId| <= limits.maxKeyIdBytes
          && 1 <= run.selfPack.value.storedLen <= 33_554_432 && 1 <= run.selfPack.value.recordCount <= 4096)
    // the mutations
    && |run.mutations| <= limits.maxMutations && |run.mutations| < 0x1_0000_0000
    && (forall i | 0 <= i < |run.mutations| ::
          && run.mutations[i].ordinal == i
          && |run.mutations[i].keyId| <= limits.maxKeyIdBytes && |run.mutations[i].path| <= limits.maxPathBytes)
    && RecordsPlaced(run)
    // everything in the tables is used
    && (forall c | 0 <= c < |run.containers| :: c in PacksUsed(run.mutations))
    && (forall c | 0 <= c < |run.streams| :: c in StreamsUsed(run.mutations))
    && (run.selfPack.Some? <==> exists i | 0 <= i < |run.mutations| ::
          run.mutations[i].Upsert? && run.mutations[i].payload.InSelf?)
    // the receipt
    && (run.receipt.Some? ==> Covered(run.receipt.value, run.mutations))
  }

  /** The packs that upserts point into. */
  ghost function PacksUsed(mutations: seq<Mutation>): set<nat> {
    set i | 0 <= i < |mutations| && mutations[i].Upsert? && mutations[i].payload.InPack? :: mutations[i].payload.container
  }

  /** The streams that upserts point to. */
  ghost function StreamsUsed(mutations: seq<Mutation>): set<nat> {
    set i | 0 <= i < |mutations| && mutations[i].Upsert? && mutations[i].payload.InStream? :: mutations[i].payload.container
  }

  predicate SoundPack(limits: Limits, c: Container) {
    && NamesFit(limits, c.exact) && |c.contentKeyId| <= limits.maxKeyIdBytes
    && 1 <= c.sectionLen <= 33_554_432 && 1 <= c.recordCount <= 4096
    && c.sectionOffset + c.sectionLen <= c.exact.storedLen
  }

  predicate SoundStream(limits: Limits, s: Stream) {
    && NamesFit(limits, s.exact) && |s.layout.keyId| <= limits.maxKeyIdBytes
    && Acceptable(s.layout) && s.exact.storedLen == s.layout.plaintextLen + 16 * SegmentsTo(s.layout, |s.layout.parts|)
  }

  predicate NamesFit(limits: Limits, e: Exact) {
    && |e.objectId| <= limits.maxObjectIdBytes && |e.envelopeId| <= limits.maxObjectIdBytes
    && (e.versionId.Some? ==> |e.versionId.value| <= limits.maxVersionIdBytes)
  }

  predicate SameObject(a: Exact, b: Exact) {
    a.objectId == b.objectId && a.versionId == b.versionId
  }

  /** By object identifier, then by version, with no version first. */
  predicate Before(a: Exact, b: Exact) {
    || Less(a.objectId, b.objectId)
    || (a.objectId == b.objectId && b.versionId.Some? && (a.versionId.None? || Less(a.versionId.value, b.versionId.value)))
  }

  /** The receipt is valid and describes the only upsert; all else is deletions of the same path in the same
      generation, and no two mutations share a key id or a blind key. */
  ghost predicate Covered(r: Receipt, mutations: seq<Mutation>) {
    && ValidReceipt(r)
    && (exists u | 0 <= u < |mutations| ::
          && mutations[u].Upsert? && mutations[u].path == r.key && mutations[u].contentLen == r.contentLen
          && mutations[u].etag == r.etag && mutations[u].checksum == r.checksum
          && forall i | 0 <= i < |mutations| && i != u ::
               mutations[i].Tombstone? && mutations[i].path == r.key && mutations[i].generation == mutations[u].generation)
    && (forall i, j | 0 <= i < j < |mutations| ::
          mutations[i].keyId != mutations[j].keyId && mutations[i].blindKey != mutations[j].blindKey)
  }

  lemma {:induction false} BeforeExactly(a: Exact, b: Exact)
    ensures Before(a, b) <==> KeyLess(ExactKey(a), ExactKey(b))
  {
  }

  lemma {:induction false} PacksOrdered(containers: seq<Container>)
    ensures Ascending(ContainerKeys(containers)) <==>
            forall i, j | 0 <= i < j < |containers| :: Before(containers[i].exact, containers[j].exact)
  {
    var keys := ContainerKeys(containers);
    if Ascending(keys) {
      forall i, j | 0 <= i < j < |containers| ensures Before(containers[i].exact, containers[j].exact) {
        AscendingPairs(keys, i, j);
        BeforeExactly(containers[i].exact, containers[j].exact);
      }
    }
    if forall i, j | 0 <= i < j < |containers| :: Before(containers[i].exact, containers[j].exact) {
      forall i | 0 < i < |keys| ensures KeyLess(keys[i - 1], keys[i]) {
        BeforeExactly(containers[i - 1].exact, containers[i].exact);
      }
    }
  }

  lemma {:induction false} StreamsOrdered(streams: seq<Stream>)
    ensures Ascending(StreamKeys(streams)) <==>
            forall i, j | 0 <= i < j < |streams| :: Before(streams[i].exact, streams[j].exact)
  {
    var keys := StreamKeys(streams);
    if Ascending(keys) {
      forall i, j | 0 <= i < j < |streams| ensures Before(streams[i].exact, streams[j].exact) {
        AscendingPairs(keys, i, j);
        BeforeExactly(streams[i].exact, streams[j].exact);
      }
    }
    if forall i, j | 0 <= i < j < |streams| :: Before(streams[i].exact, streams[j].exact) {
      forall i | 0 < i < |keys| ensures KeyLess(keys[i - 1], keys[i]) {
        BeforeExactly(streams[i - 1].exact, streams[i].exact);
      }
    }
  }

  lemma {:induction false} TablesExactly(limits: Limits, run: Run)
    ensures TablesOk(limits, run) <==>
            && |run.containers| + |run.streams| <= limits.maxContainers
            && (forall i | 0 <= i < |run.containers| :: SoundPack(limits, run.containers[i]))
            && (forall i | 0 <= i < |run.streams| :: SoundStream(limits, run.streams[i]))
            && (forall i, j | 0 <= i < j < |run.containers| :: Before(run.containers[i].exact, run.containers[j].exact))
            && (forall i, j | 0 <= i < j < |run.streams| :: Before(run.streams[i].exact, run.streams[j].exact))
            && (forall i, j | 0 <= i < |run.containers| && 0 <= j < |run.streams| ::
                  !SameObject(run.containers[i].exact, run.streams[j].exact))
            && (run.selfPack.Some? ==>
                  && |run.selfPack.value.contentKeyId| <= limits.maxKeyIdBytes
                  && 1 <= run.selfPack.value.storedLen <= 33_554_432 && 1 <= run.selfPack.value.recordCount <= 4096)
  {
    PacksOrdered(run.containers);
    StreamsOrdered(run.streams);
    forall i | 0 <= i < |run.containers|
      ensures ContainerOk(limits, run.containers[i]) <==> SoundPack(limits, run.containers[i]) { }
    forall i | 0 <= i < |run.streams| ensures StreamOk(limits, run.streams[i]) <==> SoundStream(limits, run.streams[i]) {
      SoundStreamExactly(limits, run.streams[i]);
    }
    forall i, j | 0 <= i < |run.containers| && 0 <= j < |run.streams|
      ensures ExactKey(run.containers[i].exact) != ExactKey(run.streams[j].exact) <==>
              !SameObject(run.containers[i].exact, run.streams[j].exact) { }
  }

  lemma {:induction false} SoundStreamExactly(limits: Limits, s: Stream)
    ensures StreamOk(limits, s) <==> SoundStream(limits, s)
  {
  }

  lemma {:induction false} UseExactly(run: Run)
    ensures AllUsed(run) <==>
            && (forall c | 0 <= c < |run.containers| :: c in PacksUsed(run.mutations))
            && (forall c | 0 <= c < |run.streams| :: c in StreamsUsed(run.mutations))
            && (run.selfPack.Some? <==> exists i | 0 <= i < |run.mutations| ::
                  run.mutations[i].Upsert? && run.mutations[i].payload.InSelf?)
  {
    forall c | 0 <= c < |run.containers| ensures ContainerUsed(run.mutations, c) <==> c in PacksUsed(run.mutations) {
      PackUsedExactly(run.mutations, c);
    }
    forall c | 0 <= c < |run.streams| ensures StreamUsed(run.mutations, c) <==> c in StreamsUsed(run.mutations) {
      StreamUsedExactly(run.mutations, c);
    }
  }

  lemma {:induction false} PackUsedExactly(mutations: seq<Mutation>, c: nat)
    ensures ContainerUsed(mutations, c) <==> c in PacksUsed(mutations)
  {
    if ContainerUsed(mutations, c) { var i :| 0 <= i < |mutations| && UsesContainer(mutations[i], c); }
    if c in PacksUsed(mutations) {
      var i :| 0 <= i < |mutations| && mutations[i].Upsert? && mutations[i].payload.InPack? && mutations[i].payload.container == c;
      assert UsesContainer(mutations[i], c);
    }
  }

  lemma {:induction false} StreamUsedExactly(mutations: seq<Mutation>, c: nat)
    ensures StreamUsed(mutations, c) <==> c in StreamsUsed(mutations)
  {
    if StreamUsed(mutations, c) { var i :| 0 <= i < |mutations| && UsesStream(mutations[i], c); }
    if c in StreamsUsed(mutations) {
      var i :| 0 <= i < |mutations| && mutations[i].Upsert? && mutations[i].payload.InStream? && mutations[i].payload.container == c;
      assert UsesStream(mutations[i], c);
    }
  }

  lemma {:induction false} CoveredExactly(r: Receipt, mutations: seq<Mutation>)
    ensures Covered(r, mutations) <==>
            ValidReceipt(r) && exists u | 0 <= u < |mutations| :: ReceiptCovers(r, mutations, u)
  {
    if Covered(r, mutations) {
      var u :| 0 <= u < |mutations| && mutations[u].Upsert? && mutations[u].path == r.key
               && mutations[u].contentLen == r.contentLen && mutations[u].etag == r.etag && mutations[u].checksum == r.checksum
               && forall i | 0 <= i < |mutations| && i != u ::
                    mutations[i].Tombstone? && mutations[i].path == r.key && mutations[i].generation == mutations[u].generation;
      assert ReceiptCovers(r, mutations, u);
    }
  }

  /** A run is acceptable exactly when it is sound. */
  lemma {:induction false} RunOkExactly(limits: Limits, run: Run)
    ensures RunOk(limits, run) <==> Sound(limits, run)
  {
    TablesExactly(limits, run);
    MutationsExactly(limits, run);
    UseExactly(run);
    if run.receipt.Some? { CoveredExactly(run.receipt.value, run.mutations); }
  }

  lemma {:induction false} MutationsExactly(limits: Limits, run: Run)
    ensures (forall i | 0 <= i < |run.mutations| :: run.mutations[i].ordinal == i && MutationOk(limits, run, run.mutations[i]))
            && ClaimsAgree(run.mutations)
            <==>
            (forall i | 0 <= i < |run.mutations| ::
               && run.mutations[i].ordinal == i
               && |run.mutations[i].keyId| <= limits.maxKeyIdBytes && |run.mutations[i].path| <= limits.maxPathBytes)
            && RecordsPlaced(run)
  {
    PlacedExactly(run);
  }

  /** The extra demand of the encoder: a composite checksum counts the parts of a multipart ETag. */
  predicate CompositeOk(m: Mutation) {
    m.Upsert? && m.checksum.Some? && m.checksum.value.kind.Composite? ==>
      PartCount(m.etag) == Some(m.checksum.value.kind.parts)
  }
}
