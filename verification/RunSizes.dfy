/** How long records and frames of ordinary runs are, and that such runs have frames. */
module RunSizes {
  import opened Prelude
  import opened Types
  import opened Wire
  import opened Cbor
  import opened RunModel
  import opened RunRecords
  import opened Projections
  import opened RunFrames
  import opened Packing
  import opened FramePacking

  // ---------------------------------------------------------------- lengths of records

  lemma {:induction false} WordVarint(n: nat)
    requires n < U64_LIMIT
    ensures VarintLen(n) <= 10
  {
    assert Pow128(5) == 128 * (128 * (128 * (128 * (128 * Pow128(0)))));
    assert Pow128(10) == 128 * (128 * (128 * (128 * (128 * Pow128(5)))));
    VarintLenBound(n, 10);
  }

  lemma {:induction false} VarintAtMost(n: nat, tail: Data)
    requires n < U64_LIMIT
    ensures |tail| < |PutVarint(n, tail)| <= 10 + |tail|
  {
    WordVarint(n);
    VarintLength(n, tail);
  }

  lemma {:induction false} PointerAtMost(p: Pointer, tail: Data)
    ensures |PutPointer(p, tail)| <= 31 + |tail|
  {
    match p {
      case Empty =>
      case InSelf(r) =>
        VarintAtMost(r.offset, tail);
        VarintAtMost(r.ordinal, PutVarint(r.offset, tail));
      case InPack(c, r) =>
        VarintAtMost(r.offset, tail);
        VarintAtMost(r.ordinal, PutVarint(r.offset, tail));
        VarintAtMost(c, PutVarint(r.ordinal, PutVarint(r.offset, tail)));
      case InStream(c) => VarintAtMost(c, tail);
    }
  }

  lemma {:induction false} PolicyAtMost(f: Facts)
    ensures |PutPolicy(f)| <= 82
  {
    var etag := EncodeEtag(f.etag);
    var checksum := PutChecksum(f.checksum, etag);
    if f.checksum.Some? { ChecksumLength(f.checksum.value); }
    assert |checksum| <= 69;
    if f.retention.Some? { VarintAtMost(f.retention.value.days, PutHold(f.legalHold, checksum)); }
  }

  lemma {:induction false} NsAtMost(r: NsRecord)
    ensures |PutNs(r)| <= 256
  {
    var facts: Data := [];
    if r.NsUpsert? {
      var f := FactsOf(r);
      facts := PutFacts(f);
      var modified := PutI64(f.modifiedAt, PutPolicy(f));
      PolicyAtMost(f);
      VarintAtMost(f.contentLen, modified);
      PointerAtMost(f.payload, PutVarint(f.contentLen, modified));
    }
    VarintAtMost(r.generation, facts);
    var generation := PutVarint(r.generation, facts);
    VarintAtMost(r.key, generation);
    VarintAtMost(r.ordinal, PutByte(if r.NsUpsert? then 0 else 1, r.blindKey + PutVarint(r.key, generation)));
  }

  lemma {:induction false} LsBodyAtMost(r: LsRecord)
    ensures |LsBody(r)| <= 64
  {
    var facts: Data := [];
    if r.LsUpsert? {
      facts := PutVarint(r.contentLen, PutI64(r.modifiedAt, []));
      VarintAtMost(r.contentLen, PutI64(r.modifiedAt, []));
    }
    VarintAtMost(r.generation, facts);
    VarintAtMost(r.ordinal, PutByte(if r.LsUpsert? then 0 else 1, PutVarint(r.generation, facts)));
  }

  /** A container record with short identifiers. */
  lemma {:induction false} ContainerLength(c: Container)
    requires |c.exact.objectId| <= 8 && |c.exact.envelopeId| <= 8 && |c.contentKeyId| <= 8 && c.exact.versionId.None?
    ensures 160 <= |PutMeta(Pack(c))| <= 300
  {
    var e := c.exact;
    var count := PutVarint(c.recordCount, []);
    VarintAtMost(c.recordCount, []);
    var key := PutRecord(c.contentKeyId, count);
    VarintAtMost(|c.contentKeyId|, c.contentKeyId + count);
    var lens := PutU64(c.sectionOffset, PutU64(c.sectionLen, c.packId + (c.attemptId + key)));
    var section := PutVarint(c.sectionOrdinal, lens);
    VarintAtMost(c.sectionOrdinal, lens);
    var envelope := PutRecord(e.envelopeId, e.envelopeDigest + section);
    VarintAtMost(|e.envelopeId|, e.envelopeId + (e.envelopeDigest + section));
    var version := PutVersion(e.versionId, PutU64(e.storedLen, e.digest + envelope));
    VarintAtMost(|e.objectId|, e.objectId + version);
  }

  lemma {:induction false} KeyNameLength(id: Text)
    requires |id| < U64_LIMIT
    ensures |id| < |PutMeta(KeyName(id))| <= |id| + 11
  {
    VarintAtMost(|id|, id + []);
  }

  lemma {:induction false} HeaderAtMost(plan: Plan, k: nat, count: nat)
    requires k < U64_LIMIT && count < U64_LIMIT
    requires plan.role.Metadata? ==> plan.role.pack.None?
    ensures HeaderLen(plan, k, count) <= 128
  {
    WordVarint(k);
    WordVarint(count);
    WordVarint(plan.mutationCount);
    WordVarint(plan.roleCount);
    if plan.role.Metadata? { WordVarint(plan.role.keyCount); }
  }

  // ---------------------------------------------------------------- frames of modest records

  /** Limits with frames of 640 bytes and room for everything else but counts. */
  function Roomy(maxContainers: U64, maxMutations: U64): Limits {
    Limits(0x1000_0000_0000_0000, 640, 640, maxContainers, maxMutations, 1024, 1024, 1024, 1024)
  }

  predicate Roomlike(limits: Limits) {
    limits.maxFrameBytes == 640 && limits.maxRecordBytes == 640
  }

  predicate Plain(plan: Plan) {
    plan.role.Metadata? ==> plan.role.pack.None?
  }

  /** Every record is short enough to have a frame of its own. */
  ghost predicate Modest(records: seq<Prepared>) {
    forall i | 0 <= i < |records| :: ModestAt(records, i)
  }

  ghost predicate ModestAt(records: seq<Prepared>, i: nat)
    requires i < |records|
  {
    EncodedLen(records[i], []) <= 508
  }

  /** No two neighbours share a frame. */
  ghost predicate Crowded(records: seq<Prepared>) {
    forall a | 0 <= a < |records| - 1 :: CrowdedAt(records, a)
  }

  ghost predicate CrowdedAt(records: seq<Prepared>, a: nat)
    requires a < |records| - 1
  {
    PayloadLen(records, a, a + 2) > 640
  }

  lemma {:induction false} AloneFits(plan: Plan, records: seq<Prepared>, k: nat, i: nat)
    requires Plain(plan) && k < U64_LIMIT && i < |records| && ModestAt(records, i)
    ensures FrameLen(plan, records, k, i, i + 1) <= 640
  {
    HeaderAtMost(plan, k, 1);
    assert PayloadLen(records, i, i + 1) == PayloadLen(records, i, i) + FramedLen(records[i], []);
    assert Pow128(2) == 128 * (128 * Pow128(0));
    VarintLenBound(EncodedLen(records[i], []), 2);
  }

  ghost function OneEach(n: nat): (ends: seq<nat>)
    ensures |ends| == n && forall k | 0 <= k < n :: ends[k] == k + 1
  {
    seq(n, k requires 0 <= k < n => k + 1)
  }

  lemma {:induction false} OneEachFits(plan: Plan, records: seq<Prepared>)
    requires Plain(plan) && Modest(records) && records != [] && |records| < U64_LIMIT
    ensures IsSplit(plan, records, 640, OneEach(|records|))
  {
    var ends := OneEach(|records|);
    forall k | 0 <= k < |ends| ensures FrameFits(plan, records, 640, ends, k) {
      assert ModestAt(records, k);
      AloneFits(plan, records, k, k);
    }
  }

  lemma {:induction false} CodedAtMost(r: Prepared, previous: Data)
    requires EncodedLen(r, []) <= 508
    ensures FramedLen(r, previous) <= 2000
  {
    if r.path.Some? {
      var n := SharedPrefix(previous, r.path.value);
      WordVarint(n);
      WordVarint(|r.path.value| - n);
    }
    WordVarint(EncodedLen(r, previous));
  }

  lemma {:induction false} NextInWord(plan: Plan, records: seq<Prepared>, k: nat, a: nat, b: nat)
    requires Plain(plan) && k < U64_LIMIT && a <= b < |records| < U64_LIMIT && ModestAt(records, b)
    requires FrameLen(plan, records, k, a, b) <= 640
    ensures FrameLen(plan, records, k, a, b + 1) < U64_LIMIT
  {
    HeaderAtMost(plan, k, b + 1 - a);
    PayloadNext(records, a, b);
    CodedAtMost(records[b], PathBefore(records, a, b));
  }

  lemma {:induction false} BodyInFrame(records: seq<Prepared>, a: nat, i: nat, b: nat)
    requires a <= i < b <= |records|
    ensures |BodyAt(records, a, i)| <= PayloadLen(records, a, b)
  {
    EncodedLenIs(records[i], PathBefore(records, a, i));
    PayloadNext(records, a, i);
    PayloadShrinks(records, a, b, a, i + 1);
  }

  lemma {:induction false} InFrameIsWithin(limits: Limits, role: Role, records: seq<Prepared>, a: nat, b: nat)
    requires Roomlike(limits) && a <= b <= |records| && PayloadLen(records, a, b) <= 640
    ensures BodiesWithin(limits, role, records, a, b)
  {
    forall i | a <= i < b ensures BodyWithin(limits, role, records, a, i) {
      BodyInFrame(records, a, i, b);
    }
  }

  /** Crowded records get a frame each. */
  lemma {:induction false} CrowdedSteps(plan: Plan, records: seq<Prepared>, ends: seq<nat>, k: nat)
    requires FitsSoFar(plan, records, 640, ends) && Crowded(records) && k <= |ends|
    ensures StartOf(ends, k) <= k
    ensures k < |ends| ==> ends[k] <= StartOf(ends, k) + 1
    decreases k
  {
    if k > 0 { CrowdedSteps(plan, records, ends, k - 1); }
    if k < |ends| {
      assert FrameFits(plan, records, 640, ends, k);
      var start := StartOf(ends, k);
      if ends[k] > start + 1 {
        assert CrowdedAt(records, start);
        PayloadShrinks(records, start, ends[k], start, start + 2);
      }
    }
  }

  lemma {:induction false} GreedyIsCodable(limits: Limits, plan: Plan, records: seq<Prepared>, ends: seq<nat>)
    requires Roomlike(limits) && Plain(plan) && Modest(records) && Greedy(plan, records, 640, ends)
    requires |records| < U32_LIMIT || (|records| == U32_LIMIT && Crowded(records))
    ensures Codable(limits, plan, records, ends)
  {
    forall k | 0 <= k < |ends| ensures CodableAt(limits, plan, records, ends, k) {
      assert FrameFits(plan, records, 640, ends, k);
      var start := StartOf(ends, k);
      InFrameIsWithin(limits, plan.role, records, start, ends[k]);
      if ends[k] < |records| {
        assert ModestAt(records, ends[k]);
        NextInWord(plan, records, k, start, ends[k]);
      }
      if |records| == U32_LIMIT { CrowdedSteps(plan, records, ends, k); }
    }
  }

  lemma {:induction false} HeaderAlone(plan: Plan, records: seq<Prepared>)
    requires Plain(plan) && records == []
    ensures IsSplit(plan, records, 640, [0])
  {
    HeaderAtMost(plan, 0, 0);
    assert FrameFits(plan, records, 640, [0], 0);
  }

  /** Modest records of a role can be packed, and crowded ones into a frame each. */
  lemma {:induction false} RoleFramed(limits: Limits, plan: Plan, records: seq<Prepared>)
    returns (ends: seq<nat>, frames: seq<Data>)
    requires Roomlike(limits) && Plain(plan) && Modest(records) && plan.roleCount == |records|
    requires |records| < U32_LIMIT || (|records| == U32_LIMIT && Crowded(records))
    ensures Packed(limits, plan, records, ends, frames) && |frames| <= |records| + 1
    ensures records != [] && Crowded(records) ==> |frames| == |records|
  {
    if records == [] && !plan.role.Metadata? {
      ends, frames := [], [];
    } else {
      var split := if records == [] then [0] else OneEach(|records|);
      if records == [] { HeaderAlone(plan, records); } else { OneEachFits(plan, records); }
      ends := SplitMeansGreedy(plan, records, 640, split);
      GreedyIsCodable(limits, plan, records, ends);
      frames := PackedExists(limits, plan, records, ends);
      if Crowded(records) { CrowdedSteps(plan, records, ends, |ends|); }
    }
  }
}
