/** The Kubernetes Lease object that carries both the writer coordination record and the
    commit anchor, with the pure functions that read and rewrite it. */
module Leases {
  import opened Prelude
  import opened Numerals

  /** Annotation names. Each constant name of the source is one constructor; every other
      name either starts with the version-2 prefix or is foreign to this system. */
  datatype Key =
    | WriterFence
    | WriterRenewal
    | AnchorFence
    | RepositoryFormat
    | V3Sequence
    | V3CommitKey
    | V3BodyDigest
    | V3VersionId
    | V3SigningKeyId
    | V3FormatGeneration
    | V3FormatDigest
    | V3FormatObjectId
    | V3FormatVersionId
    | V2(suffix: string)
    | Foreign(name: string)

  type Annotations = map<Key, string>

  /** The Lease spec without its wall-clock fields. */
  datatype Spec = Spec(holder: Option<string>, durationSeconds: Option<int>, transitions: Option<int>)

  datatype Lease = Lease(annotations: Option<Annotations>, spec: Option<Spec>)

  const EMPTY_LEASE := Lease(None, None)
  const I32_MAX: int := 0x7FFF_FFFF

  datatype Claim = Claim(holder: string, token: U64)

  datatype Coordination = Coordination(holder: Option<string>, token: U64, renewal: U64, seconds: nat)

  /** The part of a held Lease that a competitor watches for change. */
  datatype Record = Record(holder: string, token: U64, renewal: U64, seconds: nat)

  // ---------------------------------------------------------------- coordination

  function Notes(lease: Lease): Annotations {
    if lease.annotations.Some? then lease.annotations.value else map[]
  }

  function Counter(lease: Lease, key: Key): Option<U64> {
    if key in Notes(lease) then ParseU64(Notes(lease)[key]) else Some(0)
  }

  function Holder(lease: Lease): Option<string> {
    if lease.spec.Some? then lease.spec.value.holder else None
  }

  function StoredSeconds(lease: Lease): Option<int> {
    if lease.spec.Some? then lease.spec.value.durationSeconds else None
  }

  /** Reads the coordination record; `None` is the invalid-Lease error. */
  function ReadCoordination(lease: Lease, defaultSeconds: nat): Option<Coordination> {
    var token :- Counter(lease, WriterFence);
    var renewal :- Counter(lease, WriterRenewal);
    match StoredSeconds(lease)
    case None => Some(Coordination(Holder(lease), token, renewal, defaultSeconds))
    case Some(seconds) =>
      if seconds > 0 then Some(Coordination(Holder(lease), token, renewal, seconds)) else None
  }

  function RecordOf(current: Coordination): Option<Record> {
    match current.holder
    case None => None
    case Some(holder) => Some(Record(holder, current.token, current.renewal, current.seconds))
  }

  function HoldsClaim(lease: Lease, claim: Claim): Option<bool> {
    var current :- ReadCoordination(lease, 1);
    Some(current.holder == Some(claim.holder) && current.token == claim.token)
  }

  predicate HasWriterCoordination(lease: Lease) {
    (WriterFence in Notes(lease) || WriterRenewal in Notes(lease)) && Holder(lease).Some?
  }

  /** Acquisition and renewal rewrite of a Lease; `None` is transition-counter overflow. */
  function WithGuardState(lease: Lease, claim: Claim, renewal: U64, seconds: nat, acquiring: bool): Option<Lease> {
    var notes := Notes(lease)[WriterFence := Decimal(claim.token)][WriterRenewal := Decimal(renewal)];
    var spec := if lease.spec.Some? then lease.spec.value else Spec(None, None, None);
    var previous := if spec.transitions.Some? then spec.transitions.value else 0;
    if acquiring && spec.holder != Some(claim.holder) then
      if spec.holder.Some? && previous >= I32_MAX then None
      else
        var transitions := if spec.holder.Some? then previous + 1 else previous;
        Some(Lease(Some(notes), Some(Spec(Some(claim.holder), Some(seconds), Some(transitions)))))
    else
      Some(Lease(Some(notes), Some(Spec(Some(claim.holder), Some(seconds), spec.transitions))))
  }

  function WithReleasedState(lease: Lease, renewal: U64): Option<Lease> {
    if lease.annotations.None? || WriterFence !in lease.annotations.value || lease.spec.None? then None
    else
      Some(Lease(Some(lease.annotations.value[WriterRenewal := Decimal(renewal)]),
                 Some(lease.spec.value.(holder := None))))
  }

  lemma {:induction false} GuardStateCoordination(lease: Lease, claim: Claim, renewal: U64, seconds: nat, acquiring: bool, default: nat)
    requires WithGuardState(lease, claim, renewal, seconds, acquiring).Some?
    requires seconds > 0
    ensures ReadCoordination(WithGuardState(lease, claim, renewal, seconds, acquiring).value, default)
         == Some(Coordination(Some(claim.holder), claim.token, renewal, seconds))
  {
    GuardStateCounters(lease, claim, renewal, seconds, acquiring);
  }

  lemma {:induction false} GuardStateCounters(lease: Lease, claim: Claim, renewal: U64, seconds: nat, acquiring: bool)
    requires WithGuardState(lease, claim, renewal, seconds, acquiring).Some?
    ensures var after := WithGuardState(lease, claim, renewal, seconds, acquiring).value;
            Counter(after, WriterFence) == Some(claim.token) && Counter(after, WriterRenewal) == Some(renewal)
  {
    DecimalRoundTrip(claim.token);
    DecimalRoundTrip(renewal);
  }

  lemma {:induction false} ReleasedStateCoordination(lease: Lease, renewal: U64, default: nat)
    requires WithReleasedState(lease, renewal).Some?
    requires ReadCoordination(lease, default).Some?
    ensures ReadCoordination(WithReleasedState(lease, renewal).value, default)
         == Some(ReadCoordination(lease, default).value.(holder := None, renewal := renewal))
  {
    DecimalRoundTrip(renewal);
  }

  // ---------------------------------------------------------------- anchor

  type Digest = d: Data | |d| == 32 witness seq(32, _ => 0)

  datatype Anchor = Anchor(
    sequence: U64,
    commitKey: Id,
    bodyDigest: Digest,
    versionId: Option<Id>,
    signingKeyId: Id,
    generation: U64,
    formatDigest: string,
    formatObjectId: Id,
    formatVersionId: Option<Id>)

  /** What decoding the anchor annotations yields. */
  datatype AnchorRead = Unreadable | NoAnchor | Anchored(anchor: Anchor)

  predicate NamesAnchor(notes: Annotations) {
    || RepositoryFormat in notes
    || V3Sequence in notes
    || V3CommitKey in notes
    || V3BodyDigest in notes
    || V3VersionId in notes
    || V3SigningKeyId in notes
    || V3FormatGeneration in notes
    || V3FormatDigest in notes
    || V3FormatObjectId in notes
    || V3FormatVersionId in notes
  }

  predicate HasV2(notes: Annotations) {
    exists key | key in notes :: key.V2?
  }

  function PutOptional(notes: Annotations, key: Key, value: Option<string>): Annotations {
    if value.Some? then notes[key := value.value] else notes - {key}
  }

  function WithAnchor(lease: Lease, anchor: Anchor): Lease {
    var notes := Notes(lease)
      [RepositoryFormat := Decimal(3)]
      [V3Sequence := Decimal(anchor.sequence)]
      [V3CommitKey := anchor.commitKey]
      [V3BodyDigest := HexEncode(anchor.bodyDigest)];
    var notes := PutOptional(notes, V3VersionId, anchor.versionId)
      [V3SigningKeyId := anchor.signingKeyId]
      [V3FormatGeneration := Decimal(anchor.generation)]
      [V3FormatDigest := anchor.formatDigest]
      [V3FormatObjectId := anchor.formatObjectId];
    lease.(annotations := Some(PutOptional(notes, V3FormatVersionId, anchor.formatVersionId)))
  }

  function Lookup(notes: Annotations, key: Key): Option<string> {
    if key in notes then Some(notes[key]) else None
  }

  function LookupId(notes: Annotations, key: Key): Option<Id> {
    var value :- Lookup(notes, key);
    if Blank(value) then None else Some(value)
  }

  function LookupU64(notes: Annotations, key: Key): Option<U64> {
    var value :- Lookup(notes, key);
    ParseU64(value)
  }

  /** An identifier that may be absent but must be valid when present. */
  function LookupOptionalId(notes: Annotations, key: Key): Option<Option<Id>> {
    if key !in notes then Some(None)
    else if Blank(notes[key]) then None
    else var id: Id := notes[key]; Some(Some(id))
  }

  function DecodeAnchor(notes: Annotations): Option<Anchor> {
    var format :- Lookup(notes, RepositoryFormat);
    if format != "3" || HasV2(notes) then None else
    var sequence :- LookupU64(notes, V3Sequence);
    var commitKey :- LookupId(notes, V3CommitKey);
    var digestText :- Lookup(notes, V3BodyDigest);
    var digest :- HexDecode(digestText);
    if |digest| != 32 then None else
    var versionId :- LookupOptionalId(notes, V3VersionId);
    var signingKeyId :- LookupId(notes, V3SigningKeyId);
    var generation :- LookupU64(notes, V3FormatGeneration);
    var formatDigest :- Lookup(notes, V3FormatDigest);
    var formatObjectId :- LookupId(notes, V3FormatObjectId);
    var formatVersionId :- LookupOptionalId(notes, V3FormatVersionId);
    if formatDigest == "" then None else
    Some(Anchor(sequence, commitKey, digest, versionId, signingKeyId,
                generation, formatDigest, formatObjectId, formatVersionId))
  }

  function ReadAnchor(lease: Lease): AnchorRead {
    if lease.annotations.None? then NoAnchor
    else if HasV2(lease.annotations.value) then Unreadable
    else if !NamesAnchor(lease.annotations.value) then NoAnchor
    else
      match DecodeAnchor(lease.annotations.value)
      case None => Unreadable
      case Some(anchor) => Anchored(anchor)
  }

  function BumpAnchorFence(lease: Lease): Lease {
    var notes := Notes(lease);
    var previous :=
      if AnchorFence in notes && ParseU64(notes[AnchorFence]).Some? then ParseU64(notes[AnchorFence]).value else 0;
    lease.(annotations := Some(notes[AnchorFence := Decimal((previous + 1) % U64_LIMIT)]))
  }

  /** A fencing read writes a counter one above the stored one, modulo 2^64, or one where no counter can be
      read; so the Lease it sends always differs from the one it read, and nothing else changes. */
  lemma {:induction false} BumpChanges(lease: Lease)
    ensures var stored := if AnchorFence in Notes(lease) then ParseU64(Notes(lease)[AnchorFence]) else None;
            var after := Notes(BumpAnchorFence(lease));
            && AnchorFence in after
            && ParseU64(after[AnchorFence])
               == Some(if stored.None? then 1 else if stored.value == 0xFFFF_FFFF_FFFF_FFFF then 0 else stored.value + 1)
            && BumpAnchorFence(lease) != lease
            && (forall key | key != AnchorFence :: Lookup(after, key) == Lookup(Notes(lease), key))
            && BumpAnchorFence(lease).spec == lease.spec
  {
    var notes := Notes(lease);
    var stored := if AnchorFence in notes then ParseU64(notes[AnchorFence]) else None;
    var previous := if stored.Some? then stored.value else 0;
    DecimalRoundTrip((previous + 1) % U64_LIMIT);
  }

  /** The annotations that spell out exactly this anchor. */
  predicate Spells(notes: Annotations, anchor: Anchor) {
    && Lookup(notes, RepositoryFormat) == Some("3")
    && Lookup(notes, V3Sequence) == Some(Decimal(anchor.sequence))
    && Lookup(notes, V3CommitKey) == Some(anchor.commitKey)
    && Lookup(notes, V3BodyDigest) == Some(HexEncode(anchor.bodyDigest))
    && Lookup(notes, V3VersionId) == anchor.versionId
    && Lookup(notes, V3SigningKeyId) == Some(anchor.signingKeyId)
    && Lookup(notes, V3FormatGeneration) == Some(Decimal(anchor.generation))
    && Lookup(notes, V3FormatDigest) == Some(anchor.formatDigest)
    && Lookup(notes, V3FormatObjectId) == Some(anchor.formatObjectId)
    && Lookup(notes, V3FormatVersionId) == anchor.formatVersionId
  }

  lemma {:induction false} WithAnchorSpells(lease: Lease, anchor: Anchor)
    ensures Spells(Notes(WithAnchor(lease, anchor)), anchor)
  {
    DecimalOfThree();
  }

  lemma {:induction false} WithAnchorKeepsV2(lease: Lease, anchor: Anchor)
    ensures HasV2(Notes(WithAnchor(lease, anchor))) <==> HasV2(Notes(lease))
  {
    var before := Notes(lease);
    var after := Notes(WithAnchor(lease, anchor));
    if HasV2(before) { var key :| key in before && key.V2?; assert key in after; }
    if HasV2(after) { var key :| key in after && key.V2?; assert key in before; }
  }

  lemma {:induction false} SpelledAnchorDecodes(notes: Annotations, anchor: Anchor)
    requires Spells(notes, anchor)
    ensures DecodeAnchor(notes) == if HasV2(notes) || anchor.formatDigest == "" then None else Some(anchor)
  {
    DecimalRoundTrip(anchor.sequence);
    DecimalRoundTrip(anchor.generation);
    HexRoundTrip(anchor.bodyDigest);
  }

  /** The anchor written is the anchor read back, whatever the previous Lease held, exactly
      when the format digest is non-empty and no version-2 annotation is present. */
  lemma {:induction false} AnchorRoundTrip(lease: Lease, anchor: Anchor)
    ensures ReadAnchor(WithAnchor(lease, anchor))
         == if anchor.formatDigest != "" && !HasV2(Notes(lease)) then Anchored(anchor) else Unreadable
  {
    WithAnchorSpells(lease, anchor);
    WithAnchorKeepsV2(lease, anchor);
    SpelledAnchorDecodes(Notes(WithAnchor(lease, anchor)), anchor);
  }

  /** What is read as an anchor: a Lease of format 3 with all mandatory annotations well formed, optional
      versions not blank, and no version-2 annotation. */
  lemma {:induction false} AnchorReadExactly(lease: Lease, anchor: Anchor)
    ensures ReadAnchor(lease) == Anchored(anchor) <==>
            && lease.annotations.Some?
            && var notes := lease.annotations.value;
            && (forall key | key in notes :: !key.V2?)
            && Lookup(notes, RepositoryFormat) == Some("3")
            && V3Sequence in notes && ParseU64(notes[V3Sequence]) == Some(anchor.sequence)
            && Lookup(notes, V3CommitKey) == Some(anchor.commitKey)
            && V3BodyDigest in notes && HexDecode(notes[V3BodyDigest]) == Some(anchor.bodyDigest)
            && Lookup(notes, V3VersionId) == anchor.versionId
            && Lookup(notes, V3SigningKeyId) == Some(anchor.signingKeyId)
            && V3FormatGeneration in notes && ParseU64(notes[V3FormatGeneration]) == Some(anchor.generation)
            && Lookup(notes, V3FormatDigest) == Some(anchor.formatDigest) && anchor.formatDigest != ""
            && Lookup(notes, V3FormatObjectId) == Some(anchor.formatObjectId)
            && Lookup(notes, V3FormatVersionId) == anchor.formatVersionId
  {
  }

  /** A Lease has no anchor exactly when all its annotations belong to coordination, fencing or others;
      every other Lease without a readable anchor is refused. */
  lemma {:induction false} NoAnchorExactly(lease: Lease)
    ensures ReadAnchor(lease) == NoAnchor <==>
            forall key | key in Notes(lease) :: key.Foreign? || key in {WriterFence, WriterRenewal, AnchorFence}
  {
    if lease.annotations.Some? {
      var notes := lease.annotations.value;
      if forall key | key in notes :: key.Foreign? || key in {WriterFence, WriterRenewal, AnchorFence} {
        assert !NamesAnchor(notes);
      }
    }
  }

  /** The transition counter counts the changes from one holder to another. */
  lemma {:induction false} TransitionsCounted(lease: Lease, claim: Claim, renewal: U64, seconds: nat, acquiring: bool)
    requires WithGuardState(lease, claim, renewal, seconds, acquiring).Some?
    ensures var before := if lease.spec.Some? then lease.spec.value.transitions else None;
            var after := WithGuardState(lease, claim, renewal, seconds, acquiring).value.spec.value.transitions;
            if !acquiring || Holder(lease) == Some(claim.holder) then after == before
            else after == Some((if before.Some? then before.value else 0) + (if Holder(lease).Some? then 1 else 0))
  {
  }

  lemma {:induction false} DecimalOfThree()
    ensures Decimal(3) == "3"
  {
  }

  /** An anchor write leaves no stale provider version behind. */
  lemma {:induction false} AnchorWriteClearsStaleVersions(lease: Lease, anchor: Anchor)
    ensures V3VersionId in Notes(WithAnchor(lease, anchor)) <==> anchor.versionId.Some?
    ensures V3FormatVersionId in Notes(WithAnchor(lease, anchor)) <==> anchor.formatVersionId.Some?
  {
  }

  predicate SameCoordination(before: Lease, after: Lease) {
    && before.spec == after.spec
    && Counter(before, WriterFence) == Counter(after, WriterFence)
    && Counter(before, WriterRenewal) == Counter(after, WriterRenewal)
  }

  lemma {:induction false} SameCoordinationReads(before: Lease, after: Lease, default: nat)
    requires SameCoordination(before, after)
    ensures ReadCoordination(before, default) == ReadCoordination(after, default)
  {
  }

  lemma {:induction false} AnchorWriteKeepsCoordination(lease: Lease, anchor: Anchor)
    ensures SameCoordination(lease, WithAnchor(lease, anchor))
  {
  }

  lemma {:induction false} BumpKeepsCoordination(lease: Lease)
    ensures SameCoordination(lease, BumpAnchorFence(lease))
  {
  }

  /** Two annotation maps that agree on every anchor and version-2 key. */
  ghost predicate SameAnchorNotes(before: Annotations, after: Annotations) {
    && Lookup(before, RepositoryFormat) == Lookup(after, RepositoryFormat)
    && Lookup(before, V3Sequence) == Lookup(after, V3Sequence)
    && Lookup(before, V3CommitKey) == Lookup(after, V3CommitKey)
    && Lookup(before, V3BodyDigest) == Lookup(after, V3BodyDigest)
    && Lookup(before, V3VersionId) == Lookup(after, V3VersionId)
    && Lookup(before, V3SigningKeyId) == Lookup(after, V3SigningKeyId)
    && Lookup(before, V3FormatGeneration) == Lookup(after, V3FormatGeneration)
    && Lookup(before, V3FormatDigest) == Lookup(after, V3FormatDigest)
    && Lookup(before, V3FormatObjectId) == Lookup(after, V3FormatObjectId)
    && Lookup(before, V3FormatVersionId) == Lookup(after, V3FormatVersionId)
    && (HasV2(before) <==> HasV2(after))
  }

  lemma {:induction false} SameAnchorNotesRead(before: Lease, after: Lease)
    requires after.annotations.Some?
    requires SameAnchorNotes(Notes(before), Notes(after))
    ensures ReadAnchor(before) == ReadAnchor(after)
  {
    assert NamesAnchor(Notes(before)) <==> NamesAnchor(Notes(after));
  }

  lemma {:induction false} UpdateKeepsAnchorNotes(notes: Annotations, key: Key, value: string)
    requires key in {WriterFence, WriterRenewal, AnchorFence}
    ensures SameAnchorNotes(notes, notes[key := value])
  {
    var after := notes[key := value];
    if HasV2(notes) { var k :| k in notes && k.V2?; assert k in after; }
    if HasV2(after) { var k :| k in after && k.V2?; assert k in notes; }
  }

  /** Guard writes and fencing reads never alter the anchor. */
  lemma {:induction false} GuardWritesKeepAnchor(lease: Lease, claim: Claim, renewal: U64, seconds: nat, acquiring: bool)
    ensures var written := WithGuardState(lease, claim, renewal, seconds, acquiring);
            written.Some? ==> ReadAnchor(written.value) == ReadAnchor(lease)
    ensures var released := WithReleasedState(lease, renewal);
            released.Some? ==> ReadAnchor(released.value) == ReadAnchor(lease)
    ensures ReadAnchor(BumpAnchorFence(lease)) == ReadAnchor(lease)
  {
    var notes := Notes(lease);
    UpdateKeepsAnchorNotes(notes, WriterFence, Decimal(claim.token));
    UpdateKeepsAnchorNotes(notes[WriterFence := Decimal(claim.token)], WriterRenewal, Decimal(renewal));
    UpdateKeepsAnchorNotes(notes, WriterRenewal, Decimal(renewal));
    UpdateKeepsAnchorNotes(notes, AnchorFence, Notes(BumpAnchorFence(lease))[AnchorFence]);
    var written := WithGuardState(lease, claim, renewal, seconds, acquiring);
    if written.Some? { SameAnchorNotesRead(lease, written.value); }
    var released := WithReleasedState(lease, renewal);
    if released.Some? { SameAnchorNotesRead(lease, released.value); }
    SameAnchorNotesRead(lease, BumpAnchorFence(lease));
  }
}
