/** The running header state of the frame decoder, and its agreement with scanning. */
module RunProgress {
  import opened Prelude
  import opened RunModel
  import opened RunRecords
  import opened Projections
  import opened RunFrames
  import opened RunScan

  /** What the decoder remembers between frame headers. */
  datatype Progress = Progress(
    sequence: Option<U64>,
    count: Option<U32>,
    role: nat,
    ordinal: nat,
    total: Option<nat>,
    seen: nat)

  const START := Progress(None, None, 0, 0, None, 0)

  /** One header: the next ordinal of the role, or the first of the next role once the role is
      complete; repeated facts agree and the records stay within the declared total. */
  function Proceed(limits: Limits, p: Progress, h: Header): Option<Progress> {
    var tag := RoleTag(h.role) as nat;
    var same := tag == p.role && h.roleOrdinal == p.ordinal;
    if !same && (tag != p.role + 1 || h.roleOrdinal != 0 || p.total != Some(p.seen)) then None
    else
      var total := if same then p.total else None;
      var seen := (if same then p.seen else 0) + h.frameCount;
      if h.roleOrdinal + 1 >= U32_LIMIT
         || (p.sequence.Some? && p.sequence.value != h.sequence)
         || (p.count.Some? && p.count.value != h.mutationCount)
         || (p.count.None? && h.mutationCount > limits.maxMutations)
         || (total.Some? && total.value != h.roleCount)
         || seen > h.roleCount
      then None
      else Some(Progress(Some(h.sequence), Some(h.mutationCount), tag, h.roleOrdinal + 1, Some(h.roleCount), seen))
  }

  /** The header state that a scanned state stands for. */
  ghost function ProgressOf(s: State): Progress {
    if s.common.None? then START
    else
      var c := s.common.value;
      if s.pieces.lss != [] then
        Progress(Some(c.sequence), Some(c.count), 2, |s.pieces.lss|, Some(c.count), |Flatten(s.pieces.lss)|)
      else if s.pieces.nss != [] then
        Progress(Some(c.sequence), Some(c.count), 1, |s.pieces.nss|, Some(c.count), |Flatten(s.pieces.nss)|)
      else
        Progress(Some(c.sequence), Some(c.count), 0, |s.pieces.metas|, Some(c.metaTotal), |Flatten(s.pieces.metas)|)
  }

  /** What else a metadata header must satisfy. */
  predicate MetaFactsOk(declared: Option<nat>, pack: Option<Option<SelfPack>>, h: Header)
    requires h.role.Metadata?
  {
    && h.role.keyCount <= h.roleCount && h.role.keyCount <= h.mutationCount
    && (declared.Some? ==> declared.value == h.role.keyCount)
    && (pack.Some? ==> pack.value == h.role.pack)
  }

  ghost function DeclaredOf(s: State): Option<nat> {
    if s.common.Some? then Some(s.common.value.keyCount) else None
  }

  ghost function PackOf(s: State): Option<Option<SelfPack>> {
    if s.common.Some? then Some(s.common.value.pack) else None
  }

  /** What header checks rely on: roles were begun in order and the facts were accepted. */
  ghost predicate Underway(limits: Limits, s: State) {
    && (s.common.None? ==> s.pieces == Pieces([], [], []))
    && (s.common.Some? ==> CommonOk(limits, s.common.value) && s.pieces.metas != [])
    && (s.pieces.lss != [] ==> s.pieces.nss != [])
  }

  lemma {:induction false} ScannedUnderway(limits: Limits, s: State, frames: seq<Frame>)
    requires Scanned(limits, s, frames)
    ensures Underway(limits, s)
  {
  }

  /** For a metadata frame the scanning conditions are the header check and the metadata facts. */
  lemma {:induction false} MetaHeaderAgrees(limits: Limits, s: State, h: Header)
    requires Underway(limits, s) && h.role.Metadata?
    ensures MetaHeaderOk(limits, s, h, h.frameCount) <==>
            Proceed(limits, ProgressOf(s), h).Some? && MetaFactsOk(DeclaredOf(s), PackOf(s), h)
  {
    if s.common.None? {
      assert Flatten(s.pieces.metas) == [];
    }
  }

  lemma {:induction false} NsHeaderAgrees(limits: Limits, s: State, h: Header)
    requires Underway(limits, s) && h.role.Namespace?
    ensures NsHeaderOk(s, h, h.frameCount) <==>
            && Proceed(limits, ProgressOf(s), h).Some? && s.common.Some?
            && |s.tables.names| == s.common.value.keyCount && h.roleCount == h.mutationCount
  {
    assert s.pieces.nss == [] ==> Flatten(s.pieces.nss) == [];
  }

  lemma {:induction false} LsHeaderAgrees(limits: Limits, s: State, h: Header)
    requires Underway(limits, s) && h.role.Listing?
    ensures LsHeaderOk(s, h, h.frameCount) <==>
            Proceed(limits, ProgressOf(s), h).Some? && s.common.Some? && h.roleCount == h.mutationCount
  {
    assert s.pieces.lss == [] ==> Flatten(s.pieces.lss) == [];
  }

  lemma {:induction false} MetaProgress(limits: Limits, s: State, h: Header, ms: seq<Meta>)
    requires Underway(limits, s) && h.role.Metadata? && h.frameCount == |ms| && AdvanceMetas(limits, s, h, ms).Some?
    ensures Proceed(limits, ProgressOf(s), h) == Some(ProgressOf(AdvanceMetas(limits, s, h, ms).value))
  {
    FlattenSnoc(s.pieces.metas, ms);
    MetaHeaderAgrees(limits, s, h);
  }

  lemma {:induction false} NsProgress(limits: Limits, s: State, h: Header, ns: seq<NsRecord>)
    requires Underway(limits, s) && h.role.Namespace? && h.frameCount == |ns| && AdvanceNss(s, h, ns).Some?
    ensures Proceed(limits, ProgressOf(s), h) == Some(ProgressOf(AdvanceNss(s, h, ns).value))
  {
    FlattenSnoc(s.pieces.nss, ns);
    NsHeaderAgrees(limits, s, h);
  }

  lemma {:induction false} LsProgress(limits: Limits, s: State, h: Header, ls: seq<LsRecord>)
    requires Underway(limits, s) && h.role.Listing? && h.frameCount == |ls| && AdvanceLss(s, h, ls).Some?
    ensures Proceed(limits, ProgressOf(s), h) == Some(ProgressOf(AdvanceLss(s, h, ls).value))
  {
    FlattenSnoc(s.pieces.lss, ls);
    LsHeaderAgrees(limits, s, h);
  }

  /** The header state follows the scanned state. */
  lemma {:induction false} ProgressFollows(limits: Limits, s: State, f: Frame)
    requires Underway(limits, s) && RoleMatches(f.header.role, f.records) && f.header.frameCount == Count(f.records)
    requires Advance(limits, s, f).Some?
    ensures Proceed(limits, ProgressOf(s), f.header) == Some(ProgressOf(Advance(limits, s, f).value))
  {
    match f.records {
      case Metas(ms) => MetaProgress(limits, s, f.header, ms);
      case Nss(ns) => NsProgress(limits, s, f.header, ns);
      case Lss(ls) => LsProgress(limits, s, f.header, ls);
    }
  }
}
