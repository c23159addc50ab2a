/** Reading the frames of a run in order: what is checked frame by frame, and the exact frame
    sequences that pass. */
module RunScan {
  import opened Prelude
  import opened Order
  import opened RunModel
  import opened RunRecords
  import opened Projections
  import opened RunFrames
  import opened Canonical
  import opened RunTables

  /** The immutable facts that every frame of a run repeats. */
  datatype Common = Common(sequence: U64, count: U32, pack: Option<SelfPack>, keyCount: U64, metaTotal: U64)

  /** The records of a run, cut into frames. */
  datatype Pieces = Pieces(metas: seq<seq<Meta>>, nss: seq<seq<NsRecord>>, lss: seq<seq<LsRecord>>)

  datatype State = State(common: Option<Common>, pieces: Pieces, tables: Tables)

  const NOTHING := State(None, Pieces([], [], []), NO_TABLES)

  function Flatten<T>(pieces: seq<seq<T>>): seq<T> {
    if pieces == [] then [] else Flatten(pieces[..|pieces| - 1]) + pieces[|pieces| - 1]
  }

  lemma {:induction false} FlattenSnoc<T>(pieces: seq<seq<T>>, piece: seq<T>)
    ensures Flatten(pieces + [piece]) == Flatten(pieces) + piece
  {
    assert (pieces + [piece])[..|pieces|] == pieces;
  }

  // ---------------------------------------------------------------- frames and pieces

  ghost predicate HeaderIs(c: Common, role: Role, total: nat, k: nat, size: nat, h: Header) {
    && h.role == role && h.roleOrdinal == k && h.sequence == c.sequence && h.mutationCount == c.count
    && h.roleCount == total && h.frameCount == size
  }

  ghost predicate MetaFrameIs(c: Common, metas: seq<seq<Meta>>, k: nat, f: Frame)
    requires k < |metas|
  {
    f.records == Metas(metas[k]) && HeaderIs(c, Metadata(c.pack, c.keyCount), c.metaTotal, k, |metas[k]|, f.header)
  }

  ghost predicate NsFrameIs(c: Common, nss: seq<seq<NsRecord>>, k: nat, f: Frame)
    requires k < |nss|
  {
    f.records == Nss(nss[k]) && HeaderIs(c, Namespace, c.count, k, |nss[k]|, f.header)
  }

  ghost predicate LsFrameIs(c: Common, lss: seq<seq<LsRecord>>, k: nat, f: Frame)
    requires k < |lss|
  {
    f.records == Lss(lss[k]) && HeaderIs(c, Listing, c.count, k, |lss[k]|, f.header)
  }

  function FrameTotal(p: Pieces): nat {
    |p.metas| + |p.nss| + |p.lss|
  }

  ghost predicate FrameIs(c: Common, p: Pieces, k: nat, f: Frame)
    requires k < FrameTotal(p)
  {
    if k < |p.metas| then MetaFrameIs(c, p.metas, k, f)
    else if k < |p.metas| + |p.nss| then NsFrameIs(c, p.nss, k - |p.metas|, f)
    else LsFrameIs(c, p.lss, k - |p.metas| - |p.nss|, f)
  }

  /** The frames of cut records: metadata, then namespace, then listing frames, numbered per role. */
  ghost predicate Laid(c: Common, p: Pieces, frames: seq<Frame>) {
    |frames| == FrameTotal(p) && forall k | 0 <= k < |frames| :: FrameIs(c, p, k, frames[k])
  }

  /** The common facts and the cut determine the frames. */
  lemma {:induction false} LaidUnique(c: Common, p: Pieces, a: seq<Frame>, b: seq<Frame>)
    requires Laid(c, p, a) && Laid(c, p, b)
    ensures a == b
  {
    forall k | 0 <= k < |a| ensures a[k] == b[k] {
      assert FrameIs(c, p, k, a[k]) && FrameIs(c, p, k, b[k]);
    }
  }

  // ---------------------------------------------------------------- what records must satisfy

  /** What the metadata of a run promises before any mutation is read. */
  predicate CommonOk(limits: Limits, c: Common) {
    c.count <= limits.maxMutations && c.keyCount <= c.metaTotal && c.keyCount <= c.count
  }

  /** The tables and facts that pointers are checked against. */
  function TableRun(c: Common, t: Tables): Run {
    Run(t.receipt, c.sequence, c.pack, t.packs, t.streams, [])
  }

  predicate NsOk(c: Common, t: Tables, r: NsRecord) {
    && r.key < |t.names|
    && r.ordinal < c.count
    && (r.NsUpsert? ==> PointerOk(TableRun(c, t), r.payload, r.contentLen))
  }

  predicate NsDistinct(nss: seq<NsRecord>) {
    forall i, j | 0 <= i < j < |nss| :: nss[i].ordinal != nss[j].ordinal
  }

  predicate NsListOk(c: Common, t: Tables, nss: seq<NsRecord>) {
    Ascending(NsKeys(nss)) && (forall j | 0 <= j < |nss| :: NsOk(c, t, nss[j])) && NsDistinct(nss)
  }

  /** The namespace record of an ordinal. */
  function NsAt(nss: seq<NsRecord>, ordinal: nat): (r: Option<NsRecord>)
    ensures r.Some? ==> r.value in nss && r.value.ordinal == ordinal
    ensures r.None? ==> forall j | 0 <= j < |nss| :: nss[j].ordinal != ordinal
  {
    if nss == [] then None
    else if nss[|nss| - 1].ordinal == ordinal then Some(nss[|nss| - 1])
    else NsAt(nss[..|nss| - 1], ordinal)
  }

  function LsAt(lss: seq<LsRecord>, ordinal: nat): (r: Option<LsRecord>)
    ensures r.Some? ==> r.value in lss && r.value.ordinal == ordinal
    ensures r.None? ==> forall j | 0 <= j < |lss| :: lss[j].ordinal != ordinal
  {
    if lss == [] then None
    else if lss[|lss| - 1].ordinal == ordinal then Some(lss[|lss| - 1])
    else LsAt(lss[..|lss| - 1], ordinal)
  }

  /** A listing record pairs with the namespace record of its ordinal. */
  predicate LsOk(c: Common, t: Tables, nss: seq<NsRecord>, r: LsRecord) {
    && r.ordinal < c.count
    && var ns := NsAt(nss, r.ordinal);
    && ns.Some? && ns.value.key < |t.names| && PairUp(t.names, ns.value, r).Some?
  }

  predicate LsDistinct(lss: seq<LsRecord>) {
    forall i, j | 0 <= i < j < |lss| :: lss[i].ordinal != lss[j].ordinal
  }

  predicate LsListOk(c: Common, t: Tables, nss: seq<NsRecord>, lss: seq<LsRecord>) {
    Ascending(LsKeys(lss)) && (forall j | 0 <= j < |lss| :: LsOk(c, t, nss, lss[j])) && LsDistinct(lss)
  }

  // ---------------------------------------------------------------- one frame

  function CommonOf(h: Header): Common
    requires h.role.Metadata?
  {
    Common(h.sequence, h.mutationCount, h.role.pack, h.role.keyCount, h.roleCount)
  }

  /** The facts a metadata frame is held against: those read before, or its own if it is the first. */
  ghost function CommonWith(s: State, h: Header): Common
    requires h.role.Metadata?
  {
    if s.common.Some? then s.common.value else CommonOf(h)
  }

  ghost predicate MetaHeaderOk(limits: Limits, s: State, h: Header, size: nat) {
    && s.pieces.nss == [] && s.pieces.lss == [] && h.role.Metadata?
    && var c := CommonWith(s, h);
    && CommonOk(limits, c)
    && HeaderIs(c, Metadata(c.pack, c.keyCount), c.metaTotal, |s.pieces.metas|, size, h)
    && |s.pieces.metas| + 1 < U32_LIMIT
    && |Flatten(s.pieces.metas)| + size <= c.metaTotal
  }

  ghost predicate NsHeaderOk(s: State, h: Header, size: nat) {
    && s.common.Some? && s.pieces.lss == []
    && var c := s.common.value;
    && (s.pieces.nss == [] ==> |Flatten(s.pieces.metas)| == c.metaTotal)
    && |s.tables.names| == c.keyCount
    && HeaderIs(c, Namespace, c.count, |s.pieces.nss|, size, h)
    && |s.pieces.nss| + 1 < U32_LIMIT
    && |Flatten(s.pieces.nss)| + size <= c.count
  }

  ghost predicate LsHeaderOk(s: State, h: Header, size: nat) {
    && s.common.Some? && s.pieces.nss != []
    && var c := s.common.value;
    && (s.pieces.lss == [] ==> |Flatten(s.pieces.nss)| == c.count)
    && HeaderIs(c, Listing, c.count, |s.pieces.lss|, size, h)
    && |s.pieces.lss| + 1 < U32_LIMIT
    && |Flatten(s.pieces.lss)| + size <= c.count
  }

  ghost function AdvanceMetas(limits: Limits, s: State, h: Header, ms: seq<Meta>): Option<State> {
    if !MetaHeaderOk(limits, s, h, |ms|) then None
    else
      var c := CommonWith(s, h);
      var tables :- AddMetas(limits, c.keyCount, s.tables, ms);
      Some(State(Some(c), s.pieces.(metas := s.pieces.metas + [ms]), tables))
  }

  ghost function AdvanceNss(s: State, h: Header, ns: seq<NsRecord>): Option<State> {
    if !NsHeaderOk(s, h, |ns|) || !NsListOk(s.common.value, s.tables, Flatten(s.pieces.nss) + ns) then None
    else Some(s.(pieces := s.pieces.(nss := s.pieces.nss + [ns])))
  }

  ghost function AdvanceLss(s: State, h: Header, ls: seq<LsRecord>): Option<State> {
    if !LsHeaderOk(s, h, |ls|)
       || !LsListOk(s.common.value, s.tables, Flatten(s.pieces.nss), Flatten(s.pieces.lss) + ls)
    then None
    else Some(s.(pieces := s.pieces.(lss := s.pieces.lss + [ls])))
  }

  /** One more frame: its role and ordinal follow, its facts agree, and its records extend the lists. */
  ghost function Advance(limits: Limits, s: State, f: Frame): Option<State> {
    match f.records
    case Metas(ms) => AdvanceMetas(limits, s, f.header, ms)
    case Nss(ns) => AdvanceNss(s, f.header, ns)
    case Lss(ls) => AdvanceLss(s, f.header, ls)
  }

  ghost function Scan(limits: Limits, frames: seq<Frame>): Option<State> {
    if frames == [] then Some(NOTHING)
    else
      var s :- Scan(limits, frames[..|frames| - 1]);
      Advance(limits, s, frames[|frames| - 1])
  }

  // ---------------------------------------------------------------- soundness of scanning

  /** What holds of the records read so far. */
  ghost predicate PrefixOk(limits: Limits, c: Common, p: Pieces, t: Tables) {
    && CommonOk(limits, c)
    && p.metas != [] && |p.metas| < U32_LIMIT && |p.nss| < U32_LIMIT && |p.lss| < U32_LIMIT
    && TablesOrdered(limits, c.keyCount, t) && Join(t) == Flatten(p.metas) && |Flatten(p.metas)| <= c.metaTotal
    && (p.nss != [] ==> |Flatten(p.metas)| == c.metaTotal && |t.names| == c.keyCount)
    && (p.lss != [] ==> p.nss != [] && |Flatten(p.nss)| == c.count)
    && |Flatten(p.nss)| <= c.count && |Flatten(p.lss)| <= c.count
    && NsListOk(c, t, Flatten(p.nss))
    && LsListOk(c, t, Flatten(p.nss), Flatten(p.lss))
  }

  lemma {:induction false} LaidMeta(c: Common, p: Pieces, frames: seq<Frame>, ms: seq<Meta>, f: Frame)
    requires Laid(c, p, frames) && p.nss == [] && p.lss == [] && f.records == Metas(ms)
    requires HeaderIs(c, Metadata(c.pack, c.keyCount), c.metaTotal, |p.metas|, |ms|, f.header)
    ensures Laid(c, p.(metas := p.metas + [ms]), frames + [f])
  {
    var q := p.(metas := p.metas + [ms]);
    forall k | 0 <= k <= |frames| ensures FrameIs(c, q, k, (frames + [f])[k]) {
      if k < |frames| { assert FrameIs(c, p, k, frames[k]); }
    }
  }

  lemma {:induction false} LaidNs(c: Common, p: Pieces, frames: seq<Frame>, ns: seq<NsRecord>, f: Frame)
    requires Laid(c, p, frames) && p.lss == [] && f.records == Nss(ns)
    requires HeaderIs(c, Namespace, c.count, |p.nss|, |ns|, f.header)
    ensures Laid(c, p.(nss := p.nss + [ns]), frames + [f])
  {
    var q := p.(nss := p.nss + [ns]);
    forall k | 0 <= k <= |frames| ensures FrameIs(c, q, k, (frames + [f])[k]) {
      if k < |frames| { assert FrameIs(c, p, k, frames[k]); }
    }
  }

  lemma {:induction false} LaidLs(c: Common, p: Pieces, frames: seq<Frame>, ls: seq<LsRecord>, f: Frame)
    requires Laid(c, p, frames) && f.records == Lss(ls)
    requires HeaderIs(c, Listing, c.count, |p.lss|, |ls|, f.header)
    ensures Laid(c, p.(lss := p.lss + [ls]), frames + [f])
  {
    var q := p.(lss := p.lss + [ls]);
    forall k | 0 <= k <= |frames| ensures FrameIs(c, q, k, (frames + [f])[k]) {
      if k < |frames| { assert FrameIs(c, p, k, frames[k]); }
    }
  }

  /** A state that frames were read into. */
  ghost predicate Scanned(limits: Limits, s: State, frames: seq<Frame>) {
    if frames == [] then s == NOTHING
    else s.common.Some? && PrefixOk(limits, s.common.value, s.pieces, s.tables) && Laid(s.common.value, s.pieces, frames)
  }

  lemma {:induction false} AdvanceMetasSound(limits: Limits, s: State, frames: seq<Frame>, f: Frame)
    requires Scanned(limits, s, frames) && f.records.Metas?
    requires AdvanceMetas(limits, s, f.header, f.records.metas).Some?
    ensures Scanned(limits, AdvanceMetas(limits, s, f.header, f.records.metas).value, frames + [f])
  {
    var ms, s' := f.records.metas, AdvanceMetas(limits, s, f.header, f.records.metas).value;
    var c := s'.common.value;
    FlattenSnoc(s.pieces.metas, ms);
    assert Join(NO_TABLES) == [];
    AddMetasSound(limits, c.keyCount, s.tables, ms);
    LaidMeta(c, s.pieces, frames, ms, f);
  }

  lemma {:induction false} AdvanceNssSound(limits: Limits, s: State, frames: seq<Frame>, f: Frame)
    requires Scanned(limits, s, frames) && f.records.Nss? && AdvanceNss(s, f.header, f.records.nss).Some?
    ensures Scanned(limits, AdvanceNss(s, f.header, f.records.nss).value, frames + [f])
  {
    FlattenSnoc(s.pieces.nss, f.records.nss);
    LaidNs(s.common.value, s.pieces, frames, f.records.nss, f);
    assert Flatten(s.pieces.lss) == [];
  }

  lemma {:induction false} AdvanceLssSound(limits: Limits, s: State, frames: seq<Frame>, f: Frame)
    requires Scanned(limits, s, frames) && f.records.Lss? && AdvanceLss(s, f.header, f.records.lss).Some?
    ensures Scanned(limits, AdvanceLss(s, f.header, f.records.lss).value, frames + [f])
  {
    FlattenSnoc(s.pieces.lss, f.records.lss);
    LaidLs(s.common.value, s.pieces, frames, f.records.lss, f);
  }

  /** Scanning accepts only laid-out cuts of records that satisfy every list condition. */
  lemma {:induction false} ScanSound(limits: Limits, frames: seq<Frame>)
    requires Scan(limits, frames).Some?
    ensures Scanned(limits, Scan(limits, frames).value, frames)
  {
    if frames != [] {
      var front, f := frames[..|frames| - 1], frames[|frames| - 1];
      ScanSound(limits, front);
      var s := Scan(limits, front).value;
      assert frames == front + [f];
      match f.records {
        case Metas(_) => AdvanceMetasSound(limits, s, front, f);
        case Nss(_) => AdvanceNssSound(limits, s, front, f);
        case Lss(_) => AdvanceLssSound(limits, s, front, f);
      }
    }
  }

  // ---------------------------------------------------------------- completeness of scanning

  lemma {:induction false} NsListPrefix(c: Common, t: Tables, a: seq<NsRecord>, b: seq<NsRecord>)
    requires NsListOk(c, t, a + b)
    ensures NsListOk(c, t, a)
  {
    var all := a + b;
    assert forall i | 0 <= i < |a| :: NsKeys(a)[i] == NsKeys(all)[i] && a[i] == all[i];
  }

  lemma {:induction false} LsListPrefix(c: Common, t: Tables, nss: seq<NsRecord>, a: seq<LsRecord>, b: seq<LsRecord>)
    requires LsListOk(c, t, nss, a + b)
    ensures LsListOk(c, t, nss, a)
  {
    var all := a + b;
    assert forall i | 0 <= i < |a| :: LsKeys(a)[i] == LsKeys(all)[i] && a[i] == all[i];
  }

  lemma {:induction false} NothingListed(c: Common, t: Tables, nss: seq<NsRecord>)
    ensures NsListOk(c, t, []) && LsListOk(c, t, nss, [])
  {
  }

  /** The same pieces without the last one in reading order. */
  ghost function Shorter(p: Pieces): Pieces
    requires FrameTotal(p) > 0
  {
    if p.lss != [] then p.(lss := p.lss[..|p.lss| - 1])
    else if p.nss != [] then p.(nss := p.nss[..|p.nss| - 1])
    else p.(metas := p.metas[..|p.metas| - 1])
  }

  lemma {:induction false} LaidShorter(c: Common, p: Pieces, frames: seq<Frame>)
    requires Laid(c, p, frames) && frames != []
    ensures Laid(c, Shorter(p), frames[..|frames| - 1])
  {
    forall k | 0 <= k < |frames| - 1 ensures FrameIs(c, Shorter(p), k, frames[k]) {
      assert FrameIs(c, p, k, frames[k]);
    }
  }

  lemma {:induction false} LastMetasAccepted(limits: Limits, c: Common, p: Pieces, t: Tables, before: State, f: Frame)
    requires PrefixOk(limits, c, p, t) && p.nss == [] && p.lss == [] && MetaFrameIs(c, p.metas, |p.metas| - 1, f)
    requires before.pieces == Shorter(p) && (before.common == Some(c) || before.common == None)
    requires AddMetas(limits, c.keyCount, before.tables, p.metas[|p.metas| - 1]) == Some(t)
    ensures Advance(limits, before, f) == Some(State(Some(c), p, t))
  {
    var front, last := p.metas[..|p.metas| - 1], p.metas[|p.metas| - 1];
    FlattenSnoc(front, last);
    assert p.metas == front + [last];
  }

  lemma {:induction false} LastNssAccepted(limits: Limits, c: Common, p: Pieces, t: Tables, f: Frame)
    requires PrefixOk(limits, c, p, t) && p.nss != [] && p.lss == [] && NsFrameIs(c, p.nss, |p.nss| - 1, f)
    ensures PrefixOk(limits, c, Shorter(p), t)
    ensures Advance(limits, State(Some(c), Shorter(p), t), f) == Some(State(Some(c), p, t))
  {
    var front, last := p.nss[..|p.nss| - 1], p.nss[|p.nss| - 1];
    FlattenSnoc(front, last);
    assert p.nss == front + [last];
    NsListPrefix(c, t, Flatten(front), last);
    NothingListed(c, t, Flatten(front));
  }

  lemma {:induction false} LastLssAccepted(limits: Limits, c: Common, p: Pieces, t: Tables, f: Frame)
    requires PrefixOk(limits, c, p, t) && p.lss != [] && LsFrameIs(c, p.lss, |p.lss| - 1, f)
    ensures PrefixOk(limits, c, Shorter(p), t)
    ensures Advance(limits, State(Some(c), Shorter(p), t), f) == Some(State(Some(c), p, t))
  {
    var front, last := p.lss[..|p.lss| - 1], p.lss[|p.lss| - 1];
    FlattenSnoc(front, last);
    assert p.lss == front + [last];
    LsListPrefix(c, t, Flatten(p.nss), Flatten(front), last);
  }

  /** The tables before the last metadata frame. */
  lemma {:induction false} EarlierTables(limits: Limits, c: Common, p: Pieces, t: Tables) returns (before: Tables)
    requires PrefixOk(limits, c, p, t) && p.nss == [] && p.lss == []
    ensures AddMetas(limits, c.keyCount, before, p.metas[|p.metas| - 1]) == Some(t)
    ensures |p.metas| == 1 ==> before == NO_TABLES
    ensures |p.metas| > 1 ==> PrefixOk(limits, c, Shorter(p), before)
  {
    var front, last := p.metas[..|p.metas| - 1], p.metas[|p.metas| - 1];
    FlattenSnoc(front, last);
    assert p.metas == front + [last];
    var n, all := |Flatten(front)|, Join(t);
    PathChains(limits, c.keyCount, t);
    ChainReads(limits, c.keyCount, Path(t), all, n, |all|);
    ChainOrdered(limits, c.keyCount, Path(t), all, n);
    before := Path(t)[n];
    assert all[n..|all|] == last && all[..n] == Flatten(front);
    NothingListed(c, before, []);
  }

  /** Every laid-out cut of records that satisfy the list conditions is accepted. */
  lemma {:induction false} ScanComplete(limits: Limits, c: Common, p: Pieces, t: Tables, frames: seq<Frame>)
    requires PrefixOk(limits, c, p, t) && Laid(c, p, frames)
    ensures Scan(limits, frames) == Some(State(Some(c), p, t))
    decreases |frames|
  {
    var n := |frames| - 1;
    var front, f := frames[..n], frames[n];
    assert FrameIs(c, p, n, f);
    LaidShorter(c, p, frames);
    if p.lss != [] {
      LastLssAccepted(limits, c, p, t, f);
      ScanComplete(limits, c, Shorter(p), t, front);
    } else if p.nss != [] {
      LastNssAccepted(limits, c, p, t, f);
      ScanComplete(limits, c, Shorter(p), t, front);
    } else {
      var before := EarlierTables(limits, c, p, t);
      if |p.metas| == 1 {
        LastMetasAccepted(limits, c, p, t, NOTHING, f);
      } else {
        ScanComplete(limits, c, Shorter(p), before, front);
        LastMetasAccepted(limits, c, p, t, State(Some(c), Shorter(p), before), f);
      }
    }
  }
}
