/** Encoding whole runs, and when what is encoded can be decoded again. */
module RunEncoding {
  import opened Prelude
  import opened Types
  import opened Wire
  import opened RunModel
  import opened RunRecords
  import opened Projections
  import opened RunFrames
  import opened Canonical
  import opened RunTables
  import opened RunScan
  import opened RunFinish
  import opened RunCodec
  import opened Packing
  import opened FramePacking
  import opened RunEncoder
  import opened Spans

  /** The three record lists of a run. */
  datatype Lists = Lists(metas: seq<Meta>, nss: seq<NsRecord>, lss: seq<LsRecord>)

  /** Where each role was cut, and the frames of each role. */
  datatype Cut = Cut(
    metaEnds: seq<nat>, nsEnds: seq<nat>, lsEnds: seq<nat>,
    metas: seq<Data>, nss: seq<Data>, lss: seq<Data>)

  function AllFrames(cut: Cut): seq<Data> {
    cut.metas + cut.nss + cut.lss
  }

  // ---------------------------------------------------------------- preparing records

  predicate ListingFits(limits: Limits, lss: seq<LsRecord>) {
    forall i | 0 <= i < |lss| :: |LsBody(lss[i])| <= limits.maxRecordBytes
  }

  /** Every record fits its limit on its own. */
  predicate ListsFit(limits: Limits, l: Lists) {
    MetasOk(limits, l.metas) && BodiesOk(NsBodies(l.nss), limits.maxRecordBytes) && ListingFits(limits, l.lss)
  }

  lemma {:induction false} MetasSnoc(limits: Limits, metas: seq<Meta>, m: Meta)
    requires MetasOk(limits, metas)
    ensures MetasOk(limits, metas + [m]) <==> MetaOk(limits, m)
    ensures MetaOk(limits, m) ==>
            MetaRecords(limits, metas + [m]) == MetaRecords(limits, metas) + [Prepared(PutMeta(m), None)]
  {
    assert (metas + [m])[|metas|] == m;
  }

  lemma {:induction false} MetasStop(limits: Limits, metas: seq<Meta>, i: nat)
    requires i < |metas| && !MetaOk(limits, metas[i])
    ensures !MetasOk(limits, metas)
  {
  }

  method PrepareMetas(limits: Limits, metas: seq<Meta>) returns (records: Option<seq<Prepared>>)
    requires forall i | 0 <= i < |metas| :: MetaValid(limits, metas[i])
    ensures records.Some? <==> MetasOk(limits, metas)
    ensures records.Some? ==> records.value == MetaRecords(limits, metas)
  {
    var prepared: seq<Prepared> := [];
    assert metas[..|metas|] == metas;
    for i := 0 to |metas|
      invariant MetasOk(limits, metas[..i]) && prepared == MetaRecords(limits, metas[..i])
    {
      assert metas[..i + 1] == metas[..i] + [metas[i]];
      MetasSnoc(limits, metas[..i], metas[i]);
      var record := PrepareMeta(limits, metas[i]);
      if record.None? {
        MetasStop(limits, metas, i);
        return None;
      }
      prepared := prepared + [record.value];
    }
    records := Some(prepared);
  }

  method PrepareMeta(limits: Limits, m: Meta) returns (record: Option<Prepared>)
    requires MetaValid(limits, m)
    ensures record.Some? <==> MetaOk(limits, m)
    ensures record.Some? ==> record.value == Prepared(PutMeta(m), None)
  {
    var body := PutMeta(m);
    if |body| > MetaLimit(limits, m.Streamed?) { return None; }
    record := Some(Prepared(body, None));
  }

  lemma {:induction false} NamespaceSnoc(limits: Limits, nss: seq<NsRecord>, r: NsRecord)
    requires BodiesOk(NsBodies(nss), limits.maxRecordBytes)
    ensures BodiesOk(NsBodies(nss + [r]), limits.maxRecordBytes) <==> |PutNs(r)| <= limits.maxRecordBytes
    ensures NamespaceRecords(nss + [r]) == NamespaceRecords(nss) + [Prepared(PutNs(r), None)]
  {
    assert NsBodies(nss + [r]) == NsBodies(nss) + [PutNs(r)];
    assert NsBodies(nss + [r])[|nss|] == PutNs(r);
  }

  lemma {:induction false} NamespaceStop(limits: Limits, nss: seq<NsRecord>, i: nat)
    requires i < |nss| && |PutNs(nss[i])| > limits.maxRecordBytes
    ensures !BodiesOk(NsBodies(nss), limits.maxRecordBytes)
  {
    assert NsBodies(nss)[i] == PutNs(nss[i]);
  }

  method PrepareNamespace(limits: Limits, nss: seq<NsRecord>) returns (records: Option<seq<Prepared>>)
    ensures records.Some? <==> BodiesOk(NsBodies(nss), limits.maxRecordBytes)
    ensures records.Some? ==> records.value == NamespaceRecords(nss)
  {
    var prepared: seq<Prepared> := [];
    assert nss[..|nss|] == nss;
    for i := 0 to |nss|
      invariant BodiesOk(NsBodies(nss[..i]), limits.maxRecordBytes) && prepared == NamespaceRecords(nss[..i])
    {
      assert nss[..i + 1] == nss[..i] + [nss[i]];
      NamespaceSnoc(limits, nss[..i], nss[i]);
      var body := PutNs(nss[i]);
      if |body| > limits.maxRecordBytes {
        NamespaceStop(limits, nss, i);
        return None;
      }
      prepared := prepared + [Prepared(body, None)];
    }
    records := Some(prepared);
  }

  lemma {:induction false} ListingSnoc(limits: Limits, lss: seq<LsRecord>, r: LsRecord)
    requires ListingFits(limits, lss)
    ensures ListingFits(limits, lss + [r]) <==> |LsBody(r)| <= limits.maxRecordBytes
    ensures ListingRecords(lss + [r]) == ListingRecords(lss) + [Prepared(LsBody(r), Some(r.path))]
  {
    assert (lss + [r])[|lss|] == r;
  }

  lemma {:induction false} ListingStop(limits: Limits, lss: seq<LsRecord>, i: nat)
    requires i < |lss| && |LsBody(lss[i])| > limits.maxRecordBytes
    ensures !ListingFits(limits, lss)
  {
  }

  method PrepareListing(limits: Limits, lss: seq<LsRecord>) returns (records: Option<seq<Prepared>>)
    ensures records.Some? <==> ListingFits(limits, lss)
    ensures records.Some? ==> records.value == ListingRecords(lss)
  {
    var prepared: seq<Prepared> := [];
    assert lss[..|lss|] == lss;
    for i := 0 to |lss|
      invariant ListingFits(limits, lss[..i]) && prepared == ListingRecords(lss[..i])
    {
      assert lss[..i + 1] == lss[..i] + [lss[i]];
      ListingSnoc(limits, lss[..i], lss[i]);
      var body := LsBody(lss[i]);
      if |body| > limits.maxRecordBytes {
        ListingStop(limits, lss, i);
        return None;
      }
      prepared := prepared + [Prepared(body, Some(lss[i].path))];
    }
    records := Some(prepared);
  }

  // ---------------------------------------------------------------- packing the lists

  ghost predicate PackedLists(limits: Limits, c: Common, l: Lists, cut: Cut)
    requires MetasOk(limits, l.metas)
  {
    && Packed(limits, PlanFor(c, Metadata(c.pack, c.keyCount)), MetaRecords(limits, l.metas), cut.metaEnds, cut.metas)
    && Packed(limits, PlanFor(c, Namespace), NamespaceRecords(l.nss), cut.nsEnds, cut.nss)
    && Packed(limits, PlanFor(c, Listing), ListingRecords(l.lss), cut.lsEnds, cut.lss)
  }

  /** Some role has no packing. */
  ghost predicate UnpackableLists(limits: Limits, c: Common, l: Lists)
    requires MetasOk(limits, l.metas)
  {
    || Unpackable(limits, PlanFor(c, Metadata(c.pack, c.keyCount)), MetaRecords(limits, l.metas))
    || Unpackable(limits, PlanFor(c, Namespace), NamespaceRecords(l.nss))
    || Unpackable(limits, PlanFor(c, Listing), ListingRecords(l.lss))
  }

  lemma {:induction false} UnpackableHasNone(limits: Limits, c: Common, l: Lists, cut: Cut)
    requires MetasOk(limits, l.metas) && UnpackableLists(limits, c, l)
    ensures !PackedLists(limits, c, l, cut)
  {
  }

  /** There is at most one packing of the three lists. */
  lemma {:induction false} PackedListsUnique(limits: Limits, c: Common, l: Lists, cut: Cut, other: Cut)
    requires MetasOk(limits, l.metas) && PackedLists(limits, c, l, cut) && PackedLists(limits, c, l, other)
    ensures cut == other
  {
    PackedUnique(limits, PlanFor(c, Metadata(c.pack, c.keyCount)), MetaRecords(limits, l.metas),
                 cut.metaEnds, cut.metas, other.metaEnds, other.metas);
    PackedUnique(limits, PlanFor(c, Namespace), NamespaceRecords(l.nss), cut.nsEnds, cut.nss, other.nsEnds, other.nss);
    PackedUnique(limits, PlanFor(c, Listing), ListingRecords(l.lss), cut.lsEnds, cut.lss, other.lsEnds, other.lss);
  }

  predicate CountsMatch(c: Common, l: Lists) {
    |l.metas| == c.metaTotal && |l.nss| == |l.lss| == c.count
  }

  /** Prepares and packs the three roles in turn. */
  method PackLists(limits: Limits, c: Common, l: Lists) returns (frames: Option<seq<Data>>, ghost cut: Cut)
    requires CountsMatch(c, l) && forall i | 0 <= i < |l.metas| :: MetaValid(limits, l.metas[i])
    ensures frames.Some? ==> ListsFit(limits, l) && PackedLists(limits, c, l, cut) && frames.value == AllFrames(cut)
    ensures frames.None? ==> !ListsFit(limits, l) || UnpackableLists(limits, c, l)
  {
    cut := Cut([], [], [], [], [], []);
    var metas := PrepareMetas(limits, l.metas);
    if metas.None? { return None, cut; }
    var nss := PrepareNamespace(limits, l.nss);
    if nss.None? { return None, cut; }
    var lss := PrepareListing(limits, l.lss);
    if lss.None? { return None, cut; }
    var metaFrames, metaEnds := PackFrames(limits, PlanFor(c, Metadata(c.pack, c.keyCount)), metas.value);
    if metaFrames.None? { return None, cut; }
    var nsFrames, nsEnds := PackFrames(limits, PlanFor(c, Namespace), nss.value);
    if nsFrames.None? { return None, cut; }
    var lsFrames, lsEnds := PackFrames(limits, PlanFor(c, Listing), lss.value);
    if lsFrames.None? { return None, cut; }
    cut := Cut(metaEnds, nsEnds, lsEnds, metaFrames.value, nsFrames.value, lsFrames.value);
    frames := Some(metaFrames.value + nsFrames.value + lsFrames.value);
  }

  ghost predicate CutEnds(l: Lists, cut: Cut) {
    && Ends(|l.metas|, cut.metaEnds) && Ends(|l.nss|, cut.nsEnds) && Ends(|l.lss|, cut.lsEnds)
    && |cut.metaEnds| == |cut.metas| && |cut.nsEnds| == |cut.nss| && |cut.lsEnds| == |cut.lss|
  }

  ghost function PiecesOf(l: Lists, cut: Cut): (p: Pieces)
    requires CutEnds(l, cut)
    ensures |p.metas| == |cut.metas| && |p.nss| == |cut.nss| && |p.lss| == |cut.lss|
  {
    Pieces(CutAt(l.metas, cut.metaEnds), CutAt(l.nss, cut.nsEnds), CutAt(l.lss, cut.lsEnds))
  }

  /** The pieces of a packing join up to the lists. */
  lemma {:induction false} PackedFlattens(limits: Limits, c: Common, l: Lists, cut: Cut)
    requires MetasOk(limits, l.metas) && PackedLists(limits, c, l, cut)
    ensures CutEnds(l, cut)
    ensures var p := PiecesOf(l, cut);
            Flatten(p.metas) == l.metas && Flatten(p.nss) == l.nss && Flatten(p.lss) == l.lss
  {
    PackedEnds(limits, PlanFor(c, Metadata(c.pack, c.keyCount)), MetaRecords(limits, l.metas), cut.metaEnds, cut.metas);
    PackedEnds(limits, PlanFor(c, Namespace), NamespaceRecords(l.nss), cut.nsEnds, cut.nss);
    PackedEnds(limits, PlanFor(c, Listing), ListingRecords(l.lss), cut.lsEnds, cut.lss);
    CutFlattens(l.metas, cut.metaEnds);
    CutFlattens(l.nss, cut.nsEnds);
    CutFlattens(l.lss, cut.lsEnds);
  }

  ghost predicate PlansOk(limits: Limits, c: Common) {
    && PlanOk(limits, PlanFor(c, Metadata(c.pack, c.keyCount)))
    && PlanOk(limits, PlanFor(c, Namespace)) && PlanOk(limits, PlanFor(c, Listing))
  }

  /** Every packed frame is the byte form of its piece. */
  lemma {:induction false} PackedHeld(limits: Limits, c: Common, l: Lists, cut: Cut)
    requires MetasOk(limits, l.metas) && PackedLists(limits, c, l, cut) && CutEnds(l, cut)
    requires CountsMatch(c, l) && PlansOk(limits, c) && PathsOk(limits, l.lss)
    ensures var p := PiecesOf(l, cut);
            MetasHeld(limits, c, p.metas, cut.metas) && NssHeld(limits, c, p.nss, cut.nss) && LssHeld(limits, c, p.lss, cut.lss)
  {
    var p := PiecesOf(l, cut);
    var plan := PlanFor(c, Metadata(c.pack, c.keyCount));
    forall k | 0 <= k < |p.metas| ensures Holds(limits, plan, k, Metas(p.metas[k]), cut.metas[k]) {
      MetaHolds(limits, plan, l.metas, cut.metaEnds, cut.metas, k);
    }
    forall k | 0 <= k < |p.nss| ensures Holds(limits, PlanFor(c, Namespace), k, Nss(p.nss[k]), cut.nss[k]) {
      NamespaceHolds(limits, PlanFor(c, Namespace), l.nss, cut.nsEnds, cut.nss, k);
    }
    forall k | 0 <= k < |p.lss| ensures Holds(limits, PlanFor(c, Listing), k, Lss(p.lss[k]), cut.lss[k]) {
      ListingHolds(limits, PlanFor(c, Listing), l.lss, cut.lsEnds, cut.lss, k);
    }
  }

  // ---------------------------------------------------------------- runs

  /** What the encoder validates before it writes anything. */
  predicate Accepted(limits: Limits, run: Run) {
    RunOk(limits, run) && forall i | 0 <= i < |run.mutations| :: CompositeOk(run.mutations[i])
  }

  function ListsOf(run: Run): Lists
    requires Dense(run.mutations) && |Names(run.mutations)| < U32_LIMIT
  {
    Lists(Join(TablesFor(run)), NsRecords(Names(run.mutations), run.mutations), LsRecords(run.mutations))
  }

  lemma {:induction false} RunIsCountable(limits: Limits, run: Run)
    requires RunOk(limits, run)
    ensures Dense(run.mutations) && |Names(run.mutations)| <= |run.mutations| < U32_LIMIT
    ensures |Join(TablesFor(run))| <= |run.containers| + |run.streams| + |Names(run.mutations)| + 1
  {
    NameTableSize(Names(run.mutations), run.mutations);
  }

  lemma {:induction false} NameFits(limits: Limits, run: Run, id: Text)
    requires RunOk(limits, run) && id in Names(run.mutations)
    ensures |id| <= limits.maxKeyIdBytes
  {
    var names := Names(run.mutations);
    var i :| 0 <= i < |names| && names[i] == id;
    assert Named(run.mutations, names[i]);
    var m :| 0 <= m < |run.mutations| && run.mutations[m].keyId == id;
    assert MutationOk(limits, run, run.mutations[m]);
  }

  lemma {:induction false} JoinAt(t: Tables, i: nat)
    requires i < |Join(t)|
    ensures var a, b, n := |t.packs|, |t.packs| + |t.streams|, |t.packs| + |t.streams| + |t.names|;
            if i < a then Join(t)[i] == Pack(t.packs[i])
            else if i < b then Join(t)[i] == Streamed(t.streams[i - a])
            else if i < n then Join(t)[i] == KeyName(t.names[i - b])
            else t.receipt.Some? && Join(t)[i] == Completion(t.receipt.value)
  {
  }

  lemma {:induction false} EntriesValid(limits: Limits, run: Run)
    requires RunOk(limits, run)
    ensures forall i | 0 <= i < |run.containers| :: ContainerOk(limits, run.containers[i])
    ensures forall i | 0 <= i < |run.streams| :: StreamOk(limits, run.streams[i])
    ensures run.receipt.Some? ==> ValidReceipt(run.receipt.value)
  {
  }

  lemma {:induction false} MetasValid(limits: Limits, run: Run, i: nat)
    requires RunOk(limits, run) && i < |Join(TablesFor(run))|
    ensures MetaValid(limits, Join(TablesFor(run))[i])
  {
    var t := TablesFor(run);
    JoinAt(t, i);
    EntriesValid(limits, run);
    var b := |t.packs| + |t.streams|;
    if b <= i < b + |t.names| { NameFits(limits, run, t.names[i - b]); }
  }

  lemma {:induction false} ListingPathsOk(limits: Limits, run: Run, lss: seq<LsRecord>)
    requires RunOk(limits, run) && IsLsList(run.mutations, lss)
    ensures PathsOk(limits, lss)
  {
    forall i | 0 <= i < |lss| ensures |lss[i].path| <= limits.maxPathBytes {
      assert LsPlaced(run.mutations, lss[i]);
      assert MutationOk(limits, run, run.mutations[lss[i].ordinal]);
    }
  }

  /** The frames of a valid run: every record, frame and the total within the limits. */
  ghost predicate Framed(limits: Limits, run: Run, cut: Cut) {
    && RunOk(limits, run) && Countable(run)
    && ListsFit(limits, ListsOf(run)) && PackedLists(limits, CommonFor(run), ListsOf(run), cut)
    && TotalBytes(AllFrames(cut)) <= limits.maxTotalBytes
  }

  /** The frames that encoding gives. */
  ghost predicate Encoded(limits: Limits, run: Run, cut: Cut) {
    Accepted(limits, run) && Framed(limits, run, cut)
  }

  /** What decoding asks for beyond encoding: the record limits of a metadata frame must add up
      within a machine word, and the ordinal after the last metadata frame must be representable. */
  ghost predicate Decodable(limits: Limits, cut: Cut) {
    limits.maxContainers + limits.maxMutations + 1 < U64_LIMIT && |cut.metas| < U32_LIMIT
  }

  lemma {:induction false} CommonPlansOk(limits: Limits, run: Run)
    requires RunOk(limits, run) && Countable(run) && RoleLimit(limits, true).Some?
    ensures PlansOk(limits, CommonFor(run)) && CountsMatch(CommonFor(run), ListsOf(run))
  {
    RunIsCountable(limits, run);
  }

  /** Under the word-size condition, the frames parse into a layout of the run's cut records. */
  lemma {:induction false} EncodedLaid(limits: Limits, run: Run, cut: Cut) returns (p: Pieces)
    requires Framed(limits, run, cut) && RoleLimit(limits, true).Some?
    ensures |p.metas| == |cut.metas| && |p.nss| == |cut.nss| && |p.lss| == |cut.lss|
    ensures var l := ListsOf(run);
            Flatten(p.metas) == l.metas && Flatten(p.nss) == l.nss && Flatten(p.lss) == l.lss
    ensures ParseAll(limits, AllFrames(cut)).Some?
    ensures Laid(CommonFor(run), p, ParseAll(limits, AllFrames(cut)).value)
  {
    var c, l := CommonFor(run), ListsOf(run);
    CommonPlansOk(limits, run);
    ListingPathsOk(limits, run, l.lss);
    PackedFlattens(limits, c, l, cut);
    p := PiecesOf(l, cut);
    PackedHeld(limits, c, l, cut);
    HeldLaid(limits, c, p, cut.metas, cut.nss, cut.lss);
  }

  lemma {:induction false} PackedCounts(limits: Limits, run: Run, cut: Cut)
    requires Framed(limits, run, cut)
    ensures 0 < |cut.metas| <= |Join(TablesFor(run))| + 1
    ensures |Join(TablesFor(run))| > 0 ==> |cut.metas| <= |Join(TablesFor(run))|
    ensures |cut.nss| <= |run.mutations| && |cut.lss| <= |run.mutations|
  {
  }

  /** The frames of an encoded run are an encoding of it. */
  lemma {:induction false} EncodedEncodes(limits: Limits, run: Run, cut: Cut) returns (p: Pieces)
    requires Framed(limits, run, cut) && Decodable(limits, cut)
    ensures ParseAll(limits, AllFrames(cut)).Some?
    ensures Encodes(limits, run, p, ParseAll(limits, AllFrames(cut)).value, AllFrames(cut))
  {
    p := EncodedLaid(limits, run, cut);
    PackedCuts(limits, run, cut, p);
    ParsedBytes(limits, AllFrames(cut));
  }

  lemma {:induction false} ParsedBytes(limits: Limits, frames: seq<Data>)
    requires ParseAll(limits, frames).Some?
    ensures forall k | 0 <= k < |frames| :: FrameBytes(limits, ParseAll(limits, frames).value, frames, k)
  {
    forall k | 0 <= k < |frames| ensures FrameBytes(limits, ParseAll(limits, frames).value, frames, k) {
      ParsedShape(limits, frames, k);
    }
  }

  lemma {:induction false} PackedCuts(limits: Limits, run: Run, cut: Cut, p: Pieces)
    requires Framed(limits, run, cut) && |cut.metas| < U32_LIMIT
    requires |p.metas| == |cut.metas| && |p.nss| == |cut.nss| && |p.lss| == |cut.lss|
    requires var l := ListsOf(run);
             Flatten(p.metas) == l.metas && Flatten(p.nss) == l.nss && Flatten(p.lss) == l.lss
    ensures Cuts(run, p)
  {
    PackedCounts(limits, run, cut);
  }

  /** Too many metadata frames are refused, whatever they hold. */
  lemma {:induction false} TooManyRefused(limits: Limits, run: Run, cut: Cut)
    requires Framed(limits, run, cut) && RoleLimit(limits, true).Some? && |cut.metas| >= U32_LIMIT
    ensures Decode(limits, AllFrames(cut)).None?
  {
    var frames := AllFrames(cut);
    if Decode(limits, frames).Some? {
      var p := EncodedLaid(limits, run, cut);
      var q, parsed := DecodeSound(limits, frames);
      SameCounts(CommonFor(run), p, CommonFor(Decode(limits, frames).value), q, parsed);
    }
  }

  /** Frames have one cut: their roles say how many there are of each. */
  lemma {:induction false} SameCounts(c: Common, p: Pieces, d: Common, q: Pieces, parsed: seq<Frame>)
    requires Laid(c, p, parsed) && Laid(d, q, parsed)
    ensures |p.metas| == |q.metas| && |p.nss| == |q.nss| && |p.lss| == |q.lss|
  {
    forall k | 0 <= k < |parsed| ensures TagAt(p, k) == TagAt(q, k) {
      LaidBoundary(c, p, parsed, k);
      LaidBoundary(d, q, parsed, k);
    }
    SameFrameCounts(p, q);
  }

  /** Without a word for the record limit, no metadata frame is readable. */
  lemma {:induction false} LimitSumRefused(limits: Limits, h: Header, tail: Data)
    requires RoleLimit(limits, true).None? && h.role.Metadata?
    ensures ParseFrame(limits, PutHeader(h, tail)).None?
  {
    RadixValues();
    var tag := PutByte(0, PutCounts(h, tail));
    BytesRoundTrip(DOMAIN, PutInt(WIRE_VERSION, 2, tag));
    IntRoundTrip(WIRE_VERSION, 2, tag);
    ByteRoundTrip(0, PutCounts(h, tail));
    assert ReadCounts(limits, 0, PutCounts(h, tail)).None?;
  }

  lemma {:induction false} FirstUnreadable(
      limits: Limits, plan: Plan, records: seq<Prepared>, ends: seq<nat>, frames: seq<Data>)
    requires Packed(limits, plan, records, ends, frames) && frames != []
    requires RoleLimit(limits, true).None? && plan.role.Metadata?
    ensures ParseFrame(limits, frames[0]).None?
  {
    PackedAt(limits, plan, records, ends, frames, 0);
    LimitSumRefused(limits, HeaderFor(plan, 0, ends[0]), PutBodies(FrameBodies(records, 0, ends[0]), []));
  }

  lemma {:induction false} SumTooLargeRefused(limits: Limits, run: Run, cut: Cut)
    requires Framed(limits, run, cut) && RoleLimit(limits, true).None?
    ensures Decode(limits, AllFrames(cut)).None?
  {
    var c, l := CommonFor(run), ListsOf(run);
    PackedCounts(limits, run, cut);
    FirstUnreadable(limits, PlanFor(c, Metadata(c.pack, c.keyCount)), MetaRecords(limits, l.metas), cut.metaEnds, cut.metas);
    assert AllFrames(cut)[0] == cut.metas[0];
    UnreadableRejected(limits, AllFrames(cut), 0);
  }

  /** An encoded run decodes to itself exactly when it is decodable; otherwise decoding refuses. */
  lemma {:induction false} RoundTrip(limits: Limits, run: Run, cut: Cut)
    requires Framed(limits, run, cut)
    ensures Decode(limits, AllFrames(cut)) == if Decodable(limits, cut) then Some(run) else None
  {
    if RoleLimit(limits, true).None? {
      SumTooLargeRefused(limits, run, cut);
    } else if |cut.metas| >= U32_LIMIT {
      TooManyRefused(limits, run, cut);
    } else {
      var p := EncodedEncodes(limits, run, cut);
      DecodeComplete(limits, run, p, ParseAll(limits, AllFrames(cut)).value, AllFrames(cut));
    }
  }

  /** The round trip by what a caller knows beforehand: limits that add up within a machine word, and a
      run with fewer than 2^32 entries in all. */
  lemma {:induction false} SmallRunsRoundTrip(limits: Limits, run: Run, cut: Cut)
    requires Framed(limits, run, cut)
    requires limits.maxContainers + limits.maxMutations + 1 < U64_LIMIT
    requires |run.containers| + |run.streams| + |run.mutations| + 1 < U32_LIMIT
    ensures Decode(limits, AllFrames(cut)) == Some(run)
  {
    PackedCounts(limits, run, cut);
    RunIsCountable(limits, run);
    RoundTrip(limits, run, cut);
  }

  /** A decoded run passes the validation of encoding exactly when its composite checksums count the
      parts of their ETags. */
  lemma {:induction false} DecodedIsAccepted(limits: Limits, frames: seq<Data>)
    requires Decode(limits, frames).Some?
    ensures var run := Decode(limits, frames).value;
            Accepted(limits, run) <==> forall i | 0 <= i < |run.mutations| :: CompositeOk(run.mutations[i])
  {
    var p, parsed := DecodeSound(limits, frames);
  }

  lemma {:induction false} ClaimsHaveLength(limits: Limits, run: Run)
    requires forall i | 0 <= i < |run.mutations| :: MutationOk(limits, run, run.mutations[i])
    ensures ClaimsNonEmpty(run.mutations)
  {
    forall i | 0 <= i < |run.mutations| && ClaimOf(run.mutations[i]).Some?
      ensures ClaimOf(run.mutations[i]).value.contentLen > 0
    {
      assert MutationOk(limits, run, run.mutations[i]);
    }
  }

  /** Validates a run: it is accepted exactly when it is sound and every composite checksum counts the parts
      of its ETag. */
  method Validate(limits: Limits, run: Run) returns (ok: bool)
    ensures ok <==> Accepted(limits, run)
    ensures ok <==> Sound(limits, run) && forall i | 0 <= i < |run.mutations| :: CompositeOk(run.mutations[i])
  {
    RunOkExactly(limits, run);
    ok := Check(limits, run);
  }

  /** Checks tables, mutations, uses, repeated record facts and the receipt. */
  method Check(limits: Limits, run: Run) returns (ok: bool)
    ensures ok <==> Accepted(limits, run)
  {
    if !TablesOk(limits, run) || |run.mutations| > limits.maxMutations || |run.mutations| >= U32_LIMIT { return false; }
    for i := 0 to |run.mutations|
      invariant forall j | 0 <= j < i :: run.mutations[j].ordinal == j && MutationOk(limits, run, run.mutations[j])
      invariant forall j | 0 <= j < i :: CompositeOk(run.mutations[j])
    {
      if run.mutations[i].ordinal != i || !MutationOk(limits, run, run.mutations[i]) || !CompositeOk(run.mutations[i]) {
        return false;
      }
    }
    ClaimsHaveLength(limits, run);
    var agree := CheckClaims(run.mutations);
    ok := agree && AllUsed(run) && ReceiptOk(run);
  }

  /** Nothing encodes the run. */
  ghost predicate Unencodable(limits: Limits, run: Run) {
    forall cut :: !Encoded(limits, run, cut)
  }

  lemma {:induction false} TooLongIsUnencodable(limits: Limits, run: Run, cut: Cut)
    requires RunOk(limits, run) && Countable(run) && MetasOk(limits, ListsOf(run).metas)
    requires PackedLists(limits, CommonFor(run), ListsOf(run), cut)
    requires TotalBytes(AllFrames(cut)) > limits.maxTotalBytes
    ensures Unencodable(limits, run)
  {
    forall other ensures !Encoded(limits, run, other) {
      if PackedLists(limits, CommonFor(run), ListsOf(run), other) {
        PackedListsUnique(limits, CommonFor(run), ListsOf(run), cut, other);
      }
    }
  }

  /** Encodes a run into frames; refuses exactly when nothing encodes it. */
  method EncodeFrames(limits: Limits, run: Run) returns (frames: Option<seq<Data>>, ghost cut: Cut)
    ensures frames.Some? ==> Encoded(limits, run, cut) && frames.value == AllFrames(cut)
    ensures frames.Some? ==> Decode(limits, frames.value) == if Decodable(limits, cut) then Some(run) else None
    ensures frames.None? ==> Unencodable(limits, run)
  {
    cut := Cut([], [], [], [], [], []);
    var valid := Validate(limits, run);
    if !valid { return None, cut; }
    RunIsCountable(limits, run);
    if |Join(TablesFor(run))| >= U64_LIMIT { return None, cut; }
    var c, l := CommonFor(run), ListsOf(run);
    forall i | 0 <= i < |l.metas| ensures MetaValid(limits, l.metas[i]) { MetasValid(limits, run, i); }
    frames, cut := PackLists(limits, c, l);
    if frames.None? {
      if MetasOk(limits, l.metas) && UnpackableLists(limits, c, l) { UnpackableIsUnencodable(limits, run); }
      return;
    }
    if TotalBytes(frames.value) > limits.maxTotalBytes {
      TooLongIsUnencodable(limits, run, cut);
      return None, cut;
    }
    RoundTrip(limits, run, cut);
  }

  lemma {:induction false} UnpackableIsUnencodable(limits: Limits, run: Run)
    requires RunOk(limits, run) && Countable(run) && MetasOk(limits, ListsOf(run).metas)
    requires UnpackableLists(limits, CommonFor(run), ListsOf(run))
    ensures Unencodable(limits, run)
  {
    forall other ensures !Encoded(limits, run, other) {
      UnpackableHasNone(limits, CommonFor(run), ListsOf(run), other);
    }
  }

  lemma {:induction false} PackedWithin(
      limits: Limits, plan: Plan, records: seq<Prepared>, ends: seq<nat>, frames: seq<Data>)
    requires Packed(limits, plan, records, ends, frames)
    ensures BodiesOk(frames, limits.maxFrameBytes)
  {
    forall k | 0 <= k < |frames| ensures |frames[k]| <= limits.maxFrameBytes {
      PackedAt(limits, plan, records, ends, frames, k);
      FrameLenIs(plan, records, k, StartOf(ends, k), ends[k]);
    }
  }

  /** Every frame is within the frame limit, and there are no more frames than records. */
  lemma {:induction false} EncodedWithin(limits: Limits, run: Run, cut: Cut)
    requires Framed(limits, run, cut)
    ensures BodiesOk(AllFrames(cut), limits.maxFrameBytes)
    ensures |AllFrames(cut)| <= 3 * limits.maxMutations + limits.maxContainers + 1
  {
    var c, l := CommonFor(run), ListsOf(run);
    PackedWithin(limits, PlanFor(c, Metadata(c.pack, c.keyCount)), MetaRecords(limits, l.metas), cut.metaEnds, cut.metas);
    PackedWithin(limits, PlanFor(c, Namespace), NamespaceRecords(l.nss), cut.nsEnds, cut.nss);
    PackedWithin(limits, PlanFor(c, Listing), ListingRecords(l.lss), cut.lsEnds, cut.lss);
    PackedCounts(limits, run, cut);
    RunIsCountable(limits, run);
  }
}
