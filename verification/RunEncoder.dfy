/** Encoding an index run: canonical records, packed greedily into frames, that decode to the run. */
module RunEncoder {
  import opened Prelude
  import opened RunModel
  import opened RunRecords
  import opened Projections
  import opened RunFrames
  import opened RunScan
  import opened RunCodec
  import opened Packing
  import opened FramePacking

  // ---------------------------------------------------------------- prepared records

  function MetaRecords(limits: Limits, metas: seq<Meta>): (records: seq<Prepared>)
    requires MetasOk(limits, metas)
    ensures |records| == |metas| && forall i | 0 <= i < |metas| :: records[i] == Prepared(PutMeta(metas[i]), None)
  {
    seq(|metas|, i requires 0 <= i < |metas| => Prepared(PutMeta(metas[i]), None))
  }

  function NamespaceRecords(nss: seq<NsRecord>): (records: seq<Prepared>)
    ensures |records| == |nss| && forall i | 0 <= i < |nss| :: records[i] == Prepared(PutNs(nss[i]), None)
  {
    seq(|nss|, i requires 0 <= i < |nss| => Prepared(PutNs(nss[i]), None))
  }

  function ListingRecords(lss: seq<LsRecord>): (records: seq<Prepared>)
    ensures |records| == |lss|
    ensures forall i | 0 <= i < |lss| :: records[i] == Prepared(LsBody(lss[i]), Some(lss[i].path))
  {
    seq(|lss|, i requires 0 <= i < |lss| => Prepared(LsBody(lss[i]), Some(lss[i].path)))
  }

  // ---------------------------------------------------------------- cutting lists

  ghost predicate EndsAt(n: nat, ends: seq<nat>, k: nat)
    requires k < |ends|
  {
    StartOf(ends, k) <= ends[k] <= n
  }

  ghost predicate Ends(n: nat, ends: seq<nat>) {
    forall k | 0 <= k < |ends| :: EndsAt(n, ends, k)
  }

  lemma {:induction false} EndsFront(n: nat, ends: seq<nat>)
    requires Ends(n, ends) && ends != []
    ensures Ends(n, ends[..|ends| - 1]) && StartOf(ends, |ends| - 1) <= ends[|ends| - 1] <= n
  {
    assert EndsAt(n, ends, |ends| - 1);
    var front := ends[..|ends| - 1];
    forall k | 0 <= k < |front| ensures EndsAt(n, front, k) { assert EndsAt(n, ends, k); }
  }

  ghost function CutAt<T>(items: seq<T>, ends: seq<nat>): (pieces: seq<seq<T>>)
    requires Ends(|items|, ends)
    ensures |pieces| == |ends|
  {
    if ends == [] then []
    else
      var n := |ends| - 1;
      EndsFront(|items|, ends);
      CutAt(items, ends[..n]) + [items[StartOf(ends, n)..ends[n]]]
  }

  lemma {:induction false} CutPiece<T>(items: seq<T>, ends: seq<nat>, k: nat)
    requires Ends(|items|, ends) && k < |ends|
    ensures StartOf(ends, k) <= ends[k] <= |items| && CutAt(items, ends)[k] == items[StartOf(ends, k)..ends[k]]
    decreases |ends|
  {
    EndsFront(|items|, ends);
    var n := |ends| - 1;
    if k < n { CutPiece(items, ends[..n], k); }
  }

  /** The pieces of a cut join up to what has been cut off. */
  lemma {:induction false} CutFlattens<T>(items: seq<T>, ends: seq<nat>)
    requires Ends(|items|, ends)
    ensures StartOf(ends, |ends|) <= |items| && Flatten(CutAt(items, ends)) == items[..StartOf(ends, |ends|)]
    decreases |ends|
  {
    if ends != [] {
      var n := |ends| - 1;
      var front, from := ends[..n], StartOf(ends, n);
      EndsFront(|items|, ends);
      CutFlattens(items, front);
      assert StartOf(front, n) == from;
      FlattenSnoc(CutAt(items, front), items[from..ends[n]]);
      assert items[..ends[n]] == items[..from] + items[from..ends[n]];
    }
  }

  // ---------------------------------------------------------------- frames of a role

  /** What the bytes of one packed frame are, as a frame. */
  ghost predicate Holds(limits: Limits, plan: Plan, k: nat, records: Records, bytes: Data) {
    && k < U32_LIMIT && Count(records) < U64_LIMIT
    && var f := Frame(HeaderFor(plan, k, Count(records)), records);
    FrameOk(limits, f) && bytes == PutFrame(limits, f)
  }

  ghost predicate PlanOk(limits: Limits, plan: Plan) {
    && RoleOk(limits, plan.role)
    && RoleLimit(limits, plan.role.Metadata?).Some?
    && plan.roleCount <= RoleLimit(limits, plan.role.Metadata?).value
  }

  lemma {:induction false} FrameHolds(limits: Limits, h: Header, piece: Records, bodies: seq<Data>, bytes: Data)
    requires HeaderOk(limits, h) && RoleMatches(h.role, piece) && RecordsOk(limits, piece)
    requires h.frameCount == Count(piece) && bodies == Bodies(limits, piece)
    requires bytes == PutHeader(h, PutBodies(bodies, [])) && |bytes| <= limits.maxFrameBytes
    ensures FrameOk(limits, Frame(h, piece)) && bytes == PutFrame(limits, Frame(h, piece))
  {
  }

  /** A packed frame is the byte form of its piece, given that the piece has the packed bodies. */
  lemma {:induction false} PackedHolds(
      limits: Limits, plan: Plan, records: seq<Prepared>, k: U32, a: nat, b: nat, piece: Records, bytes: Data)
    requires a <= b <= |records| == plan.roleCount && b - a == Count(piece)
    requires PlanOk(limits, plan) && RoleMatches(plan.role, piece) && RecordsOk(limits, piece)
    requires FrameBodies(records, a, b) == Bodies(limits, piece)
    requires FrameLen(plan, records, k, a, b) <= limits.maxFrameBytes && bytes == FrameData(plan, records, k, a, b)
    ensures Holds(limits, plan, k, piece, bytes)
  {
    FrameLenIs(plan, records, k, a, b);
    FrameHolds(limits, HeaderFor(plan, k, b - a), piece, FrameBodies(records, a, b), bytes);
  }

  lemma {:induction false} MetasSlice(limits: Limits, metas: seq<Meta>, a: nat, b: nat)
    requires MetasOk(limits, metas) && a <= b <= |metas|
    ensures MetasOk(limits, metas[a..b])
  {
    forall i | 0 <= i < b - a ensures MetaOk(limits, metas[a..b][i]) { assert metas[a..b][i] == metas[a + i]; }
  }

  lemma {:induction false} MetaPiece(limits: Limits, metas: seq<Meta>, a: nat, b: nat)
    requires MetasOk(limits, metas) && a <= b <= |metas| && MetasOk(limits, metas[a..b])
    ensures FrameBodies(MetaRecords(limits, metas), a, b) == MetaBodies(limits, metas[a..b])
  {
    PlainBodies(MetaRecords(limits, metas), a, b, MetaBodies(limits, metas[a..b]));
  }

  lemma {:induction false} NamespacePiece(limits: Limits, nss: seq<NsRecord>, a: nat, b: nat)
    requires a <= b <= |nss| && BodiesWithin(limits, Namespace, NamespaceRecords(nss), a, b)
    ensures BodiesOk(NsBodies(nss[a..b]), limits.maxRecordBytes)
    ensures FrameBodies(NamespaceRecords(nss), a, b) == NsBodies(nss[a..b])
  {
    var records, bodies := NamespaceRecords(nss), NsBodies(nss[a..b]);
    forall i | 0 <= i < b - a
      ensures FrameBodies(records, a, b)[i] == bodies[i] && |bodies[i]| <= limits.maxRecordBytes
    {
      BodyFits(limits, Namespace, records, a, b, i);
    }
  }

  lemma {:induction false} ListingBody(lss: seq<LsRecord>, a: nat, b: nat, i: nat)
    requires a <= b <= |lss| && i < b - a
    ensures BodyAt(ListingRecords(lss), a, a + i) == PutLs(Previous(lss[a..b], i), lss[a..b][i])
  {
    assert i > 0 ==> lss[a..b][i - 1] == lss[a + i - 1];
  }

  lemma {:induction false} ListingPiece(limits: Limits, lss: seq<LsRecord>, a: nat, b: nat)
    requires a <= b <= |lss| && BodiesWithin(limits, Listing, ListingRecords(lss), a, b)
    ensures BodiesOk(LsBodies(lss[a..b]), limits.maxRecordBytes)
    ensures FrameBodies(ListingRecords(lss), a, b) == LsBodies(lss[a..b])
  {
    var bodies := LsBodies(lss[a..b]);
    forall i | 0 <= i < b - a
      ensures FrameBodies(ListingRecords(lss), a, b)[i] == bodies[i] && |bodies[i]| <= limits.maxRecordBytes
    {
      BodyFits(limits, Listing, ListingRecords(lss), a, b, i);
      ListingBody(lss, a, b, i);
    }
  }

  /** What packing says about one frame. */
  lemma {:induction false} PackedAt(
      limits: Limits, plan: Plan, records: seq<Prepared>, ends: seq<nat>, frames: seq<Data>, k: nat)
    requires Packed(limits, plan, records, ends, frames) && k < |frames|
    ensures |ends| == |frames| && WrittenAt(limits, plan, records, ends, frames, k)
    ensures FrameLen(plan, records, k, StartOf(ends, k), ends[k]) <= limits.maxFrameBytes
  {
    assert WrittenAt(limits, plan, records, ends, frames, k);
    assert FrameFits(plan, records, limits.maxFrameBytes, ends, k);
  }

  lemma {:induction false} PackedEnds(
      limits: Limits, plan: Plan, records: seq<Prepared>, ends: seq<nat>, frames: seq<Data>)
    requires Packed(limits, plan, records, ends, frames)
    ensures |ends| == |frames| && Ends(|records|, ends) && StartOf(ends, |ends|) == |records|
  {
    forall k | 0 <= k < |ends| ensures EndsAt(|records|, ends, k) {
      assert WrittenAt(limits, plan, records, ends, frames, k);
    }
  }

  lemma {:induction false} MetaHolds(
      limits: Limits, plan: Plan, metas: seq<Meta>, ends: seq<nat>, frames: seq<Data>, k: nat)
    requires MetasOk(limits, metas) && PlanOk(limits, plan) && plan.role.Metadata? && plan.roleCount == |metas|
    requires Packed(limits, plan, MetaRecords(limits, metas), ends, frames) && Ends(|metas|, ends) && k < |frames| == |ends|
    ensures Holds(limits, plan, k, Metas(CutAt(metas, ends)[k]), frames[k])
  {
    var records, a, b := MetaRecords(limits, metas), StartOf(ends, k), ends[k];
    PackedAt(limits, plan, records, ends, frames, k);
    CutPiece(metas, ends, k);
    MetasSlice(limits, metas, a, b);
    MetaPiece(limits, metas, a, b);
    PackedHolds(limits, plan, records, k, a, b, Metas(metas[a..b]), frames[k]);
  }

  lemma {:induction false} NamespaceHolds(
      limits: Limits, plan: Plan, nss: seq<NsRecord>, ends: seq<nat>, frames: seq<Data>, k: nat)
    requires PlanOk(limits, plan) && plan.role.Namespace? && plan.roleCount == |nss|
    requires Packed(limits, plan, NamespaceRecords(nss), ends, frames) && Ends(|nss|, ends) && k < |frames| == |ends|
    ensures Holds(limits, plan, k, Nss(CutAt(nss, ends)[k]), frames[k])
  {
    var records, a, b := NamespaceRecords(nss), StartOf(ends, k), ends[k];
    PackedAt(limits, plan, records, ends, frames, k);
    CutPiece(nss, ends, k);
    NamespacePiece(limits, nss, a, b);
    PackedHolds(limits, plan, records, k, a, b, Nss(nss[a..b]), frames[k]);
  }

  lemma {:induction false} ListingHolds(
      limits: Limits, plan: Plan, lss: seq<LsRecord>, ends: seq<nat>, frames: seq<Data>, k: nat)
    requires PlanOk(limits, plan) && plan.role.Listing? && plan.roleCount == |lss| && PathsOk(limits, lss)
    requires Packed(limits, plan, ListingRecords(lss), ends, frames) && Ends(|lss|, ends) && k < |frames| == |ends|
    ensures Holds(limits, plan, k, Lss(CutAt(lss, ends)[k]), frames[k])
  {
    var records, a, b := ListingRecords(lss), StartOf(ends, k), ends[k];
    PackedAt(limits, plan, records, ends, frames, k);
    CutPiece(lss, ends, k);
    ListingPiece(limits, lss, a, b);
    assert PathsOk(limits, lss[a..b]);
    PackedHolds(limits, plan, records, k, a, b, Lss(lss[a..b]), frames[k]);
  }

  // ---------------------------------------------------------------- the frames of all roles

  function PlanFor(c: Common, role: Role): Plan {
    Plan(role, c.sequence, c.count, if role.Metadata? then c.metaTotal else c.count)
  }

  /** The frames of each role are the byte forms of the pieces. */
  ghost predicate MetasHeld(limits: Limits, c: Common, metas: seq<seq<Meta>>, frames: seq<Data>) {
    |frames| == |metas| && forall k | 0 <= k < |metas| ::
      Holds(limits, PlanFor(c, Metadata(c.pack, c.keyCount)), k, Metas(metas[k]), frames[k])
  }

  ghost predicate NssHeld(limits: Limits, c: Common, nss: seq<seq<NsRecord>>, frames: seq<Data>) {
    |frames| == |nss| && forall k | 0 <= k < |nss| :: Holds(limits, PlanFor(c, Namespace), k, Nss(nss[k]), frames[k])
  }

  ghost predicate LssHeld(limits: Limits, c: Common, lss: seq<seq<LsRecord>>, frames: seq<Data>) {
    |frames| == |lss| && forall k | 0 <= k < |lss| :: Holds(limits, PlanFor(c, Listing), k, Lss(lss[k]), frames[k])
  }

  lemma {:induction false} HeldParses(limits: Limits, plan: Plan, k: nat, records: Records, bytes: Data)
    requires Holds(limits, plan, k, records, bytes)
    ensures ParseFrame(limits, bytes) == Some(Frame(HeaderFor(plan, k, Count(records)), records))
  {
    FrameRoundTrip(limits, Frame(HeaderFor(plan, k, Count(records)), records));
  }

  lemma {:induction false} FrameParsed(
      limits: Limits, c: Common, p: Pieces, fm: seq<Data>, fn: seq<Data>, fl: seq<Data>, k: nat)
    requires MetasHeld(limits, c, p.metas, fm) && NssHeld(limits, c, p.nss, fn) && LssHeld(limits, c, p.lss, fl)
    requires k < FrameTotal(p)
    ensures ParseFrame(limits, (fm + fn + fl)[k]).Some?
    ensures FrameIs(c, p, k, ParseFrame(limits, (fm + fn + fl)[k]).value)
  {
    var m, n := |p.metas|, |p.metas| + |p.nss|;
    if k < m {
      HeldParses(limits, PlanFor(c, Metadata(c.pack, c.keyCount)), k, Metas(p.metas[k]), fm[k]);
    } else if k < n {
      HeldParses(limits, PlanFor(c, Namespace), k - m, Nss(p.nss[k - m]), fn[k - m]);
    } else {
      HeldParses(limits, PlanFor(c, Listing), k - n, Lss(p.lss[k - n]), fl[k - n]);
    }
  }

  /** Packed roles, one after another, parse into the laid-out frames of the cut. */
  lemma {:induction false} HeldLaid(
      limits: Limits, c: Common, p: Pieces, fm: seq<Data>, fn: seq<Data>, fl: seq<Data>)
    requires MetasHeld(limits, c, p.metas, fm) && NssHeld(limits, c, p.nss, fn) && LssHeld(limits, c, p.lss, fl)
    ensures ParseAll(limits, fm + fn + fl).Some? && Laid(c, p, ParseAll(limits, fm + fn + fl).value)
  {
    var frames, parse := fm + fn + fl, (b: Data) => ParseFrame(limits, b);
    forall k | 0 <= k < |frames| ensures parse(frames[k]).Some? && FrameIs(c, p, k, parse(frames[k]).value) {
      FrameParsed(limits, c, p, fm, fn, fl, k);
    }
    var parsed := TryMap(parse, frames).value;
    forall k | 0 <= k < |frames| ensures FrameIs(c, p, k, parsed[k]) { assert parse(frames[k]) == Some(parsed[k]); }
  }
}
