/** Decoding index runs: exactly the canonical encodings are accepted, and each gives its run. */
module RunCodec {
  import opened Prelude
  import opened RunModel
  import opened RunRecords
  import opened Projections
  import opened RunFrames
  import opened Canonical
  import opened RunTables
  import opened RunScan
  import opened RunFinish

  function TotalBytes(frames: seq<Data>): nat {
    if frames == [] then 0 else TotalBytes(frames[..|frames| - 1]) + |frames[|frames| - 1]|
  }

  function ParseAll(limits: Limits, frames: seq<Data>): Option<seq<Frame>> {
    TryMap((b: Data) => ParseFrame(limits, b), frames)
  }

  /** What decoding a list of frames gives. */
  ghost function Decode(limits: Limits, frames: seq<Data>): Option<Run> {
    if frames == [] || TotalBytes(frames) > limits.maxTotalBytes then None
    else
      var parsed :- ParseAll(limits, frames);
      var s :- Scan(limits, parsed);
      ScanSound(limits, parsed);
      Finish(s.common.value, s.pieces, s.tables)
  }

  /** One unreadable frame is enough to be refused. */
  lemma {:induction false} UnreadableRejected(limits: Limits, frames: seq<Data>, i: nat)
    requires i < |frames| && ParseFrame(limits, frames[i]).None?
    ensures Decode(limits, frames).None?
  {
    var parse := (b: Data) => ParseFrame(limits, b);
    assert parse(frames[i]) == None;
  }

  // ---------------------------------------------------------------- encodings

  /** A run whose encodings have representable counts. */
  ghost predicate Countable(run: Run) {
    && |run.mutations| < U32_LIMIT && |Names(run.mutations)| < U32_LIMIT
    && |Join(TablesFor(run))| < U64_LIMIT && Dense(run.mutations)
  }

  ghost predicate FrameBytes(limits: Limits, parsed: seq<Frame>, frames: seq<Data>, k: nat)
    requires k < |parsed| == |frames|
  {
    FrameOk(limits, parsed[k]) && frames[k] == PutFrame(limits, parsed[k])
  }

  /** The frames are the byte forms of a cut of the run's canonical records, within the limits. */
  ghost predicate Encodes(limits: Limits, run: Run, p: Pieces, parsed: seq<Frame>, frames: seq<Data>) {
    && RunOk(limits, run) && Countable(run) && Cuts(run, p)
    && Laid(CommonFor(run), p, parsed)
    && |parsed| == |frames| && (forall k | 0 <= k < |frames| :: FrameBytes(limits, parsed, frames, k))
    && TotalBytes(frames) <= limits.maxTotalBytes
  }

  lemma {:induction false} ParseBytes(limits: Limits, parsed: seq<Frame>, frames: seq<Data>)
    requires |parsed| == |frames| && forall k | 0 <= k < |frames| :: FrameBytes(limits, parsed, frames, k)
    ensures ParseAll(limits, frames) == Some(parsed)
  {
    var parse := (b: Data) => ParseFrame(limits, b);
    forall k | 0 <= k < |frames| ensures parse(frames[k]) == Some(parsed[k]) {
      assert FrameBytes(limits, parsed, frames, k);
      FrameRoundTrip(limits, parsed[k]);
    }
    TryMapIs(parse, frames, parsed);
  }

  /** Every encoding of a run, however its records are cut into frames, decodes to that run. */
  lemma {:induction false} DecodeComplete(limits: Limits, run: Run, p: Pieces, parsed: seq<Frame>, frames: seq<Data>)
    requires Encodes(limits, run, p, parsed, frames)
    ensures Decode(limits, frames) == Some(run)
  {
    ParseBytes(limits, parsed, frames);
    FinishComplete(limits, run, p);
    ScanComplete(limits, CommonFor(run), p, TablesFor(run), parsed);
  }

  // ---------------------------------------------------------------- soundness

  lemma {:induction false} FlattenMembers<T>(pieces: seq<seq<T>>, x: T) returns (k: nat)
    requires x in Flatten(pieces)
    ensures k < |pieces| && x in pieces[k]
  {
    var n := |pieces| - 1;
    if x in pieces[n] { k := n; } else { k := FlattenMembers(pieces[..n], x); }
  }

  lemma {:induction false} ParsedShape(limits: Limits, frames: seq<Data>, k: nat)
    requires ParseAll(limits, frames).Some? && k < |frames|
    ensures FrameBytes(limits, ParseAll(limits, frames).value, frames, k)
  {
    var parse := (b: Data) => ParseFrame(limits, b);
    assert parse(frames[k]) == Some(TryMap(parse, frames).value[k]);
    FrameCanonical(limits, frames[k]);
  }

  lemma {:induction false} FrameRecordsValid(limits: Limits, f: Frame)
    requires FrameOk(limits, f)
    ensures f.records.Metas? ==> MetasOk(limits, f.records.metas)
    ensures f.records.Lss? ==> PathsOk(limits, f.records.lss)
    ensures f.header.role.Metadata? ==> SelfPackOk(limits, f.header.role.pack)
  {
  }

  lemma {:induction false} ScannedMetasValid(limits: Limits, c: Common, p: Pieces, parsed: seq<Frame>, m: Meta)
    requires Laid(c, p, parsed) && (forall k | 0 <= k < |parsed| :: FrameOk(limits, parsed[k])) && m in Flatten(p.metas)
    ensures MetaValid(limits, m)
  {
    var k := FlattenMembers(p.metas, m);
    assert FrameIs(c, p, k, parsed[k]);
    FrameRecordsValid(limits, parsed[k]);
  }

  lemma {:induction false} ListingFrameHolds(c: Common, p: Pieces, parsed: seq<Frame>, k: nat)
    requires Laid(c, p, parsed) && k < |p.lss|
    ensures |p.metas| + |p.nss| + k < |parsed| && parsed[|p.metas| + |p.nss| + k].records == Lss(p.lss[k])
  {
    assert FrameIs(c, p, |p.metas| + |p.nss| + k, parsed[|p.metas| + |p.nss| + k]);
  }

  lemma {:induction false} ScannedPathsValid(limits: Limits, c: Common, p: Pieces, parsed: seq<Frame>, r: LsRecord)
    requires Laid(c, p, parsed) && (forall k | 0 <= k < |parsed| :: FrameOk(limits, parsed[k])) && r in Flatten(p.lss)
    ensures |r.path| <= limits.maxPathBytes
  {
    var k := FlattenMembers(p.lss, r);
    ListingFrameHolds(c, p, parsed, k);
    FrameRecordsValid(limits, parsed[|p.metas| + |p.nss| + k]);
  }

  lemma {:induction false} ScannedRecordsValid(limits: Limits, c: Common, p: Pieces, parsed: seq<Frame>)
    requires Laid(c, p, parsed) && p.metas != [] && forall k | 0 <= k < |parsed| :: FrameOk(limits, parsed[k])
    ensures RecordsValid(limits, c, Flatten(p.metas), Flatten(p.lss))
  {
    assert FrameIs(c, p, 0, parsed[0]);
    FrameRecordsValid(limits, parsed[0]);
    forall i | 0 <= i < |Flatten(p.metas)| ensures MetaValid(limits, Flatten(p.metas)[i]) {
      ScannedMetasValid(limits, c, p, parsed, Flatten(p.metas)[i]);
    }
    forall i | 0 <= i < |Flatten(p.lss)| ensures |Flatten(p.lss)[i].path| <= limits.maxPathBytes {
      ScannedPathsValid(limits, c, p, parsed, Flatten(p.lss)[i]);
    }
  }

  /** What finishing gives belongs to the facts and tables that were read. */
  lemma {:induction false} FinishedRun(limits: Limits, c: Common, p: Pieces, t: Tables)
    requires PrefixOk(limits, c, p, t) && FinishOk(c, p, t)
    requires RecordsValid(limits, c, Flatten(p.metas), Flatten(p.lss))
    ensures var run := Finish(c, p, t).value;
            RunOk(limits, run) && Countable(run) && Cuts(run, p) && TablesFor(run) == t && CommonFor(run) == c
  {
    var run := Finish(c, p, t).value;
    FinishSound(limits, c, p, t);
    NameTableUnique(t.names, Names(run.mutations), run.mutations);
    NsListUnique(t.names, run.mutations, Flatten(p.nss), NsRecords(t.names, run.mutations));
    LsListUnique(run.mutations, Flatten(p.lss), LsRecords(run.mutations));
  }

  /** Whatever bytes are accepted are an encoding of the run they decode to, and that run is sound: among other
      things its payload pointers are in bounds and its pack records do not overlap. */
  lemma {:induction false} DecodeSound(limits: Limits, frames: seq<Data>) returns (p: Pieces, parsed: seq<Frame>)
    requires Decode(limits, frames).Some?
    ensures Encodes(limits, Decode(limits, frames).value, p, parsed, frames)
    ensures Sound(limits, Decode(limits, frames).value)
    ensures ParseAll(limits, frames) == Some(parsed)
  {
    parsed := ParseAll(limits, frames).value;
    var s := Scan(limits, parsed).value;
    p := s.pieces;
    ScanSound(limits, parsed);
    forall k | 0 <= k < |frames| ensures FrameBytes(limits, parsed, frames, k) {
      ParsedShape(limits, frames, k);
    }
    forall k | 0 <= k < |parsed| ensures FrameOk(limits, parsed[k]) {
      assert FrameBytes(limits, parsed, frames, k);
    }
    ScannedRecordsValid(limits, s.common.value, p, parsed);
    FinishedRun(limits, s.common.value, p, s.tables);
    RunOkExactly(limits, Decode(limits, frames).value);
  }

  // ---------------------------------------------------------------- injectivity

  lemma {:induction false} FlattenUnique<T>(a: seq<seq<T>>, b: seq<seq<T>>)
    requires Flatten(a) == Flatten(b) && |a| == |b| && forall i | 0 <= i < |a| :: |a[i]| == |b[i]|
    ensures a == b
    decreases |a|
  {
    if a != [] {
      var n := |a| - 1;
      var x, y := Flatten(a[..n]), Flatten(b[..n]);
      assert x + a[n] == y + b[n] && |x| == |y|;
      assert x == (x + a[n])[..|x|] == (y + b[n])[..|y|] == y;
      assert a[n] == (x + a[n])[|x|..] == (y + b[n])[|y|..] == b[n];
      FlattenUnique(a[..n], b[..n]);
      assert a == a[..n] + [a[n]] && b == b[..n] + [b[n]];
    }
  }

  /** Two frame lists cut their roles' records at the same boundaries. */
  ghost predicate SameBoundaries(a: seq<Frame>, b: seq<Frame>) {
    && |a| == |b|
    && forall k | 0 <= k < |a| :: SameBoundary(a, b, k)
  }

  ghost predicate SameBoundary(a: seq<Frame>, b: seq<Frame>, k: nat)
    requires k < |a| == |b|
  {
    RoleTag(a[k].header.role) == RoleTag(b[k].header.role) && Count(a[k].records) == Count(b[k].records)
  }

  /** The role and the number of records of frame `k` of a cut. */
  ghost function TagAt(p: Pieces, k: nat): Byte {
    if k < |p.metas| then 0 else if k < |p.metas| + |p.nss| then 1 else 2
  }

  ghost function SizeAt(p: Pieces, k: nat): nat
    requires k < FrameTotal(p)
  {
    if k < |p.metas| then |p.metas[k]|
    else if k < |p.metas| + |p.nss| then |p.nss[k - |p.metas|]|
    else |p.lss[k - |p.metas| - |p.nss|]|
  }

  ghost predicate SameSize(p: Pieces, q: Pieces, k: nat)
    requires k < FrameTotal(p) == FrameTotal(q)
  {
    SizeAt(p, k) == SizeAt(q, k)
  }

  lemma {:induction false} LaidBoundary(c: Common, p: Pieces, a: seq<Frame>, k: nat)
    requires Laid(c, p, a) && k < |a|
    ensures RoleTag(a[k].header.role) == TagAt(p, k) && Count(a[k].records) == SizeAt(p, k)
  {
    assert FrameIs(c, p, k, a[k]);
  }

  lemma {:induction false} SameShape(c: Common, p: Pieces, a: seq<Frame>, q: Pieces, b: seq<Frame>)
    requires Laid(c, p, a) && Laid(c, q, b) && SameBoundaries(a, b)
    ensures FrameTotal(p) == FrameTotal(q)
    ensures forall k | 0 <= k < FrameTotal(p) :: TagAt(p, k) == TagAt(q, k) && SameSize(p, q, k)
  {
    forall k | 0 <= k < FrameTotal(p) ensures TagAt(p, k) == TagAt(q, k) && SameSize(p, q, k) {
      LaidBoundary(c, p, a, k);
      LaidBoundary(c, q, b, k);
      assert SameBoundary(a, b, k);
    }
  }

  lemma {:induction false} SameFrameCounts(p: Pieces, q: Pieces)
    requires FrameTotal(p) == FrameTotal(q) && forall k | 0 <= k < FrameTotal(p) :: TagAt(p, k) == TagAt(q, k)
    ensures |p.metas| == |q.metas| && |p.nss| == |q.nss| && |p.lss| == |q.lss|
  {
    assert TagAt(p, |p.metas|) != 0 && TagAt(q, |q.metas|) != 0;
    assert TagAt(p, |p.metas| + |p.nss|) == 2 && TagAt(q, |q.metas| + |q.nss|) == 2;
  }

  /** Equal sizes throughout mean equal sizes in each role. */
  lemma {:induction false} SameSizes(p: Pieces, q: Pieces)
    requires |p.metas| == |q.metas| && |p.nss| == |q.nss| && |p.lss| == |q.lss|
    requires forall k | 0 <= k < FrameTotal(p) :: SameSize(p, q, k)
    ensures forall k | 0 <= k < |p.metas| :: |p.metas[k]| == |q.metas[k]|
    ensures forall k | 0 <= k < |p.nss| :: |p.nss[k]| == |q.nss[k]|
    ensures forall k | 0 <= k < |p.lss| :: |p.lss[k]| == |q.lss[k]|
  {
    var m, n := |p.metas|, |p.metas| + |p.nss|;
    forall k | 0 <= k < |p.metas| ensures |p.metas[k]| == |q.metas[k]| { assert SameSize(p, q, k); }
    forall k | 0 <= k < |p.nss| ensures |p.nss[k]| == |q.nss[k]| { assert SameSize(p, q, m + k); }
    forall k | 0 <= k < |p.lss| ensures |p.lss[k]| == |q.lss[k]| { assert SameSize(p, q, n + k); }
  }

  lemma {:induction false} SamePieces(p: Pieces, q: Pieces)
    requires Flatten(p.metas) == Flatten(q.metas) && Flatten(p.nss) == Flatten(q.nss) && Flatten(p.lss) == Flatten(q.lss)
    requires FrameTotal(p) == FrameTotal(q)
    requires forall k | 0 <= k < FrameTotal(p) :: TagAt(p, k) == TagAt(q, k) && SameSize(p, q, k)
    ensures p == q
  {
    SameFrameCounts(p, q);
    SameSizes(p, q);
    FlattenUnique(p.metas, q.metas);
    FlattenUnique(p.nss, q.nss);
    FlattenUnique(p.lss, q.lss);
  }

  /** Two accepted frame lists that decode to the same run and cut it at the same boundaries are
      byte-identical. */
  lemma {:induction false} DecodeInjective(limits: Limits, a: seq<Data>, b: seq<Data>)
    requires Decode(limits, a).Some? && Decode(limits, a) == Decode(limits, b)
    requires ParseAll(limits, a).Some? && ParseAll(limits, b).Some?
    requires SameBoundaries(ParseAll(limits, a).value, ParseAll(limits, b).value)
    ensures a == b
  {
    var run := Decode(limits, a).value;
    var p, x := DecodeSound(limits, a);
    var q, y := DecodeSound(limits, b);
    SameShape(CommonFor(run), p, x, q, y);
    SamePieces(p, q);
    LaidUnique(CommonFor(run), p, x, y);
    forall k | 0 <= k < |a| ensures a[k] == b[k] {
      assert FrameBytes(limits, x, a, k) && FrameBytes(limits, y, b, k);
    }
  }
}
