/** Decoding a list of frames, one after another. */
module RunDecoding {
  import opened Prelude
  import opened Wire
  import opened RunModel
  import opened RunRecords
  import opened Projections
  import opened RunFrames
  import opened RunScan
  import opened RunProgress
  import opened RunCodec
  import opened RunDecoder

  // ---------------------------------------------------------------- one frame's bytes

  /** Reads the header, then the length-prefixed records one by one, and nothing may remain. */
  method ReadFrame(limits: Limits, bytes: Data) returns (frame: Option<Frame>)
    ensures frame == ParseFrame(limits, bytes)
  {
    if |bytes| > limits.maxFrameBytes { return None; }
    var header := ReadHeader(limits, bytes);
    if header.None? { return None; }
    var h := header.value.value;
    var bodies, rest := ReadAll(header.value.rest, h.frameCount, BodyLimit(limits, h.role.Metadata?));
    if bodies.None? { return None; }
    var records := ReadRecords(limits, h.role, bodies.value);
    if records.None? || rest != [] { return None; }
    frame := Some(Frame(h, records.value));
  }

  method ReadAll(bytes: Data, count: nat, maximum: nat) returns (bodies: Option<seq<Data>>, rest: Data)
    ensures match ReadBodies(bytes, count, maximum)
            case None => bodies == None
            case Some(t) => bodies == Some(t.value) && rest == t.rest
  {
    var reader := new Reader(bytes);
    var read := [];
    rest := [];
    ResumedEnds(ReadBodies(bytes, count, maximum), read, bytes);
    for i := 0 to count
      invariant ReadBodies(bytes, count, maximum) == Resumed(read, ReadBodies(reader.remaining, count - i, maximum))
    {
      var body := reader.Record(maximum);
      if body.None? { return None, rest; }
      ResumedStep(read, body.value, ReadBodies(reader.remaining, count - i - 1, maximum));
      read := read + [body.value];
    }
    ResumedEnds(None, read, reader.remaining);
    bodies, rest := Some(read), reader.remaining;
  }

  /** Records already read, completed by what the rest gives. */
  ghost function Resumed(read: seq<Data>, rest: Option<Taken<seq<Data>>>): Option<Taken<seq<Data>>> {
    match rest
    case None => None
    case Some(t) => Some(Taken(read + t.value, t.rest))
  }

  lemma {:induction false} ResumedEnds(all: Option<Taken<seq<Data>>>, read: seq<Data>, rest: Data)
    ensures Resumed([], all) == all && Resumed(read, Some(Taken([], rest))) == Some(Taken(read, rest))
  {
    assert all.Some? ==> [] + all.value.value == all.value.value;
    assert read + [] == read;
  }

  lemma {:induction false} ResumedStep(read: seq<Data>, body: Data, rest: Option<Taken<seq<Data>>>)
    ensures Resumed(read, match rest case None => None case Some(t) => Some(Taken([body] + t.value, t.rest)))
         == Resumed(read + [body], rest)
  {
    if rest.Some? { assert read + ([body] + rest.value.value) == read + [body] + rest.value.value; }
  }

  // ---------------------------------------------------------------- rejection

  lemma {:induction false} ScanStops(limits: Limits, parsed: seq<Frame>, i: nat)
    requires i <= |parsed| && Scan(limits, parsed[..i]).None?
    ensures Scan(limits, parsed).None?
    decreases |parsed|
  {
    if i < |parsed| {
      var front := parsed[..|parsed| - 1];
      assert front[..i] == parsed[..i];
      ScanStops(limits, front, i);
    } else {
      assert parsed[..i] == parsed;
    }
  }

  /** The frames read so far. */
  ghost predicate ReadSoFar(limits: Limits, frames: seq<Data>, parsed: seq<Frame>) {
    |parsed| <= |frames| && forall k | 0 <= k < |parsed| :: ParseFrame(limits, frames[k]) == Some(parsed[k])
  }

  lemma {:induction false} UnscannableRejected(limits: Limits, frames: seq<Data>, parsed: seq<Frame>)
    requires ReadSoFar(limits, frames, parsed) && Scan(limits, parsed).None?
    ensures Decode(limits, frames).None?
  {
    var parse := (b: Data) => ParseFrame(limits, b);
    var all := ParseAll(limits, frames);
    if all.Some? {
      forall k | 0 <= k < |parsed| ensures all.value[k] == parsed[k] { assert parse(frames[k]) == Some(all.value[k]); }
      assert all.value[..|parsed|] == parsed;
      ScanStops(limits, all.value, |parsed|);
    }
  }

  lemma {:induction false} FullyRead(limits: Limits, frames: seq<Data>, parsed: seq<Frame>)
    requires ReadSoFar(limits, frames, parsed) && |parsed| == |frames|
    ensures ParseAll(limits, frames) == Some(parsed)
  {
    var parse := (b: Data) => ParseFrame(limits, b);
    assert forall k | 0 <= k < |frames| :: parse(frames[k]) == Some(parsed[k]);
    TryMapIs(parse, frames, parsed);
  }

  // ---------------------------------------------------------------- the loop

  /** The decoder's fields stand for the scanned state. */
  ghost predicate Mirrors(d: FrameDecoder, s: State)
    reads d
  {
    && d.tables == s.tables && d.nss == Flatten(s.pieces.nss) && d.lss == Flatten(s.pieces.lss)
    && d.declared == DeclaredOf(s) && d.PackSeen() == PackOf(s)
    && (d.sawNamespace <==> s.pieces.nss != []) && (d.sawListing <==> s.pieces.lss != [])
    && (if s.common.Some? && s.pieces.nss != [] then d.Filled(s.common.value) else d.Unfilled())
  }

  /** One frame read into the decoder succeeds exactly when scanning accepts it. */
  method Absorb(limits: Limits, d: FrameDecoder, ghost s: State, f: Frame) returns (ok: bool)
    requires Underway(limits, s) && Mirrors(d, s) && FrameShape(limits, f)
    requires Proceed(limits, ProgressOf(s), f.header).Some?
    modifies d
    ensures ok <==> Advance(limits, s, f).Some?
    ensures ok ==> Mirrors(d, Advance(limits, s, f).value)
  {
    match f.records {
      case Metas(ms) =>
        ok := AbsorbMetas(limits, d, s, f.header, ms);
      case Nss(ns) =>
        ok := AbsorbNss(limits, d, s, f.header, ns);
      case Lss(ls) =>
        ok := AbsorbLss(limits, d, s, f.header, ls);
    }
  }

  method AbsorbMetas(limits: Limits, d: FrameDecoder, ghost s: State, h: Header, ms: seq<Meta>) returns (ok: bool)
    requires Underway(limits, s) && Mirrors(d, s) && h.role.Metadata? && h.frameCount == |ms|
    requires Proceed(limits, ProgressOf(s), h).Some?
    modifies d
    ensures ok <==> AdvanceMetas(limits, s, h, ms).Some?
    ensures ok ==> Mirrors(d, AdvanceMetas(limits, s, h, ms).value)
  {
    MetaHeaderAgrees(limits, s, h);
    ok := d.DecodeMetadata(limits, h, ms);
  }

  method AbsorbNss(limits: Limits, d: FrameDecoder, ghost s: State, h: Header, ns: seq<NsRecord>) returns (ok: bool)
    requires Underway(limits, s) && Mirrors(d, s) && h.role.Namespace? && h.frameCount == |ns|
    requires Proceed(limits, ProgressOf(s), h).Some?
    modifies d
    ensures ok <==> AdvanceNss(s, h, ns).Some?
    ensures ok ==> Mirrors(d, AdvanceNss(s, h, ns).value)
  {
    NsHeaderAgrees(limits, s, h);
    FlattenSnoc(s.pieces.nss, ns);
    ok := d.DecodeNamespace(s.common.value, h, ns);
  }

  method AbsorbLss(limits: Limits, d: FrameDecoder, ghost s: State, h: Header, ls: seq<LsRecord>) returns (ok: bool)
    requires Underway(limits, s) && Mirrors(d, s) && h.role.Listing? && h.frameCount == |ls|
    requires Proceed(limits, ProgressOf(s), h).Some?
    modifies d
    ensures ok <==> AdvanceLss(s, h, ls).Some?
    ensures ok ==> Mirrors(d, AdvanceLss(s, h, ls).value)
  {
    LsHeaderAgrees(limits, s, h);
    FlattenSnoc(s.pieces.lss, ls);
    ok := d.DecodeListing(s.common.value, h, ls);
  }

  lemma {:induction false} ScanSnoc(limits: Limits, parsed: seq<Frame>, s: State, f: Frame)
    requires Scan(limits, parsed) == Some(s)
    ensures Scan(limits, parsed + [f]) == Advance(limits, s, f)
  {
    assert (parsed + [f])[..|parsed|] == parsed;
  }

  lemma {:induction false} ParsedIsShaped(limits: Limits, bytes: Data, f: Frame)
    requires ParseFrame(limits, bytes) == Some(f)
    ensures FrameShape(limits, f)
  {
    FrameCanonical(limits, bytes);
  }

  lemma {:induction false} ReadMore(limits: Limits, frames: seq<Data>, parsed: seq<Frame>, f: Frame)
    requires ReadSoFar(limits, frames, parsed) && |parsed| < |frames| && ParseFrame(limits, frames[|parsed|]) == Some(f)
    ensures ReadSoFar(limits, frames, parsed + [f])
  {
    var more := parsed + [f];
    forall k | 0 <= k < |more| ensures ParseFrame(limits, frames[k]) == Some(more[k]) {
      if k < |parsed| { assert more[k] == parsed[k]; }
    }
  }

  /** The declared metadata total comes from metadata frames only. */
  lemma {:induction false} MetaTotalKept(limits: Limits, s: State, f: Frame)
    requires Advance(limits, s, f).Some? && RoleMatches(f.header.role, f.records)
    ensures var next := Advance(limits, s, f).value;
            && next.common.Some?
            && (f.header.role.Metadata? ==> next.common.value.metaTotal == f.header.roleCount)
            && (!f.header.role.Metadata? ==> next.common == s.common)
  {
  }

  /** What scanning one more frame means for the whole list. */
  lemma {:induction false} StepState(limits: Limits, frames: seq<Data>, parsed: seq<Frame>, s: State, f: Frame)
    returns (next: Option<State>)
    requires ReadSoFar(limits, frames, parsed + [f])
    requires Scan(limits, parsed) == Some(s) && Scanned(limits, s, parsed) && FrameShape(limits, f)
    ensures next == Advance(limits, s, f) && Underway(limits, s)
    ensures next.None? ==> Decode(limits, frames).None?
    ensures next.Some? ==>
            && Scan(limits, parsed + [f]) == next && Scanned(limits, next.value, parsed + [f])
            && Proceed(limits, ProgressOf(s), f.header) == Some(ProgressOf(next.value))
  {
    next := Advance(limits, s, f);
    ScanSnoc(limits, parsed, s, f);
    ScannedUnderway(limits, s, parsed);
    if next.Some? {
      ScanSound(limits, parsed + [f]);
      ProgressFollows(limits, s, f);
    } else {
      UnscannableRejected(limits, frames, parsed + [f]);
    }
  }

  lemma {:induction false} NotDoneRejected(limits: Limits, frames: seq<Data>, parsed: seq<Frame>, s: State)
    requires ParseAll(limits, frames) == Some(parsed) && Scan(limits, parsed) == Some(s) && s.common.Some?
    requires !LastRoleDone(s.common.value, s.pieces)
    ensures Decode(limits, frames).None?
  {
  }

  /** Where reading stands after some frames. */
  ghost predicate Reached(limits: Limits, frames: seq<Data>, parsed: seq<Frame>, s: State) {
    ReadSoFar(limits, frames, parsed) && Scan(limits, parsed) == Some(s) && Scanned(limits, s, parsed)
  }

  /** Reads, checks and absorbs one frame. */
  method TakeFrame(
      limits: Limits, frames: seq<Data>, i: nat, d: FrameDecoder, progress: Progress,
      ghost parsed: seq<Frame>, ghost s: State)
    returns (after: Option<Progress>, total: Option<nat>, ghost frame: Option<Frame>, ghost next: State)
    requires Reached(limits, frames, parsed, s) && i == |parsed| < |frames| && Mirrors(d, s) && progress == ProgressOf(s)
    modifies d
    ensures after.None? ==> Decode(limits, frames).None?
    ensures after.Some? ==>
            && frame.Some? && Reached(limits, frames, parsed + [frame.value], next)
            && Mirrors(d, next) && after.value == ProgressOf(next) && next.common.Some?
            && (total.Some? ==> total.value == next.common.value.metaTotal) && (total.None? ==> next.common == s.common)
  {
    after, total, frame, next := None, None, None, s;
    var read := ReadFrame(limits, frames[i]);
    if read.None? {
      UnreadableRejected(limits, frames, i);
      return;
    }
    ReadMore(limits, frames, parsed, read.value);
    ParsedIsShaped(limits, frames[i], read.value);
    ghost var state := StepState(limits, frames, parsed, s, read.value);
    var proceeded := Proceed(limits, progress, read.value.header);
    if proceeded.None? { return; }
    var ok := Absorb(limits, d, s, read.value);
    if !ok { return; }
    MetaTotalKept(limits, s, read.value);
    if read.value.header.role.Metadata? { total := Some(read.value.header.roleCount); }
    after, frame, next := proceeded, read, state.value;
  }

  /** Decodes frames in order, checking sizes, headers and records as it goes. */
  method DecodeFrames(limits: Limits, frames: seq<Data>) returns (run: Option<Run>)
    ensures run == Decode(limits, frames)
  {
    if frames == [] || TotalBytes(frames) > limits.maxTotalBytes { return None; }
    var d := new FrameDecoder();
    var progress, metadataTotal := START, 0;
    ghost var s, parsed: seq<Frame> := NOTHING, [];
    for i := 0 to |frames|
      invariant |parsed| == i && Reached(limits, frames, parsed, s)
      invariant Mirrors(d, s) && progress == ProgressOf(s)
      invariant s.common.Some? ==> metadataTotal == s.common.value.metaTotal
    {
      var after, total, frame, next := TakeFrame(limits, frames, i, d, progress, parsed, s);
      if after.None? { return None; }
      if total.Some? { metadataTotal := total.value; }
      progress := after.value;
      parsed, s := parsed + [frame.value], next;
    }
    FullyRead(limits, frames, parsed);
    if progress.total != Some(progress.seen) {
      NotDoneRejected(limits, frames, parsed, s);
      return None;
    }
    run := d.FinishRun(s.common.value, s.pieces, progress.sequence.value, progress.count.value, metadataTotal);
  }
}
