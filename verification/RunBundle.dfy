/** The single-buffer form of an encoded run: a frame count and length-prefixed frames. */
module RunBundle {
  import opened Prelude
  import opened Wire
  import opened RunModel
  import opened RunFrames
  import opened RunFinish
  import opened RunCodec
  import opened RunDecoding
  import opened Packing
  import opened RunEncoding

  function PutBundle(frames: seq<Data>): Data {
    PutVarint(|frames|, PutBodies(frames, []))
  }

  /** The most frames a run may have. */
  function FrameLimit(limits: Limits): nat {
    3 * limits.maxMutations + limits.maxContainers + 1
  }

  function Unbundle(limits: Limits, b: Data): Option<seq<Data>> {
    if |b| > limits.maxTotalBytes || FrameLimit(limits) >= U64_LIMIT then None
    else
      var count :- ReadCount(b, FrameLimit(limits));
      var frames :- ReadBodies(count.rest, count.value, limits.maxFrameBytes);
      if frames.rest == [] then Some(frames.value) else None
  }

  ghost function DecodeBundled(limits: Limits, b: Data): Option<Run> {
    var frames :- Unbundle(limits, b);
    Decode(limits, frames)
  }

  /** Bundles are taken apart exactly as they were put together. */
  lemma {:induction false} UnbundleRoundTrip(limits: Limits, frames: seq<Data>)
    requires |frames| <= FrameLimit(limits) < U64_LIMIT && BodiesOk(frames, limits.maxFrameBytes)
    requires |PutBundle(frames)| <= limits.maxTotalBytes
    ensures Unbundle(limits, PutBundle(frames)) == Some(frames)
  {
    CountRoundTrip(|frames|, FrameLimit(limits), PutBodies(frames, []));
    BodiesRoundTrip(frames, limits.maxFrameBytes, []);
  }

  /** Only that one byte form is accepted for a list of frames. */
  lemma {:induction false} UnbundleCanonical(limits: Limits, b: Data)
    requires Unbundle(limits, b).Some?
    ensures var frames := Unbundle(limits, b).value;
            b == PutBundle(frames) && |frames| <= FrameLimit(limits) < U64_LIMIT && BodiesOk(frames, limits.maxFrameBytes)
  {
    CountCanonical(b, FrameLimit(limits));
    var count := ReadCount(b, FrameLimit(limits)).value;
    BodiesCanonical(count.rest, count.value, limits.maxFrameBytes);
  }

  lemma {:induction false} BodiesAppend(bodies: seq<Data>, tail: Data)
    ensures PutBodies(bodies, []) + tail == PutBodies(bodies, tail)
  {
    if bodies == [] {
      assert [] + tail == tail;
    } else {
      var rest := PutBodies(bodies[1..], []);
      BodiesAppend(bodies[1..], tail);
      VarintAppend(|bodies[0]|, bodies[0] + rest);
      VarintAppend(|bodies[0]|, bodies[0] + (rest + tail));
      Regrouped(PutVarint(|bodies[0]|, []), bodies[0], rest, tail);
    }
  }

  lemma {:induction false} Regrouped(a: Data, b: Data, c: Data, d: Data)
    ensures a + (b + c) + d == a + (b + (c + d))
  {
  }

  /** Nothing may follow a bundle. */
  lemma {:induction false} ExtendedBundleRefused(limits: Limits, b: Data, tail: Data)
    requires Unbundle(limits, b).Some? && tail != []
    ensures Unbundle(limits, b + tail).None?
  {
    UnbundleCanonical(limits, b);
    var frames := Unbundle(limits, b).value;
    VarintAppend(|frames|, PutBodies(frames, []));
    VarintAppend(|frames|, PutBodies(frames, tail));
    BodiesAppend(frames, tail);
    assert b + tail == PutVarint(|frames|, PutBodies(frames, tail));
    CountRoundTrip(|frames|, FrameLimit(limits), PutBodies(frames, tail));
    BodiesRoundTrip(frames, limits.maxFrameBytes, tail);
  }

  /** Every truncation of an accepted bundle is refused. */
  lemma {:induction false} TruncationRefused(limits: Limits, b: Data, n: nat)
    requires DecodeBundled(limits, b).Some? && n < |b|
    ensures DecodeBundled(limits, b[..n]) == None
  {
    assert b == b[..n] + b[n..];
    if Unbundle(limits, b[..n]).Some? { ExtendedBundleRefused(limits, b[..n], b[n..]); }
  }

  /** What decoding a bundle asks for beyond encoding it. */
  ghost predicate BundleDecodable(limits: Limits, cut: Cut) {
    FrameLimit(limits) < U64_LIMIT && |cut.metas| < U32_LIMIT
  }

  /** A bundled run decodes to itself exactly when it is decodable; otherwise decoding refuses. */
  lemma {:induction false} BundleRoundTrip(limits: Limits, run: Run, cut: Cut)
    requires Framed(limits, run, cut) && |PutBundle(AllFrames(cut))| <= limits.maxTotalBytes
    ensures DecodeBundled(limits, PutBundle(AllFrames(cut))) == if BundleDecodable(limits, cut) then Some(run) else None
  {
    if FrameLimit(limits) < U64_LIMIT {
      EncodedWithin(limits, run, cut);
      UnbundleRoundTrip(limits, AllFrames(cut));
      RoundTrip(limits, run, cut);
    }
  }

  /** The round trip of bundles by what a caller knows beforehand. */
  lemma {:induction false} SmallBundlesRoundTrip(limits: Limits, run: Run, cut: Cut)
    requires Framed(limits, run, cut) && |PutBundle(AllFrames(cut))| <= limits.maxTotalBytes
    requires 3 * limits.maxMutations + limits.maxContainers + 1 < U64_LIMIT
    requires |run.containers| + |run.streams| + |run.mutations| + 1 < U32_LIMIT
    ensures DecodeBundled(limits, PutBundle(AllFrames(cut))) == Some(run)
  {
    PackedCounts(limits, run, cut);
    RunIsCountable(limits, run);
    BundleRoundTrip(limits, run, cut);
  }

  /** Bundles a run; refuses exactly when nothing encodes it or its bundle is too long. */
  method EncodeBundle(limits: Limits, run: Run) returns (bundle: Option<Data>, ghost cut: Cut)
    ensures bundle.Some? ==> Encoded(limits, run, cut) && bundle.value == PutBundle(AllFrames(cut))
    ensures bundle.Some? ==>
            DecodeBundled(limits, bundle.value) == if BundleDecodable(limits, cut) then Some(run) else None
    ensures bundle.None? ==> forall other | Encoded(limits, run, other) :: |PutBundle(AllFrames(other))| > limits.maxTotalBytes
  {
    var frames;
    frames, cut := EncodeFrames(limits, run);
    if frames.None? { return None, cut; }
    bundle := WriteBundle(limits, frames.value);
    EncodedWithin(limits, run, cut);
    if bundle.Some? {
      BundleRoundTrip(limits, run, cut);
    } else {
      forall other | Encoded(limits, run, other) ensures |PutBundle(AllFrames(other))| > limits.maxTotalBytes {
        PackedListsUnique(limits, CommonFor(run), ListsOf(run), cut, other);
      }
    }
  }

  method WriteBundle(limits: Limits, frames: seq<Data>) returns (bundle: Option<Data>)
    ensures bundle.Some? <==> |PutBundle(frames)| <= limits.maxTotalBytes && BodiesOk(frames, limits.maxFrameBytes)
    ensures bundle.Some? ==> bundle.value == PutBundle(frames)
  {
    VarintAppend(|frames|, PutBodies(frames, []));
    VarintLength(|frames|, []);
    for i := 0 to |frames|
      invariant forall j | 0 <= j < i :: |frames[j]| <= limits.maxFrameBytes
    {
      if |frames[i]| > limits.maxFrameBytes { return None; }
    }
    var writer := new Writer(limits.maxTotalBytes);
    var ok := writer.Varint(|frames|);
    if !ok { return None; }
    assert writer.bytes == PutVarint(|frames|, []);
    ok := WriteBodies(frames, writer);
    if !ok { return None; }
    bundle := Some(writer.bytes);
  }

  method DecodeBundle(limits: Limits, bytes: Data) returns (run: Option<Run>)
    ensures run == DecodeBundled(limits, bytes)
  {
    if |bytes| > limits.maxTotalBytes || FrameLimit(limits) >= U64_LIMIT { return None; }
    var reader := new Reader(bytes);
    var count := reader.Varint();
    if count.None? || count.value > FrameLimit(limits) { return None; }
    var frames, rest := ReadAll(reader.remaining, count.value, limits.maxFrameBytes);
    if frames.None? || rest != [] { return None; }
    run := DecodeFrames(limits, frames.value);
  }
}
