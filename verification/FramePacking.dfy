/** Greedy packing of the records of one role into frames, and exactly when it succeeds. */
module FramePacking {
  import opened Prelude
  import opened RunModel
  import opened Packing

  // ---------------------------------------------------------------- what packing returns

  /** The frame can be written: its ordinal and size fit 32 bits, its records are within their
      limits where they stand, and trying one more record overflows no machine word. */
  ghost predicate CodableAt(limits: Limits, plan: Plan, records: seq<Prepared>, ends: seq<nat>, k: nat)
    requires k < |ends|
  {
    && StartOf(ends, k) <= ends[k] <= |records| && ends[k] - StartOf(ends, k) < U32_LIMIT && k < U32_LIMIT
    && BodiesWithin(limits, plan.role, records, StartOf(ends, k), ends[k])
    && (ends[k] < |records| ==> FrameLen(plan, records, k, StartOf(ends, k), ends[k] + 1) < U64_LIMIT)
  }

  ghost predicate WrittenAt(limits: Limits, plan: Plan, records: seq<Prepared>, ends: seq<nat>, frames: seq<Data>, k: nat)
    requires k < |ends| == |frames|
  {
    CodableAt(limits, plan, records, ends, k) && frames[k] == FrameData(plan, records, k, StartOf(ends, k), ends[k])
  }

  /** The frames are the bytes of a split's pieces. */
  ghost predicate Written(limits: Limits, plan: Plan, records: seq<Prepared>, ends: seq<nat>, frames: seq<Data>) {
    |ends| == |frames| && forall k | 0 <= k < |frames| :: WrittenAt(limits, plan, records, ends, frames, k)
  }

  /** A cut into frames that fit, each as full as it can be, of which only the last reaches the end. */
  ghost predicate Greedy(plan: Plan, records: seq<Prepared>, maximum: nat, ends: seq<nat>) {
    && IsSplit(plan, records, maximum, ends) && Filled(plan, records, maximum, ends)
    && Eager(records, ends) && |ends| <= (if records == [] then 1 else |records|)
  }

  /** What packing returns: a role without records has no frames unless it is the metadata; otherwise
      the written frames of the greedy cut. */
  ghost predicate Packed(limits: Limits, plan: Plan, records: seq<Prepared>, ends: seq<nat>, frames: seq<Data>) {
    && Written(limits, plan, records, ends, frames)
    && if records == [] && !plan.role.Metadata? then ends == []
       else Greedy(plan, records, limits.maxFrameBytes, ends)
  }

  ghost predicate Eager(records: seq<Prepared>, ends: seq<nat>) {
    forall k | 0 <= k < |ends| - 1 :: ends[k] < |records|
  }

  /** Packing uses the fewest frames possible. */
  lemma {:induction false} PackedIsOptimal(
      limits: Limits, plan: Plan, records: seq<Prepared>, ends: seq<nat>, frames: seq<Data>, other: seq<nat>)
    requires Packed(limits, plan, records, ends, frames) && IsSplit(plan, records, limits.maxFrameBytes, other)
    ensures |frames| <= |other|
  {
    if ends != [] { GreedyIsOptimal(plan, records, limits.maxFrameBytes, ends, other); }
  }

  // ---------------------------------------------------------------- the greedy cut is the only one

  /** Two full cuts reach equally far after as many frames. */
  lemma {:induction false} GreedyAgree(
      plan: Plan, records: seq<Prepared>, maximum: nat, a: seq<nat>, b: seq<nat>, k: nat)
    requires FitsSoFar(plan, records, maximum, a) && Filled(plan, records, maximum, a)
    requires FitsSoFar(plan, records, maximum, b) && Filled(plan, records, maximum, b)
    requires k <= |a| && k <= |b|
    ensures StartOf(a, k) == StartOf(b, k) <= |records|
  {
    GreedyStaysAhead(plan, records, maximum, a, b, k);
    GreedyStaysAhead(plan, records, maximum, b, a, k);
  }

  lemma {:induction false} GreedyUnique(plan: Plan, records: seq<Prepared>, maximum: nat, a: seq<nat>, b: seq<nat>)
    requires Greedy(plan, records, maximum, a) && Greedy(plan, records, maximum, b)
    ensures a == b
  {
    GreedyIsOptimal(plan, records, maximum, a, b);
    GreedyIsOptimal(plan, records, maximum, b, a);
    forall k | 0 <= k < |a| ensures a[k] == b[k] { GreedyAgree(plan, records, maximum, a, b, k + 1); }
  }

  /** Packing has at most one result. */
  lemma {:induction false} PackedUnique(
      limits: Limits, plan: Plan, records: seq<Prepared>, ends: seq<nat>, frames: seq<Data>,
      otherEnds: seq<nat>, otherFrames: seq<Data>)
    requires Packed(limits, plan, records, ends, frames) && Packed(limits, plan, records, otherEnds, otherFrames)
    ensures ends == otherEnds && frames == otherFrames
  {
    if ends != [] { GreedyUnique(plan, records, limits.maxFrameBytes, ends, otherEnds); }
    forall k | 0 <= k < |frames| ensures frames[k] == otherFrames[k] {
      assert WrittenAt(limits, plan, records, ends, frames, k) && WrittenAt(limits, plan, records, otherEnds, otherFrames, k);
    }
  }

  /** Where a full frame ends is determined by where it starts. */
  lemma {:induction false} EndUnique(plan: Plan, records: seq<Prepared>, maximum: nat, k: nat, start: nat, a: nat, b: nat)
    requires start <= a <= |records| && start <= b <= |records| && FrameLen(plan, records, k, start, b) <= maximum
    requires a > start ==> FrameLen(plan, records, k, start, a) <= maximum
    requires a < |records| ==> FrameLen(plan, records, k, start, a + 1) > maximum
    requires b < |records| ==> FrameLen(plan, records, k, start, b + 1) > maximum
    ensures a == b
  {
    if a < b { FrameShrinks(plan, records, k, k, start, b, start, a + 1); }
    if b < a { FrameShrinks(plan, records, k, k, start, a, start, b + 1); }
  }

  // ---------------------------------------------------------------- every split has a greedy cut beside it

  /** How far a frame can be extended. */
  ghost function Reach(plan: Plan, records: seq<Prepared>, maximum: nat, k: nat, a: nat, b: nat): (end: nat)
    requires a <= b <= |records|
    ensures b <= end <= |records|
    ensures end > b ==> FrameLen(plan, records, k, a, end) <= maximum
    ensures end < |records| ==> FrameLen(plan, records, k, a, end + 1) > maximum
    decreases |records| - b
  {
    if b < |records| && FrameLen(plan, records, k, a, b + 1) <= maximum then Reach(plan, records, maximum, k, a, b + 1) else b
  }

  /** Cut so far with records left over. */
  ghost predicate Partial(plan: Plan, records: seq<Prepared>, maximum: nat, ends: seq<nat>) {
    && FitsSoFar(plan, records, maximum, ends) && Filled(plan, records, maximum, ends)
    && |ends| <= StartOf(ends, |ends|) < |records|
    && forall k | 0 <= k < |ends| :: ends[k] < |records|
  }

  lemma {:induction false} FitMore(plan: Plan, records: seq<Prepared>, maximum: nat, ends: seq<nat>, end: nat)
    requires FitsSoFar(plan, records, maximum, ends) && FrameFits(plan, records, maximum, ends + [end], |ends|)
    requires Filled(plan, records, maximum, ends) && StoppedFull(plan, records, maximum, ends + [end], |ends|)
    ensures FitsSoFar(plan, records, maximum, ends + [end]) && Filled(plan, records, maximum, ends + [end])
  {
    forall k | 0 <= k <= |ends|
      ensures FrameFits(plan, records, maximum, ends + [end], k) && StoppedFull(plan, records, maximum, ends + [end], k)
    {
      if k < |ends| {
        assert FrameFits(plan, records, maximum, ends, k) && StoppedFull(plan, records, maximum, ends, k);
        assert StartOf(ends + [end], k) == StartOf(ends, k);
      }
    }
  }

  lemma {:induction false} PartialFits(
      plan: Plan, records: seq<Prepared>, maximum: nat, ends: seq<nat>, end: nat)
    requires Partial(plan, records, maximum, ends)
    requires var start := StartOf(ends, |ends|);
             && start < end <= |records| && FrameLen(plan, records, |ends|, start, end) <= maximum
             && (end < |records| ==> FrameLen(plan, records, |ends|, start, end + 1) > maximum)
    ensures FitsSoFar(plan, records, maximum, ends + [end]) && Filled(plan, records, maximum, ends + [end])
    ensures |ends| + 1 <= end && forall k | 0 <= k < |ends| :: (ends + [end])[k] < |records|
  {
    assert StartOf(ends + [end], |ends|) == StartOf(ends, |ends|);
    FitMore(plan, records, maximum, ends, end);
  }

  lemma {:induction false} GreedyFrom(
      plan: Plan, records: seq<Prepared>, maximum: nat, ends: seq<nat>, other: seq<nat>) returns (all: seq<nat>)
    requires Partial(plan, records, maximum, ends) && IsSplit(plan, records, maximum, other)
    ensures Greedy(plan, records, maximum, all)
    decreases |records| - StartOf(ends, |ends|)
  {
    var start := StartOf(ends, |ends|);
    var end := Reach(plan, records, maximum, |ends|, start, start);
    if end == start { StuckMeansNoSplit(plan, records, maximum, ends, other); }
    PartialFits(plan, records, maximum, ends, end);
    all := ends + [end];
    if end < |records| {
      assert forall k | 0 <= k < |all| :: all[k] < |records|;
      all := GreedyFrom(plan, records, maximum, all, other);
    }
  }

  /** If any order-preserving split fits, so does the greedy cut. */
  lemma {:induction false} SplitMeansGreedy(plan: Plan, records: seq<Prepared>, maximum: nat, other: seq<nat>)
    returns (ends: seq<nat>)
    requires IsSplit(plan, records, maximum, other)
    ensures Greedy(plan, records, maximum, ends)
  {
    if records == [] {
      assert FrameFits(plan, records, maximum, other, 0);
      ends := [0];
      assert FrameFits(plan, records, maximum, ends, 0);
    } else {
      ends := GreedyFrom(plan, records, maximum, [], other);
    }
  }

  ghost predicate Codable(limits: Limits, plan: Plan, records: seq<Prepared>, ends: seq<nat>) {
    forall k | 0 <= k < |ends| :: CodableAt(limits, plan, records, ends, k)
  }

  /** A greedy cut whose frames can all be written is packed. */
  lemma {:induction false} PackedExists(limits: Limits, plan: Plan, records: seq<Prepared>, ends: seq<nat>)
    returns (frames: seq<Data>)
    requires Greedy(plan, records, limits.maxFrameBytes, ends) && Codable(limits, plan, records, ends)
    requires records != [] || plan.role.Metadata?
    ensures Packed(limits, plan, records, ends, frames)
  {
    frames := seq(|ends|, k requires 0 <= k < |ends| =>
      assert CodableAt(limits, plan, records, ends, k); FrameData(plan, records, k, StartOf(ends, k), ends[k]));
    forall k | 0 <= k < |frames| ensures WrittenAt(limits, plan, records, ends, frames, k) {
      assert CodableAt(limits, plan, records, ends, k);
    }
  }

  /** No packing of the records exists. */
  ghost predicate Unpackable(limits: Limits, plan: Plan, records: seq<Prepared>) {
    forall ends, frames :: !Packed(limits, plan, records, ends, frames)
  }

  /** Refusal means that no split fits, or that some frame of the one greedy cut cannot be written. */
  lemma {:induction false} RefusalMeans(limits: Limits, plan: Plan, records: seq<Prepared>, other: seq<nat>)
    returns (ends: seq<nat>)
    requires Unpackable(limits, plan, records) && (records != [] || plan.role.Metadata?)
    requires IsSplit(plan, records, limits.maxFrameBytes, other)
    ensures Greedy(plan, records, limits.maxFrameBytes, ends) && !Codable(limits, plan, records, ends)
  {
    ends := SplitMeansGreedy(plan, records, limits.maxFrameBytes, other);
    if Codable(limits, plan, records, ends) {
      var frames := PackedExists(limits, plan, records, ends);
    }
  }

  // ---------------------------------------------------------------- packing step by step

  /** What holds of the frames cut so far. */
  ghost predicate Cutting(limits: Limits, plan: Plan, records: seq<Prepared>, ends: seq<nat>, frames: seq<Data>) {
    && Written(limits, plan, records, ends, frames)
    && FitsSoFar(plan, records, limits.maxFrameBytes, ends) && Filled(plan, records, limits.maxFrameBytes, ends)
    && |ends| <= StartOf(ends, |ends|) <= |records|
  }

  lemma {:induction false} WriteMore(
      limits: Limits, plan: Plan, records: seq<Prepared>, ends: seq<nat>, frames: seq<Data>, end: nat, frame: Data)
    requires Written(limits, plan, records, ends, frames)
    requires WrittenAt(limits, plan, records, ends + [end], frames + [frame], |ends|)
    ensures Written(limits, plan, records, ends + [end], frames + [frame])
  {
    forall k | 0 <= k <= |ends| ensures WrittenAt(limits, plan, records, ends + [end], frames + [frame], k) {
      if k < |ends| {
        assert WrittenAt(limits, plan, records, ends, frames, k);
        assert StartOf(ends + [end], k) == StartOf(ends, k);
      }
    }
  }

  /** Every packing begins with the frames cut so far, and has another one. */
  lemma {:induction false} NextFrame(
      limits: Limits, plan: Plan, records: seq<Prepared>, ends: seq<nat>, frames: seq<Data>,
      other: seq<nat>, otherFrames: seq<Data>)
    requires Cutting(limits, plan, records, ends, frames) && Packed(limits, plan, records, other, otherFrames)
    requires (records != [] || plan.role.Metadata?) && (records == [] ==> ends == [])
    requires forall k | 0 <= k < |ends| :: ends[k] < |records|
    ensures |ends| < |other| && StartOf(other, |ends|) == StartOf(ends, |ends|)
    ensures CodableAt(limits, plan, records, other, |ends|)
    ensures FrameLen(plan, records, |ends|, StartOf(ends, |ends|), other[|ends|]) <= limits.maxFrameBytes
    ensures other[|ends|] < |records| ==>
            FrameLen(plan, records, |ends|, StartOf(ends, |ends|), other[|ends|] + 1) > limits.maxFrameBytes
  {
    var maximum := limits.maxFrameBytes;
    if |other| <= |ends| { GreedyAgree(plan, records, maximum, ends, other, |other|); }
    GreedyAgree(plan, records, maximum, ends, other, |ends|);
    assert FrameFits(plan, records, maximum, other, |ends|) && StoppedFull(plan, records, maximum, other, |ends|);
    assert WrittenAt(limits, plan, records, other, otherFrames, |ends|);
  }

  /** A frame that ends where it must, but cannot be written there, rules out every packing. */
  lemma {:induction false} UncodableRefused(
      limits: Limits, plan: Plan, records: seq<Prepared>, ends: seq<nat>, frames: seq<Data>, stop: nat)
    requires Cutting(limits, plan, records, ends, frames)
    requires (records != [] || plan.role.Metadata?) && (records == [] ==> ends == [])
    requires forall k | 0 <= k < |ends| :: ends[k] < |records|
    requires var start := StartOf(ends, |ends|);
             && start <= stop <= |records| && (stop > start ==> FrameLen(plan, records, |ends|, start, stop) <= limits.maxFrameBytes)
             && (stop < |records| ==> FrameLen(plan, records, |ends|, start, stop + 1) > limits.maxFrameBytes)
             && !CodableAt(limits, plan, records, ends + [stop], |ends|)
    ensures Unpackable(limits, plan, records)
  {
    forall other, otherFrames ensures !Packed(limits, plan, records, other, otherFrames) {
      if Packed(limits, plan, records, other, otherFrames) {
        SameFrame(limits, plan, records, ends, frames, stop, other, otherFrames);
      }
    }
  }

  /** Every packing has the next frame end where it must, and writable there. */
  lemma {:induction false} SameFrame(
      limits: Limits, plan: Plan, records: seq<Prepared>, ends: seq<nat>, frames: seq<Data>, stop: nat,
      other: seq<nat>, otherFrames: seq<Data>)
    requires Cutting(limits, plan, records, ends, frames) && Packed(limits, plan, records, other, otherFrames)
    requires (records != [] || plan.role.Metadata?) && (records == [] ==> ends == [])
    requires forall k | 0 <= k < |ends| :: ends[k] < |records|
    requires var start := StartOf(ends, |ends|);
             && start <= stop <= |records| && (stop > start ==> FrameLen(plan, records, |ends|, start, stop) <= limits.maxFrameBytes)
             && (stop < |records| ==> FrameLen(plan, records, |ends|, start, stop + 1) > limits.maxFrameBytes)
    ensures CodableAt(limits, plan, records, ends + [stop], |ends|)
  {
    NextFrame(limits, plan, records, ends, frames, other, otherFrames);
    EndUnique(plan, records, limits.maxFrameBytes, |ends|, StartOf(ends, |ends|), stop, other[|ends|]);
    SameCodable(limits, plan, records, other, ends + [stop], |ends|);
  }

  lemma {:induction false} SameCodable(
      limits: Limits, plan: Plan, records: seq<Prepared>, a: seq<nat>, b: seq<nat>, k: nat)
    requires k < |a| && k < |b| && StartOf(a, k) == StartOf(b, k) && a[k] == b[k]
    ensures CodableAt(limits, plan, records, a, k) <==> CodableAt(limits, plan, records, b, k)
  {
  }

  lemma {:induction false} StuckRefused(limits: Limits, plan: Plan, records: seq<Prepared>, ends: seq<nat>, frames: seq<Data>)
    requires Cutting(limits, plan, records, ends, frames) && StartOf(ends, |ends|) < |records|
    requires var g := StartOf(ends, |ends|); FrameLen(plan, records, |ends|, g, g + 1) > limits.maxFrameBytes
    ensures Unpackable(limits, plan, records)
  {
    forall other, otherFrames ensures !Packed(limits, plan, records, other, otherFrames) {
      StuckMeansNoSplit(plan, records, limits.maxFrameBytes, ends, other);
    }
  }

  lemma {:induction false} HeaderRefused(limits: Limits, plan: Plan, records: seq<Prepared>)
    requires records == [] && plan.role.Metadata? && FrameLen(plan, records, 0, 0, 0) > limits.maxFrameBytes
    ensures Unpackable(limits, plan, records)
  {
    forall other, otherFrames ensures !Packed(limits, plan, records, other, otherFrames) {
      if other != [] { assert !FrameFits(plan, records, limits.maxFrameBytes, other, 0); }
    }
  }

  /** Cuts one frame off the remaining records; refuses exactly when no packing exists. */
  method CutFrame(limits: Limits, plan: Plan, records: seq<Prepared>, k: nat, start: nat,
                  ghost ends: seq<nat>, ghost frames: seq<Data>)
    returns (cut: Option<(nat, Data)>)
    requires plan.roleCount == |records| && (records == [] ==> ends == []) && (records != [] || plan.role.Metadata?)
    requires Cutting(limits, plan, records, ends, frames) && k == |ends| && start == StartOf(ends, |ends|)
    requires (records != [] ==> start < |records|) && forall i | 0 <= i < |ends| :: ends[i] < |records|
    ensures cut.None? ==> Unpackable(limits, plan, records)
    ensures cut.Some? ==>
            && start <= cut.value.0 <= |records| && (records != [] ==> start < cut.value.0)
            && Written(limits, plan, records, ends + [cut.value.0], frames + [cut.value.1])
            && FitsSoFar(plan, records, limits.maxFrameBytes, ends + [cut.value.0])
            && Filled(plan, records, limits.maxFrameBytes, ends + [cut.value.0])
  {
    if k >= U32_LIMIT {
      ghost var stop := Reach(plan, records, limits.maxFrameBytes, k, start, start);
      UncodableRefused(limits, plan, records, ends, frames, stop);
      return None;
    }
    var end, stop := FillFrame(plan, records, limits.maxFrameBytes, k, start);
    assert StartOf(ends + [stop], |ends|) == start;
    if end.None? {
      UncodableRefused(limits, plan, records, ends, frames, stop);
      return None;
    }
    if end.value == start && records != [] {
      StuckRefused(limits, plan, records, ends, frames);
      return None;
    }
    var frame := WriteFrame(limits, plan, records, k, start, end.value);
    if frame.None? {
      if records == [] && FrameLen(plan, records, k, start, end.value) > limits.maxFrameBytes {
        HeaderRefused(limits, plan, records);
      } else {
        UncodableRefused(limits, plan, records, ends, frames, stop);
      }
      return None;
    }
    if end.value - start >= U32_LIMIT {
      UncodableRefused(limits, plan, records, ends, frames, stop);
      return None;
    }
    WriteMore(limits, plan, records, ends, frames, end.value, frame.value);
    FitMore(plan, records, limits.maxFrameBytes, ends, end.value);
    cut := Some((end.value, frame.value));
  }

  /** Packs the records of one role, greedily; refuses exactly when no packing exists. */
  method PackFrames(limits: Limits, plan: Plan, records: seq<Prepared>)
    returns (frames: Option<seq<Data>>, ghost ends: seq<nat>)
    requires plan.roleCount == |records|
    ensures frames.Some? ==> Packed(limits, plan, records, ends, frames.value)
    ensures frames.Some? ==>
            forall other | IsSplit(plan, records, limits.maxFrameBytes, other) :: |frames.value| <= |other|
    ensures frames.None? ==> Unpackable(limits, plan, records)
  {
    ends := [];
    if records == [] && !plan.role.Metadata? { return Some([]), ends; }
    var packed: seq<Data>, start := [], 0;
    while true
      invariant Cutting(limits, plan, records, ends, packed) && start == StartOf(ends, |ends|) && |packed| == |ends|
      invariant (records == [] ==> ends == []) && (records != [] ==> start < |records|) && Eager(records, ends)
      invariant forall k | 0 <= k < |ends| :: ends[k] < |records|
      decreases |records| - start
    {
      var cut := CutFrame(limits, plan, records, |packed|, start, ends, packed);
      if cut.None? { return None, ends; }
      ends, packed := ends + [cut.value.0], packed + [cut.value.1];
      if cut.value.0 == |records| {
        forall other | IsSplit(plan, records, limits.maxFrameBytes, other) ensures |packed| <= |other| {
          PackedIsOptimal(limits, plan, records, ends, packed, other);
        }
        return Some(packed), ends;
      }
      start := cut.value.0;
    }
  }
}
