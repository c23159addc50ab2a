/** Size-planned greedy packing of records into frames: planned lengths are the bytes written, and
    no order-preserving split uses fewer frames. */
module Packing {
  import opened Prelude
  import opened Wire
  import opened RunModel
  import opened RunRecords
  import opened RunFrames
  import opened Projections

  // ---------------------------------------------------------------- planned lengths

  /** A record ready for packing: its own bytes, and for listing records the path that is coded
      against the predecessor in the frame. */
  datatype Prepared = Prepared(body: Data, path: Option<Data>)

  function EncodedLen(r: Prepared, previous: Data): nat {
    match r.path
    case None => |r.body|
    case Some(path) =>
      var prefix := SharedPrefix(previous, path);
      |r.body| + VarintLen(prefix) + VarintLen(|path| - prefix) + (|path| - prefix)
  }

  function EncodeRecord(r: Prepared, previous: Data): Data {
    match r.path
    case None => r.body
    case Some(path) => PutPath(previous, path, r.body)
  }

  /** The planned length of a record is the number of bytes written. */
  lemma {:induction false} EncodedLenIs(r: Prepared, previous: Data)
    ensures |EncodeRecord(r, previous)| == EncodedLen(r, previous)
  {
    if r.path.Some? {
      var path, n := r.path.value, SharedPrefix(previous, r.path.value);
      VarintLength(|path| - n, path[n..] + r.body);
      VarintLength(n, PutVarint(|path| - n, path[n..] + r.body));
    }
  }

  function FramedLen(r: Prepared, previous: Data): nat {
    VarintLen(EncodedLen(r, previous)) + EncodedLen(r, previous)
  }

  /** What the headers of one role share. */
  datatype Plan = Plan(role: Role, sequence: U64, mutationCount: U32, roleCount: U64)

  function PackLen(pack: Option<SelfPack>): nat {
    match pack
    case None => 0
    case Some(p) => 64 + VarintLen(|p.contentKeyId|) + |p.contentKeyId| + 8 + VarintLen(p.recordCount)
  }

  function RoleLen(role: Role): nat {
    match role
    case Metadata(pack, keyCount) => 1 + PackLen(pack) + VarintLen(keyCount)
    case Namespace => 0
    case Listing => 0
  }

  function HeaderLen(plan: Plan, ordinal: nat, count: nat): nat {
    |DOMAIN| + 2 + 1 + VarintLen(ordinal) + 8 + VarintLen(plan.mutationCount)
    + VarintLen(plan.roleCount) + VarintLen(count) + RoleLen(plan.role)
  }

  function HeaderFor(plan: Plan, ordinal: U32, count: U64): Header {
    Header(plan.role, ordinal, plan.sequence, plan.mutationCount, plan.roleCount, count)
  }

  lemma {:induction false} PackLenIs(pack: Option<SelfPack>, tail: Data)
    ensures |PutPack(pack, tail)| == 1 + PackLen(pack) + |tail|
  {
    if pack.Some? {
      var p := pack.value;
      var count := PutVarint(p.recordCount, tail);
      VarintLength(p.recordCount, tail);
      RecordLength(p.contentKeyId, PutU64(p.storedLen, count));
    }
  }

  lemma {:induction false} RoleLenIs(role: Role, tail: Data)
    ensures |PutRole(role, tail)| == RoleLen(role) + |tail|
  {
    if role.Metadata? {
      PackLenIs(role.pack, PutVarint(role.keyCount, tail));
      VarintLength(role.keyCount, tail);
    }
  }

  /** The planned length of a header is the number of bytes written. */
  lemma {:induction false} HeaderLenIs(plan: Plan, ordinal: U32, count: U64, tail: Data)
    ensures |PutHeader(HeaderFor(plan, ordinal, count), tail)| == HeaderLen(plan, ordinal, count) + |tail|
  {
    var role := PutRole(plan.role, tail);
    RoleLenIs(plan.role, tail);
    var frame := PutVarint(count, role);
    VarintLength(count, role);
    var all := PutVarint(plan.roleCount, frame);
    VarintLength(plan.roleCount, frame);
    var mutations := PutVarint(plan.mutationCount, all);
    VarintLength(plan.mutationCount, all);
    VarintLength(ordinal, PutU64(plan.sequence, mutations));
  }

  // ---------------------------------------------------------------- costs of frames

  /** The path that record `i` of a frame starting at `a` is coded against. */
  function PathBefore(records: seq<Prepared>, a: nat, i: nat): Data
    requires a <= i <= |records|
  {
    if i == a then [] else match records[i - 1].path case None => [] case Some(path) => path
  }

  function PayloadLen(records: seq<Prepared>, a: nat, b: nat): nat
    requires a <= b <= |records|
    decreases b
  {
    if a == b then 0
    else PayloadLen(records, a, b - 1) + FramedLen(records[b - 1], PathBefore(records, a, b - 1))
  }

  function FrameLen(plan: Plan, records: seq<Prepared>, ordinal: nat, a: nat, b: nat): nat
    requires a <= b <= |records|
  {
    HeaderLen(plan, ordinal, b - a) + PayloadLen(records, a, b)
  }

  function Pow128(k: nat): nat {
    if k == 0 then 1 else 128 * Pow128(k - 1)
  }

  lemma {:induction false} VarintLenBound(n: nat, k: nat)
    requires k > 0
    ensures VarintLen(n) <= k <==> n < Pow128(k)
    decreases k
  {
    if k == 1 {
      assert Pow128(1) == 128 * Pow128(0);
    } else {
      PowPositive(k - 1);
      if n >= 128 { VarintLenBound(n / 128, k - 1); }
    }
  }

  lemma {:induction false} PowPositive(k: nat)
    ensures Pow128(k) >= 1
  {
    if k > 0 { PowPositive(k - 1); }
  }

  lemma {:induction false} VarintLenMonotone(m: nat, n: nat)
    requires m <= n
    ensures VarintLen(m) <= VarintLen(n)
  {
    VarintLenBound(n, VarintLen(n));
    VarintLenBound(m, VarintLen(n));
  }

  /** The varint of a sum is at most one byte longer than the longer of the two varints. */
  lemma {:induction false} VarintLenSum(x: nat, y: nat)
    ensures VarintLen(x + y) <= VarintLen(x) + 1 || VarintLen(x + y) <= VarintLen(y) + 1
    ensures VarintLen(x + y) <= VarintLen(x) + VarintLen(y)
  {
    var k := if VarintLen(x) < VarintLen(y) then VarintLen(y) else VarintLen(x);
    VarintLenBound(x, k);
    VarintLenBound(y, k);
    VarintLenBound(x + y, k + 1);
    assert Pow128(k + 1) == 128 * Pow128(k);
  }

  /** Coding a record without its predecessor costs less than the two records together. */
  lemma {:induction false} DroppingPays(first: Prepared, second: Prepared)
    ensures var path := match first.path case None => [] case Some(p) => p;
            FramedLen(second, []) <= FramedLen(first, []) + FramedLen(second, path)
  {
    if first.path.Some? && second.path.Some? {
      var p, path := first.path.value, second.path.value;
      var q := SharedPrefix(p, path);
      var a, alone, after := EncodedLen(first, []), EncodedLen(second, []), EncodedLen(second, p);
      VarintLenSum(q, |path| - q);
      assert q + (|path| - q) == |path|;
      assert alone <= after + q + 1;
      assert a >= q + 2;
      VarintLenSum(after, a);
      VarintLenMonotone(alone, after + a);
    }
  }

  /** Leaving out the first record of a frame never makes it longer. */
  lemma {:induction false} DropFirst(records: seq<Prepared>, a: nat, b: nat)
    requires a < b <= |records|
    ensures PayloadLen(records, a + 1, b) <= PayloadLen(records, a, b)
    decreases b
  {
    if b == a + 1 {
      assert PayloadLen(records, a + 1, b) == 0;
    } else if b == a + 2 {
      assert PayloadLen(records, a, a + 1) == PayloadLen(records, a, a) + FramedLen(records[a], []);
      assert PayloadLen(records, a + 1, b) == PayloadLen(records, a + 1, a + 1) + FramedLen(records[a + 1], []);
      DroppingPays(records[a], records[a + 1]);
    } else {
      DropFirst(records, a, b - 1);
      assert PathBefore(records, a, b - 1) == PathBefore(records, a + 1, b - 1);
    }
  }

  /** A frame over part of another frame's records is not longer. */
  lemma {:induction false} PayloadShrinks(records: seq<Prepared>, a: nat, b: nat, a': nat, b': nat)
    requires a <= a' <= b' <= b <= |records|
    ensures PayloadLen(records, a', b') <= PayloadLen(records, a, b)
    decreases (a' - a) + (b - b')
  {
    if b' < b {
      PayloadShrinks(records, a, b - 1, a', b');
    } else if a < a' {
      DropFirst(records, a, b);
      PayloadShrinks(records, a + 1, b, a', b');
    }
  }

  lemma {:induction false} FrameShrinks(
      plan: Plan, records: seq<Prepared>, k: nat, k': nat, a: nat, b: nat, a': nat, b': nat)
    requires a <= a' <= b' <= b <= |records| && k' <= k
    ensures FrameLen(plan, records, k', a', b') <= FrameLen(plan, records, k, a, b)
  {
    PayloadShrinks(records, a, b, a', b');
    VarintLenMonotone(b' - a', b - a);
    VarintLenMonotone(k', k);
  }

  // ---------------------------------------------------------------- splits

  /** Where frame `k` of a split starts. */
  function StartOf(ends: seq<nat>, k: nat): nat
    requires k <= |ends|
  {
    if k == 0 then 0 else ends[k - 1]
  }

  ghost predicate FrameFits(plan: Plan, records: seq<Prepared>, maximum: nat, ends: seq<nat>, k: nat)
    requires k < |ends|
  {
    StartOf(ends, k) <= ends[k] <= |records| && FrameLen(plan, records, k, StartOf(ends, k), ends[k]) <= maximum
  }

  /** An order-preserving cut of some first records into frames that all fit. */
  ghost predicate FitsSoFar(plan: Plan, records: seq<Prepared>, maximum: nat, ends: seq<nat>) {
    forall k | 0 <= k < |ends| :: FrameFits(plan, records, maximum, ends, k)
  }

  /** A cut of all records. */
  ghost predicate IsSplit(plan: Plan, records: seq<Prepared>, maximum: nat, ends: seq<nat>) {
    ends != [] && ends[|ends| - 1] == |records| && FitsSoFar(plan, records, maximum, ends)
  }

  ghost predicate StoppedFull(plan: Plan, records: seq<Prepared>, maximum: nat, ends: seq<nat>, k: nat)
    requires k < |ends|
  {
    StartOf(ends, k) <= ends[k] < |records|
    ==> FrameLen(plan, records, k, StartOf(ends, k), ends[k] + 1) > maximum
  }

  /** No frame could have taken one more record. */
  ghost predicate Filled(plan: Plan, records: seq<Prepared>, maximum: nat, ends: seq<nat>) {
    forall k | 0 <= k < |ends| :: StoppedFull(plan, records, maximum, ends, k)
  }

  /** After as many frames, filled ones reach at least as far as any other split. */
  lemma {:induction false} GreedyStaysAhead(
      plan: Plan, records: seq<Prepared>, maximum: nat, greedy: seq<nat>, other: seq<nat>, k: nat)
    requires FitsSoFar(plan, records, maximum, greedy) && Filled(plan, records, maximum, greedy)
    requires FitsSoFar(plan, records, maximum, other) && k <= |greedy| && k <= |other|
    ensures StartOf(other, k) <= StartOf(greedy, k) <= |records|
    decreases k
  {
    if k > 0 {
      GreedyStaysAhead(plan, records, maximum, greedy, other, k - 1);
      assert FrameFits(plan, records, maximum, greedy, k - 1) && FrameFits(plan, records, maximum, other, k - 1);
      assert StoppedFull(plan, records, maximum, greedy, k - 1);
      if greedy[k - 1] < other[k - 1] {
        FrameShrinks(plan, records, k - 1, k - 1, StartOf(other, k - 1), other[k - 1],
                     StartOf(greedy, k - 1), greedy[k - 1] + 1);
      }
    }
  }

  /** No order-preserving split that fits uses fewer frames. */
  lemma {:induction false} GreedyIsOptimal(
      plan: Plan, records: seq<Prepared>, maximum: nat, greedy: seq<nat>, other: seq<nat>)
    requires IsSplit(plan, records, maximum, greedy) && Filled(plan, records, maximum, greedy)
    requires forall k | 0 <= k < |greedy| - 1 :: greedy[k] < |records|
    requires IsSplit(plan, records, maximum, other)
    ensures |greedy| <= |other|
  {
    if |other| < |greedy| {
      GreedyStaysAhead(plan, records, maximum, greedy, other, |other|);
    }
  }

  /** Packing gives up only when no split fits at all: the next record is too long even alone, in the
      earliest frame that any split could put it in. */
  lemma {:induction false} StuckMeansNoSplit(
      plan: Plan, records: seq<Prepared>, maximum: nat, greedy: seq<nat>, other: seq<nat>)
    requires FitsSoFar(plan, records, maximum, greedy) && Filled(plan, records, maximum, greedy)
    requires StartOf(greedy, |greedy|) < |records|
    requires var g := StartOf(greedy, |greedy|); FrameLen(plan, records, |greedy|, g, g + 1) > maximum
    ensures !IsSplit(plan, records, maximum, other)
  {
    if IsSplit(plan, records, maximum, other) {
      var g := StartOf(greedy, |greedy|);
      var k := HoldingFrame(plan, records, maximum, other, g, |other|);
      if k < |greedy| {
        GreedyStaysAhead(plan, records, maximum, greedy, other, k + 1);
        EndsGrow(plan, records, maximum, greedy, k + 1, |greedy|);
      } else {
        assert FrameFits(plan, records, maximum, other, k);
        FrameShrinks(plan, records, k, |greedy|, StartOf(other, k), other[k], g, g + 1);
      }
    }
  }

  lemma {:induction false} EndsGrow(plan: Plan, records: seq<Prepared>, maximum: nat, ends: seq<nat>, j: nat, k: nat)
    requires FitsSoFar(plan, records, maximum, ends) && j <= k <= |ends|
    ensures StartOf(ends, j) <= StartOf(ends, k)
    decreases k
  {
    if j < k {
      EndsGrow(plan, records, maximum, ends, j, k - 1);
      assert FrameFits(plan, records, maximum, ends, k - 1);
    }
  }

  /** The frame of a split that holds a record. */
  lemma {:induction false} HoldingFrame(
      plan: Plan, records: seq<Prepared>, maximum: nat, ends: seq<nat>, g: nat, n: nat) returns (k: nat)
    requires FitsSoFar(plan, records, maximum, ends) && n <= |ends| && g < StartOf(ends, n)
    ensures k < n && StartOf(ends, k) <= g < ends[k]
    decreases n
  {
    if StartOf(ends, n - 1) <= g { k := n - 1; } else { k := HoldingFrame(plan, records, maximum, ends, g, n - 1); }
  }

  // ---------------------------------------------------------------- the bytes of a frame

  /** Standalone part tables have a cap of their own; every other record has the ordinary one. */
  function RecordLimit(limits: Limits, role: Role, body: Data): U64 {
    MetaLimit(limits, role.Metadata? && body != [] && body[0] == 2)
  }

  function BodyAt(records: seq<Prepared>, a: nat, i: nat): Data
    requires a <= i < |records|
  {
    EncodeRecord(records[i], PathBefore(records, a, i))
  }

  function FrameBodies(records: seq<Prepared>, a: nat, b: nat): (bodies: seq<Data>)
    requires a <= b <= |records|
    ensures |bodies| == b - a
    decreases b
  {
    if a == b then [] else FrameBodies(records, a, b - 1) + [BodyAt(records, a, b - 1)]
  }

  lemma {:induction false} FrameBodyAt(records: seq<Prepared>, a: nat, b: nat, i: nat)
    requires a <= i < b <= |records|
    ensures FrameBodies(records, a, b)[i - a] == BodyAt(records, a, i)
    decreases b
  {
    if i < b - 1 { FrameBodyAt(records, a, b - 1, i); }
  }

  function FrameData(plan: Plan, records: seq<Prepared>, k: U32, a: nat, b: nat): Data
    requires a <= b <= |records| && b - a < U64_LIMIT
  {
    PutHeader(HeaderFor(plan, k, b - a), PutBodies(FrameBodies(records, a, b), []))
  }

  ghost predicate BodyWithin(limits: Limits, role: Role, records: seq<Prepared>, a: nat, i: nat)
    requires a <= i < |records|
  {
    |BodyAt(records, a, i)| <= RecordLimit(limits, role, records[i].body)
  }

  ghost predicate BodiesWithin(limits: Limits, role: Role, records: seq<Prepared>, a: nat, b: nat)
    requires a <= b <= |records|
  {
    forall i | a <= i < b :: BodyWithin(limits, role, records, a, i)
  }

  lemma {:induction false} BodyFits(limits: Limits, role: Role, records: seq<Prepared>, a: nat, b: nat, i: nat)
    requires a <= b <= |records| && i < b - a && BodiesWithin(limits, role, records, a, b) && !role.Metadata?
    ensures FrameBodies(records, a, b)[i] == BodyAt(records, a, a + i)
    ensures |BodyAt(records, a, a + i)| <= limits.maxRecordBytes
  {
    FrameBodyAt(records, a, b, a + i);
    assert BodyWithin(limits, role, records, a, a + i);
  }

  lemma {:induction false} PlainBodies(records: seq<Prepared>, a: nat, b: nat, bodies: seq<Data>)
    requires a <= b <= |records| && |bodies| == b - a
    requires forall i | 0 <= i < b - a :: records[a + i] == Prepared(bodies[i], None)
    ensures FrameBodies(records, a, b) == bodies
  {
    forall i | 0 <= i < b - a ensures FrameBodies(records, a, b)[i] == bodies[i] {
      FrameBodyAt(records, a, b, a + i);
    }
  }

  lemma {:induction false} BodiesSnoc(bodies: seq<Data>, body: Data)
    ensures PutBodies(bodies + [body], []) == PutBodies(bodies, []) + PutRecord(body, [])
  {
    if bodies == [] {
      assert bodies + [body] == [body];
      assert PutBodies([], PutRecord(body, [])) == [] + PutRecord(body, []);
      assert [body][1..] == [];
    } else {
      var first, rest := bodies[0], bodies[1..];
      BodiesSnoc(rest, body);
      assert (bodies + [body])[1..] == rest + [body];
      RecordAppend(first, PutBodies(rest, []) + PutRecord(body, []));
      RecordAppend(first, PutBodies(rest, []));
    }
  }

  lemma {:induction false} RecordAppend(record: Data, tail: Data)
    ensures PutRecord(record, tail) == PutRecord(record, []) + tail
  {
    VarintAppend(|record|, record + tail);
    VarintAppend(|record|, record + []);
    assert record + [] == record;
  }

  lemma {:induction false} PackAppend(pack: Option<SelfPack>, tail: Data)
    ensures PutPack(pack, tail) == PutPack(pack, []) + tail
  {
    if pack.Some? {
      var p := pack.value;
      VarintAppend(p.recordCount, tail);
      var count := PutVarint(p.recordCount, []);
      RecordAppend(p.contentKeyId, PutU64(p.storedLen, count + tail));
      RecordAppend(p.contentKeyId, PutU64(p.storedLen, count));
      assert PutU64(p.storedLen, count + tail) == PutU64(p.storedLen, count) + tail;
    }
  }

  lemma {:induction false} RoleAppend(role: Role, tail: Data)
    ensures PutRole(role, tail) == PutRole(role, []) + tail
  {
    if role.Metadata? {
      VarintAppend(role.keyCount, tail);
      PackAppend(role.pack, PutVarint(role.keyCount, tail));
      PackAppend(role.pack, PutVarint(role.keyCount, []));
    }
  }

  lemma {:induction false} VarintExtends(n: nat, tail: Data, more: Data)
    ensures PutVarint(n, tail + more) == PutVarint(n, tail) + more
  {
    VarintAppend(n, tail + more);
    VarintAppend(n, tail);
  }

  lemma {:induction false} TotalsAppend(h: Header, tail: Data)
    ensures PutVarint(h.roleCount, PutVarint(h.frameCount, PutRole(h.role, tail)))
         == PutVarint(h.roleCount, PutVarint(h.frameCount, PutRole(h.role, []))) + tail
  {
    RoleAppend(h.role, tail);
    VarintExtends(h.frameCount, PutRole(h.role, []), tail);
    VarintExtends(h.roleCount, PutVarint(h.frameCount, PutRole(h.role, [])), tail);
  }

  lemma {:induction false} FactsAppend(ordinal: nat, sequence: U64, count: nat, totals: Data, tail: Data)
    ensures PutVarint(ordinal, PutU64(sequence, PutVarint(count, totals + tail)))
         == PutVarint(ordinal, PutU64(sequence, PutVarint(count, totals))) + tail
  {
    VarintExtends(count, totals, tail);
    var mutations := PutVarint(count, totals);
    assert PutU64(sequence, mutations + tail) == PutU64(sequence, mutations) + tail;
    VarintExtends(ordinal, PutU64(sequence, mutations), tail);
  }

  lemma {:induction false} CountsAppend(h: Header, tail: Data)
    ensures PutCounts(h, tail) == PutCounts(h, []) + tail
  {
    var totals := PutVarint(h.roleCount, PutVarint(h.frameCount, PutRole(h.role, [])));
    TotalsAppend(h, tail);
    FactsAppend(h.roleOrdinal, h.sequence, h.mutationCount, totals, tail);
  }

  lemma {:induction false} FourPartsAppend(a: Data, b: Data, c: Data, d: Data, tail: Data)
    ensures a + (b + (c + (d + tail))) == a + (b + (c + d)) + tail
  {
  }

  /** A header does not depend on what follows it. */
  lemma {:induction false} HeaderAppend(h: Header, tail: Data)
    ensures PutHeader(h, tail) == PutHeader(h, []) + tail
  {
    CountsAppend(h, tail);
    FourPartsAppend(DOMAIN, BigEndian(WIRE_VERSION, 2), [RoleTag(h.role)], PutCounts(h, []), tail);
  }

  // ---------------------------------------------------------------- packing

  lemma {:induction false} PayloadNext(records: seq<Prepared>, a: nat, i: nat)
    requires a <= i < |records|
    ensures PayloadLen(records, a, i + 1) == PayloadLen(records, a, i) + FramedLen(records[i], PathBefore(records, a, i))
    ensures PathBefore(records, a, i + 1) == match records[i].path case None => [] case Some(path) => path
  {
  }

  /** The payload and the whole length of a frame that takes one more record. */
  method Candidate(plan: Plan, records: seq<Prepared>, k: U32, start: nat, next: nat, payload: nat, previous: Data)
    returns (candidate: nat, length: nat)
    requires start <= next < |records|
    requires payload == PayloadLen(records, start, next) && previous == PathBefore(records, start, next)
    ensures candidate == PayloadLen(records, start, next + 1)
    ensures length == FrameLen(plan, records, k, start, next + 1)
  {
    PayloadNext(records, start, next);
    candidate := payload + FramedLen(records[next], previous);
    length := HeaderLen(plan, k, next + 1 - start) + candidate;
  }

  /** Extends a frame for as long as the next record fits; refuses when adding up overflows a word. */
  method FillFrame(plan: Plan, records: seq<Prepared>, maximum: U64, k: U32, start: nat)
    returns (end: Option<nat>, ghost stop: nat)
    requires start <= |records|
    ensures start <= stop <= |records|
    ensures stop > start ==> FrameLen(plan, records, k, start, stop) <= maximum
    ensures stop < |records| ==> FrameLen(plan, records, k, start, stop + 1) > maximum
    ensures end == if stop < |records| && FrameLen(plan, records, k, start, stop + 1) >= U64_LIMIT then None else Some(stop)
  {
    var next, payload := start, 0;
    var previous: Data := [];
    while next < |records|
      invariant start <= next <= |records|
      invariant payload == PayloadLen(records, start, next) && previous == PathBefore(records, start, next)
      invariant next > start ==> FrameLen(plan, records, k, start, next) <= maximum
    {
      var candidate, length := Candidate(plan, records, k, start, next, payload, previous);
      if length >= U64_LIMIT { return None, next; }
      if length > maximum { return Some(next), next; }
      payload := candidate;
      previous := match records[next].path case None => [] case Some(path) => path;
      next := next + 1;
    }
    end, stop := Some(next), next;
  }

  lemma {:induction false} BodiesLength(bodies: seq<Data>, body: Data)
    ensures |PutBodies(bodies + [body], [])| == |PutBodies(bodies, [])| + VarintLen(|body|) + |body|
  {
    BodiesSnoc(bodies, body);
    RecordLength(body, []);
  }

  lemma {:induction false} PayloadLenIs(records: seq<Prepared>, a: nat, b: nat)
    requires a <= b <= |records|
    ensures |PutBodies(FrameBodies(records, a, b), [])| == PayloadLen(records, a, b)
    decreases b
  {
    if a < b {
      PayloadLenIs(records, a, b - 1);
      BodiesLength(FrameBodies(records, a, b - 1), BodyAt(records, a, b - 1));
      EncodedLenIs(records[b - 1], PathBefore(records, a, b - 1));
    }
  }

  /** The planned length of a frame is the number of bytes written. */
  lemma {:induction false} FrameLenIs(plan: Plan, records: seq<Prepared>, k: U32, a: nat, b: nat)
    requires a <= b <= |records| && b - a < U64_LIMIT
    ensures |FrameData(plan, records, k, a, b)| == FrameLen(plan, records, k, a, b)
  {
    PayloadLenIs(records, a, b);
    HeaderLenIs(plan, k, b - a, PutBodies(FrameBodies(records, a, b), []));
  }

  lemma {:induction false} WithinSnoc(limits: Limits, role: Role, records: seq<Prepared>, a: nat, i: nat)
    requires a <= i < |records| && BodiesWithin(limits, role, records, a, i)
    ensures BodiesWithin(limits, role, records, a, i + 1) <==> BodyWithin(limits, role, records, a, i)
  {
  }

  /** Codes the records of a frame against their predecessors, each within its limit. */
  method EncodeBodies(limits: Limits, role: Role, records: seq<Prepared>, start: nat, end: nat)
    returns (bodies: Option<seq<Data>>)
    requires start <= end <= |records|
    ensures bodies.Some? <==> BodiesWithin(limits, role, records, start, end)
    ensures bodies.Some? ==> bodies.value == FrameBodies(records, start, end)
  {
    var previous: Data, coded: seq<Data> := [], [];
    for i := start to end
      invariant previous == PathBefore(records, start, i) && coded == FrameBodies(records, start, i)
      invariant BodiesWithin(limits, role, records, start, i)
    {
      WithinSnoc(limits, role, records, start, i);
      var body := EncodeRecord(records[i], previous);
      if |body| > RecordLimit(limits, role, records[i].body) { return None; }
      coded := coded + [body];
      previous := match records[i].path case None => [] case Some(path) => path;
    }
    bodies := Some(coded);
  }

  lemma {:induction false} BodiesPrefix(bodies: seq<Data>, i: nat)
    requires i <= |bodies|
    ensures |PutBodies(bodies[..i], [])| <= |PutBodies(bodies, [])|
    decreases |bodies| - i
  {
    if i < |bodies| {
      BodiesPrefix(bodies, i + 1);
      assert bodies[..i + 1] == bodies[..i] + [bodies[i]];
      BodiesLength(bodies[..i], bodies[i]);
    } else {
      assert bodies[..i] == bodies;
    }
  }

  /** What writing one more body does. */
  lemma {:induction false} BodyStep(bodies: seq<Data>, i: nat)
    requires i < |bodies|
    ensures PutBodies(bodies[..i + 1], []) == PutBodies(bodies[..i], []) + PutRecord(bodies[i], [])
    ensures |PutBodies(bodies[..i], [])| + VarintLen(|bodies[i]|) + |bodies[i]| <= |PutBodies(bodies, [])|
  {
    assert bodies[..i + 1] == bodies[..i] + [bodies[i]];
    BodiesSnoc(bodies[..i], bodies[i]);
    BodiesLength(bodies[..i], bodies[i]);
    BodiesPrefix(bodies, i + 1);
  }

  method WriteBodies(bodies: seq<Data>, writer: Writer) returns (ok: bool)
    requires |writer.bytes| <= writer.maximum
    modifies writer
    ensures ok <==> |old(writer.bytes)| + |PutBodies(bodies, [])| <= writer.maximum
    ensures ok ==> writer.bytes == old(writer.bytes) + PutBodies(bodies, [])
  {
    for i := 0 to |bodies|
      invariant |writer.bytes| <= writer.maximum
      invariant writer.bytes == old(writer.bytes) + PutBodies(bodies[..i], [])
    {
      BodyStep(bodies, i);
      ok := writer.Record(bodies[i]);
      if !ok { return; }
    }
    assert bodies[..|bodies|] == bodies;
    ok := true;
  }

  /** Writes one frame; exactly the frames that are planned to fit are written. */
  method WriteFrame(limits: Limits, plan: Plan, records: seq<Prepared>, k: U32, start: nat, end: nat)
    returns (bytes: Option<Data>)
    requires start <= end <= |records| && end - start < U64_LIMIT
    ensures bytes.Some? <==>
            && FrameLen(plan, records, k, start, end) <= limits.maxFrameBytes
            && BodiesWithin(limits, plan.role, records, start, end)
    ensures bytes.Some? ==> bytes.value == FrameData(plan, records, k, start, end)
  {
    var bodies := EncodeBodies(limits, plan.role, records, start, end);
    if bodies.None? { return None; }
    var header := HeaderFor(plan, k, end - start);
    FrameLenIs(plan, records, k, start, end);
    HeaderAppend(header, PutBodies(bodies.value, []));
    var writer := new Writer(limits.maxFrameBytes);
    var ok := writer.Bytes(PutHeader(header, []));
    if !ok { return None; }
    assert writer.bytes == PutHeader(header, []);
    ok := WriteBodies(bodies.value, writer);
    if !ok { return None; }
    bytes := Some(writer.bytes);
  }
}
