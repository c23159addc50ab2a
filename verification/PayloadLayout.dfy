/** Layouts of ciphertext-only payloads: parts sealed independently, each cut into segments. */
module PayloadLayout {
  import opened Prelude
  import opened Types

  const MAX_CHUNK: nat := 64 * 1024 * 1024

  datatype Part = Part(number: U32, attemptId: Bytes32, plaintextLen: U64)

  datatype Layout = Layout(chunkSize: U64, plaintextLen: U64, keyId: Text, carrierId: Bytes32, parts: seq<Part>)

  /** Segments needed for some bytes: full chunks are cut off until nothing is left. */
  function Segments(length: nat, chunk: nat): nat
    requires chunk > 0
    decreases length
  {
    if length == 0 then 0 else if length <= chunk then 1 else 1 + Segments(length - chunk, chunk)
  }

  /** Bytes in `n` full chunks: the product, kept as a sum (`ChunksIs`). */
  function Chunks(n: nat, chunk: nat): nat {
    if n == 0 then 0 else Chunks(n - 1, chunk) + chunk
  }

  lemma {:induction false} ChunksIs(n: nat, chunk: nat)
    ensures Chunks(n, chunk) == n * chunk
  {
    if n > 0 {
      ChunksIs(n - 1, chunk);
      assert (n - 1) * chunk + chunk == n * chunk;
    }
  }

  lemma {:induction false} ChunksGrow(m: nat, n: nat, chunk: nat)
    requires m <= n
    ensures Chunks(m, chunk) <= Chunks(n, chunk)
  {
    if m < n { ChunksGrow(m, n - 1, chunk); }
  }

  lemma {:induction false} ChunksShift(n: nat, chunk: nat)
    ensures Chunks(n + 1, chunk) == chunk + Chunks(n, chunk)
  {
    if n > 0 { ChunksShift(n - 1, chunk); }
  }

  /** Segment `j` exists exactly when bytes remain after `j` chunks, and is the last exactly when at
      most one chunk remains. */
  lemma {:induction false} SegmentsBound(length: nat, chunk: nat, j: nat)
    requires chunk > 0 && length > 0
    ensures j < Segments(length, chunk) <==> Chunks(j, chunk) < length
    ensures j + 1 == Segments(length, chunk) <==> Chunks(j, chunk) < length <= Chunks(j, chunk) + chunk
    decreases length
  {
    if length > chunk && j > 0 {
      SegmentsBound(length - chunk, chunk, j - 1);
      ChunksShift(j - 1, chunk);
    } else if j > 0 {
      ChunksGrow(1, j, chunk);
      assert Chunks(1, chunk) == Chunks(0, chunk) + chunk;
    }
  }

  /** The count is the length divided by the chunk size, rounded up. */
  lemma {:induction false} SegmentsIsCeiling(length: nat, chunk: nat)
    requires chunk > 0
    ensures Segments(length, chunk) == length / chunk + (if length % chunk == 0 then 0 else 1)
    decreases length
  {
    if length > chunk {
      SegmentsIsCeiling(length - chunk, chunk);
      var q, r := (length - chunk) / chunk, (length - chunk) % chunk;
      assert length == (q + 1) * chunk + r;
      DivUnique(length, chunk, q + 1, r);
    } else if length == chunk {
      DivUnique(length, chunk, 1, 0);
    } else {
      DivUnique(length, chunk, 0, length);
    }
  }

  lemma {:induction false} MulMonotone(a: nat, b: nat, c: nat)
    requires a <= b
    ensures a * c <= b * c
  {
    assert b * c == a * c + (b - a) * c;
  }

  lemma {:induction false} DivUnique(n: nat, d: nat, q: nat, r: nat)
    requires d > 0 && n == q * d + r && r < d
    ensures n / d == q && n % d == r
  {
    var p, m := n / d, n % d;
    assert n == p * d + m;
    assert (p + 1) * d == p * d + d && (q + 1) * d == q * d + d;
    if p < q { MulMonotone(p + 1, q, d); }
    if q < p { MulMonotone(q + 1, p, d); }
  }

  // ---------------------------------------------------------------- prefix sums

  /** Plaintext bytes of the first `i` parts. */
  function PlainTo(layout: Layout, i: nat): nat
    requires i <= |layout.parts|
  {
    if i == 0 then 0 else PlainTo(layout, i - 1) + layout.parts[i - 1].plaintextLen
  }

  /** Segments of the first `i` parts. */
  function SegmentsTo(layout: Layout, i: nat): nat
    requires i <= |layout.parts| && layout.chunkSize > 0
  {
    if i == 0 then 0 else SegmentsTo(layout, i - 1) + Segments(layout.parts[i - 1].plaintextLen, layout.chunkSize)
  }

  /** Ciphertext bytes of the first `i` parts: the plaintext and a tag for every segment. */
  function StoredTo(layout: Layout, i: nat): nat
    requires i <= |layout.parts| && layout.chunkSize > 0
  {
    PlainTo(layout, i) + 16 * SegmentsTo(layout, i)
  }

  lemma {:induction false} SumsGrow(layout: Layout, i: nat, j: nat)
    requires i <= j <= |layout.parts| && layout.chunkSize > 0
    ensures PlainTo(layout, i) <= PlainTo(layout, j) && SegmentsTo(layout, i) <= SegmentsTo(layout, j)
    decreases j
  {
    if i < j { SumsGrow(layout, i, j - 1); }
  }

  /** The bounds on the fields, and part numbers and lengths positive and in order. */
  predicate Ordered(layout: Layout) {
    && 0 < layout.chunkSize <= MAX_CHUNK
    && layout.plaintextLen > 0
    && 0 < |layout.parts| <= MAX_PARTS
    && 0 < |layout.keyId| <= 255
    && (forall i | 0 <= i < |layout.parts| :: PartOk(layout, i))
  }

  predicate PartOk(layout: Layout, i: nat)
    requires i < |layout.parts|
  {
    && (if i == 0 then 0 else layout.parts[i - 1].number) < layout.parts[i].number <= MAX_PARTS
    && layout.parts[i].plaintextLen > 0
  }

  /** The layouts that are accepted: the declared length is the sum and the ciphertext length fits. */
  predicate Acceptable(layout: Layout) {
    && Ordered(layout)
    && PlainTo(layout, |layout.parts|) == layout.plaintextLen
    && StoredTo(layout, |layout.parts|) < U64_LIMIT
  }

  /** A layout is acceptable exactly when its chunks are at most 64 MiB, it has 1 to 10000 non-empty parts with
      rising numbers up to 10000 under a key id of 1 to 255 bytes, the parts add up to its length and the
      ciphertext length fits 64 bits. */
  lemma {:induction false} AcceptableExactly(layout: Layout)
    ensures Acceptable(layout) <==>
            && 1 <= layout.chunkSize <= 67_108_864 && 1 <= |layout.parts| <= 10_000 && 1 <= |layout.keyId| <= 255
            && (forall i | 0 <= i < |layout.parts| ::
                  1 <= layout.parts[i].number <= 10_000 && 1 <= layout.parts[i].plaintextLen)
            && (forall i, j | 0 <= i < j < |layout.parts| :: layout.parts[i].number < layout.parts[j].number)
            && PlainTo(layout, |layout.parts|) == layout.plaintextLen && layout.plaintextLen > 0
            && layout.plaintextLen + 16 * SegmentsTo(layout, |layout.parts|) < 0x1_0000_0000_0000_0000
  {
    if Acceptable(layout) {
      forall i, j | 0 <= i < j < |layout.parts| ensures layout.parts[i].number < layout.parts[j].number {
        PartNumbersIncrease(layout, i, j);
      }
      forall i | 0 <= i < |layout.parts| ensures 1 <= layout.parts[i].number <= 10_000 && 1 <= layout.parts[i].plaintextLen {
        assert PartOk(layout, i);
      }
    } else if (forall i | 0 <= i < |layout.parts| ::
                 1 <= layout.parts[i].number <= 10_000 && 1 <= layout.parts[i].plaintextLen)
      && (forall i, j | 0 <= i < j < |layout.parts| :: layout.parts[i].number < layout.parts[j].number)
    {
      RisingPartsOk(layout);
    }
  }

  lemma {:induction false} RisingPartsOk(layout: Layout)
    requires forall i | 0 <= i < |layout.parts| ::
               1 <= layout.parts[i].number <= 10_000 && 1 <= layout.parts[i].plaintextLen
    requires forall i, j | 0 <= i < j < |layout.parts| :: layout.parts[i].number < layout.parts[j].number
    ensures forall i | 0 <= i < |layout.parts| :: PartOk(layout, i)
  {
  }

  /** Validates bounds, part order and lengths, and gives the exact ciphertext length. */
  method StoredLen(layout: Layout) returns (stored: Option<U64>)
    ensures stored.Some? <==> Acceptable(layout)
    ensures stored.Some? ==> stored.value == StoredTo(layout, |layout.parts|)
  {
    if layout.chunkSize == 0 || layout.chunkSize > MAX_CHUNK || layout.plaintextLen == 0
       || layout.parts == [] || |layout.parts| > MAX_PARTS || |layout.keyId| == 0 || |layout.keyId| > 255
    {
      return None;
    }
    var previous, plaintext, sum := 0, 0, 0;
    for i := 0 to |layout.parts|
      invariant forall j | 0 <= j < i :: PartOk(layout, j)
      invariant previous == if i == 0 then 0 else layout.parts[i - 1].number
      invariant plaintext == PlainTo(layout, i) && sum == StoredTo(layout, i) < U64_LIMIT
    {
      SumsGrow(layout, i + 1, |layout.parts|);
      var part := layout.parts[i];
      if part.number <= previous || part.number > MAX_PARTS || part.plaintextLen == 0 {
        assert !PartOk(layout, i);
        return None;
      }
      previous := part.number;
      if plaintext + part.plaintextLen >= U64_LIMIT { return None; }
      plaintext := plaintext + part.plaintextLen;
      var tags := Segments(part.plaintextLen, layout.chunkSize) * 16;
      if tags >= U64_LIMIT || part.plaintextLen + tags >= U64_LIMIT || sum + (part.plaintextLen + tags) >= U64_LIMIT {
        return None;
      }
      sum := sum + (part.plaintextLen + tags);
    }
    stored := if plaintext == layout.plaintextLen then Some(sum) else None;
  }

  /** Part numbers increase throughout, so they identify the parts. */
  lemma {:induction false} PartNumbersIncrease(layout: Layout, i: nat, j: nat)
    requires Ordered(layout) && i < j < |layout.parts|
    ensures layout.parts[i].number < layout.parts[j].number
    decreases j
  {
    assert PartOk(layout, j);
    if i < j - 1 { PartNumbersIncrease(layout, i, j - 1); }
  }

  // ---------------------------------------------------------------- the indexed layout

  datatype Start = Start(plaintext: U64, ciphertext: U64, segment: U64)

  /** A validated layout with the prefix sums of its parts. */
  datatype Segmented = Segmented(
    layout: Layout,
    repositoryContext: Data,
    starts: seq<Start>,
    storedLen: U64,
    segmentCount: U64)

  /** A part start holds the sums over the parts before it. */
  ghost predicate Sums(layout: Layout, i: nat, start: Start)
    requires i <= |layout.parts| && layout.chunkSize > 0
  {
    && start.plaintext == PlainTo(layout, i)
    && start.ciphertext == StoredTo(layout, i)
    && start.segment == SegmentsTo(layout, i)
  }

  ghost predicate StartAt(s: Segmented, i: nat)
    requires i < |s.starts| == |s.layout.parts| && s.layout.chunkSize > 0
  {
    Sums(s.layout, i, s.starts[i])
  }

  ghost predicate Built(s: Segmented) {
    && Acceptable(s.layout)
    && 0 < |s.repositoryContext| <= 4096
    && |s.starts| == |s.layout.parts|
    && (forall i | 0 <= i < |s.starts| :: StartAt(s, i))
    && s.storedLen == StoredTo(s.layout, |s.layout.parts|)
    && s.segmentCount == SegmentsTo(s.layout, |s.layout.parts|)
  }

  /** Indexes an acceptable layout; none of the additions on the way can overflow. */
  method NewSegmented(layout: Layout, repositoryContext: Data) returns (s: Option<Segmented>)
    ensures s.Some? <==> Acceptable(layout) && 0 < |repositoryContext| <= 4096
    ensures s.Some? ==> Built(s.value) && s.value.layout == layout && s.value.repositoryContext == repositoryContext
  {
    var stored := StoredLen(layout);
    if stored.None? || repositoryContext == [] || |repositoryContext| > 4096 { return None; }
    var starts: seq<Start>, next := [], Start(0, 0, 0);
    for i := 0 to |layout.parts|
      invariant |starts| == i
      invariant forall j | 0 <= j < i :: Sums(layout, j, starts[j])
      invariant Sums(layout, i, next)
    {
      SumsGrow(layout, i + 1, |layout.parts|);
      var length := layout.parts[i].plaintextLen;
      var count := Segments(length, layout.chunkSize);
      starts := starts + [next];
      next := Start(next.plaintext + length, next.ciphertext + length + count * 16, next.segment + count);
    }
    var built := Segmented(layout, repositoryContext, starts, stored.value, next.segment);
    assert forall j | 0 <= j < |starts| :: StartAt(built, j);
    s := Some(built);
  }

  // ---------------------------------------------------------------- lookup

  /** How many leading parts start at or before a segment ordinal. */
  function LeadingBySegment(starts: seq<Start>, ordinal: nat): nat {
    if starts == [] || starts[0].segment > ordinal then 0 else 1 + LeadingBySegment(starts[1..], ordinal)
  }

  /** How many leading parts start at or before a plaintext offset. */
  function LeadingByByte(starts: seq<Start>, offset: nat): nat {
    if starts == [] || starts[0].plaintext > offset then 0 else 1 + LeadingByByte(starts[1..], offset)
  }

  lemma {:induction false} LeadingBySegmentIs(starts: seq<Start>, ordinal: nat, n: nat)
    requires n <= |starts| && forall j | 0 <= j < n :: starts[j].segment <= ordinal
    requires n < |starts| ==> starts[n].segment > ordinal
    ensures LeadingBySegment(starts, ordinal) == n
  {
    if n > 0 { LeadingBySegmentIs(starts[1..], ordinal, n - 1); }
  }

  lemma {:induction false} LeadingByByteIs(starts: seq<Start>, offset: nat, n: nat)
    requires n <= |starts| && forall j | 0 <= j < n :: starts[j].plaintext <= offset
    requires n < |starts| ==> starts[n].plaintext > offset
    ensures LeadingByByte(starts, offset) == n
  {
    if n > 0 { LeadingByByteIs(starts[1..], offset, n - 1); }
  }

  lemma {:induction false} PartOfSegment(layout: Layout, n: nat, k: nat) returns (i: nat)
    requires layout.chunkSize > 0 && n <= |layout.parts| && k < SegmentsTo(layout, n)
    ensures i < n && SegmentsTo(layout, i) <= k < SegmentsTo(layout, i + 1)
  {
    if k >= SegmentsTo(layout, n - 1) { i := n - 1; } else { i := PartOfSegment(layout, n - 1, k); }
  }

  lemma {:induction false} PartOfByte(layout: Layout, n: nat, offset: nat) returns (i: nat)
    requires n <= |layout.parts| && offset < PlainTo(layout, n)
    ensures i < n && PlainTo(layout, i) <= offset < PlainTo(layout, i + 1)
  {
    if offset >= PlainTo(layout, n - 1) { i := n - 1; } else { i := PartOfByte(layout, n - 1, offset); }
  }

  /** The part search by segment finds the part that holds the segment. */
  lemma {:induction false} LocateSegment(s: Segmented, i: nat, k: nat)
    requires Built(s) && i < |s.starts| && SegmentsTo(s.layout, i) <= k < SegmentsTo(s.layout, i + 1)
    ensures LeadingBySegment(s.starts, k) == i + 1
  {
    forall j | 0 <= j <= i ensures s.starts[j].segment <= k {
      assert StartAt(s, j);
      SumsGrow(s.layout, j, i);
    }
    if i + 1 < |s.starts| { assert StartAt(s, i + 1); }
    LeadingBySegmentIs(s.starts, k, i + 1);
  }

  /** The part search by byte finds the part that holds the byte. */
  lemma {:induction false} LocateByte(s: Segmented, i: nat, offset: nat)
    requires Built(s) && i < |s.starts| && PlainTo(s.layout, i) <= offset < PlainTo(s.layout, i + 1)
    ensures LeadingByByte(s.starts, offset) == i + 1
  {
    forall j | 0 <= j <= i ensures s.starts[j].plaintext <= offset {
      assert StartAt(s, j);
      SumsGrow(s.layout, j, i);
    }
    if i + 1 < |s.starts| { assert StartAt(s, i + 1); }
    LeadingByByteIs(s.starts, offset, i + 1);
  }

  // ---------------------------------------------------------------- segments

  datatype Facts = Facts(
    part: Part,
    ordinal: U64,
    plaintextLen: U64,
    plaintextOffset: U64,
    ciphertextOffset: U64,
    isFinal: bool)

  /** What holds of segment `j` of part `i` that makes every step of the lookup safe. */
  lemma {:induction false} LocalFacts(s: Segmented, i: nat, j: nat)
    requires Built(s) && i < |s.layout.parts| && j < Segments(s.layout.parts[i].plaintextLen, s.layout.chunkSize)
    ensures var length, local := s.layout.parts[i].plaintextLen, Chunks(j, s.layout.chunkSize);
            && local < length
            && (j + 1 == Segments(length, s.layout.chunkSize) <==> length - local <= s.layout.chunkSize)
            && PlainTo(s.layout, i) + length <= s.layout.plaintextLen
            && StoredTo(s.layout, i) + length + 16 * (j + 1) <= s.storedLen
            && StartAt(s, i)
  {
    assert PartOk(s.layout, i);
    SegmentsBound(s.layout.parts[i].plaintextLen, s.layout.chunkSize, j);
    SumsGrow(s.layout, i + 1, |s.layout.parts|);
  }

  /** The facts of one segment of a part. */
  function FactsOf(start: Start, part: Part, chunk: U64, relative: U64): Facts
    requires Chunks(relative, chunk) < part.plaintextLen && start.plaintext + part.plaintextLen < U64_LIMIT
    requires start.ciphertext + part.plaintextLen + relative * 16 < U64_LIMIT
  {
    var localOffset: U64 := Chunks(relative, chunk);
    var remaining: U64 := part.plaintextLen - localOffset;
    var plaintextLen: U64 := if remaining < chunk then remaining else chunk;
    Facts(part, relative, plaintextLen,
          start.plaintext + localOffset,
          start.ciphertext + localOffset + relative * 16,
          localOffset + plaintextLen == part.plaintextLen)
  }

  /** The exact facts of one segment, by its ordinal in the whole payload. */
  function Segment(s: Segmented, ordinal: nat): (r: Option<Facts>)
    requires Built(s)
  {
    if ordinal >= s.segmentCount then None
    else
      SegmentSafe(s, ordinal);
      var partIndex := LeadingBySegment(s.starts, ordinal) - 1;
      Some(FactsOf(s.starts[partIndex], s.layout.parts[partIndex], s.layout.chunkSize,
                   ordinal - s.starts[partIndex].segment))
  }

  /** Every step of looking up segment `ordinal` in part `i` is in range. */
  ghost predicate SafeIn(s: Segmented, i: int, ordinal: nat)
    requires |s.starts| == |s.layout.parts|
  {
    && 0 <= i < |s.starts|
    && s.starts[i].segment <= ordinal
    && Chunks(ordinal - s.starts[i].segment, s.layout.chunkSize) < s.layout.parts[i].plaintextLen
    && s.starts[i].plaintext + s.layout.parts[i].plaintextLen < U64_LIMIT
    && s.starts[i].ciphertext + s.layout.parts[i].plaintextLen + (ordinal - s.starts[i].segment) * 16 < U64_LIMIT
  }

  /** No step of the segment lookup underflows or overflows. */
  lemma {:induction false} SegmentSafe(s: Segmented, ordinal: nat)
    requires Built(s) && ordinal < s.segmentCount
    ensures SafeIn(s, LeadingBySegment(s.starts, ordinal) - 1, ordinal)
  {
    var i := PartOfSegment(s.layout, |s.layout.parts|, ordinal);
    LocateSegment(s, i, ordinal);
    SafeInPart(s, i, ordinal - SegmentsTo(s.layout, i), ordinal);
  }

  lemma {:induction false} SafeInPart(s: Segmented, i: nat, j: nat, k: nat)
    requires Built(s) && i < |s.layout.parts| && j < Segments(s.layout.parts[i].plaintextLen, s.layout.chunkSize)
    requires k == SegmentsTo(s.layout, i) + j
    ensures SafeIn(s, i, k) && k - s.starts[i].segment == j
  {
    LocalFacts(s, i, j);
  }

  /** Segment `j` of part `i`, spelled out. */
  ghost predicate Expected(s: Segmented, i: nat, j: nat, f: Facts)
    requires i < |s.layout.parts| && s.layout.chunkSize > 0
  {
    var part, local := s.layout.parts[i], Chunks(j, s.layout.chunkSize);
    var rest := part.plaintextLen - local;
    && f.part == part && f.ordinal == j
    && f.plaintextLen == (if rest < s.layout.chunkSize then rest else s.layout.chunkSize)
    && f.plaintextOffset == PlainTo(s.layout, i) + local
    && f.ciphertextOffset == StoredTo(s.layout, i) + local + 16 * j
    && (f.isFinal <==> j + 1 == Segments(part.plaintextLen, s.layout.chunkSize))
  }

  lemma {:induction false} SegmentFound(s: Segmented, i: nat, j: nat, k: nat)
    requires Built(s) && i < |s.layout.parts| && j < Segments(s.layout.parts[i].plaintextLen, s.layout.chunkSize)
    requires k == SegmentsTo(s.layout, i) + j
    ensures k < s.segmentCount && SafeIn(s, i, k) && k - s.starts[i].segment == j
    ensures Segment(s, k) ==
            Some(FactsOf(s.starts[i], s.layout.parts[i], s.layout.chunkSize, k - s.starts[i].segment))
  {
    SumsGrow(s.layout, i + 1, |s.layout.parts|);
    SafeInPart(s, i, j, k);
    LocateSegment(s, i, k);
    assert LeadingBySegment(s.starts, k) - 1 == i;
  }

  lemma {:induction false} SegmentIs(s: Segmented, i: nat, j: nat, k: nat)
    requires Built(s) && i < |s.layout.parts| && j < Segments(s.layout.parts[i].plaintextLen, s.layout.chunkSize)
    requires k == SegmentsTo(s.layout, i) + j
    ensures k < s.segmentCount && Segment(s, k).Some? && Expected(s, i, j, Segment(s, k).value)
  {
    SegmentFound(s, i, j, k);
    FactsAre(s, i, k - s.starts[i].segment);
  }

  lemma {:induction false} FactsAre(s: Segmented, i: nat, j: U64)
    requires Built(s) && i < |s.layout.parts| && j < Segments(s.layout.parts[i].plaintextLen, s.layout.chunkSize)
    requires var start, part := s.starts[i], s.layout.parts[i];
             Chunks(j, s.layout.chunkSize) < part.plaintextLen && start.plaintext + part.plaintextLen < U64_LIMIT
             && start.ciphertext + part.plaintextLen + j * 16 < U64_LIMIT
    ensures Expected(s, i, j, FactsOf(s.starts[i], s.layout.parts[i], s.layout.chunkSize, j))
  {
    LocalFacts(s, i, j);
  }

  /** One segment starts where another ends, in the plaintext and in the ciphertext. */
  ghost predicate Follows(f: Facts, g: Facts) {
    && f.plaintextOffset + f.plaintextLen == g.plaintextOffset
    && f.ciphertextOffset + f.plaintextLen + 16 == g.ciphertextOffset
  }

  lemma {:induction false} TileWithin(s: Segmented, i: nat, j: nat, f: Facts, g: Facts)
    requires Built(s) && i < |s.layout.parts| && j + 1 < Segments(s.layout.parts[i].plaintextLen, s.layout.chunkSize)
    requires Expected(s, i, j, f) && Expected(s, i, j + 1, g)
    ensures Follows(f, g)
  {
    LocalFacts(s, i, j);
    LocalFacts(s, i, j + 1);
  }

  lemma {:induction false} TileAcross(s: Segmented, i: nat, j: nat, f: Facts)
    requires Built(s) && i < |s.layout.parts| && j + 1 == Segments(s.layout.parts[i].plaintextLen, s.layout.chunkSize)
    requires Expected(s, i, j, f)
    ensures f.plaintextOffset + f.plaintextLen == PlainTo(s.layout, i + 1)
    ensures f.ciphertextOffset + f.plaintextLen + 16 == StoredTo(s.layout, i + 1)
  {
    LocalFacts(s, i, j);
  }

  /** The part and the place in it of a segment. */
  lemma {:induction false} Whereabouts(s: Segmented, k: nat) returns (i: nat, j: nat)
    requires Built(s) && k < s.segmentCount
    ensures i < |s.layout.parts| && j < Segments(s.layout.parts[i].plaintextLen, s.layout.chunkSize)
    ensures k == SegmentsTo(s.layout, i) + j && Segment(s, k).Some? && Expected(s, i, j, Segment(s, k).value)
  {
    i := PartOfSegment(s.layout, |s.layout.parts|, k);
    j := k - SegmentsTo(s.layout, i);
    SegmentIs(s, i, j, k);
  }

  /** A segment is non-empty and at most a chunk, its tags precede it in the ciphertext, and the
      first and the last ones meet the ends. */
  ghost predicate Placed(s: Segmented, k: nat, f: Facts) {
    && 0 < f.plaintextLen <= s.layout.chunkSize
    && f.ciphertextOffset == f.plaintextOffset + 16 * k
    && (k == 0 ==> f.plaintextOffset == 0)
    && (k + 1 == s.segmentCount ==>
          && f.plaintextOffset + f.plaintextLen == s.layout.plaintextLen
          && f.ciphertextOffset + f.plaintextLen + 16 == s.storedLen)
  }

  lemma {:induction false} ExpectedPlaced(s: Segmented, i: nat, j: nat, k: nat, f: Facts)
    requires Built(s) && i < |s.layout.parts| && j < Segments(s.layout.parts[i].plaintextLen, s.layout.chunkSize)
    requires k == SegmentsTo(s.layout, i) + j && Expected(s, i, j, f)
    ensures Placed(s, k, f)
  {
    LocalFacts(s, i, j);
    if k == 0 { FirstPart(s, i); }
    if k + 1 == s.segmentCount {
      LastPart(s, i, j);
      TileAcross(s, i, j, f);
    }
  }

  lemma {:induction false} LastPart(s: Segmented, i: nat, j: nat)
    requires Built(s) && i < |s.layout.parts| && j < Segments(s.layout.parts[i].plaintextLen, s.layout.chunkSize)
    requires SegmentsTo(s.layout, i) + j + 1 == s.segmentCount
    ensures i + 1 == |s.layout.parts| && j + 1 == Segments(s.layout.parts[i].plaintextLen, s.layout.chunkSize)
  {
    SumsGrow(s.layout, i + 1, |s.layout.parts|);
    if i + 1 < |s.layout.parts| {
      PartHasSegments(s, i + 1);
    }
  }

  /** The segments tile the plaintext and the ciphertext: each starts where the one before ends, the
      first at zero and the last at the total; every one is non-empty and at most a chunk. */
  lemma {:induction false} SegmentsTile(s: Segmented, k: nat)
    requires Built(s) && k < s.segmentCount
    ensures Segment(s, k).Some? && Placed(s, k, Segment(s, k).value)
    ensures k + 1 < s.segmentCount ==> Segment(s, k + 1).Some? && Follows(Segment(s, k).value, Segment(s, k + 1).value)
  {
    var i, j := Whereabouts(s, k);
    ExpectedPlaced(s, i, j, k, Segment(s, k).value);
    if k + 1 < s.segmentCount {
      var i', j' := Whereabouts(s, k + 1);
      ExpectedFollows(s, i, j, Segment(s, k).value, i', j', Segment(s, k + 1).value);
    }
  }

  lemma {:induction false} ExpectedFollows(s: Segmented, i: nat, j: nat, f: Facts, i': nat, j': nat, g: Facts)
    requires Built(s) && i < |s.layout.parts| && j < Segments(s.layout.parts[i].plaintextLen, s.layout.chunkSize)
    requires i' < |s.layout.parts| && j' < Segments(s.layout.parts[i'].plaintextLen, s.layout.chunkSize)
    requires SegmentsTo(s.layout, i') + j' == SegmentsTo(s.layout, i) + j + 1
    requires Expected(s, i, j, f) && Expected(s, i', j', g)
    ensures Follows(f, g)
  {
    if j + 1 < Segments(s.layout.parts[i].plaintextLen, s.layout.chunkSize) {
      SamePart(s, i, j + 1, i', j');
      TileWithin(s, i, j, f, g);
    } else {
      TileAcross(s, i, j, f);
      NextPart(s, i, i', j');
    }
  }

  lemma {:induction false} NextPart(s: Segmented, i: nat, i': nat, j': nat)
    requires Built(s) && i < |s.layout.parts| && i' < |s.layout.parts|
    requires j' < Segments(s.layout.parts[i'].plaintextLen, s.layout.chunkSize)
    requires SegmentsTo(s.layout, i') + j' == SegmentsTo(s.layout, i + 1)
    ensures i' == i + 1 && j' == 0
  {
    SumsGrow(s.layout, i' + 1, |s.layout.parts|);
    if i + 1 < |s.layout.parts| {
      PartHasSegments(s, i + 1);
      SamePart(s, i + 1, 0, i', j');
    }
  }

  /** A segment has one place. */
  lemma {:induction false} SamePart(s: Segmented, i: nat, j: nat, i': nat, j': nat)
    requires Built(s) && i < |s.layout.parts| && j < Segments(s.layout.parts[i].plaintextLen, s.layout.chunkSize)
    requires i' < |s.layout.parts| && j' < Segments(s.layout.parts[i'].plaintextLen, s.layout.chunkSize)
    requires SegmentsTo(s.layout, i') + j' == SegmentsTo(s.layout, i) + j
    ensures i == i' && j == j'
  {
    LocateSegment(s, i, SegmentsTo(s.layout, i) + j);
    LocateSegment(s, i', SegmentsTo(s.layout, i) + j);
  }

  lemma {:induction false} PartHasSegments(s: Segmented, i: nat)
    requires Built(s) && i < |s.layout.parts|
    ensures Segments(s.layout.parts[i].plaintextLen, s.layout.chunkSize) > 0
    ensures SegmentsTo(s.layout, i) < SegmentsTo(s.layout, i + 1) <= s.segmentCount
  {
    assert PartOk(s.layout, i);
    SumsGrow(s.layout, i + 1, |s.layout.parts|);
  }

  lemma {:induction false} FirstPart(s: Segmented, i: nat)
    requires Built(s) && i < |s.layout.parts| && SegmentsTo(s.layout, i) == 0
    ensures i == 0
  {
    PartHasSegments(s, 0);
    if i > 0 { SumsGrow(s.layout, 1, i); }
  }

  /** The segment holding a plaintext byte. */
  function SegmentAtByte(s: Segmented, offset: nat): (r: Option<U64>)
    requires Built(s)
  {
    if offset >= s.layout.plaintextLen then None
    else
      ByteSafe(s, offset);
      var start := s.starts[LeadingByByte(s.starts, offset) - 1];
      Some(start.segment + Quotient(offset - start.plaintext, s.layout.chunkSize))
  }

  lemma {:induction false} ByteSafe(s: Segmented, offset: nat)
    requires Built(s) && offset < s.layout.plaintextLen
    ensures 0 < LeadingByByte(s.starts, offset) <= |s.starts|
    ensures var start := s.starts[LeadingByByte(s.starts, offset) - 1];
            && start.plaintext <= offset
            && start.segment + Quotient(offset - start.plaintext, s.layout.chunkSize) < s.segmentCount
  {
    var i := PartOfByte(s.layout, |s.layout.parts|, offset);
    LocateByte(s, i, offset);
    assert StartAt(s, i);
    var d, chunk, length := offset - PlainTo(s.layout, i), s.layout.chunkSize, s.layout.parts[i].plaintextLen;
    QuotientBelow(d, length, chunk);
    SumsGrow(s.layout, i + 1, |s.layout.parts|);
  }

  /** Whole chunks in `d` bytes: the quotient, counted down (`QuotientIs`). */
  function Quotient(d: nat, chunk: nat): nat
    requires chunk > 0
    decreases d
  {
    if d < chunk then 0 else 1 + Quotient(d - chunk, chunk)
  }

  lemma {:induction false} QuotientIs(d: nat, chunk: nat)
    requires chunk > 0
    ensures Quotient(d, chunk) == d / chunk
    decreases d
  {
    if d < chunk {
      DivUnique(d, chunk, 0, d);
    } else {
      QuotientIs(d - chunk, chunk);
      var q, r := (d - chunk) / chunk, (d - chunk) % chunk;
      assert d == (q + 1) * chunk + r;
      DivUnique(d, chunk, q + 1, r);
    }
  }

  lemma {:induction false} QuotientBelow(d: nat, length: nat, chunk: nat)
    requires chunk > 0 && d < length
    ensures Quotient(d, chunk) < Segments(length, chunk)
    ensures Chunks(Quotient(d, chunk), chunk) <= d < Chunks(Quotient(d, chunk), chunk) + chunk
    decreases d
  {
    if d >= chunk {
      QuotientBelow(d - chunk, length - chunk, chunk);
      ChunksShift(Quotient(d - chunk, chunk), chunk);
    }
  }

  /** `SegmentAtByte` is the inverse of segment offsets: it names the segment whose bytes include
      the offset. */
  lemma {:induction false} SegmentAtByteHolds(s: Segmented, offset: nat)
    requires Built(s) && offset < s.layout.plaintextLen
    ensures SegmentAtByte(s, offset).Some? && SegmentAtByte(s, offset).value < s.segmentCount
    ensures Contains(Segment(s, SegmentAtByte(s, offset).value), offset)
  {
    var i := PartOfByte(s.layout, |s.layout.parts|, offset);
    LocateByte(s, i, offset);
    ByteSafe(s, offset);
    assert StartAt(s, i);
    var d, chunk := offset - PlainTo(s.layout, i), s.layout.chunkSize;
    QuotientBelow(d, s.layout.parts[i].plaintextLen, chunk);
    var k, j := SegmentAtByte(s, offset).value, Quotient(d, chunk);
    assert k == SegmentsTo(s.layout, i) + j;
    SegmentIs(s, i, j, k);
    ExpectedContains(s, i, j, Segment(s, k).value, offset);
  }

  ghost predicate Contains(f: Option<Facts>, offset: nat) {
    f.Some? && f.value.plaintextOffset <= offset < f.value.plaintextOffset + f.value.plaintextLen
  }

  lemma {:induction false} ExpectedContains(s: Segmented, i: nat, j: nat, f: Facts, offset: nat)
    requires Built(s) && i < |s.layout.parts| && j < Segments(s.layout.parts[i].plaintextLen, s.layout.chunkSize)
    requires Expected(s, i, j, f) && PlainTo(s.layout, i) <= offset < PlainTo(s.layout, i + 1)
    requires var d := offset - PlainTo(s.layout, i);
             Chunks(j, s.layout.chunkSize) <= d < Chunks(j, s.layout.chunkSize) + s.layout.chunkSize
    ensures Contains(Some(f), offset)
  {
    LocalFacts(s, i, j);
  }

  /** Offsets never go down from one segment to a later one, so a byte lies in one segment only. */
  lemma {:induction false} OffsetsIncrease(s: Segmented, k: nat, m: nat)
    requires Built(s) && k < m < s.segmentCount
    ensures Segment(s, k).value.plaintextOffset + Segment(s, k).value.plaintextLen <= Segment(s, m).value.plaintextOffset
    decreases m
  {
    SegmentsTile(s, m - 1);
    if k < m - 1 { OffsetsIncrease(s, k, m - 1); }
  }

  lemma {:induction false} SegmentAtByteInverts(s: Segmented, k: nat, d: nat)
    requires Built(s) && k < s.segmentCount && d < Segment(s, k).value.plaintextLen
    ensures SegmentAtByte(s, Segment(s, k).value.plaintextOffset + d) == Some(k)
  {
    SegmentEnds(s, k);
    var offset := Segment(s, k).value.plaintextOffset + d;
    SegmentAtByteHolds(s, offset);
    var m := SegmentAtByte(s, offset).value;
    if m < k { OffsetsIncrease(s, m, k); }
    if k < m { OffsetsIncrease(s, k, m); }
  }

  lemma {:induction false} SegmentEnds(s: Segmented, k: nat)
    requires Built(s) && k < s.segmentCount
    ensures var f := Segment(s, k).value;
            && f.plaintextOffset + f.plaintextLen <= s.layout.plaintextLen
            && f.ciphertextOffset + f.plaintextLen + 16 <= s.storedLen
  {
    SegmentsTile(s, k);
    SegmentsTile(s, s.segmentCount - 1);
    if k < s.segmentCount - 1 {
      OffsetsIncrease(s, k, s.segmentCount - 1);
      assert 16 * k + 16 <= 16 * (s.segmentCount - 1);
    }
  }
}
