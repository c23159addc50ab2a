/** Sealing payloads segment by segment and reading byte ranges of them back, from ciphertext or
    from cached segments. */
module PayloadRange {
  import opened Prelude
  import opened Types
  import opened Wire
  import opened SegmentContext
  import opened SegmentAead
  import opened PayloadLayout

  /** The context of a segment of a detached payload. */
  function ContextFor(s: Segmented, objectId: Text, f: Facts): Context {
    Context(s.repositoryContext, objectId, None, s.layout.carrierId, f.part.attemptId, f.part.number,
            f.ordinal, f.plaintextLen, f.isFinal, BigEndian(s.layout.chunkSize, 8))
  }

  /** No two segments of a layout share a nonce context. */
  lemma {:induction false} NonceContextsDistinct(s: Segmented, objectId: Text, k: nat, m: nat)
    requires Built(s) && k < s.segmentCount && m < s.segmentCount
    requires NonceBytes(ContextFor(s, objectId, Segment(s, k).value))
          == NonceBytes(ContextFor(s, objectId, Segment(s, m).value))
    ensures k == m
  {
    var i, j := Whereabouts(s, k);
    var i', j' := Whereabouts(s, m);
    NonceInjective(ContextFor(s, objectId, Segment(s, k).value), ContextFor(s, objectId, Segment(s, m).value), [], []);
    if i < i' { PartNumbersIncrease(s.layout, i, i'); }
    if i' < i { PartNumbersIncrease(s.layout, i', i); }
  }

  // ---------------------------------------------------------------- tilings

  /** A tile is non-empty, follows the one before without a gap, and the ends meet the totals. */
  ghost predicate TileAt(t: seq<Facts>, k: nat, plaintextLen: nat, storedLen: nat)
    requires k < |t|
  {
    && t[k].plaintextLen > 0
    && t[k].ciphertextOffset == t[k].plaintextOffset + 16 * k
    && (k == 0 ==> t[k].plaintextOffset == 0)
    && t[k].plaintextOffset + t[k].plaintextLen == (if k + 1 < |t| then t[k + 1].plaintextOffset else plaintextLen)
    && (k + 1 == |t| ==> t[k].ciphertextOffset + t[k].plaintextLen + 16 == storedLen)
  }

  ghost predicate Tiled(t: seq<Facts>, plaintextLen: nat, storedLen: nat) {
    |t| > 0 && forall k | 0 <= k < |t| :: TileAt(t, k, plaintextLen, storedLen)
  }

  /** All segments of a layout in order. */
  ghost function Table(s: Segmented): (t: seq<Facts>)
    requires Built(s)
    ensures |t| == s.segmentCount
  {
    seq(s.segmentCount, k requires 0 <= k < s.segmentCount => SegmentsTile(s, k); Segment(s, k).value)
  }

  ghost predicate EntryAt(s: Segmented, t: seq<Facts>, k: nat)
    requires Built(s) && k < |t|
  {
    Segment(s, k) == Some(t[k])
  }

  /** A table lists the segments of a layout. */
  ghost predicate Lists(s: Segmented, t: seq<Facts>)
    requires Built(s)
  {
    forall k | 0 <= k < |t| :: EntryAt(s, t, k)
  }

  lemma {:induction false} TableLists(s: Segmented)
    requires Built(s)
    ensures Lists(s, Table(s))
  {
    forall k | 0 <= k < |Table(s)| ensures EntryAt(s, Table(s), k) {
      TableHas(s, k);
    }
  }

  lemma {:induction false} TableTiled(s: Segmented)
    requires Built(s)
    ensures Tiled(Table(s), s.layout.plaintextLen, s.storedLen)
  {
    var t := Table(s);
    PartHasSegments(s, 0);
    forall k | 0 <= k < |t| ensures TileAt(t, k, s.layout.plaintextLen, s.storedLen) {
      SegmentsTile(s, k);
    }
  }

  /** Later tiles start behind earlier ones, in both coordinates. */
  lemma {:induction false} TilesAdvance(t: seq<Facts>, plaintextLen: nat, storedLen: nat, k: nat, m: nat)
    requires Tiled(t, plaintextLen, storedLen) && k <= m < |t|
    ensures k < m ==> t[k].plaintextOffset + t[k].plaintextLen <= t[m].plaintextOffset
    ensures k < m ==> t[k].ciphertextOffset + t[k].plaintextLen + 16 <= t[m].ciphertextOffset
    ensures t[m].plaintextOffset + t[m].plaintextLen <= plaintextLen
    ensures t[m].ciphertextOffset + t[m].plaintextLen + 16 <= storedLen
    decreases |t| - k, m
  {
    assert TileAt(t, m, plaintextLen, storedLen);
    if k < m {
      assert TileAt(t, m - 1, plaintextLen, storedLen) && TileAt(t, k, plaintextLen, storedLen);
      TilesAdvance(t, plaintextLen, storedLen, k, m - 1);
    }
    TileEnds(t, plaintextLen, storedLen, m);
  }

  lemma {:induction false} TileEnds(t: seq<Facts>, plaintextLen: nat, storedLen: nat, k: nat)
    requires Tiled(t, plaintextLen, storedLen) && k < |t|
    ensures t[k].plaintextOffset + t[k].plaintextLen <= plaintextLen
    ensures t[k].ciphertextOffset + t[k].plaintextLen + 16 <= storedLen
    decreases |t| - k
  {
    assert TileAt(t, k, plaintextLen, storedLen);
    if k + 1 < |t| {
      assert TileAt(t, k + 1, plaintextLen, storedLen);
      TileEnds(t, plaintextLen, storedLen, k + 1);
    }
  }

  // ---------------------------------------------------------------- sealed payloads

  /** The bytes of a segment of the plaintext. */
  ghost function Piece(t: seq<Facts>, plaintext: Data, k: nat): Data
    requires k < |t| && t[k].plaintextOffset + t[k].plaintextLen <= |plaintext|
  {
    plaintext[t[k].plaintextOffset..t[k].plaintextOffset + t[k].plaintextLen]
  }

  /** The bytes of a segment of the ciphertext. */
  ghost function SealedPiece(t: seq<Facts>, body: Data, k: nat): Data
    requires k < |t| && t[k].ciphertextOffset + t[k].plaintextLen + 16 <= |body|
  {
    body[t[k].ciphertextOffset..t[k].ciphertextOffset + t[k].plaintextLen + 16]
  }

  ghost predicate SealedAt(aead: Aead, s: Segmented, objectId: Text, t: seq<Facts>, plaintext: Data, body: Data, k: nat)
  {
    && k < |t| && t[k].plaintextOffset + t[k].plaintextLen <= |plaintext|
    && t[k].ciphertextOffset + t[k].plaintextLen + 16 <= |body|
    && SealSegment(aead, s.layout.keyId, ContextFor(s, objectId, t[k]), Piece(t, plaintext, k))
       == Some(SealedPiece(t, body, k))
  }

  /** A stored payload: every segment of the body is the sealed segment of the plaintext. */
  ghost predicate Sealed(aead: Aead, s: Segmented, objectId: Text, plaintext: Data, body: Data) {
    && Built(s) && |plaintext| == s.layout.plaintextLen && |body| == s.storedLen
    && forall k | 0 <= k < s.segmentCount :: SealedAt(aead, s, objectId, Table(s), plaintext, body, k)
  }

  // ---------------------------------------------------------------- ranges

  datatype ByteRange = Full | Slice(offset: U64, len: U64)

  datatype Selection = Selection(start: U64, end: U64, startSegment: U64, endSegment: U64)

  datatype Span = Span(offset: U64, len: U64, startSegment: U64, segmentCount: U64)

  /** The bytes a range asks for, if it is non-empty and within the plaintext. */
  function Bounds(s: Segmented, range: ByteRange): Option<(U64, U64)> {
    match range
    case Full => Some((0, s.layout.plaintextLen))
    case Slice(offset, len) =>
      if len == 0 || offset + len > s.layout.plaintextLen then None else Some((offset, offset + len))
  }

  /** The selected segments are the first to the last that hold wanted bytes. */
  ghost predicate Selects(t: seq<Facts>, x: Selection) {
    && x.start < x.end
    && x.startSegment < |t| && 0 < x.endSegment <= |t|
    && Contains(Some(t[x.startSegment]), x.start)
    && Contains(Some(t[x.endSegment - 1]), x.end - 1)
  }

  function Select(s: Segmented, range: ByteRange): (r: Option<Selection>)
    requires Built(s)
    ensures r.Some? <==> range.Full? || (0 < range.len && range.offset + range.len <= s.layout.plaintextLen)
    ensures r.Some? ==> Selects(Table(s), r.value)
    ensures r.Some? && range.Full? ==> r.value.start == 0 && r.value.end == s.layout.plaintextLen
    ensures r.Some? && range.Slice? ==> r.value.start == range.offset && r.value.end == range.offset + range.len
  {
    var bounds :- Bounds(s, range);
    var (start, end) := bounds;
    SegmentAtByteHolds(s, start);
    SegmentAtByteHolds(s, end - 1);
    Some(Selection(start, end, SegmentAtByte(s, start).value, SegmentAtByte(s, end - 1).value + 1))
  }

  lemma {:induction false} SelectionOrdered(t: seq<Facts>, plaintextLen: nat, storedLen: nat, x: Selection)
    requires Tiled(t, plaintextLen, storedLen) && Selects(t, x)
    ensures x.startSegment < x.endSegment && x.end <= plaintextLen
  {
    TilesAdvance(t, plaintextLen, storedLen, x.endSegment - 1, x.endSegment - 1);
    if x.endSegment <= x.startSegment {
      TilesAdvance(t, plaintextLen, storedLen, x.endSegment - 1, x.startSegment);
    }
  }

  /** The contiguous ciphertext that covers the selected segments. */
  function CiphertextSpan(s: Segmented, range: ByteRange): (r: Option<Span>)
    requires Built(s)
    ensures r.Some? <==> Select(s, range).Some?
    ensures r.Some? ==> Spans(Table(s), Select(s, range).value, r.value) && r.value.offset + r.value.len <= s.storedLen
  {
    var x :- Select(s, range);
    SpanFacts(s, x);
    var first, last := Segment(s, x.startSegment).value, Segment(s, x.endSegment - 1).value;
    Some(Span(first.ciphertextOffset,
              last.ciphertextOffset + last.plaintextLen + 16 - first.ciphertextOffset,
              x.startSegment, x.endSegment - x.startSegment))
  }

  lemma {:induction false} SpanFacts(s: Segmented, x: Selection)
    requires Built(s) && Selects(Table(s), x)
    ensures x.startSegment < x.endSegment
    ensures Segment(s, x.startSegment) == Some(Table(s)[x.startSegment])
    ensures Segment(s, x.endSegment - 1) == Some(Table(s)[x.endSegment - 1])
    ensures var first, last := Table(s)[x.startSegment], Table(s)[x.endSegment - 1];
            first.ciphertextOffset < last.ciphertextOffset + last.plaintextLen + 16 <= s.storedLen
  {
    TableTiled(s);
    SelectionOrdered(Table(s), s.layout.plaintextLen, s.storedLen, x);
    SpanOrdered(Table(s), s.layout.plaintextLen, s.storedLen, x.startSegment, x.endSegment - 1);
    TableHas(s, x.startSegment);
    TableHas(s, x.endSegment - 1);
  }

  lemma {:induction false} TableHas(s: Segmented, k: nat)
    requires Built(s) && k < s.segmentCount
    ensures Segment(s, k) == Some(Table(s)[k])
  {
    SegmentsTile(s, k);
  }

  lemma {:induction false} SpanOrdered(t: seq<Facts>, plaintextLen: nat, storedLen: nat, k: nat, m: nat)
    requires Tiled(t, plaintextLen, storedLen) && k <= m < |t|
    ensures t[k].ciphertextOffset < t[m].ciphertextOffset + t[m].plaintextLen + 16 <= storedLen
  {
    TilesAdvance(t, plaintextLen, storedLen, k, m);
  }

  ghost predicate Spans(t: seq<Facts>, x: Selection, span: Span) {
    && x.startSegment < x.endSegment <= |t|
    && span.startSegment == x.startSegment && span.segmentCount == x.endSegment - x.startSegment
    && span.offset == t[x.startSegment].ciphertextOffset
    && span.offset + span.len == t[x.endSegment - 1].ciphertextOffset + t[x.endSegment - 1].plaintextLen + 16
  }

  // ---------------------------------------------------------------- assembling

  /** Every selected segment holds wanted bytes, so the overlap below never underflows. */
  ghost predicate Overlaps(x: Selection, f: Facts) {
    x.start < f.plaintextOffset + f.plaintextLen && f.plaintextOffset < x.end
  }

  lemma {:induction false} SelectedOverlaps(t: seq<Facts>, plaintextLen: nat, storedLen: nat, x: Selection, k: nat)
    requires Tiled(t, plaintextLen, storedLen) && Selects(t, x) && x.startSegment <= k < x.endSegment
    ensures Overlaps(x, t[k])
  {
    TilesAdvance(t, plaintextLen, storedLen, x.startSegment, k);
    TilesAdvance(t, plaintextLen, storedLen, k, x.endSegment - 1);
    assert TileAt(t, k, plaintextLen, storedLen);
  }

  /** Where the wanted bytes of a segment start and end in the plaintext. */
  function From(x: Selection, f: Facts): nat {
    if x.start < f.plaintextOffset then f.plaintextOffset else x.start
  }

  function To(x: Selection, f: Facts): nat {
    if x.end < f.plaintextOffset + f.plaintextLen then x.end else f.plaintextOffset + f.plaintextLen
  }

  /** The wanted bytes of one segment. */
  function Overlap(x: Selection, f: Facts, plaintext: Data): Data
    requires x.start < x.end && Overlaps(x, f) && |plaintext| == f.plaintextLen
  {
    plaintext[From(x, f) - f.plaintextOffset..To(x, f) - f.plaintextOffset]
  }

  /** Segments that fit a selection: each overlaps it and has its length. */
  ghost predicate Measured(t: seq<Facts>, x: Selection, segments: seq<Data>) {
    && x.start < x.end && x.startSegment + |segments| <= |t|
    && forall i | 0 <= i < |segments| :: MeasuredAt(t, x, segments, i)
  }

  ghost predicate MeasuredAt(t: seq<Facts>, x: Selection, segments: seq<Data>, i: nat)
    requires i < |segments| && x.startSegment + |segments| <= |t|
  {
    Overlaps(x, t[x.startSegment + i]) && |segments[i]| == t[x.startSegment + i].plaintextLen
  }

  /** The wanted bytes of the first `n` selected segments. */
  ghost function Assembled(t: seq<Facts>, x: Selection, segments: seq<Data>, n: nat): Data
    requires Measured(t, x, segments) && n <= |segments|
  {
    if n == 0 then []
    else
      assert MeasuredAt(t, x, segments, n - 1);
      Assembled(t, x, segments, n - 1) + Overlap(x, t[x.startSegment + n - 1], segments[n - 1])
  }

  /** How far into the plaintext the first `n` selected segments reach. */
  ghost function Reach(t: seq<Facts>, x: Selection, n: nat): nat
    requires x.startSegment + n <= |t|
  {
    if n == 0 then x.start
    else if x.startSegment + n == x.endSegment then x.end
    else t[x.startSegment + n - 1].plaintextOffset + t[x.startSegment + n - 1].plaintextLen
  }

  /** The segments of a plaintext, as selected. */
  ghost predicate Cut(t: seq<Facts>, x: Selection, plaintext: Data, segments: seq<Data>) {
    && x.startSegment + |segments| <= |t|
    && forall i | 0 <= i < |segments| :: CutAt(t, x, plaintext, segments, i)
  }

  ghost predicate CutAt(t: seq<Facts>, x: Selection, plaintext: Data, segments: seq<Data>, i: nat)
    requires i < |segments| && x.startSegment + |segments| <= |t|
  {
    var k := x.startSegment + i;
    t[k].plaintextOffset + t[k].plaintextLen <= |plaintext| && segments[i] == Piece(t, plaintext, k)
  }

  lemma {:induction false} CutMeasured(t: seq<Facts>, x: Selection, plaintext: Data, storedLen: nat, segments: seq<Data>)
    requires Tiled(t, |plaintext|, storedLen) && Selects(t, x) && Cut(t, x, plaintext, segments)
    requires x.startSegment + |segments| <= x.endSegment
    ensures Measured(t, x, segments)
  {
    forall i | 0 <= i < |segments| ensures MeasuredAt(t, x, segments, i) {
      assert CutAt(t, x, plaintext, segments, i);
      SelectedOverlaps(t, |plaintext|, storedLen, x, x.startSegment + i);
    }
  }

  /** Assembling the segments of a plaintext gives exactly the wanted slice. */
  lemma {:induction false} AssembledIsSlice(
      t: seq<Facts>, x: Selection, plaintext: Data, storedLen: nat, segments: seq<Data>, n: nat)
    requires Tiled(t, |plaintext|, storedLen) && Selects(t, x) && Cut(t, x, plaintext, segments)
    requires x.startSegment + |segments| == x.endSegment && n <= |segments| && Measured(t, x, segments)
    ensures x.start <= Reach(t, x, n) <= |plaintext|
    ensures Assembled(t, x, segments, n) == plaintext[x.start..Reach(t, x, n)]
    decreases n
  {
    if n == 0 {
      SelectionOrdered(t, |plaintext|, storedLen, x);
    } else {
      AssembledIsSlice(t, x, plaintext, storedLen, segments, n - 1);
      OverlapAt(t, x, plaintext, storedLen, segments, n - 1);
      SlicesJoin(plaintext, x.start, Reach(t, x, n - 1), Reach(t, x, n));
    }
  }

  lemma {:induction false} OverlapAt(
      t: seq<Facts>, x: Selection, plaintext: Data, storedLen: nat, segments: seq<Data>, i: nat)
    requires Tiled(t, |plaintext|, storedLen) && Selects(t, x) && Cut(t, x, plaintext, segments)
    requires x.startSegment + |segments| == x.endSegment && i < |segments| && Measured(t, x, segments)
    ensures Reach(t, x, i) <= Reach(t, x, i + 1) <= |plaintext| && MeasuredAt(t, x, segments, i)
    ensures Overlap(x, t[x.startSegment + i], segments[i]) == plaintext[Reach(t, x, i)..Reach(t, x, i + 1)]
  {
    assert MeasuredAt(t, x, segments, i) && CutAt(t, x, plaintext, segments, i);
    ReachStep(t, x, |plaintext|, storedLen, i);
    OverlapIsSlice(x, t[x.startSegment + i], plaintext, segments[i]);
  }

  lemma {:induction false} ReachStep(t: seq<Facts>, x: Selection, plaintextLen: nat, storedLen: nat, n: nat)
    requires Tiled(t, plaintextLen, storedLen) && Selects(t, x) && x.startSegment + n < x.endSegment
    ensures Reach(t, x, n) == From(x, t[x.startSegment + n]) && Reach(t, x, n + 1) == To(x, t[x.startSegment + n])
    ensures Reach(t, x, n + 1) <= plaintextLen
  {
    var k := x.startSegment + n;
    TilesAdvance(t, plaintextLen, storedLen, x.startSegment, k);
    TilesAdvance(t, plaintextLen, storedLen, k, x.endSegment - 1);
    assert n > 0 ==> TileAt(t, k - 1, plaintextLen, storedLen);
  }

  lemma {:induction false} OverlapIsSlice(x: Selection, f: Facts, plaintext: Data, segment: Data)
    requires f.plaintextOffset + f.plaintextLen <= |plaintext| && x.start < x.end && Overlaps(x, f)
    requires segment == plaintext[f.plaintextOffset..f.plaintextOffset + f.plaintextLen]
    ensures From(x, f) <= To(x, f) <= |plaintext| && Overlap(x, f, segment) == plaintext[From(x, f)..To(x, f)]
  {
    var a, b, from, to := f.plaintextOffset, f.plaintextOffset + f.plaintextLen, From(x, f), To(x, f);
    SliceOfSlice(plaintext, a, b, from, to);
    assert Overlap(x, f, segment) == segment[from - a..to - a];
  }

  lemma {:induction false} SliceOfSlice(bytes: Data, a: nat, b: nat, from: nat, to: nat)
    requires a <= from <= to <= b <= |bytes|
    ensures bytes[a..b][from - a..to - a] == bytes[from..to]
  {
    var inner := bytes[a..b];
    forall i | 0 <= i < to - from ensures inner[from - a..to - a][i] == bytes[from..to][i] {
      assert inner[from - a + i] == bytes[from + i];
    }
  }

  lemma {:induction false} SlicesJoin(bytes: Data, a: nat, b: nat, c: nat)
    requires a <= b <= c <= |bytes|
    ensures bytes[a..b] + bytes[b..c] == bytes[a..c]
  {
  }

  // ---------------------------------------------------------------- opening

  /** Opens the sealed bytes of one segment. */
  type Opener = (Facts, Data) -> Option<Data>

  function KeyringOpener(aead: Aead, s: Segmented, objectId: Text): Opener {
    (f: Facts, sealed: Data) => OpenSegment(aead, s.layout.keyId, ContextFor(s, objectId, f), sealed)
  }

  /** What is opened is a tag shorter than what was sealed. */
  ghost predicate DropsTag(open: Opener) {
    forall f, sealed | open(f, sealed).Some? :: |sealed| == |open(f, sealed).value| + 16
  }

  lemma {:induction false} OpenerDropsTag(aead: Aead, s: Segmented, objectId: Text)
    requires Correct(aead)
    ensures DropsTag(KeyringOpener(aead, s, objectId))
  {
  }

  /** Opens one segment out of a ciphertext span. */
  function OpenPiece(open: Opener, offset: nat, ciphertext: Data, f: Facts): Option<Data>
    requires offset <= f.ciphertextOffset
  {
    var start := f.ciphertextOffset - offset;
    if start + f.plaintextLen + 16 > |ciphertext| then None
    else open(f, ciphertext[start..start + f.plaintextLen + 16])
  }

  /** Tiles behind an offset. */
  ghost predicate Behind(t: seq<Facts>, offset: nat, first: nat, n: nat) {
    first + n <= |t| && forall k | first <= k < first + n :: offset <= t[k].ciphertextOffset
  }

  /** Opens `n` consecutive segments, all or nothing. */
  ghost function OpenPieces(open: Opener, offset: nat, ciphertext: Data, t: seq<Facts>, first: nat, n: nat)
      : Option<seq<Data>>
    requires Behind(t, offset, first, n)
  {
    if n == 0 then Some([])
    else
      var before :- OpenPieces(open, offset, ciphertext, t, first, n - 1);
      var piece :- OpenPiece(open, offset, ciphertext, t[first + n - 1]);
      Some(before + [piece])
  }

  lemma {:induction false} PiecesMeasured(
      open: Opener, offset: nat, ciphertext: Data, t: seq<Facts>, x: Selection, n: nat,
      plaintextLen: nat, storedLen: nat)
    requires DropsTag(open) && Tiled(t, plaintextLen, storedLen) && Selects(t, x) && x.startSegment + n <= x.endSegment
    requires Behind(t, offset, x.startSegment, n)
    requires OpenPieces(open, offset, ciphertext, t, x.startSegment, n).Some?
    ensures var pieces := OpenPieces(open, offset, ciphertext, t, x.startSegment, n).value;
            |pieces| == n && Measured(t, x, pieces)
    decreases n
  {
    if n > 0 {
      PiecesMeasured(open, offset, ciphertext, t, x, n - 1, plaintextLen, storedLen);
      var before := OpenPieces(open, offset, ciphertext, t, x.startSegment, n - 1).value;
      var piece := OpenPiece(open, offset, ciphertext, t[x.startSegment + n - 1]).value;
      SelectedOverlaps(t, plaintextLen, storedLen, x, x.startSegment + n - 1);
      MeasuredAppend(t, x, before, piece);
    }
  }

  lemma {:induction false} MeasuredAppend(t: seq<Facts>, x: Selection, segments: seq<Data>, piece: Data)
    requires Measured(t, x, segments) && x.startSegment + |segments| < |t|
    requires Overlaps(x, t[x.startSegment + |segments|]) && |piece| == t[x.startSegment + |segments|].plaintextLen
    ensures Measured(t, x, segments + [piece])
  {
    var longer := segments + [piece];
    forall i | 0 <= i < |longer| ensures MeasuredAt(t, x, longer, i) {
      assert i < |segments| ==> MeasuredAt(t, x, segments, i);
    }
  }

  lemma {:induction false} SpanBehind(t: seq<Facts>, plaintextLen: nat, storedLen: nat, first: nat, n: nat)
    requires Tiled(t, plaintextLen, storedLen) && first < |t| && first + n <= |t|
    ensures Behind(t, t[first].ciphertextOffset, first, n)
  {
    forall k | first <= k < first + n ensures t[first].ciphertextOffset <= t[k].ciphertextOffset {
      TilesAdvance(t, plaintextLen, storedLen, first, k);
    }
  }

  /** A selection of tiles that a ciphertext span starting at `offset` covers. */
  ghost predicate Covered(t: seq<Facts>, x: Selection, offset: nat, plaintextLen: nat, storedLen: nat) {
    && Tiled(t, plaintextLen, storedLen) && Selects(t, x) && x.startSegment < x.endSegment
    && Behind(t, offset, x.startSegment, x.endSegment - x.startSegment)
  }

  /** Opens the selected tiles and assembles the wanted bytes. */
  ghost function ReadSelected(
      open: Opener, t: seq<Facts>, x: Selection, offset: nat, ciphertext: Data, plaintextLen: nat, storedLen: nat)
      : Option<(Data, seq<Data>)>
    requires DropsTag(open) && Covered(t, x, offset, plaintextLen, storedLen)
  {
    var n := x.endSegment - x.startSegment;
    var pieces :- OpenPieces(open, offset, ciphertext, t, x.startSegment, n);
    PiecesMeasured(open, offset, ciphertext, t, x, n, plaintextLen, storedLen);
    Some((Assembled(t, x, pieces, n), pieces))
  }

  lemma {:induction false} SpanCovered(s: Segmented, range: ByteRange)
    requires Built(s) && Select(s, range).Some?
    ensures var x, span := Select(s, range).value, CiphertextSpan(s, range).value;
            Covered(Table(s), x, span.offset, s.layout.plaintextLen, s.storedLen) && x.end <= s.layout.plaintextLen
  {
    var t, x, span := Table(s), Select(s, range).value, CiphertextSpan(s, range).value;
    TableTiled(s);
    SelectionOrdered(t, s.layout.plaintextLen, s.storedLen, x);
    SpanBehind(t, s.layout.plaintextLen, s.storedLen, x.startSegment, x.endSegment - x.startSegment);
  }

  /** What reading a range from a ciphertext span gives: the wanted bytes and the opened segments. */
  ghost function ReadRange(open: Opener, s: Segmented, range: ByteRange, span: Span, ciphertext: Data)
      : Option<(Data, seq<Data>)>
    requires Built(s) && DropsTag(open)
  {
    if CiphertextSpan(s, range) != Some(span) || |ciphertext| != span.len then None
    else
      SpanCovered(s, range);
      ReadSelected(open, Table(s), Select(s, range).value, span.offset, ciphertext, s.layout.plaintextLen, s.storedLen)
  }

  ghost predicate OpensAt(open: Opener, t: seq<Facts>, plaintext: Data, body: Data, k: nat) {
    && k < |t| && t[k].plaintextOffset + t[k].plaintextLen <= |plaintext|
    && t[k].ciphertextOffset + t[k].plaintextLen + 16 <= |body|
    && open(t[k], SealedPiece(t, body, k)) == Some(Piece(t, plaintext, k))
  }

  /** Every segment of a stored payload opens to its piece of the plaintext. */
  lemma {:induction false} SealedOpens(aead: Aead, s: Segmented, objectId: Text, plaintext: Data, body: Data, k: nat)
    requires Correct(aead) && Sealed(aead, s, objectId, plaintext, body) && k < s.segmentCount
    ensures OpensAt(KeyringOpener(aead, s, objectId), Table(s), plaintext, body, k)
  {
    var c := ContextFor(s, objectId, Table(s)[k]);
    assert SealedAt(aead, s, objectId, Table(s), plaintext, body, k);
    OpensSealed(aead, s.layout.keyId, c, Piece(Table(s), plaintext, k));
  }

  /** The messages that sealing a stored payload leaves behind. */
  ghost predicate Logged(log: seq<Message>, s: Segmented, objectId: Text, t: seq<Facts>, plaintext: Data) {
    forall k | 0 <= k < |t| && t[k].plaintextOffset + t[k].plaintextLen <= |plaintext| ::
      Message(Aad(ContextFor(s, objectId, t[k]), s.layout.keyId), Piece(t, plaintext, k)) in log
  }

  /** A sealed segment of a stored payload is refused in the place of any other segment. */
  lemma {:induction false} MovedSegmentRefused(
      aead: Aead, log: seq<Message>, s: Segmented, objectId: Text, plaintext: Data, body: Data, k: nat, m: nat)
    requires Correct(aead) && Authentic(aead, log) && Sealed(aead, s, objectId, plaintext, body)
    requires Logged(log, s, objectId, Table(s), plaintext) && k < s.segmentCount && m < s.segmentCount && k != m
    ensures Table(s)[k].ciphertextOffset + Table(s)[k].plaintextLen + 16 <= |body|
    ensures KeyringOpener(aead, s, objectId)(Table(s)[m], SealedPiece(Table(s), body, k)) == None
  {
    var t := Table(s);
    var c, d := ContextFor(s, objectId, t[k]), ContextFor(s, objectId, t[m]);
    assert SealedAt(aead, s, objectId, t, plaintext, body, k);
    TableHas(s, k);
    TableHas(s, m);
    if c == d { NonceContextsDistinct(s, objectId, k, m); }
    OpensExactly(aead, log, s.layout.keyId, c, Piece(t, plaintext, k), s.layout.keyId, d);
  }

  /** What a segment's place is made of: repository, object, carrier, encryption attempt, part, position,
      length, whether it is the final one of its part, chunk size and key. */
  ghost predicate SamePlace(s: Segmented, objectId: Text, f: Facts, other: Segmented, otherId: Text, g: Facts) {
    && other.repositoryContext == s.repositoryContext && otherId == objectId
    && other.layout.carrierId == s.layout.carrierId && other.layout.chunkSize == s.layout.chunkSize
    && other.layout.keyId == s.layout.keyId
    && g.part.attemptId == f.part.attemptId && g.part.number == f.part.number && g.ordinal == f.ordinal
    && g.plaintextLen == f.plaintextLen && g.isFinal == f.isFinal
  }

  lemma {:induction false} PlacesAreContexts(s: Segmented, objectId: Text, f: Facts, other: Segmented, otherId: Text, g: Facts)
    ensures SamePlace(s, objectId, f, other, otherId, g) <==>
            ContextFor(other, otherId, g) == ContextFor(s, objectId, f) && other.layout.keyId == s.layout.keyId
  {
    RadixValues();
    BigEndianRoundTrip(s.layout.chunkSize, 8);
    BigEndianRoundTrip(other.layout.chunkSize, 8);
  }

  /** A sealed segment of a stored payload opens in a place, of this or of any other payload, exactly when
      that place is its own in every respect; so it can be neither moved nor passed off as final. */
  lemma {:induction false} SegmentOpensOnlyAtHome(
      aead: Aead, log: seq<Message>, s: Segmented, objectId: Text, plaintext: Data, body: Data, k: nat,
      other: Segmented, otherId: Text, g: Facts)
    requires Correct(aead) && Authentic(aead, log) && Sealed(aead, s, objectId, plaintext, body)
    requires Logged(log, s, objectId, Table(s), plaintext) && k < s.segmentCount
    ensures var f := Table(s)[k];
            && f.plaintextOffset + f.plaintextLen <= |plaintext| && f.ciphertextOffset + f.plaintextLen + 16 <= |body|
            && KeyringOpener(aead, other, otherId)(g, SealedPiece(Table(s), body, k))
               == if SamePlace(s, objectId, f, other, otherId, g) then Some(Piece(Table(s), plaintext, k)) else None
  {
    var t := Table(s);
    var c := ContextFor(s, objectId, t[k]);
    assert SealedAt(aead, s, objectId, t, plaintext, body, k);
    PlacesAreContexts(s, objectId, t[k], other, otherId, g);
    OpensExactly(aead, log, s.layout.keyId, c, Piece(t, plaintext, k), other.layout.keyId, ContextFor(other, otherId, g));
  }

  lemma {:induction false} PieceOpens(
      open: Opener, plaintext: Data, body: Data, t: seq<Facts>, x: Selection, span: Span, k: nat)
    requires Tiled(t, |plaintext|, |body|) && Spans(t, x, span) && x.startSegment <= k < x.endSegment
    requires span.offset + span.len <= |body| && OpensAt(open, t, plaintext, body, k)
    ensures span.offset <= t[k].ciphertextOffset
    ensures OpenPiece(open, span.offset, body[span.offset..span.offset + span.len], t[k])
         == Some(Piece(t, plaintext, k))
  {
    var f := t[k];
    TilesAdvance(t, |plaintext|, |body|, x.startSegment, k);
    TilesAdvance(t, |plaintext|, |body|, k, x.endSegment - 1);
    SliceOfSlice(body, span.offset, span.offset + span.len, f.ciphertextOffset, f.ciphertextOffset + f.plaintextLen + 16);
  }

  lemma {:induction false} PiecesAreCut(
      open: Opener, plaintext: Data, body: Data, t: seq<Facts>, x: Selection, span: Span, n: nat)
    requires Tiled(t, |plaintext|, |body|) && Spans(t, x, span) && n <= span.segmentCount
    requires forall k | 0 <= k < |t| :: OpensAt(open, t, plaintext, body, k)
    requires span.offset + span.len <= |body| && Behind(t, span.offset, x.startSegment, span.segmentCount)
    ensures var pieces :=
              OpenPieces(open, span.offset, body[span.offset..span.offset + span.len], t, x.startSegment, n);
            pieces.Some? && |pieces.value| == n && Cut(t, x, plaintext, pieces.value)
    decreases n
  {
    if n > 0 {
      PiecesAreCut(open, plaintext, body, t, x, span, n - 1);
      var ciphertext, k := body[span.offset..span.offset + span.len], x.startSegment + n - 1;
      assert OpensAt(open, t, plaintext, body, k);
      PieceOpens(open, plaintext, body, t, x, span, k);
      var before := OpenPieces(open, span.offset, ciphertext, t, x.startSegment, n - 1).value;
      CutAppend(t, x, plaintext, before);
    }
  }

  lemma {:induction false} CutAppend(t: seq<Facts>, x: Selection, plaintext: Data, segments: seq<Data>)
    requires Cut(t, x, plaintext, segments) && x.startSegment + |segments| < |t|
    requires var f := t[x.startSegment + |segments|]; f.plaintextOffset + f.plaintextLen <= |plaintext|
    ensures Cut(t, x, plaintext, segments + [Piece(t, plaintext, x.startSegment + |segments|)])
  {
    var longer := segments + [Piece(t, plaintext, x.startSegment + |segments|)];
    forall i | 0 <= i < |longer| ensures CutAt(t, x, plaintext, longer, i) {
      assert i < |segments| ==> CutAt(t, x, plaintext, segments, i);
    }
  }

  /** A range is planned exactly when it is not empty and within the plaintext, and then opening only
      its ciphertext span of a stored payload yields exactly the bytes asked for. */
  lemma {:induction false} RangeReadIsSlice(
      aead: Aead, s: Segmented, objectId: Text, plaintext: Data, body: Data, range: ByteRange, span: Option<Span>)
    requires Correct(aead) && Sealed(aead, s, objectId, plaintext, body) && span == CiphertextSpan(s, range)
    ensures DropsTag(KeyringOpener(aead, s, objectId))
    ensures span.Some? <==> range.Full? || (0 < range.len && range.offset + range.len <= |plaintext|)
    ensures span.Some? ==>
              && span.value.offset + span.value.len <= |body|
              && var sealed := body[span.value.offset..span.value.offset + span.value.len];
              && var read := ReadRange(KeyringOpener(aead, s, objectId), s, range, span.value, sealed);
              && read.Some?
              && read.value.0 == if range.Full? then plaintext else plaintext[range.offset..range.offset + range.len]
  {
    OpenerDropsTag(aead, s, objectId);
    if span.Some? {
      var x, sealed := Select(s, range).value, body[span.value.offset..span.value.offset + span.value.len];
      SelectionReadIsSlice(aead, s, objectId, plaintext, body, range, span.value, x);
      SelectionIsAskedFor(
        ReadRange(KeyringOpener(aead, s, objectId), s, range, span.value, sealed), range, Table(s), x, plaintext);
    }
  }

  lemma {:induction false} SelectionIsAskedFor(
      read: Option<(Data, seq<Data>)>, range: ByteRange, t: seq<Facts>, x: Selection, plaintext: Data)
    requires ReadsSlice(read, t, x, plaintext)
    requires range.Full? ==> x.start == 0 && x.end == |plaintext|
    requires range.Slice? ==> x.start == range.offset && x.end == range.offset + range.len
    ensures range.Full? ==> read.value.0 == plaintext
    ensures range.Slice? ==>
              0 < range.len && range.offset + range.len <= |plaintext|
              && read.value.0 == plaintext[range.offset..range.offset + range.len]
  {
    assert plaintext[0..|plaintext|] == plaintext;
  }

  lemma {:induction false} SelectionReadIsSlice(
      aead: Aead, s: Segmented, objectId: Text, plaintext: Data, body: Data, range: ByteRange, span: Span, x: Selection)
    requires Correct(aead) && Sealed(aead, s, objectId, plaintext, body)
    requires CiphertextSpan(s, range) == Some(span) && Select(s, range) == Some(x)
    ensures DropsTag(KeyringOpener(aead, s, objectId))
    ensures var sealed := body[span.offset..span.offset + span.len];
            ReadsSlice(ReadRange(KeyringOpener(aead, s, objectId), s, range, span, sealed), Table(s), x, plaintext)
  {
    OpenerDropsTag(aead, s, objectId);
    forall k | 0 <= k < s.segmentCount
      ensures OpensAt(KeyringOpener(aead, s, objectId), Table(s), plaintext, body, k)
    {
      SealedOpens(aead, s, objectId, plaintext, body, k);
    }
    OpenableReadsSlice(KeyringOpener(aead, s, objectId), s, plaintext, body, range, span, x);
  }

  /** A read gave the selected slice of the plaintext and its segments. */
  ghost predicate ReadsSlice(read: Option<(Data, seq<Data>)>, t: seq<Facts>, x: Selection, plaintext: Data) {
    && read.Some? && x.start < x.end <= |plaintext|
    && read.value.0 == plaintext[x.start..x.end] && Cut(t, x, plaintext, read.value.1)
  }

  lemma {:induction false} OpenableReadsSlice(
      open: Opener, s: Segmented, plaintext: Data, body: Data, range: ByteRange, span: Span, x: Selection)
    requires Built(s) && DropsTag(open) && |plaintext| == s.layout.plaintextLen && |body| == s.storedLen
    requires CiphertextSpan(s, range) == Some(span) && Select(s, range) == Some(x)
    requires forall k | 0 <= k < s.segmentCount :: OpensAt(open, Table(s), plaintext, body, k)
    ensures ReadsSlice(ReadRange(open, s, range, span, body[span.offset..span.offset + span.len]), Table(s), x, plaintext)
  {
    SpanCovered(s, range);
    SelectedReadsSlice(open, Table(s), x, span, plaintext, body);
  }

  lemma {:induction false} SelectedReadsSlice(
      open: Opener, t: seq<Facts>, x: Selection, span: Span, plaintext: Data, body: Data)
    requires DropsTag(open) && Covered(t, x, span.offset, |plaintext|, |body|) && x.end <= |plaintext|
    requires Spans(t, x, span) && span.offset + span.len <= |body|
    requires forall k | 0 <= k < |t| :: OpensAt(open, t, plaintext, body, k)
    ensures var ciphertext := body[span.offset..span.offset + span.len];
            ReadsSlice(ReadSelected(open, t, x, span.offset, ciphertext, |plaintext|, |body|), t, x, plaintext)
  {
    var n, ciphertext := x.endSegment - x.startSegment, body[span.offset..span.offset + span.len];
    PiecesAreCut(open, plaintext, body, t, x, span, n);
    var pieces := OpenPieces(open, span.offset, ciphertext, t, x.startSegment, n).value;
    CutMeasured(t, x, plaintext, |body|, pieces);
    AssembledIsSlice(t, x, plaintext, |body|, pieces, n);
  }

  /** Opens the segments one after another and appends the wanted bytes of each. */
  method OpenSpan(open: Opener, s: Segmented, range: ByteRange, span: Span, ciphertext: Data)
    returns (read: Option<(Data, seq<Data>)>)
    requires Built(s) && DropsTag(open)
    ensures read == ReadRange(open, s, range, span, ciphertext)
  {
    if CiphertextSpan(s, range) != Some(span) || |ciphertext| != span.len { return None; }
    SpanCovered(s, range);
    TableLists(s);
    read := OpenSelected(open, s, Select(s, range).value, span.offset, ciphertext, Table(s));
  }

  method OpenSelected(
      open: Opener, s: Segmented, x: Selection, offset: nat, ciphertext: Data, ghost t: seq<Facts>)
    returns (read: Option<(Data, seq<Data>)>)
    requires DropsTag(open) && Built(s) && Lists(s, t)
    requires Covered(t, x, offset, s.layout.plaintextLen, s.storedLen)
    ensures read == ReadSelected(open, t, x, offset, ciphertext, s.layout.plaintextLen, s.storedLen)
  {
    var output, segments, count := [], [], x.endSegment - x.startSegment;
    for n := 0 to count
      invariant |segments| == n
      invariant OpenPieces(open, offset, ciphertext, t, x.startSegment, n) == Some(segments)
      invariant Measured(t, x, segments) && output == Assembled(t, x, segments, n)
    {
      var f := SegmentAt(s, x.startSegment + n, t);
      var piece := OpenPiece(open, offset, ciphertext, f);
      if piece.None? {
        PiecesStop(open, offset, ciphertext, t, x.startSegment, n, count);
        return None;
      }
      OpenStep(open, offset, ciphertext, t, x, segments, piece.value, s.layout.plaintextLen, s.storedLen);
      output := output + Overlap(x, f, piece.value);
      segments := segments + [piece.value];
    }
    read := Some((output, segments));
  }

  /** One more opened segment. */
  lemma {:induction false} OpenStep(
      open: Opener, offset: nat, ciphertext: Data, t: seq<Facts>, x: Selection, segments: seq<Data>, piece: Data,
      plaintextLen: nat, storedLen: nat)
    requires DropsTag(open) && Covered(t, x, offset, plaintextLen, storedLen)
    requires x.startSegment + |segments| < x.endSegment && Measured(t, x, segments)
    requires Behind(t, offset, x.startSegment, |segments|)
    requires OpenPieces(open, offset, ciphertext, t, x.startSegment, |segments|) == Some(segments)
    requires offset <= t[x.startSegment + |segments|].ciphertextOffset
    requires OpenPiece(open, offset, ciphertext, t[x.startSegment + |segments|]) == Some(piece)
    ensures var f, longer, n := t[x.startSegment + |segments|], segments + [piece], |segments|;
            && Behind(t, offset, x.startSegment, n + 1)
            && OpenPieces(open, offset, ciphertext, t, x.startSegment, n + 1) == Some(longer)
            && Overlaps(x, f) && |piece| == f.plaintextLen && Measured(t, x, longer)
            && Assembled(t, x, longer, n + 1) == Assembled(t, x, segments, n) + Overlap(x, f, piece)
  {
    SelectedOverlaps(t, plaintextLen, storedLen, x, x.startSegment + |segments|);
    MeasuredAppend(t, x, segments, piece);
    AssembledPrefix(t, x, segments, piece, |segments|);
  }

  method SegmentAt(s: Segmented, k: nat, ghost t: seq<Facts>) returns (f: Facts)
    requires Built(s) && Lists(s, t) && k < |t|
    ensures f == t[k]
  {
    assert EntryAt(s, t, k);
    f := Segment(s, k).value;
  }

  lemma {:induction false} PiecesStop(
      open: Opener, offset: nat, ciphertext: Data, t: seq<Facts>, first: nat, n: nat, m: nat)
    requires Behind(t, offset, first, m) && n < m
    requires OpenPiece(open, offset, ciphertext, t[first + n]).None?
    ensures OpenPieces(open, offset, ciphertext, t, first, m).None?
    decreases m
  {
    if n < m - 1 { PiecesStop(open, offset, ciphertext, t, first, n, m - 1); }
  }

  lemma {:induction false} AssembledPrefix(t: seq<Facts>, x: Selection, segments: seq<Data>, piece: Data, n: nat)
    requires n <= |segments| && Measured(t, x, segments + [piece])
    ensures Measured(t, x, segments)
    ensures Assembled(t, x, segments + [piece], n) == Assembled(t, x, segments, n)
    decreases n
  {
    var longer := segments + [piece];
    forall i | 0 <= i < |segments| ensures MeasuredAt(t, x, segments, i) { assert MeasuredAt(t, x, longer, i); }
    if n > 0 {
      AssembledPrefix(t, x, segments, piece, n - 1);
      assert MeasuredAt(t, x, longer, n - 1) && MeasuredAt(t, x, segments, n - 1);
    }
  }

  /** Reads a range of a whole stored object: refuses a wrong length, then opens the planned span. */
  method OpenObject(aead: Aead, s: Segmented, objectId: Text, body: Data, range: ByteRange) returns (read: Option<Data>)
    requires Built(s) && Correct(aead)
    ensures forall plaintext | Sealed(aead, s, objectId, plaintext, body) ::
              read == match range
                      case Full => Some(plaintext)
                      case Slice(offset, len) =>
                        if 0 < len && offset + len <= |plaintext| then Some(plaintext[offset..offset + len]) else None
    ensures |body| != s.storedLen ==> read == None
    ensures range.Slice? && (range.len == 0 || range.offset + range.len > s.layout.plaintextLen) ==> read == None
  {
    if |body| != s.storedLen { return None; }
    var span := CiphertextSpan(s, range);
    if span.None? {
      forall plaintext | Sealed(aead, s, objectId, plaintext, body)
        ensures range.Slice? && !(0 < range.len && range.offset + range.len <= |plaintext|)
      {
        RangeReadIsSlice(aead, s, objectId, plaintext, body, range, span);
      }
      return None;
    }
    OpenerDropsTag(aead, s, objectId);
    var sealed := body[span.value.offset..span.value.offset + span.value.len];
    var parts := OpenSpan(KeyringOpener(aead, s, objectId), s, range, span.value, sealed);
    read := if parts.None? then None else Some(parts.value.0);
    forall plaintext | Sealed(aead, s, objectId, plaintext, body)
      ensures range.Full? || (0 < range.len && range.offset + range.len <= |plaintext|)
      ensures read == Some(if range.Full? then plaintext else plaintext[range.offset..range.offset + range.len])
    {
      RangeReadIsSlice(aead, s, objectId, plaintext, body, range, span);
    }
  }

  // ---------------------------------------------------------------- cached segments

  /** Assembles a range from cached segments, refusing a wrong start, count or length. */
  method OpenCached(s: Segmented, range: ByteRange, startSegment: nat, segments: seq<Data>) returns (read: Option<Data>)
    requires Built(s)
    ensures read == CachedRead(s, range, startSegment, segments)
  {
    var selected := Select(s, range);
    if selected.None? { return None; }
    var x := selected.value;
    SpanCovered(s, range);
    if startSegment != x.startSegment || |segments| != x.endSegment - x.startSegment { return None; }
    TableLists(s);
    read := Gather(s, x, segments, Table(s));
  }

  method Gather(s: Segmented, x: Selection, segments: seq<Data>, ghost t: seq<Facts>) returns (read: Option<Data>)
    requires Built(s) && Lists(s, t) && Tiled(t, s.layout.plaintextLen, s.storedLen) && Selects(t, x)
    requires x.startSegment + |segments| == x.endSegment
    ensures read == if Measured(t, x, segments) then Some(Assembled(t, x, segments, |segments|)) else None
  {
    var output := [];
    for n := 0 to |segments|
      invariant Measured(t, x, segments[..n]) && output == Assembled(t, x, segments[..n], n)
    {
      SelectedOverlaps(t, s.layout.plaintextLen, s.storedLen, x, x.startSegment + n);
      var f := SegmentAt(s, x.startSegment + n, t);
      if |segments[n]| != f.plaintextLen {
        assert !MeasuredAt(t, x, segments, n);
        return None;
      }
      assert segments[..n + 1] == segments[..n] + [segments[n]];
      MeasuredAppend(t, x, segments[..n], segments[n]);
      AssembledPrefix(t, x, segments[..n], segments[n], n);
      output := output + Overlap(x, f, segments[n]);
    }
    assert segments[..|segments|] == segments;
    read := Some(output);
  }

  /** What assembling a range from cached segments gives. */
  ghost function CachedRead(s: Segmented, range: ByteRange, startSegment: nat, segments: seq<Data>): Option<Data>
    requires Built(s)
  {
    var x :- Select(s, range);
    if startSegment != x.startSegment || x.startSegment + |segments| != x.endSegment
       || !Measured(Table(s), x, segments)
    then None
    else Some(Assembled(Table(s), x, segments, |segments|))
  }

  /** Assembling a range from the segments of the plaintext gives the same bytes as opening it. */
  lemma {:induction false} CachedReadIsSlice(
      s: Segmented, plaintext: Data, range: ByteRange, startSegment: nat, segments: seq<Data>)
    requires Built(s) && |plaintext| == s.layout.plaintextLen
    requires var selected := Select(s, range);
             selected.Some? ==>
               && startSegment == selected.value.startSegment
               && startSegment + |segments| == selected.value.endSegment
               && Cut(Table(s), selected.value, plaintext, segments)
    ensures CachedRead(s, range, startSegment, segments) ==
            match range
            case Full => Some(plaintext)
            case Slice(offset, len) =>
              if 0 < len && offset + len <= |plaintext| then Some(plaintext[offset..offset + len]) else None
  {
    if Select(s, range).Some? {
      var t, x := Table(s), Select(s, range).value;
      SpanCovered(s, range);
      CutMeasured(t, x, plaintext, s.storedLen, segments);
      AssembledIsSlice(t, x, plaintext, s.storedLen, segments, |segments|);
      assert plaintext[0..|plaintext|] == plaintext;
    }
  }
}
