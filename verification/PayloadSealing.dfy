/** Sealing independently uploaded parts and joining them into one stored payload. */
module PayloadSealing {
  import opened Prelude
  import opened Types
  import opened Wire
  import opened SegmentContext
  import opened SegmentAead
  import opened PayloadLayout
  import opened PayloadRange

  /** Fresh immutable encryption attempt for one independently sealable part. */
  datatype Sealer = Sealer(
    chunkSize: U64,
    keyId: Text,
    repositoryContext: Data,
    carrierId: Bytes32,
    attemptId: Bytes32,
    partNumber: U32)

  function SealerContext(sealer: Sealer, objectId: Text, index: U64, length: U64, isFinal: bool): Context {
    Context(sealer.repositoryContext, objectId, None, sealer.carrierId, sealer.attemptId, sealer.partNumber,
            index, length, isFinal, BigEndian(sealer.chunkSize, 8))
  }

  /** Seals one segment: full unless it is the final one, and never empty. */
  function SealWith(aead: Aead, sealer: Sealer, objectId: Text, index: U64, plaintext: Data, isFinal: bool): Option<Data> {
    if |plaintext| == 0 || |plaintext| > sealer.chunkSize || (!isFinal && |plaintext| != sealer.chunkSize) then None
    else
      SealSegment(aead, sealer.keyId, SealerContext(sealer, objectId, index, |plaintext|, isFinal), plaintext)
  }

  /** A segment is sealed exactly when it is full, or final and not longer than that, not empty, and its context
      is within the bounds; then its context names its index, its length and whether it is final. */
  lemma {:induction false} SealsExactly(
      aead: Aead, sealer: Sealer, objectId: Text, index: U64, plaintext: Data, isFinal: bool, length: U64)
    requires length == if |plaintext| < U64_LIMIT then |plaintext| else 0
    ensures SealWith(aead, sealer, objectId, index, plaintext, isFinal) ==
            if && 0 < |plaintext| <= sealer.chunkSize && (isFinal || |plaintext| == sealer.chunkSize)
               && 0 < |sealer.repositoryContext| <= 4096 && |objectId| <= 1024 && |sealer.keyId| <= 255
               && |plaintext| <= 67_108_864
            then
              Some(aead.seal(
                Aad(Context(sealer.repositoryContext, objectId, None, sealer.carrierId, sealer.attemptId, sealer.partNumber,
                            index, length, isFinal, BigEndian(sealer.chunkSize, 8)), sealer.keyId), plaintext))
            else None
  {
  }

  /** Seals a chunk, given its index and whether it is the final one. */
  type ChunkSealer = (nat, Data, bool) -> Option<Data>

  function PartSealer(aead: Aead, sealer: Sealer, objectId: Text): ChunkSealer {
    (j: nat, piece: Data, isFinal: bool) =>
      if j < U64_LIMIT then SealWith(aead, sealer, objectId, j, piece, isFinal) else None
  }

  /** Chunk `j` of a part's plaintext. */
  function Chunk(plaintext: Data, chunk: nat, j: nat): Data
    requires Chunks(j, chunk) <= |plaintext|
  {
    var start := Chunks(j, chunk);
    plaintext[start..if start + chunk < |plaintext| then start + chunk else |plaintext|]
  }

  /** Where sealed chunk `j` starts in a sealed part. */
  ghost function SealedStart(chunk: nat, j: nat): nat {
    Chunks(j, chunk) + 16 * j
  }

  /** The bytes at the place of chunk `j` are the sealed chunk. */
  ghost predicate SealedChunk(seal: ChunkSealer, chunk: nat, plaintext: Data, body: Data, j: nat)
    requires chunk > 0
  {
    && Chunks(j, chunk) < |plaintext|
    && var piece, at := Chunk(plaintext, chunk, j), SealedStart(chunk, j);
    && at + |piece| + 16 <= |body|
    && seal(j, piece, j + 1 == Segments(|plaintext|, chunk)) == Some(body[at..at + |piece| + 16])
  }

  ghost predicate PartSealed(seal: ChunkSealer, chunk: nat, plaintext: Data, body: Data) {
    && chunk > 0 && |plaintext| > 0
    && |body| == |plaintext| + 16 * Segments(|plaintext|, chunk)
    && forall j | 0 <= j < Segments(|plaintext|, chunk) :: SealedChunk(seal, chunk, plaintext, body, j)
  }

  /** Sealing adds a tag to what it seals. */
  ghost predicate AddsTag(seal: ChunkSealer) {
    forall j, piece, isFinal | seal(j, piece, isFinal).Some? :: |seal(j, piece, isFinal).value| == |piece| + 16
  }

  lemma {:induction false} SealerAddsTag(aead: Aead, sealer: Sealer, objectId: Text)
    requires Correct(aead)
    ensures AddsTag(PartSealer(aead, sealer, objectId))
  {
  }

  /** Seals a part chunk by chunk. */
  method SealPart(seal: ChunkSealer, chunk: nat, plaintext: Data) returns (body: Option<Data>)
    requires AddsTag(seal) && chunk > 0
    ensures body.Some? ==> PartSealed(seal, chunk, plaintext, body.value)
    ensures body.None? ==> plaintext == [] || exists j ::
              0 <= j < Segments(|plaintext|, chunk) && Chunks(j, chunk) < |plaintext|
              && seal(j, Chunk(plaintext, chunk, j), j + 1 == Segments(|plaintext|, chunk)) == None
  {
    if plaintext == [] { return None; }
    var count, out := Segments(|plaintext|, chunk), [];
    for j := 0 to count
      invariant |out| == 16 * j + (if j == count then |plaintext| else Chunks(j, chunk))
      invariant forall m | 0 <= m < j :: SealedChunk(seal, chunk, plaintext, out, m)
    {
      SegmentsBound(|plaintext|, chunk, j);
      var piece := Chunk(plaintext, chunk, j);
      var sealed := seal(j, piece, j + 1 == count);
      if sealed.None? { return None; }
      ghost var before := out;
      out := out + sealed.value;
      assert out[|before|..|before| + |piece| + 16] == sealed.value;
      forall m | 0 <= m <= j ensures SealedChunk(seal, chunk, plaintext, out, m) {
        if m < j { SealedChunkGrows(seal, chunk, plaintext, before, sealed.value, m); }
      }
    }
    body := Some(out);
  }

  lemma {:induction false} SealedChunkGrows(
      seal: ChunkSealer, chunk: nat, plaintext: Data, body: Data, more: Data, j: nat)
    requires chunk > 0 && SealedChunk(seal, chunk, plaintext, body, j)
    ensures SealedChunk(seal, chunk, plaintext, body + more, j)
  {
    var at, piece := SealedStart(chunk, j), Chunk(plaintext, chunk, j);
    assert (body + more)[at..at + |piece| + 16] == body[at..at + |piece| + 16];
  }

  // ---------------------------------------------------------------- joining parts

  ghost function Concat(pieces: seq<Data>): Data {
    if pieces == [] then [] else Concat(pieces[..|pieces| - 1]) + pieces[|pieces| - 1]
  }

  /** A slice of one piece is the same slice of the whole, shifted by what precedes the piece. */
  lemma {:induction false} ConcatSlice(pieces: seq<Data>, i: nat, a: nat, b: nat)
    requires i < |pieces| && a <= b <= |pieces[i]|
    ensures var before := |Concat(pieces[..i])|;
            before + b <= |Concat(pieces)| && Concat(pieces)[before + a..before + b] == pieces[i][a..b]
    decreases |pieces|
  {
    var n := |pieces| - 1;
    var front, last, before := Concat(pieces[..n]), pieces[n], |Concat(pieces[..i])|;
    if i < n {
      ConcatSlice(pieces[..n], i, a, b);
      assert pieces[..n][..i] == pieces[..i];
      assert (front + last)[before + a..before + b] == front[before + a..before + b];
    } else {
      assert (front + last)[before + a..before + b] == last[a..b];
    }
  }

  /** The sealer that a layout records for a part. */
  ghost function SealerFor(s: Segmented, i: nat): Sealer
    requires i < |s.layout.parts|
  {
    Sealer(s.layout.chunkSize, s.layout.keyId, s.repositoryContext, s.layout.carrierId,
           s.layout.parts[i].attemptId, s.layout.parts[i].number)
  }

  ghost predicate SealedPartAt(
      aead: Aead, s: Segmented, objectId: Text, plaintexts: seq<Data>, bodies: seq<Data>, i: nat)
    requires i < |plaintexts| == |bodies| == |s.layout.parts|
  {
    && |plaintexts[i]| == s.layout.parts[i].plaintextLen
    && PartSealed(PartSealer(aead, SealerFor(s, i), objectId), s.layout.chunkSize, plaintexts[i], bodies[i])
  }

  ghost predicate PartsSealed(aead: Aead, s: Segmented, objectId: Text, plaintexts: seq<Data>, bodies: seq<Data>) {
    && |plaintexts| == |bodies| == |s.layout.parts|
    && forall i | 0 <= i < |plaintexts| :: SealedPartAt(aead, s, objectId, plaintexts, bodies, i)
  }

  /** The joined parts have the lengths that the layout's sums say. */
  ghost predicate Lengths(s: Segmented, plaintexts: seq<Data>, bodies: seq<Data>) {
    && Built(s) && |plaintexts| == |bodies| == |s.layout.parts|
    && forall i | 0 <= i < |plaintexts| :: LengthsAt(s, plaintexts, bodies, i)
  }

  ghost predicate LengthsAt(s: Segmented, plaintexts: seq<Data>, bodies: seq<Data>, i: nat)
    requires i < |plaintexts| == |bodies| == |s.layout.parts| && s.layout.chunkSize > 0
  {
    && |plaintexts[i]| == s.layout.parts[i].plaintextLen
    && |bodies[i]| == |plaintexts[i]| + 16 * Segments(|plaintexts[i]|, s.layout.chunkSize)
  }

  lemma {:induction false} JoinedLengths(s: Segmented, plaintexts: seq<Data>, bodies: seq<Data>, i: nat)
    requires Lengths(s, plaintexts, bodies) && i <= |plaintexts|
    ensures |Concat(plaintexts[..i])| == PlainTo(s.layout, i) && |Concat(bodies[..i])| == StoredTo(s.layout, i)
    decreases i
  {
    if i > 0 {
      JoinedLengths(s, plaintexts, bodies, i - 1);
      assert LengthsAt(s, plaintexts, bodies, i - 1);
      assert plaintexts[..i][..i - 1] == plaintexts[..i - 1] && bodies[..i][..i - 1] == bodies[..i - 1];
    }
  }

  /** Parts sealed independently and joined in order are one stored payload of the joined layout. */
  lemma {:induction false} JoinedPartsAreSealed(
      aead: Aead, s: Segmented, objectId: Text, plaintexts: seq<Data>, bodies: seq<Data>)
    requires Built(s) && PartsSealed(aead, s, objectId, plaintexts, bodies)
    ensures Sealed(aead, s, objectId, Concat(plaintexts), Concat(bodies))
  {
    var n := |plaintexts|;
    forall i | 0 <= i < n ensures LengthsAt(s, plaintexts, bodies, i) {
      assert SealedPartAt(aead, s, objectId, plaintexts, bodies, i);
    }
    JoinedLengths(s, plaintexts, bodies, n);
    assert plaintexts[..n] == plaintexts && bodies[..n] == bodies;
    forall k | 0 <= k < s.segmentCount
      ensures SealedAt(aead, s, objectId, Table(s), Concat(plaintexts), Concat(bodies), k)
    {
      var i, j := Whereabouts(s, k);
      TableHas(s, k);
      JoinedSegment(aead, s, objectId, plaintexts, bodies, i, j, k, Table(s));
    }
  }

  /** The joined pieces of a segment are a sealed chunk of its part. */
  lemma {:induction false} JoinedChunk(
      aead: Aead, s: Segmented, objectId: Text, plaintexts: seq<Data>, bodies: seq<Data>, i: nat, j: nat, f: Facts,
      piece: Data, sealed: Data)
    requires Lengths(s, plaintexts, bodies) && PartsSealed(aead, s, objectId, plaintexts, bodies)
    requires i < |s.layout.parts| && j < Segments(s.layout.parts[i].plaintextLen, s.layout.chunkSize)
    requires Expected(s, i, j, f)
    requires f.plaintextOffset + f.plaintextLen <= |Concat(plaintexts)| ==>
             piece == Concat(plaintexts)[f.plaintextOffset..f.plaintextOffset + f.plaintextLen]
    requires f.ciphertextOffset + f.plaintextLen + 16 <= |Concat(bodies)| ==>
             sealed == Concat(bodies)[f.ciphertextOffset..f.ciphertextOffset + f.plaintextLen + 16]
    ensures f.plaintextOffset + f.plaintextLen <= |Concat(plaintexts)|
    ensures f.ciphertextOffset + f.plaintextLen + 16 <= |Concat(bodies)|
    ensures PartSealer(aead, SealerFor(s, i), objectId)(
              j, piece, j + 1 == Segments(s.layout.parts[i].plaintextLen, s.layout.chunkSize)) == Some(sealed)
  {
    assert SealedPartAt(aead, s, objectId, plaintexts, bodies, i);
    assert SealedChunk(PartSealer(aead, SealerFor(s, i), objectId), s.layout.chunkSize, plaintexts[i], bodies[i], j);
    JoinedPlain(s, plaintexts, bodies, i, j, f);
    JoinedSealed(s, plaintexts, bodies, i, j, f);
    ChunkIsSealed(PartSealer(aead, SealerFor(s, i), objectId), s.layout.chunkSize, plaintexts[i], bodies[i], j, piece, sealed);
  }

  lemma {:induction false} ChunkIsSealed(
      seal: ChunkSealer, chunk: nat, plaintext: Data, body: Data, j: nat, piece: Data, sealed: Data)
    requires chunk > 0 && SealedChunk(seal, chunk, plaintext, body, j) && piece == Chunk(plaintext, chunk, j)
    requires sealed == body[SealedStart(chunk, j)..SealedStart(chunk, j) + |piece| + 16]
    ensures seal(j, piece, j + 1 == Segments(|plaintext|, chunk)) == Some(sealed)
  {
  }

  lemma {:induction false} JoinedSegment(
      aead: Aead, s: Segmented, objectId: Text, plaintexts: seq<Data>, bodies: seq<Data>, i: nat, j: nat, k: nat,
      t: seq<Facts>)
    requires Lengths(s, plaintexts, bodies) && PartsSealed(aead, s, objectId, plaintexts, bodies)
    requires i < |s.layout.parts| && j < Segments(s.layout.parts[i].plaintextLen, s.layout.chunkSize)
    requires k < |t| && Expected(s, i, j, t[k])
    ensures SealedAt(aead, s, objectId, t, Concat(plaintexts), Concat(bodies), k)
  {
    var isFinal := j + 1 == Segments(s.layout.parts[i].plaintextLen, s.layout.chunkSize);
    JoinedChunkFits(s, plaintexts, bodies, i, j, t[k]);
    var piece, sealed := Piece(t, Concat(plaintexts), k), SealedPiece(t, Concat(bodies), k);
    JoinedChunk(aead, s, objectId, plaintexts, bodies, i, j, t[k], piece, sealed);
    SealsAs(aead, SealerFor(s, i), objectId, j, piece, isFinal, sealed);
    SameContext(s, objectId, i, j, t[k]);
  }

  lemma {:induction false} JoinedChunkFits(
      s: Segmented, plaintexts: seq<Data>, bodies: seq<Data>, i: nat, j: nat, f: Facts)
    requires Lengths(s, plaintexts, bodies) && i < |s.layout.parts|
    requires j < Segments(s.layout.parts[i].plaintextLen, s.layout.chunkSize) && Expected(s, i, j, f)
    ensures f.plaintextOffset + f.plaintextLen <= |Concat(plaintexts)|
    ensures f.ciphertextOffset + f.plaintextLen + 16 <= |Concat(bodies)|
  {
    JoinedPlain(s, plaintexts, bodies, i, j, f);
    JoinedSealed(s, plaintexts, bodies, i, j, f);
  }

  lemma {:induction false} SealsAs(
      aead: Aead, sealer: Sealer, objectId: Text, j: nat, piece: Data, isFinal: bool, sealed: Data)
    requires PartSealer(aead, sealer, objectId)(j, piece, isFinal) == Some(sealed)
    ensures j < U64_LIMIT && |piece| < U64_LIMIT
    ensures SealSegment(aead, sealer.keyId, SealerContext(sealer, objectId, j, |piece|, isFinal), piece) == Some(sealed)
  {
  }

  lemma {:induction false} ChunkLength(s: Segmented, i: nat, j: nat, f: Facts, part: Data)
    requires Built(s) && i < |s.layout.parts| && |part| == s.layout.parts[i].plaintextLen
    requires j < Segments(|part|, s.layout.chunkSize) && Expected(s, i, j, f)
    ensures var local := Chunks(j, s.layout.chunkSize);
            && local + f.plaintextLen <= |part|
            && Chunk(part, s.layout.chunkSize, j) == part[local..local + f.plaintextLen]
  {
    LocalFacts(s, i, j);
  }

  /** A segment of the joined plaintext is the chunk of its part. */
  lemma {:induction false} JoinedPlain(
      s: Segmented, plaintexts: seq<Data>, bodies: seq<Data>, i: nat, j: nat, f: Facts)
    requires Lengths(s, plaintexts, bodies) && i < |plaintexts|
    requires j < Segments(s.layout.parts[i].plaintextLen, s.layout.chunkSize) && Expected(s, i, j, f)
    ensures Chunks(j, s.layout.chunkSize) <= |plaintexts[i]|
    ensures f.plaintextOffset + f.plaintextLen <= |Concat(plaintexts)|
    ensures Concat(plaintexts)[f.plaintextOffset..f.plaintextOffset + f.plaintextLen]
         == Chunk(plaintexts[i], s.layout.chunkSize, j)
  {
    assert LengthsAt(s, plaintexts, bodies, i);
    ChunkLength(s, i, j, f, plaintexts[i]);
    JoinedLengths(s, plaintexts, bodies, i);
    var local := Chunks(j, s.layout.chunkSize);
    ConcatSlice(plaintexts, i, local, local + f.plaintextLen);
  }

  /** A segment of the joined ciphertext is the sealed chunk of its part. */
  lemma {:induction false} JoinedSealed(
      s: Segmented, plaintexts: seq<Data>, bodies: seq<Data>, i: nat, j: nat, f: Facts)
    requires Lengths(s, plaintexts, bodies) && i < |plaintexts|
    requires j < Segments(s.layout.parts[i].plaintextLen, s.layout.chunkSize) && Expected(s, i, j, f)
    ensures f.ciphertextOffset + f.plaintextLen + 16 <= |Concat(bodies)|
    ensures var at := SealedStart(s.layout.chunkSize, j);
            && at + f.plaintextLen + 16 <= |bodies[i]|
            && Concat(bodies)[f.ciphertextOffset..f.ciphertextOffset + f.plaintextLen + 16]
               == bodies[i][at..at + f.plaintextLen + 16]
  {
    assert LengthsAt(s, plaintexts, bodies, i);
    ChunkLength(s, i, j, f, plaintexts[i]);
    JoinedLengths(s, plaintexts, bodies, i);
    var at := SealedStart(s.layout.chunkSize, j);
    ConcatSlice(bodies, i, at, at + f.plaintextLen + 16);
  }

  lemma {:induction false} SameContext(s: Segmented, objectId: Text, i: nat, j: U64, f: Facts)
    requires Built(s) && i < |s.layout.parts| && Expected(s, i, j, f)
    ensures ContextFor(s, objectId, f) ==
            SealerContext(SealerFor(s, i), objectId, j, f.plaintextLen,
                          j + 1 == Segments(s.layout.parts[i].plaintextLen, s.layout.chunkSize))
  {
  }

  /** Any range of independently sealed and joined parts reads as that slice of the joined plaintext. */
  lemma {:induction false} JoinedRangeIsSlice(
      aead: Aead, s: Segmented, objectId: Text, plaintexts: seq<Data>, bodies: seq<Data>, range: ByteRange, span: Option<Span>)
    requires Correct(aead) && Built(s) && PartsSealed(aead, s, objectId, plaintexts, bodies)
    requires span == CiphertextSpan(s, range)
    ensures DropsTag(KeyringOpener(aead, s, objectId))
    ensures span.Some? <==> range.Full? || (0 < range.len && range.offset + range.len <= |Concat(plaintexts)|)
    ensures span.Some? ==>
              && span.value.offset + span.value.len <= |Concat(bodies)|
              && var sealed := Concat(bodies)[span.value.offset..span.value.offset + span.value.len];
              && var read := ReadRange(KeyringOpener(aead, s, objectId), s, range, span.value, sealed);
              && read.Some?
              && read.value.0 ==
                 if range.Full? then Concat(plaintexts) else Concat(plaintexts)[range.offset..range.offset + range.len]
  {
    JoinedPartsAreSealed(aead, s, objectId, plaintexts, bodies);
    RangeReadIsSlice(aead, s, objectId, Concat(plaintexts), Concat(bodies), range, span);
  }

  /** The layout of an object sealed as a single part. */
  function SinglePart(sealer: Sealer, plaintextLen: U64): Layout {
    Layout(sealer.chunkSize, plaintextLen, sealer.keyId, sealer.carrierId,
           [Part(sealer.partNumber, sealer.attemptId, plaintextLen)])
  }

  /** What sealing an object asks for. */
  predicate Sealable(sealer: Sealer, objectId: Text, plaintextLen: U64) {
    && Acceptable(SinglePart(sealer, plaintextLen))
    && 0 < |sealer.repositoryContext| <= 4096 && |objectId| <= 1024
  }

  lemma {:induction false} ChunksAtLeast(j: nat, chunk: nat)
    requires chunk > 0
    ensures Chunks(j, chunk) >= j
  {
    if j > 0 { ChunksAtLeast(j - 1, chunk); }
  }

  /** A chunk of a part is full unless it is the last one, and never empty. */
  lemma {:induction false} ChunkShape(plaintext: Data, chunk: nat, j: nat)
    requires chunk > 0 && plaintext != [] && j < Segments(|plaintext|, chunk)
    ensures j <= Chunks(j, chunk) < |plaintext| && 0 < |Chunk(plaintext, chunk, j)| <= chunk
    ensures j + 1 != Segments(|plaintext|, chunk) ==> |Chunk(plaintext, chunk, j)| == chunk
  {
    SegmentsBound(|plaintext|, chunk, j);
    ChunksAtLeast(j, chunk);
  }

  /** Every chunk seals exactly when the context is within its bounds. */
  lemma {:induction false} ChunkSeals(aead: Aead, sealer: Sealer, objectId: Text, plaintext: Data, j: nat)
    requires |plaintext| < U64_LIMIT && Acceptable(SinglePart(sealer, |plaintext|))
    requires j < Segments(|plaintext|, sealer.chunkSize) && 0 < |sealer.repositoryContext| <= 4096
    ensures Chunks(j, sealer.chunkSize) < |plaintext|
    ensures PartSealer(aead, sealer, objectId)(
              j, Chunk(plaintext, sealer.chunkSize, j), j + 1 == Segments(|plaintext|, sealer.chunkSize)).Some?
            <==> |objectId| <= 1024
  {
    ChunkShape(plaintext, sealer.chunkSize, j);
  }

  /** Seals a whole object as one part; the result is a stored payload of its layout. */
  method SealObject(aead: Aead, sealer: Sealer, objectId: Text, plaintext: Data)
    returns (stored: Option<(Segmented, Data)>)
    requires Correct(aead) && |plaintext| < U64_LIMIT
    ensures stored.Some? <==> Sealable(sealer, objectId, |plaintext|)
    ensures stored.Some? ==>
            && stored.value.0.layout == SinglePart(sealer, |plaintext|)
            && Sealed(aead, stored.value.0, objectId, plaintext, stored.value.1)
  {
    var layout := NewSegmented(SinglePart(sealer, |plaintext|), sealer.repositoryContext);
    if layout.None? { return None; }
    var s := layout.value;
    SealerAddsTag(aead, sealer, objectId);
    forall j | 0 <= j < Segments(|plaintext|, sealer.chunkSize)
      ensures Chunks(j, sealer.chunkSize) < |plaintext|
      ensures PartSealer(aead, sealer, objectId)(
                j, Chunk(plaintext, sealer.chunkSize, j), j + 1 == Segments(|plaintext|, sealer.chunkSize)).Some?
              <==> |objectId| <= 1024
    {
      ChunkSeals(aead, sealer, objectId, plaintext, j);
    }
    var body := SealPart(PartSealer(aead, sealer, objectId), sealer.chunkSize, plaintext);
    if body.None? { return None; }
    SegmentsBound(|plaintext|, sealer.chunkSize, 0);
    assert SealedChunk(PartSealer(aead, sealer, objectId), sealer.chunkSize, plaintext, body.value, 0);
    SinglePartSealed(aead, s, sealer, objectId, plaintext, body.value);
    stored := Some((s, body.value));
  }

  lemma {:induction false} SinglePartSealed(
      aead: Aead, s: Segmented, sealer: Sealer, objectId: Text, plaintext: Data, body: Data)
    requires Built(s) && |plaintext| < U64_LIMIT && s.layout == SinglePart(sealer, |plaintext|)
    requires s.repositoryContext == sealer.repositoryContext
    requires PartSealed(PartSealer(aead, sealer, objectId), sealer.chunkSize, plaintext, body)
    ensures Sealed(aead, s, objectId, plaintext, body)
  {
    assert SealerFor(s, 0) == sealer;
    assert SealedPartAt(aead, s, objectId, [plaintext], [body], 0);
    JoinedPartsAreSealed(aead, s, objectId, [plaintext], [body]);
    assert Concat([plaintext]) == plaintext && Concat([body]) == body;
  }
}
