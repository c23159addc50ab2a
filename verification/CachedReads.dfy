/** Ranges served from the decrypted-segment cache. */
module CachedReads {
  import opened Prelude
  import opened Types
  import opened PayloadLayout
  import opened SegmentAead
  import opened PayloadRange
  import Cache = SegmentCache

  /** Everything stored for an object is the right segment of its plaintext. */
  ghost predicate Honest(events: seq<Cache.Event>, id: Cache.ObjectRef, t: seq<Facts>, plaintext: Data) {
    forall i | 0 <= i < |events| :: HonestEvent(events[i], id, t, plaintext)
  }

  ghost predicate HonestEvent(event: Cache.Event, id: Cache.ObjectRef, t: seq<Facts>, plaintext: Data) {
    event.Stored? && event.key == Cache.KeyAt(id, event.key.index) ==>
      && event.key.index < |t|
      && var f := t[event.key.index];
      && f.plaintextOffset + f.plaintextLen <= |plaintext|
      && event.plaintext == Piece(t, plaintext, event.key.index)
  }

  lemma {:induction false} LastStoredIsHonest(
      limits: Cache.Limits, events: seq<Cache.Event>, id: Cache.ObjectRef, t: seq<Facts>, plaintext: Data, k: nat)
    requires Honest(events, id, t, plaintext) && Cache.LastStored(limits, events, Cache.KeyAt(id, k)).Some?
    ensures k < |t| && t[k].plaintextOffset + t[k].plaintextLen <= |plaintext|
    ensures Cache.LastStored(limits, events, Cache.KeyAt(id, k)).value == Piece(t, plaintext, k)
    decreases |events|
  {
    var n := |events| - 1;
    assert HonestEvent(events[n], id, t, plaintext);
    if !(events[n].Stored? && events[n].key == Cache.KeyAt(id, k) && |events[n].plaintext| <= limits.maxBytes) {
      forall i | 0 <= i < n ensures HonestEvent(events[..n][i], id, t, plaintext) {
        assert HonestEvent(events[i], id, t, plaintext);
      }
      LastStoredIsHonest(limits, events[..n], id, t, plaintext, k);
    }
  }

  /** Cached segments of an object are the segments of its plaintext. */
  lemma {:induction false} HeldIsCut(
      limits: Cache.Limits, events: seq<Cache.Event>, id: Cache.ObjectRef,
      t: seq<Facts>, plaintext: Data, x: Selection, n: nat)
    requires Honest(events, id, t, plaintext) && x.startSegment + n <= |t|
    requires Cache.Holds(Cache.Run(limits, events), id, x.startSegment, n)
    ensures Cut(t, x, plaintext, Cache.Held(Cache.Run(limits, events), id, x.startSegment, n))
  {
    var m := Cache.Run(limits, events);
    var held := Cache.Held(m, id, x.startSegment, n);
    Cache.HitsReturnLastStored(limits, events);
    forall i | 0 <= i < n ensures CutAt(t, x, plaintext, held, i) {
      assert Cache.KeyAt(id, x.startSegment + i) in m.values;
      LastStoredIsHonest(limits, events, id, t, plaintext, x.startSegment + i);
    }
  }

  /** After any run of the cache, a range whose segments are all cached is assembled into exactly
      the slice that opening the ciphertext would give. */
  lemma {:induction false} CachedRangeIsSlice(
      limits: Cache.Limits, events: seq<Cache.Event>, id: Cache.ObjectRef,
      s: Segmented, plaintext: Data, range: ByteRange, x: Selection)
    requires Built(s) && |plaintext| == s.layout.plaintextLen && Select(s, range) == Some(x)
    requires Honest(events, id, Table(s), plaintext) && x.startSegment < x.endSegment
    requires Cache.Holds(Cache.Run(limits, events), id, x.startSegment, x.endSegment - x.startSegment)
    ensures var held := Cache.Held(Cache.Run(limits, events), id, x.startSegment, x.endSegment - x.startSegment);
            CachedRead(s, range, x.startSegment, held) ==
            match range
            case Full => Some(plaintext)
            case Slice(offset, len) =>
              if 0 < len && offset + len <= |plaintext| then Some(plaintext[offset..offset + len]) else None
  {
    HeldIsCut(limits, events, id, Table(s), plaintext, x, x.endSegment - x.startSegment);
    var held := Cache.Held(Cache.Run(limits, events), id, x.startSegment, x.endSegment - x.startSegment);
    CachedReadIsSlice(s, plaintext, range, x.startSegment, held);
  }

  // ---------------------------------------------------------------- where cached segments come from

  /** The insertions that follow a range read: its opened segments, in order. */
  ghost predicate Inserts(events: seq<Cache.Event>, id: Cache.ObjectRef, first: nat, segments: seq<Data>) {
    && |events| == |segments|
    && forall i | 0 <= i < |events| :: InsertAt(events, id, first, segments, i)
  }

  ghost predicate InsertAt(events: seq<Cache.Event>, id: Cache.ObjectRef, first: nat, segments: seq<Data>, i: nat)
    requires i < |events| == |segments|
  {
    events[i].Stored? && events[i].key == Cache.KeyAt(id, first + i) && events[i].plaintext == segments[i]
  }

  /** Inserting the segments that a read of the stored payload opened keeps the cache honest. */
  lemma {:induction false} OpenedSegmentsAreHonest(
      aead: Aead, s: Segmented, objectId: Text, plaintext: Data, body: Data, range: ByteRange, span: Span, x: Selection,
      id: Cache.ObjectRef, before: seq<Cache.Event>, inserted: seq<Cache.Event>)
    requires Correct(aead) && Sealed(aead, s, objectId, plaintext, body)
    requires CiphertextSpan(s, range) == Some(span) && Select(s, range) == Some(x)
    requires Honest(before, id, Table(s), plaintext)
    requires DropsTag(KeyringOpener(aead, s, objectId))
    requires var read := ReadRange(KeyringOpener(aead, s, objectId), s, range, span, body[span.offset..span.offset + span.len]);
             read.Some? ==> Inserts(inserted, id, x.startSegment, read.value.1)
    ensures Honest(before + inserted, id, Table(s), plaintext)
  {
    SelectionReadIsSlice(aead, s, objectId, plaintext, body, range, span, x);
    var read := ReadRange(KeyringOpener(aead, s, objectId), s, range, span, body[span.offset..span.offset + span.len]);
    CutIsHonest(before, inserted, id, Table(s), plaintext, x, read.value.1);
  }

  lemma {:induction false} CutIsHonest(
      before: seq<Cache.Event>, inserted: seq<Cache.Event>, id: Cache.ObjectRef, t: seq<Facts>, plaintext: Data,
      x: Selection, segments: seq<Data>)
    requires Honest(before, id, t, plaintext) && Cut(t, x, plaintext, segments)
    requires Inserts(inserted, id, x.startSegment, segments)
    ensures Honest(before + inserted, id, t, plaintext)
  {
    var events := before + inserted;
    forall i | 0 <= i < |events| ensures HonestEvent(events[i], id, t, plaintext) {
      if i < |before| {
        assert HonestEvent(before[i], id, t, plaintext);
      } else {
        assert InsertAt(inserted, id, x.startSegment, segments, i - |before|);
        assert CutAt(t, x, plaintext, segments, i - |before|);
      }
    }
  }
}
