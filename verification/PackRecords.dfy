/** The stored length of pack records, which index runs rely on, is the length that sealing gives. */
module PackRecords {
  import opened Prelude
  import opened RunModel
  import opened PayloadSealing

  /** Sealing content in 64 KiB chunks gives exactly as many bytes as a run reserves for the record. */
  lemma {:induction false} SealedRecordFits(seal: ChunkSealer, content: Data, body: Data)
    requires PartSealed(seal, 65536, content, body)
    ensures |body| == RecordStored(|content|) == |content| + 16 * ((|content| + 65535) / 65536)
  {
    RecordStoredIs(|content|);
  }
}
