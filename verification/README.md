# Verified models of rs3

rs3 is an encrypted object store: it keeps its namespace in signed commits on an object-storage
backend, coordinates writers through one Kubernetes Lease and serves plaintext ranges from
segment-wise sealed payloads. This project models its protocol and codec core in Dafny and proves
what that core is for.

Four blocks are modelled.

- **Lease, fence and anchor protocol.** Guards acquire, renew and release a Lease; anchors advance a
  commit pointer stored in the same object; a fencing read settles updates whose replies were lost.
  `LeaseProtocol` is one interleaved state machine over any number of guards, anchors and calls, in
  which every read, decision, landing request and reply is a separate step, requests may land late
  and replies may be lost. `LeaseSafety` proves safety over every run, `LeaseTiming` bounds how far
  two local deadlines can overlap once releases are answered (`LeaseSettling`), and `LeaseOverlap`
  shows with concrete runs that the bound is reached and that each condition is needed.
  `LeaseOutcomes` says what callers are told, in every run and exactly when nothing disturbs them.
  `BootstrapJournal` and `JournalSaves` are the same for the bootstrap journal on a second object.
- **Canonical index-run codec.** `RunDecoding.DecodeFrames` and `RunEncoding.EncodeFrames` are the
  frame decoder and encoder with their loops and mutable state. They are proved against the
  specification `RunCodec.Decode`, which is complete for every cut of a run's canonical records,
  sound for arbitrary bytes, and injective given the cut. `Packing` and
  `FramePacking` prove that greedy packing is exact, uses the fewest frames and fails only when it
  must; `RunLimits` holds runs at the limits of the round trip. `RunModel.Sound` describes acceptable
  runs without the checks, and `FrozenVectors` and `FrozenCompletion` prove that whole runs are encoded
  into exactly the bytes of the repository's frozen vectors.
- **Segmented payloads.** `PayloadLayout` proves tiling and the absence of overflow, `SegmentAead`
  states what is assumed of encryption and that it can be met, `PayloadRange` proves that range reads
  are slices and that a sealed segment opens at its own place only, `PayloadSealing` that independently
  sealed parts join up, and `SegmentContext` that the bytes bound to a segment are injective.
- **Stateful structures.** A linked recency list, the byte-budgeted segment cache on it, the
  forward-and-reverse namespace index, and the table of newest completion receipts, each refined to
  a simple specification.

Properties that turned out to hold only under a condition are stated with the exact condition:

- An encoded run decodes again exactly when the record limits of metadata frames add up within a
  machine word and there are fewer than 2^32 metadata frames; fewer than 2^32 entries in the run are
  enough for the latter. Both failures occur: `RunLimits.LimitSumFails` and
  `RunLimits.FrameOrdinalsRunOut`, where the last of 2^32 frames has the largest 32-bit ordinal and
  decoding has none to expect next.
- A written anchor reads back exactly when its format digest is non-empty and no version-2
  annotation is present. The writer accepts an empty format digest, the reader refuses it.
- Two writers can be locally live at once when an acquiring call reads the Lease later than the time
  it was given, by at most that delay; when a release landed but was not answered; and when a renewal
  is answered after the guard's own release.
- A decoded run can be encoded again only if its composite checksums count the parts of their ETags,
  which decoding does not compare.

Conventions: error values are collapsed to `None` or to a small outcome type; machine words are 64
bits wide and every width, wrap-around and saturation that matters is written out; text is
well-formed UTF-8 bytes (RFC 3629).

## Model

| member | source | states |
|---|---|---|
| `LeaseSafety.FencedWritesInEveryRun` | crates/rs3-k8s/src/lib.rs:174-288 | in every run of any number of guards and anchors, with requests landing late or never, a fenced anchor write lands only on a Lease that carries exactly its writer's holder and token, and once an acquisition has landed no fenced write of an older epoch ever lands |
| `LeaseHistory.FencedWriteHolds` | crates/rs3-k8s/src/lib.rs:250-288 | the revision a fenced write replaces and the one it leaves both carry the writer's claim |
| `LeaseHistory.FencedWriteSafety` | crates/rs3-k8s/src/lib.rs:174-223 | a fenced write that lands after an acquisition has at least that acquisition's token, whatever its local deadline says |
| `LeaseHistory.UnfencedWritesYield` | crates/rs3-k8s/src/lib.rs:262-277 | an unfenced anchor write lands only where no writer epoch is held |
| `LeaseOutcomes.FencingReadIsFinal` | crates/rs3-k8s/src/lib.rs:131-172 | once the caller of a fencing read has its answer, no request computed from an earlier revision lands in any continuation of the run; the anchor the caller is told decides the fate of every such request: still the expected parent means it never takes effect, taken effect means the anchor told is at least as new |
| `LeaseSafety.FencingRevisionIsFinal` | crates/rs3-k8s/src/lib.rs:131-172 | the same about the anchor of the landed revision |
| `LeaseOutcomes.AnchorAnswersInEveryRun` | crates/rs3-k8s/src/lib.rs:140-223 | in every run the caller of an accepted fencing read or advance is told the anchor stored by its own revision; for an advance with a format digest that is the anchor it asked for |
| `LeaseOutcomes.AdvanceIsTold` | crates/rs3-k8s/src/lib.rs:196-223 | an accepted advance ends with exactly the anchor it wrote, or as unreadable for an empty format digest, and changes nothing else |
| `LeaseOutcomes.FencingReadIsTold` | crates/rs3-k8s/src/lib.rs:145-163 | an accepted fencing read ends with the anchor of its revision, which is the one of the revision it replaced |
| `LeaseOutcomes.OwnerIsTold` | crates/rs3-k8s/src/lease_guard.rs:492-519 | an accepted acquisition or renewal ends owning the epoch that the stored Lease names, one above the epoch before for an acquisition; its guard is active with it, counting from the time of the call |
| `LeaseOutcomes.ReleaseIsTold` | crates/rs3-k8s/src/lease_guard.rs:406-442 | an accepted release is told so, the Lease is free and the guard inactive |
| `LeaseOutcomes.UndisturbedAdvance` | crates/rs3-k8s/src/lib.rs:174-223 | an undisturbed advance writes exactly when the stored anchor is the expected one, the next one is the same or newer and the writer may write; a wrong parent or an older sequence is stale, everything else fails without writing |
| `LeaseOutcomes.UndisturbedFencingRead` | crates/rs3-k8s/src/lib.rs:140-172 | an undisturbed fencing read tells the stored anchor after one write that changes the Lease, or none where no Lease exists, and fails exactly when the writer may not write |
| `LeaseOutcomes.UndisturbedAcquire` | crates/rs3-k8s/src/lease_guard.rs:276-354 | an undisturbed acquisition gains epoch one of a missing Lease, the next epoch of a free one, and a held one exactly when the watched record is unchanged and its duration has passed; first sight and change only (re)start the watch, and a change is reported as a live writer |
| `LeaseOutcomes.UndisturbedRenew` | crates/rs3-k8s/src/lease_guard.rs:357-403 | an undisturbed renewal keeps the epoch with the next renewal count; a guard whose Lease is gone or carries another epoch becomes inactive |
| `LeaseOutcomes.UndisturbedRelease` | crates/rs3-k8s/src/lease_guard.rs:406-442 | an undisturbed release frees the Lease with the same epoch and the next renewal count; a guard whose Lease is gone or carries another epoch becomes inactive |
| `LeaseOutcomes.RefusalRetries` | crates/rs3-k8s/src/lease_guard.rs:281-354 | a refused request sends its caller back to reading, and the sixteenth refusal ends the call with a conflict |
| `LeaseOutcomes.AttemptsAreBounded` | crates/rs3-k8s/src/lease_guard.rs:281-354 | in every run a call tries at most sixteen times |
| `LeaseOutcomes.ClocksRunFromJoining` | crates/rs3-k8s/src/lease_guard.rs:66-82 | a guard's monotonic clock starts at zero and runs with the time that passes |
| `LeaseSafety.AcceptedAdvanceReads` | crates/rs3-k8s/src/lib.rs:196-223 | the revision of an accepted advance reads back as exactly the anchor it wrote, or as unreadable when the format digest is empty |
| `LeaseSafety.AnchorHistoryInEveryRun` | crates/rs3-k8s/src/lib.rs:174-223 | in every run the anchor changes only by an advance from exactly its expected parent to a strictly larger sequence; it never goes back and never becomes absent again |
| `LeaseHistory.AnchorStep` | crates/rs3-k8s/src/lib.rs:181-223 | one revision: a changed anchor comes from an advance that expected exactly the replaced anchor |
| `LeaseHistory.AnchorsAdvance` | crates/rs3-k8s/src/lib.rs:181-223 | of any two revisions the later one is unreadable or at least as new |
| `Leases.AnchorRoundTrip` | crates/rs3-k8s/src/lib.rs:290-430 | writing an anchor over any Lease and decoding it gives that anchor if and only if the format digest is non-empty and no version-2 annotation is present; otherwise it is refused |
| `Leases.AnchorWriteClearsStaleVersions` | crates/rs3-k8s/src/lib.rs:290-348 | after an anchor write each optional version annotation is present exactly when the anchor has that version |
| `Leases.AnchorReadExactly` | crates/rs3-k8s/src/lib.rs:350-447 | an anchor is read exactly when the format is 3, no version-2 annotation is present, every mandatory annotation is well formed and the optional ones are not blank, and then field by field |
| `Leases.NoAnchorExactly` | crates/rs3-k8s/src/lib.rs:350-376 | a Lease has no anchor exactly when all its annotations belong to coordination, fencing or others; anything in between is refused |
| `Leases.BumpChanges` | crates/rs3-k8s/src/lib.rs:147-154 | a fencing read writes a counter one higher modulo 2^64, so the Lease it sends always differs from the one it read, in that annotation only |
| `Leases.TransitionsCounted` | crates/rs3-k8s/src/lease_guard.rs:738-767 | the transition counter rises by one exactly when an acquisition replaces another holder |
| `Leases.GuardWritesKeepAnchor` | crates/rs3-k8s/src/lease_guard.rs:738-787 | acquisition, renewal, release and fencing-read rewrites leave the decoded anchor unchanged |
| `Leases.AnchorWriteKeepsCoordination` | crates/rs3-k8s/src/lib.rs:290-348 | anchor writes leave holder, token, renewal counter and duration unchanged |
| `Leases.GuardStateCoordination` | crates/rs3-k8s/src/lease_guard.rs:738-767 | the coordination record read from a rewritten Lease is exactly the claim, counter and duration written |
| `Leases.ReleasedStateCoordination` | crates/rs3-k8s/src/lease_guard.rs:769-787 | a released Lease reads as the same record without its holder and with the new counter |
| `Numerals.DecimalRoundTrip` | crates/rs3-k8s/src/lease_guard.rs:814-827 | a counter annotation parses back to the counter written |
| `Numerals.HexRoundTrip` | crates/rs3-k8s/src/lib.rs:442-447 | a digest annotation decodes to the digest written |
| `Numerals.HexDigits` | crates/rs3-k8s/src/lib.rs:302-305 | every byte of a digest is two lower-case digits, the high one first |
| `Numerals.DecimalDigits` | crates/rs3-k8s/src/lib.rs:297-300 | a counter is written in decimal, most significant digit first |
| `LeaseHistory.StepCounters` | crates/rs3-k8s/src/lease_guard.rs:296-314 | per landed write: the token rises by one exactly on acquisition, the renewal counter by one exactly on guard writes, and other writes leave the coordination record alone |
| `LeaseHistory.CountersRise` | crates/rs3-k8s/src/lease_guard.rs:296-314 | over any stretch of history both counters never fall and rise strictly past acquisitions and guard writes |
| `LeaseHistory.EqualRenewalsMeanNoGuardWrite` | crates/rs3-k8s/src/lease_guard.rs:444-478 | equal renewal counters at two revisions rule out every guard write between them |
| `LeaseHistory.TakeoverHasNoAba` | crates/rs3-k8s/src/lease_guard.rs:444-478 | a takeover of a held Lease carries an observation of that very record, at least the stored duration old on the acquirer's clock, and no guard write landed since |
| `LeaseSafety.TakeoversInEveryRun` | crates/rs3-k8s/src/lease_guard.rs:276-354 | the same for every takeover of every run |
| `LeaseSafety.NextInv` | crates/rs3-k8s/src/lease_guard.rs:276-442 | every step of calls, requests and replies keeps the protocol invariant: each request and revision is what its operation computes from the revision it names |
| `LeaseSafety.RunInv` | crates/rs3-k8s/src/lease_guard.rs:276-442 | the invariant holds in every reachable state |
| `LeaseOwnership.TokenHasOneOwner` | crates/rs3-k8s/src/lease_guard.rs:296-314 | an epoch token belongs to one acquisition, hence to one guard |
| `LeaseOwnership.NextOwned` | crates/rs3-k8s/src/lease_guard.rs:492-519 | every step keeps: a guard's local claim was acquired by that guard and its last success is a landed write of its own |
| `LeaseTiming.EpochStands` | crates/rs3-k8s/src/lease_guard.rs:357-404 | while the token stands and its owner has not released, the Lease stays held by that claim with the owner's own duration |
| `LeaseSettling.AnsweredReleasesSettle` | crates/rs3-k8s/src/lease_guard.rs:406-442 | if every landed release is answered before the next request lands, none is abandoned under way, and none is acknowledged while another owning call of its guard awaits its reply, then in every reachable state a guard whose release is no longer the newest write is inactive |
| `LeaseSettling.ReleasedStaysGone` | crates/rs3-k8s/src/lease_guard.rs:406-442 | after a release no later revision ever carries the released holder and token again |
| `LeaseSettling.NextIsSettling` | crates/rs3-k8s/src/lease_guard.rs:406-442 | every step keeps that each landed release is the newest write and unanswered, or its guard inactive with no reply left that could revive it |
| `LeaseTiming.TakeoverWaited` | crates/rs3-k8s/src/lease_guard.rs:444-478 | a takeover lands no earlier than the former holder's duration after that holder's last success, less the read delay |
| `LeaseTiming.OverlapIsBounded` | crates/rs3-k8s/src/lease_guard.rs:107-117 | in every run whose acquiring calls read within `delta` of their supplied time and whose releases are answered (`LeaseSettling`), of two locally live writers one has at most `delta` left |
| `LeaseTiming.TimedExclusion` | crates/rs3-k8s/src/lease_guard.rs:107-117 | when acquiring calls read at their supplied time (`delta` zero) and releases are answered, at most one guard's fence is locally live in every reachable state |
| `LeaseOverlap.OverlapIsReached` | crates/rs3-k8s/src/lease_guard.rs:276-314 | the bound is exact: for every delay up to the lease duration a concrete run has two live writers, the older one with exactly that delay left |
| `LeaseOverlap.UnansweredReleaseOverlaps` | crates/rs3-k8s/src/lease_guard.rs:406-442 | answering releases is needed: a run with no delay at all in which an unanswered release leaves two writers live |
| `LeaseOverlap.LateRenewalOverlaps` | crates/rs3-k8s/src/lease_guard.rs:492-519 | the quiet condition is needed: a run with no delay and every release answered in which a renewal answered after the guard's own release makes it live beside the next writer |
| `BootstrapJournal.EpochsInEveryRun` | crates/rs3-k8s/src/bootstrap_journal.rs:198-268 | in every interleaving of claims and saves the stored epoch never decreases and every revision carries its writer's epoch |
| `BootstrapJournal.NoOlderEpochAfterClaim` | crates/rs3-k8s/src/bootstrap_journal.rs:285-354 | no write of an older epoch lands after a write of a newer one |
| `BootstrapJournal.WritesLoseNothing` | crates/rs3-k8s/src/bootstrap_journal.rs:305-354 | each write replaces exactly the Secret its handle read or last confirmed; a claim keeps the data; a save stores exactly the state and the evidence it was given, and no other field, and changes nothing but the data |
| `JournalSaves.SavesWereAsked` | crates/rs3-k8s/src/bootstrap_journal.rs:305-323 | in every run, what a save stored was given to a save of that very handle |
| `JournalSaves.LastSaveIsHeld` | crates/rs3-k8s/src/bootstrap_journal.rs:270-323 | in every run the journal holds exactly the bytes of the last save, across any number of claims |
| `JournalSaves.UnsavedIsDeclared` | crates/rs3-k8s/src/bootstrap_journal.rs:198-268 | before the first save the journal holds what it was declared with |
| `JournalSaves.ReadyHandleKnows` | crates/rs3-k8s/src/bootstrap_journal.rs:270-283 | a ready handle holds a stored revision of its own epoch and Lease, so it reports the state last saved |
| `JournalSaves.ReadyStays` | crates/rs3-k8s/src/bootstrap_journal.rs:305-323 | nothing but an acceptable save of its own moves a ready handle |
| `JournalSaves.ConfirmedMeans` | crates/rs3-k8s/src/bootstrap_journal.rs:341-353 | a confirmed update is a stored revision with the data, the identity, the ownership notes and the epoch that were sent |
| `JournalSaves.LostReplyReconciled` | crates/rs3-k8s/src/bootstrap_journal.rs:331-354 | after a lost reply the handle is ready exactly when the newest revision is valid and has what was sent, and poisoned otherwise |
| `JournalSaves.ValidExactly` | crates/rs3-k8s/src/bootstrap_journal.rs:373-409 | a Secret is a valid journal exactly when it is the declared one, marked, mutable, opaque, not being deleted, and holds nothing but a non-empty state of at most 512 KiB with evidence that never stands alone |
| `JournalSaves.ClaimableExactly` | crates/rs3-k8s/src/bootstrap_journal.rs:214-245 | a Secret may be claimed exactly when it is untouched, or bound to its own UID and this Lease in an epoch, in canonical decimal, that is not newer |
| `JournalSaves.UndisturbedClaim` | crates/rs3-k8s/src/bootstrap_journal.rs:198-268 | an undisturbed claim succeeds exactly then, and the new revision differs in its three ownership notes only |
| `JournalSaves.UndisturbedSave` | crates/rs3-k8s/src/bootstrap_journal.rs:305-354 | an undisturbed save stores exactly its bytes; empty or oversized bytes leave the handle as it is; a revision in between poisons it |
| `BootstrapJournal.OneLeaseForever` | crates/rs3-k8s/src/bootstrap_journal.rs:198-268 | once claimed, all later revisions stay bound to the same Lease |
| `BootstrapJournal.PoisonIsForever` | crates/rs3-k8s/src/bootstrap_journal.rs:325-354 | a poisoned handle stays poisoned and never sends another write, over every continuation |
| `BootstrapJournal.AttemptIsLastUnlessConfirmed` | crates/rs3-k8s/src/bootstrap_journal.rs:325-354 | from the moment a handle sends an update it sends nothing more in any continuation, and only waits, rereads or is poisoned, unless at some point it learns that this very update is stored exactly |
| `BootstrapJournal.RunInv` | crates/rs3-k8s/src/bootstrap_journal.rs:198-354 | the invariant behind these holds in every reachable state |
| `RunEncoding.EncodeFrames` | crates/rs3-index/src/run.rs:745-962 | gives frames exactly when the run is valid, every record and frame is within its limit, the greedy packing of each role exists and the total fits; the frames decode to exactly that run if and only if the metadata record limits add up within a machine word and there are fewer than 2^32 metadata frames, and are refused otherwise |
| `RunEncoding.RoundTrip` | crates/rs3-index/src/run.rs:745-962 | the same about the frames of any valid run: decode after encode is the identity exactly under that condition |
| `RunEncoding.SmallRunsRoundTrip` | crates/rs3-index/src/run.rs:745-962 | by what a caller knows beforehand: if the limits add up within a machine word and the run has fewer than 2^32 entries in all, decode after encode is the identity |
| `RunLimits.LimitSumFails` | crates/rs3-index/src/run.rs:1789-1798 | the limit condition is needed: a concrete run and limits under which it is encoded and then refused |
| `RunLimits.FrameOrdinalsRunOut` | crates/rs3-index/src/run.rs:1318-1420 | the frame condition is needed: a concrete run of 2^32 - 1 key names and one pack is encoded into exactly 2^32 metadata frames, under limits that add up, and is then refused, also as a bundle |
| `RunLimits.OrdinaryFramed` | crates/rs3-index/src/run.rs:745-962 | valid runs with short records always have frames; records of which no two share a frame get one each |
| `RunEncoding.DecodedIsAccepted` | crates/rs3-index/src/run.rs:2569-2666 | a decoded run passes the encoder's validation if and only if each composite checksum counts the parts of its ETag |
| `RunLimits.DecodedButNotAccepted` | crates/rs3-index/src/run.rs:2593-2598 | a concrete decodable run that nothing encodes |
| `RunEncoding.Validate` | crates/rs3-index/src/run.rs:745-765 | the validation loops and the span check accept exactly the sound runs whose composite checksums count the parts of their ETags |
| `RunEncoding.EncodedEncodes` | crates/rs3-index/src/run.rs:745-962 | under the condition the frames are an encoding in the sense of the decoder's soundness theorem: the canonical record lists, cut into frames |
| `RunEncoding.TooManyRefused` | crates/rs3-index/src/run.rs:1763-1848 | 2^32 metadata frames are always refused by decoding |
| `RunEncoding.SumTooLargeRefused` | crates/rs3-index/src/run.rs:1789-1798 | if the metadata record limits overflow a word, nothing encoded is readable |
| `RunEncoding.EncodedWithin` | crates/rs3-index/src/run.rs:1020-1115 | every frame is within the frame limit and there are at most three frames per mutation plus one per container plus one |
| `RunEncoding.PackedHeld` | crates/rs3-index/src/run.rs:1020-1115 | every packed frame is the byte form of its piece of the record list |
| `RunEncoding.PackedFlattens` | crates/rs3-index/src/run.rs:1020-1115 | the pieces of the packed frames join up to the record lists, in order |
| `RunEncoding.PackLists` | crates/rs3-index/src/run.rs:926-953 | prepares and packs the three roles; refuses exactly when a record is oversized or a role has no packing |
| `RunEncoding.PrepareMetas` | crates/rs3-index/src/run.rs:783-845 | prepares metadata records, refusing exactly when one exceeds its limit |
| `RunEncoding.PrepareNamespace` | crates/rs3-index/src/run.rs:847-891 | prepares namespace records, refusing exactly when one exceeds the limit |
| `RunEncoding.PrepareListing` | crates/rs3-index/src/run.rs:893-924 | prepares listing bodies, refusing exactly when one exceeds the limit |
| `RunCodec.DecodeComplete` | crates/rs3-index/src/run.rs:1301-1420 | every encoding of an acceptable run decodes to it, however its records are cut into frames |
| `RunCodec.DecodeSound` | crates/rs3-index/src/run.rs:1301-1749 | whatever bytes are accepted are an encoding of the decoded run, and that run is sound: tables ordered and fully used, ordinals dense, payload pointers in bounds, pack records equal or disjoint, the receipt covering its upsert |
| `RunModel.RunOkExactly` | crates/rs3-index/src/run.rs:2346-2666 | what both directions check holds exactly for sound runs, which are described without the checks and with the constants written out |
| `RunModel.PlacedExactly` | crates/rs3-index/src/run.rs:2684-2791 | pointer and claim checks pass exactly when every pointer is in bounds and any two records of a pack are the same or apart, where a record takes its content and 16 bytes for every started 64 KiB |
| `RunModel.RecordStoredIs` | crates/rs3-index/src/run.rs:2730-2739 | a record is stored as its content and 16 bytes for every started 64 KiB |
| `PackRecords.SealedRecordFits` | crates/rs3-index/src/run.rs:2730-2739 | that is exactly the length that sealing the content in 64 KiB chunks gives |
| `FrozenVectors.ExternalPackVector` | crates/rs3-index/src/run.rs:4226-4233 | the run of the frozen external-pack vector is encoded into exactly the frozen bytes, which decode to it |
| `FrozenCompletion.CompletionVector` | crates/rs3-index/src/run.rs:3484-3517 | the run of the frozen completion vector, with a stream, a receipt and a checksum, is encoded into exactly the frozen bytes, which decode to it |
| `FrozenVectors.EncodingIsOnly` | crates/rs3-index/src/run.rs:732-743 | whatever encodes such a run gives those bytes |
| `FrozenRecords.Tags` | crates/rs3-index/src/run.rs:2801-2954 | the tags of pointers, retention modes, holds and checksum algorithms |
| `FrozenRecords.SelfPackBytes` | crates/rs3-index/src/run.rs:1128-1155 | the bytes of the commit's own pack in a metadata header |
| `RunRecords.MetaOkExactly` | crates/rs3-index/src/run.rs:1243-1251 | a stream record may take 512 KiB or a frame, every other record the ordinary limit |
| `Order.LessExactly` | crates/rs3-index/src/run.rs:2346-2355 | byte strings are ordered by their first difference, a proper prefix first |
| `RunCodec.DecodeInjective` | crates/rs3-index/src/run.rs:1301-1749 | two accepted frame lists that decode to the same run and cut each role at the same boundaries are byte-identical |
| `RunDecoding.DecodeFrames` | crates/rs3-index/src/run.rs:1301-1420 | the frame-by-frame decoder computes exactly the specified decoding of any list of byte strings |
| `RunDecoding.ReadFrame` | crates/rs3-index/src/run.rs:1763-1848 | reads a header and its records and refuses leftovers, as the frame grammar says |
| `RunDecoding.TakeFrame` | crates/rs3-index/src/run.rs:1318-1420 | one loop step: refusal implies that the whole list is refused; success keeps the decoder in step with the scanned prefix |
| `RunDecoding.Absorb` | crates/rs3-index/src/run.rs:1433-1685 | a frame is absorbed exactly when scanning accepts it, and the fields then stand for the scanned state |
| `RunProgress.ProgressFollows` | crates/rs3-index/src/run.rs:1318-1420 | the running header facts (role, ordinals, counts, sequence) are those of the scanned state |
| `RunDecoder.FrameDecoder.DecodeMetadata` | crates/rs3-index/src/run.rs:1433-1559 | succeeds exactly when the metadata frame is acceptable after what was read, and extends the tables by its records |
| `RunDecoder.FrameDecoder.DecodeNamespace` | crates/rs3-index/src/run.rs:1561-1633 | succeeds exactly when the records extend the sorted namespace list, and files each in the slot of its ordinal |
| `RunDecoder.FrameDecoder.DecodeListing` | crates/rs3-index/src/run.rs:1635-1685 | succeeds exactly when the records extend the sorted listing list and pair with their waiting namespace records |
| `RunDecoder.FrameDecoder.CheckUse` | crates/rs3-index/src/run.rs:2155-2212 | every container, stream and key name is used, and the commit's own pack exactly when named |
| `RunDecoder.FrameDecoder.FinishRun` | crates/rs3-index/src/run.rs:1687-1749 | the final checks give exactly the specified run or refuse |
| `RunScan.ScanSound` | crates/rs3-index/src/run.rs:1301-1420 | scanning accepts only frames laid out as metadata, namespace, listing with rising ordinals and agreeing facts, whose records satisfy every list condition |
| `RunScan.ScanComplete` | crates/rs3-index/src/run.rs:1301-1420 | every such layout is accepted |
| `RunScan.LaidUnique` | crates/rs3-index/src/run.rs:1128-1155 | the common facts and the cut determine the frames |
| `RunFinish.FinishSound` | crates/rs3-index/src/run.rs:1687-1749 | an assembled run is acceptable and the records read are its canonical lists |
| `RunFinish.FinishComplete` | crates/rs3-index/src/run.rs:1687-1749 | a cut of an acceptable run finishes and gives the run back |
| `RunTables.AddMetasSound` | crates/rs3-index/src/run.rs:1433-1559 | accepted metadata keeps the fixed record order and the strict table orders |
| `RunTables.PathChains` | crates/rs3-index/src/run.rs:1433-1559 | the records of ordered tables are accepted from any point on and rebuild the tables |
| `Canonical.PairOfProjections` | crates/rs3-index/src/run.rs:2093-2153 | pairing the two projections of a mutation gives the mutation |
| `Canonical.ProjectionsOfPair` | crates/rs3-index/src/run.rs:2093-2153 | projecting a paired mutation gives the two records it came from |
| `Canonical.NsListUnique` | crates/rs3-index/src/run.rs:847-852 | a sorted complete namespace list is determined by the mutations |
| `Canonical.LsListUnique` | crates/rs3-index/src/run.rs:893-900 | a sorted complete listing list is determined by the mutations |
| `Canonical.NameTableUnique` | crates/rs3-index/src/run.rs:766-776 | the interned key table is determined by the mutations |
| `Canonical.NameTableSize` | crates/rs3-index/src/run.rs:766-776 | there are no more interned names than mutations |
| `Canonical.NsRecords` | crates/rs3-index/src/run.rs:847-891 | the namespace list holds every mutation once, in order of blind key and ordinal |
| `Canonical.LsRecords` | crates/rs3-index/src/run.rs:893-924 | the listing list holds every mutation once, in order of path and ordinal |
| `Spans.CheckClaims` | crates/rs3-index/src/run.rs:2741-2791 | the check of adjacent sorted spans succeeds exactly when any two pack pointers of the run name the same record with equal facts or occupy disjoint ranges |
| `Spans.CheckNeighbours` | crates/rs3-index/src/run.rs:2778-2790 | comparing each sorted span with its neighbour decides whether all spans agree |
| `Spans.ClearMeansAgree` | crates/rs3-index/src/run.rs:2778-2790 | clear neighbours in sorted order make all spans of a pack disjoint |
| `Spans.NotClearDisagrees` | crates/rs3-index/src/run.rs:2778-2790 | neighbours that are not clear overlap |
| `Spans.Gather` | crates/rs3-index/src/run.rs:2743-2777 | one span per distinct record is collected, refusing exactly when two claims differ on one record |
| `FramePacking.PackFrames` | crates/rs3-index/src/run.rs:1020-1115 | packs all records in order into frames within the limit, as full as possible and as few as any order-preserving split that fits; refuses exactly when the greedy cut does not exist or one of its frames cannot be written |
| `Packing.GreedyIsOptimal` | crates/rs3-index/src/run.rs:1020-1115 | no order-preserving split that fits uses fewer frames, although a listing record's length depends on its in-frame predecessor |
| `FramePacking.SplitMeansGreedy` | crates/rs3-index/src/run.rs:1020-1115 | whenever any order-preserving split fits, the greedy cut exists |
| `FramePacking.RefusalMeans` | crates/rs3-index/src/run.rs:1020-1115 | refusal although some split fits means that a frame of the one greedy cut has an unrepresentable ordinal or count, an oversized record where it stands, or overflows a word |
| `FramePacking.PackedUnique` | crates/rs3-index/src/run.rs:1020-1115 | packing has at most one result, cut and bytes |
| `Packing.GreedyStaysAhead` | crates/rs3-index/src/run.rs:1034-1067 | after as many frames, greedy packing has reached at least as far as any other split |
| `Packing.StuckMeansNoSplit` | crates/rs3-index/src/run.rs:1068-1074 | a record that does not fit alone in the next frame means that no split fits at all |
| `Packing.DropFirst` | crates/rs3-index/src/run.rs:981-993 | leaving out the first record of a frame never makes the frame longer, despite front coding |
| `Packing.DroppingPays` | crates/rs3-index/src/run.rs:981-993 | coding a record without its predecessor costs at most what the two cost together |
| `Packing.VarintLenSum` | crates/rs3-index/src/run.rs:2995-3002 | the varint of a sum is at most one byte longer than the longer varint of its parts |
| `Packing.EncodedLenIs` | crates/rs3-index/src/run.rs:981-1003 | the planned record length is the number of bytes written |
| `Packing.HeaderLenIs` | crates/rs3-index/src/run.rs:1157-1202 | the planned header length is the number of bytes written |
| `Packing.FrameLenIs` | crates/rs3-index/src/run.rs:1020-1115 | the planned frame length is the number of bytes written |
| `Packing.FillFrame` | crates/rs3-index/src/run.rs:1037-1067 | a frame stops exactly where the next record would exceed the limit, and is refused exactly when adding that record overflows a word |
| `Packing.WriteFrame` | crates/rs3-index/src/run.rs:1075-1097 | writing succeeds exactly for frames planned within the limit with records within theirs, and writes the planned bytes |
| `Packing.EncodeBodies` | crates/rs3-index/src/run.rs:1090-1097 | codes each record against its in-frame predecessor, refusing exactly when one exceeds its limit |
| `FramePacking.CutFrame` | crates/rs3-index/src/run.rs:1033-1113 | cuts one frame off: the frames so far stay within the limit, full, and the bytes of their pieces; refuses exactly when no packing of the records exists |
| `RunBundle.EncodeBundle` | crates/rs3-index/src/run.rs:732-743 | bundles exactly the encodable runs whose bundle fits; it decodes to exactly the run if and only if the frame limit fits a word and there are fewer than 2^32 metadata frames |
| `RunBundle.BundleRoundTrip` | crates/rs3-index/src/run.rs:732-743 | the same about the encoded value |
| `RunBundle.SmallBundlesRoundTrip` | crates/rs3-index/src/run.rs:732-743 | by what a caller knows beforehand: limits that add up and fewer than 2^32 entries give the identity |
| `RunLimits.BundleLimitFails` | crates/rs3-index/src/run.rs:2221-2227 | the frame limit condition is needed: concrete limits under which frames decode but their bundle is refused |
| `RunBundle.DecodeBundle` | crates/rs3-index/src/run.rs:2216-2237 | computes the specified decoding of any byte string |
| `RunBundle.UnbundleRoundTrip` | crates/rs3-index/src/run.rs:2216-2237 | a bundle is taken apart into the frames it was made of |
| `RunBundle.UnbundleCanonical` | crates/rs3-index/src/run.rs:2216-2237 | an accepted bundle is the one byte form of its frames |
| `RunBundle.TruncationRefused` | crates/rs3-index/src/run.rs:2216-2245 | every truncation of an accepted bundle is refused |
| `RunBundle.ExtendedBundleRefused` | crates/rs3-index/src/run.rs:2216-2245 | nothing may follow an accepted bundle |
| `RunBundle.WriteBundle` | crates/rs3-index/src/run.rs:732-743 | written exactly when the total and every frame fit, as count and length-prefixed frames |
| `RunFrames.FrameRoundTrip` | crates/rs3-index/src/run.rs:1128-1155 | a frame is read back exactly |
| `RunFrames.FrameCanonical` | crates/rs3-index/src/run.rs:1763-1848 | an accepted frame is the one byte form of what was read |
| `RunFrames.HeaderRoundTrip` | crates/rs3-index/src/run.rs:1128-1155 | a header within the limits is read back exactly, whatever follows |
| `RunFrames.HeaderCanonical` | crates/rs3-index/src/run.rs:1763-1848 | an accepted header is the one byte form of its facts, which are within the limits |
| `RunFrames.LssRoundTrip` | crates/rs3-index/src/run.rs:2037-2090 | a chain of front-coded listing records is read back exactly |
| `RunFrames.LssCanonical` | crates/rs3-index/src/run.rs:2037-2090 | an accepted chain of listing records has exactly that byte form |
| `RunRecords.MetaRoundTrip` | crates/rs3-index/src/run.rs:783-845 | container, stream, key-name and receipt records are read back exactly, within their limits |
| `RunRecords.MetaCanonical` | crates/rs3-index/src/run.rs:1463-1559 | an accepted metadata record is the one byte form of a valid entry within its limit |
| `RunRecords.ContainerRoundTrip` | crates/rs3-index/src/run.rs:1212-1242 | a pack container is read back exactly |
| `RunRecords.ContainerCanonical` | crates/rs3-index/src/run.rs:1858-1887 | an accepted container is valid and is the one byte form of its facts |
| `RunRecords.LayoutRoundTrip` | crates/rs3-index/src/run.rs:1253-1265 | a payload layout is read back exactly |
| `RunRecords.LayoutCanonical` | crates/rs3-index/src/run.rs:1267-1298 | an accepted layout is valid and is the one byte form of its facts |
| `Projections.NsRoundTrip` | crates/rs3-index/src/run.rs:853-891 | a namespace record is read back exactly |
| `Projections.NsCanonical` | crates/rs3-index/src/run.rs:1959-2035 | an accepted namespace record is the one byte form of its facts |
| `Projections.LsRoundTrip` | crates/rs3-index/src/run.rs:901-924 | a listing record is read back exactly against the same predecessor |
| `Projections.LsCanonical` | crates/rs3-index/src/run.rs:2037-2090 | an accepted listing record is the one byte form of its facts after its predecessor |
| `Projections.PathRoundTrip` | crates/rs3-index/src/run.rs:995-1003 | a front-coded path is read back exactly |
| `Projections.PathCanonical` | crates/rs3-index/src/run.rs:2037-2070 | an accepted path was coded with the longest shared prefix |
| `Projections.SharedPrefix` | crates/rs3-index/src/run.rs:1006-1012 | the longest common prefix: equal up to it, different right after it |
| `Projections.SharedPrefixUnique` | crates/rs3-index/src/run.rs:1006-1012 | only one length has that property |
| `Projections.PointerRoundTrip` | crates/rs3-index/src/run.rs:2801-2826 | a payload pointer is read back exactly |
| `Projections.PointerCanonical` | crates/rs3-index/src/run.rs:2828-2870 | an accepted pointer is the one byte form of its facts |
| `Cbor.ReceiptRoundTrip` | crates/rs3-index/src/completion.rs:82-110 | a valid receipt is decoded exactly |
| `Cbor.ReceiptCanonical` | crates/rs3-index/src/completion.rs:104-165 | an accepted receipt is valid and is the one byte form of its facts |
| `Cbor.ReceiptLength` | crates/rs3-index/src/completion.rs:82-102 | a valid receipt always fits its size bound |
| `Types.ValidReceiptExactly` | crates/rs3-index/src/completion.rs:60-79 | a receipt is valid exactly when it is of a multipart object, in a commit, under a short key, with no checksum, a composite over its parts or a full-object CRC |
| `Cbor.HeadRoundTrip` | crates/rs3-types/src/cbor.rs:58-84 | a CBOR head is read back exactly |
| `Cbor.HeadCanonical` | crates/rs3-types/src/cbor.rs:189-232 | only the shortest head is accepted |
| `Cbor.EtagRoundTrip` | crates/rs3-types/src/etag.rs:75-96 | an ETag is read back exactly |
| `Cbor.EtagCanonical` | crates/rs3-types/src/etag.rs:109-121 | an accepted ETag is the one byte form of its facts |
| `Cbor.ChecksumRoundTrip` | crates/rs3-types/src/checksum.rs:129-153 | a valid checksum is read back exactly |
| `Cbor.ChecksumCanonical` | crates/rs3-types/src/checksum.rs:155-182 | an accepted checksum is valid and is the one byte form of its facts |
| `Wire.VarintRoundTrip` | crates/rs3-index/src/run.rs:3052-3061 | every 64-bit value is read back from its varint |
| `Wire.VarintCanonical` | crates/rs3-index/src/run.rs:3127-3144 | only the shortest varint of a 64-bit value is accepted |
| `Wire.VarintLength` | crates/rs3-index/src/run.rs:2995-3002 | the planned varint length is the number of bytes written |
| `Wire.RecordRoundTrip` | crates/rs3-index/src/run.rs:3074-3077 | a length-prefixed record is read back exactly |
| `Wire.RecordCanonical` | crates/rs3-index/src/run.rs:3160-3163 | an accepted record is within its limit and has one byte form |
| `Wire.Writer.Bytes` | crates/rs3-index/src/run.rs:3021-3034 | appends exactly when the size bound allows and changes nothing otherwise |
| `Wire.Writer.Varint` | crates/rs3-index/src/run.rs:3052-3061 | appends the canonical varint, exactly when it fits |
| `Wire.Writer.Record` | crates/rs3-index/src/run.rs:3074-3077 | appends the length-prefixed record, exactly when it fits |
| `Wire.Reader.Bytes` | crates/rs3-index/src/run.rs:3093-3100 | takes exactly the next bytes or refuses |
| `Wire.Reader.Varint` | crates/rs3-index/src/run.rs:3127-3144 | computes the specified varint reading, refusing overflow and non-minimal forms |
| `Wire.Reader.Record` | crates/rs3-index/src/run.rs:3160-3163 | computes the specified record reading |
| `PayloadLayout.StoredLen` | crates/rs3-index/src/lib.rs:177-207 | accepts exactly the layouts with ordered non-empty parts that add up within 64 bits, and gives plaintext plus 16 bytes per segment |
| `PayloadLayout.AcceptableExactly` | crates/rs3-repository/src/payload.rs:59-95 | the acceptable layouts with their constants: 1 to 10000 non-empty parts of rising number, chunks of at most 64 MiB, lengths that add up and fit |
| `PayloadLayout.NewSegmented` | crates/rs3-repository/src/payload.rs:59-94 | indexes exactly the acceptable layouts; every start is the prefix sum of bytes, stored bytes and segments |
| `PayloadLayout.SegmentSafe` | crates/rs3-repository/src/payload.rs:138-162 | no addition, subtraction or search step of the segment lookup overflows or underflows |
| `PayloadLayout.SegmentIs` | crates/rs3-repository/src/payload.rs:138-162 | the looked-up segment is the chunk of its part that the layout describes |
| `PayloadLayout.SegmentsTile` | crates/rs3-repository/src/payload.rs:138-162 | segments tile plaintext and ciphertext: first at zero, each where the one before ends, last at the totals, none empty or above a chunk |
| `PayloadLayout.SegmentAtByteHolds` | crates/rs3-repository/src/payload.rs:120-136 | the segment found for a byte contains it |
| `PayloadLayout.SegmentAtByteInverts` | crates/rs3-repository/src/payload.rs:112-136 | looking up any byte of a segment gives that segment back |
| `PayloadLayout.OffsetsIncrease` | crates/rs3-repository/src/payload.rs:112-136 | offsets grow from each segment to the next |
| `PayloadLayout.SegmentsIsCeiling` | crates/rs3-index/src/lib.rs:199-204 | the segment count is the length divided by the chunk size, rounded up |
| `PayloadLayout.PartNumbersIncrease` | crates/rs3-index/src/lib.rs:190-197 | part numbers increase throughout, so they identify parts |
| `PayloadRange.RangeReadIsSlice` | crates/rs3-repository/src/payload.rs:382-434 | a range is planned exactly when it is the whole object or not empty and within the plaintext, and opening only its ciphertext span gives exactly the bytes from its offset on, as many as its length |
| `PayloadRange.CachedReadIsSlice` | crates/rs3-repository/src/payload.rs:436-463 | assembling a range from cached segments gives exactly the bytes asked for, and refuses a range that is empty or ends behind the plaintext |
| `PayloadRange.OpenSpan` | crates/rs3-repository/src/payload.rs:382-434 | the opening loop computes the specified assembly, refusing wrong lengths and segments that do not open |
| `PayloadRange.OpenObject` | crates/rs3-repository/src/payload.rs:336-357 | reading a slice of a stored object gives the plaintext from its offset on, as many bytes as its length, the full range gives the plaintext, and a wrong object length or an empty or overlong slice is refused |
| `PayloadRange.OpenCached` | crates/rs3-repository/src/payload.rs:436-463 | computes the specified assembly from cached segments, refusing a wrong start, count or length |
| `PayloadRange.Select` | crates/rs3-repository/src/payload.rs:466-487 | selects exactly the full range and the non-empty slices within the plaintext; the first and last segment hold the first and last byte asked for |
| `PayloadRange.CiphertextSpan` | crates/rs3-repository/src/payload.rs:303-316 | the span runs from the first selected segment to the end of the last, inside the stored payload |
| `PayloadRange.AssembledIsSlice` | crates/rs3-repository/src/payload.rs:489-508 | appending the overlap of each selected segment gives exactly the slice |
| `PayloadRange.SealedOpens` | crates/rs3-repository/src/payload.rs:405-424 | every segment of a stored payload opens to its piece of the plaintext |
| `SegmentAead.OpensExactly` | crates/rs3-crypto/src/payload.rs:100-143 | among sealed messages that open under no other associated data, each segment opens under its own context and key and under no other context or key |
| `SegmentAead.AuthenticExists` | crates/rs3-crypto/src/payload.rs:100-143 | for any fewer than 2^64 messages a scheme exists that is correct and opens none of them under other associated data, so what is assumed of encryption can be met |
| `SegmentAead.OpensSealed` | crates/rs3-crypto/src/payload.rs:100-143 | a sealed segment opens to its plaintext under its own context and key |
| `PayloadRange.MovedSegmentRefused` | crates/rs3-repository/src/payload.rs:409-424 | a sealed segment of a stored payload is refused in the place of any other segment |
| `PayloadRange.SegmentOpensOnlyAtHome` | crates/rs3-crypto/src/payload.rs:303-370 | a sealed segment opens in a place of this or any other payload exactly when repository, object, carrier, attempt, part, position, length, final flag, chunk size and key are its own |
| `PayloadRange.NonceContextsDistinct` | crates/rs3-repository/src/payload.rs:138-162 | no two segments of a valid layout share a nonce context |
| `PayloadSealing.SealPart` | crates/rs3-repository/src/payload.rs:244-280 | sealing chunk by chunk gives the sealed chunks of the part, in order |
| `PayloadSealing.SealsExactly` | crates/rs3-repository/src/payload.rs:244-290 | a segment is sealed exactly when it is not empty, full unless final and within the bounds, under the context of its sealer, index, length and final flag |
| `PayloadSealing.JoinedPartsAreSealed` | crates/rs3-repository/src/payload.rs:165-280 | parts sealed independently and joined in order are one stored payload of the joined layout |
| `PayloadSealing.JoinedRangeIsSlice` | crates/rs3-repository/src/payload.rs:605-653 | any range of independently sealed and joined parts reads as exactly those bytes of the concatenated plaintext, and exactly the ranges within it are planned |
| `PayloadSealing.SealObject` | crates/rs3-repository/src/payload.rs:522-547 | seals a whole object exactly when its layout and context are acceptable, into a stored payload of that layout |
| `SegmentContext.AadInjective` | crates/rs3-crypto/src/payload.rs:44-77 | within the accepted bounds, distinct contexts or key ids give distinct associated data |
| `SegmentContext.NonceInjective` | crates/rs3-crypto/src/payload.rs:79-87 | distinct nonce fields give distinct nonce contexts |
| `SegmentContext.MaterialInjective` | crates/rs3-crypto/src/payload.rs:145-171 | the framed nonce material determines both of its parts |
| `SegmentContext.AssociatedData` | crates/rs3-crypto/src/payload.rs:44-77 | the field-by-field construction gives the specified bytes, refusing exactly the contexts outside the bounds |
| `FrozenBytes.FrozenAad` | crates/rs3-crypto/src/payload.rs:279-289 | the associated data of the frozen segment context are exactly the frozen bytes |
| `SegmentContext.NonceContext` | crates/rs3-crypto/src/payload.rs:79-87 | the buffer is filled with exactly the specified seventy-six bytes |
| `Lru.LinksDetermineOrder` | crates/rs3-repository/src/lru.rs:8-34 | head, tail and links represent at most one recency list |
| `Lru.LruCache.Insert` | crates/rs3-repository/src/lru.rs:47-70 | stores the value and moves its key to the back of the list; returns what it replaced |
| `Lru.LruCache.PopLru` | crates/rs3-repository/src/lru.rs:72-76 | removes and returns the front of the list, leaving the rest in order |
| `Lru.LruCache.Touch` | crates/rs3-repository/src/lru.rs:78-87 | moves a present key to the back; an absent one changes nothing |
| `Lru.LruCache.Detach` | crates/rs3-repository/src/lru.rs:89-122 | unlinks one entry and keeps the order of the others |
| `Lru.LruCache.PushBackExisting` | crates/rs3-repository/src/lru.rs:124-140 | links a detached entry behind the tail |
| `Lru.LruCache.Peek` | crates/rs3-repository/src/lru.rs:40-45 | returns the stored value without changing the order |
| `Lru.LruCache.Len` | crates/rs3-repository/src/lru.rs:36-38 | the number of entries is the length of the list |
| `SegmentCache.HitsReturnLastStored` | crates/rs3-repository/src/service.rs:337-389 | after every run of insertions and uses both limits hold and a hit returns exactly the bytes last stored for that object, version and segment |
| `SegmentCache.EvictionIsMinimal` | crates/rs3-repository/src/service.rs:377-389 | eviction is oldest-first and stops as soon as both limits hold: what remains is the longest recent part of the list that fits |
| `SegmentCache.OrderIsLastUse` | crates/rs3-repository/src/service.rs:342-389 | after every run the retained segments stand in the order of their last use |
| `SegmentCache.UsedOutlivesIdle` | crates/rs3-repository/src/service.rs:487-519 | a segment that is used outlives every retained segment that is not used or stored after it |
| `SegmentCache.TouchMovesLast` | crates/rs3-repository/src/service.rs:342-345 | using a segment moves it behind all others, which keep their order |
| `SegmentCache.KeysAreApart` | crates/rs3-repository/src/service.rs:298-315 | segments of different objects, versions or places are cached apart |
| `SegmentCache.FindingIsUsing` | crates/rs3-repository/src/service.rs:175-236 | finding a run of segments uses them one after another |
| `SegmentCache.NewestSurvives` | crates/rs3-repository/src/service.rs:347-375 | a segment that is not too large survives its own insertion as the most recent one |
| `SegmentCache.Cache.Insert` | crates/rs3-repository/src/service.rs:347-375 | the new contents are those of the list model; the byte count equals the retained total |
| `SegmentCache.Cache.EvictOverLimits` | crates/rs3-repository/src/service.rs:377-389 | trims to the model's result and reports what was dropped |
| `SegmentCache.Cache.Peek` | crates/rs3-repository/src/service.rs:337-340 | finds exactly what the model holds |
| `SegmentCache.Cache.Touch` | crates/rs3-repository/src/service.rs:342-345 | marks a present segment most recent |
| `SegmentCache.Cache.Find` | crates/rs3-repository/src/service.rs:175-236 | returns a run of segments exactly when all are retained, and marks them used when the lock is free |
| `CachedReads.CachedRangeIsSlice` | crates/rs3-repository/src/service.rs:122-173 | after any cache run whose insertions for the object come from opened reads, a range whose segments are all cached is assembled into exactly the bytes asked for |
| `CachedReads.OpenedSegmentsAreHonest` | crates/rs3-repository/src/service.rs:155-173 | caching the segments that a range read opened keeps every cached segment the right piece of the plaintext |
| `NamespaceIndex.RollbackErasesKey` | crates/rs3-index/src/lib.rs:422-443 | restoring a key after any interleaved changes gives the index in which that key's changes never happened |
| `NamespaceIndex.LastChangeDecides` | crates/rs3-index/src/lib.rs:379-459 | after any changes a key holds exactly the entry and the tokens of its last upsert, nothing after a removal, and what it held before if it was never changed |
| `NamespaceIndex.RestoreReplaces` | crates/rs3-index/src/lib.rs:435-443 | restoring sets the captured key to what was captured and changes no other |
| `NamespaceIndex.RowsDetermineMaps` | crates/rs3-index/src/lib.rs:349-372 | the per-entry rows determine all three maps, so the prefix map is the exact inverse of the token sets |
| `NamespaceIndex.Index.Upsert` | crates/rs3-index/src/lib.rs:379-400 | the key holds exactly this entry and is listed under exactly the given tokens; every other key keeps its entry and its listings; the two prefix maps stay exact inverses |
| `NamespaceIndex.Index.Remove` | crates/rs3-index/src/lib.rs:456-459 | the key has no entry and is listed under no token; every other key keeps its entry and its listings |
| `NamespaceIndex.Index.RemovePrefixMembership` | crates/rs3-index/src/lib.rs:461-479 | the key leaves every bucket and empty buckets disappear |
| `NamespaceIndex.Index.SnapshotKey` | crates/rs3-index/src/lib.rs:422-433 | captures exactly the row of the key |
| `NamespaceIndex.Index.RestoreKey` | crates/rs3-index/src/lib.rs:435-443 | puts the captured row back, or removes the key if there was none |
| `NamespaceIndex.Index.ListPrefix` | crates/rs3-index/src/lib.rs:445-454 | lists, in key order, exactly the live entries whose tokens include the token |
| `Completion.Continue` | crates/rs3-index/src/completion.rs:183-215 | after any sequence of attempts the table holds exactly the newest 1024 accepted receipts |
| `Completion.AttemptHoldsNewest` | crates/rs3-index/src/completion.rs:201-215 | one attempt keeps that property |
| `Completion.TableIsBounded` | crates/rs3-index/src/completion.rs:201-215 | the table holds all accepted receipts up to 1024, and then the 1024 with the largest sequences |
| `Completion.AcceptedExactly` | crates/rs3-index/src/completion.rs:183-199 | a valid receipt is accepted exactly when every held one is the same or shares neither its upload ID nor its sequence |
| `Completion.EvictedStaysEvicted` | crates/rs3-index/src/completion.rs:183-215 | an evicted receipt never reappears, whatever is inserted later |
| `Completion.NewestIsUnique` | crates/rs3-index/src/completion.rs:183-215 | the accepted receipts determine the table |
| `Completion.ConsistentHistoryAccepted` | crates/rs3-index/src/completion.rs:183-199 | every attempt of a consistent history of valid receipts is accepted |
| `Completion.ReplayOrderIrrelevant` | crates/rs3-index/src/completion.rs:183-215 | replaying a consistent history in any order with any repeats gives the same table |
| `Completion.CompletionReceipts.Insert` | crates/rs3-index/src/completion.rs:183-215 | accepts exactly a valid receipt that is held already or shares neither upload ID nor sequence with a held one, and then gives the specified table; otherwise changes nothing |
| `Completion.FindOldest` | crates/rs3-index/src/completion.rs:201-215 | finds the least sequence held |
| `Completion.CompletionReceipts.FromSnapshot` | crates/rs3-index/src/completion.rs:217-235 | accepts exactly ordered, valid, duplicate-free snapshots within the bound and loads that table |
| `Completion.LoadSnapshot` | crates/rs3-index/src/completion.rs:217-235 | the loading loop, to the same contract on values |
| `Completion.ReachableTableSnapshots` | crates/rs3-index/src/completion.rs:172-235 | listing any reachable table in upload-ID order is a snapshot that loads to the same table |

## Left out

- LeaseTiming.TimedExclusion: assumes that clocks advance together, that acquiring calls read at the time they supply and that releases are answered as `LeaseSettling` says; the three runs of `LeaseOverlap` show that each condition is needed.
- LeaseSafety.RunInv: the Lease is never deleted (acquiring a missing Lease restarts the token at one) and reads return the newest revision.
- Guards and anchors are steps of a state machine on values rather than objects: a mutex-held section is one atomic step, retry loops are the attempts of a call.
- Wall-clock fields of the Lease, polling sleeps, metrics, tracing and `Debug` redaction have no state property.
- BootstrapJournal.RunInv: the outcome of the journal's fence check is left to the environment, and the Secret is never deleted.
- SegmentCache.Cache.Insert: the byte count is exact while the sum fits 64 bits, which the source's saturating addition also presumes; the read-write lock is a flag that says whether a touch happens.
- SegmentAead.OpensExactly: authenticated encryption is a pair of functions that is correct, and that opens none of a finite log of sealed messages under other associated data; that an adversary cannot produce other ciphertexts that open, nonces and the concrete ciphers, HMAC, signatures and digests are not modelled.
- RunDecoder.FrameDecoder.FinishRun: the decoder's fields are grouped into tables and slots; the reader of single records is a function on byte strings, while varints, byte runs and length-prefixed records also have the cursor and buffer classes `Reader` and `Writer`.
- RunEncoding.EncodeFrames: tables, uses and the receipt are validated by predicates rather than the source's loops, while mutations are checked in a loop and repeated record facts by `Spans.CheckClaims`; records and headers are built by functions before they are appended to the bounded writer. Search bounds of frames, which no decoding reads, are omitted.
- RunCodec.DecodeSound: does not say that a decoded run can be encoded again; `RunEncoding.DecodedIsAccepted` says when its validation passes and `RunLimits.DecodedButNotAccepted` gives a run for which it does not.
- NamespaceIndex.Index.Upsert: entries carry their key, manifest identifier, length and generation; the remaining object metadata, which the index never looks at, is omitted.
- FrozenVectors.ExternalPackVector: of the frozen vectors, the external-pack and completion runs and the associated data of a segment are proved; the standalone run combines their records, and those of commits, roots, envelopes, bundles and ciphertexts belong to parts that are not modelled.
- The listing projection of `crates/rs3-repository/src/state.rs`, the keyring, envelopes, signed commits and repository service around these parts are not modelled.
- Full-object checksum combination is not modelled: the combination itself is in another library.
- The console, command-line tooling, fuzz targets and performance harness are not modelled.
