/** What any accepted history of the Lease satisfies, whatever the interleaving was. */
module LeaseHistory {
  import opened Prelude
  import opened Leases
  import opened LeaseProtocol

  predicate IsGuardWrite(op: Operation) {
    op.Acquire? || op.Renew? || op.Release?
  }

  function FenceOf(op: Operation): Option<Fence> {
    match op
    case Advance(fence, _, _) => fence
    case FencingRead(fence) => fence
    case _ => None
  }

  /** `after` is what this operation computes from `before` and is entitled to send. */
  predicate Derived(op: Operation, evidence: Option<Observed>, before: Lease, after: Lease) {
    match op
    case Acquire(who, time) =>
      && who.seconds > 0
      && ReadCoordination(before, who.seconds).Some?
      && var current := ReadCoordination(before, who.seconds).value;
      && current.token + 1 < U64_LIMIT
      && current.renewal + 1 < U64_LIMIT
      && WithGuardState(before, Claim(who.holder, current.token + 1), current.renewal + 1, who.seconds, true) == Some(after)
      && (RecordOf(current).Some? ==>
            && evidence.Some?
            && evidence.value.record == RecordOf(current).value
            && SaturatingSub(time, evidence.value.at) >= Nanos(current.seconds))
    case Renew(who, claim, _) =>
      && who.seconds > 0
      && ReadCoordination(before, who.seconds).Some?
      && var current := ReadCoordination(before, who.seconds).value;
      && current.holder == Some(claim.holder)
      && current.token == claim.token
      && current.renewal + 1 < U64_LIMIT
      && WithGuardState(before, claim, current.renewal + 1, who.seconds, false) == Some(after)
    case Release(who, claim) =>
      && HoldsClaim(before, claim) == Some(true)
      && ReadCoordination(before, who.seconds).Some?
      && var current := ReadCoordination(before, who.seconds).value;
      && current.renewal + 1 < U64_LIMIT
      && WithReleasedState(before, current.renewal + 1) == Some(after)
    case Advance(fence, expected, next) =>
      && Succeeds(ReadAnchor(before), expected, next)
      && FencePermits(before, fence)
      && after == WithAnchor(before, next)
    case FencingRead(fence) =>
      && FencePermits(before, fence)
      && after == BumpAnchorFence(before)
  }

  /** A Lease that this operation creates where none existed. */
  predicate Created(op: Operation, lease: Lease) {
    match op
    case Acquire(who, _) =>
      who.seconds > 0 && WithGuardState(EMPTY_LEASE, Claim(who.holder, 1), 1, who.seconds, true) == Some(lease)
    case Advance(fence, expected, next) =>
      fence == None && expected == None && lease == WithAnchor(EMPTY_LEASE, next)
    case _ => false
  }

  predicate WrittenFrom(op: Operation, evidence: Option<Observed>, log: seq<Entry>, basis: nat, lease: Lease)
    requires basis <= |log|
  {
    if basis == 0 then Created(op, lease) else Derived(op, evidence, log[basis - 1].lease, lease)
  }

  /** The observation names a record that this guard really saw at the recorded revision. */
  predicate ObservedIn(log: seq<Entry>, seconds: nat, observed: Observed) {
    && 1 <= observed.version <= |log|
    && var seen := ReadCoordination(log[observed.version - 1].lease, seconds);
    && seen.Some? && RecordOf(seen.value) == Some(observed.record)
  }

  predicate EvidenceIn(log: seq<Entry>, op: Operation, evidence: Option<Observed>) {
    op.Acquire? && evidence.Some? ==> ObservedIn(log, op.who.seconds, evidence.value)
  }

  predicate EntryOk(log: seq<Entry>, i: nat)
    requires i < |log|
  {
    match log[i].writer
    case Initially => i == 0
    case By(op, evidence) =>
      && WrittenFrom(op, evidence, log, i, log[i].lease)
      && EvidenceIn(log, op, evidence)
      && (evidence.Some? ==> evidence.value.version <= i)
  }

  /** Every accepted revision was computed from the revision it replaced. */
  predicate Linear(log: seq<Entry>) {
    forall i | 0 <= i < |log| :: EntryOk(log, i)
  }

  lemma {:induction false} AppendLinear(log: seq<Entry>, entry: Entry)
    requires Linear(log)
    requires EntryOk(log + [entry], |log|)
    ensures Linear(log + [entry])
  {
    var longer := log + [entry];
    forall i | 0 <= i < |longer| ensures EntryOk(longer, i) {
      if i < |log| {
        assert EntryOk(log, i);
        assert longer[i] == log[i];
        assert i > 0 ==> longer[i - 1] == log[i - 1];
      }
    }
  }

  // ---------------------------------------------------------------- counters

  function Value(counter: Option<U64>): nat {
    if counter.Some? then counter.value else 0
  }

  function Token(log: seq<Entry>, i: nat): nat
    requires i < |log|
  {
    Value(Counter(log[i].lease, WriterFence))
  }

  function Renewal(log: seq<Entry>, i: nat): nat
    requires i < |log|
  {
    Value(Counter(log[i].lease, WriterRenewal))
  }

  predicate Acquires(entry: Entry) {
    entry.writer.By? && entry.writer.op.Acquire?
  }

  predicate GuardWrote(entry: Entry) {
    entry.writer.By? && IsGuardWrite(entry.writer.op)
  }

  predicate CountersMove(op: Operation, before: Lease, after: Lease) {
    var token, token' := Counter(before, WriterFence), Counter(after, WriterFence);
    var renewal, renewal' := Counter(before, WriterRenewal), Counter(after, WriterRenewal);
    && Value(token') == Value(token) + (if op.Acquire? then 1 else 0)
    && Value(renewal') == Value(renewal) + (if IsGuardWrite(op) then 1 else 0)
    && (!IsGuardWrite(op) ==> SameCoordination(before, after))
  }

  lemma {:induction false} ReadCounters(lease: Lease, default: nat)
    requires ReadCoordination(lease, default).Some?
    ensures Counter(lease, WriterFence) == Some(ReadCoordination(lease, default).value.token)
    ensures Counter(lease, WriterRenewal) == Some(ReadCoordination(lease, default).value.renewal)
  {
  }

  lemma {:induction false} AcquireMovesCounters(op: Operation, evidence: Option<Observed>, before: Lease, after: Lease)
    requires op.Acquire? && Derived(op, evidence, before, after)
    ensures CountersMove(op, before, after)
  {
    ReadCounters(before, op.who.seconds);
    var current := ReadCoordination(before, op.who.seconds).value;
    GuardStateCounters(before, Claim(op.who.holder, current.token + 1), current.renewal + 1, op.who.seconds, true);
  }

  lemma {:induction false} RenewMovesCounters(op: Operation, evidence: Option<Observed>, before: Lease, after: Lease)
    requires op.Renew? && Derived(op, evidence, before, after)
    ensures CountersMove(op, before, after)
  {
    ReadCounters(before, op.who.seconds);
    GuardStateCounters(before, op.claim, ReadCoordination(before, op.who.seconds).value.renewal + 1, op.who.seconds, false);
  }

  lemma {:induction false} DerivedMovesCounters(op: Operation, evidence: Option<Observed>, before: Lease, after: Lease)
    requires Derived(op, evidence, before, after)
    ensures CountersMove(op, before, after)
  {
    match op
    case Acquire(_, _) => AcquireMovesCounters(op, evidence, before, after);
    case Renew(_, _, _) => RenewMovesCounters(op, evidence, before, after);
    case Release(who, _) =>
      ReleasedStateCoordination(before, ReadCoordination(before, who.seconds).value.renewal + 1, who.seconds);
    case Advance(_, _, next) => AnchorWriteKeepsCoordination(before, next);
    case FencingRead(_) => BumpKeepsCoordination(before);
  }

  /** One write: the token rises by one exactly on acquisition, the renewal counter rises by one
      exactly on guard writes, and any other write leaves the whole coordination record alone. */
  lemma {:induction false} StepCounters(log: seq<Entry>, i: nat)
    requires Linear(log) && 0 < i < |log|
    ensures Token(log, i) == Token(log, i - 1) + (if Acquires(log[i]) then 1 else 0)
    ensures Renewal(log, i) == Renewal(log, i - 1) + (if GuardWrote(log[i]) then 1 else 0)
    ensures !GuardWrote(log[i]) ==> SameCoordination(log[i - 1].lease, log[i].lease)
  {
    assert EntryOk(log, i);
    DerivedMovesCounters(log[i].writer.op, log[i].writer.evidence, log[i - 1].lease, log[i].lease);
  }

  /** Tokens and renewal counters never fall; an acquisition strictly raises the token. */
  lemma {:induction false} CountersRise(log: seq<Entry>, i: nat, j: nat)
    requires Linear(log) && i <= j < |log|
    ensures Token(log, i) <= Token(log, j) && Renewal(log, i) <= Renewal(log, j)
    ensures i < j && Acquires(log[j]) ==> Token(log, i) < Token(log, j)
    ensures i < j && GuardWrote(log[j]) ==> Renewal(log, i) < Renewal(log, j)
    decreases j
  {
    if i < j {
      StepCounters(log, j);
      CountersRise(log, i, j - 1);
    }
  }

  /** Equal renewal counters at two revisions rule out every guard write in between. */
  lemma {:induction false} EqualRenewalsMeanNoGuardWrite(log: seq<Entry>, i: nat, j: nat, k: nat)
    requires Linear(log) && i < k <= j < |log|
    requires Renewal(log, i) == Renewal(log, j)
    ensures !GuardWrote(log[k])
  {
    CountersRise(log, i, k);
    CountersRise(log, k, j);
  }

  // ---------------------------------------------------------------- theorems over histories

  lemma {:induction false} HeldTokens(log: seq<Entry>, i: nat, claim: Claim)
    requires i < |log| && HoldsClaim(log[i].lease, claim) == Some(true)
    ensures Token(log, i) == claim.token && Holder(log[i].lease) == Some(claim.holder)
  {
  }

  /** A fenced anchor write takes effect only while the Lease carries exactly its writer's holder
      and token, and leaves it so. */
  lemma {:induction false} FencedWriteHolds(log: seq<Entry>, v: nat)
    requires Linear(log) && v < |log| && log[v].writer.By? && FenceOf(log[v].writer.op).Some?
    ensures v > 0
    ensures var claim := FenceOf(log[v].writer.op).value.claim;
            HoldsClaim(log[v - 1].lease, claim) == Some(true) && HoldsClaim(log[v].lease, claim) == Some(true)
  {
    assert EntryOk(log, v);
    StepCounters(log, v);
    SameCoordinationReads(log[v - 1].lease, log[v].lease, 1);
  }

  /** No fenced write from an epoch older than a landed acquisition ever lands. */
  lemma {:induction false} FencedWriteSafety(log: seq<Entry>, v: nat, acquired: nat)
    requires Linear(log) && v < |log| && log[v].writer.By? && FenceOf(log[v].writer.op).Some?
    requires acquired < v && Acquires(log[acquired])
    ensures FenceOf(log[v].writer.op).value.claim.token >= Token(log, acquired)
  {
    FencedWriteHolds(log, v);
    HeldTokens(log, v - 1, FenceOf(log[v].writer.op).value.claim);
    CountersRise(log, acquired, v - 1);
  }

  /** An unfenced anchor write lands only where no writer epoch is held. */
  lemma {:induction false} UnfencedWritesYield(log: seq<Entry>, v: nat)
    requires Linear(log) && v < |log|
    requires log[v].writer.By? && !IsGuardWrite(log[v].writer.op) && FenceOf(log[v].writer.op).None?
    ensures v > 0 ==> !HasWriterCoordination(log[v - 1].lease)
  {
    assert EntryOk(log, v);
  }

  /** A takeover of a held Lease lands only if no guard write landed since the acquirer first saw
      that record, at least the stored duration earlier on its own clock. */
  lemma {:induction false} TakeoverHasNoAba(log: seq<Entry>, v: nat)
    requires Linear(log) && 0 < v < |log| && Acquires(log[v])
    requires Holder(log[v - 1].lease).Some?
    ensures log[v].writer.evidence.Some?
    ensures var seen := log[v].writer.evidence.value;
            && 1 <= seen.version <= v
            && SaturatingSub(log[v].writer.op.time, seen.at) >= Nanos(seen.record.seconds)
            && ObservedIn(log, log[v].writer.op.who.seconds, seen)
            && ObservedIn(log, log[v].writer.op.who.seconds, seen.(version := v))
            && (forall k | seen.version <= k < v :: !GuardWrote(log[k]))
  {
    assert EntryOk(log, v);
    var seen := log[v].writer.evidence.value;
    forall k | seen.version <= k < v ensures !GuardWrote(log[k]) {
      EqualRenewalsMeanNoGuardWrite(log, seen.version - 1, v - 1, k);
    }
  }

  lemma {:induction false} AcquireKeepsAnchor(who: Identity, time: nat, evidence: Option<Observed>, before: Lease, after: Lease)
    requires Derived(Acquire(who, time), evidence, before, after)
    ensures ReadAnchor(after) == ReadAnchor(before)
  {
    var current := ReadCoordination(before, who.seconds).value;
    GuardWritesKeepAnchor(before, Claim(who.holder, current.token + 1), current.renewal + 1, who.seconds, true);
  }

  lemma {:induction false} RenewKeepsAnchor(
      who: Identity, claim: Claim, time: nat, evidence: Option<Observed>, before: Lease, after: Lease)
    requires Derived(Renew(who, claim, time), evidence, before, after)
    ensures ReadAnchor(after) == ReadAnchor(before)
  {
    GuardWritesKeepAnchor(before, claim, ReadCoordination(before, who.seconds).value.renewal + 1, who.seconds, false);
  }

  lemma {:induction false} ReleaseKeepsAnchor(
      who: Identity, claim: Claim, evidence: Option<Observed>, before: Lease, after: Lease)
    requires Derived(Release(who, claim), evidence, before, after)
    ensures ReadAnchor(after) == ReadAnchor(before)
  {
    GuardWritesKeepAnchor(before, claim, ReadCoordination(before, who.seconds).value.renewal + 1, who.seconds, false);
  }

  lemma {:induction false} FencingReadKeepsAnchor(
      fence: Option<Fence>, evidence: Option<Observed>, before: Lease, after: Lease)
    requires Derived(FencingRead(fence), evidence, before, after)
    ensures ReadAnchor(after) == ReadAnchor(before)
  {
    GuardWritesKeepAnchor(before, Claim("", 0), 0, 1, true);
  }

  lemma {:induction false} GuardWriteDerivesSameAnchor(op: Operation, evidence: Option<Observed>, before: Lease, after: Lease)
    requires !op.Advance? && Derived(op, evidence, before, after)
    ensures ReadAnchor(after) == ReadAnchor(before)
  {
    match op
    case Acquire(who, time) => AcquireKeepsAnchor(who, time, evidence, before, after);
    case Renew(who, claim, time) => RenewKeepsAnchor(who, claim, time, evidence, before, after);
    case Release(who, claim) => ReleaseKeepsAnchor(who, claim, evidence, before, after);
    case FencingRead(fence) => FencingReadKeepsAnchor(fence, evidence, before, after);
  }

  /** An advance starts from exactly its expected parent and moves to a larger sequence. */
  predicate Advances(parent: AnchorRead, op: Operation, child: AnchorRead)
    requires op.Advance?
  {
    && (match parent
        case Unreadable => false
        case NoAnchor => op.expected == None
        case Anchored(anchor) => op.expected == Some(anchor) && op.next.sequence > anchor.sequence)
    && child == if op.next.formatDigest == "" then Unreadable else Anchored(op.next)
  }

  lemma {:induction false} DerivedAdvances(op: Operation, evidence: Option<Observed>, before: Lease, after: Lease)
    requires op.Advance? && Derived(op, evidence, before, after) && ReadAnchor(after) != ReadAnchor(before)
    ensures Advances(ReadAnchor(before), op, ReadAnchor(after))
  {
    AnchorRoundTrip(before, op.next);
    ReadableHasNoV2(before);
  }

  /** Each revision keeps the anchor or replaces exactly its expected parent by a larger sequence;
      only an anchor advance may change it, and only an empty format digest makes it unreadable. */
  lemma {:induction false} AnchorStep(log: seq<Entry>, i: nat)
    requires Linear(log) && 0 < i < |log|
    requires ReadAnchor(log[i].lease) != ReadAnchor(log[i - 1].lease)
    ensures log[i].writer.By? && log[i].writer.op.Advance?
    ensures Advances(ReadAnchor(log[i - 1].lease), log[i].writer.op, ReadAnchor(log[i].lease))
  {
    assert EntryOk(log, i);
    var op, evidence, before, after := log[i].writer.op, log[i].writer.evidence, log[i - 1].lease, log[i].lease;
    assert Derived(op, evidence, before, after);
    if op.Advance? {
      DerivedAdvances(op, evidence, before, after);
    } else {
      GuardWriteDerivesSameAnchor(op, evidence, before, after);
    }
  }

  lemma {:induction false} ReadableHasNoV2(lease: Lease)
    requires !ReadAnchor(lease).Unreadable?
    ensures !HasV2(Notes(lease))
  {
  }

  /** An anchor read at or after another one is unreadable, or at least as new. */
  predicate NotOlder(older: AnchorRead, newer: AnchorRead) {
    match newer
    case Unreadable => true
    case NoAnchor => older.NoAnchor?
    case Anchored(anchor) =>
      older.NoAnchor? || (older.Anchored? && (older.anchor == anchor || older.anchor.sequence < anchor.sequence))
  }

  /** Over a whole history the anchor only moves forward, and never becomes absent again. */
  lemma {:induction false} AnchorsAdvance(log: seq<Entry>, i: nat, j: nat)
    requires Linear(log) && i <= j < |log|
    ensures NotOlder(ReadAnchor(log[i].lease), ReadAnchor(log[j].lease))
    decreases j
  {
    if i < j {
      AnchorsAdvance(log, i, j - 1);
      if ReadAnchor(log[j].lease) != ReadAnchor(log[j - 1].lease) {
        AnchorStep(log, j);
      }
    }
  }
}
