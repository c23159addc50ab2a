/** Timed exclusion: how far the local deadlines of two writers can overlap.

    Calls are not atomic here. A guard call supplies a clock reading, reads the Lease some time later,
    and lands its write later still. If every acquiring call reads within `delta` of the time it supplied,
    and releases are answered as `LeaseSettling` asks, then whenever two guards are locally live one of
    them has at most `delta` left; with `delta == 0` they exclude each other. */
module LeaseTiming {
  import opened Prelude
  import opened Leases
  import opened LeaseProtocol
  import opened LeaseHistory
  import opened LeaseSafety
  import opened LeaseSettling
  import opened LeaseOwnership

  // ---------------------------------------------------------------- assumptions on a run

  /** Guard calls never supply a time from the future, and acquiring calls read within `delta`. */
  predicate PunctualStep(s: State, action: Action, delta: nat) {
    match action
    case Start(_, op) =>
      HasTime(op) && op.who.id in s.guards ==> s.guards[op.who.id].startedAt + op.time <= s.now
    case Read(id) =>
      id in s.calls && s.calls[id].op.Acquire? && s.calls[id].op.who.id in s.guards ==>
        s.now <= s.guards[s.calls[id].op.who.id].startedAt + s.calls[id].op.time + delta
    case _ => true
  }

  /** Calls keep to the timing rules, and releases are answered. */
  predicate Punctual(s0: State, actions: seq<Action>, delta: nat) {
    OnTime(s0, actions, delta) && AnsweredRun(s0, actions) && QuietRun(s0, actions)
  }

  /** Every step keeps to the timing rules. */
  predicate OnTime(s0: State, actions: seq<Action>, delta: nat) {
    actions == [] ||
    var front := actions[..|actions| - 1];
    OnTime(s0, front, delta) && PunctualStep(Run(s0, front), actions[|actions| - 1], delta)
  }

  // ---------------------------------------------------------------- invariant

  /** The observation was made at most `delta` before its recorded clock reading. */
  predicate SeenInTime(log: seq<Entry>, startedAt: nat, observed: Observed, delta: nat) {
    1 <= observed.version <= |log| ==> log[observed.version - 1].landedAt <= startedAt + observed.at + delta
  }

  predicate TimedOp(s: State, op: Operation, evidence: Option<Observed>, landed: nat, delta: nat) {
    HasTime(op) ==>
      && HasGuard(s.guards, op.who)
      && s.guards[op.who.id].startedAt + op.time <= landed
      && (op.Acquire? && evidence.Some? ==>
            SeenInTime(s.log, s.guards[op.who.id].startedAt, evidence.value, delta))
  }

  predicate TimedCall(s: State, call: Call, delta: nat) {
    && TimedOp(s, call.op, None, s.now, delta)
    && (call.op.Acquire? && call.pc.Deciding? && 1 <= call.pc.version <= |s.log| ==>
          s.log[call.pc.version - 1].landedAt <= s.guards[call.op.who.id].startedAt + call.op.time + delta)
  }

  predicate TimedGuard(s: State, guard: Guard, delta: nat) {
    guard.observation.Some? ==> SeenInTime(s.log, guard.startedAt, guard.observation.value, delta)
  }

  predicate Ordered(log: seq<Entry>, now: nat) {
    && (forall i, j | 0 <= i <= j < |log| :: log[i].landedAt <= log[j].landedAt)
    && (forall i | 0 <= i < |log| :: log[i].landedAt <= now)
  }

  predicate Timing(s: State, delta: nat) {
    && Ordered(s.log, s.now)
    && (forall g | g in s.guards :: TimedGuard(s, s.guards[g], delta))
    && (forall c | c in s.calls :: TimedCall(s, s.calls[c], delta))
    && (forall r | 0 <= r < |s.requests| :: TimedOp(s, s.requests[r].op, s.requests[r].evidence, s.now, delta))
    && (forall i | 0 <= i < |s.log| && s.log[i].writer.By? ::
          TimedOp(s, s.log[i].writer.op, s.log[i].writer.evidence, s.log[i].landedAt, delta))
  }

  lemma {:induction false} WithGuardTiming(s: State, id: nat, guard: Guard, delta: nat)
    requires Timing(s, delta) && id in s.guards
    requires guard.who == s.guards[id].who && guard.startedAt == s.guards[id].startedAt
    requires TimedGuard(s, guard, delta)
    ensures Timing(WithGuard(s, id, guard), delta)
  {
    var s' := WithGuard(s, id, guard);
    forall c | c in s'.calls ensures TimedCall(s', s'.calls[c], delta) {
      assert TimedCall(s, s.calls[c], delta);
    }
    forall r | 0 <= r < |s'.requests| ensures TimedOp(s', s'.requests[r].op, s'.requests[r].evidence, s'.now, delta) {
      assert TimedOp(s, s.requests[r].op, s.requests[r].evidence, s.now, delta);
    }
    forall i | 0 <= i < |s'.log| && s'.log[i].writer.By?
      ensures TimedOp(s', s'.log[i].writer.op, s'.log[i].writer.evidence, s'.log[i].landedAt, delta)
    {
      assert TimedOp(s, s.log[i].writer.op, s.log[i].writer.evidence, s.log[i].landedAt, delta);
    }
  }

  lemma {:induction false} FinishTiming(s: State, id: nat, outcome: Outcome, delta: nat)
    requires Timing(s, delta) && id in s.calls
    ensures Timing(Finish(s, id, outcome), delta)
  {
    assert TimedCall(s, s.calls[id], delta);
  }

  lemma {:induction false} ExecuteTiming(s: State, id: nat, plan: Plan, delta: nat)
    requires Timing(s, delta) && id in s.calls && s.calls[id].pc.Deciding?
    requires plan.Send? ==> TimedOp(s, s.calls[id].op, plan.evidence, s.now, delta)
    ensures Timing(Execute(s, id, plan), delta)
  {
    assert TimedCall(s, s.calls[id], delta);
    if plan.Send? {
      var s' := Execute(s, id, plan);
      forall r | 0 <= r < |s'.requests|
        ensures TimedOp(s', s'.requests[r].op, s'.requests[r].evidence, s'.now, delta)
      {
        if r < |s.requests| {
          assert s'.requests[r] == s.requests[r];
          assert TimedOp(s, s.requests[r].op, s.requests[r].evidence, s.now, delta);
        }
      }
    }
  }

  lemma {:induction false} PlanAcquireTiming(s: State, who: Identity, time: nat, version: nat, delta: nat)
    requires HasGuard(s.guards, who) && TimedGuard(s, s.guards[who.id], delta) && version <= |s.log|
    requires version > 0 ==> s.log[version - 1].landedAt <= s.guards[who.id].startedAt + time + delta
    ensures var (guard, plan) := PlanAcquire(s.guards[who.id], who, time, version, Revision(s.log, version));
            && guard.who == who && guard.startedAt == s.guards[who.id].startedAt
            && TimedGuard(s, guard, delta)
            && (plan.Send? && plan.evidence.Some? ==> SeenInTime(s.log, guard.startedAt, plan.evidence.value, delta))
  {
  }

  lemma {:induction false} DecideTiming(s: State, id: nat, delta: nat)
    requires Inv(s) && Timing(s, delta)
    ensures Timing(DoDecide(s, id), delta)
  {
    if id in s.calls && s.calls[id].pc.Deciding? {
      assert CallOk(s, s.calls[id]) && TimedCall(s, s.calls[id], delta);
      var Call(op, _, Deciding(version, snapshot)) := s.calls[id];
      match op
      case Advance(fence, expected, next) => ExecuteTiming(s, id, PlanAdvance(s, fence, expected, next, snapshot), delta);
      case FencingRead(fence) => ExecuteTiming(s, id, PlanFencingRead(s, fence, snapshot), delta);
      case Acquire(who, time) =>
        PlanAcquireTiming(s, who, time, version, delta);
        var (guard, plan) := PlanAcquire(s.guards[who.id], who, time, version, snapshot);
        WithGuardTiming(s, who.id, guard, delta);
        ExecuteTiming(WithGuard(s, who.id, guard), id, plan, delta);
      case Renew(who, claim, time) =>
        var (guard, plan) := PlanRenew(s.guards[who.id], who, claim, snapshot);
        assert TimedGuard(s, s.guards[who.id], delta);
        WithGuardTiming(s, who.id, guard, delta);
        ExecuteTiming(WithGuard(s, who.id, guard), id, plan, delta);
      case Release(who, claim) =>
        var (guard, plan) := PlanRelease(s.guards[who.id], who, claim, snapshot);
        assert TimedGuard(s, s.guards[who.id], delta);
        WithGuardTiming(s, who.id, guard, delta);
        ExecuteTiming(WithGuard(s, who.id, guard), id, plan, delta);
    }
  }

  lemma {:induction false} AcceptedTiming(s: State, id: nat, claim: Option<Claim>, version: nat, delta: nat)
    requires Inv(s) && Timing(s, delta) && id in s.calls && 1 <= version <= |s.log|
    ensures Timing(DoAccepted(s, id, claim, version), delta)
  {
    assert CallOk(s, s.calls[id]);
    match s.calls[id].op
    case Advance(_, _, _) => FinishTiming(s, id, Saw(ReadAnchor(s.log[version - 1].lease)), delta);
    case FencingRead(_) => FinishTiming(s, id, Saw(ReadAnchor(s.log[version - 1].lease)), delta);
    case Release(who, _) =>
      var guard := s.guards[who.id].(active := false);
      assert TimedGuard(s, s.guards[who.id], delta);
      WithGuardTiming(s, who.id, guard, delta);
      FinishTiming(WithGuard(s, who.id, guard), id, Released, delta);
    case Acquire(who, time) => if claim.Some? { OwnedTiming(s, id, who, time, claim.value, version, delta); }
    case Renew(who, _, time) => if claim.Some? { OwnedTiming(s, id, who, time, claim.value, version, delta); }
  }

  lemma {:induction false} OwnedTiming(s: State, id: nat, who: Identity, time: nat, claim: Claim, version: nat, delta: nat)
    requires Timing(s, delta) && id in s.calls && who.id in s.guards && 1 <= version <= |s.log|
    ensures Timing(DoOwned(s, id, who, time, claim, version), delta)
  {
    var (guard, ok) := RecordSuccess(s.guards[who.id], s.log[version - 1].lease, claim, time, version);
    assert TimedGuard(s, s.guards[who.id], delta);
    WithGuardTiming(s, who.id, guard, delta);
    FinishTiming(WithGuard(s, who.id, guard), id, if ok then Owned(claim) else Failed, delta);
  }

  /** A call may move to any point whose own facts hold. */
  lemma {:induction false} RepositionTiming(s: State, id: nat, call: Call, delta: nat)
    requires Timing(s, delta) && TimedCall(s, call, delta)
    ensures Timing(s.(calls := s.calls[id := call]), delta)
  {
  }

  lemma {:induction false} ReplyTiming(s: State, id: nat, delta: nat)
    requires Inv(s) && Timing(s, delta)
    ensures Timing(DoReply(s, id), delta)
  {
    if id in s.calls && s.calls[id].pc.Waiting? {
      assert CallOk(s, s.calls[id]) && TimedCall(s, s.calls[id], delta);
      var Call(op, _, Waiting(r)) := s.calls[id];
      assert RequestOk(s.log, s.requests[r]);
      match s.requests[r].status
      case Pending =>
      case Refused =>
        FinishTiming(s, id, ConflictLimit, delta);
        RepositionTiming(s, id, DoReply(s, id).calls[id], delta);
      case Accepted(version) => AcceptedTiming(s, id, s.requests[r].claim, version, delta);
    }
  }

  lemma {:induction false} TimedOpExtends(s: State, s': State, op: Operation, evidence: Option<Observed>, landed: nat, landed': nat, delta: nat)
    requires s.guards == s'.guards && s.log <= s'.log && landed <= landed'
    requires EvidenceIn(s.log, op, evidence)
    requires TimedOp(s, op, evidence, landed, delta)
    ensures TimedOp(s', op, evidence, landed', delta)
  {
  }

  lemma {:induction false} LandRequestTiming(s: State, s': State, request: Request, delta: nat)
    requires s.guards == s'.guards && s.log <= s'.log && s.now == s'.now && RequestOk(s.log, request)
    requires TimedOp(s, request.op, request.evidence, s.now, delta)
    ensures TimedOp(s', request.op, request.evidence, s'.now, delta)
  {
    TimedOpExtends(s, s', request.op, request.evidence, s.now, s.now, delta);
  }

  lemma {:induction false} LandEntryTiming(s: State, s': State, i: nat, delta: nat)
    requires s.guards == s'.guards && s.log <= s'.log && i < |s.log| && s.log[i].writer.By? && EntryOk(s.log, i)
    requires TimedOp(s, s.log[i].writer.op, s.log[i].writer.evidence, s.log[i].landedAt, delta)
    ensures TimedOp(s', s'.log[i].writer.op, s'.log[i].writer.evidence, s'.log[i].landedAt, delta)
  {
    assert s'.log[i] == s.log[i];
    TimedOpExtends(s, s', s.log[i].writer.op, s.log[i].writer.evidence, s.log[i].landedAt, s.log[i].landedAt, delta);
  }

  lemma {:induction false} LandCallTiming(s: State, s': State, call: Call, delta: nat)
    requires s.guards == s'.guards && s.log <= s'.log && s.now == s'.now
    requires CallOk(s, call) && TimedCall(s, call, delta)
    ensures TimedCall(s', call, delta)
  {
  }

  /** Landing touches the log and the status of the request only. */
  lemma {:induction false} LandKeeps(s: State, r: nat)
    ensures var s' := DoLand(s, r);
            && s.log <= s'.log && |s'.log| <= |s.log| + 1
            && s'.now == s.now && s'.guards == s.guards && s'.calls == s.calls && |s'.requests| == |s.requests|
            && (forall q | 0 <= q < |s.requests| ::
                  s'.requests[q].op == s.requests[q].op && s'.requests[q].evidence == s.requests[q].evidence)
            && (|s'.log| > |s.log| ==>
                  && r < |s.requests|
                  && s'.log[|s.log|] == Entry(s.requests[r].lease, By(s.requests[r].op, s.requests[r].evidence), s.now))
  {
  }

  lemma {:induction false} LandTiming(s: State, r: nat, delta: nat)
    requires Inv(s) && Timing(s, delta)
    ensures Timing(DoLand(s, r), delta)
  {
    var s' := DoLand(s, r);
    if s' != s {
      LandKeeps(s, r);
      forall q | 0 <= q < |s'.requests|
        ensures TimedOp(s', s'.requests[q].op, s'.requests[q].evidence, s'.now, delta)
      {
        assert RequestOk(s.log, s.requests[q]);
        LandRequestTiming(s, s', s.requests[q], delta);
      }
      forall g | g in s'.guards ensures TimedGuard(s', s'.guards[g], delta) {
        assert GuardOk(s.log, g, s.guards[g]) && TimedGuard(s, s.guards[g], delta);
      }
      forall c | c in s'.calls ensures TimedCall(s', s'.calls[c], delta) {
        assert CallOk(s, s.calls[c]);
        LandCallTiming(s, s', s.calls[c], delta);
      }
      forall i | 0 <= i < |s'.log| && s'.log[i].writer.By?
        ensures TimedOp(s', s'.log[i].writer.op, s'.log[i].writer.evidence, s'.log[i].landedAt, delta)
      {
        if i < |s.log| {
          assert EntryOk(s.log, i);
          LandEntryTiming(s, s', i, delta);
        } else {
          assert TimedOp(s', s'.requests[r].op, s'.requests[r].evidence, s'.now, delta);
        }
      }
    }
  }

  lemma {:induction false} NextTiming(s: State, action: Action, delta: nat)
    requires Inv(s) && Timing(s, delta) && PunctualStep(s, action, delta)
    ensures Timing(Next(s, action), delta)
  {
    var s' := Next(s, action);
    match action
    case Decide(id) => DecideTiming(s, id, delta);
    case Land(r) => LandTiming(s, r, delta);
    case Reply(id) => ReplyTiming(s, id, delta);
    case GiveUp(id) => if id in s.calls { FinishTiming(s, id, Failed, delta); }
    case Tick(_) => TickTiming(s, s', delta);
    case Join(_) => JoinTiming(s, s', delta);
    case Start(id, op) =>
      if id !in s.calls && MayStart(s, op) {
        assert HasTime(op) ==> GuardOk(s.log, op.who.id, s.guards[op.who.id]);
        RepositionTiming(s, id, Call(op, 0, Reading), delta);
      }
    case Read(id) =>
      if id in s.calls && s.calls[id].pc.Reading? {
        assert TimedCall(s, s.calls[id], delta);
        RepositionTiming(s, id, s'.calls[id], delta);
      }
  }

  lemma {:induction false} TickTiming(s: State, s': State, delta: nat)
    requires Timing(s, delta) && s.now <= s'.now && s' == s.(now := s'.now)
    ensures Timing(s', delta)
  {
    forall c | c in s'.calls ensures TimedCall(s', s'.calls[c], delta) {
      assert TimedCall(s, s.calls[c], delta);
    }
    forall r | 0 <= r < |s'.requests| ensures TimedOp(s', s'.requests[r].op, s'.requests[r].evidence, s'.now, delta) {
      assert TimedOp(s, s.requests[r].op, s.requests[r].evidence, s.now, delta);
    }
    forall i | 0 <= i < |s'.log| && s'.log[i].writer.By?
      ensures TimedOp(s', s'.log[i].writer.op, s'.log[i].writer.evidence, s'.log[i].landedAt, delta)
    {
      assert TimedOp(s, s.log[i].writer.op, s.log[i].writer.evidence, s.log[i].landedAt, delta);
    }
  }

  lemma {:induction false} JoinTiming(s: State, s': State, delta: nat)
    requires Timing(s, delta) && s' == s.(guards := s'.guards)
    requires forall g | g in s.guards :: g in s'.guards && s'.guards[g] == s.guards[g]
    requires forall g | g in s'.guards && g !in s.guards :: s'.guards[g].observation.None?
    ensures Timing(s', delta)
  {
    forall c | c in s'.calls ensures TimedCall(s', s'.calls[c], delta) {
      assert TimedCall(s, s.calls[c], delta);
    }
    forall r | 0 <= r < |s'.requests| ensures TimedOp(s', s'.requests[r].op, s'.requests[r].evidence, s'.now, delta) {
      assert TimedOp(s, s.requests[r].op, s.requests[r].evidence, s.now, delta);
    }
    forall i | 0 <= i < |s'.log| && s'.log[i].writer.By?
      ensures TimedOp(s', s'.log[i].writer.op, s'.log[i].writer.evidence, s'.log[i].landedAt, delta)
    {
      assert TimedOp(s, s.log[i].writer.op, s.log[i].writer.evidence, s.log[i].landedAt, delta);
    }
    forall g | g in s'.guards ensures TimedGuard(s', s'.guards[g], delta) {
      if g in s.guards { assert TimedGuard(s, s.guards[g], delta); }
    }
  }

  lemma {:induction false} RunTiming(s0: State, actions: seq<Action>, delta: nat)
    requires Init(s0) && OnTime(s0, actions, delta)
    ensures var s := Run(s0, actions); Inv(s) && Ownership(s) && Timing(s, delta)
  {
    if actions == [] {
      InitInv(s0);
      InitOwned(s0);
    } else {
      var front := actions[..|actions| - 1];
      RunTiming(s0, front, delta);
      NextInv(Run(s0, front), actions[|actions| - 1]);
      NextOwned(Run(s0, front), actions[|actions| - 1]);
      NextTiming(Run(s0, front), actions[|actions| - 1], delta);
    }
  }

  // ---------------------------------------------------------------- exclusion

  /** The global time at which this guard's local claim expires. */
  function Deadline(guard: Guard): nat {
    guard.startedAt + (if guard.lastSuccess.Some? then guard.lastSuccess.value else 0) + Nanos(guard.who.seconds)
  }

  /** The first acquisition after revision `i`, when the token moved on by revision `j`. */
  lemma {:induction false} FirstAcquisition(log: seq<Entry>, i: nat, j: nat) returns (w: nat)
    requires Linear(log) && i < j < |log| && Token(log, i) < Token(log, j)
    ensures i < w <= j && Acquires(log[w]) && Token(log, w - 1) == Token(log, i)
  {
    w := i + 1;
    StepCounters(log, w);
    while !Acquires(log[w])
      invariant i < w <= j && Token(log, w - 1) == Token(log, i)
      invariant Token(log, w) == Token(log, i) + (if Acquires(log[w]) then 1 else 0)
      decreases j - w
    {
      w := w + 1;
      StepCounters(log, w);
    }
  }

  predicate Unreleased(log: seq<Entry>, guard: Guard, i: nat, j: nat)
    requires j < |log|
  {
    forall k | i < k <= j :: !ReleaseEntry(log[k], guard)
  }

  lemma {:induction false} UnreleasedSplit(log: seq<Entry>, guard: Guard, i: nat, j: nat)
    requires i < j < |log| && Unreleased(log, guard, i, j)
    ensures Unreleased(log, guard, i, j - 1) && !ReleaseEntry(log[j], guard)
  {
  }

  /** An active guard has no release below the newest revision. */
  lemma {:induction false} ActiveIsUnreleased(s: State, g: nat, i: nat, j: nat)
    requires ReleasesSettled(s) && g in s.guards && s.guards[g].active && j < |s.log| - 1
    ensures Unreleased(s.log, s.guards[g], i, j)
  {
  }

  predicate HeldFor(lease: Lease, claim: Claim, seconds: nat) {
    HoldsClaim(lease, claim) == Some(true) && StoredSeconds(lease) == Some(seconds)
  }

  /** While the token stands and the owner has not released, the Lease stays held by the same claim
      with the owner's own duration, since only the owner can renew that epoch. */
  lemma {:induction false} EpochStands(log: seq<Entry>, guard: Guard, i: nat, j: nat)
    requires Linear(log) && OwnedLog(log) && i <= j < |log| && guard.claim.Some?
    requires AcquiredBy(log, guard.who, guard.claim.value.token) && guard.who.seconds > 0
    requires HeldFor(log[i].lease, guard.claim.value, guard.who.seconds)
    requires Token(log, j) == Token(log, i)
    requires Unreleased(log, guard, i, j)
    ensures HeldFor(log[j].lease, guard.claim.value, guard.who.seconds)
    decreases j
  {
    if i < j {
      TokenStands(log, i, j);
      UnreleasedSplit(log, guard, i, j);
      EpochStands(log, guard, i, j - 1);
      EpochStep(log, guard, j);
    }
  }

  lemma {:induction false} TokenStands(log: seq<Entry>, i: nat, j: nat)
    requires Linear(log) && i < j < |log| && Token(log, j) == Token(log, i)
    ensures Token(log, j - 1) == Token(log, i)
  {
    CountersRise(log, i, j - 1);
    CountersRise(log, j - 1, j);
  }

  lemma {:induction false} EpochStep(log: seq<Entry>, guard: Guard, j: nat)
    requires Linear(log) && OwnedLog(log) && 0 < j < |log| && guard.claim.Some?
    requires AcquiredBy(log, guard.who, guard.claim.value.token) && guard.who.seconds > 0
    requires HeldFor(log[j - 1].lease, guard.claim.value, guard.who.seconds)
    requires Token(log, j) == Token(log, j - 1) && !ReleaseEntry(log[j], guard)
    ensures HeldFor(log[j].lease, guard.claim.value, guard.who.seconds)
  {
    assert EntryOk(log, j);
    StepCounters(log, j);
    var op, before := log[j].writer.op, log[j - 1].lease;
    var claim := guard.claim.value;
    match op
    case Renew(who, other, _) =>
      assert OwnsClaim(log, op);
      TokenHasOneOwner(log, who, guard.who, claim.token);
      GuardStateCoordination(before, other, ReadCoordination(before, who.seconds).value.renewal + 1, who.seconds, false, 1);
    case Release(who, other) =>
      assert OwnsClaim(log, op);
      TokenHasOneOwner(log, who, guard.who, claim.token);
    case Acquire(_, _) =>
    case _ => SameCoordinationReads(before, log[j].lease, 1);
  }

  /** Where the successes of two guards stand, when the first is not the newer one. */
  lemma {:induction false} SuccessesDiffer(log: seq<Entry>, guard: Guard, other: Guard)
    requires Linear(log) && guard.claim.Some? && other.claim.Some? && guard.who != other.who
    requires GuardOwns(log, guard) && GuardOwns(log, other) && guard.successVersion <= other.successVersion
    ensures 1 <= guard.successVersion < other.successVersion <= |log|
    ensures Token(log, guard.successVersion - 1) < Token(log, other.successVersion - 1)
  {
    var i, j := guard.successVersion - 1, other.successVersion - 1;
    CountersRise(log, i, j);
    HeldTokens(log, i, guard.claim.value);
    HeldTokens(log, j, other.claim.value);
    if Token(log, i) == Token(log, j) {
      TokenHasOneOwner(log, guard.who, other.who, guard.claim.value.token);
    }
  }

  /** The write that established a guard's claim. */
  predicate SucceededAt(log: seq<Entry>, guard: Guard, i: nat) {
    && i < |log| && guard.claim.Some? && guard.lastSuccess.Some?
    && GuardWrote(log[i]) && HasTime(log[i].writer.op) && log[i].writer.op.who == guard.who
    && guard.lastSuccess == Some(log[i].writer.op.time)
    && HeldFor(log[i].lease, guard.claim.value, guard.who.seconds)
  }

  lemma {:induction false} OwnerSucceeded(log: seq<Entry>, guard: Guard)
    requires guard.claim.Some? && GuardOwns(log, guard)
    ensures 1 <= guard.successVersion && SucceededAt(log, guard, guard.successVersion - 1)
    ensures AcquiredBy(log, guard.who, guard.claim.value.token)
  {
  }

  lemma {:induction false} UnreleasedPrefix(log: seq<Entry>, guard: Guard, i: nat, j: nat, k: nat)
    requires k <= j < |log| && Unreleased(log, guard, i, j)
    ensures Unreleased(log, guard, i, k)
  {
  }

  /** The first acquisition after a guard's success finds the Lease still held by that guard. */
  lemma {:induction false} TakenOver(log: seq<Entry>, guard: Guard, i: nat, j: nat) returns (w: nat)
    requires Linear(log) && OwnedLog(log) && guard.who.seconds > 0 && SucceededAt(log, guard, i)
    requires AcquiredBy(log, guard.who, guard.claim.value.token)
    requires i < j < |log| && Token(log, i) < Token(log, j) && Unreleased(log, guard, i, j - 1)
    ensures i < w < |log| && Acquires(log[w])
    ensures HeldFor(log[w - 1].lease, guard.claim.value, guard.who.seconds)
  {
    w := FirstAcquisition(log, i, j);
    UnreleasedPrefix(log, guard, i, j - 1, w - 1);
    EpochStands(log, guard, i, w - 1);
  }

  lemma {:induction false} OwnerFacts(s: State, g: nat)
    requires Inv(s) && Ownership(s) && g in s.guards && s.guards[g].claim.Some?
    ensures GuardOwns(s.log, s.guards[g]) && s.guards[g].who.id == g && s.guards[g].who.seconds > 0
  {
    assert GuardOk(s.log, g, s.guards[g]);
  }

  /** If another guard's success is newer, this guard's deadline is at most `delta` away. */
  lemma {:induction false} OlderWriterIsExpiring(s: State, g: nat, h: nat, delta: nat)
    requires Inv(s) && Ownership(s) && Timing(s, delta) && ReleasesSettled(s)
    requires g in s.guards && h in s.guards && g != h
    requires s.guards[g].active && s.guards[g].claim.Some?
    requires s.guards[h].active && s.guards[h].claim.Some?
    requires s.guards[g].successVersion <= s.guards[h].successVersion
    ensures Deadline(s.guards[g]) <= s.now + delta
  {
    var guard, other := s.guards[g], s.guards[h];
    OwnerFacts(s, g);
    OwnerFacts(s, h);
    SuccessesDiffer(s.log, guard, other);
    OwnerSucceeded(s.log, guard);
    var i, j := guard.successVersion - 1, other.successVersion - 1;
    ActiveIsUnreleased(s, g, i, j - 1);
    assert OwnedLog(s.log);
    var w := TakenOver(s.log, guard, i, j);
    TakeoverWaited(s, guard, i, w, delta);
  }

  /** The takeover at revision `w` waited the holder's own duration after its success at `i`. */
  lemma {:induction false} TakeoverWaited(s: State, guard: Guard, i: nat, w: nat, delta: nat)
    requires Inv(s) && Timing(s, delta) && i < w < |s.log| && Acquires(s.log[w])
    requires SucceededAt(s.log, guard, i) && HeldFor(s.log[w - 1].lease, guard.claim.value, guard.who.seconds)
    requires guard.who.id in s.guards && s.guards[guard.who.id].startedAt == guard.startedAt
    ensures Deadline(guard) <= s.now + delta
  {
    TakeoverHasNoAba(s.log, w);
    var seen := s.log[w].writer.evidence.value;
    assert i < seen.version;
    assert TimedOp(s, s.log[w].writer.op, s.log[w].writer.evidence, s.log[w].landedAt, delta);
    assert TimedOp(s, s.log[i].writer.op, s.log[i].writer.evidence, s.log[i].landedAt, delta);
    assert s.log[i].landedAt <= s.log[seen.version - 1].landedAt;
    assert seen.record.seconds == guard.who.seconds;
  }

  /** In every run whose acquiring calls read within `delta` of their supplied time, two locally live
      writers overlap by less than `delta`: one of the two deadlines is at most `delta` away. */
  lemma {:induction false} OverlapIsBounded(s0: State, actions: seq<Action>, delta: nat, g: nat, h: nat, cg: Claim, ch: Claim)
    requires Init(s0) && Punctual(s0, actions, delta)
    requires var s := Run(s0, actions); Live(s, g, cg) && Live(s, h, ch) && g != h
    ensures var s := Run(s0, actions);
            Deadline(s.guards[g]) <= s.now + delta || Deadline(s.guards[h]) <= s.now + delta
  {
    RunTiming(s0, actions, delta);
    var s := Run(s0, actions);
    AnsweredReleasesSettle(s0, actions);
    if s.guards[g].successVersion <= s.guards[h].successVersion {
      OlderWriterIsExpiring(s, g, h, delta);
    } else {
      OlderWriterIsExpiring(s, h, g, delta);
    }
  }

  lemma {:induction false} LiveBeforeDeadline(s: State, delta: nat, g: nat, claim: Claim)
    requires Inv(s) && Ownership(s) && Timing(s, delta) && Live(s, g, claim)
    ensures s.now < Deadline(s.guards[g])
  {
    var guard := s.guards[g];
    assert GuardOk(s.log, g, guard) && GuardOwns(s.log, guard);
    var i := guard.successVersion - 1;
    assert TimedOp(s, s.log[i].writer.op, s.log[i].writer.evidence, s.log[i].landedAt, delta);
  }

  /** Timed exclusion: when every call takes effect at its supplied time and releases are answered, at
      most one fence is locally live in every reachable state. */
  lemma {:induction false} TimedExclusion(s0: State, actions: seq<Action>, g: nat, h: nat, cg: Claim, ch: Claim)
    requires Init(s0) && Punctual(s0, actions, 0)
    requires var s := Run(s0, actions); Live(s, g, cg) && Live(s, h, ch)
    ensures g == h && cg == ch
  {
    if g != h {
      RunTiming(s0, actions, 0);
      OverlapIsBounded(s0, actions, 0, g, h, cg, ch);
      LiveBeforeDeadline(Run(s0, actions), 0, g, cg);
      LiveBeforeDeadline(Run(s0, actions), 0, h, ch);
    }
  }
}
