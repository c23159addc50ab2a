/** What the callers of the Lease protocol are told: the outcome of every accepted request, and of
    every call that nothing disturbs. */
module LeaseOutcomes {
  import opened Prelude
  import opened Numerals
  import opened Leases
  import opened LeaseProtocol
  import opened LeaseHistory
  import opened LeaseSafety

  // ---------------------------------------------------------------- answers to accepted requests

  /** The call waits for a request that the server accepted. */
  predicate AwaitsAccepted(s: State, id: nat) {
    && id in s.calls && s.calls[id].pc.Waiting? && s.calls[id].pc.request < |s.requests|
    && s.requests[s.calls[id].pc.request].status.Accepted?
  }

  /** The revision that the request of a call became. */
  function OwnRevision(s: State, id: nat): nat
    requires AwaitsAccepted(s, id)
  {
    s.requests[s.calls[id].pc.request].status.version
  }

  lemma {:induction false} OwnRevisionHolds(s: State, id: nat)
    requires Inv(s) && AwaitsAccepted(s, id)
    ensures var v := OwnRevision(s, id);
            && 1 <= v <= |s.log| && s.log[v - 1].writer.By? && s.log[v - 1].writer.op == s.calls[id].op
            && s.log[v - 1].lease == s.requests[s.calls[id].pc.request].lease
            && WrittenFrom(s.calls[id].op, s.log[v - 1].writer.evidence, s.log, v - 1, s.log[v - 1].lease)
            && ClaimMatches(s.requests[s.calls[id].pc.request])
  {
    assert CallOk(s, s.calls[id]);
    assert RequestOk(s.log, s.requests[s.calls[id].pc.request]);
  }

  /** An advance with a format digest whose request was accepted is told exactly the anchor it wrote. */
  lemma {:induction false} AdvanceIsTold(s: State, id: nat)
    requires Inv(s) && AwaitsAccepted(s, id) && s.calls[id].op.Advance?
    ensures var v, s' := OwnRevision(s, id), Next(s, Reply(id));
            && 1 <= v <= |s.log| && s.log[v - 1].writer.By? && s.log[v - 1].writer.op == s.calls[id].op
            && s' == s.(calls := s'.calls) && s'.calls == s.calls[id := s'.calls[id]]
            && s'.calls[id].pc == Done(Saw(ReadAnchor(s.log[v - 1].lease)))
            && ReadAnchor(s.log[v - 1].lease)
               == if s.calls[id].op.next.formatDigest != "" then Anchored(s.calls[id].op.next) else Unreadable
  {
    OwnRevisionHolds(s, id);
    AcceptedAdvanceReads(s.log, OwnRevision(s, id) - 1);
  }

  /** A fencing read whose request was accepted is told the anchor of the revision it wrote, which is the
      anchor of the revision it replaced. */
  lemma {:induction false} FencingReadIsTold(s: State, id: nat)
    requires Inv(s) && AwaitsAccepted(s, id) && s.calls[id].op.FencingRead?
    ensures var v, s' := OwnRevision(s, id), Next(s, Reply(id));
            && 1 < v <= |s.log| && s.log[v - 1].writer.By? && s.log[v - 1].writer.op == s.calls[id].op
            && s' == s.(calls := s'.calls) && s'.calls == s.calls[id := s'.calls[id]]
            && s'.calls[id].pc == Done(Saw(ReadAnchor(s.log[v - 1].lease)))
            && ReadAnchor(s.log[v - 1].lease) == ReadAnchor(s.log[v - 2].lease)
  {
    OwnRevisionHolds(s, id);
    var v := OwnRevision(s, id);
    GuardWriteDerivesSameAnchor(s.calls[id].op, s.log[v - 1].writer.evidence, s.log[v - 2].lease, s.log[v - 1].lease);
  }

  /** What recording a success does when the stored Lease carries the claim. */
  lemma {:induction false} OwnedState(s: State, id: nat, who: Identity, time: nat, claim: Claim, version: nat)
    requires id in s.calls && who.id in s.guards && 1 <= version <= |s.log|
    requires HoldsClaim(s.log[version - 1].lease, claim) == Some(true)
    ensures DoOwned(s, id, who, time, claim, version) ==
            s.(calls := s.calls[id := s.calls[id].(pc := Done(Owned(claim)))],
               guards := s.guards[who.id := s.guards[who.id].(
                 claim := Some(claim), lastSuccess := Some(time), active := true, observation := None,
                 successVersion := version)])
  {
  }

  /** The epoch that an accepted acquisition or renewal is entitled to. */
  lemma {:induction false} OwnEpoch(s: State, id: nat) returns (claim: Claim)
    requires Inv(s) && AwaitsAccepted(s, id) && (s.calls[id].op.Acquire? || s.calls[id].op.Renew?)
    ensures 1 <= OwnRevision(s, id) <= |s.log|
    ensures s.requests[s.calls[id].pc.request].claim == Some(claim)
    ensures HoldsClaim(s.log[OwnRevision(s, id) - 1].lease, claim) == Some(true)
    ensures if s.calls[id].op.Renew? then claim == s.calls[id].op.claim else claim.holder == s.calls[id].op.who.holder
  {
    OwnRevisionHolds(s, id);
    claim := s.requests[s.calls[id].pc.request].claim.value;
  }

  lemma {:induction false} ReplyIsOwned(s: State, id: nat, claim: Claim)
    requires AwaitsAccepted(s, id) && (s.calls[id].op.Acquire? || s.calls[id].op.Renew?)
    requires s.requests[s.calls[id].pc.request].claim == Some(claim) && s.calls[id].op.who.id in s.guards
    requires 1 <= OwnRevision(s, id) <= |s.log|
    ensures Next(s, Reply(id)) == DoOwned(s, id, s.calls[id].op.who, s.calls[id].op.time, claim, OwnRevision(s, id))
  {
  }

  lemma {:induction false} AcquiredToken(log: seq<Entry>, v: nat)
    requires Linear(log) && v < |log| && Acquires(log[v])
    ensures Token(log, v) == (if v == 0 then 0 else Token(log, v - 1)) + 1
  {
    assert EntryOk(log, v);
    if v == 0 {
      var who := log[v].writer.op.who;
      GuardStateCounters(EMPTY_LEASE, Claim(who.holder, 1), 1, who.seconds, true);
    } else {
      StepCounters(log, v);
    }
  }

  /** An acquisition or renewal whose request was accepted owns the epoch that the stored revision names,
      one above the epoch before it for an acquisition, and its guard becomes active with it, counting
      from the time of the call. */
  lemma {:induction false} OwnerIsTold(s: State, id: nat)
    requires Inv(s) && AwaitsAccepted(s, id) && (s.calls[id].op.Acquire? || s.calls[id].op.Renew?)
    ensures 1 <= OwnRevision(s, id) <= |s.log| && s.calls[id].op.who.id in s.guards
    ensures var v, op := OwnRevision(s, id), s.calls[id].op;
            var claim := if op.Renew? then op.claim else Claim(op.who.holder, Token(s.log, v - 1));
            && Holder(s.log[v - 1].lease) == Some(claim.holder) && Token(s.log, v - 1) == claim.token
            && (op.Acquire? ==> claim.token == (if v == 1 then 0 else Token(s.log, v - 2)) + 1)
            && Next(s, Reply(id)) ==
               s.(calls := s.calls[id := s.calls[id].(pc := Done(Owned(claim)))],
                  guards := s.guards[op.who.id := s.guards[op.who.id].(
                    claim := Some(claim), lastSuccess := Some(op.time), active := true, observation := None,
                    successVersion := v)])
  {
    assert CallOk(s, s.calls[id]);
    var claim := OwnEpoch(s, id);
    OwnEpochStored(s, id, claim);
    ReplyIsOwned(s, id, claim);
    OwnedState(s, id, s.calls[id].op.who, s.calls[id].op.time, claim, OwnRevision(s, id));
  }

  lemma {:induction false} OwnEpochStored(s: State, id: nat, claim: Claim)
    requires Inv(s) && AwaitsAccepted(s, id) && 1 <= OwnRevision(s, id) <= |s.log|
    requires HoldsClaim(s.log[OwnRevision(s, id) - 1].lease, claim) == Some(true)
    ensures var v := OwnRevision(s, id);
            && Holder(s.log[v - 1].lease) == Some(claim.holder) && Token(s.log, v - 1) == claim.token
            && (s.calls[id].op.Acquire? ==> claim.token == (if v == 1 then 0 else Token(s.log, v - 2)) + 1)
  {
    var v := OwnRevision(s, id);
    OwnRevisionHolds(s, id);
    HeldTokens(s.log, v - 1, claim);
    if s.calls[id].op.Acquire? { AcquiredToken(s.log, v - 1); }
  }

  /** A release whose request was accepted is told so; the Lease is free and the guard inactive. */
  lemma {:induction false} ReleaseIsTold(s: State, id: nat)
    requires Inv(s) && AwaitsAccepted(s, id) && s.calls[id].op.Release?
    ensures var v, s', op := OwnRevision(s, id), Next(s, Reply(id)), s.calls[id].op;
            && 1 < v <= |s.log| && op.who.id in s.guards
            && s'.calls[id].pc == Done(Released)
            && Holder(s.log[v - 2].lease) == Some(op.claim.holder) && Holder(s.log[v - 1].lease) == None
            && s'.guards[op.who.id] == s.guards[op.who.id].(active := false)
  {
    OwnRevisionHolds(s, id);
    assert CallOk(s, s.calls[id]);
  }

  /** Once the caller of a fencing read has its answer, no request computed from an earlier revision can
      land any more, whatever happens later, so the anchor it was told settles the fate of such a request:
      if it still is the parent the request expected, the request never takes effect; if the request took
      effect, the anchor told is at least as new as what it wrote. */
  lemma {:induction false} FencingReadIsFinal(s: State, id: nat, actions: seq<Action>, earlier: nat)
    requires Inv(s) && AwaitsAccepted(s, id) && s.calls[id].op.FencingRead?
    requires earlier < |Run(Next(s, Reply(id)), actions).requests|
    requires Run(Next(s, Reply(id)), actions).requests[earlier].basis < OwnRevision(s, id)
    ensures var answered := Next(s, Reply(id));
            && id in answered.calls && answered.calls[id].pc.Done? && answered.calls[id].pc.outcome.Saw?
            && var told, request := answered.calls[id].pc.outcome.anchor, Run(answered, actions).requests[earlier];
            && (request.status.Accepted? ==> earlier < |s.requests| && s.requests[earlier].status == request.status)
            && (ExpectsWhat(request.op, told) && told != Anchored(request.op.next) ==> !request.status.Accepted?)
            && (request.status.Accepted? && request.op.Advance? ==>
                  told.Unreadable? || (told.Anchored? && told.anchor.sequence >= request.op.next.sequence))
  {
    OwnRevisionHolds(s, id);
    FencingReadIsTold(s, id);
    NextInv(s, Reply(id));
    ReplyFrame(s, id);
    FencingRevisionIsFinal(Next(s, Reply(id)), actions, s.calls[id].pc.request, earlier);
  }

  /** In every run a caller whose anchor request was accepted is told the anchor stored by its own revision;
      for an advance with a format digest that is the anchor it asked for. */
  lemma {:induction false} AnchorAnswersInEveryRun(s0: State, actions: seq<Action>, id: nat)
    requires Init(s0) && AwaitsAccepted(Run(s0, actions), id) && !IsGuardWrite(Run(s0, actions).calls[id].op)
    ensures var s, v := Run(s0, actions), OwnRevision(Run(s0, actions), id);
            var told := Next(s, Reply(id)).calls;
            && 1 <= v <= |s.log| && s.log[v - 1].writer.By? && s.log[v - 1].writer.op == s.calls[id].op
            && id in told && told[id].pc == Done(Saw(ReadAnchor(s.log[v - 1].lease)))
            && (s.calls[id].op.Advance? && s.calls[id].op.next.formatDigest != "" ==>
                  told[id].pc == Done(Saw(Anchored(s.calls[id].op.next))))
  {
    InitInv(s0);
    RunInv(s0, actions);
    if Run(s0, actions).calls[id].op.Advance? {
      AdvanceIsTold(Run(s0, actions), id);
    } else {
      FencingReadIsTold(Run(s0, actions), id);
    }
  }

  /** A guard's clock reads zero when it joins, and runs with the time that passes for everyone. */
  lemma {:induction false} ClocksRunFromJoining(s: State, who: Identity, delta: nat)
    requires who.id !in s.guards && 0 < who.seconds <= 0x7FFF_FFFF && who.holder != ""
    ensures var joined := Next(s, Join(who));
            && who.id in joined.guards && joined.guards[who.id].who == who && !joined.guards[who.id].active
            && Clock(joined, joined.guards[who.id]) == 0
            && Clock(Next(joined, Tick(delta)), joined.guards[who.id]) == delta
  {
  }

  // ---------------------------------------------------------------- conflicts

  /** In every run a call tries at most sixteen times. */
  lemma {:induction false} AttemptsAreBounded(s0: State, actions: seq<Action>, id: nat)
    requires Init(s0) && id in Run(s0, actions).calls
    ensures Run(s0, actions).calls[id].attempts < 16
  {
    if actions != [] {
      var s := Run(s0, actions[..|actions| - 1]);
      if id in s.calls { AttemptsAreBounded(s0, actions[..|actions| - 1], id); }
      AttemptsStep(s, actions[|actions| - 1], id);
    }
  }

  lemma {:induction false} AttemptsStep(s: State, action: Action, id: nat)
    requires id in s.calls ==> s.calls[id].attempts < 16
    ensures id in Next(s, action).calls ==> Next(s, action).calls[id].attempts < 16
  {
  }

  /** A refused request sends its caller back to reading, and the sixteenth refusal ends the call. */
  lemma {:induction false} RefusalRetries(s: State, id: nat)
    requires id in s.calls && s.calls[id].pc.Waiting? && s.calls[id].pc.request < |s.requests|
    requires s.requests[s.calls[id].pc.request].status.Refused?
    ensures var s', call := Next(s, Reply(id)), s.calls[id];
            s' == s.(calls := s.calls[id :=
                    if call.attempts + 1 < 16 then Call(call.op, call.attempts + 1, Reading)
                    else call.(pc := Done(ConflictLimit))])
  {
  }

  // ---------------------------------------------------------------- undisturbed calls

  /** A call that reads, decides, reaches the server before anyone else and is answered. */
  function Undisturbed(s: State, id: nat, op: Operation): State {
    Next(Next(Next(Next(Next(s, Start(id, op)), Read(id)), Decide(id)), Land(|s.requests|)), Reply(id))
  }

  /** The state in which an undisturbed call decides. */
  function Decided(s: State, id: nat, op: Operation): State {
    s.(calls := s.calls[id := Call(op, 0, Deciding(|s.log|, Current(s)))])
  }

  /** The state in which its accepted request is answered. */
  function Landed(s: State, id: nat, op: Operation, lease: Lease, claim: Option<Claim>, evidence: Option<Observed>): State {
    s.(log := s.log + [Entry(lease, By(op, evidence), s.now)],
       requests := s.requests + [Request(op, |s.log|, lease, claim, evidence, Accepted(|s.log| + 1))],
       calls := s.calls[id := Call(op, 0, Waiting(|s.requests|))])
  }

  lemma {:induction false} StartsAndReads(s: State, id: nat, op: Operation)
    requires id !in s.calls && MayStart(s, op)
    ensures Next(Next(s, Start(id, op)), Read(id)) == Decided(s, id, op)
  {
  }

  lemma {:induction false} Delivered(s: State, id: nat, op: Operation, plan: Plan)
    requires id in s.calls && s.calls[id] == Call(op, 0, Deciding(|s.log|, Current(s)))
    ensures var s' := Next(Next(Execute(s, id, plan), Land(|s.requests|)), Reply(id));
            match plan
            case Stop(outcome) => s' == Finish(s, id, outcome)
            case Send(lease, claim, evidence) =>
              s' == DoAccepted(Landed(s, id, op, lease, claim, evidence), id, claim, |s.log| + 1)
  {
    match plan
    case Stop(_) =>
    case Send(lease, claim, evidence) =>
      var sent := Execute(s, id, plan);
      var landed := Next(sent, Land(|s.requests|));
      assert landed.requests == Landed(s, id, op, lease, claim, evidence).requests;
      assert landed == Landed(s, id, op, lease, claim, evidence);
  }

  /** Whether the writer may change the anchor of this Lease now: a fenced one while its epoch is live and
      stored, an unfenced one while nobody holds the Lease. */
  predicate MayWrite(s: State, lease: Lease, fence: Option<Fence>) {
    match fence
    case Some(Fence(guard, claim)) =>
      && Live(s, guard, claim) && Holder(lease) == Some(claim.holder) && Counter(lease, WriterFence) == Some(claim.token)
      && Counter(lease, WriterRenewal).Some? && (StoredSeconds(lease).Some? ==> StoredSeconds(lease).value > 0)
    case None => Holder(lease).None? || (WriterFence !in Notes(lease) && WriterRenewal !in Notes(lease))
  }

  lemma {:induction false} MayWriteExactly(s: State, lease: Lease, fence: Option<Fence>)
    ensures MayWrite(s, lease, fence) <==> FenceLive(s, fence) && FencePermits(lease, fence)
  {
  }

  /** The reason why an advance from what was read does not take effect, if there is one. */
  function AdvanceRefusal(s: State, fence: Option<Fence>, expected: Option<Anchor>, next: Anchor, snapshot: Option<Lease>)
      : Option<Outcome> {
    match if snapshot.None? then NoAnchor else ReadAnchor(snapshot.value)
    case Unreadable => Some(Failed)
    case NoAnchor =>
      if expected.Some? then Some(StaleAnchor)
      else if (if snapshot.None? then fence.Some? else !MayWrite(s, snapshot.value, fence)) then Some(Failed)
      else None
    case Anchored(anchor) =>
      if expected != Some(anchor) || (next != anchor && next.sequence <= anchor.sequence) then Some(StaleAnchor)
      else if !MayWrite(s, snapshot.value, fence) then Some(Failed)
      else None
  }

  lemma {:induction false} AdvancePlan(
      s: State, fence: Option<Fence>, expected: Option<Anchor>, next: Anchor, snapshot: Option<Lease>)
    ensures var refusal := AdvanceRefusal(s, fence, expected, next, snapshot);
            PlanAdvance(s, fence, expected, next, snapshot) ==
            if refusal.Some? then Stop(refusal.value)
            else Send(WithAnchor(if snapshot.None? then EMPTY_LEASE else snapshot.value, next), None, None)
  {
    if snapshot.Some? { MayWriteExactly(s, snapshot.value, fence); }
  }

  /** An undisturbed advance takes effect exactly when the stored anchor is the expected one, the next one
      is the same or newer and the writer may write; then its caller is told the anchor stored. Otherwise
      nothing is written, and a wrong parent or an older sequence is reported as such. */
  lemma {:induction false} UndisturbedAdvance(s: State, id: nat, fence: Option<Fence>, expected: Option<Anchor>, next: Anchor)
    requires id !in s.calls
    ensures var op := Advance(fence, expected, next);
            var s', refusal := Undisturbed(s, id, op), AdvanceRefusal(s, fence, expected, next, Current(s));
            && id in s'.calls
            && if refusal.Some? then s'.calls[id].pc == Done(refusal.value) && s'.log == s.log
               else
                 && s'.calls[id].pc == Done(Saw(if next.formatDigest != "" then Anchored(next) else Unreadable))
                 && |s'.log| == |s.log| + 1 && s'.log[..|s.log|] == s.log
                 && ReadAnchor(s'.log[|s.log|].lease) == if next.formatDigest != "" then Anchored(next) else Unreadable
  {
    var op, s1 := Advance(fence, expected, next), Decided(s, id, Advance(fence, expected, next));
    StartsAndReads(s, id, op);
    AdvancePlan(s1, fence, expected, next, Current(s));
    Delivered(s1, id, op, PlanAdvance(s1, fence, expected, next, Current(s)));
    RefusalLocal(s, s1, fence, expected, next, Current(s));
    if AdvanceRefusal(s, fence, expected, next, Current(s)).None? {
      AnchorRoundTrip(if Current(s).None? then EMPTY_LEASE else Current(s).value, next);
    }
  }

  lemma {:induction false} RefusalLocal(
      s: State, s1: State, fence: Option<Fence>, expected: Option<Anchor>, next: Anchor, snapshot: Option<Lease>)
    requires s1.now == s.now && s1.guards == s.guards
    ensures AdvanceRefusal(s1, fence, expected, next, snapshot) == AdvanceRefusal(s, fence, expected, next, snapshot)
    ensures AdvanceRefusal(s, fence, expected, next, snapshot).None? && snapshot.Some? ==> !HasV2(Notes(snapshot.value))
  {
  }

  /** An undisturbed fencing read tells the stored anchor after writing exactly one revision, or that there
      is none where no Lease exists; it fails, writing nothing, exactly when the writer may not write. */
  lemma {:induction false} UndisturbedFencingRead(s: State, id: nat, fence: Option<Fence>)
    requires id !in s.calls
    ensures var s' := Undisturbed(s, id, FencingRead(fence));
            && id in s'.calls
            && match Current(s)
               case None => s'.calls[id].pc == Done(Saw(NoAnchor)) && s'.log == s.log
               case Some(lease) =>
                 if MayWrite(s, lease, fence) then
                   && s'.calls[id].pc == Done(Saw(ReadAnchor(lease)))
                   && |s'.log| == |s.log| + 1 && s'.log[..|s.log|] == s.log && s'.log[|s.log|].lease != lease
                 else s'.calls[id].pc == Done(Failed) && s'.log == s.log
  {
    var op, s1 := FencingRead(fence), Decided(s, id, FencingRead(fence));
    StartsAndReads(s, id, op);
    Delivered(s1, id, op, PlanFencingRead(s1, fence, Current(s)));
    if Current(s).Some? {
      MayWriteExactly(s1, Current(s).value, fence);
      BumpChanges(Current(s).value);
      GuardWritesKeepAnchor(Current(s).value, Claim("", 0), 0, 1, true);
    }
  }

  // ---------------------------------------------------------------- undisturbed guard calls

  /** The guard owns the epoch: active, with this claim, since this time. */
  predicate OwnsSince(guard: Guard, claim: Claim, time: nat) {
    guard.active && guard.claim == Some(claim) && guard.lastSuccess == Some(time) && guard.observation == None
  }

  /** What the server stores of an owner. */
  predicate StoredOwner(lease: Lease, claim: Claim, renewal: nat, seconds: nat) {
    && Holder(lease) == Some(claim.holder) && StoredSeconds(lease) == Some(seconds)
    && Counter(lease, WriterFence) == Some(claim.token) && Counter(lease, WriterRenewal) == Some(renewal)
  }

  /** The state after a guard call was accepted with this claim. */
  ghost predicate Gains(s: State, s': State, id: nat, who: Identity, time: nat, claim: Claim, renewal: nat) {
    && id in s'.calls && s'.calls[id].pc == Done(Owned(claim))
    && who.id in s'.guards && OwnsSince(s'.guards[who.id], claim, time)
    && |s'.log| == |s.log| + 1 && s'.log[..|s.log|] == s.log
    && StoredOwner(s'.log[|s.log|].lease, claim, renewal, who.seconds)
  }

  /** The state after a guard call stopped without writing. */
  ghost predicate Stops(s: State, s': State, id: nat, who: Identity, outcome: Outcome, guard: Guard) {
    && id in s'.calls && s'.calls[id].pc == Done(outcome) && s'.log == s.log
    && who.id in s'.guards && s'.guards[who.id] == guard
  }

  /** A guard call that wrote this Lease for this claim gains it. */
  lemma {:induction false} AcceptedGains(
      s: State, s1: State, id: nat, op: Operation, lease: Lease, claim: Claim, evidence: Option<Observed>, renewal: nat)
    requires (op.Acquire? || op.Renew?) && op.who.id in s1.guards && s1.log == s.log && id in s1.calls
    requires StoredOwner(lease, claim, renewal, op.who.seconds) && op.who.seconds > 0
    ensures Gains(s, DoAccepted(Landed(s1, id, op, lease, Some(claim), evidence), id, Some(claim), |s.log| + 1),
                  id, op.who, op.time, claim, renewal)
  {
    var landed := Landed(s1, id, op, lease, Some(claim), evidence);
    assert landed.log[|s.log|].lease == lease && landed.log[..|s.log|] == s.log;
    OwnedState(landed, id, op.who, op.time, claim, |s.log| + 1);
  }

  lemma {:induction false} GuardStateStored(lease: Lease, claim: Claim, renewal: U64, seconds: nat, acquiring: bool)
    requires WithGuardState(lease, claim, renewal, seconds, acquiring).Some?
    ensures StoredOwner(WithGuardState(lease, claim, renewal, seconds, acquiring).value, claim, renewal, seconds)
  {
    GuardStateCounters(lease, claim, renewal, seconds, acquiring);
  }

  lemma {:induction false} DecidesGuardCall(s: State, id: nat, op: Operation, guard: Guard, plan: Plan)
    requires id !in s.calls && IsGuardWrite(op) && MayStart(s, op)
    requires match op
             case Acquire(who, time) => (guard, plan) == PlanAcquire(s.guards[who.id], who, time, |s.log|, Current(s))
             case Renew(who, claim, _) => (guard, plan) == PlanRenew(s.guards[who.id], who, claim, Current(s))
             case Release(who, claim) => (guard, plan) == PlanRelease(s.guards[who.id], who, claim, Current(s))
             case _ => true
    ensures var s1 := WithGuard(Decided(s, id, op), op.who.id, guard);
            match plan
            case Stop(outcome) => Undisturbed(s, id, op) == Finish(s1, id, outcome)
            case Send(lease, claim, evidence) =>
              Undisturbed(s, id, op) == DoAccepted(Landed(s1, id, op, lease, claim, evidence), id, claim, |s.log| + 1)
  {
    StartsAndReads(s, id, op);
    Delivered(WithGuard(Decided(s, id, op), op.who.id, guard), id, op, plan);
  }

  /** An undisturbed acquisition gains the first epoch of a missing Lease and the next epoch of a free one.
      A held Lease is watched: the first sight of a record and every change of it only start the watch, the
      latter reporting a live writer; the record is taken over exactly when it is the one being watched and
      its duration has passed since. Invalid Leases and exhausted counters fail. */
  lemma {:induction false} UndisturbedAcquire(s: State, id: nat, who: Identity, time: nat)
    requires Inv(s) && id !in s.calls && MayStart(s, Acquire(who, time))
    ensures var s', guard := Undisturbed(s, id, Acquire(who, time)), s.guards[who.id];
            match Current(s)
            case None => Gains(s, s', id, who, time, Claim(who.holder, 1), 1)
            case Some(lease) =>
              match ReadCoordination(lease, who.seconds)
              case None => Stops(s, s', id, who, Failed, guard)
              case Some(Coordination(holder, token, renewal, seconds)) =>
                var record := if holder.Some? then Some(Record(holder.value, token, renewal, seconds)) else None;
                var watched := if guard.observation.Some? then Some(guard.observation.value.record) else None;
                if record.Some? && record != watched then
                  Stops(s, s', id, who, if watched.None? then HeldByOther else HeldByLiveWriter,
                        guard.(observation := Some(Observed(record.value, time, |s.log|))))
                else if record.Some? && time < guard.observation.value.at + seconds * 1_000_000_000 then
                  Stops(s, s', id, who, HeldByOther, guard)
                else if token + 1 == U64_LIMIT || renewal + 1 == U64_LIMIT || TransitionsExhausted(lease, who) then
                  Stops(s, s', id, who, Failed, guard)
                else Gains(s, s', id, who, time, Claim(who.holder, token + 1), renewal + 1)
  {
    var op, guard := Acquire(who, time), s.guards[who.id];
    var (guard', plan) := PlanAcquire(guard, who, time, |s.log|, Current(s));
    assert GuardOk(s.log, who.id, guard);
    AcquirePlan(guard, who, time, |s.log|, Current(s));
    DecidesGuardCall(s, id, op, guard', plan);
    if plan.Send? {
      var renewal := if Current(s).None? then 1 else ReadCoordination(Current(s).value, who.seconds).value.renewal + 1;
      AcceptedGains(s, WithGuard(Decided(s, id, op), who.id, guard'), id, op, plan.lease, plan.claim.value, plan.evidence, renewal);
    }
  }

  /** The count of holders cannot grow any more. */
  predicate TransitionsExhausted(lease: Lease, who: Identity) {
    && Holder(lease).Some? && Holder(lease) != Some(who.holder)
    && lease.spec.value.transitions.Some? && lease.spec.value.transitions.value >= 0x7FFF_FFFF
  }

  /** The plan of an acquisition, in the terms of the theorem. */
  lemma {:induction false} AcquirePlan(guard: Guard, who: Identity, time: nat, version: nat, snapshot: Option<Lease>)
    requires who.seconds > 0
    ensures var (guard', plan) := PlanAcquire(guard, who, time, version, snapshot);
            match snapshot
            case None =>
              && guard' == guard && plan.Send? && plan.claim == Some(Claim(who.holder, 1))
              && StoredOwner(plan.lease, Claim(who.holder, 1), 1, who.seconds)
            case Some(lease) =>
              match ReadCoordination(lease, who.seconds)
              case None => guard' == guard && plan == Stop(Failed)
              case Some(Coordination(holder, token, renewal, seconds)) =>
                var record := if holder.Some? then Some(Record(holder.value, token, renewal, seconds)) else None;
                var watched := if guard.observation.Some? then Some(guard.observation.value.record) else None;
                if record.Some? && record != watched then
                  && plan == Stop(if watched.None? then HeldByOther else HeldByLiveWriter)
                  && guard' == guard.(observation := Some(Observed(record.value, time, version)))
                else if record.Some? && time < guard.observation.value.at + seconds * 1_000_000_000 then
                  guard' == guard && plan == Stop(HeldByOther)
                else if token + 1 == U64_LIMIT || renewal + 1 == U64_LIMIT || TransitionsExhausted(lease, who) then
                  guard' == guard && plan == Stop(Failed)
                else
                  && guard' == guard && plan.Send? && plan.claim == Some(Claim(who.holder, token + 1))
                  && StoredOwner(plan.lease, Claim(who.holder, token + 1), renewal + 1, who.seconds)
  {
    var (guard', plan) := PlanAcquire(guard, who, time, version, snapshot);
    if plan.Send? {
      if snapshot.None? {
        GuardStateStored(EMPTY_LEASE, Claim(who.holder, 1), 1, who.seconds, true);
      } else {
        var current := ReadCoordination(snapshot.value, who.seconds).value;
        GuardStateStored(snapshot.value, Claim(who.holder, current.token + 1), current.renewal + 1, who.seconds, true);
      }
    }
  }

  /** An undisturbed renewal keeps the epoch with the next renewal count while the Lease still carries it.
      A guard whose Lease is gone or carries another holder or epoch becomes inactive. */
  lemma {:induction false} UndisturbedRenew(s: State, id: nat, who: Identity, claim: Claim, time: nat)
    requires Inv(s) && id !in s.calls && MayStart(s, Renew(who, claim, time))
    ensures var s', guard := Undisturbed(s, id, Renew(who, claim, time)), s.guards[who.id];
            match Current(s)
            case None => Stops(s, s', id, who, Failed, guard.(active := false))
            case Some(lease) =>
              match ReadCoordination(lease, who.seconds)
              case None => Stops(s, s', id, who, Failed, guard)
              case Some(Coordination(holder, token, renewal, _)) =>
                if holder != Some(claim.holder) || token != claim.token then
                  Stops(s, s', id, who, HeldByOther, guard.(active := false))
                else if renewal + 1 == U64_LIMIT then Stops(s, s', id, who, Failed, guard)
                else Gains(s, s', id, who, time, claim, renewal + 1)
  {
    var op, guard := Renew(who, claim, time), s.guards[who.id];
    var (guard', plan) := PlanRenew(guard, who, claim, Current(s));
    assert GuardOk(s.log, who.id, guard);
    DecidesGuardCall(s, id, op, guard', plan);
    if plan.Send? {
      var renewal := ReadCoordination(Current(s).value, who.seconds).value.renewal + 1;
      GuardStateStored(Current(s).value, claim, renewal, who.seconds, false);
      AcceptedGains(s, WithGuard(Decided(s, id, op), who.id, guard'), id, op, plan.lease, claim, plan.evidence, renewal);
    }
  }

  /** The state after a release was accepted: the Lease is free, with the same epoch and the next renewal
      count, and the guard is inactive. */
  ghost predicate Frees(s: State, s': State, id: nat, who: Identity, token: nat, renewal: nat) {
    && id in s'.calls && s'.calls[id].pc == Done(Released)
    && who.id in s.guards && who.id in s'.guards && s'.guards[who.id] == s.guards[who.id].(active := false)
    && |s'.log| == |s.log| + 1 && s'.log[..|s.log|] == s.log
    && StoredFree(s'.log[|s.log|].lease, token, renewal)
  }

  /** What the server stores of a free Lease. */
  predicate StoredFree(lease: Lease, token: nat, renewal: nat) {
    Holder(lease) == None && Counter(lease, WriterFence) == Some(token) && Counter(lease, WriterRenewal) == Some(renewal)
  }

  /** An undisturbed release frees the Lease while it still carries the epoch, and in any case in which the
      Lease is gone or carries another one leaves the guard inactive. */
  lemma {:induction false} UndisturbedRelease(s: State, id: nat, who: Identity, claim: Claim)
    requires Inv(s) && id !in s.calls && MayStart(s, Release(who, claim))
    ensures var s', guard := Undisturbed(s, id, Release(who, claim)), s.guards[who.id];
            match Current(s)
            case None => Stops(s, s', id, who, Failed, guard.(active := false))
            case Some(lease) =>
              match ReadCoordination(lease, who.seconds)
              case None => Stops(s, s', id, who, Failed, guard)
              case Some(Coordination(holder, token, renewal, _)) =>
                if holder != Some(claim.holder) || token != claim.token then
                  Stops(s, s', id, who, HeldByOther, guard.(active := false))
                else if renewal + 1 == U64_LIMIT || WriterFence !in Notes(lease) then Stops(s, s', id, who, Failed, guard)
                else Frees(s, s', id, who, token, renewal + 1)
  {
    var op, guard := Release(who, claim), s.guards[who.id];
    var (guard', plan) := PlanRelease(guard, who, claim, Current(s));
    assert GuardOk(s.log, who.id, guard);
    DecidesGuardCall(s, id, op, guard', plan);
    ReleasePlan(guard, who, claim, Current(s));
    if plan.Send? {
      var current := ReadCoordination(Current(s).value, who.seconds).value;
      AcceptedFrees(s, WithGuard(Decided(s, id, op), who.id, guard'), id, op, plan.lease, current.token, current.renewal + 1);
    }
  }

  lemma {:induction false} ReleasePlan(guard: Guard, who: Identity, claim: Claim, snapshot: Option<Lease>)
    ensures var (guard', plan) := PlanRelease(guard, who, claim, snapshot);
            match snapshot
            case None => guard' == guard.(active := false) && plan == Stop(Failed)
            case Some(lease) =>
              match ReadCoordination(lease, who.seconds)
              case None => guard' == guard && plan == Stop(Failed)
              case Some(Coordination(holder, token, renewal, _)) =>
                if holder != Some(claim.holder) || token != claim.token then
                  guard' == guard.(active := false) && plan == Stop(HeldByOther)
                else if renewal + 1 == U64_LIMIT || WriterFence !in Notes(lease) then guard' == guard && plan == Stop(Failed)
                else
                  && guard' == guard && plan.Send? && plan.claim == None && plan.evidence == None
                  && StoredFree(plan.lease, token, renewal + 1)
  {
    var (guard', plan) := PlanRelease(guard, who, claim, snapshot);
    if plan.Send? {
      ReleasedCounters(snapshot.value, ReadCoordination(snapshot.value, who.seconds).value.renewal + 1);
    }
  }

  lemma {:induction false} AcceptedFrees(
      s: State, s1: State, id: nat, op: Operation, lease: Lease, token: nat, renewal: nat)
    requires op.Release? && op.who.id in s.guards && s1.guards == s.guards && s1.log == s.log && id in s1.calls
    requires StoredFree(lease, token, renewal)
    ensures Frees(s, DoAccepted(Landed(s1, id, op, lease, None, None), id, None, |s.log| + 1), id, op.who, token, renewal)
  {
    var landed := Landed(s1, id, op, lease, None, None);
    assert landed.log[|s.log|].lease == lease && landed.log[..|s.log|] == s.log;
  }

  lemma {:induction false} ReleasedCounters(lease: Lease, renewal: U64)
    requires WithReleasedState(lease, renewal).Some?
    ensures var after := WithReleasedState(lease, renewal).value;
            && Holder(after) == None && Counter(after, WriterFence) == Counter(lease, WriterFence)
            && Counter(after, WriterRenewal) == Some(renewal)
  {
    DecimalRoundTrip(renewal);
  }
}
