/** Safety of the Lease protocol over every run: any number of guards and anchors, any
    interleaving, requests landing late and replies lost. */
module LeaseSafety {
  import opened Prelude
  import opened Leases
  import opened LeaseProtocol
  import opened LeaseHistory

  function Revision(log: seq<Entry>, version: nat): Option<Lease>
    requires version <= |log|
  {
    if version == 0 then None else Some(log[version - 1].lease)
  }

  predicate ClaimMatches(request: Request) {
    match request.op
    case Acquire(who, _) =>
      && request.claim.Some?
      && request.claim.value.holder == who.holder
      && HoldsClaim(request.lease, request.claim.value) == Some(true)
    case Renew(_, claim, _) =>
      && request.claim == Some(claim)
      && HoldsClaim(request.lease, claim) == Some(true)
    case _ => request.evidence.None?
  }

  /** A request carries what its operation computes from the revision it names, and if it was
      accepted it became the very next revision. */
  predicate RequestOk(log: seq<Entry>, request: Request) {
    && request.basis <= |log|
    && WrittenFrom(request.op, request.evidence, log, request.basis, request.lease)
    && EvidenceIn(log, request.op, request.evidence)
    && ClaimMatches(request)
    && (request.evidence.Some? ==> request.evidence.value.version <= |log|)
    && (request.status.Accepted? ==>
          && request.status.version == request.basis + 1 <= |log|
          && log[request.basis].lease == request.lease
          && log[request.basis].writer == By(request.op, request.evidence))
  }

  predicate HasGuard(guards: map<nat, Guard>, who: Identity) {
    who.id in guards && guards[who.id].who == who && who.seconds > 0
  }

  predicate OperationOk(guards: map<nat, Guard>, op: Operation) {
    IsGuardWrite(op) ==> HasGuard(guards, op.who)
  }

  predicate CallOk(s: State, call: Call) {
    && OperationOk(s.guards, call.op)
    && (call.pc.Deciding? ==>
          call.pc.version <= |s.log| && call.pc.snapshot == Revision(s.log, call.pc.version))
    && (call.pc.Waiting? ==> call.pc.request < |s.requests| && s.requests[call.pc.request].op == call.op)
  }

  predicate GuardOk(log: seq<Entry>, id: nat, guard: Guard) {
    && guard.who.id == id
    && guard.who.seconds > 0
    && (guard.observation.Some? ==> ObservedIn(log, guard.who.seconds, guard.observation.value))
  }

  predicate Inv(s: State) {
    && Linear(s.log)
    && (forall r | 0 <= r < |s.requests| :: RequestOk(s.log, s.requests[r]))
    && (forall id | id in s.guards :: GuardOk(s.log, id, s.guards[id]))
    && (forall id | id in s.calls :: CallOk(s, s.calls[id]))
  }

  lemma {:induction false} InitInv(s: State)
    requires Init(s)
    ensures Inv(s)
  {
    forall i | 0 <= i < |s.log| ensures EntryOk(s.log, i) {
      assert s.log[i].writer == Initially;
    }
  }

  // ---------------------------------------------------------------- preservation

  lemma {:induction false} MayTakeOwnershipOk(log: seq<Entry>, guard: Guard, lease: Lease, time: nat, version: nat)
    requires GuardOk(log, guard.who.id, guard) && 1 <= version <= |log| && log[version - 1].lease == lease
    requires ReadCoordination(lease, guard.who.seconds).Some?
    ensures var current := ReadCoordination(lease, guard.who.seconds).value;
            var (guard', decision) := MayTakeOwnership(guard, current, time, version);
            && GuardOk(log, guard.who.id, guard')
            && guard'.(observation := guard.observation) == guard
            && (decision == Allowed && RecordOf(current).Some? ==>
                  && guard'.observation.Some?
                  && guard'.observation.value.record == RecordOf(current).value
                  && SaturatingSub(time, guard'.observation.value.at) >= Nanos(current.seconds))
  {
  }

  /** A takeover request that the watching guard may send is well founded. */
  lemma {:induction false} AcquireRequestOk(log: seq<Entry>, guard: Guard, time: nat, version: nat)
    requires GuardOk(log, guard.who.id, guard) && 1 <= version <= |log|
    requires ReadCoordination(log[version - 1].lease, guard.who.seconds).Some?
    requires var current := ReadCoordination(log[version - 1].lease, guard.who.seconds).value;
             && current.token + 1 < U64_LIMIT && current.renewal + 1 < U64_LIMIT
             && (RecordOf(current).Some? ==>
                   && guard.observation.Some?
                   && guard.observation.value.record == RecordOf(current).value
                   && SaturatingSub(time, guard.observation.value.at) >= Nanos(current.seconds))
    ensures var who, lease := guard.who, log[version - 1].lease;
            var current := ReadCoordination(lease, who.seconds).value;
            var claim := Claim(who.holder, current.token + 1);
            var written := WithGuardState(lease, claim, current.renewal + 1, who.seconds, true);
            written.Some? ==>
              RequestOk(log, Request(Acquire(who, time), version, written.value, Some(claim), guard.observation, Pending))
  {
    var who, lease := guard.who, log[version - 1].lease;
    var current := ReadCoordination(lease, who.seconds).value;
    var claim := Claim(who.holder, current.token + 1);
    if WithGuardState(lease, claim, current.renewal + 1, who.seconds, true).Some? {
      GuardStateCoordination(lease, claim, current.renewal + 1, who.seconds, true, 1);
    }
  }

  lemma {:induction false} PlanAcquireOk(log: seq<Entry>, guard: Guard, who: Identity, time: nat, version: nat)
    requires GuardOk(log, who.id, guard) && guard.who == who && version <= |log|
    ensures var (guard', plan) := PlanAcquire(guard, who, time, version, Revision(log, version));
            && GuardOk(log, who.id, guard') && guard'.(observation := guard.observation) == guard
            && (plan.Send? ==>
                  RequestOk(log, Request(Acquire(who, time), version, plan.lease, plan.claim, plan.evidence, Pending)))
  {
    if version == 0 {
      GuardStateCoordination(EMPTY_LEASE, Claim(who.holder, 1), 1, who.seconds, true, 1);
    } else {
      var lease := log[version - 1].lease;
      var read := ReadCoordination(lease, who.seconds);
      if read.Some? {
        MayTakeOwnershipOk(log, guard, lease, time, version);
        var (watching, decision) := MayTakeOwnership(guard, read.value, time, version);
        if decision == Allowed && read.value.token + 1 < U64_LIMIT && read.value.renewal + 1 < U64_LIMIT {
          AcquireRequestOk(log, watching, time, version);
        }
      }
    }
  }

  lemma {:induction false} PlanRenewOk(log: seq<Entry>, guard: Guard, who: Identity, claim: Claim, time: nat, version: nat)
    requires GuardOk(log, who.id, guard) && guard.who == who && version <= |log|
    ensures var (guard', plan) := PlanRenew(guard, who, claim, Revision(log, version));
            && GuardOk(log, who.id, guard') && guard'.who == who
            && guard'.(active := guard.active) == guard && (guard'.active ==> guard.active)
            && (plan.Send? ==>
                  RequestOk(log, Request(Renew(who, claim, time), version, plan.lease, plan.claim, plan.evidence, Pending)))
  {
    var (guard', plan) := PlanRenew(guard, who, claim, Revision(log, version));
    if plan.Send? {
      var lease := log[version - 1].lease;
      GuardStateCoordination(lease, claim, ReadCoordination(lease, who.seconds).value.renewal + 1, who.seconds, false, 1);
    }
  }

  lemma {:induction false} PlanReleaseOk(log: seq<Entry>, guard: Guard, who: Identity, claim: Claim, version: nat)
    requires GuardOk(log, who.id, guard) && guard.who == who && version <= |log|
    ensures var (guard', plan) := PlanRelease(guard, who, claim, Revision(log, version));
            && GuardOk(log, who.id, guard') && guard'.who == who
            && guard'.(active := guard.active) == guard && (guard'.active ==> guard.active)
            && (plan.Send? ==>
                  RequestOk(log, Request(Release(who, claim), version, plan.lease, plan.claim, plan.evidence, Pending)))
  {
  }

  lemma {:induction false} PlanAnchorOk(s: State, op: Operation, version: nat)
    requires (op.Advance? || op.FencingRead?) && version <= |s.log|
    ensures var plan := if op.Advance? then PlanAdvance(s, op.fence, op.expected, op.next, Revision(s.log, version))
                        else PlanFencingRead(s, op.fence, Revision(s.log, version));
            plan.Send? ==> RequestOk(s.log, Request(op, version, plan.lease, plan.claim, plan.evidence, Pending))
  {
  }

  /** Changing one guard without changing its identity keeps every call's facts. */
  lemma {:induction false} WithGuardInv(s: State, id: nat, guard: Guard)
    requires Inv(s) && id in s.guards
    requires GuardOk(s.log, id, guard) && guard.who == s.guards[id].who
    ensures Inv(WithGuard(s, id, guard))
  {
    var s' := WithGuard(s, id, guard);
    forall c | c in s'.calls ensures CallOk(s', s'.calls[c]) {
      assert CallOk(s, s.calls[c]);
    }
  }

  lemma {:induction false} FinishInv(s: State, id: nat, outcome: Outcome)
    requires Inv(s) && id in s.calls
    ensures Inv(Finish(s, id, outcome))
  {
    var s' := Finish(s, id, outcome);
    forall c | c in s'.calls ensures CallOk(s', s'.calls[c]) {
      assert CallOk(s, s.calls[c]);
    }
  }

  lemma {:induction false} ExecuteInv(s: State, id: nat, plan: Plan)
    requires Inv(s) && id in s.calls && s.calls[id].pc.Deciding?
    requires plan.Send? ==> RequestOk(s.log, Request(s.calls[id].op, s.calls[id].pc.version, plan.lease,
                                                     plan.claim, plan.evidence, Pending))
    ensures Inv(Execute(s, id, plan))
  {
    match plan
    case Stop(outcome) => FinishInv(s, id, outcome);
    case Send(_, _, _) =>
      var s' := Execute(s, id, plan);
      forall c | c in s'.calls ensures CallOk(s', s'.calls[c]) {
        assert CallOk(s, s.calls[c]);
      }
  }

  lemma {:induction false} DecideInv(s: State, id: nat)
    requires Inv(s)
    ensures Inv(DoDecide(s, id))
  {
    if id in s.calls && s.calls[id].pc.Deciding? {
      assert CallOk(s, s.calls[id]);
      var Call(op, _, Deciding(version, snapshot)) := s.calls[id];
      match op
      case Advance(fence, expected, next) =>
        PlanAnchorOk(s, op, version);
        ExecuteInv(s, id, PlanAdvance(s, fence, expected, next, snapshot));
      case FencingRead(fence) =>
        PlanAnchorOk(s, op, version);
        ExecuteInv(s, id, PlanFencingRead(s, fence, snapshot));
      case Acquire(who, time) =>
        assert GuardOk(s.log, who.id, s.guards[who.id]);
        PlanAcquireOk(s.log, s.guards[who.id], who, time, version);
        var (guard, plan) := PlanAcquire(s.guards[who.id], who, time, version, snapshot);
        WithGuardInv(s, who.id, guard);
        ExecuteInv(WithGuard(s, who.id, guard), id, plan);
      case Renew(who, claim, time) =>
        assert GuardOk(s.log, who.id, s.guards[who.id]);
        PlanRenewOk(s.log, s.guards[who.id], who, claim, time, version);
        var (guard, plan) := PlanRenew(s.guards[who.id], who, claim, snapshot);
        WithGuardInv(s, who.id, guard);
        ExecuteInv(WithGuard(s, who.id, guard), id, plan);
      case Release(who, claim) =>
        assert GuardOk(s.log, who.id, s.guards[who.id]);
        PlanReleaseOk(s.log, s.guards[who.id], who, claim, version);
        var (guard, plan) := PlanRelease(s.guards[who.id], who, claim, snapshot);
        WithGuardInv(s, who.id, guard);
        ExecuteInv(WithGuard(s, who.id, guard), id, plan);
    }
  }

  lemma {:induction false} RequestOkExtends(log: seq<Entry>, entry: Entry, request: Request)
    requires RequestOk(log, request)
    ensures RequestOk(log + [entry], request)
  {
    assert request.basis > 0 ==> (log + [entry])[request.basis - 1] == log[request.basis - 1];
  }

  lemma {:induction false} LandInv(s: State, r: nat)
    requires Inv(s)
    ensures Inv(DoLand(s, r))
  {
    if r < |s.requests| && s.requests[r].status.Pending? {
      var request, s' := s.requests[r], DoLand(s, r);
      assert RequestOk(s.log, request);
      if request.basis == |s.log| {
        var entry := s'.log[|s.log|];
        RequestOkExtends(s.log, entry, request);
        AppendLinear(s.log, entry);
        forall q | 0 <= q < |s'.requests| ensures RequestOk(s'.log, s'.requests[q]) {
          RequestOkExtends(s.log, entry, s.requests[q]);
        }
      }
      forall c | c in s'.calls ensures CallOk(s', s'.calls[c]) {
        assert CallOk(s, s.calls[c]);
      }
    }
  }

  lemma {:induction false} ReplyInv(s: State, id: nat)
    requires Inv(s)
    ensures Inv(DoReply(s, id))
  {
    if id in s.calls && s.calls[id].pc.Waiting? {
      assert CallOk(s, s.calls[id]);
      var Call(op, attempts, Waiting(r)) := s.calls[id];
      match s.requests[r].status
      case Pending =>
      case Refused =>
        FinishInv(s, id, ConflictLimit);
        var s' := DoReply(s, id);
        forall c | c in s'.calls ensures CallOk(s', s'.calls[c]) {
          assert CallOk(s, s.calls[c]);
        }
      case Accepted(version) =>
        assert RequestOk(s.log, s.requests[r]);
        AcceptedInv(s, id, s.requests[r].claim, version);
    }
  }

  lemma {:induction false} AcceptedInv(s: State, id: nat, claim: Option<Claim>, version: nat)
    requires Inv(s) && id in s.calls && 1 <= version <= |s.log|
    ensures Inv(DoAccepted(s, id, claim, version))
  {
    assert CallOk(s, s.calls[id]);
    match s.calls[id].op
    case Advance(_, _, _) => FinishInv(s, id, Saw(ReadAnchor(s.log[version - 1].lease)));
    case FencingRead(_) => FinishInv(s, id, Saw(ReadAnchor(s.log[version - 1].lease)));
    case Release(who, _) =>
      var guard := s.guards[who.id].(active := false);
      WithGuardInv(s, who.id, guard);
      FinishInv(WithGuard(s, who.id, guard), id, Released);
    case Acquire(who, time) => if claim.Some? { OwnedInv(s, id, who, time, claim.value, version); }
    case Renew(who, _, time) => if claim.Some? { OwnedInv(s, id, who, time, claim.value, version); }
  }

  lemma {:induction false} OwnedInv(s: State, id: nat, who: Identity, time: nat, claim: Claim, version: nat)
    requires Inv(s) && id in s.calls && who.id in s.guards && 1 <= version <= |s.log|
    ensures Inv(DoOwned(s, id, who, time, claim, version))
  {
    var (guard, ok) := RecordSuccess(s.guards[who.id], s.log[version - 1].lease, claim, time, version);
    assert GuardOk(s.log, who.id, s.guards[who.id]);
    WithGuardInv(s, who.id, guard);
    FinishInv(WithGuard(s, who.id, guard), id, if ok then Owned(claim) else Failed);
  }

  lemma {:induction false} NextInv(s: State, action: Action)
    requires Inv(s)
    ensures Inv(Next(s, action))
  {
    var s' := Next(s, action);
    match action
    case Decide(id) => DecideInv(s, id);
    case Land(r) => LandInv(s, r);
    case Reply(id) => ReplyInv(s, id);
    case GiveUp(id) => if id in s.calls { FinishInv(s, id, Failed); }
    case _ =>
      forall c | c in s'.calls ensures CallOk(s', s'.calls[c]) {
        if c in s.calls { assert CallOk(s, s.calls[c]); }
      }
  }

  lemma {:induction false} RunInv(s: State, actions: seq<Action>)
    requires Inv(s)
    ensures Inv(Run(s, actions))
  {
    if actions != [] {
      RunInv(s, actions[..|actions| - 1]);
      NextInv(Run(s, actions[..|actions| - 1]), actions[|actions| - 1]);
    }
  }

  // ---------------------------------------------------------------- theorems over runs

  predicate FencedWrite(entry: Entry) {
    entry.writer.By? && FenceOf(entry.writer.op).Some?
  }

  /** In every run: a fenced anchor write lands only on a Lease that carries exactly its writer's
      holder and token, and never after an acquisition of a newer epoch has landed. */
  lemma {:induction false} FencedWritesInEveryRun(s0: State, actions: seq<Action>)
    requires Init(s0)
    ensures var log := Run(s0, actions).log;
            && Linear(log)
            && (forall v | 0 <= v < |log| && FencedWrite(log[v]) ::
                  v > 0 && HoldsClaim(log[v - 1].lease, FenceOf(log[v].writer.op).value.claim) == Some(true))
            && (forall a, v | 0 <= a < v < |log| && Acquires(log[a]) && FencedWrite(log[v]) ::
                  FenceOf(log[v].writer.op).value.claim.token >= Token(log, a))
  {
    InitInv(s0);
    RunInv(s0, actions);
    var log := Run(s0, actions).log;
    forall v | 0 <= v < |log| && FencedWrite(log[v])
      ensures v > 0 && HoldsClaim(log[v - 1].lease, FenceOf(log[v].writer.op).value.claim) == Some(true)
    {
      FencedWriteHolds(log, v);
    }
    forall a, v | 0 <= a < v < |log| && Acquires(log[a]) && FencedWrite(log[v])
      ensures FenceOf(log[v].writer.op).value.claim.token >= Token(log, a)
    {
      FencedWriteSafety(log, v, a);
    }
  }

  predicate SameRequest(before: Request, after: Request) {
    && before.op == after.op
    && before.basis == after.basis
    && before.lease == after.lease
    && (before.status.Accepted? ==> after.status == before.status)
  }

  /** Later steps keep the history and every recorded request; a request accepted later was
      computed from a revision at least as new as the history had when the steps began. */
  ghost predicate Extends(s: State, s': State) {
    && s.log <= s'.log
    && |s.requests| <= |s'.requests|
    && (forall r | 0 <= r < |s.requests| :: SameRequest(s.requests[r], s'.requests[r]))
    && (forall r | 0 <= r < |s'.requests| && s'.requests[r].status.Accepted? ::
          s'.requests[r].basis >= |s.log| || (r < |s.requests| && s.requests[r].status.Accepted?))
  }

  /** Deciding never touches the history; it sends at most one request, and only for its own call. */
  lemma {:induction false} DecideFrame(s: State, id: nat)
    ensures var s' := DoDecide(s, id);
            && s'.log == s.log && s'.now == s.now
            && (s'.requests == s.requests
                || (|s'.requests| == |s.requests| + 1
                    && s'.requests[..|s.requests|] == s.requests
                    && s'.requests[|s.requests|].status == Pending))
  {
  }

  /** Handling a reply touches only the guard and the call. */
  lemma {:induction false} ReplyFrame(s: State, id: nat)
    ensures var s' := DoReply(s, id);
            s'.log == s.log && s'.now == s.now && s'.requests == s.requests
  {
  }

  lemma {:induction false} NextExtends(s: State, action: Action)
    ensures Extends(s, Next(s, action))
  {
    match action
    case Decide(id) =>
      DecideFrame(s, id);
      var s' := DoDecide(s, id);
      assert forall r | 0 <= r < |s.requests| :: s'.requests[r] == s'.requests[..|s.requests|][r];
    case Reply(id) => ReplyFrame(s, id);
    case _ =>
  }

  lemma {:induction false} RunExtends(s: State, actions: seq<Action>)
    ensures Extends(s, Run(s, actions))
  {
    if actions != [] {
      var front := actions[..|actions| - 1];
      RunExtends(s, front);
      NextExtends(Run(s, front), actions[|actions| - 1]);
    }
  }

  predicate ExpectsWhat(op: Operation, read: AnchorRead) {
    op.Advance? && read == if op.expected.Some? then Anchored(op.expected.value) else NoAnchor
  }

  /** Once a fencing read has landed, no request computed from an earlier revision can land any more,
      and the anchor of the landed revision settles the fate of every such request. */
  lemma {:induction false} FencingRevisionIsFinal(s: State, actions: seq<Action>, fencing: nat, earlier: nat)
    requires Inv(s)
    requires fencing < |s.requests| && s.requests[fencing].op.FencingRead? && s.requests[fencing].status.Accepted?
    requires earlier < |Run(s, actions).requests|
    requires Run(s, actions).requests[earlier].basis < s.requests[fencing].status.version
    ensures var request := Run(s, actions).requests[earlier];
            var returned := ReadAnchor(s.requests[fencing].lease);
            && (request.status.Accepted? ==> earlier < |s.requests| && s.requests[earlier].status == request.status)
            && (ExpectsWhat(request.op, returned) && returned != Anchored(request.op.next) ==> !request.status.Accepted?)
            && (request.status.Accepted? && request.op.Advance? ==>
                  returned.Unreadable? || (returned.Anchored? && returned.anchor.sequence >= request.op.next.sequence))
  {
    RunExtends(s, actions);
    var s' := Run(s, actions);
    RunInv(s, actions);
    var request := s'.requests[earlier];
    assert RequestOk(s.log, s.requests[fencing]);
    if request.status.Accepted? {
      assert SameRequest(s.requests[earlier], request);
      if request.op.Advance? {
        var w, v := request.basis, s.requests[fencing].basis;
        assert RequestOk(s.log, s.requests[earlier]);
        assert EntryOk(s.log, w);
        AcceptedAdvanceReads(s.log, w);
        AnchorsAdvance(s.log, w, v);
      }
    }
  }

  /** A revision written by an advance reads back as exactly the anchor it wrote, unless the format digest
      is empty. */
  lemma {:induction false} AcceptedAdvanceReads(log: seq<Entry>, i: nat)
    requires Linear(log) && i < |log| && log[i].writer.By? && log[i].writer.op.Advance?
    ensures var op := log[i].writer.op;
            && ReadAnchor(log[i].lease) == (if op.next.formatDigest != "" then Anchored(op.next) else Unreadable)
            && (op.expected.Some? ==> op.next == op.expected.value || op.next.sequence > op.expected.value.sequence)
  {
    assert EntryOk(log, i);
    AnchorRoundTrip(if i == 0 then EMPTY_LEASE else log[i - 1].lease, log[i].writer.op.next);
  }

  /** In every run the anchor history is linear: each change replaces exactly the parent its
      writer expected, sequences only grow, and guard writes and fencing reads change nothing. */
  lemma {:induction false} AnchorHistoryInEveryRun(s0: State, actions: seq<Action>)
    requires Init(s0)
    ensures var log := Run(s0, actions).log;
            && (forall i | 0 < i < |log| && ReadAnchor(log[i].lease) != ReadAnchor(log[i - 1].lease) ::
                  && log[i].writer.By? && log[i].writer.op.Advance?
                  && Advances(ReadAnchor(log[i - 1].lease), log[i].writer.op, ReadAnchor(log[i].lease)))
            && (forall i, j | 0 <= i <= j < |log| :: NotOlder(ReadAnchor(log[i].lease), ReadAnchor(log[j].lease)))
  {
    InitInv(s0);
    RunInv(s0, actions);
    var log := Run(s0, actions).log;
    forall i | 0 < i < |log| && ReadAnchor(log[i].lease) != ReadAnchor(log[i - 1].lease)
      ensures log[i].writer.By? && log[i].writer.op.Advance?
      ensures Advances(ReadAnchor(log[i - 1].lease), log[i].writer.op, ReadAnchor(log[i].lease))
    {
      AnchorStep(log, i);
    }
    forall i, j | 0 <= i <= j < |log| ensures NotOlder(ReadAnchor(log[i].lease), ReadAnchor(log[j].lease)) {
      AnchorsAdvance(log, i, j);
    }
  }

  /** In every run a takeover of a held Lease is backed by an observation of the unchanged record,
      at least the stored duration old, with no guard write landing since. */
  lemma {:induction false} TakeoversInEveryRun(s0: State, actions: seq<Action>, v: nat)
    requires Init(s0)
    requires 0 < v < |Run(s0, actions).log| && Acquires(Run(s0, actions).log[v])
    requires Holder(Run(s0, actions).log[v - 1].lease).Some?
    ensures var log := Run(s0, actions).log;
            && log[v].writer.evidence.Some?
            && var seen := log[v].writer.evidence.value;
            && 1 <= seen.version <= v
            && SaturatingSub(log[v].writer.op.time, seen.at) >= Nanos(seen.record.seconds)
            && (forall k | seen.version <= k < v :: !GuardWrote(log[k]))
  {
    InitInv(s0);
    RunInv(s0, actions);
    TakeoverHasNoAba(Run(s0, actions).log, v);
  }
}
