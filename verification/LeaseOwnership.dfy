/** Which guard an epoch belongs to: in every run each claim that a guard holds, renews or releases
    was acquired by that very guard, and a local success is a landed write of that guard. */
module LeaseOwnership {
  import opened Prelude
  import opened Leases
  import opened LeaseProtocol
  import opened LeaseHistory
  import opened LeaseSafety

  ghost predicate AcquiredBy(log: seq<Entry>, who: Identity, token: nat) {
    exists a :: 0 <= a < |log| && Acquires(log[a]) && log[a].writer.op.who == who && Token(log, a) == token
  }

  /** An epoch token belongs to one acquisition, hence to one guard. */
  lemma {:induction false} TokenHasOneOwner(log: seq<Entry>, who: Identity, other: Identity, token: nat)
    requires Linear(log) && AcquiredBy(log, who, token) && AcquiredBy(log, other, token)
    ensures who == other
  {
    var a :| 0 <= a < |log| && Acquires(log[a]) && log[a].writer.op.who == who && Token(log, a) == token;
    var b :| 0 <= b < |log| && Acquires(log[b]) && log[b].writer.op.who == other && Token(log, b) == token;
    if a < b { CountersRise(log, a, b); }
    if b < a { CountersRise(log, b, a); }
  }

  lemma {:induction false} AcquiredByExtends(log: seq<Entry>, entry: Entry, who: Identity, token: nat)
    requires AcquiredBy(log, who, token)
    ensures AcquiredBy(log + [entry], who, token)
  {
    var a :| 0 <= a < |log| && Acquires(log[a]) && log[a].writer.op.who == who && Token(log, a) == token;
    assert (log + [entry])[a] == log[a];
  }

  ghost predicate OwnsClaim(log: seq<Entry>, op: Operation) {
    op.Renew? || op.Release? ==> AcquiredBy(log, op.who, op.claim.token)
  }

  /** The write that last established this guard's local claim. */
  predicate SuccessIn(log: seq<Entry>, guard: Guard, claim: Claim) {
    && 1 <= guard.successVersion <= |log|
    && var entry := log[guard.successVersion - 1];
    && entry.writer.By? && (entry.writer.op.Acquire? || entry.writer.op.Renew?)
    && entry.writer.op.who == guard.who
    && guard.lastSuccess == Some(entry.writer.op.time)
    && HoldsClaim(entry.lease, claim) == Some(true)
    && StoredSeconds(entry.lease) == Some(guard.who.seconds)
  }

  ghost predicate GuardOwns(log: seq<Entry>, guard: Guard) {
    guard.claim.Some? ==>
      AcquiredBy(log, guard.who, guard.claim.value.token) && SuccessIn(log, guard, guard.claim.value)
  }

  ghost predicate Ownership(s: State) {
    && (forall id | id in s.guards :: GuardOwns(s.log, s.guards[id]))
    && (forall id | id in s.calls :: OwnsClaim(s.log, s.calls[id].op))
    && (forall r | 0 <= r < |s.requests| :: OwnsClaim(s.log, s.requests[r].op))
    && (forall i | 0 <= i < |s.log| && s.log[i].writer.By? :: OwnsClaim(s.log, s.log[i].writer.op))
  }

  /** Every renewal and release in a history was sent by the owner of its epoch. */
  ghost predicate OwnedLog(log: seq<Entry>) {
    forall i | 0 <= i < |log| && log[i].writer.By? :: OwnsClaim(log, log[i].writer.op)
  }

  lemma {:induction false} InitOwned(s: State)
    requires Init(s)
    ensures Ownership(s)
  {
  }

  lemma {:induction false} GuardStateStoresSeconds(log: seq<Entry>, i: nat)
    requires Linear(log) && i < |log| && log[i].writer.By?
    requires log[i].writer.op.Acquire? || log[i].writer.op.Renew?
    ensures StoredSeconds(log[i].lease) == Some(log[i].writer.op.who.seconds)
  {
    assert EntryOk(log, i);
  }

  lemma {:induction false} LandOwned(s: State, r: nat)
    requires Inv(s) && Ownership(s)
    ensures Ownership(DoLand(s, r))
  {
    var s' := DoLand(s, r);
    if s'.log != s.log {
      var entry := s'.log[|s.log|];
      assert s'.log == s.log + [entry];
      forall who, token | AcquiredBy(s.log, who, token) ensures AcquiredBy(s'.log, who, token) {
        AcquiredByExtends(s.log, entry, who, token);
      }
    }
  }

  lemma {:induction false} SuccessOwns(log: seq<Entry>, guard: Guard, claim: Claim, version: nat, op: Operation)
    requires 1 <= version <= |log| && (op.Acquire? || op.Renew?) && op.who == guard.who
    requires log[version - 1].writer.By? && log[version - 1].writer.op == op
    requires GuardOwns(log, guard) && AcquiredBy(log, guard.who, claim.token)
    requires StoredSeconds(log[version - 1].lease) == Some(guard.who.seconds)
    ensures GuardOwns(log, RecordSuccess(guard, log[version - 1].lease, claim, op.time, version).0)
  {
  }

  lemma {:induction false} OwnedGuard(s: State, id: nat, who: Identity, time: nat, r: nat, version: nat)
    requires Inv(s) && Ownership(s) && id in s.calls && r < |s.requests|
    requires s.requests[r].status == Accepted(version) && s.requests[r].op == s.calls[id].op
    requires s.calls[id].op.Acquire? || s.calls[id].op.Renew?
    requires s.calls[id].op.who == who && s.calls[id].op.time == time
    ensures var claim := s.requests[r].claim;
            && who.id in s.guards && s.guards[who.id].who == who && claim.Some? && 1 <= version <= |s.log|
            && GuardOwns(s.log, RecordSuccess(s.guards[who.id], s.log[version - 1].lease, claim.value, time, version).0)
  {
    assert CallOk(s, s.calls[id]);
    assert RequestOk(s.log, s.requests[r]);
    GuardStateStoresSeconds(s.log, version - 1);
    var claim := s.requests[r].claim.value;
    if s.calls[id].op.Acquire? {
      assert Acquires(s.log[version - 1]) && Token(s.log, version - 1) == claim.token;
    }
    SuccessOwns(s.log, s.guards[who.id], claim, version, s.calls[id].op);
  }

  lemma {:induction false} WithGuardOwned(s: State, id: nat, guard: Guard)
    requires Ownership(s) && GuardOwns(s.log, guard)
    ensures Ownership(WithGuard(s, id, guard))
  {
  }

  lemma {:induction false} FinishOwned(s: State, id: nat, outcome: Outcome)
    requires Ownership(s) && id in s.calls
    ensures Ownership(Finish(s, id, outcome))
  {
  }

  lemma {:induction false} ExecuteOwned(s: State, id: nat, plan: Plan)
    requires Ownership(s) && id in s.calls && s.calls[id].pc.Deciding?
    ensures Ownership(Execute(s, id, plan))
  {
    if plan.Send? {
      var s' := Execute(s, id, plan);
      forall r | 0 <= r < |s'.requests| ensures OwnsClaim(s'.log, s'.requests[r].op) {
        assert r < |s.requests| ==> s'.requests[r] == s.requests[r];
      }
    }
  }

  lemma {:induction false} ReplyOwned(s: State, id: nat)
    requires Inv(s) && Ownership(s)
    ensures Ownership(DoReply(s, id))
  {
    if id in s.calls && s.calls[id].pc.Waiting? {
      assert CallOk(s, s.calls[id]);
      var Call(op, _, Waiting(r)) := s.calls[id];
      assert RequestOk(s.log, s.requests[r]);
      match s.requests[r].status
      case Pending =>
      case Refused => FinishOwned(s, id, ConflictLimit);
      case Accepted(version) => AcceptedOwned(s, id, r, version);
    }
  }

  lemma {:induction false} AcceptedOwned(s: State, id: nat, r: nat, version: nat)
    requires Inv(s) && Ownership(s) && id in s.calls && r < |s.requests|
    requires s.requests[r].status == Accepted(version) && s.requests[r].op == s.calls[id].op
    requires 1 <= version <= |s.log|
    ensures Ownership(DoAccepted(s, id, s.requests[r].claim, version))
  {
    assert RequestOk(s.log, s.requests[r]);
    assert CallOk(s, s.calls[id]);
    match s.calls[id].op
    case Advance(_, _, _) => FinishOwned(s, id, Saw(ReadAnchor(s.log[version - 1].lease)));
    case FencingRead(_) => FinishOwned(s, id, Saw(ReadAnchor(s.log[version - 1].lease)));
    case Release(who, _) =>
      assert GuardOwns(s.log, s.guards[who.id]);
      WithGuardOwned(s, who.id, s.guards[who.id].(active := false));
      FinishOwned(WithGuard(s, who.id, s.guards[who.id].(active := false)), id, Released);
    case Acquire(who, time) => DoOwnedOwned(s, id, who, time, r, version);
    case Renew(who, _, time) => DoOwnedOwned(s, id, who, time, r, version);
  }

  lemma {:induction false} DoOwnedOwned(s: State, id: nat, who: Identity, time: nat, r: nat, version: nat)
    requires Inv(s) && Ownership(s) && id in s.calls && r < |s.requests|
    requires s.requests[r].status == Accepted(version) && s.requests[r].op == s.calls[id].op
    requires s.calls[id].op.Acquire? || s.calls[id].op.Renew?
    requires s.calls[id].op.who == who && s.calls[id].op.time == time
    requires who.id in s.guards && s.requests[r].claim.Some? && 1 <= version <= |s.log|
    ensures Ownership(DoOwned(s, id, who, time, s.requests[r].claim.value, version))
  {
    OwnedGuard(s, id, who, time, r, version);
    var claim := s.requests[r].claim.value;
    var (guard, ok) := RecordSuccess(s.guards[who.id], s.log[version - 1].lease, claim, time, version);
    WithGuardOwned(s, who.id, guard);
    FinishOwned(WithGuard(s, who.id, guard), id, if ok then Owned(claim) else Failed);
  }

  lemma {:induction false} PlansOwned(s: State, op: Operation, version: nat)
    requires Inv(s) && Ownership(s) && version <= |s.log| && IsGuardWrite(op) && OperationOk(s.guards, op)
    ensures var guard, snapshot := s.guards[op.who.id], Revision(s.log, version);
            GuardOwns(s.log, match op
                             case Acquire(who, time) => PlanAcquire(guard, who, time, version, snapshot).0
                             case Renew(who, claim, _) => PlanRenew(guard, who, claim, snapshot).0
                             case Release(who, claim) => PlanRelease(guard, who, claim, snapshot).0)
  {
    var guard := s.guards[op.who.id];
    assert GuardOk(s.log, op.who.id, guard) && GuardOwns(s.log, guard);
    match op
    case Acquire(who, time) => PlanAcquireOk(s.log, guard, who, time, version);
    case Renew(who, claim, time) => PlanRenewOk(s.log, guard, who, claim, time, version);
    case Release(who, claim) => PlanReleaseOk(s.log, guard, who, claim, version);
  }

  lemma {:induction false} DecideOwned(s: State, id: nat)
    requires Inv(s) && Ownership(s)
    ensures Ownership(DoDecide(s, id))
  {
    if id in s.calls && s.calls[id].pc.Deciding? {
      assert CallOk(s, s.calls[id]);
      var Call(op, _, Deciding(version, snapshot)) := s.calls[id];
      match op
      case Advance(fence, expected, next) => ExecuteOwned(s, id, PlanAdvance(s, fence, expected, next, snapshot));
      case FencingRead(fence) => ExecuteOwned(s, id, PlanFencingRead(s, fence, snapshot));
      case Acquire(who, time) =>
        PlansOwned(s, op, version);
        var (guard, plan) := PlanAcquire(s.guards[who.id], who, time, version, snapshot);
        WithGuardOwned(s, who.id, guard);
        ExecuteOwned(WithGuard(s, who.id, guard), id, plan);
      case Renew(who, claim, time) =>
        PlansOwned(s, op, version);
        var (guard, plan) := PlanRenew(s.guards[who.id], who, claim, snapshot);
        WithGuardOwned(s, who.id, guard);
        ExecuteOwned(WithGuard(s, who.id, guard), id, plan);
      case Release(who, claim) =>
        PlansOwned(s, op, version);
        var (guard, plan) := PlanRelease(s.guards[who.id], who, claim, snapshot);
        WithGuardOwned(s, who.id, guard);
        ExecuteOwned(WithGuard(s, who.id, guard), id, plan);
    }
  }

  lemma {:induction false} NextOwned(s: State, action: Action)
    requires Inv(s) && Ownership(s)
    ensures Ownership(Next(s, action))
  {
    match action
    case Decide(id) => DecideOwned(s, id);
    case Land(r) => LandOwned(s, r);
    case Reply(id) => ReplyOwned(s, id);
    case Start(_, op) =>
      if (op.Renew? || op.Release?) && MayStart(s, op) {
        assert GuardOwns(s.log, s.guards[op.who.id]);
      }
    case _ =>
  }
}
