/** Releases and their replies: a discipline on calls under which a guard whose release landed knows it.

    The discipline speaks about calls and messages only. Every release that landed is answered before
    the next request lands, no release is abandoned while its request is under way, and a release is
    acknowledged only when no other owning call of its guard still awaits an accepted reply. */
module LeaseSettling {
  import opened Prelude
  import opened Leases
  import opened LeaseProtocol
  import opened LeaseHistory
  import opened LeaseSafety

  // ---------------------------------------------------------------- the discipline

  predicate HasTime(op: Operation) {
    op.Acquire? || op.Renew?
  }

  /** A call whose request was accepted and whose reply is still to come. */
  predicate Awaits(s: State, id: nat) {
    && id in s.calls && s.calls[id].pc.Waiting? && s.calls[id].pc.request < |s.requests|
    && s.requests[s.calls[id].pc.request].status.Accepted?
  }

  predicate AwaitsRelease(s: State, id: nat) {
    Awaits(s, id) && s.calls[id].op.Release?
  }

  /** Replies to releases are delivered before anything else lands, and are not given up. */
  predicate AnsweredStep(s: State, action: Action) {
    match action
    case Land(_) => forall id | id in s.calls :: !AwaitsRelease(s, id)
    case GiveUp(id) => id in s.calls && s.calls[id].op.Release? ==> !s.calls[id].pc.Waiting?
    case _ => true
  }

  /** A release is acknowledged only when no acquisition or renewal of the guard awaits its reply. */
  predicate QuietStep(s: State, action: Action) {
    action.Reply? && AwaitsRelease(s, action.call) ==>
      forall id | id in s.calls && HasTime(s.calls[id].op) && s.calls[id].op.who == s.calls[action.call].op.who ::
        !Awaits(s, id)
  }

  predicate AnsweredRun(s0: State, actions: seq<Action>) {
    actions == [] ||
    var front := actions[..|actions| - 1];
    AnsweredRun(s0, front) && AnsweredStep(Run(s0, front), actions[|actions| - 1])
  }

  predicate QuietRun(s0: State, actions: seq<Action>) {
    actions == [] ||
    var front := actions[..|actions| - 1];
    QuietRun(s0, front) && QuietStep(Run(s0, front), actions[|actions| - 1])
  }

  // ---------------------------------------------------------------- what it establishes

  predicate ReleaseEntry(entry: Entry, guard: Guard) {
    && entry.writer.By? && entry.writer.op.Release?
    && entry.writer.op.who == guard.who && guard.claim == Some(entry.writer.op.claim)
  }

  /** A guard whose release is no longer the newest write knows that it released. */
  predicate ReleasesSettled(s: State) {
    forall v, g | 0 <= v < |s.log| - 1 && g in s.guards ::
      ReleaseEntry(s.log[v], s.guards[g]) ==> !s.guards[g].active
  }

  predicate Releases(entry: Entry) {
    entry.writer.By? && entry.writer.op.Release?
  }

  /** A call awaits the reply to the write of revision `v + 1`. */
  predicate AwaitsEntry(s: State, id: nat, v: nat) {
    && Awaits(s, id) && s.requests[s.calls[id].pc.request].status == Accepted(v + 1)
    && s.calls[id].op.Release?
  }

  ghost predicate Awaited(s: State, v: nat) {
    exists id :: AwaitsEntry(s, id, v)
  }

  /** A reply that would make the guard of a release active again under the released claim. */
  predicate Stale(s: State, id: nat, op: Operation)
    requires op.Release?
  {
    && Awaits(s, id) && HasTime(s.calls[id].op) && s.calls[id].op.who == op.who
    && s.requests[s.calls[id].pc.request].claim == Some(op.claim)
  }

  ghost predicate Quiet(s: State, op: Operation)
    requires op.Release?
  {
    && (op.who.id in s.guards && s.guards[op.who.id].who == op.who && s.guards[op.who.id].claim == Some(op.claim) ==>
          !s.guards[op.who.id].active)
    && forall id :: !Stale(s, id, op)
  }

  /** A landed release is the newest write and unanswered, or it has settled. */
  ghost predicate SettledAt(s: State, v: nat)
    requires v < |s.log|
  {
    Releases(s.log[v]) ==> if Awaited(s, v) then v == |s.log| - 1 else Quiet(s, s.log[v].writer.op)
  }

  predicate HeldBy(s: State, id: nat, r: nat)
    requires r < |s.requests|
  {
    id in s.calls && s.calls[id].pc == Waiting(r) && s.calls[id].op == s.requests[r].op
  }

  /** Every release under way has its caller waiting. */
  ghost predicate Pursued(s: State, r: nat)
    requires r < |s.requests|
  {
    s.requests[r].op.Release? && s.requests[r].status.Pending? ==> exists id :: HeldBy(s, id, r)
  }

  ghost predicate Settling(s: State) {
    && (forall r | 0 <= r < |s.requests| :: Pursued(s, r))
    && (forall v | 0 <= v < |s.log| :: SettledAt(s, v))
  }

  // ---------------------------------------------------------------- a released claim is gone

  predicate ClaimGone(log: seq<Entry>, j: nat, claim: Claim)
    requires j < |log|
  {
    Token(log, j) > claim.token || (Token(log, j) == claim.token && Holder(log[j].lease).None?)
  }

  lemma {:induction false} ReleaseEndsClaim(log: seq<Entry>, v: nat)
    requires Linear(log) && v < |log| && Releases(log[v])
    ensures ClaimGone(log, v, log[v].writer.op.claim)
  {
    assert EntryOk(log, v);
    var op, before := log[v].writer.op, log[v - 1].lease;
    HeldTokens(log, v - 1, op.claim);
    StepCounters(log, v);
  }

  /** After a release no later revision carries the released claim. */
  lemma {:induction false} ReleasedStaysGone(log: seq<Entry>, v: nat, j: nat)
    requires Linear(log) && v <= j < |log| && Releases(log[v])
    ensures ClaimGone(log, j, log[v].writer.op.claim)
    decreases j
  {
    if v == j {
      ReleaseEndsClaim(log, v);
    } else {
      ReleasedStaysGone(log, v, j - 1);
      StepCounters(log, j);
      GoneStep(log, j, log[v].writer.op.claim);
    }
  }

  lemma {:induction false} GoneStep(log: seq<Entry>, j: nat, claim: Claim)
    requires Linear(log) && 0 < j < |log| && ClaimGone(log, j - 1, claim)
    requires Token(log, j) == Token(log, j - 1) + (if Acquires(log[j]) then 1 else 0)
    requires !GuardWrote(log[j]) ==> SameCoordination(log[j - 1].lease, log[j].lease)
    ensures ClaimGone(log, j, claim)
  {
    assert EntryOk(log, j);
  }

  lemma {:induction false} GoneIsNotHeld(log: seq<Entry>, j: nat, claim: Claim)
    requires j < |log| && ClaimGone(log, j, claim)
    ensures HoldsClaim(log[j].lease, claim) != Some(true)
  {
    if HoldsClaim(log[j].lease, claim) == Some(true) { HeldTokens(log, j, claim); }
  }

  // ---------------------------------------------------------------- steps that settle nothing

  /** No reply is handled, nothing lands and no guard becomes active. */
  ghost predicate Calm(s: State, s': State) {
    && s'.log == s.log
    && (forall id | AwaitsRelease(s, id) :: CarriedOver(s, s', id))
    && (forall id | Awaits(s', id) :: CarriedOver(s, s', id))
    && (forall g | g in s'.guards && s'.guards[g].active ::
          g in s.guards && Calmer(s.guards[g], s'.guards[g]))
  }

  ghost predicate CarriedOver(s: State, s': State, id: nat) {
    && Awaits(s, id) && Awaits(s', id) && s'.calls[id] == s.calls[id]
    && s'.requests[s.calls[id].pc.request] == s.requests[s.calls[id].pc.request]
  }

  lemma {:induction false} CalmKeepsAwaited(s: State, s': State, v: nat)
    requires Calm(s, s')
    ensures Awaited(s, v) <==> Awaited(s', v)
  {
    if id :| AwaitsEntry(s, id, v) { assert CarriedOver(s, s', id); assert AwaitsEntry(s', id, v); }
    if id :| AwaitsEntry(s', id, v) { assert CarriedOver(s, s', id); assert AwaitsEntry(s, id, v); }
  }

  lemma {:induction false} CalmKeepsSettled(s: State, s': State)
    requires Settling(s) && Calm(s, s') && forall r | 0 <= r < |s'.requests| :: Pursued(s', r)
    ensures Settling(s')
  {
    forall v | 0 <= v < |s'.log| ensures SettledAt(s', v) {
      assert SettledAt(s, v);
      CalmKeepsAwaited(s, s', v);
      if Releases(s.log[v]) && !Awaited(s, v) {
        var op := s.log[v].writer.op;
        forall id ensures !Stale(s', id, op) {
          assert !Stale(s, id, op);
          if Awaits(s', id) { assert CarriedOver(s, s', id); }
        }
      }
    }
  }

  /** A request stays pursued when its caller is left alone. */
  lemma {:induction false} StillPursued(s: State, s': State, r: nat)
    requires r < |s.requests| && r < |s'.requests| && Pursued(s, r)
    requires s'.requests[r].op == s.requests[r].op
    requires s'.requests[r].status.Pending? ==> s.requests[r].status.Pending?
    requires s'.requests[r].op.Release? && s'.requests[r].status.Pending? ==>
             forall id | HeldBy(s, id, r) :: id in s'.calls && s'.calls[id] == s.calls[id]
    ensures Pursued(s', r)
  {
    if s'.requests[r].op.Release? && s'.requests[r].status.Pending? {
      var id :| HeldBy(s, id, r);
      assert HeldBy(s', id, r);
    }
  }

  /** A call that is not waiting may move to any point, and nothing settles by it. */
  lemma {:induction false} MovedIsSettling(s: State, id: nat, call: Call)
    requires Settling(s) && (id in s.calls ==> !s.calls[id].pc.Waiting?) && !call.pc.Waiting?
    ensures Settling(s.(calls := s.calls[id := call]))
  {
    var s' := s.(calls := s.calls[id := call]);
    forall i | AwaitsRelease(s, i) ensures CarriedOver(s, s', i) {}
    forall i | Awaits(s', i) ensures CarriedOver(s, s', i) {}
    forall r | 0 <= r < |s'.requests| ensures Pursued(s', r) { StillPursued(s, s', r); }
    CalmKeepsSettled(s, s');
  }

  /** A call that awaits no accepted reply may end. */
  lemma {:induction false} FinishIsSettling(s: State, id: nat, outcome: Outcome)
    requires Settling(s) && id in s.calls && !AwaitsRelease(s, id)
    requires s.calls[id].op.Release? ==> !Pursuing(s, id)
    ensures Settling(Finish(s, id, outcome))
  {
    EndsIsSettling(s, id, s.calls[id].(pc := Done(outcome)));
  }

  /** The call waits for a request that is still under way. */
  predicate Pursuing(s: State, id: nat) {
    id in s.calls && s.calls[id].pc.Waiting? && s.calls[id].pc.request < |s.requests|
    && s.requests[s.calls[id].pc.request].status.Pending?
  }

  lemma {:induction false} EndsIsSettling(s: State, id: nat, call: Call)
    requires Settling(s) && id in s.calls && !AwaitsRelease(s, id) && !call.pc.Waiting?
    requires s.calls[id].op.Release? ==> !Pursuing(s, id)
    ensures Settling(s.(calls := s.calls[id := call]))
  {
    var s' := s.(calls := s.calls[id := call]);
    forall i | AwaitsRelease(s, i) ensures CarriedOver(s, s', i) {}
    forall i | Awaits(s', i) ensures CarriedOver(s, s', i) {}
    forall r | 0 <= r < |s'.requests| ensures Pursued(s', r) {
      forall i | s.requests[r].op.Release? && s.requests[r].status.Pending? && HeldBy(s, i, r)
        ensures i in s'.calls && s'.calls[i] == s.calls[i] {}
      StillPursued(s, s', r);
    }
    CalmKeepsSettled(s, s');
  }

  /** A guard may lose its claim's liveness, not gain it. */
  predicate Calmer(before: Guard, after: Guard) {
    after.active ==> before.active && after.claim == before.claim && after.who == before.who
  }

  lemma {:induction false} CalmerIsSettling(s: State, g: nat, guard: Guard)
    requires Settling(s) && g in s.guards && Calmer(s.guards[g], guard)
    ensures Settling(WithGuard(s, g, guard))
  {
    var s' := WithGuard(s, g, guard);
    forall i | AwaitsRelease(s, i) ensures CarriedOver(s, s', i) {}
    forall i | Awaits(s', i) ensures CarriedOver(s, s', i) {}
    forall r | 0 <= r < |s'.requests| ensures Pursued(s', r) { StillPursued(s, s', r); }
    CalmKeepsSettled(s, s');
  }

  lemma {:induction false} SendIsSettling(s: State, id: nat, plan: Plan)
    requires Settling(s) && id in s.calls && s.calls[id].pc.Deciding?
    ensures Settling(Execute(s, id, plan))
  {
    var s' := Execute(s, id, plan);
    match plan
    case Stop(outcome) => MovedIsSettling(s, id, s.calls[id].(pc := Done(outcome)));
    case Send(_, _, _) =>
      forall i | AwaitsRelease(s, i) ensures CarriedOver(s, s', i) {}
      forall i | Awaits(s', i) ensures CarriedOver(s, s', i) {}
      forall r | 0 <= r < |s'.requests| ensures Pursued(s', r) {
        if r < |s.requests| {
          StillPursued(s, s', r);
        } else {
          assert HeldBy(s', id, r);
        }
      }
      CalmKeepsSettled(s, s');
  }

  lemma {:induction false} PlansAreCalm(guard: Guard, who: Identity, claim: Claim, time: nat, version: nat, snapshot: Option<Lease>)
    ensures Calmer(guard, PlanAcquire(guard, who, time, version, snapshot).0)
    ensures Calmer(guard, PlanRenew(guard, who, claim, snapshot).0)
    ensures Calmer(guard, PlanRelease(guard, who, claim, snapshot).0)
  {
  }

  lemma {:induction false} DecideIsSettling(s: State, id: nat)
    requires Settling(s)
    ensures Settling(DoDecide(s, id))
  {
    if id in s.calls && s.calls[id].pc.Deciding? {
      var Call(op, _, Deciding(version, snapshot)) := s.calls[id];
      match op
      case Advance(fence, expected, next) => SendIsSettling(s, id, PlanAdvance(s, fence, expected, next, snapshot));
      case FencingRead(fence) => SendIsSettling(s, id, PlanFencingRead(s, fence, snapshot));
      case Acquire(who, time) =>
        if who.id in s.guards {
          PlansAreCalm(s.guards[who.id], who, Claim("", 0), time, version, snapshot);
          var (guard, plan) := PlanAcquire(s.guards[who.id], who, time, version, snapshot);
          CalmerIsSettling(s, who.id, guard);
          SendIsSettling(WithGuard(s, who.id, guard), id, plan);
        }
      case Renew(who, claim, time) =>
        if who.id in s.guards {
          PlansAreCalm(s.guards[who.id], who, claim, time, version, snapshot);
          var (guard, plan) := PlanRenew(s.guards[who.id], who, claim, snapshot);
          CalmerIsSettling(s, who.id, guard);
          SendIsSettling(WithGuard(s, who.id, guard), id, plan);
        }
      case Release(who, claim) =>
        if who.id in s.guards {
          PlansAreCalm(s.guards[who.id], who, claim, 0, version, snapshot);
          var (guard, plan) := PlanRelease(s.guards[who.id], who, claim, snapshot);
          CalmerIsSettling(s, who.id, guard);
          SendIsSettling(WithGuard(s, who.id, guard), id, plan);
        }
    }
  }

  // ---------------------------------------------------------------- landing

  /** A refused request changes nothing that matters here. */
  lemma {:induction false} RefusalIsSettling(s: State, r: nat)
    requires Settling(s) && r < |s.requests| && s.requests[r].status.Pending?
    ensures Settling(s.(requests := s.requests[r := s.requests[r].(status := Refused)]))
  {
    var s' := s.(requests := s.requests[r := s.requests[r].(status := Refused)]);
    forall i | AwaitsRelease(s, i) ensures CarriedOver(s, s', i) {}
    forall i | Awaits(s', i) ensures CarriedOver(s, s', i) {}
    forall q | 0 <= q < |s'.requests| ensures Pursued(s', q) { StillPursued(s, s', q); }
    CalmKeepsSettled(s, s');
  }

  /** The state after request `r` became the next revision. */
  function Landed(s: State, r: nat): State
    requires r < |s.requests|
  {
    s.(log := s.log + [Entry(s.requests[r].lease, By(s.requests[r].op, s.requests[r].evidence), s.now)],
       requests := s.requests[r := s.requests[r].(status := Accepted(|s.log| + 1))])
  }

  /** A request that lands behind a release does not carry the released claim. */
  lemma {:induction false} LandedIsNotStale(s: State, r: nat, v: nat)
    requires r < |s.requests| && Linear(Landed(s, r).log) && ClaimMatches(s.requests[r])
    requires v < |s.log| && Releases(s.log[v]) && HasTime(s.requests[r].op)
    ensures s.requests[r].claim != Some(s.log[v].writer.op.claim)
  {
    var log, claim := Landed(s, r).log, s.log[v].writer.op.claim;
    assert log[v] == s.log[v];
    ReleasedStaysGone(log, v, |s.log|);
    GoneIsNotHeld(log, |s.log|, claim);
  }

  lemma {:induction false} OlderStaySettled(s: State, r: nat, v: nat)
    requires Inv(s) && Settling(s) && r < |s.requests| && s.requests[r].status.Pending? && Linear(Landed(s, r).log)
    requires v < |s.log| && forall id | id in s.calls :: !AwaitsRelease(s, id)
    ensures SettledAt(Landed(s, r), v)
  {
    var s' := Landed(s, r);
    assert SettledAt(s, v) && s'.log[v] == s.log[v];
    if Releases(s.log[v]) {
      var op := s.log[v].writer.op;
      forall id ensures !AwaitsEntry(s, id, v) && !AwaitsEntry(s', id, v) {
        assert id in s.calls ==> !AwaitsRelease(s, id);
      }
      assert RequestOk(s.log, s.requests[r]);
      if HasTime(s.requests[r].op) { LandedIsNotStale(s, r, v); }
      forall id ensures !Stale(s', id, op) {
        assert !Stale(s, id, op);
        if id in s.calls { assert CallOk(s, s.calls[id]); }
      }
    }
  }

  lemma {:induction false} NewestIsAwaited(s: State, r: nat)
    requires Settling(s) && r < |s.requests| && s.requests[r].status.Pending?
    ensures SettledAt(Landed(s, r), |s.log|)
  {
    var s' := Landed(s, r);
    if Releases(s'.log[|s.log|]) {
      assert Pursued(s, r);
      var id :| HeldBy(s, id, r);
      assert AwaitsEntry(s', id, |s.log|);
    }
  }

  lemma {:induction false} LandedIsSettling(s: State, r: nat)
    requires Inv(s) && Settling(s) && AnsweredStep(s, Land(r)) && r < |s.requests| && s.requests[r].status.Pending?
    requires Linear(Landed(s, r).log)
    ensures Settling(Landed(s, r))
  {
    var s' := Landed(s, r);
    forall q | 0 <= q < |s'.requests| ensures Pursued(s', q) { StillPursued(s, s', q); }
    forall v | 0 <= v < |s'.log| ensures SettledAt(s', v) {
      if v < |s.log| { OlderStaySettled(s, r, v); } else { NewestIsAwaited(s, r); }
    }
  }

  lemma {:induction false} LandIsSettling(s: State, r: nat)
    requires Inv(s) && Settling(s) && AnsweredStep(s, Land(r))
    ensures Settling(DoLand(s, r))
  {
    if r < |s.requests| && s.requests[r].status.Pending? {
      if s.requests[r].basis == |s.log| {
        NextInv(s, Land(r));
        LandedIsSettling(s, r);
      } else {
        RefusalIsSettling(s, r);
      }
    }
  }

  // ---------------------------------------------------------------- replies

  lemma {:induction false} SameAwaited(s: State, s': State, v: nat)
    requires forall i :: AwaitsEntry(s', i, v) <==> AwaitsEntry(s, i, v)
    ensures Awaited(s', v) <==> Awaited(s, v)
  {
    if i :| AwaitsEntry(s, i, v) { assert AwaitsEntry(s', i, v); }
    if i :| AwaitsEntry(s', i, v) { assert AwaitsEntry(s, i, v); }
  }

  lemma {:induction false} SettledElsewhere(s: State, s': State, v: nat)
    requires v < |s.log| && s'.log == s.log && SettledAt(s, v) && (Awaited(s', v) <==> Awaited(s, v))
    requires Releases(s.log[v]) ==>
             forall i :: Stale(s', i, s.log[v].writer.op) ==> Stale(s, i, s.log[v].writer.op)
    requires forall g | g in s'.guards ::
               g in s.guards && s'.guards[g].who == s.guards[g].who && Calmer(s.guards[g], s'.guards[g])
    ensures SettledAt(s', v)
  {
  }

  /** The reply to a release settles it. */
  lemma {:induction false} AcknowledgedAt(s: State, s': State, id: nat, v: nat)
    requires Inv(s) && Settling(s) && AwaitsRelease(s, id) && QuietStep(s, Reply(id)) && v < |s.log|
    requires s.calls[id].op.who.id in s.guards
    requires var who := s.calls[id].op.who;
             s' == Finish(WithGuard(s, who.id, s.guards[who.id].(active := false)), id, Released)
    ensures SettledAt(s', v)
  {
    assert SettledAt(s, v);
    if Releases(s.log[v]) {
      var op := s.log[v].writer.op;
      forall i ensures Stale(s', i, op) ==> Stale(s, i, op) {}
      if AwaitsEntry(s, id, v) {
        AwaitedOperation(s, id, v);
        forall i ensures !Stale(s', i, op) {
          if i in s.calls && HasTime(s.calls[i].op) && s.calls[i].op.who == op.who { assert !Awaits(s, i); }
        }
      } else {
        forall i ensures AwaitsEntry(s', i, v) <==> AwaitsEntry(s, i, v) {}
        SameAwaited(s, s', v);
        SettledElsewhere(s, s', v);
      }
    }
  }

  /** The call that awaits a revision is the one that wrote it. */
  lemma {:induction false} AwaitedOperation(s: State, id: nat, v: nat)
    requires Inv(s) && AwaitsEntry(s, id, v) && v < |s.log|
    ensures s.log[v].writer.By? && s.log[v].writer.op == s.calls[id].op
  {
    assert CallOk(s, s.calls[id]);
    assert RequestOk(s.log, s.requests[s.calls[id].pc.request]);
  }

  lemma {:induction false} AcknowledgeIsSettling(s: State, id: nat)
    requires Inv(s) && Settling(s) && AwaitsRelease(s, id) && QuietStep(s, Reply(id))
    requires s.calls[id].op.who.id in s.guards
    ensures var who := s.calls[id].op.who;
            Settling(Finish(WithGuard(s, who.id, s.guards[who.id].(active := false)), id, Released))
  {
    var who := s.calls[id].op.who;
    var s' := Finish(WithGuard(s, who.id, s.guards[who.id].(active := false)), id, Released);
    forall v | 0 <= v < |s'.log| ensures SettledAt(s', v) { AcknowledgedAt(s, s', id, v); }
    forall r | 0 <= r < |s'.requests| ensures Pursued(s', r) {
      forall i | s.requests[r].status.Pending? && HeldBy(s, i, r) ensures i in s'.calls && s'.calls[i] == s.calls[i] {}
      StillPursued(s, s', r);
    }
  }

  /** What a success leaves: the guard calmer than before, or owning the claim of the request. */
  predicate Revived(s: State, id: nat, guard: Guard)
    requires Awaits(s, id) && HasTime(s.calls[id].op) && s.calls[id].op.who.id in s.guards
  {
    var before := s.guards[s.calls[id].op.who.id];
    && guard.who == before.who == s.calls[id].op.who
    && (Calmer(before, guard) || guard.claim == s.requests[s.calls[id].pc.request].claim)
  }

  lemma {:induction false} RevivesOther(s: State, op: Operation, id: nat, guard: Guard)
    requires op.Release? && Quiet(s, op) && Awaits(s, id) && HasTime(s.calls[id].op)
    requires s.calls[id].op.who.id in s.guards && Revived(s, id, guard)
    ensures op.who == guard.who && guard.claim == Some(op.claim) ==> !guard.active
  {
    assert !Stale(s, id, op);
  }

  /** A success revives only claims whose release, if any, is still unanswered. */
  lemma {:induction false} RevivedAt(s: State, s': State, id: nat, guard: Guard, outcome: Outcome, v: nat)
    requires Settling(s) && Awaits(s, id) && HasTime(s.calls[id].op) && v < |s.log|
    requires s.calls[id].op.who.id in s.guards && Revived(s, id, guard)
    requires s' == Finish(WithGuard(s, s.calls[id].op.who.id, guard), id, outcome)
    ensures SettledAt(s', v)
  {
    assert SettledAt(s, v);
    if Releases(s.log[v]) {
      var op := s.log[v].writer.op;
      forall i ensures AwaitsEntry(s', i, v) <==> AwaitsEntry(s, i, v) {}
      SameAwaited(s, s', v);
      if !Awaited(s, v) {
        forall i ensures !Stale(s', i, op) { assert !Stale(s, i, op); }
        RevivesOther(s, op, id, guard);
      }
    }
  }

  lemma {:induction false} OwnedIsSettling(s: State, id: nat, guard: Guard, outcome: Outcome)
    requires Settling(s) && Awaits(s, id) && HasTime(s.calls[id].op)
    requires s.calls[id].op.who.id in s.guards && Revived(s, id, guard)
    ensures Settling(Finish(WithGuard(s, s.calls[id].op.who.id, guard), id, outcome))
  {
    var s' := Finish(WithGuard(s, s.calls[id].op.who.id, guard), id, outcome);
    forall v | 0 <= v < |s'.log| ensures SettledAt(s', v) { RevivedAt(s, s', id, guard, outcome, v); }
    forall r | 0 <= r < |s'.requests| ensures Pursued(s', r) {
      forall i | s.requests[r].op.Release? && HeldBy(s, i, r) ensures i in s'.calls && s'.calls[i] == s.calls[i] {}
      StillPursued(s, s', r);
    }
  }

  lemma {:induction false} SuccessRevives(s: State, id: nat, lease: Lease, claim: Claim, version: nat)
    requires Awaits(s, id) && HasTime(s.calls[id].op) && s.calls[id].op.who.id in s.guards
    requires s.guards[s.calls[id].op.who.id].who == s.calls[id].op.who
    requires s.requests[s.calls[id].pc.request].claim == Some(claim)
    ensures Revived(s, id, RecordSuccess(s.guards[s.calls[id].op.who.id], lease, claim, s.calls[id].op.time, version).0)
  {
  }

  /** A call and the accepted request it awaits. */
  predicate Accepting(s: State, id: nat, claim: Option<Claim>, version: nat) {
    && Awaits(s, id) && 1 <= version <= |s.log|
    && s.requests[s.calls[id].pc.request].status == Accepted(version)
    && s.requests[s.calls[id].pc.request].claim == claim
    && (IsGuardWrite(s.calls[id].op) ==> HasGuard(s.guards, s.calls[id].op.who))
    && (HasTime(s.calls[id].op) ==> claim.Some?)
  }

  lemma {:induction false} AwaitsMeansAccepting(s: State, id: nat) returns (claim: Option<Claim>, version: nat)
    requires Inv(s) && Awaits(s, id)
    ensures Accepting(s, id, claim, version)
  {
    var request := s.requests[s.calls[id].pc.request];
    claim, version := request.claim, request.status.version;
    assert CallOk(s, s.calls[id]);
    assert RequestOk(s.log, request);
  }

  lemma {:induction false} AcceptedReply(s: State, id: nat, claim: Option<Claim>, version: nat)
    requires Accepting(s, id, claim, version)
    ensures DoReply(s, id) == DoAccepted(s, id, claim, version)
  {
  }

  lemma {:induction false} OwnerReplyIsSettling(s: State, id: nat, claim: Option<Claim>, version: nat)
    requires Settling(s) && Accepting(s, id, claim, version) && HasTime(s.calls[id].op)
    ensures Settling(DoAccepted(s, id, claim, version))
  {
    var op, lease := s.calls[id].op, s.log[version - 1].lease;
    SuccessRevives(s, id, lease, claim.value, version);
    var (guard, ok) := RecordSuccess(s.guards[op.who.id], lease, claim.value, op.time, version);
    OwnedIsSettling(s, id, guard, if ok then Owned(claim.value) else Failed);
  }

  lemma {:induction false} AcceptedIsSettling(s: State, id: nat)
    requires Inv(s) && Settling(s) && Awaits(s, id) && QuietStep(s, Reply(id))
    ensures Settling(DoReply(s, id))
  {
    var claim, version := AwaitsMeansAccepting(s, id);
    AcceptedReply(s, id, claim, version);
    var op := s.calls[id].op;
    if HasTime(op) {
      OwnerReplyIsSettling(s, id, claim, version);
    } else if op.Release? {
      AcknowledgeIsSettling(s, id);
    } else {
      FinishIsSettling(s, id, Saw(ReadAnchor(s.log[version - 1].lease)));
    }
  }

  lemma {:induction false} ReplyIsSettling(s: State, id: nat)
    requires Inv(s) && Settling(s) && QuietStep(s, Reply(id))
    ensures Settling(DoReply(s, id))
  {
    if Awaits(s, id) {
      AcceptedIsSettling(s, id);
    } else if id in s.calls && s.calls[id].pc.Waiting? && s.calls[id].pc.request < |s.requests| {
      var Call(op, attempts, Waiting(r)) := s.calls[id];
      if s.requests[r].status.Refused? {
        EndsIsSettling(s, id, if attempts + 1 < MAX_ATTEMPTS then Call(op, attempts + 1, Reading)
                              else s.calls[id].(pc := Done(ConflictLimit)));
      }
    }
  }

  // ---------------------------------------------------------------- runs

  lemma {:induction false} JoinIsSettling(s: State, who: Identity)
    requires Settling(s)
    ensures Settling(Next(s, Join(who)))
  {
    var s' := Next(s, Join(who));
    forall i | AwaitsRelease(s, i) ensures CarriedOver(s, s', i) {}
    forall i | Awaits(s', i) ensures CarriedOver(s, s', i) {}
    forall r | 0 <= r < |s'.requests| ensures Pursued(s', r) { StillPursued(s, s', r); }
    CalmKeepsSettled(s, s');
  }

  lemma {:induction false} TickIsSettling(s: State, delta: nat)
    requires Settling(s)
    ensures Settling(s.(now := s.now + delta))
  {
    var s' := s.(now := s.now + delta);
    forall i | AwaitsRelease(s, i) ensures CarriedOver(s, s', i) {}
    forall i | Awaits(s', i) ensures CarriedOver(s, s', i) {}
    forall r | 0 <= r < |s'.requests| ensures Pursued(s', r) { StillPursued(s, s', r); }
    CalmKeepsSettled(s, s');
  }

  lemma {:induction false} StartIsSettling(s: State, id: nat, op: Operation)
    requires Settling(s)
    ensures Settling(Next(s, Start(id, op)))
  {
    if id !in s.calls && MayStart(s, op) { MovedIsSettling(s, id, Call(op, 0, Reading)); }
  }

  lemma {:induction false} ReadIsSettling(s: State, id: nat)
    requires Settling(s)
    ensures Settling(Next(s, Read(id)))
  {
    if id in s.calls && s.calls[id].pc.Reading? {
      MovedIsSettling(s, id, s.calls[id].(pc := Deciding(|s.log|, Current(s))));
    }
  }

  lemma {:induction false} GiveUpIsSettling(s: State, id: nat)
    requires Settling(s) && AnsweredStep(s, GiveUp(id))
    ensures Settling(Next(s, GiveUp(id)))
  {
    if id in s.calls && !s.calls[id].pc.Done? { FinishIsSettling(s, id, Failed); }
  }

  lemma {:induction false} NextIsSettling(s: State, action: Action)
    requires Inv(s) && Settling(s) && AnsweredStep(s, action) && QuietStep(s, action)
    ensures Settling(Next(s, action))
  {
    match action
    case Tick(delta) => TickIsSettling(s, delta);
    case Join(who) => JoinIsSettling(s, who);
    case Start(id, op) => StartIsSettling(s, id, op);
    case Read(id) => ReadIsSettling(s, id);
    case Decide(id) => DecideIsSettling(s, id);
    case Land(r) => LandIsSettling(s, r);
    case Reply(id) => ReplyIsSettling(s, id);
    case GiveUp(id) => GiveUpIsSettling(s, id);
  }

  lemma {:induction false} SettlingIsSettled(s: State)
    requires Inv(s) && Settling(s)
    ensures ReleasesSettled(s)
  {
    forall v, g | 0 <= v < |s.log| - 1 && g in s.guards && ReleaseEntry(s.log[v], s.guards[g])
      ensures !s.guards[g].active
    {
      assert SettledAt(s, v) && GuardOk(s.log, g, s.guards[g]);
    }
  }

  lemma {:induction false} RunIsSettling(s0: State, actions: seq<Action>)
    requires Init(s0) && AnsweredRun(s0, actions) && QuietRun(s0, actions)
    ensures Inv(Run(s0, actions)) && Settling(Run(s0, actions))
  {
    if actions == [] {
      InitInv(s0);
    } else {
      var front := actions[..|actions| - 1];
      RunIsSettling(s0, front);
      NextInv(Run(s0, front), actions[|actions| - 1]);
      NextIsSettling(Run(s0, front), actions[|actions| - 1]);
    }
  }

  /** In every run that answers its releases, a guard whose release is no longer the newest write has
      learned that it released. */
  lemma {:induction false} AnsweredReleasesSettle(s0: State, actions: seq<Action>)
    requires Init(s0) && AnsweredRun(s0, actions) && QuietRun(s0, actions)
    ensures ReleasesSettled(Run(s0, actions))
  {
    RunIsSettling(s0, actions);
    SettlingIsSettled(Run(s0, actions));
  }
}
