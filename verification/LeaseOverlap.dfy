/** The conditions of timed exclusion are needed: concrete runs in which two writers are locally live
    at once. In the first an acquiring call reads late, in the second a release is not answered, in the
    third a renewal is answered after the release that followed it. */
module LeaseOverlap {
  import opened Prelude
  import opened Leases
  import opened LeaseProtocol
  import opened LeaseSettling
  import opened LeaseTiming

  // ---------------------------------------------------------------- building runs

  /** Which of the rules a run keeps to. */
  datatype Rules = Rules(delta: nat, answered: bool, quiet: bool)

  predicate Allows(rules: Rules, s: State, action: Action) {
    && PunctualStep(s, action, rules.delta)
    && (rules.answered ==> AnsweredStep(s, action))
    && (rules.quiet ==> QuietStep(s, action))
  }

  predicate Obeys(rules: Rules, s0: State, actions: seq<Action>) {
    actions == [] ||
    var front := actions[..|actions| - 1];
    Obeys(rules, s0, front) && Allows(rules, Run(s0, front), actions[|actions| - 1])
  }

  ghost predicate Traced(rules: Rules, s0: State, actions: seq<Action>, s: State) {
    Init(s0) && Obeys(rules, s0, actions) && Run(s0, actions) == s
  }

  lemma {:induction false} ObeysRules(rules: Rules, s0: State, actions: seq<Action>)
    requires Obeys(rules, s0, actions)
    ensures OnTime(s0, actions, rules.delta)
    ensures rules.answered ==> AnsweredRun(s0, actions)
    ensures rules.quiet ==> QuietRun(s0, actions)
  {
    if actions != [] { ObeysRules(rules, s0, actions[..|actions| - 1]); }
  }

  lemma {:induction false} Extend(rules: Rules, s0: State, actions: seq<Action>, s: State, action: Action)
    requires Traced(rules, s0, actions, s) && Allows(rules, s, action)
    ensures Traced(rules, s0, actions + [action], Next(s, action))
  {
    assert (actions + [action])[..|actions|] == actions;
  }

  /** A call that has just read the newest revision. */
  function Asked(s: State, id: nat, op: Operation): State {
    s.(calls := s.calls[id := Call(op, 0, Deciding(|s.log|, Current(s)))])
  }

  predicate ReadsInTime(s: State, op: Operation, late: nat) {
    HasTime(op) && op.who.id in s.guards ==>
      s.guards[op.who.id].startedAt + op.time <= s.now <= s.guards[op.who.id].startedAt + op.time + late
  }

  lemma {:induction false} Ask(rules: Rules, s0: State, actions: seq<Action>, s: State, id: nat, op: Operation)
    returns (more: seq<Action>)
    requires Traced(rules, s0, actions, s) && id !in s.calls && MayStart(s, op) && ReadsInTime(s, op, rules.delta)
    ensures Traced(rules, s0, more, DoDecide(Asked(s, id, op), id))
  {
    var started := s.(calls := s.calls[id := Call(op, 0, Reading)]);
    Extend(rules, s0, actions, s, Start(id, op));
    more := actions + [Start(id, op)];
    Extend(rules, s0, more, started, Read(id));
    more := more + [Read(id)];
    assert started.calls[id := Call(op, 0, Deciding(|s.log|, Current(s)))] == Asked(s, id, op).calls;
    Extend(rules, s0, more, Asked(s, id, op), Decide(id));
    more := more + [Decide(id)];
  }

  /** No call is about to learn that its release landed. */
  predicate NoneReleasing(s: State) {
    forall id | id in s.calls :: !AwaitsRelease(s, id)
  }

  lemma {:induction false} LandNow(rules: Rules, s0: State, actions: seq<Action>, s: State, r: nat) returns (more: seq<Action>)
    requires Traced(rules, s0, actions, s) && (rules.answered ==> NoneReleasing(s))
    ensures Traced(rules, s0, more, DoLand(s, r))
  {
    Extend(rules, s0, actions, s, Land(r));
    more := actions + [Land(r)];
  }

  lemma {:induction false} AnswerNow(rules: Rules, s0: State, actions: seq<Action>, s: State, id: nat) returns (more: seq<Action>)
    requires Traced(rules, s0, actions, s) && (rules.quiet ==> !AwaitsRelease(s, id))
    ensures Traced(rules, s0, more, DoReply(s, id))
  {
    Extend(rules, s0, actions, s, Reply(id));
    more := actions + [Reply(id)];
  }

  /** The plan of an owning call. */
  ghost predicate Plans(s: State, op: Operation, guard: Guard, plan: Plan) {
    && HasTime(op) && op.who.id in s.guards
    && (op.Acquire? ==> PlanAcquire(s.guards[op.who.id], op.who, op.time, |s.log|, Current(s)) == (guard, plan))
    && (op.Renew? ==> PlanRenew(s.guards[op.who.id], op.who, op.claim, Current(s)) == (guard, plan))
  }

  /** The state after an owning call has sent its request. */
  function SentOff(s: State, id: nat, op: Operation, guard: Guard, plan: Plan): State
    requires HasTime(op) && plan.Send?
  {
    s.(guards := s.guards[op.who.id := guard],
       requests := s.requests + [Request(op, |s.log|, plan.lease, plan.claim, plan.evidence, Pending)],
       calls := s.calls[id := Call(op, 0, Waiting(|s.requests|))])
  }

  lemma {:induction false} SendsOff(s: State, id: nat, op: Operation, guard: Guard, plan: Plan)
    requires Plans(s, op, guard, plan) && plan.Send? && id !in s.calls
    ensures DoDecide(Asked(s, id, op), id) == SentOff(s, id, op, guard, plan)
  {
    assert Asked(s, id, op).calls[id := Call(op, 0, Waiting(|s.requests|))] == s.calls[id := Call(op, 0, Waiting(|s.requests|))];
  }

  /** The state after that request landed and before its reply. */
  function LandedOff(s: State, id: nat, op: Operation, guard: Guard, plan: Plan): State
    requires HasTime(op) && plan.Send?
  {
    SentOff(s, id, op, guard, plan).(
      log := s.log + [Entry(plan.lease, By(op, plan.evidence), s.now)],
      requests := s.requests + [Request(op, |s.log|, plan.lease, plan.claim, plan.evidence, Accepted(|s.log| + 1))])
  }

  lemma {:induction false} LandsOff(s: State, id: nat, op: Operation, guard: Guard, plan: Plan)
    requires HasTime(op) && plan.Send?
    ensures DoLand(SentOff(s, id, op, guard, plan), |s.requests|) == LandedOff(s, id, op, guard, plan)
  {
  }

  /** The reply that makes a guard the owner. */
  lemma {:induction false} ReplyOwns(s: State, id: nat, op: Operation, r: nat, claim: Claim, version: nat)
    requires id in s.calls && s.calls[id].op == op && s.calls[id].pc == Waiting(r) && r < |s.requests|
    requires HasTime(op) && op.who.id in s.guards && 1 <= version <= |s.log|
    requires s.requests[r].status == Accepted(version) && s.requests[r].claim == Some(claim)
    ensures var (guard, ok) := RecordSuccess(s.guards[op.who.id], s.log[version - 1].lease, claim, op.time, version);
            DoReply(s, id) == s.(guards := s.guards[op.who.id := guard],
                                 calls := s.calls[id := s.calls[id].(pc := Done(if ok then Owned(claim) else Failed))])
  {
  }

  /** Sends an owning request and lets it land. */
  lemma {:induction false} Lands(
      rules: Rules, s0: State, actions: seq<Action>, s: State, id: nat, op: Operation, guard: Guard, plan: Plan)
    returns (more: seq<Action>)
    requires Traced(rules, s0, actions, s) && id !in s.calls && MayStart(s, op) && ReadsInTime(s, op, rules.delta)
    requires Plans(s, op, guard, plan) && plan.Send?
    requires rules.answered ==> NoneReleasing(SentOff(s, id, op, guard, plan))
    ensures Traced(rules, s0, more, LandedOff(s, id, op, guard, plan))
  {
    more := Ask(rules, s0, actions, s, id, op);
    SendsOff(s, id, op, guard, plan);
    more := LandNow(rules, s0, more, SentOff(s, id, op, guard, plan), |s.requests|);
    LandsOff(s, id, op, guard, plan);
  }

  /** An owning call from start to reply, undisturbed. */
  lemma {:induction false} Own(
      rules: Rules, s0: State, actions: seq<Action>, s: State, id: nat, op: Operation, guard: Guard, plan: Plan)
    returns (more: seq<Action>, done: State)
    requires Traced(rules, s0, actions, s) && id !in s.calls && MayStart(s, op) && ReadsInTime(s, op, rules.delta)
    requires Plans(s, op, guard, plan) && plan.Send? && plan.claim.Some?
    requires rules.answered ==> NoneReleasing(SentOff(s, id, op, guard, plan))
    ensures Traced(rules, s0, more, done)
    ensures done.now == s.now && done.log == s.log + [Entry(plan.lease, By(op, plan.evidence), s.now)]
    ensures done.guards == s.guards[op.who.id := RecordSuccess(guard, plan.lease, plan.claim.value, op.time, |s.log| + 1).0]
    ensures id in done.calls && done.calls == s.calls[id := done.calls[id]]
    ensures done.calls[id].op == op && done.calls[id].pc.Done? && s.requests <= done.requests
  {
    more := Lands(rules, s0, actions, s, id, op, guard, plan);
    var landed := LandedOff(s, id, op, guard, plan);
    ReplyOwns(landed, id, op, |s.requests|, plan.claim.value, |s.log| + 1);
    more := AnswerNow(rules, s0, more, landed, id);
    done := DoReply(landed, id);
    assert done.guards == s.guards[op.who.id := done.guards[op.who.id]];
  }

  /** Only calls that ended. */
  predicate AllDone(s: State) {
    forall id | id in s.calls :: s.calls[id].pc.Done?
  }

  // ---------------------------------------------------------------- the first holder

  const A := Identity(1, "a", 1)
  const B := Identity(2, "b", 1)
  const CLAIM_A := Claim("a", 1)
  const CLAIM_B := Claim("b", 2)

  function Fresh(who: Identity): Guard {
    Guard(who, 0, None, None, false, None, 0)
  }

  function Owner(who: Identity, claim: Claim, time: nat, version: nat): Guard {
    Guard(who, 0, Some(claim), Some(time), true, None, version)
  }

  /** The Lease while the first writer holds it. */
  predicate HeldByA(lease: Lease, renewal: U64) {
    && lease.spec == Some(Spec(Some("a"), Some(1), Some(0)))
    && lease.annotations.Some? && WriterFence in lease.annotations.value
    && Counter(lease, WriterFence) == Some(1) && Counter(lease, WriterRenewal) == Some(renewal)
  }

  /** The first writer holds the only revision since time zero. */
  predicate Underway(s: State) {
    && s.now == 0 && |s.log| == 1 && HeldByA(s.log[0].lease, 1)
    && s.guards == map[1 := Owner(A, CLAIM_A, 0, 1), 2 := Fresh(B)]
    && s.calls.Keys == {0} && AllDone(s)
  }

  lemma {:induction false} BothJoin(rules: Rules) returns (s0: State, actions: seq<Action>, s: State)
    ensures Traced(rules, s0, actions, s)
    ensures s == State(0, [], [], map[1 := Fresh(A), 2 := Fresh(B)], map[])
  {
    s0 := State(0, [], [], map[], map[]);
    Extend(rules, s0, [], s0, Join(A));
    var one := s0.(guards := map[1 := Fresh(A)]);
    assert Next(s0, Join(A)) == one;
    Extend(rules, s0, [] + [Join(A)], one, Join(B));
    actions := [] + [Join(A)] + [Join(B)];
    s := one.(guards := map[1 := Fresh(A), 2 := Fresh(B)]);
    assert Next(one, Join(B)) == s;
  }

  lemma {:induction false} FirstHolder(rules: Rules) returns (s0: State, actions: seq<Action>, s: State)
    ensures Traced(rules, s0, actions, s) && Underway(s)
  {
    var joined;
    s0, actions, joined := BothJoin(rules);
    var op := Acquire(A, 0);
    var lease := WithGuardState(EMPTY_LEASE, CLAIM_A, 1, 1, true).value;
    GuardStateCounters(EMPTY_LEASE, CLAIM_A, 1, 1, true);
    GuardStateCoordination(EMPTY_LEASE, CLAIM_A, 1, 1, true, 1);
    var plan := Send(lease, Some(CLAIM_A), None);
    assert PlanAcquire(Fresh(A), A, 0, 0, None) == (Fresh(A), plan);
    actions, s := Own(rules, s0, actions, joined, 0, op, Fresh(A), plan);
    assert s.log[0].lease == lease;
    assert s.guards == map[1 := Owner(A, CLAIM_A, 0, 1), 2 := Fresh(B)];
  }

  lemma {:induction false} Wait(rules: Rules, s0: State, actions: seq<Action>, s: State, time: nat) returns (more: seq<Action>)
    requires Traced(rules, s0, actions, s)
    ensures Traced(rules, s0, more, s.(now := s.now + time))
  {
    Extend(rules, s0, actions, s, Tick(time));
    more := actions + [Tick(time)];
  }

  lemma {:induction false} RenewalOfA(lease: Lease) returns (renewed: Lease)
    requires HeldByA(lease, 1)
    ensures HeldByA(renewed, 2) && forall guard: Guard ::
            PlanRenew(guard, A, CLAIM_A, Some(lease)) == (guard, Send(renewed, Some(CLAIM_A), None))
    ensures ReadCoordination(renewed, 1) == Some(Coordination(Some("a"), 1, 2, 1))
  {
    renewed := WithGuardState(lease, CLAIM_A, 2, 1, false).value;
    GuardStateCounters(lease, CLAIM_A, 2, 1, false);
    GuardStateCoordination(lease, CLAIM_A, 2, 1, false, 1);
  }

  // ---------------------------------------------------------------- a late read

  /** The first writer renewed at `late`; the second one saw that renewal from a call of time zero. */
  predicate Watched(s: State, late: nat) {
    && s.now == late && |s.log| == 2 && HeldByA(s.log[1].lease, 2)
    && 1 in s.guards && s.guards[1] == Owner(A, CLAIM_A, late, 2)
    && 2 in s.guards && s.guards[2] == Fresh(B).(observation := Some(Observed(Record("a", 1, 2, 1), 0, 2)))
    && 3 !in s.calls && AllDone(s)
  }

  predicate Renewed(s: State, late: nat) {
    && s.now == late && |s.log| == 2 && HeldByA(s.log[1].lease, 2)
    && s.guards == map[1 := Owner(A, CLAIM_A, late, 2), 2 := Fresh(B)]
    && s.calls.Keys == {0, 1} && AllDone(s)
  }

  lemma {:induction false} RenewsLater(rules: Rules, late: nat) returns (s0: State, actions: seq<Action>, s: State)
    ensures Traced(rules, s0, actions, s) && Renewed(s, late)
  {
    var held;
    s0, actions, held := FirstHolder(rules);
    actions := Wait(rules, s0, actions, held, late);
    var before := held.(now := late);
    var lease, op := before.log[0].lease, Renew(A, CLAIM_A, late);
    var renewed := RenewalOfA(lease);
    var guard, plan := before.guards[1], Send(renewed, Some(CLAIM_A), None);
    actions, s := Own(rules, s0, actions, before, 1, op, guard, plan);
    assert s.guards == map[1 := Owner(A, CLAIM_A, late, 2), 2 := Fresh(B)];
  }

  lemma {:induction false} WatchesLate(rules: Rules, late: nat) returns (s0: State, actions: seq<Action>, s: State)
    requires late <= rules.delta
    ensures Traced(rules, s0, actions, s) && Watched(s, late)
  {
    var before;
    s0, actions, before := RenewsLater(rules, late);
    var op := Acquire(B, 0);
    actions := Ask(rules, s0, actions, before, 2, op);
    s := DoDecide(Asked(before, 2, op), 2);
    var guard := Fresh(B).(observation := Some(Observed(Record("a", 1, 2, 1), 0, 2)));
    assert PlanAcquire(Fresh(B), B, 0, 2, Some(before.log[1].lease)) == (guard, Stop(HeldByOther));
  }

  lemma {:induction false} TakeoverByB(lease: Lease, guard: Guard, time: nat) returns (taken: Lease)
    requires HeldByA(lease, 2) && guard.observation == Some(Observed(Record("a", 1, 2, 1), 0, 2)) && time >= Nanos(1)
    ensures PlanAcquire(guard, B, time, 2, Some(lease)) == (guard, Send(taken, Some(CLAIM_B), guard.observation))
    ensures ReadCoordination(taken, 1) == Some(Coordination(Some("b"), 2, 3, 1))
  {
    taken := WithGuardState(lease, CLAIM_B, 3, 1, true).value;
    GuardStateCoordination(lease, CLAIM_B, 3, 1, true, 1);
  }

  /** The bound on overlapping deadlines is reached, for every delay up to the lease duration: the
      second writer takes over while the first one still has `late` to go. */
  lemma {:induction false} OverlapIsReached(late: nat) returns (s0: State, actions: seq<Action>)
    requires 0 < late <= Nanos(1)
    ensures Init(s0) && Punctual(s0, actions, late)
    ensures var s := Run(s0, actions);
            && Live(s, 1, CLAIM_A) && Live(s, 2, CLAIM_B)
            && Deadline(s.guards[1]) == s.now + late && Deadline(s.guards[2]) >= s.now + late
  {
    var rules := Rules(late, true, true);
    var watched;
    s0, actions, watched := WatchesLate(rules, late);
    actions := Wait(rules, s0, actions, watched, Nanos(1) - late);
    var before := watched.(now := Nanos(1));
    var lease, op, guard := before.log[1].lease, Acquire(B, Nanos(1)), before.guards[2];
    var taken := TakeoverByB(lease, guard, Nanos(1));
    var plan := Send(taken, Some(CLAIM_B), guard.observation);
    var s;
    actions, s := Own(rules, s0, actions, before, 3, op, guard, plan);
    ObeysRules(rules, s0, actions);
  }

  // ---------------------------------------------------------------- releases

  /** The Lease after the first writer released it. */
  predicate FreedByA(lease: Lease, renewal: U64) {
    && lease.spec == Some(Spec(None, Some(1), Some(0)))
    && Counter(lease, WriterFence) == Some(1) && Counter(lease, WriterRenewal) == Some(renewal)
  }

  lemma {:induction false} ReleaseByA(lease: Lease, renewal: U64) returns (released: Lease)
    requires HeldByA(lease, renewal) && renewal < 10
    ensures FreedByA(released, renewal + 1) && forall guard: Guard ::
            PlanRelease(guard, A, CLAIM_A, Some(lease)) == (guard, Send(released, None, None))
  {
    released := WithReleasedState(lease, renewal + 1).value;
    ReleasedStateCoordination(lease, renewal + 1, 1);
  }

  lemma {:induction false} AcquisitionByB(lease: Lease, renewal: U64, version: nat) returns (taken: Lease)
    requires FreedByA(lease, renewal) && renewal < 10
    ensures PlanAcquire(Fresh(B), B, 0, version, Some(lease)) == (Fresh(B), Send(taken, Some(CLAIM_B), None))
    ensures ReadCoordination(taken, 1) == Some(Coordination(Some("b"), 2, renewal + 1, 1))
  {
    taken := WithGuardState(lease, CLAIM_B, renewal + 1, 1, true).value;
    GuardStateCoordination(lease, CLAIM_B, renewal + 1, 1, true, 1);
  }

  /** The first writer is active and holds the newest revision. */
  predicate Holding(s: State, renewal: U64, version: nat) {
    && s.now == 0 && s.log != [] && HeldByA(s.log[|s.log| - 1].lease, renewal)
    && s.guards == map[1 := Owner(A, CLAIM_A, 0, version), 2 := Fresh(B)]
  }

  /** A release of the first writer whose request just landed. */
  predicate Freed(s: State, before: State, id: nat, renewal: U64) {
    && s.now == 0 && s.guards == before.guards && |s.log| == |before.log| + 1 && before.log <= s.log
    && FreedByA(s.log[|s.log| - 1].lease, renewal)
    && id in s.calls && s.calls == before.calls[id := s.calls[id]] && s.calls[id].op == Release(A, CLAIM_A)
    && s.calls[id].pc == Waiting(|before.requests|) && |s.requests| == |before.requests| + 1 && before.requests <= s.requests
    && s.requests[|before.requests|].status == Accepted(|s.log|)
  }

  function ReleaseSent(s: State, id: nat, released: Lease): State {
    s.(requests := s.requests + [Request(Release(A, CLAIM_A), |s.log|, released, None, None, Pending)],
       calls := s.calls[id := Call(Release(A, CLAIM_A), 0, Waiting(|s.requests|))])
  }

  lemma {:induction false} SendsRelease(s: State, id: nat, released: Lease)
    requires id !in s.calls && 1 in s.guards && s.log != []
    requires PlanRelease(s.guards[1], A, CLAIM_A, Current(s)) == (s.guards[1], Send(released, None, None))
    ensures DoDecide(Asked(s, id, Release(A, CLAIM_A)), id) == ReleaseSent(s, id, released)
  {
    var asked := Asked(s, id, Release(A, CLAIM_A));
    var call := Call(Release(A, CLAIM_A), 0, Waiting(|s.requests|));
    assert s.guards[1 := s.guards[1]] == s.guards;
    assert asked.calls[id := call] == s.calls[id := call];
  }

  lemma {:induction false} ReleaseFrees(s: State, id: nat, released: Lease, renewal: U64)
    requires FreedByA(released, renewal) && s.now == 0
    ensures Freed(DoLand(ReleaseSent(s, id, released), |s.requests|), s, id, renewal)
  {
  }

  lemma {:induction false} ReleaseLands(
      rules: Rules, s0: State, actions: seq<Action>, before: State, id: nat, renewal: U64, version: nat)
    returns (more: seq<Action>, s: State)
    requires Traced(rules, s0, actions, before) && Holding(before, renewal, version) && renewal < 10
    requires id !in before.calls && NoneReleasing(before)
    requires forall i | i in before.calls && before.calls[i].pc.Waiting? :: before.calls[i].pc.request < |before.requests|
    ensures Traced(rules, s0, more, s) && Freed(s, before, id, renewal + 1)
  {
    var released := ReleaseByA(before.log[|before.log| - 1].lease, renewal);
    more := Ask(rules, s0, actions, before, id, Release(A, CLAIM_A));
    SendsRelease(before, id, released);
    var sent := ReleaseSent(before, id, released);
    NoneReleasingYet(before, id, released);
    more := LandNow(rules, s0, more, sent, |before.requests|);
    s := DoLand(sent, |before.requests|);
    ReleaseFrees(before, id, released, renewal + 1);
  }

  lemma {:induction false} NoneReleasingYet(s: State, id: nat, released: Lease)
    requires NoneReleasing(s) && forall i | i in s.calls && s.calls[i].pc.Waiting? :: s.calls[i].pc.request < |s.requests|
    ensures NoneReleasing(ReleaseSent(s, id, released))
  {
    var sent := ReleaseSent(s, id, released);
    forall i | i in sent.calls ensures !AwaitsRelease(sent, i) {
      if i != id { assert !AwaitsRelease(s, i); }
    }
  }

  /** Without the reply to a release, the writer that released stays locally live beside the next
      one, even though every call takes effect at its supplied time. */
  lemma {:induction false} UnansweredReleaseOverlaps() returns (s0: State, actions: seq<Action>)
    ensures Init(s0) && OnTime(s0, actions, 0) && QuietRun(s0, actions)
    ensures var s := Run(s0, actions); Live(s, 1, CLAIM_A) && Live(s, 2, CLAIM_B)
  {
    var rules := Rules(0, false, true);
    var held, freed, s;
    s0, actions, held := FirstHolder(rules);
    actions, freed := ReleaseLands(rules, s0, actions, held, 1, 1, 1);
    actions, s := AcquireUnchecked(rules, s0, actions, freed);
    ObeysRules(rules, s0, actions);
  }

  /** The second writer acquires the freed Lease while the release is still unanswered. */
  lemma {:induction false} AcquireUnchecked(rules: Rules, s0: State, actions: seq<Action>, freed: State)
    returns (more: seq<Action>, s: State)
    requires Traced(rules, s0, actions, freed) && !rules.answered
    requires freed.now == 0 && |freed.log| == 2 && FreedByA(freed.log[1].lease, 2) && freed.calls.Keys == {0, 1}
    requires freed.guards == map[1 := Owner(A, CLAIM_A, 0, 1), 2 := Fresh(B)]
    ensures Traced(rules, s0, more, s) && s.now == 0
    ensures s.guards == map[1 := Owner(A, CLAIM_A, 0, 1), 2 := Owner(B, CLAIM_B, 0, 3)]
  {
    var taken := AcquisitionByB(freed.log[1].lease, 2, 2);
    var op, plan := Acquire(B, 0), Send(taken, Some(CLAIM_B), None);
    more, s := Own(rules, s0, actions, freed, 2, op, Fresh(B), plan);
    assert s.guards == map[1 := Owner(A, CLAIM_A, 0, 1), 2 := Owner(B, CLAIM_B, 0, 3)];
  }

  // ---------------------------------------------------------------- a renewal answered too late

  /** The renewal of call 1 landed and is unanswered. */
  predicate Renewing(s: State) {
    && Holding(s, 2, 1) && |s.log| == 2 && s.calls.Keys == {0, 1} && s.calls[0].pc.Done?
    && s.calls[1].op == Renew(A, CLAIM_A, 0) && s.calls[1].pc.Waiting? && s.calls[1].pc.request < |s.requests|
    && s.requests[s.calls[1].pc.request].status == Accepted(2)
    && s.requests[s.calls[1].pc.request].claim == Some(CLAIM_A)
  }

  lemma {:induction false} RenewalLands(rules: Rules) returns (s0: State, actions: seq<Action>, s: State)
    ensures Traced(rules, s0, actions, s) && Renewing(s)
  {
    var held;
    s0, actions, held := FirstHolder(rules);
    var renewed := RenewalOfA(held.log[0].lease);
    var op, plan := Renew(A, CLAIM_A, 0), Send(renewed, Some(CLAIM_A), None);
    actions := Lands(rules, s0, actions, held, 1, op, held.guards[1], plan);
    s := LandedOff(held, 1, op, held.guards[1], plan);
    assert s.guards == map[1 := Owner(A, CLAIM_A, 0, 1), 2 := Fresh(B)];
  }

  /** The release of call 2 was answered; the renewal of call 1 still is not. */
  predicate ReleasedFirst(s: State) {
    && s.now == 0 && |s.log| == 3 && HeldByA(s.log[1].lease, 2) && FreedByA(s.log[2].lease, 3)
    && s.guards == map[1 := Owner(A, CLAIM_A, 0, 1).(active := false), 2 := Fresh(B)]
    && s.calls.Keys == {0, 1, 2} && s.calls[0].pc.Done? && s.calls[2].pc.Done?
    && s.calls[1].op == Renew(A, CLAIM_A, 0) && s.calls[1].pc.Waiting? && s.calls[1].pc.request < |s.requests|
    && s.requests[s.calls[1].pc.request].status == Accepted(2)
    && s.requests[s.calls[1].pc.request].claim == Some(CLAIM_A)
  }

  /** The reply that tells the first writer that it released. */
  lemma {:induction false} ReplyReleases(s: State, id: nat)
    requires AwaitsRelease(s, id) && s.calls[id].op == Release(A, CLAIM_A) && 1 in s.guards
    requires 1 <= s.requests[s.calls[id].pc.request].status.version <= |s.log|
    ensures DoReply(s, id) == s.(guards := s.guards[1 := s.guards[1].(active := false)],
                                 calls := s.calls[id := s.calls[id].(pc := Done(Released))])
  {
  }

  lemma {:induction false} ReleasesFirst(rules: Rules) returns (s0: State, actions: seq<Action>, s: State)
    requires !rules.quiet
    ensures Traced(rules, s0, actions, s) && ReleasedFirst(s)
  {
    var renewing, freed;
    s0, actions, renewing := RenewalLands(rules);
    actions, freed := ReleaseLands(rules, s0, actions, renewing, 2, 2, 1);
    actions := AnswerNow(rules, s0, actions, freed, 2);
    s := DoReply(freed, 2);
    ReplyReleases(freed, 2);
    assert s.guards == map[1 := Owner(A, CLAIM_A, 0, 1).(active := false), 2 := Fresh(B)];
  }

  lemma {:induction false} NoneReleasingHere(s: State, op: Operation, plan: Plan)
    requires ReleasedFirst(s) && HasTime(op) && plan.Send?
    ensures NoneReleasing(SentOff(s, 3, op, Fresh(B), plan))
  {
  }

  /** The second writer owns the Lease; the renewal of the first is still unanswered. */
  lemma {:induction false} SecondOwns(rules: Rules) returns (s0: State, actions: seq<Action>, s: State)
    requires !rules.quiet
    ensures Traced(rules, s0, actions, s) && s.now == 0 && |s.log| == 4 && HeldByA(s.log[1].lease, 2)
    ensures s.guards == map[1 := Owner(A, CLAIM_A, 0, 1).(active := false), 2 := Owner(B, CLAIM_B, 0, 4)]
    ensures 1 in s.calls && s.calls[1].op == Renew(A, CLAIM_A, 0) && s.calls[1].pc.Waiting?
    ensures s.calls[1].pc.request < |s.requests| && s.requests[s.calls[1].pc.request].status == Accepted(2)
    ensures s.requests[s.calls[1].pc.request].claim == Some(CLAIM_A)
  {
    var before;
    s0, actions, before := ReleasesFirst(rules);
    var taken := AcquisitionByB(before.log[2].lease, 3, 3);
    var op, plan := Acquire(B, 0), Send(taken, Some(CLAIM_B), None);
    NoneReleasingHere(before, op, plan);
    actions, s := Own(rules, s0, actions, before, 3, op, Fresh(B), plan);
    assert s.guards == map[1 := Owner(A, CLAIM_A, 0, 1).(active := false), 2 := Owner(B, CLAIM_B, 0, 4)];
  }

  /** A renewal answered after the guard's own acknowledged release makes it locally live again, beside
      the writer that acquired in between, although every release was answered before anything landed. */
  lemma {:induction false} LateRenewalOverlaps() returns (s0: State, actions: seq<Action>)
    ensures Init(s0) && OnTime(s0, actions, 0) && AnsweredRun(s0, actions)
    ensures var s := Run(s0, actions); Live(s, 1, CLAIM_A) && Live(s, 2, CLAIM_B)
  {
    var rules := Rules(0, true, false);
    var before;
    s0, actions, before := SecondOwns(rules);
    ReplyOwns(before, 1, before.calls[1].op, before.calls[1].pc.request, CLAIM_A, 2);
    actions := AnswerNow(rules, s0, actions, before, 1);
    ObeysRules(rules, s0, actions);
  }
}
