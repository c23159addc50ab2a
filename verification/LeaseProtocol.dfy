/** Guards, anchors and the API server as one interleaved state machine.

    The server keeps every accepted revision of the Lease. A call reads a revision, decides from
    it, and sends at most one guarded request per attempt; the request may land at any later time,
    land after its caller gave up, or never land; the reply may be lost. Any number of calls run
    concurrently, also on the same guard. */
module LeaseProtocol {
  import opened Prelude
  import opened Leases

  const MAX_ATTEMPTS := 16
  const NANOS_PER_SECOND := 1_000_000_000

  // ---------------------------------------------------------------- local guard state

  datatype Observed = Observed(record: Record, at: nat, version: nat)

  /** `startedAt` places the guard's monotonic clock on the global time line. `version` fields
      record which revision a fact was learned from; no decision reads them. */
  datatype Guard = Guard(
    who: Identity,
    startedAt: nat,
    claim: Option<Claim>,
    lastSuccess: Option<nat>,
    active: bool,
    observation: Option<Observed>,
    successVersion: nat)

  datatype Identity = Identity(id: nat, holder: string, seconds: nat)

  datatype Decision = Allowed | Observing | CompetitorRenewed

  function SaturatingSub(a: nat, b: nat): nat {
    if a >= b then a - b else 0
  }

  function Nanos(seconds: nat): nat {
    seconds * NANOS_PER_SECOND
  }

  function MayTakeOwnership(guard: Guard, current: Coordination, time: nat, version: nat): (Guard, Decision) {
    match RecordOf(current)
    case None => (guard, Allowed)
    case Some(record) =>
      if guard.observation.None? then
        (guard.(observation := Some(Observed(record, time, version))), Observing)
      else if guard.observation.value.record != record then
        (guard.(observation := Some(Observed(record, time, version))), CompetitorRenewed)
      else if SaturatingSub(time, guard.observation.value.at) >= Nanos(current.seconds) then
        (guard, Allowed)
      else
        (guard, Observing)
  }

  /** Applies a stored Lease returned by the server; false when the guard must report failure. */
  function RecordSuccess(guard: Guard, lease: Lease, claim: Claim, time: nat, version: nat): (Guard, bool) {
    match ReadCoordination(lease, 1)
    case None => (guard, false)
    case Some(stored) =>
      if stored.holder.None? then (guard, false)
      else if stored.holder != Some(claim.holder) || stored.token != claim.token then
        (guard.(active := false), false)
      else
        (guard.(claim := Some(claim), lastSuccess := Some(time), active := true,
                observation := None, successVersion := version), true)
  }

  /** The local liveness test of a writer fence at a reading of the guard's clock. */
  predicate LiveAt(guard: Guard, claim: Claim, clock: nat) {
    && guard.active
    && guard.claim == Some(claim)
    && guard.lastSuccess.Some?
    && SaturatingSub(clock, guard.lastSuccess.value) < Nanos(guard.who.seconds)
  }

  // ---------------------------------------------------------------- the machine

  datatype Fence = Fence(guard: nat, claim: Claim)

  datatype Operation =
    | Acquire(who: Identity, time: nat)
    | Renew(who: Identity, claim: Claim, time: nat)
    | Release(who: Identity, claim: Claim)
    | Advance(fence: Option<Fence>, expected: Option<Anchor>, next: Anchor)
    | FencingRead(fence: Option<Fence>)

  datatype Outcome =
    | Failed
    | HeldByOther
    | HeldByLiveWriter
    | StaleAnchor
    | ConflictLimit
    | Owned(claim: Claim)
    | Released
    | Saw(anchor: AnchorRead)

  datatype Pc =
    | Reading
    | Deciding(version: nat, snapshot: Option<Lease>)
    | Waiting(request: nat)
    | Done(outcome: Outcome)

  datatype Call = Call(op: Operation, attempts: nat, pc: Pc)

  datatype Status = Pending | Accepted(version: nat) | Refused

  /** `basis` is the revision the request was computed from; zero asks for creation. */
  datatype Request = Request(
    op: Operation,
    basis: nat,
    lease: Lease,
    claim: Option<Claim>,
    evidence: Option<Observed>,
    status: Status)

  datatype Writer = Initially | By(op: Operation, evidence: Option<Observed>)

  datatype Entry = Entry(lease: Lease, writer: Writer, landedAt: nat)

  /** Revision `v` of the Lease is `log[v - 1]`; an empty log means that no Lease exists. */
  datatype State = State(
    now: nat,
    log: seq<Entry>,
    requests: seq<Request>,
    guards: map<nat, Guard>,
    calls: map<nat, Call>)

  predicate Init(s: State) {
    && |s.log| <= 1
    && (forall i | 0 <= i < |s.log| :: s.log[i].writer == Initially && s.log[i].landedAt <= s.now)
    && s.requests == []
    && s.guards == map[]
    && s.calls == map[]
  }

  function Current(s: State): Option<Lease> {
    if s.log == [] then None else Some(s.log[|s.log| - 1].lease)
  }

  function Clock(s: State, guard: Guard): nat {
    SaturatingSub(s.now, guard.startedAt)
  }

  predicate Live(s: State, guard: nat, claim: Claim) {
    guard in s.guards && LiveAt(s.guards[guard], claim, Clock(s, s.guards[guard]))
  }

  datatype Action =
    | Tick(delta: nat)
    | Join(who: Identity)
    | Start(call: nat, op: Operation)
    | Read(call: nat)
    | Decide(call: nat)
    | Land(request: nat)
    | Reply(call: nat)
    | GiveUp(call: nat)

  predicate MayStart(s: State, op: Operation) {
    match op
    case Acquire(who, _) => who.id in s.guards && s.guards[who.id].who == who
    case Renew(who, claim, _) =>
      && who.id in s.guards && s.guards[who.id].who == who
      && s.guards[who.id].active && s.guards[who.id].claim == Some(claim)
    case Release(who, claim) =>
      && who.id in s.guards && s.guards[who.id].who == who
      && s.guards[who.id].active && s.guards[who.id].claim == Some(claim)
    case Advance(_, _, _) => true
    case FencingRead(_) => true
  }

  /** What a call does with the revision it read: stop, or send a request. */
  datatype Plan =
    | Stop(outcome: Outcome)
    | Send(lease: Lease, claim: Option<Claim>, evidence: Option<Observed>)

  function SendIfSome(lease: Option<Lease>, claim: Option<Claim>, evidence: Option<Observed>): Plan {
    if lease.Some? then Send(lease.value, claim, evidence) else Stop(Failed)
  }

  function PlanAcquire(guard: Guard, who: Identity, time: nat, version: nat, snapshot: Option<Lease>): (Guard, Plan) {
    match snapshot
    case None =>
      var claim := Claim(who.holder, 1);
      (guard, SendIfSome(WithGuardState(EMPTY_LEASE, claim, 1, who.seconds, true), Some(claim), None))
    case Some(lease) =>
      match ReadCoordination(lease, who.seconds)
      case None => (guard, Stop(Failed))
      case Some(current) =>
        var (watching, decision) := MayTakeOwnership(guard, current, time, version);
        match decision
        case Observing => (watching, Stop(HeldByOther))
        case CompetitorRenewed => (watching, Stop(HeldByLiveWriter))
        case Allowed =>
          if current.token + 1 >= U64_LIMIT || current.renewal + 1 >= U64_LIMIT then (watching, Stop(Failed))
          else
            var claim := Claim(who.holder, current.token + 1);
            (watching, SendIfSome(WithGuardState(lease, claim, current.renewal + 1, who.seconds, true),
                                  Some(claim), watching.observation))
  }

  function PlanRenew(guard: Guard, who: Identity, claim: Claim, snapshot: Option<Lease>): (Guard, Plan) {
    match snapshot
    case None => (guard.(active := false), Stop(Failed))
    case Some(lease) =>
      match ReadCoordination(lease, who.seconds)
      case None => (guard, Stop(Failed))
      case Some(current) =>
        if current.holder != Some(claim.holder) || current.token != claim.token then
          (guard.(active := false), Stop(HeldByOther))
        else if current.renewal + 1 >= U64_LIMIT then (guard, Stop(Failed))
        else (guard, SendIfSome(WithGuardState(lease, claim, current.renewal + 1, who.seconds, false), Some(claim), None))
  }

  function PlanRelease(guard: Guard, who: Identity, claim: Claim, snapshot: Option<Lease>): (Guard, Plan) {
    match snapshot
    case None => (guard.(active := false), Stop(Failed))
    case Some(lease) =>
      match HoldsClaim(lease, claim)
      case None => (guard, Stop(Failed))
      case Some(false) => (guard.(active := false), Stop(HeldByOther))
      case Some(true) =>
        match ReadCoordination(lease, who.seconds)
        case None => (guard, Stop(Failed))
        case Some(current) =>
          if current.renewal + 1 >= U64_LIMIT then (guard, Stop(Failed))
          else (guard, SendIfSome(WithReleasedState(lease, current.renewal + 1), None, None))
  }

  /** The Lease admits this writer: an unfenced one only while nobody holds it. */
  predicate FencePermits(lease: Lease, fence: Option<Fence>) {
    match fence
    case None => !HasWriterCoordination(lease)
    case Some(f) => HoldsClaim(lease, f.claim) == Some(true)
  }

  predicate FenceLive(s: State, fence: Option<Fence>) {
    fence.Some? ==> Live(s, fence.value.guard, fence.value.claim)
  }

  predicate Succeeds(current: AnchorRead, expected: Option<Anchor>, next: Anchor) {
    match current
    case Unreadable => false
    case NoAnchor => expected == None
    case Anchored(anchor) => expected == Some(anchor) && (next == anchor || next.sequence > anchor.sequence)
  }

  function PlanAdvance(s: State, fence: Option<Fence>, expected: Option<Anchor>, next: Anchor, snapshot: Option<Lease>): Plan {
    match snapshot
    case None =>
      if expected.Some? then Stop(StaleAnchor)
      else if fence.Some? then Stop(Failed)
      else Send(WithAnchor(EMPTY_LEASE, next), None, None)
    case Some(lease) =>
      if ReadAnchor(lease).Unreadable? then Stop(Failed)
      else if !Succeeds(ReadAnchor(lease), expected, next) then Stop(StaleAnchor)
      else if !FenceLive(s, fence) || !FencePermits(lease, fence) then Stop(Failed)
      else Send(WithAnchor(lease, next), None, None)
  }

  function PlanFencingRead(s: State, fence: Option<Fence>, snapshot: Option<Lease>): Plan {
    match snapshot
    case None => Stop(Saw(NoAnchor))
    case Some(lease) =>
      if !FenceLive(s, fence) || !FencePermits(lease, fence) then Stop(Failed)
      else Send(BumpAnchorFence(lease), None, None)
  }

  function Finish(s: State, id: nat, outcome: Outcome): State
    requires id in s.calls
  {
    s.(calls := s.calls[id := s.calls[id].(pc := Done(outcome))])
  }

  function Execute(s: State, id: nat, plan: Plan): State
    requires id in s.calls && s.calls[id].pc.Deciding?
  {
    match plan
    case Stop(outcome) => Finish(s, id, outcome)
    case Send(lease, claim, evidence) =>
      var call := s.calls[id];
      s.(requests := s.requests + [Request(call.op, call.pc.version, lease, claim, evidence, Pending)],
         calls := s.calls[id := call.(pc := Waiting(|s.requests|))])
  }

  function WithGuard(s: State, guard: nat, value: Guard): State {
    s.(guards := s.guards[guard := value])
  }

  function DoDecide(s: State, id: nat): State {
    if id !in s.calls || !s.calls[id].pc.Deciding? then s else
    var Call(op, _, Deciding(version, snapshot)) := s.calls[id];
    match op
    case Advance(fence, expected, next) => Execute(s, id, PlanAdvance(s, fence, expected, next, snapshot))
    case FencingRead(fence) => Execute(s, id, PlanFencingRead(s, fence, snapshot))
    case Acquire(who, time) =>
      if who.id !in s.guards then s else
      var (guard, plan) := PlanAcquire(s.guards[who.id], who, time, version, snapshot);
      Execute(WithGuard(s, who.id, guard), id, plan)
    case Renew(who, claim, _) =>
      if who.id !in s.guards then s else
      var (guard, plan) := PlanRenew(s.guards[who.id], who, claim, snapshot);
      Execute(WithGuard(s, who.id, guard), id, plan)
    case Release(who, claim) =>
      if who.id !in s.guards then s else
      var (guard, plan) := PlanRelease(s.guards[who.id], who, claim, snapshot);
      Execute(WithGuard(s, who.id, guard), id, plan)
  }

  /** Resource-version compare-and-swap at the server. */
  function DoLand(s: State, r: nat): State {
    if r >= |s.requests| || !s.requests[r].status.Pending? then s else
    var request := s.requests[r];
    if request.basis == |s.log| then
      s.(log := s.log + [Entry(request.lease, By(request.op, request.evidence), s.now)],
         requests := s.requests[r := request.(status := Accepted(|s.log| + 1))])
    else
      s.(requests := s.requests[r := request.(status := Refused)])
  }

  function DoOwned(s: State, id: nat, who: Identity, time: nat, claim: Claim, version: nat): State
    requires id in s.calls && who.id in s.guards && 1 <= version <= |s.log|
  {
    var (guard, ok) := RecordSuccess(s.guards[who.id], s.log[version - 1].lease, claim, time, version);
    Finish(WithGuard(s, who.id, guard), id, if ok then Owned(claim) else Failed)
  }

  function DoAccepted(s: State, id: nat, claim: Option<Claim>, version: nat): State
    requires id in s.calls && 1 <= version <= |s.log|
  {
    match s.calls[id].op
    case Advance(_, _, _) => Finish(s, id, Saw(ReadAnchor(s.log[version - 1].lease)))
    case FencingRead(_) => Finish(s, id, Saw(ReadAnchor(s.log[version - 1].lease)))
    case Release(who, _) =>
      if who.id !in s.guards then s
      else Finish(WithGuard(s, who.id, s.guards[who.id].(active := false)), id, Released)
    case Acquire(who, time) =>
      if who.id !in s.guards || claim.None? then s else DoOwned(s, id, who, time, claim.value, version)
    case Renew(who, _, time) =>
      if who.id !in s.guards || claim.None? then s else DoOwned(s, id, who, time, claim.value, version)
  }

  function DoReply(s: State, id: nat): State {
    if id !in s.calls || !s.calls[id].pc.Waiting? || s.calls[id].pc.request >= |s.requests| then s else
    var Call(op, attempts, Waiting(r)) := s.calls[id];
    match s.requests[r].status
    case Pending => s
    case Refused =>
      if attempts + 1 < MAX_ATTEMPTS then s.(calls := s.calls[id := Call(op, attempts + 1, Reading)])
      else Finish(s, id, ConflictLimit)
    case Accepted(version) =>
      if 1 <= version <= |s.log| then DoAccepted(s, id, s.requests[r].claim, version) else s
  }

  function Next(s: State, action: Action): State {
    match action
    case Tick(delta) => s.(now := s.now + delta)
    case Join(who) =>
      if who.id in s.guards || who.seconds == 0 || who.seconds > I32_MAX || who.holder == "" then s
      else s.(guards := s.guards[who.id := Guard(who, s.now, None, None, false, None, 0)])
    case Start(id, op) =>
      if id in s.calls || !MayStart(s, op) then s
      else s.(calls := s.calls[id := Call(op, 0, Reading)])
    case Read(id) =>
      if id !in s.calls || !s.calls[id].pc.Reading? then s
      else s.(calls := s.calls[id := s.calls[id].(pc := Deciding(|s.log|, Current(s)))])
    case Decide(id) => DoDecide(s, id)
    case Land(r) => DoLand(s, r)
    case Reply(id) => DoReply(s, id)
    case GiveUp(id) =>
      if id !in s.calls || s.calls[id].pc.Done? then s else Finish(s, id, Failed)
  }

  /** The state after a sequence of steps; a step that is not enabled changes nothing. */
  function Run(s: State, actions: seq<Action>): State {
    if actions == [] then s else Next(Run(s, actions[..|actions| - 1]), actions[|actions| - 1])
  }
}
