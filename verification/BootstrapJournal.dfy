/** The bootstrap journal: a declared Secret updated by epoch- and revision-guarded handles.

    The API server keeps every accepted revision of the Secret. Handles claim the journal and save
    to it; requests may land late, replies may be lost and reconciled by reading back, and any
    operation may be cancelled. Whether the writer fence passes its checks is left open. */
module BootstrapJournal {
  import opened Prelude
  import opened Numerals

  const MAX_JOURNAL_BYTES := 512 * 1024

  datatype Note = Owner | SecretUid | LeaseUid | Epoch | ForeignNote(name: string)

  datatype Field = StateField | EvidenceField | ForeignField(name: string)

  datatype Secret = Secret(
    uid: Option<string>,
    name: Option<string>,
    notes: Option<map<Note, string>>,
    data: Option<map<Field, Data>>,
    immutable: bool,
    opaqueType: bool,
    deleting: bool,
    hasStringData: bool)

  function Annotation(secret: Secret, note: Note): Option<string> {
    if secret.notes.Some? && note in secret.notes.value then Some(secret.notes.value[note]) else None
  }

  function Contents(secret: Secret): map<Field, Data> {
    if secret.data.Some? then secret.data.value else map[]
  }

  predicate Required(value: Option<string>) {
    value.Some? && value.value != ""
  }

  function FieldBytes(data: map<Field, Data>): nat {
    (if StateField in data then |data[StateField]| else 0)
    + (if EvidenceField in data then |data[EvidenceField]| else 0)
  }

  predicate ValidSecret(secret: Secret, name: string) {
    && Required(secret.uid)
    && Required(secret.name) && secret.name.value == name
    && Annotation(secret, Owner) == Some("v1")
    && !secret.immutable && secret.opaqueType && !secret.deleting && !secret.hasStringData
    && (forall field | field in Contents(secret) :: field in {StateField, EvidenceField} && Contents(secret)[field] != [])
    && (EvidenceField in Contents(secret) ==> StateField in Contents(secret))
    && FieldBytes(Contents(secret)) <= MAX_JOURNAL_BYTES
  }

  /** The epoch a Secret is claimed under; `None` when unclaimed or malformed. */
  function EpochOf(secret: Secret): Option<U64> {
    var text :- Annotation(secret, Epoch);
    ParseU64(text)
  }

  predicate Unclaimed(secret: Secret) {
    && Annotation(secret, SecretUid).None? && Annotation(secret, LeaseUid).None? && Annotation(secret, Epoch).None?
    && Contents(secret) == map[]
  }

  /** Whether a writer of epoch `token` on this Lease may claim the Secret it read. */
  predicate MayClaim(secret: Secret, name: string, token: U64, leaseUid: string) {
    && ValidSecret(secret, name)
    && secret.notes.Some?
    && (Unclaimed(secret) ||
        (&& Annotation(secret, SecretUid) == secret.uid
         && Annotation(secret, LeaseUid) == Some(leaseUid)
         && EpochOf(secret).Some?
         && EpochOf(secret).value != 0
         && Annotation(secret, Epoch) == Some(Decimal(EpochOf(secret).value))
         && EpochOf(secret).value <= token))
  }

  function Claimed(secret: Secret, token: U64, leaseUid: string): Secret
    requires secret.notes.Some? && secret.uid.Some?
  {
    secret.(notes := Some(secret.notes.value[SecretUid := secret.uid.value][LeaseUid := leaseUid][Epoch := Decimal(token)]))
  }

  function Saved(secret: Secret, state: Data, evidence: Option<Data>): Secret {
    var data := map[StateField := state];
    secret.(data := Some(if evidence.Some? then data[EvidenceField := evidence.value] else data))
  }

  predicate SaveAccepted(state: Data, evidence: Option<Data>) {
    && |state| + (if evidence.Some? then |evidence.value| else 0) <= MAX_JOURNAL_BYTES
    && state != [] && evidence != Some([])
  }

  /** The read-back test that decides whether `stored` is the update that was sent. */
  predicate StoredExactly(stored: Secret, next: Secret, name: string) {
    && ValidSecret(stored, name)
    && stored.uid == next.uid
    && stored.data == next.data
    && Annotation(stored, Owner) == Annotation(next, Owner)
    && Annotation(stored, SecretUid) == Annotation(next, SecretUid)
    && Annotation(stored, LeaseUid) == Annotation(next, LeaseUid)
    && Annotation(stored, Epoch) == Annotation(next, Epoch)
  }

  // ---------------------------------------------------------------- the machine

  /** Why a handle writes; a save remembers the bytes it was given. */
  datatype Kind = Claiming | Saving(state: Data, evidence: Option<Data>)

  datatype Phase =
    | Opening
    | Storing(kind: Kind, seen: Secret, next: Secret, basis: nat)
    | Waiting(next: Secret, request: nat)
    | Rereading(next: Secret)
    | Ready(version: nat, secret: Secret)
    | Poisoned

  datatype Handle = Handle(token: U64, leaseUid: string, phase: Phase)

  datatype Status = Pending | Accepted(version: nat) | Refused

  datatype Request = Request(handle: nat, kind: Kind, basis: nat, seen: Secret, next: Secret, status: Status)

  /** How a handle came to write a revision: `seen` is the Secret it had read or last confirmed stored. */
  datatype Origin = Declared | Written(handle: nat, kind: Kind, seen: Secret)

  datatype Revision = Revision(secret: Secret, origin: Origin)

  datatype State = State(name: string, log: seq<Revision>, requests: seq<Request>, handles: map<nat, Handle>)

  predicate Init(s: State) {
    && |s.log| <= 1
    && (|s.log| == 1 ==> s.log[0].origin == Declared)
    && s.requests == [] && s.handles == map[]
  }

  datatype Action =
    | Open(handle: nat, token: U64, leaseUid: string)
    | ReadForClaim(handle: nat)
    | Save(handle: nat, state: Data, evidence: Option<Data>)
    | SendUpdate(handle: nat)
    | Land(request: nat)
    | Reply(handle: nat, live: bool)
    | LoseReply(handle: nat)
    | ReadBack(handle: nat, live: bool)
    | Fail(handle: nat)

  function Move(s: State, h: nat, phase: Phase): State
    requires h in s.handles
  {
    s.(handles := s.handles[h := s.handles[h].(phase := phase)])
  }

  function Settle(s: State, h: nat, next: Secret, version: nat, live: bool): State
    requires h in s.handles
  {
    if 1 <= version <= |s.log| && StoredExactly(s.log[version - 1].secret, next, s.name) && live then
      Move(s, h, Ready(version, s.log[version - 1].secret))
    else
      Move(s, h, Poisoned)
  }

  function Step(s: State, action: Action): State {
    match action
    case Open(h, token, leaseUid) =>
      if h in s.handles || leaseUid == "" then s
      else s.(handles := s.handles[h := Handle(token, leaseUid, Opening)])
    case ReadForClaim(h) =>
      if h !in s.handles || !s.handles[h].phase.Opening? then s
      else if s.log != [] && MayClaim(s.log[|s.log| - 1].secret, s.name, s.handles[h].token, s.handles[h].leaseUid) then
        var seen := s.log[|s.log| - 1].secret;
        Move(s, h, Storing(Claiming, seen, Claimed(seen, s.handles[h].token, s.handles[h].leaseUid), |s.log|))
      else Move(s, h, Poisoned)
    case Save(h, state, evidence) =>
      if h !in s.handles || !s.handles[h].phase.Ready? || !SaveAccepted(state, evidence) then s
      else
        var Ready(version, secret) := s.handles[h].phase;
        Move(s, h, Storing(Saving(state, evidence), secret, Saved(secret, state, evidence), version))
    case SendUpdate(h) =>
      if h !in s.handles || !s.handles[h].phase.Storing? then s
      else
        var Storing(kind, seen, next, basis) := s.handles[h].phase;
        Move(s.(requests := s.requests + [Request(h, kind, basis, seen, next, Pending)]), h, Waiting(next, |s.requests|))
    case Land(r) =>
      if r >= |s.requests| || !s.requests[r].status.Pending? then s
      else
        var request := s.requests[r];
        if request.basis == |s.log| && s.log != [] then
          s.(log := s.log + [Revision(request.next, Written(request.handle, request.kind, request.seen))],
             requests := s.requests[r := request.(status := Accepted(|s.log| + 1))])
        else s.(requests := s.requests[r := request.(status := Refused)])
    case Reply(h, live) =>
      if h !in s.handles || !s.handles[h].phase.Waiting? || s.handles[h].phase.request >= |s.requests| then s
      else
        var Waiting(next, r) := s.handles[h].phase;
        (match s.requests[r].status
         case Pending => s
         case Refused => Move(s, h, Poisoned)
         case Accepted(version) => Settle(s, h, next, version, live))
    case LoseReply(h) =>
      if h !in s.handles || !s.handles[h].phase.Waiting? then s
      else Move(s, h, Rereading(s.handles[h].phase.next))
    case ReadBack(h, live) =>
      if h !in s.handles || !s.handles[h].phase.Rereading? then s
      else Settle(s, h, s.handles[h].phase.next, |s.log|, live)
    case Fail(h) =>
      if h !in s.handles || s.handles[h].phase.Ready? then s else Move(s, h, Poisoned)
  }

  function Run(s: State, actions: seq<Action>): State {
    if actions == [] then s else Step(Run(s, actions[..|actions| - 1]), actions[|actions| - 1])
  }

  // ---------------------------------------------------------------- invariant

  predicate BoundTo(secret: Secret, handle: Handle) {
    && EpochOf(secret) == Some(handle.token)
    && Annotation(secret, LeaseUid) == Some(handle.leaseUid)
    && Annotation(secret, SecretUid) == secret.uid
  }

  function EpochValue(secret: Secret): nat {
    if EpochOf(secret).Some? then EpochOf(secret).value else 0
  }

  /** The journal data are exactly these bytes: the state, and the evidence if there is any. */
  predicate Holds(secret: Secret, state: Data, evidence: Option<Data>) {
    && secret.data.Some?
    && StateField in secret.data.value && secret.data.value[StateField] == state
    && (EvidenceField in secret.data.value <==> evidence.Some?)
    && (evidence.Some? ==> secret.data.value[EvidenceField] == evidence.value)
    && (forall field | field in secret.data.value :: field in {StateField, EvidenceField})
  }

  /** `next` is a legal successor of `before` written by this handle. */
  predicate Succeeds(handle: Handle, kind: Kind, before: Secret, next: Secret) {
    && BoundTo(next, handle)
    && match kind
       case Claiming =>
         && next.data == before.data
         && EpochValue(before) <= handle.token
         && (Unclaimed(before) || Annotation(before, LeaseUid) == Some(handle.leaseUid))
       case Saving(state, evidence) =>
         && BoundTo(before, handle) && before.(data := next.data) == next
         && Holds(next, state, evidence)
  }

  predicate RevisionOk(s: State, i: nat)
    requires i < |s.log|
  {
    match s.log[i].origin
    case Declared => i == 0
    case Written(h, kind, seen) =>
      && h in s.handles && 0 < i
      && seen == s.log[i - 1].secret
      && Succeeds(s.handles[h], kind, seen, s.log[i].secret)
  }

  predicate RequestOk(s: State, request: Request) {
    && request.handle in s.handles
    && 1 <= request.basis <= |s.log|
    && request.seen == s.log[request.basis - 1].secret
    && Succeeds(s.handles[request.handle], request.kind, request.seen, request.next)
    && (request.status.Accepted? ==>
          && request.status.version == request.basis + 1 <= |s.log|
          && s.log[request.basis] == Revision(request.next, Written(request.handle, request.kind, request.seen)))
  }

  predicate PhaseOk(s: State, handle: Handle) {
    match handle.phase
    case Storing(kind, seen, next, basis) =>
      1 <= basis <= |s.log| && seen == s.log[basis - 1].secret && Succeeds(handle, kind, seen, next)
    case Waiting(next, r) => BoundTo(next, handle) && r < |s.requests| && s.requests[r].next == next
    case Rereading(next) => BoundTo(next, handle)
    case Ready(version, secret) =>
      && 1 <= version <= |s.log| && s.log[version - 1].secret == secret && BoundTo(secret, handle)
      && ValidSecret(secret, s.name)
    case _ => true
  }

  predicate Inv(s: State) {
    && (forall i | 0 <= i < |s.log| :: RevisionOk(s, i))
    && (forall r | 0 <= r < |s.requests| :: RequestOk(s, s.requests[r]))
    && (forall h | h in s.handles :: PhaseOk(s, s.handles[h]))
  }

  lemma {:induction false} InitInv(s: State)
    requires Init(s)
    ensures Inv(s)
  {
    forall i | 0 <= i < |s.log| ensures RevisionOk(s, i) {
      assert s.log[i].origin == Declared;
    }
  }

  lemma {:induction false} ClaimSucceeds(secret: Secret, name: string, handle: Handle)
    requires MayClaim(secret, name, handle.token, handle.leaseUid)
    ensures Succeeds(handle, Claiming, secret, Claimed(secret, handle.token, handle.leaseUid))
  {
    DecimalRoundTrip(handle.token);
  }

  lemma {:induction false} MoveInv(s: State, h: nat, phase: Phase)
    requires Inv(s) && h in s.handles
    requires PhaseOk(s, s.handles[h].(phase := phase))
    ensures Inv(Move(s, h, phase))
  {
    var s' := Move(s, h, phase);
    forall i | 0 <= i < |s'.log| ensures RevisionOk(s', i) {
      assert RevisionOk(s, i);
    }
    forall r | 0 <= r < |s'.requests| ensures RequestOk(s', s'.requests[r]) {
      assert RequestOk(s, s.requests[r]);
    }
    forall g | g in s'.handles ensures PhaseOk(s', s'.handles[g]) {
      if g != h { assert PhaseOk(s, s.handles[g]); }
    }
  }

  lemma {:induction false} SettleInv(s: State, h: nat, next: Secret, version: nat, live: bool)
    requires Inv(s) && h in s.handles && BoundTo(next, s.handles[h])
    ensures Inv(Settle(s, h, next, version, live))
  {
    if 1 <= version <= |s.log| {
      MoveInv(s, h, Poisoned);
      var stored := s.log[version - 1].secret;
      if StoredExactly(stored, next, s.name) && live {
        assert EpochOf(stored) == EpochOf(next);
        MoveInv(s, h, Ready(version, stored));
      }
    } else {
      MoveInv(s, h, Poisoned);
    }
  }

  lemma {:induction false} RequestKept(s: State, s': State, request: Request)
    requires RequestOk(s, request) && s.log <= s'.log && s'.handles == s.handles
    ensures RequestOk(s', request)
  {
  }

  lemma {:induction false} LandInv(s: State, r: nat)
    requires Inv(s)
    ensures Inv(Step(s, Land(r)))
  {
    var s' := Step(s, Land(r));
    if s' != s {
      assert RequestOk(s, s.requests[r]);
      forall i | 0 <= i < |s'.log| ensures RevisionOk(s', i) {
        if i < |s.log| { assert RevisionOk(s, i) && s'.log[i] == s.log[i] && (i > 0 ==> s'.log[i - 1] == s.log[i - 1]); }
      }
      forall q | 0 <= q < |s'.requests| ensures RequestOk(s', s'.requests[q]) {
        assert RequestOk(s, s.requests[q]);
        if q != r { RequestKept(s, s', s.requests[q]); }
      }
      forall h | h in s'.handles ensures PhaseOk(s', s'.handles[h]) {
        assert PhaseOk(s, s.handles[h]);
      }
    }
  }

  lemma {:induction false} SendInv(s: State, h: nat)
    requires Inv(s)
    ensures Inv(Step(s, SendUpdate(h)))
  {
    if h in s.handles && s.handles[h].phase.Storing? {
      assert PhaseOk(s, s.handles[h]);
      var Storing(kind, seen, next, basis) := s.handles[h].phase;
      var s1 := s.(requests := s.requests + [Request(h, kind, basis, seen, next, Pending)]);
      assert Inv(s1) by {
        forall i | 0 <= i < |s1.log| ensures RevisionOk(s1, i) { assert RevisionOk(s, i); }
        forall q | 0 <= q < |s1.requests| ensures RequestOk(s1, s1.requests[q]) {
          if q < |s.requests| { assert RequestOk(s, s.requests[q]); }
        }
        forall g | g in s1.handles ensures PhaseOk(s1, s1.handles[g]) {
          assert PhaseOk(s, s.handles[g]);
        }
      }
      MoveInv(s1, h, Waiting(next, |s.requests|));
    }
  }

  lemma {:induction false} StepInv(s: State, action: Action)
    requires Inv(s)
    ensures Inv(Step(s, action))
  {
    match action
    case Open(h, token, leaseUid) => OpenInv(s, h, token, leaseUid);
    case ReadForClaim(h) =>
      if h in s.handles && s.handles[h].phase.Opening? {
        MoveInv(s, h, Poisoned);
        var handle := s.handles[h];
        if s.log != [] && MayClaim(s.log[|s.log| - 1].secret, s.name, handle.token, handle.leaseUid) {
          var current := s.log[|s.log| - 1].secret;
          ClaimSucceeds(current, s.name, handle);
          MoveInv(s, h, Storing(Claiming, current, Claimed(current, handle.token, handle.leaseUid), |s.log|));
        }
      }
    case Save(h, state, evidence) =>
      if h in s.handles && s.handles[h].phase.Ready? {
        assert PhaseOk(s, s.handles[h]);
        var Ready(version, secret) := s.handles[h].phase;
        MoveInv(s, h, Storing(Saving(state, evidence), secret, Saved(secret, state, evidence), version));
      }
    case SendUpdate(h) => SendInv(s, h);
    case Land(r) => LandInv(s, r);
    case Reply(h, live) =>
      if h in s.handles && s.handles[h].phase.Waiting? && s.handles[h].phase.request < |s.requests| {
        assert PhaseOk(s, s.handles[h]);
        var Waiting(next, r) := s.handles[h].phase;
        MoveInv(s, h, Poisoned);
        if s.requests[r].status.Accepted? { SettleInv(s, h, next, s.requests[r].status.version, live); }
      }
    case LoseReply(h) =>
      if h in s.handles && s.handles[h].phase.Waiting? {
        assert PhaseOk(s, s.handles[h]);
        MoveInv(s, h, Rereading(s.handles[h].phase.next));
      }
    case ReadBack(h, live) =>
      if h in s.handles && s.handles[h].phase.Rereading? {
        assert PhaseOk(s, s.handles[h]);
        SettleInv(s, h, s.handles[h].phase.next, |s.log|, live);
      }
    case Fail(h) => if h in s.handles { MoveInv(s, h, Poisoned); }
  }

  lemma {:induction false} OpenInv(s: State, h: nat, token: U64, leaseUid: string)
    requires Inv(s)
    ensures Inv(Step(s, Open(h, token, leaseUid)))
  {
    var s' := Step(s, Open(h, token, leaseUid));
    forall i | 0 <= i < |s'.log| ensures RevisionOk(s', i) { assert RevisionOk(s, i); }
    forall q | 0 <= q < |s'.requests| ensures RequestOk(s', s'.requests[q]) { assert RequestOk(s, s.requests[q]); }
    forall g | g in s'.handles ensures PhaseOk(s', s'.handles[g]) {
      if g in s.handles { assert PhaseOk(s, s.handles[g]); }
    }
  }

  lemma {:induction false} RunInv(s: State, actions: seq<Action>)
    requires Inv(s)
    ensures Inv(Run(s, actions))
  {
    if actions != [] {
      RunInv(s, actions[..|actions| - 1]);
      StepInv(Run(s, actions[..|actions| - 1]), actions[|actions| - 1]);
    }
  }

  // ---------------------------------------------------------------- theorems

  lemma {:induction false} EpochsRise(s: State, i: nat, j: nat)
    requires Inv(s) && i <= j < |s.log|
    ensures EpochValue(s.log[i].secret) <= EpochValue(s.log[j].secret)
    decreases j
  {
    if i < j {
      EpochsRise(s, i, j - 1);
      assert RevisionOk(s, j);
    }
  }

  function WriterToken(s: State, i: nat): Option<U64>
    requires i < |s.log|
  {
    if s.log[i].origin.Written? && s.log[i].origin.handle in s.handles then Some(s.handles[s.log[i].origin.handle].token)
    else None
  }

  /** In every run the stored epoch never decreases, every revision carries the epoch of the handle
      that wrote it, and so no save or claim of an older epoch lands after a newer claim. */
  lemma {:induction false} EpochsInEveryRun(s0: State, actions: seq<Action>)
    requires Init(s0)
    ensures var s := Run(s0, actions);
            && (forall i, j | 0 <= i <= j < |s.log| :: EpochValue(s.log[i].secret) <= EpochValue(s.log[j].secret))
            && (forall i | 0 <= i < |s.log| && s.log[i].origin.Written? ::
                  WriterToken(s, i) == Some(EpochValue(s.log[i].secret)))
  {
    InitInv(s0);
    RunInv(s0, actions);
    var s := Run(s0, actions);
    forall i, j | 0 <= i <= j < |s.log| ensures EpochValue(s.log[i].secret) <= EpochValue(s.log[j].secret) {
      EpochsRise(s, i, j);
    }
    forall i | 0 <= i < |s.log| && s.log[i].origin.Written?
      ensures WriterToken(s, i) == Some(EpochValue(s.log[i].secret))
    {
      assert RevisionOk(s, i);
    }
  }

  lemma {:induction false} NoOlderEpochAfterClaim(s0: State, actions: seq<Action>, claim: nat, save: nat)
    requires Init(s0) && claim < save < |Run(s0, actions).log|
    requires Run(s0, actions).log[claim].origin.Written? && Run(s0, actions).log[save].origin.Written?
    ensures var s := Run(s0, actions);
            && WriterToken(s, claim).Some? && WriterToken(s, save).Some?
            && WriterToken(s, claim).value <= WriterToken(s, save).value
  {
    EpochsInEveryRun(s0, actions);
  }

  /** In every run each write replaces exactly the Secret its handle had read or last confirmed; a
      claim leaves the journal data alone, and a save stores exactly the state and the evidence it was
      given, changes nothing but the data and stays in its handle's epoch. */
  lemma {:induction false} WritesLoseNothing(s0: State, actions: seq<Action>, v: nat)
    requires Init(s0) && v < |Run(s0, actions).log| && Run(s0, actions).log[v].origin.Written?
    ensures var s := Run(s0, actions);
            var Written(h, kind, seen) := s.log[v].origin;
            && 0 < v && h in s.handles
            && s.log[v - 1].secret == seen
            && BoundTo(s.log[v].secret, s.handles[h])
            && match kind
               case Claiming => s.log[v].secret.data == seen.data
               case Saving(state, evidence) =>
                 && BoundTo(seen, s.handles[h]) && s.log[v].secret == seen.(data := s.log[v].secret.data)
                 && s.log[v].secret.data == Some(
                      if evidence.Some? then map[StateField := state, EvidenceField := evidence.value]
                      else map[StateField := state])
  {
    InitInv(s0);
    RunInv(s0, actions);
    assert RevisionOk(Run(s0, actions), v);
    var kind := Run(s0, actions).log[v].origin.kind;
    if kind.Saving? { HeldData(Run(s0, actions).log[v].secret, kind.state, kind.evidence); }
  }

  lemma {:induction false} HeldData(secret: Secret, state: Data, evidence: Option<Data>)
    requires Holds(secret, state, evidence)
    ensures secret.data == Some(
              if evidence.Some? then map[StateField := state, EvidenceField := evidence.value] else map[StateField := state])
  {
    if evidence.Some? {
      assert secret.data.value == map[StateField := state, EvidenceField := evidence.value];
    } else {
      assert secret.data.value == map[StateField := state];
    }
  }

  /** Once claimed, the journal stays bound to one Lease, whoever writes later. */
  lemma {:induction false} OneLeaseForever(s: State, i: nat, j: nat)
    requires Inv(s) && i <= j < |s.log| && s.log[i].origin.Written?
    ensures Annotation(s.log[i].secret, LeaseUid).Some?
    ensures Annotation(s.log[j].secret, LeaseUid) == Annotation(s.log[i].secret, LeaseUid)
    decreases j
  {
    assert RevisionOk(s, i);
    if i < j {
      OneLeaseForever(s, i, j - 1);
      assert RevisionOk(s, j);
    }
  }

  function SentBy(requests: seq<Request>, h: nat): nat {
    if requests == [] then 0
    else SentBy(requests[..|requests| - 1], h) + (if requests[|requests| - 1].handle == h then 1 else 0)
  }

  lemma {:induction false} SentByUpdate(requests: seq<Request>, r: nat, status: Status, h: nat)
    requires r < |requests|
    ensures SentBy(requests[r := requests[r].(status := status)], h) == SentBy(requests, h)
    decreases |requests|
  {
    var updated := requests[r := requests[r].(status := status)];
    var n := |requests| - 1;
    if r < n {
      SentByUpdate(requests[..n], r, status, h);
      assert updated[..n] == requests[..n][r := requests[..n][r].(status := status)];
    } else {
      assert updated[..n] == requests[..n];
    }
  }

  lemma {:induction false} OtherStepsSendNothing(s: State, action: Action)
    requires !action.Land? && !action.SendUpdate?
    ensures Step(s, action).requests == s.requests
  {
  }

  /** A handle sends nothing unless it is storing an update. */
  lemma {:induction false} OnlyStoringSends(s: State, action: Action, h: nat)
    requires h in s.handles && !s.handles[h].phase.Storing?
    ensures SentBy(Step(s, action).requests, h) == SentBy(s.requests, h)
  {
    var s' := Step(s, action);
    if action.Land? && s' != s {
      SentByUpdate(s.requests, action.request, s'.requests[action.request].status, h);
    } else if action.SendUpdate? && s' != s {
      assert s'.requests[..|s'.requests| - 1] == s.requests;
    } else if s' != s {
      OtherStepsSendNothing(s, action);
    }
  }

  lemma {:induction false} PoisonStays(s: State, action: Action, h: nat)
    requires h in s.handles && s.handles[h].phase.Poisoned?
    ensures h in Step(s, action).handles && Step(s, action).handles[h] == s.handles[h]
  {
  }

  /** A handle whose update attempt failed, was refused, was cancelled or could not be confirmed
      stays poisoned and never sends another write. */
  lemma {:induction false} PoisonIsForever(s: State, actions: seq<Action>, h: nat)
    requires h in s.handles && s.handles[h].phase.Poisoned?
    ensures var s' := Run(s, actions);
            h in s'.handles && s'.handles[h].phase.Poisoned? && SentBy(s'.requests, h) == SentBy(s.requests, h)
  {
    if actions != [] {
      var front, last := actions[..|actions| - 1], actions[|actions| - 1];
      PoisonIsForever(s, front, h);
      PoisonStays(Run(s, front), last, h);
      OnlyStoringSends(Run(s, front), last, h);
    }
  }

  /** Where a handle is while its update is not known to be stored. */
  predicate Unconfirmed(handle: Handle, next: Secret, request: nat) {
    handle.phase == Waiting(next, request) || handle.phase == Rereading(next) || handle.phase == Poisoned
  }

  /** The handle has learned that its update is stored exactly. */
  predicate Confirmed(s: State, h: nat, next: Secret) {
    h in s.handles && s.handles[h].phase.Ready? && StoredExactly(s.handles[h].phase.secret, next, s.name)
  }

  lemma {:induction false} UnconfirmedStays(s: State, action: Action, h: nat, next: Secret, r: nat)
    requires h in s.handles && Unconfirmed(s.handles[h], next, r)
    ensures var s' := Step(s, action);
            h in s'.handles && (Unconfirmed(s'.handles[h], next, r) || Confirmed(s', h, next))
  {
  }

  /** Once a handle has sent an update it sends nothing more, whatever happens, unless it learns at
      some point that this very update is stored exactly; until then it waits, rereads or is poisoned. */
  lemma {:induction false} NothingMoreUnlessConfirmed(s: State, actions: seq<Action>, h: nat, next: Secret, r: nat)
    requires h in s.handles && Unconfirmed(s.handles[h], next, r)
    ensures var s' := Run(s, actions);
            || (h in s'.handles && Unconfirmed(s'.handles[h], next, r) && SentBy(s'.requests, h) == SentBy(s.requests, h))
            || exists n | 0 <= n <= |actions| :: Confirmed(Run(s, actions[..n]), h, next)
  {
    if actions != [] {
      var front, last := actions[..|actions| - 1], actions[|actions| - 1];
      NothingMoreUnlessConfirmed(s, front, h, next, r);
      if n :| 0 <= n <= |front| && Confirmed(Run(s, front[..n]), h, next) {
        assert front[..n] == actions[..n];
      } else {
        OnlyStoringSends(Run(s, front), last, h);
        UnconfirmedStays(Run(s, front), last, h, next, r);
        assert actions[..|actions|] == actions;
      }
    }
  }

  /** The same from the moment a handle attempts its update. */
  lemma {:induction false} AttemptIsLastUnlessConfirmed(s: State, actions: seq<Action>, h: nat)
    requires h in s.handles && s.handles[h].phase.Storing?
    ensures var next, sent := s.handles[h].phase.next, Step(s, SendUpdate(h));
            var s' := Run(sent, actions);
            || (h in s'.handles && Unconfirmed(s'.handles[h], next, |s.requests|)
                && SentBy(s'.requests, h) == SentBy(s.requests, h) + 1)
            || exists n | 0 <= n <= |actions| :: Confirmed(Run(sent, actions[..n]), h, next)
  {
    var next, sent := s.handles[h].phase.next, Step(s, SendUpdate(h));
    assert sent.requests[..|s.requests|] == s.requests;
    NothingMoreUnlessConfirmed(sent, actions, h, next, |s.requests|);
  }
}
