/** What the bootstrap journal holds: the bytes of the last save, asked for by its handle. */
module JournalSaves {
  import opened Prelude
  import opened Numerals
  import opened BootstrapJournal

  // ---------------------------------------------------------------- saves are asked for

  predicate KindAsked(h: nat, kind: Kind, actions: seq<Action>) {
    kind.Saving? ==> Save(h, kind.state, kind.evidence) in actions
  }

  /** Every save on its way or in the log was asked for by its handle, with these bytes. */
  predicate Asked(s: State, actions: seq<Action>) {
    && (forall i | 0 <= i < |s.log| && s.log[i].origin.Written? ::
          KindAsked(s.log[i].origin.handle, s.log[i].origin.kind, actions))
    && (forall r | 0 <= r < |s.requests| :: KindAsked(s.requests[r].handle, s.requests[r].kind, actions))
    && (forall h | h in s.handles && s.handles[h].phase.Storing? :: KindAsked(h, s.handles[h].phase.kind, actions))
  }

  lemma {:induction false} AskedEarlier(s: State, front: seq<Action>, actions: seq<Action>)
    requires Asked(s, front) && forall a | a in front :: a in actions
    ensures Asked(s, actions)
  {
  }

  lemma {:induction false} StepAsked(s: State, action: Action, actions: seq<Action>)
    requires Asked(s, actions) && action in actions
    ensures Asked(Step(s, action), actions)
  {
  }

  lemma {:induction false} RunAsked(s0: State, actions: seq<Action>)
    requires Init(s0)
    ensures Asked(Run(s0, actions), actions)
  {
    if actions != [] {
      var front, last := actions[..|actions| - 1], actions[|actions| - 1];
      RunAsked(s0, front);
      AskedEarlier(Run(s0, front), front, actions);
      StepAsked(Run(s0, front), last, actions);
    }
  }

  /** In every run, what a save stored was given to a save of that very handle. */
  lemma {:induction false} SavesWereAsked(s0: State, actions: seq<Action>, v: nat)
    requires Init(s0) && v < |Run(s0, actions).log|
    requires Run(s0, actions).log[v].origin.Written? && Run(s0, actions).log[v].origin.kind.Saving?
    ensures var origin := Run(s0, actions).log[v].origin;
            Save(origin.handle, origin.kind.state, origin.kind.evidence) in actions
  {
    RunAsked(s0, actions);
  }

  // ---------------------------------------------------------------- the last save is what is read

  predicate Saves(revision: Revision) {
    revision.origin.Written? && revision.origin.kind.Saving?
  }

  /** In every run the journal holds exactly the bytes of the last save, across any number of claims. */
  lemma {:induction false} LastSaveIsHeld(s0: State, actions: seq<Action>, save: nat, v: nat)
    requires Init(s0) && save <= v < |Run(s0, actions).log| && Saves(Run(s0, actions).log[save])
    requires forall k | save < k <= v :: !Saves(Run(s0, actions).log[k])
    ensures var s := Run(s0, actions);
            var Saving(state, evidence) := s.log[save].origin.kind;
            s.log[v].secret.data == Some(
              if evidence.Some? then map[StateField := state, EvidenceField := evidence.value]
              else map[StateField := state])
    decreases v
  {
    InitInv(s0);
    RunInv(s0, actions);
    assert RevisionOk(Run(s0, actions), v);
    if save < v { LastSaveIsHeld(s0, actions, save, v - 1); } else { WritesLoseNothing(s0, actions, v); }
  }

  /** Before the first save the journal holds what it was declared with. */
  lemma {:induction false} UnsavedIsDeclared(s0: State, actions: seq<Action>, v: nat)
    requires Init(s0) && v < |Run(s0, actions).log|
    requires forall k | 0 <= k <= v :: !Saves(Run(s0, actions).log[k])
    ensures Run(s0, actions).log[v].secret.data == Run(s0, actions).log[0].secret.data
    decreases v
  {
    InitInv(s0);
    RunInv(s0, actions);
    assert RevisionOk(Run(s0, actions), v);
    if v > 0 { UnsavedIsDeclared(s0, actions, v - 1); }
  }

  /** In every run a handle that is ready knows a stored revision with its own epoch, so what it
      reports as the state is the state last saved up to that revision. */
  lemma {:induction false} ReadyHandleKnows(s0: State, actions: seq<Action>, h: nat)
    requires Init(s0) && h in Run(s0, actions).handles && Run(s0, actions).handles[h].phase.Ready?
    ensures var s := Run(s0, actions);
            var Ready(version, secret) := s.handles[h].phase;
            && 1 <= version <= |s.log| && s.log[version - 1].secret == secret
            && EpochOf(secret) == Some(s.handles[h].token)
            && Annotation(secret, LeaseUid) == Some(s.handles[h].leaseUid)
  {
    InitInv(s0);
    RunInv(s0, actions);
    assert PhaseOk(Run(s0, actions), Run(s0, actions).handles[h]);
  }

  /** Nothing but a save of its own moves a ready handle, and only one with acceptable bytes. */
  lemma {:induction false} ReadyStays(s: State, action: Action, h: nat)
    requires h in s.handles && s.handles[h].phase.Ready?
    ensures var s' := Step(s, action);
            && h in s'.handles
            && (s'.handles[h] != s.handles[h] ==>
                  && action.Save? && action.handle == h && action.state != [] && action.evidence != Some([])
                  && s'.handles[h].phase.Storing?)
  {
  }

  // ---------------------------------------------------------------- confirmation

  /** A confirmed update is stored: the handle's Secret is a revision of the log that has the data,
      the identity and all four ownership notes that were sent. */
  lemma {:induction false} ConfirmedMeans(s: State, h: nat, next: Secret)
    requires Inv(s) && Confirmed(s, h, next)
    ensures var Ready(version, secret) := s.handles[h].phase;
            && 1 <= version <= |s.log| && s.log[version - 1].secret == secret
            && secret.uid == next.uid && secret.data == next.data
            && (forall note | note in {Owner, SecretUid, LeaseUid, Epoch} :: Annotation(secret, note) == Annotation(next, note))
            && EpochOf(secret) == EpochOf(next) == Some(s.handles[h].token)
  {
    assert PhaseOk(s, s.handles[h]);
  }

  /** After a lost reply the handle is ready again exactly when the newest revision is valid and has the
      data, the identity and the ownership notes that were sent; otherwise it is poisoned. */
  lemma {:induction false} LostReplyReconciled(s: State, h: nat)
    requires Inv(s) && h in s.handles && s.handles[h].phase.Waiting? && s.log != []
    ensures var s' := Step(Step(s, LoseReply(h)), ReadBack(h, true));
            var next, newest := s.handles[h].phase.next, s.log[|s.log| - 1].secret;
            && s'.log == s.log && h in s'.handles
            && s'.handles[h].phase ==
               if && ValidSecret(newest, s.name) && newest.uid == next.uid && newest.data == next.data
                  && forall note | note in {Owner, SecretUid, LeaseUid, Epoch} :: Annotation(newest, note) == Annotation(next, note)
               then Ready(|s.log|, newest) else Poisoned
  {
    var next, newest := s.handles[h].phase.next, s.log[|s.log| - 1].secret;
    if forall note | note in {Owner, SecretUid, LeaseUid, Epoch} :: Annotation(newest, note) == Annotation(next, note) {
      assert Owner in {Owner, SecretUid, LeaseUid, Epoch} && SecretUid in {Owner, SecretUid, LeaseUid, Epoch};
      assert LeaseUid in {Owner, SecretUid, LeaseUid, Epoch} && Epoch in {Owner, SecretUid, LeaseUid, Epoch};
    }
  }

  // ---------------------------------------------------------------- undisturbed handles

  /** A Secret is a valid journal exactly when it is the declared one, marked as a journal, mutable,
      opaque, not being deleted, and holds no fields but a non-empty state of at most 512 KiB together
      with evidence that never stands alone. */
  lemma {:induction false} ValidExactly(secret: Secret, name: string)
    ensures ValidSecret(secret, name) <==>
            && secret.uid.Some? && secret.uid != Some("") && secret.name == Some(name) && name != ""
            && secret.notes.Some? && Owner in secret.notes.value && secret.notes.value[Owner] == "v1"
            && !secret.immutable && secret.opaqueType && !secret.deleting && !secret.hasStringData
            && (|| secret.data == None || secret.data == Some(map[])
                || (exists state :: && secret.data == Some(map[StateField := state]) && 0 < |state| <= 524288)
                || (exists state, evidence ::
                      && secret.data == Some(map[StateField := state, EvidenceField := evidence])
                      && 0 < |state| && 0 < |evidence| && |state| + |evidence| <= 524288))
  {
    if secret.data.Some? { DataExactly(secret.data.value); }
  }

  lemma {:induction false} DataExactly(data: map<Field, Data>)
    ensures && (forall field | field in data :: field in {StateField, EvidenceField} && data[field] != [])
            && (EvidenceField in data ==> StateField in data)
            && FieldBytes(data) <= MAX_JOURNAL_BYTES
            <==>
            (|| data == map[]
             || (exists state :: data == map[StateField := state] && 0 < |state| <= 524288)
             || (exists state, evidence ::
                   && data == map[StateField := state, EvidenceField := evidence]
                   && 0 < |state| && 0 < |evidence| && |state| + |evidence| <= 524288))
  {
    if forall field | field in data :: field in {StateField, EvidenceField} {
      if StateField in data && EvidenceField in data {
        assert data == map[StateField := data[StateField], EvidenceField := data[EvidenceField]];
      } else if StateField in data {
        assert data == map[StateField := data[StateField]];
      } else if EvidenceField !in data {
        assert data == map[];
      }
    }
  }

  /** A Secret may be claimed exactly when it is valid and annotated and either untouched or bound to
      its own UID, to this Lease and to an epoch, written in canonical decimal, that is not newer. */
  lemma {:induction false} ClaimableExactly(secret: Secret, name: string, token: U64, leaseUid: string)
    ensures MayClaim(secret, name, token, leaseUid) <==>
            && ValidSecret(secret, name) && secret.notes.Some?
            && (|| (&& SecretUid !in secret.notes.value && LeaseUid !in secret.notes.value && Epoch !in secret.notes.value
                    && (secret.data == None || secret.data == Some(map[])))
                || (&& Annotation(secret, SecretUid) == secret.uid && Annotation(secret, LeaseUid) == Some(leaseUid)
                    && exists epoch: U64 | 0 < epoch <= token :: Annotation(secret, Epoch) == Some(Decimal(epoch))))
  {
    if exists epoch: U64 | 0 < epoch <= token :: Annotation(secret, Epoch) == Some(Decimal(epoch)) {
      var epoch: U64 :| 0 < epoch <= token && Annotation(secret, Epoch) == Some(Decimal(epoch));
      DecimalRoundTrip(epoch);
    }
  }

  /** An update that is sent, reaches the server before anything else and is answered. */
  lemma {:induction false} Delivered(s: State, h: nat)
    requires h in s.handles && s.handles[h].phase.Storing? && s.log != []
    ensures var s' := Step(Step(Step(s, SendUpdate(h)), Land(|s.requests|)), Reply(h, true));
            var Storing(kind, seen, next, basis) := s.handles[h].phase;
            && h in s'.handles
            && if basis == |s.log| then
                 && s'.log == s.log + [Revision(next, Written(h, kind, seen))]
                 && s'.handles[h].phase == if StoredExactly(next, next, s.name) then Ready(|s.log| + 1, next) else Poisoned
               else s'.log == s.log && s'.handles[h].phase == Poisoned
  {
  }

  /** An undisturbed claim: it succeeds exactly when the current Secret may be claimed, and then the
      new revision differs from the current one in its three ownership notes only. */
  lemma {:induction false} UndisturbedClaim(s: State, h: nat, token: U64, leaseUid: string)
    requires Inv(s) && h !in s.handles && leaseUid != "" && s.log != []
    ensures var read := Step(Step(s, Open(h, token, leaseUid)), ReadForClaim(h));
            var s' := Step(Step(Step(read, SendUpdate(h)), Land(|s.requests|)), Reply(h, true));
            var current := s.log[|s.log| - 1].secret;
            && h in s'.handles
            && if MayClaim(current, s.name, token, leaseUid) then
                 && |s'.log| == |s.log| + 1 && s'.log[..|s.log|] == s.log
                 && var stored := s'.log[|s.log|].secret;
                 && s'.handles[h].phase == Ready(|s'.log|, stored)
                 && stored.(notes := current.notes) == current && stored.notes.Some?
                 && (forall note | note !in {SecretUid, LeaseUid, Epoch} :: Annotation(stored, note) == Annotation(current, note))
                 && Annotation(stored, SecretUid) == current.uid && Annotation(stored, LeaseUid) == Some(leaseUid)
                 && Annotation(stored, Epoch) == Some(Decimal(token))
               else s'.handles[h].phase == Poisoned && s'.log == s.log
  {
    var read := Step(Step(s, Open(h, token, leaseUid)), ReadForClaim(h));
    if MayClaim(s.log[|s.log| - 1].secret, s.name, token, leaseUid) { Delivered(read, h); }
  }

  /** An undisturbed save: bytes that are empty or too many leave the handle as it is; otherwise it
      stores exactly the bytes when no other revision came first, and is refused when one did. */
  lemma {:induction false} UndisturbedSave(s: State, h: nat, state: Data, evidence: Option<Data>)
    requires Inv(s) && h in s.handles && s.handles[h].phase.Ready?
    ensures var asked := Step(s, Save(h, state, evidence));
            var s' := Step(Step(Step(asked, SendUpdate(h)), Land(|s.requests|)), Reply(h, true));
            var Ready(version, secret) := s.handles[h].phase;
            var size := |state| + if evidence.Some? then |evidence.value| else 0;
            && h in s'.handles
            && if state == [] || evidence == Some([]) || size > 512 * 1024 then asked == s
               else if version == |s.log| then
                 && |s'.log| == |s.log| + 1 && s'.log[..|s.log|] == s.log
                 && var stored := s'.log[|s.log|].secret;
                 && s'.handles[h].phase == Ready(|s'.log|, stored)
                 && stored.(data := secret.data) == secret
                 && stored.data == Some(
                      if evidence.Some? then map[StateField := state, EvidenceField := evidence.value]
                      else map[StateField := state])
               else s'.handles[h].phase == Poisoned && s'.log == s.log
  {
    var asked := Step(s, Save(h, state, evidence));
    assert PhaseOk(s, s.handles[h]);
    if SaveAccepted(state, evidence) { Delivered(asked, h); }
  }
}
