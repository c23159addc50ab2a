/** The frame decoder, field by field and record by record, proved to decode exactly as specified. */
module RunDecoder {
  import opened Prelude
  import opened Order
  import opened RunModel
  import opened RunRecords
  import opened Projections
  import opened RunFrames
  import opened Canonical
  import opened RunTables
  import opened RunScan
  import opened RunProgress
  import opened RunFinish
  import opened Spans

  // ---------------------------------------------------------------- one more record

  ghost predicate NsStepOk(c: Common, t: Tables, nss: seq<NsRecord>, r: NsRecord) {
    && NsOk(c, t, r)
    && (nss != [] ==> KeyLess(NsKey(Last(nss)), NsKey(r)))
    && NsAt(nss, r.ordinal).None?
  }

  lemma {:induction false} NsListSnoc(c: Common, t: Tables, nss: seq<NsRecord>, r: NsRecord)
    ensures NsListOk(c, t, nss + [r]) <==> NsListOk(c, t, nss) && NsStepOk(c, t, nss, r)
  {
    var longer := nss + [r];
    assert NsKeys(longer) == NsKeys(nss) + [NsKey(r)];
    AscendingAppend(NsKeys(nss), NsKey(r));
    assert forall i | 0 <= i < |nss| :: longer[i] == nss[i];
    assert longer[|nss|] == r;
    if NsAt(nss, r.ordinal).Some? {
      var j :| 0 <= j < |nss| && nss[j] == NsAt(nss, r.ordinal).value;
      assert longer[j].ordinal == longer[|nss|].ordinal;
    }
  }

  lemma {:induction false} NsStop(c: Common, t: Tables, nss: seq<NsRecord>, more: seq<NsRecord>, j: nat)
    requires j < |more| && !NsStepOk(c, t, nss + more[..j], more[j])
    ensures !NsListOk(c, t, nss + more)
  {
    var upTo := nss + more[..j] + [more[j]];
    assert nss + more == upTo + more[j + 1..];
    NsListSnoc(c, t, nss + more[..j], more[j]);
    if NsListOk(c, t, nss + more) { NsListPrefix(c, t, upTo, more[j + 1..]); }
  }

  ghost predicate LsStepOk(c: Common, t: Tables, nss: seq<NsRecord>, lss: seq<LsRecord>, r: LsRecord) {
    && LsOk(c, t, nss, r)
    && (lss != [] ==> KeyLess(LsKey(Last(lss)), LsKey(r)))
    && LsAt(lss, r.ordinal).None?
  }

  lemma {:induction false} LsListSnoc(c: Common, t: Tables, nss: seq<NsRecord>, lss: seq<LsRecord>, r: LsRecord)
    ensures LsListOk(c, t, nss, lss + [r]) <==> LsListOk(c, t, nss, lss) && LsStepOk(c, t, nss, lss, r)
  {
    var longer := lss + [r];
    assert LsKeys(longer) == LsKeys(lss) + [LsKey(r)];
    AscendingAppend(LsKeys(lss), LsKey(r));
    assert forall i | 0 <= i < |lss| :: longer[i] == lss[i];
    assert longer[|lss|] == r;
    if LsAt(lss, r.ordinal).Some? {
      var j :| 0 <= j < |lss| && lss[j] == LsAt(lss, r.ordinal).value;
      assert longer[j].ordinal == longer[|lss|].ordinal;
    }
  }

  lemma {:induction false} LsStop(
      c: Common, t: Tables, nss: seq<NsRecord>, lss: seq<LsRecord>, more: seq<LsRecord>, j: nat)
    requires j < |more| && !LsStepOk(c, t, nss, lss + more[..j], more[j])
    ensures !LsListOk(c, t, nss, lss + more)
  {
    var upTo := lss + more[..j] + [more[j]];
    assert lss + more == upTo + more[j + 1..];
    LsListSnoc(c, t, nss, lss + more[..j], more[j]);
    if LsListOk(c, t, nss, lss + more) { LsListPrefix(c, t, nss, upTo, more[j + 1..]); }
  }

  lemma {:induction false} NsAtSnoc(nss: seq<NsRecord>, r: NsRecord, o: nat)
    ensures NsAt(nss + [r], o) == if o == r.ordinal then Some(r) else NsAt(nss, o)
  {
    assert (nss + [r])[..|nss|] == nss;
  }

  lemma {:induction false} LsAtSnoc(lss: seq<LsRecord>, r: LsRecord, o: nat)
    ensures LsAt(lss + [r], o) == if o == r.ordinal then Some(r) else LsAt(lss, o)
  {
    assert (lss + [r])[..|lss|] == lss;
  }

  // ---------------------------------------------------------------- what is used

  ghost function UsedNames(nss: seq<NsRecord>): set<nat> {
    set j | 0 <= j < |nss| :: nss[j].key
  }

  predicate NamesPack(r: NsRecord) {
    r.NsUpsert? && r.payload.InPack?
  }

  predicate NamesStream(r: NsRecord) {
    r.NsUpsert? && r.payload.InStream?
  }

  predicate NamesSelf(r: NsRecord) {
    r.NsUpsert? && r.payload.InSelf?
  }

  ghost function UsedPacks(nss: seq<NsRecord>): set<nat> {
    set j | 0 <= j < |nss| && NamesPack(nss[j]) :: nss[j].payload.container
  }

  ghost function UsedStreams(nss: seq<NsRecord>): set<nat> {
    set j | 0 <= j < |nss| && NamesStream(nss[j]) :: nss[j].payload.container
  }

  ghost predicate UsesOwn(nss: seq<NsRecord>) {
    exists j | 0 <= j < |nss| :: NamesSelf(nss[j])
  }

  lemma {:induction false} UsedSnoc(nss: seq<NsRecord>, r: NsRecord)
    ensures UsedNames(nss + [r]) == UsedNames(nss) + {r.key}
    ensures UsedPacks(nss + [r]) ==
            if NamesPack(r) then UsedPacks(nss) + {r.payload.container} else UsedPacks(nss)
    ensures UsedStreams(nss + [r]) ==
            if NamesStream(r) then UsedStreams(nss) + {r.payload.container} else UsedStreams(nss)
    ensures UsesOwn(nss + [r]) <==> UsesOwn(nss) || NamesSelf(r)
  {
    var longer := nss + [r];
    assert longer[|nss|] == r && forall j | 0 <= j < |nss| :: longer[j] == nss[j];
  }

  ghost predicate Used(
      names: set<nat>, packs: set<nat>, streams: set<nat>, usesSelf: bool, nss: seq<NsRecord>)
  {
    names == UsedNames(nss) && packs == UsedPacks(nss) && streams == UsedStreams(nss) && (usesSelf <==> UsesOwn(nss))
  }

  ghost function LastNs(nss: seq<NsRecord>): Option<Key> {
    if nss == [] then None else Some(NsKey(Last(nss)))
  }

  ghost function LastLs(lss: seq<LsRecord>): Option<Key> {
    if lss == [] then None else Some(LsKey(Last(lss)))
  }

  // ---------------------------------------------------------------- slots

  /** A namespace record waits in its slot until its listing record takes it. */
  ghost predicate NsSlot(namespace: seq<Option<NsRecord>>, nss: seq<NsRecord>, lss: seq<LsRecord>, o: nat)
    requires o < |namespace|
  {
    namespace[o] == if LsAt(lss, o).Some? then None else NsAt(nss, o)
  }

  ghost predicate MutationSlot(
      mutations: seq<Option<Mutation>>, t: Tables, nss: seq<NsRecord>, lss: seq<LsRecord>, o: nat)
    requires o < |mutations|
  {
    mutations[o] == if LsAt(lss, o).Some? then Paired(t, nss, lss, o) else None
  }

  /** The slots of both projections stand for the records read. */
  ghost predicate Slotted(
      count: nat, namespace: seq<Option<NsRecord>>, mutations: seq<Option<Mutation>>, t: Tables,
      nss: seq<NsRecord>, lss: seq<LsRecord>)
  {
    && |namespace| == |mutations| == count
    && (forall o | 0 <= o < count :: NsSlot(namespace, nss, lss, o))
    && (forall o | 0 <= o < count :: MutationSlot(mutations, t, nss, lss, o))
  }

  lemma {:induction false} SlottedNs(
      count: nat, namespace: seq<Option<NsRecord>>, mutations: seq<Option<Mutation>>, t: Tables,
      nss: seq<NsRecord>, r: NsRecord)
    requires Slotted(count, namespace, mutations, t, nss, []) && r.ordinal < count
    ensures Slotted(count, namespace[r.ordinal := Some(r)], mutations, t, nss + [r], [])
  {
    var after, longer := namespace[r.ordinal := Some(r)], nss + [r];
    forall o | 0 <= o < count ensures NsSlot(after, longer, [], o) {
      NsAtSnoc(nss, r, o);
      assert NsSlot(namespace, nss, [], o);
    }
    forall o | 0 <= o < count ensures MutationSlot(mutations, t, longer, [], o) {
      assert MutationSlot(mutations, t, nss, [], o);
    }
  }

  lemma {:induction false} SlottedEmpty(count: nat, t: Tables)
    ensures Slotted(count, seq(count, _ => None), seq(count, _ => None), t, [], [])
  {
  }

  /** Everything the projection slots hold. */
  datatype Slots = Slots(
    namespace: seq<Option<NsRecord>>, mutations: seq<Option<Mutation>>,
    previousNs: Option<Key>, previousLs: Option<Key>,
    usedNames: set<nat>, usedPacks: set<nat>, usedStreams: set<nat>, usesSelf: bool)

  const NO_SLOTS := Slots([], [], None, None, {}, {}, {}, false)

  /** The slots stand for accepted record lists. */
  ghost predicate Represents(c: Common, t: Tables, x: Slots, nss: seq<NsRecord>, lss: seq<LsRecord>) {
    && Used(x.usedNames, x.usedPacks, x.usedStreams, x.usesSelf, nss)
    && x.previousNs == LastNs(nss) && x.previousLs == LastLs(lss)
    && Slotted(c.count, x.namespace, x.mutations, t, nss, lss)
    && NsListOk(c, t, nss) && LsListOk(c, t, nss, lss)
  }

  /** A namespace record in its slot, its uses noted. */
  function NsFiled(x: Slots, r: NsRecord): Slots
    requires r.ordinal < |x.namespace|
  {
    x.(namespace := x.namespace[r.ordinal := Some(r)], previousNs := Some(NsKey(r)),
       usedNames := x.usedNames + {r.key},
       usedPacks := if NamesPack(r) then x.usedPacks + {r.payload.container} else x.usedPacks,
       usedStreams := if NamesStream(r) then x.usedStreams + {r.payload.container} else x.usedStreams,
       usesSelf := x.usesSelf || NamesSelf(r))
  }

  lemma {:induction false} NsFiledRepresents(c: Common, t: Tables, x: Slots, nss: seq<NsRecord>, r: NsRecord)
    requires Represents(c, t, x, nss, []) && NsStepOk(c, t, nss, r)
    ensures Represents(c, t, NsFiled(x, r), nss + [r], [])
  {
    UsedSnoc(nss, r);
    SlottedNs(c.count, x.namespace, x.mutations, t, nss, r);
    NsListSnoc(c, t, nss, r);
    NothingListed(c, t, nss + [r]);
  }

  /** A listing record pairs: its mutation is filed and the waiting namespace record is taken. */
  function LsFiled(x: Slots, r: LsRecord, m: Mutation): Slots
    requires r.ordinal < |x.namespace| == |x.mutations|
  {
    x.(namespace := x.namespace[r.ordinal := None], mutations := x.mutations[r.ordinal := Some(m)],
       previousLs := Some(LsKey(r)))
  }

  lemma {:induction false} LsFiledRepresents(
      c: Common, t: Tables, x: Slots, nss: seq<NsRecord>, lss: seq<LsRecord>, r: LsRecord, m: Mutation)
    requires Represents(c, t, x, nss, lss) && LsStepOk(c, t, nss, lss, r)
    requires PairUp(t.names, NsAt(nss, r.ordinal).value, r) == Some(m)
    ensures Represents(c, t, LsFiled(x, r, m), nss, lss + [r])
  {
    SlottedLs(c.count, x, t, nss, lss, r, m);
    LsListSnoc(c, t, nss, lss, r);
  }

  lemma {:induction false} SlottedLs(
      count: nat, x: Slots, t: Tables, nss: seq<NsRecord>, lss: seq<LsRecord>, r: LsRecord, m: Mutation)
    requires Slotted(count, x.namespace, x.mutations, t, nss, lss) && r.ordinal < count
    requires NsAt(nss, r.ordinal).Some? && NsAt(nss, r.ordinal).value.key < |t.names|
    requires PairUp(t.names, NsAt(nss, r.ordinal).value, r) == Some(m)
    ensures Slotted(count, LsFiled(x, r, m).namespace, LsFiled(x, r, m).mutations, t, nss, lss + [r])
  {
    var y, longer := LsFiled(x, r, m), lss + [r];
    forall o | 0 <= o < count ensures NsSlot(y.namespace, nss, longer, o) {
      LsAtSnoc(lss, r, o);
      assert NsSlot(x.namespace, nss, lss, o);
    }
    forall o | 0 <= o < count ensures MutationSlot(y.mutations, t, nss, longer, o) {
      LsAtSnoc(lss, r, o);
      assert MutationSlot(x.mutations, t, nss, lss, o);
    }
  }

  /** A mutation slot is filled exactly when its listing record was read. */
  lemma {:induction false} TakenSlot(c: Common, t: Tables, nss: seq<NsRecord>, lss: seq<LsRecord>, o: nat)
    requires LsListOk(c, t, nss, lss)
    ensures LsAt(lss, o).Some? ==> Paired(t, nss, lss, o).Some?
  {
    if LsAt(lss, o).Some? {
      var j :| 0 <= j < |lss| && lss[j] == LsAt(lss, o).value;
      assert LsOk(c, t, nss, lss[j]);
    }
  }

  lemma {:induction false} WaitingKey(c: Common, t: Tables, nss: seq<NsRecord>, o: nat)
    requires NsListOk(c, t, nss) && NsAt(nss, o).Some?
    ensures NsAt(nss, o).value.key < |t.names|
  {
    var j :| 0 <= j < |nss| && nss[j] == NsAt(nss, o).value;
    assert NsOk(c, t, nss[j]);
  }

  // ---------------------------------------------------------------- the decoder

  class FrameDecoder {
    var tables: Tables
    var selfPack: Option<SelfPack>
    var sawSelfPack: bool
    var declared: Option<nat>
    var slots: Slots
    var sawNamespace: bool
    var sawListing: bool
    ghost var nss: seq<NsRecord>
    ghost var lss: seq<LsRecord>

    constructor ()
      ensures tables == NO_TABLES && declared == None && !sawSelfPack && !sawListing && Unfilled()
    {
      tables, slots := NO_TABLES, NO_SLOTS;
      selfPack, sawSelfPack, declared := None, false, None;
      sawNamespace, sawListing := false, false;
      nss, lss := [], [];
    }

    function PackSeen(): Option<Option<SelfPack>>
      reads this
    {
      if sawSelfPack then Some(selfPack) else None
    }

    /** The slots stand for the records read. */
    ghost predicate Filled(c: Common)
      reads this
    {
      sawNamespace && selfPack == c.pack && Represents(c, tables, slots, nss, lss)
    }

    ghost predicate Unfilled()
      reads this
    {
      !sawNamespace && nss == [] && lss == [] && slots == NO_SLOTS
    }

    /** Reads the records of one metadata frame into the tables. */
    method DecodeMetadata(limits: Limits, h: Header, ms: seq<Meta>) returns (ok: bool)
      requires h.role.Metadata?
      modifies this`declared, this`selfPack, this`sawSelfPack, this`tables
      ensures ok <==> MetaFactsOk(old(declared), old(PackSeen()), h)
                      && AddMetas(limits, h.role.keyCount, old(tables), ms).Some?
      ensures ok ==> declared == Some(h.role.keyCount) && PackSeen() == Some(h.role.pack)
      ensures ok ==> AddMetas(limits, h.role.keyCount, old(tables), ms) == Some(tables)
    {
      if !MetaFactsOk(declared, PackSeen(), h) { return false; }
      declared, selfPack, sawSelfPack := Some(h.role.keyCount), h.role.pack, true;
      ok := AddRecords(limits, h.role.keyCount, ms);
    }

    method AddRecords(limits: Limits, keyCount: nat, ms: seq<Meta>) returns (ok: bool)
      modifies this`tables
      ensures ok <==> AddMetas(limits, keyCount, old(tables), ms).Some?
      ensures ok ==> AddMetas(limits, keyCount, old(tables), ms) == Some(tables)
    {
      for j := 0 to |ms|
        invariant AddMetas(limits, keyCount, tables, ms[j..]) == AddMetas(limits, keyCount, old(tables), ms)
      {
        assert ms[j..][0] == ms[j] && ms[j..][1..] == ms[j + 1..];
        ok := AddRecord(limits, keyCount, ms[j]);
        if !ok { return; }
      }
      ok := true;
    }

    method AddRecord(limits: Limits, keyCount: nat, m: Meta) returns (ok: bool)
      modifies this`tables
      ensures ok <==> AddMeta(limits, keyCount, old(tables), m).Some?
      ensures ok ==> AddMeta(limits, keyCount, old(tables), m) == Some(tables)
    {
      if tables.receipt.Some? { return false; }
      match m {
        case Pack(container) =>
          if tables.streams != [] || tables.names != [] { return false; }
          if |tables.packs| + |tables.streams| + 1 > limits.maxContainers { return false; }
          if tables.packs != [] && !KeyLess(ExactKey(Last(tables.packs).exact), ExactKey(container.exact)) { return false; }
          tables := tables.(packs := tables.packs + [container]);
        case Streamed(stream) =>
          if tables.names != [] { return false; }
          if |tables.packs| + |tables.streams| + 1 > limits.maxContainers { return false; }
          if tables.streams != [] && !KeyLess(ExactKey(Last(tables.streams).exact), ExactKey(stream.exact)) { return false; }
          tables := tables.(streams := tables.streams + [stream]);
        case KeyName(id) =>
          if |tables.names| >= keyCount { return false; }
          if tables.names != [] && !Less(Last(tables.names), id) { return false; }
          tables := tables.(names := tables.names + [id]);
        case Completion(r) =>
          tables := tables.(receipt := Some(r));
      }
      ok := true;
    }

    /** Reads the records of one namespace frame into their slots. */
    method DecodeNamespace(ghost c: Common, h: Header, ns: seq<NsRecord>) returns (ok: bool)
      requires (Filled(c) || Unfilled()) && lss == [] && selfPack == c.pack
      requires declared == Some(c.keyCount) && h.mutationCount == c.count
      modifies this`sawNamespace, this`slots, this`nss
      ensures ok <==> |tables.names| == c.keyCount && h.roleCount == h.mutationCount
                      && NsListOk(c, tables, old(nss) + ns)
      ensures ok ==> Filled(c) && nss == old(nss) + ns
    {
      if declared != Some(|tables.names|) || h.roleCount != h.mutationCount { return false; }
      if !sawNamespace { OpenSlots(c, h.mutationCount); }
      ok := AddNamespaces(c, ns);
    }

    method OpenSlots(ghost c: Common, count: nat)
      requires Unfilled() && selfPack == c.pack && count == c.count
      modifies this`sawNamespace, this`slots
      ensures Filled(c)
    {
      SlottedEmpty(count, tables);
      NothingListed(c, tables, []);
      slots := slots.(namespace := seq(count, _ => None), mutations := seq(count, _ => None));
      sawNamespace := true;
    }

    method AddNamespaces(ghost c: Common, ns: seq<NsRecord>) returns (ok: bool)
      requires Filled(c) && lss == []
      modifies this`slots, this`nss
      ensures ok <==> NsListOk(c, tables, old(nss) + ns)
      ensures ok ==> Filled(c) && nss == old(nss) + ns
    {
      TakeSteps(nss, ns, 0);
      for j := 0 to |ns|
        invariant Filled(c) && nss == old(nss) + ns[..j]
      {
        ok := AcceptNamespace(c, ns[j]);
        if !ok {
          NsStop(c, tables, old(nss), ns, j);
          return;
        }
        TakeSteps(old(nss), ns, j);
      }
      ok := true;
    }

    method AcceptNamespace(ghost c: Common, r: NsRecord) returns (ok: bool)
      requires Filled(c) && lss == []
      modifies this`slots, this`nss
      ensures ok <==> NsStepOk(c, tables, old(nss), r)
      ensures !ok ==> nss == old(nss)
      ensures ok ==> Filled(c) && nss == old(nss) + [r]
    {
      ok := FitsNamespace(c, r);
      if ok { FileNamespace(c, r); }
    }

    method FileNamespace(ghost c: Common, r: NsRecord)
      requires Filled(c) && lss == [] && NsStepOk(c, tables, nss, r)
      modifies this`slots, this`nss
      ensures Filled(c) && nss == old(nss) + [r]
    {
      NsFiledRepresents(c, tables, slots, nss, r);
      slots := NsFiled(slots, r);
      nss := nss + [r];
    }

    /** What pointers of namespace records are checked against. */
    function Context(): Run
      reads this
    {
      Run(tables.receipt, 0, selfPack, tables.packs, tables.streams, [])
    }

    lemma {:induction false} ContextPointers(c: Common, r: NsRecord)
      requires selfPack == c.pack
      ensures NsOk(c, tables, r) <==>
              && r.key < |tables.names| && r.ordinal < c.count
              && (r.NsUpsert? ==> PointerOk(Context(), r.payload, r.contentLen))
    {
    }

    /** A namespace record resolves, follows in order and finds its slot empty. */
    method FitsNamespace(ghost c: Common, r: NsRecord) returns (ok: bool)
      requires Filled(c) && lss == []
      ensures ok <==> NsStepOk(c, tables, nss, r)
    {
      ContextPointers(c, r);
      if r.key >= |tables.names| || (r.NsUpsert? && !PointerOk(Context(), r.payload, r.contentLen)) { return false; }
      if slots.previousNs.Some? && !KeyLess(slots.previousNs.value, NsKey(r)) { return false; }
      if r.ordinal >= |slots.namespace| { return false; }
      assert NsSlot(slots.namespace, nss, lss, r.ordinal);
      ok := slots.namespace[r.ordinal].None?;
    }

    /** Reads the records of one listing frame, pairing each with its namespace record. */
    method DecodeListing(ghost c: Common, h: Header, ls: seq<LsRecord>) returns (ok: bool)
      requires Filled(c)
      modifies this`sawListing, this`slots, this`lss
      ensures ok <==> h.roleCount == h.mutationCount && LsListOk(c, tables, nss, old(lss) + ls)
      ensures ok ==> Filled(c) && sawListing && lss == old(lss) + ls
    {
      sawListing := true;
      if h.roleCount != h.mutationCount { return false; }
      ok := AddListings(c, ls);
    }

    method AddListings(ghost c: Common, ls: seq<LsRecord>) returns (ok: bool)
      requires Filled(c)
      modifies this`slots, this`lss
      ensures ok <==> LsListOk(c, tables, nss, old(lss) + ls)
      ensures ok ==> Filled(c) && lss == old(lss) + ls
    {
      TakeSteps(lss, ls, 0);
      for j := 0 to |ls|
        invariant Filled(c) && lss == old(lss) + ls[..j]
      {
        ok := AcceptListing(c, ls[j]);
        if !ok {
          LsStop(c, tables, nss, old(lss), ls, j);
          return;
        }
        TakeSteps(old(lss), ls, j);
      }
      ok := true;
    }

    method AcceptListing(ghost c: Common, r: LsRecord) returns (ok: bool)
      requires Filled(c)
      modifies this`slots, this`lss
      ensures ok <==> LsStepOk(c, tables, nss, old(lss), r)
      ensures !ok ==> lss == old(lss)
      ensures ok ==> Filled(c) && lss == old(lss) + [r]
    {
      var paired := FitsListing(c, r);
      ok := paired.Some?;
      if ok { FileListing(c, r, paired.value); }
    }

    method FileListing(ghost c: Common, r: LsRecord, m: Mutation)
      requires Filled(c) && LsStepOk(c, tables, nss, lss, r)
      requires PairUp(tables.names, NsAt(nss, r.ordinal).value, r) == Some(m)
      modifies this`slots, this`lss
      ensures Filled(c) && lss == old(lss) + [r]
    {
      LsFiledRepresents(c, tables, slots, nss, lss, r, m);
      slots := LsFiled(slots, r, m);
      lss := lss + [r];
    }

    /** A listing record follows in order, finds its mutation slot empty and pairs with the waiting
        namespace record. */
    method FitsListing(ghost c: Common, r: LsRecord) returns (paired: Option<Mutation>)
      requires Filled(c)
      ensures paired.Some? <==> LsStepOk(c, tables, nss, lss, r)
      ensures paired.Some? ==> paired == PairUp(tables.names, NsAt(nss, r.ordinal).value, r)
    {
      if slots.previousLs.Some? && !KeyLess(slots.previousLs.value, LsKey(r)) { return None; }
      if r.ordinal >= |slots.mutations| { return None; }
      assert NsSlot(slots.namespace, nss, lss, r.ordinal);
      assert MutationSlot(slots.mutations, tables, nss, lss, r.ordinal);
      TakenSlot(c, tables, nss, lss, r.ordinal);
      if slots.mutations[r.ordinal].Some? { return None; }
      var ns := slots.namespace[r.ordinal];
      if ns.None? { return None; }
      WaitingKey(c, tables, nss, r.ordinal);
      paired := PairUp(tables.names, ns.value, r);
    }

    /** Collects the mutations from their slots, if every slot is filled. */
    method CollectMutations(ghost c: Common) returns (ms: Option<seq<Mutation>>)
      requires Filled(c) || (Unfilled() && c.count == 0)
      ensures ms.Some? <==> AllPaired(c, tables, nss, lss)
      ensures ms.Some? ==> ms.value == MutationsOf(c, tables, nss, lss)
    {
      var collected := [];
      for o := 0 to |slots.mutations|
        invariant |collected| == o
        invariant forall i | 0 <= i < o :: Paired(tables, nss, lss, i) == Some(collected[i])
      {
        assert MutationSlot(slots.mutations, tables, nss, lss, o);
        if slots.mutations[o].None? {
          TakenSlot(c, tables, nss, lss, o);
          assert Paired(tables, nss, lss, o).None?;
          return None;
        }
        collected := collected + [slots.mutations[o].value];
      }
      assert AllPaired(c, tables, nss, lss);
      assert collected == MutationsOf(c, tables, nss, lss);
      ms := Some(collected);
    }

    /** Every table entry and every key name is used, and the pack of the commit exactly when named. */
    method CheckUse(ghost c: Common) returns (ok: bool)
      requires Filled(c) || (Unfilled() && c.count == 0)
      ensures ok <==> && (UsesOwn(nss) <==> selfPack.Some?)
                      && (forall i | 0 <= i < |tables.packs| :: i in UsedPacks(nss))
                      && (forall i | 0 <= i < |tables.streams| :: i in UsedStreams(nss))
                      && (forall i | 0 <= i < |tables.names| :: i in UsedNames(nss))
    {
      NoneUsed();
      ok := slots.usesSelf == selfPack.Some?
            && (forall i | 0 <= i < |tables.packs| :: i in slots.usedPacks)
            && (forall i | 0 <= i < |tables.streams| :: i in slots.usedStreams)
            && (forall i | 0 <= i < |tables.names| :: i in slots.usedNames);
    }

    /** Everything that is checked once the last frame was read. */
    method FinishRun(ghost c: Common, ghost p: Pieces, sequence: U64, count: nat, metadataTotal: nat)
      returns (run: Option<Run>)
      requires (Filled(c) || Unfilled()) && nss == Flatten(p.nss) && lss == Flatten(p.lss)
      requires (sawNamespace <==> p.nss != []) && (sawListing <==> p.lss != [])
      requires declared == Some(c.keyCount) && selfPack == c.pack && LastRoleDone(c, p)
      requires sequence == c.sequence && count == c.count && metadataTotal == c.metaTotal
      requires |tables.names| < U32_LIMIT && Ascending(NameKeys(tables.names)) && |nss| <= c.count
      ensures run == Finish(c, p, tables)
    {
      if count > 0 && (!sawNamespace || !sawListing) { return None; }
      if count == 0 && (sawNamespace || sawListing) { return None; }
      CompleteWhenDone(c, p);
      if declared != Some(|tables.names|) { return None; }
      JoinLength(tables);
      var receipts := if tables.receipt.Some? then 1 else 0;
      if |tables.packs| + |tables.streams| + |tables.names| + receipts != metadataTotal { return None; }
      if !DistinctObjects(tables.packs, tables.streams) { return None; }
      var ms := CollectMutations(c);
      if ms.None? { return None; }
      run := AssembleRun(c, sequence, ms.value);
    }

    /** The checks that need all mutations: uses, repeated record facts and the receipt. */
    method AssembleRun(ghost c: Common, sequence: U64, ms: seq<Mutation>) returns (run: Option<Run>)
      requires Filled(c) || (Unfilled() && c.count == 0)
      requires selfPack == c.pack && sequence == c.sequence && AllPaired(c, tables, nss, lss)
      requires ms == MutationsOf(c, tables, nss, lss)
      ensures run.Some? <==> Assembles(c, tables, nss, ms)
      ensures run.Some? ==> run.value == RunFrom(c, tables, ms)
    {
      NoneListed(c);
      UsesMatch(c, tables, nss, lss);
      var used := CheckUse(c);
      UsedTables(c, tables, nss, ms);
      if !used { return None; }
      ClaimsHaveContent(c, tables, nss, lss);
      var agree := CheckClaims(ms);
      var assembled := Run(tables.receipt, sequence, selfPack, tables.packs, tables.streams, ms);
      if !agree || !ReceiptOk(assembled) { return None; }
      run := Some(assembled);
    }

    lemma {:induction false} NoneUsed()
      ensures UsedNames([]) == {} && UsedPacks([]) == {} && UsedStreams([]) == {} && !UsesOwn([])
    {
    }

    lemma {:induction false} NoneListed(c: Common)
      requires Filled(c) || Unfilled()
      ensures NsListOk(c, tables, nss) && LsListOk(c, tables, nss, lss)
    {
      NothingListed(c, tables, []);
    }
  }

  /** What finishing demands of the assembled mutations. */
  ghost predicate Assembles(c: Common, t: Tables, nss: seq<NsRecord>, ms: seq<Mutation>) {
    && (forall i | 0 <= i < |t.names| :: NameUsed(nss, i))
    && AllUsed(RunFrom(c, t, ms)) && ClaimsAgree(ms) && ReceiptOk(RunFrom(c, t, ms))
  }

  lemma {:induction false} UsedTables(c: Common, t: Tables, nss: seq<NsRecord>, ms: seq<Mutation>)
    requires forall k: nat :: ContainerUsed(ms, k) <==> k in UsedPacks(nss)
    requires forall k: nat :: StreamUsed(ms, k) <==> k in UsedStreams(nss)
    requires SelfUsed(ms) <==> UsesOwn(nss)
    requires forall i: nat :: NameUsed(nss, i) <==> i in UsedNames(nss)
    ensures (&& (UsesOwn(nss) <==> c.pack.Some?)
             && (forall i | 0 <= i < |t.packs| :: i in UsedPacks(nss))
             && (forall i | 0 <= i < |t.streams| :: i in UsedStreams(nss))
             && (forall i | 0 <= i < |t.names| :: i in UsedNames(nss)))
            <==> AllUsed(RunFrom(c, t, ms)) && (forall i | 0 <= i < |t.names| :: NameUsed(nss, i))
  {
    var run := RunFrom(c, t, ms);
    if AllUsed(run) {
      assert forall i | 0 <= i < |t.packs| :: ContainerUsed(ms, i);
      assert forall i | 0 <= i < |t.streams| :: StreamUsed(ms, i);
    }
  }

  /** The role of the last frame has all its records. */
  ghost predicate LastRoleDone(c: Common, p: Pieces) {
    if p.lss != [] then |Flatten(p.lss)| == c.count
    else if p.nss != [] then |Flatten(p.nss)| == c.count
    else |Flatten(p.metas)| == c.metaTotal
  }

  lemma {:induction false} CompleteWhenDone(c: Common, p: Pieces)
    requires LastRoleDone(c, p)
    requires if c.count > 0 then p.nss != [] && p.lss != [] else p.nss == [] && p.lss == []
    ensures Complete(c, p)
  {
  }

  lemma {:induction false} JoinLength(t: Tables)
    ensures |Join(t)| == |t.packs| + |t.streams| + |t.names| + (if t.receipt.Some? then 1 else 0)
  {
  }

  /** An assembled mutation carries the payload of its namespace record. */
  lemma {:induction false} PairedPayload(c: Common, t: Tables, nss: seq<NsRecord>, lss: seq<LsRecord>, o: nat)
    requires AllPaired(c, t, nss, lss) && o < c.count
    ensures NsAt(nss, o).Some?
    ensures var m, ns := MutationsOf(c, t, nss, lss)[o], NsAt(nss, o).value;
            (m.Upsert? <==> ns.NsUpsert?) && (m.Upsert? ==> m.payload == ns.payload && m.contentLen == ns.contentLen)
  {
    assert Paired(t, nss, lss, o).Some?;
  }

  /** What mutations use is what namespace records use. */
  lemma {:induction false} UsesMatch(c: Common, t: Tables, nss: seq<NsRecord>, lss: seq<LsRecord>)
    requires AllPaired(c, t, nss, lss) && NsListOk(c, t, nss)
    ensures var ms := MutationsOf(c, t, nss, lss);
            && (forall k: nat :: ContainerUsed(ms, k) <==> k in UsedPacks(nss))
            && (forall k: nat :: StreamUsed(ms, k) <==> k in UsedStreams(nss))
            && (SelfUsed(ms) <==> UsesOwn(nss))
    ensures forall i: nat :: NameUsed(nss, i) <==> i in UsedNames(nss)
  {
    var ms := MutationsOf(c, t, nss, lss);
    forall o | 0 <= o < c.count ensures FromRecord(ms[o], nss) { MutationFromRecord(c, t, nss, lss, o); }
    forall j | 0 <= j < |nss| ensures ToMutation(nss[j], ms) { RecordToMutation(c, t, nss, lss, j); }
    PacksMatch(ms, nss);
    StreamsMatch(ms, nss);
    SelfMatch(ms, nss);
  }

  ghost predicate SamePayload(m: Mutation, r: NsRecord) {
    (m.Upsert? <==> r.NsUpsert?) && (m.Upsert? ==> m.payload == r.payload)
  }

  ghost predicate FromRecord(m: Mutation, nss: seq<NsRecord>) {
    exists j | 0 <= j < |nss| :: SamePayload(m, nss[j])
  }

  ghost predicate ToMutation(r: NsRecord, ms: seq<Mutation>) {
    exists o | 0 <= o < |ms| :: SamePayload(ms[o], r)
  }

  lemma {:induction false} MutationFromRecord(c: Common, t: Tables, nss: seq<NsRecord>, lss: seq<LsRecord>, o: nat)
    requires AllPaired(c, t, nss, lss) && o < c.count
    ensures FromRecord(MutationsOf(c, t, nss, lss)[o], nss)
  {
    PairedPayload(c, t, nss, lss, o);
    var j :| 0 <= j < |nss| && nss[j] == NsAt(nss, o).value;
    assert SamePayload(MutationsOf(c, t, nss, lss)[o], nss[j]);
  }

  lemma {:induction false} RecordToMutation(c: Common, t: Tables, nss: seq<NsRecord>, lss: seq<LsRecord>, j: nat)
    requires AllPaired(c, t, nss, lss) && NsListOk(c, t, nss) && j < |nss|
    ensures ToMutation(nss[j], MutationsOf(c, t, nss, lss))
  {
    assert NsOk(c, t, nss[j]);
    NsAtIs(nss, j);
    PairedPayload(c, t, nss, lss, nss[j].ordinal);
    assert SamePayload(MutationsOf(c, t, nss, lss)[nss[j].ordinal], nss[j]);
  }

  lemma {:induction false} PacksMatch(ms: seq<Mutation>, nss: seq<NsRecord>)
    requires forall o | 0 <= o < |ms| :: FromRecord(ms[o], nss)
    requires forall j | 0 <= j < |nss| :: ToMutation(nss[j], ms)
    ensures forall k: nat :: ContainerUsed(ms, k) <==> k in UsedPacks(nss)
  {
    forall k: nat ensures ContainerUsed(ms, k) <==> k in UsedPacks(nss) {
      if ContainerUsed(ms, k) { PackForward(ms, nss, k); }
      if k in UsedPacks(nss) { PackBack(ms, nss, k); }
    }
  }

  lemma {:induction false} PackForward(ms: seq<Mutation>, nss: seq<NsRecord>, k: nat)
    requires ContainerUsed(ms, k) && forall o | 0 <= o < |ms| :: FromRecord(ms[o], nss)
    ensures k in UsedPacks(nss)
  {
    var o :| 0 <= o < |ms| && UsesContainer(ms[o], k);
    assert FromRecord(ms[o], nss);
    var j :| 0 <= j < |nss| && SamePayload(ms[o], nss[j]);
    assert NamesPack(nss[j]);
  }

  lemma {:induction false} PackBack(ms: seq<Mutation>, nss: seq<NsRecord>, k: nat)
    requires k in UsedPacks(nss) && forall j | 0 <= j < |nss| :: ToMutation(nss[j], ms)
    ensures ContainerUsed(ms, k)
  {
    var j :| 0 <= j < |nss| && NamesPack(nss[j]) && nss[j].payload.container == k;
    assert ToMutation(nss[j], ms);
    var o :| 0 <= o < |ms| && SamePayload(ms[o], nss[j]);
    assert UsesContainer(ms[o], k);
  }

  lemma {:induction false} StreamsMatch(ms: seq<Mutation>, nss: seq<NsRecord>)
    requires forall o | 0 <= o < |ms| :: FromRecord(ms[o], nss)
    requires forall j | 0 <= j < |nss| :: ToMutation(nss[j], ms)
    ensures forall k: nat :: StreamUsed(ms, k) <==> k in UsedStreams(nss)
  {
    forall k: nat ensures StreamUsed(ms, k) <==> k in UsedStreams(nss) {
      if StreamUsed(ms, k) { StreamForward(ms, nss, k); }
      if k in UsedStreams(nss) { StreamBack(ms, nss, k); }
    }
  }

  lemma {:induction false} StreamForward(ms: seq<Mutation>, nss: seq<NsRecord>, k: nat)
    requires StreamUsed(ms, k) && forall o | 0 <= o < |ms| :: FromRecord(ms[o], nss)
    ensures k in UsedStreams(nss)
  {
    var o :| 0 <= o < |ms| && UsesStream(ms[o], k);
    assert FromRecord(ms[o], nss);
    var j :| 0 <= j < |nss| && SamePayload(ms[o], nss[j]);
    assert NamesStream(nss[j]);
  }

  lemma {:induction false} StreamBack(ms: seq<Mutation>, nss: seq<NsRecord>, k: nat)
    requires k in UsedStreams(nss) && forall j | 0 <= j < |nss| :: ToMutation(nss[j], ms)
    ensures StreamUsed(ms, k)
  {
    var j :| 0 <= j < |nss| && NamesStream(nss[j]) && nss[j].payload.container == k;
    assert ToMutation(nss[j], ms);
    var o :| 0 <= o < |ms| && SamePayload(ms[o], nss[j]);
    assert UsesStream(ms[o], k);
  }

  lemma {:induction false} SelfMatch(ms: seq<Mutation>, nss: seq<NsRecord>)
    requires forall o | 0 <= o < |ms| :: FromRecord(ms[o], nss)
    requires forall j | 0 <= j < |nss| :: ToMutation(nss[j], ms)
    ensures SelfUsed(ms) <==> UsesOwn(nss)
  {
    if SelfUsed(ms) {
      var o :| 0 <= o < |ms| && UsesSelf(ms[o]);
      assert FromRecord(ms[o], nss);
    }
    if UsesOwn(nss) {
      var j :| 0 <= j < |nss| && NamesSelf(nss[j]);
      assert ToMutation(nss[j], ms);
      var o :| 0 <= o < |ms| && SamePayload(ms[o], nss[j]);
      assert UsesSelf(ms[o]);
    }
  }

  /** Accepted pack pointers have content, which the span check relies on. */
  lemma {:induction false} ClaimsHaveContent(c: Common, t: Tables, nss: seq<NsRecord>, lss: seq<LsRecord>)
    requires AllPaired(c, t, nss, lss) && NsListOk(c, t, nss)
    ensures ClaimsNonEmpty(MutationsOf(c, t, nss, lss))
  {
    var ms := MutationsOf(c, t, nss, lss);
    forall o | 0 <= o < |ms| ensures ClaimOf(ms[o]).Some? ==> ClaimOf(ms[o]).value.contentLen > 0 {
      PairedPayload(c, t, nss, lss, o);
      var j :| 0 <= j < |nss| && nss[j] == NsAt(nss, o).value;
      assert NsOk(c, t, nss[j]);
    }
  }
}
