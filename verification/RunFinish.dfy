/** Assembling a run from its scanned records, and the exact correspondence between runs and the
    record lists that are accepted. */
module RunFinish {
  import opened Prelude
  import opened Types
  import opened Order
  import opened RunModel
  import opened RunRecords
  import opened Projections
  import opened RunFrames
  import opened Canonical
  import opened RunTables
  import opened RunScan

  // ---------------------------------------------------------------- assembling

  /** The mutation of an ordinal, when both projections have it and agree. */
  function Paired(t: Tables, nss: seq<NsRecord>, lss: seq<LsRecord>, ordinal: nat): Option<Mutation> {
    var ns :- NsAt(nss, ordinal);
    var ls :- LsAt(lss, ordinal);
    if ns.key < |t.names| then PairUp(t.names, ns, ls) else None
  }

  predicate AllPaired(c: Common, t: Tables, nss: seq<NsRecord>, lss: seq<LsRecord>) {
    forall o | 0 <= o < c.count :: Paired(t, nss, lss, o).Some?
  }

  function MutationsOf(c: Common, t: Tables, nss: seq<NsRecord>, lss: seq<LsRecord>): (ms: seq<Mutation>)
    requires AllPaired(c, t, nss, lss)
    ensures |ms| == c.count && forall o | 0 <= o < c.count :: Some(ms[o]) == Paired(t, nss, lss, o)
  {
    seq(c.count, o requires 0 <= o < c.count => Paired(t, nss, lss, o).value)
  }

  function RunFrom(c: Common, t: Tables, ms: seq<Mutation>): Run {
    Run(t.receipt, c.sequence, c.pack, t.packs, t.streams, ms)
  }

  /** Both projections are present exactly when there are mutations, and the last role is complete. */
  predicate Complete(c: Common, p: Pieces) {
    if c.count > 0 then p.nss != [] && p.lss != [] && |Flatten(p.lss)| == c.count
    else p.nss == [] && p.lss == [] && |Flatten(p.metas)| == c.metaTotal
  }

  predicate NameUsed(nss: seq<NsRecord>, i: nat) {
    exists j | 0 <= j < |nss| :: nss[j].key == i
  }

  predicate FinishOk(c: Common, p: Pieces, t: Tables) {
    var nss, lss := Flatten(p.nss), Flatten(p.lss);
    && Complete(c, p)
    && |t.names| == c.keyCount
    && |Join(t)| == c.metaTotal
    && DistinctObjects(t.packs, t.streams)
    && AllPaired(c, t, nss, lss)
    && (forall i | 0 <= i < |t.names| :: NameUsed(nss, i))
    && var run := RunFrom(c, t, MutationsOf(c, t, nss, lss));
    && AllUsed(run) && ClaimsAgree(run.mutations) && ReceiptOk(run)
  }

  function Finish(c: Common, p: Pieces, t: Tables): Option<Run> {
    if FinishOk(c, p, t) then Some(RunFrom(c, t, MutationsOf(c, t, Flatten(p.nss), Flatten(p.lss)))) else None
  }

  // ---------------------------------------------------------------- soundness

  /** What the byte forms of accepted frames guarantee of their records. */
  ghost predicate RecordsValid(limits: Limits, c: Common, metas: seq<Meta>, lss: seq<LsRecord>) {
    && SelfPackOk(limits, c.pack)
    && (forall i | 0 <= i < |metas| :: MetaValid(limits, metas[i]))
    && PathsOk(limits, lss)
  }

  lemma {:induction false} NsAtIs(nss: seq<NsRecord>, j: nat)
    requires NsDistinct(nss) && j < |nss|
    ensures NsAt(nss, nss[j].ordinal) == Some(nss[j])
  {
    var r := NsAt(nss, nss[j].ordinal).value;
    var i :| 0 <= i < |nss| && nss[i] == r;
  }

  lemma {:induction false} LsAtIs(lss: seq<LsRecord>, j: nat)
    requires LsDistinct(lss) && j < |lss|
    ensures LsAt(lss, lss[j].ordinal) == Some(lss[j])
  {
    var r := LsAt(lss, lss[j].ordinal).value;
    var i :| 0 <= i < |lss| && lss[i] == r;
  }

  /** Assembled mutations project back onto the records they came from. */
  lemma {:induction false} PairedProjects(c: Common, t: Tables, nss: seq<NsRecord>, lss: seq<LsRecord>, o: nat)
    requires |t.names| < U32_LIMIT && Ascending(NameKeys(t.names)) && AllPaired(c, t, nss, lss) && o < c.count
    ensures var m := MutationsOf(c, t, nss, lss)[o];
            && m.ordinal == o && m.keyId in t.names
            && NsAt(nss, o) == Some(NsOf(t.names, m)) && LsAt(lss, o) == Some(LsOf(m))
  {
    assert Paired(t, nss, lss, o).Some?;
    ProjectionsOfPair(t.names, NsAt(nss, o).value, LsAt(lss, o).value);
  }

  /** The record lists are the canonical projections of the assembled mutations. */
  lemma {:induction false} ListsAreCanonical(c: Common, t: Tables, nss: seq<NsRecord>, lss: seq<LsRecord>)
    requires |t.names| < U32_LIMIT && Ascending(NameKeys(t.names)) && AllPaired(c, t, nss, lss)
    requires NsListOk(c, t, nss) && LsListOk(c, t, nss, lss)
    requires forall i | 0 <= i < |t.names| :: NameUsed(nss, i)
    ensures var ms := MutationsOf(c, t, nss, lss);
            Dense(ms) && IsNameTable(t.names, ms) && IsNsList(t.names, ms, nss) && IsLsList(ms, lss)
  {
    var ms := MutationsOf(c, t, nss, lss);
    forall o | 0 <= o < c.count
      ensures ms[o].ordinal == o && ms[o].keyId in t.names && NsPresent(nss, o) && LsPresent(lss, o)
    {
      PairedProjects(c, t, nss, lss, o);
    }
    forall j | 0 <= j < |nss| ensures NsPlaced(t.names, ms, nss[j]) {
      assert NsOk(c, t, nss[j]);
      NsAtIs(nss, j);
      PairedProjects(c, t, nss, lss, nss[j].ordinal);
    }
    forall j | 0 <= j < |lss| ensures LsPlaced(ms, lss[j]) {
      assert LsOk(c, t, nss, lss[j]);
      LsAtIs(lss, j);
      PairedProjects(c, t, nss, lss, lss[j].ordinal);
    }
    forall i | 0 <= i < |t.names| ensures Named(ms, t.names[i]) {
      assert NameUsed(nss, i);
      var j :| 0 <= j < |nss| && nss[j].key == i;
      assert NsPlaced(t.names, ms, nss[j]);
      NamedBy(t.names, ms[nss[j].ordinal], i);
    }
  }

  lemma {:induction false} NamedBy(names: seq<Text>, m: Mutation, i: nat)
    requires |names| < U32_LIMIT && m.keyId in names && NsOf(names, m).key == i
    ensures i < |names| && m.keyId == names[i]
  {
  }

  lemma {:induction false} JoinHas(t: Tables)
    ensures forall i | 0 <= i < |t.packs| :: Pack(t.packs[i]) in Join(t)
    ensures forall i | 0 <= i < |t.streams| :: Streamed(t.streams[i]) in Join(t)
    ensures forall i | 0 <= i < |t.names| :: KeyName(t.names[i]) in Join(t)
  {
    var a, b := |t.packs|, |t.packs| + |t.streams|;
    assert forall i | 0 <= i < |t.packs| :: Join(t)[i] == Pack(t.packs[i]);
    assert forall i | 0 <= i < |t.streams| :: Join(t)[a + i] == Streamed(t.streams[i]);
    assert forall i | 0 <= i < |t.names| :: Join(t)[b + i] == KeyName(t.names[i]);
  }

  lemma {:induction false} TablesValid(limits: Limits, c: Common, t: Tables, ms: seq<Mutation>, lss: seq<LsRecord>)
    requires TablesOrdered(limits, c.keyCount, t) && RecordsValid(limits, c, Join(t), lss)
    requires DistinctObjects(t.packs, t.streams)
    ensures TablesOk(limits, RunFrom(c, t, ms))
    ensures forall i | 0 <= i < |t.names| :: |t.names[i]| <= limits.maxKeyIdBytes
  {
    JoinHas(t);
    forall i | 0 <= i < |t.packs| ensures ContainerOk(limits, t.packs[i]) {
      assert Pack(t.packs[i]) in Join(t);
    }
    forall i | 0 <= i < |t.streams| ensures StreamOk(limits, t.streams[i]) {
      assert Streamed(t.streams[i]) in Join(t);
    }
    forall i | 0 <= i < |t.names| ensures |t.names[i]| <= limits.maxKeyIdBytes {
      assert KeyName(t.names[i]) in Join(t);
    }
  }

  lemma {:induction false} MutationsValid(
      limits: Limits, c: Common, t: Tables, nss: seq<NsRecord>, lss: seq<LsRecord>, o: nat)
    requires |t.names| < U32_LIMIT && Ascending(NameKeys(t.names)) && AllPaired(c, t, nss, lss) && o < c.count
    requires NsListOk(c, t, nss) && PathsOk(limits, lss)
    requires forall i | 0 <= i < |t.names| :: |t.names[i]| <= limits.maxKeyIdBytes
    ensures var ms := MutationsOf(c, t, nss, lss); MutationOk(limits, RunFrom(c, t, ms), ms[o])
  {
    var ms := MutationsOf(c, t, nss, lss);
    PairedProjects(c, t, nss, lss, o);
    var ns := NsAt(nss, o).value;
    var j :| 0 <= j < |nss| && nss[j] == ns;
    assert NsOk(c, t, nss[j]);
    PointerContext(c, t, ms, ms[o]);
  }

  lemma {:induction false} PointerContext(c: Common, t: Tables, ms: seq<Mutation>, m: Mutation)
    requires m.Upsert? ==> PointerOk(TableRun(c, t), m.payload, m.contentLen)
    ensures m.Upsert? ==> PointerOk(RunFrom(c, t, ms), m.payload, m.contentLen)
  {
  }

  /** Whatever is assembled is an acceptable run, and the records are its canonical lists. */
  lemma {:induction false} FinishSound(limits: Limits, c: Common, p: Pieces, t: Tables)
    requires PrefixOk(limits, c, p, t) && FinishOk(c, p, t)
    requires RecordsValid(limits, c, Flatten(p.metas), Flatten(p.lss))
    ensures var run := Finish(c, p, t).value;
            && RunOk(limits, run) && |t.names| < U32_LIMIT
            && IsNameTable(t.names, run.mutations)
            && IsNsList(t.names, run.mutations, Flatten(p.nss)) && IsLsList(run.mutations, Flatten(p.lss))
  {
    var nss, lss := Flatten(p.nss), Flatten(p.lss);
    var ms := MutationsOf(c, t, nss, lss);
    ListsAreCanonical(c, t, nss, lss);
    TablesValid(limits, c, t, ms, lss);
    forall o | 0 <= o < |ms| ensures MutationOk(limits, RunFrom(c, t, ms), ms[o]) {
      MutationsValid(limits, c, t, nss, lss, o);
    }
  }

  // ---------------------------------------------------------------- completeness

  function TablesFor(run: Run): Tables {
    Tables(run.containers, run.streams, Names(run.mutations), run.receipt)
  }

  function CommonFor(run: Run): Common
    requires |run.mutations| < U32_LIMIT && |Join(TablesFor(run))| < U64_LIMIT
  {
    NameTableSize(Names(run.mutations), run.mutations);
    Common(run.sequence, |run.mutations|, run.selfPack, |Names(run.mutations)|, |Join(TablesFor(run))|)
  }

  /** A cut of the canonical record lists of a run: at least one metadata frame, and projection
      frames exactly when there are mutations. */
  ghost predicate Cuts(run: Run, p: Pieces)
    requires Dense(run.mutations) && |Names(run.mutations)| < U32_LIMIT
  {
    && Flatten(p.metas) == Join(TablesFor(run))
    && Flatten(p.nss) == NsRecords(Names(run.mutations), run.mutations)
    && Flatten(p.lss) == LsRecords(run.mutations)
    && p.metas != [] && (run.mutations == [] ==> p.nss == [] && p.lss == [])
    && |p.metas| < U32_LIMIT && |p.nss| < U32_LIMIT && |p.lss| < U32_LIMIT
  }

  lemma {:induction false} NsListDistinct(names: seq<Text>, ms: seq<Mutation>, nss: seq<NsRecord>)
    requires |names| < U32_LIMIT && IsNsList(names, ms, nss)
    ensures NsDistinct(nss)
  {
    forall i, j | 0 <= i < j < |nss| ensures nss[i].ordinal != nss[j].ordinal {
      assert NsPlaced(names, ms, nss[i]) && NsPlaced(names, ms, nss[j]);
      assert NsKeys(nss)[i] == NsKey(nss[i]) && NsKeys(nss)[j] == NsKey(nss[j]);
      AscendingPairs(NsKeys(nss), i, j);
      KeyIrreflexive(NsKey(nss[i]));
    }
  }

  lemma {:induction false} LsListDistinct(ms: seq<Mutation>, lss: seq<LsRecord>)
    requires IsLsList(ms, lss)
    ensures LsDistinct(lss)
  {
    forall i, j | 0 <= i < j < |lss| ensures lss[i].ordinal != lss[j].ordinal {
      assert LsPlaced(ms, lss[i]) && LsPlaced(ms, lss[j]);
      assert LsKeys(lss)[i] == LsKey(lss[i]) && LsKeys(lss)[j] == LsKey(lss[j]);
      AscendingPairs(LsKeys(lss), i, j);
      KeyIrreflexive(LsKey(lss[i]));
    }
  }

  /** Looking up an ordinal in the canonical lists gives the projections of its mutation. */
  lemma {:induction false} CanonicalLookup(
      names: seq<Text>, ms: seq<Mutation>, nss: seq<NsRecord>, lss: seq<LsRecord>, o: nat)
    requires |names| < U32_LIMIT && IsNsList(names, ms, nss) && IsLsList(ms, lss) && o < |ms|
    ensures NsAt(nss, o) == Some(NsOf(names, ms[o])) && LsAt(lss, o) == Some(LsOf(ms[o]))
  {
    NsListDistinct(names, ms, nss);
    LsListDistinct(ms, lss);
    assert NsPresent(nss, o) && LsPresent(lss, o);
    var i :| 0 <= i < |nss| && nss[i].ordinal == o;
    var j :| 0 <= j < |lss| && lss[j].ordinal == o;
    assert NsPlaced(names, ms, nss[i]) && LsPlaced(ms, lss[j]);
    NsAtIs(nss, i);
    LsAtIs(lss, j);
  }

  /** Names, tables and both lists belong to one run. */
  ghost predicate Belong(run: Run, c: Common, t: Tables, nss: seq<NsRecord>, lss: seq<LsRecord>) {
    && |t.names| < U32_LIMIT && IsNameTable(t.names, run.mutations)
    && IsNsList(t.names, run.mutations, nss) && IsLsList(run.mutations, lss)
    && c.count == |run.mutations| && RunFrom(c, t, run.mutations) == run
  }

  lemma {:induction false} CanonicalPairs(run: Run, c: Common, t: Tables, nss: seq<NsRecord>, lss: seq<LsRecord>)
    requires Belong(run, c, t, nss, lss)
    ensures AllPaired(c, t, nss, lss) && MutationsOf(c, t, nss, lss) == run.mutations
  {
    var ms := run.mutations;
    forall o | 0 <= o < |ms| ensures Paired(t, nss, lss, o) == Some(ms[o]) {
      CanonicalLookup(t.names, ms, nss, lss, o);
      assert ms[o].keyId in t.names;
      PairOfProjections(t.names, ms[o]);
    }
  }

  lemma {:induction false} CanonicalNamesUsed(run: Run, c: Common, t: Tables, nss: seq<NsRecord>, lss: seq<LsRecord>)
    requires Belong(run, c, t, nss, lss)
    ensures forall i | 0 <= i < |t.names| :: NameUsed(nss, i)
  {
    forall i | 0 <= i < |t.names| ensures NameUsed(nss, i) {
      assert Named(run.mutations, t.names[i]);
      var o :| 0 <= o < |run.mutations| && run.mutations[o].keyId == t.names[i];
      NameIndexUnique(t.names, i);
      CanonicalLookup(t.names, run.mutations, nss, lss, o);
      var j :| 0 <= j < |nss| && nss[j] == NsAt(nss, o).value;
      assert nss[j].key == i;
    }
  }

  lemma {:induction false} CanonicalListsOk(
      limits: Limits, run: Run, c: Common, t: Tables, nss: seq<NsRecord>, lss: seq<LsRecord>)
    requires RunOk(limits, run) && Belong(run, c, t, nss, lss)
    ensures NsListOk(c, t, nss) && LsListOk(c, t, nss, lss)
  {
    NsListDistinct(t.names, run.mutations, nss);
    LsListDistinct(run.mutations, lss);
    forall j | 0 <= j < |nss| ensures NsOk(c, t, nss[j]) {
      assert NsPlaced(t.names, run.mutations, nss[j]);
      CanonicalNsOk(limits, run, c, t, nss[j]);
    }
    forall j | 0 <= j < |lss| ensures LsOk(c, t, nss, lss[j]) {
      assert LsPlaced(run.mutations, lss[j]);
      CanonicalLsOk(run, c, t, nss, lss, lss[j]);
    }
  }

  lemma {:induction false} CanonicalLsOk(
      run: Run, c: Common, t: Tables, nss: seq<NsRecord>, lss: seq<LsRecord>, r: LsRecord)
    requires Belong(run, c, t, nss, lss) && LsPlaced(run.mutations, r)
    ensures LsOk(c, t, nss, r)
  {
    var m := run.mutations[r.ordinal];
    CanonicalLookup(t.names, run.mutations, nss, lss, r.ordinal);
    assert m.keyId in t.names;
    PairOfProjections(t.names, m);
  }

  lemma {:induction false} CanonicalNsOk(limits: Limits, run: Run, c: Common, t: Tables, r: NsRecord)
    requires RunOk(limits, run) && |t.names| < U32_LIMIT && IsNameTable(t.names, run.mutations)
    requires c.count == |run.mutations| && RunFrom(c, t, run.mutations) == run && NsPlaced(t.names, run.mutations, r)
    ensures NsOk(c, t, r)
  {
    var m := run.mutations[r.ordinal];
    assert MutationOk(limits, run, m);
    assert m.keyId in t.names;
  }

  lemma {:induction false} CutBelongs(limits: Limits, run: Run, p: Pieces)
    requires RunOk(limits, run) && |Join(TablesFor(run))| < U64_LIMIT && |Names(run.mutations)| < U32_LIMIT
    requires Cuts(run, p)
    ensures Belong(run, CommonFor(run), TablesFor(run), Flatten(p.nss), Flatten(p.lss))
    ensures |Flatten(p.nss)| == |Flatten(p.lss)| == |run.mutations|
  {
  }

  lemma {:induction false} CutPrefixOk(limits: Limits, run: Run, p: Pieces)
    requires RunOk(limits, run) && |Join(TablesFor(run))| < U64_LIMIT && |Names(run.mutations)| < U32_LIMIT
    requires Cuts(run, p)
    ensures PrefixOk(limits, CommonFor(run), p, TablesFor(run))
  {
    var c, t := CommonFor(run), TablesFor(run);
    CutBelongs(limits, run, p);
    CanonicalListsOk(limits, run, c, t, Flatten(p.nss), Flatten(p.lss));
    NameTableSize(t.names, run.mutations);
    assert |Join(t)| == |t.packs| + |t.streams| + |t.names| + |ReceiptMetas(t.receipt)|;
  }

  lemma {:induction false} FinishGives(limits: Limits, run: Run, c: Common, p: Pieces, t: Tables)
    requires RunOk(limits, run) && Belong(run, c, t, Flatten(p.nss), Flatten(p.lss))
    requires Complete(c, p) && |t.names| == c.keyCount && |Join(t)| == c.metaTotal
    ensures Finish(c, p, t) == Some(run)
  {
    CanonicalPairs(run, c, t, Flatten(p.nss), Flatten(p.lss));
    CanonicalNamesUsed(run, c, t, Flatten(p.nss), Flatten(p.lss));
  }

  /** A cut of an acceptable run is scanned, finishes, and gives the run back. */
  lemma {:induction false} FinishComplete(limits: Limits, run: Run, p: Pieces)
    requires RunOk(limits, run) && |Join(TablesFor(run))| < U64_LIMIT && |Names(run.mutations)| < U32_LIMIT
    requires Cuts(run, p)
    ensures PrefixOk(limits, CommonFor(run), p, TablesFor(run))
    ensures Finish(CommonFor(run), p, TablesFor(run)) == Some(run)
  {
    CutPrefixOk(limits, run, p);
    CutBelongs(limits, run, p);
    assert p.nss == [] ==> Flatten(p.nss) == [];
    assert p.lss == [] ==> Flatten(p.lss) == [];
    FinishGives(limits, run, CommonFor(run), p, TablesFor(run));
  }
}
