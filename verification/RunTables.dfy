/** Building the interned tables of a run from its metadata records, in their fixed order. */
module RunTables {
  import opened Prelude
  import opened Types
  import opened Order
  import opened RunModel
  import opened RunRecords
  import opened Canonical

  datatype Tables = Tables(packs: seq<Container>, streams: seq<Stream>, names: seq<Text>, receipt: Option<Receipt>)

  const NO_TABLES := Tables([], [], [], None)

  function Last<T>(s: seq<T>): T
    requires s != []
  {
    s[|s| - 1]
  }

  /** Accepts one more metadata record: packs, then streams, then key names, each strictly ordered,
      then at most one receipt and nothing after it. */
  function AddMeta(limits: Limits, keyCount: nat, t: Tables, m: Meta): Option<Tables> {
    if t.receipt.Some? then None
    else match m
      case Pack(c) =>
        if t.streams != [] || t.names != [] || |t.packs| + |t.streams| + 1 > limits.maxContainers
           || (t.packs != [] && !KeyLess(ExactKey(Last(t.packs).exact), ExactKey(c.exact)))
        then None else Some(t.(packs := t.packs + [c]))
      case Streamed(s) =>
        if t.names != [] || |t.packs| + |t.streams| + 1 > limits.maxContainers
           || (t.streams != [] && !KeyLess(ExactKey(Last(t.streams).exact), ExactKey(s.exact)))
        then None else Some(t.(streams := t.streams + [s]))
      case KeyName(id) =>
        if |t.names| >= keyCount || (t.names != [] && !Less(Last(t.names), id))
        then None else Some(t.(names := t.names + [id]))
      case Completion(r) => Some(t.(receipt := Some(r)))
  }

  function AddMetas(limits: Limits, keyCount: nat, t: Tables, metas: seq<Meta>): Option<Tables>
    decreases |metas|
  {
    if metas == [] then Some(t)
    else
      var next :- AddMeta(limits, keyCount, t, metas[0]);
      AddMetas(limits, keyCount, next, metas[1..])
  }

  lemma {:induction false} AddMetasSnoc(limits: Limits, keyCount: nat, t: Tables, metas: seq<Meta>, m: Meta)
    ensures AddMetas(limits, keyCount, t, metas + [m]) ==
            match AddMetas(limits, keyCount, t, metas)
            case None => None
            case Some(next) => AddMeta(limits, keyCount, next, m)
    decreases |metas|
  {
    var longer := metas + [m];
    if metas == [] {
      assert longer[1..] == [];
    } else {
      assert longer[1..] == metas[1..] + [m];
      if AddMeta(limits, keyCount, t, metas[0]).Some? {
        AddMetasSnoc(limits, keyCount, AddMeta(limits, keyCount, t, metas[0]).value, metas[1..], m);
      }
    }
  }

  /** The order and the size bounds that every table built this way has. */
  ghost predicate TablesOrdered(limits: Limits, keyCount: nat, t: Tables) {
    && Ascending(ContainerKeys(t.packs))
    && Ascending(StreamKeys(t.streams))
    && Ascending(NameKeys(t.names))
    && |t.packs| + |t.streams| <= limits.maxContainers
    && |t.names| <= keyCount
  }

  function PackMetas(packs: seq<Container>): (ms: seq<Meta>)
    ensures |ms| == |packs|
  {
    seq(|packs|, i requires 0 <= i < |packs| => Pack(packs[i]))
  }

  function StreamMetas(streams: seq<Stream>): (ms: seq<Meta>)
    ensures |ms| == |streams|
  {
    seq(|streams|, i requires 0 <= i < |streams| => Streamed(streams[i]))
  }

  function NameMetas(names: seq<Text>): (ms: seq<Meta>)
    ensures |ms| == |names|
  {
    seq(|names|, i requires 0 <= i < |names| => KeyName(names[i]))
  }

  function ReceiptMetas(receipt: Option<Receipt>): seq<Meta> {
    if receipt.Some? then [Completion(receipt.value)] else []
  }

  /** The metadata records of tables, in their one accepted order. */
  function Join(t: Tables): seq<Meta> {
    PackMetas(t.packs) + StreamMetas(t.streams) + NameMetas(t.names) + ReceiptMetas(t.receipt)
  }

  lemma {:induction false} AscendingAppend(keys: seq<Key>, key: Key)
    ensures Ascending(keys + [key]) <==> Ascending(keys) && (keys != [] ==> KeyLess(Last(keys), key))
  {
    var longer := keys + [key];
    if Ascending(longer) {
      forall i | 0 < i < |keys| ensures KeyLess(keys[i - 1], keys[i]) {
        assert KeyLess(longer[i - 1], longer[i]);
      }
      if keys != [] { assert KeyLess(longer[|keys| - 1], longer[|keys|]); }
    }
  }

  lemma {:induction false} NameOrder(a: Data, b: Data)
    ensures KeyLess(Key(a, None, 0), Key(b, None, 0)) <==> Less(a, b)
  {
  }

  lemma {:induction false} JoinPacks(packs: seq<Container>)
    ensures Join(Tables(packs, [], [], None)) == PackMetas(packs)
    ensures packs != [] ==> PackMetas(packs) == PackMetas(packs[..|packs| - 1]) + [Pack(Last(packs))]
  {
  }

  lemma {:induction false} PackStep(limits: Limits, keyCount: nat, t: Tables, c: Container)
    requires AddMeta(limits, keyCount, t, Pack(c)).Some? && TablesOrdered(limits, keyCount, t)
    ensures var t' := AddMeta(limits, keyCount, t, Pack(c)).value;
            TablesOrdered(limits, keyCount, t') && Join(t') == Join(t) + [Pack(c)]
  {
    AscendingAppend(ContainerKeys(t.packs), ExactKey(c.exact));
    assert ContainerKeys(t.packs + [c]) == ContainerKeys(t.packs) + [ExactKey(c.exact)];
    JoinPacks(t.packs);
    JoinPacks(t.packs + [c]);
  }

  lemma {:induction false} StreamStep(limits: Limits, keyCount: nat, t: Tables, s: Stream)
    requires AddMeta(limits, keyCount, t, Streamed(s)).Some? && TablesOrdered(limits, keyCount, t)
    ensures var t' := AddMeta(limits, keyCount, t, Streamed(s)).value;
            TablesOrdered(limits, keyCount, t') && Join(t') == Join(t) + [Streamed(s)]
  {
    AscendingAppend(StreamKeys(t.streams), ExactKey(s.exact));
    assert StreamKeys(t.streams + [s]) == StreamKeys(t.streams) + [ExactKey(s.exact)];
    assert StreamMetas(t.streams + [s]) == StreamMetas(t.streams) + [Streamed(s)];
  }

  lemma {:induction false} NameStep(limits: Limits, keyCount: nat, t: Tables, id: Text)
    requires AddMeta(limits, keyCount, t, KeyName(id)).Some? && TablesOrdered(limits, keyCount, t)
    ensures var t' := AddMeta(limits, keyCount, t, KeyName(id)).value;
            TablesOrdered(limits, keyCount, t') && Join(t') == Join(t) + [KeyName(id)]
  {
    if t.names != [] { NameOrder(Last(t.names), id); }
    AscendingAppend(NameKeys(t.names), Key(id, None, 0));
    assert NameKeys(t.names + [id]) == NameKeys(t.names) + [Key(id, None, 0)];
    assert NameMetas(t.names + [id]) == NameMetas(t.names) + [KeyName(id)];
  }

  /** An accepted record goes to the end of the joined list and keeps the tables ordered. */
  lemma {:induction false} AddMetaSound(limits: Limits, keyCount: nat, t: Tables, m: Meta)
    requires AddMeta(limits, keyCount, t, m).Some? && TablesOrdered(limits, keyCount, t)
    ensures var t' := AddMeta(limits, keyCount, t, m).value;
            TablesOrdered(limits, keyCount, t') && Join(t') == Join(t) + [m]
  {
    match m {
      case Pack(c) => PackStep(limits, keyCount, t, c);
      case Streamed(s) => StreamStep(limits, keyCount, t, s);
      case KeyName(id) => NameStep(limits, keyCount, t, id);
      case Completion(r) =>
    }
  }

  lemma {:induction false} AddMetasSound(limits: Limits, keyCount: nat, t: Tables, metas: seq<Meta>)
    requires AddMetas(limits, keyCount, t, metas).Some? && TablesOrdered(limits, keyCount, t)
    ensures var t' := AddMetas(limits, keyCount, t, metas).value;
            TablesOrdered(limits, keyCount, t') && Join(t') == Join(t) + metas
    decreases |metas|
  {
    if metas != [] {
      AddMetaSound(limits, keyCount, t, metas[0]);
      AddMetasSound(limits, keyCount, AddMeta(limits, keyCount, t, metas[0]).value, metas[1..]);
      assert metas == [metas[0]] + metas[1..];
    }
  }

  // ---------------------------------------------------------------- completeness

  /** The tables whose records are the first `n` of these tables' records. */
  ghost function Prefix(t: Tables, n: nat): Tables
    requires n <= |Join(t)|
  {
    var a, b, c := |t.packs|, |t.packs| + |t.streams|, |t.packs| + |t.streams| + |t.names|;
    if n <= a then Tables(t.packs[..n], [], [], None)
    else if n <= b then Tables(t.packs, t.streams[..n - a], [], None)
    else if n <= c then Tables(t.packs, t.streams, t.names[..n - b], None)
    else t
  }

  lemma {:induction false} PrefixEnds(t: Tables)
    ensures Prefix(t, 0) == NO_TABLES && Prefix(t, |Join(t)|) == t
  {
    assert t.packs[..|t.packs|] == t.packs;
    assert t.streams[..|t.streams|] == t.streams;
    assert t.names[..|t.names|] == t.names;
  }

  lemma {:induction false} PrefixStep(limits: Limits, keyCount: nat, t: Tables, n: nat)
    requires TablesOrdered(limits, keyCount, t) && n < |Join(t)|
    ensures AddMeta(limits, keyCount, Prefix(t, n), Join(t)[n]) == Some(Prefix(t, n + 1))
  {
    var a, b, c := |t.packs|, |t.packs| + |t.streams|, |t.packs| + |t.streams| + |t.names|;
    if n < a {
      PackPrefixStep(limits, keyCount, t, n);
    } else if n < b {
      StreamPrefixStep(limits, keyCount, t, n - a);
    } else if n < c {
      NamePrefixStep(limits, keyCount, t, n - b);
    } else {
      assert t.packs[..|t.packs|] == t.packs && t.streams[..|t.streams|] == t.streams;
      assert t.names[..|t.names|] == t.names;
      assert Prefix(t, n) == t.(receipt := None);
    }
  }

  lemma {:induction false} PackPrefixStep(limits: Limits, keyCount: nat, t: Tables, n: nat)
    requires TablesOrdered(limits, keyCount, t) && n < |t.packs|
    ensures AddMeta(limits, keyCount, Prefix(t, n), Join(t)[n]) == Some(Prefix(t, n + 1))
  {
    assert t.packs[..n + 1] == t.packs[..n] + [t.packs[n]];
    if n > 0 { assert KeyLess(ContainerKeys(t.packs)[n - 1], ContainerKeys(t.packs)[n]); }
  }

  lemma {:induction false} StreamPrefixStep(limits: Limits, keyCount: nat, t: Tables, n: nat)
    requires TablesOrdered(limits, keyCount, t) && n < |t.streams|
    ensures AddMeta(limits, keyCount, Prefix(t, |t.packs| + n), Join(t)[|t.packs| + n]) == Some(Prefix(t, |t.packs| + n + 1))
  {
    assert t.packs[..|t.packs|] == t.packs;
    assert t.streams[..n + 1] == t.streams[..n] + [t.streams[n]];
    if n > 0 { assert KeyLess(StreamKeys(t.streams)[n - 1], StreamKeys(t.streams)[n]); }
  }

  lemma {:induction false} NamePrefixStep(limits: Limits, keyCount: nat, t: Tables, n: nat)
    requires TablesOrdered(limits, keyCount, t) && n < |t.names|
    ensures var b := |t.packs| + |t.streams|;
            AddMeta(limits, keyCount, Prefix(t, b + n), Join(t)[b + n]) == Some(Prefix(t, b + n + 1))
  {
    assert t.packs[..|t.packs|] == t.packs && t.streams[..|t.streams|] == t.streams;
    assert t.names[..n + 1] == t.names[..n] + [t.names[n]];
    if n > 0 {
      assert KeyLess(NameKeys(t.names)[n - 1], NameKeys(t.names)[n]);
      NameOrder(t.names[n - 1], t.names[n]);
    }
  }

  /** Tables reached one after another by reading the records. */
  ghost predicate ChainAt(limits: Limits, keyCount: nat, path: seq<Tables>, metas: seq<Meta>, n: nat)
    requires n < |metas| && |path| == |metas| + 1
  {
    AddMeta(limits, keyCount, path[n], metas[n]) == Some(path[n + 1])
  }

  ghost predicate Chain(limits: Limits, keyCount: nat, path: seq<Tables>, metas: seq<Meta>) {
    |path| == |metas| + 1 && forall n | 0 <= n < |metas| :: ChainAt(limits, keyCount, path, metas, n)
  }

  lemma {:induction false} ChainReads(limits: Limits, keyCount: nat, path: seq<Tables>, metas: seq<Meta>, a: nat, b: nat)
    requires Chain(limits, keyCount, path, metas) && a <= b <= |metas|
    ensures AddMetas(limits, keyCount, path[a], metas[a..b]) == Some(path[b])
    decreases b
  {
    if a < b {
      ChainReads(limits, keyCount, path, metas, a, b - 1);
      assert ChainAt(limits, keyCount, path, metas, b - 1);
      AddMetasSnoc(limits, keyCount, path[a], metas[a..b - 1], metas[b - 1]);
      assert metas[a..b] == metas[a..b - 1] + [metas[b - 1]];
    }
  }

  lemma {:induction false} ChainOrdered(limits: Limits, keyCount: nat, path: seq<Tables>, metas: seq<Meta>, n: nat)
    requires Chain(limits, keyCount, path, metas) && n <= |metas| && path[0] == NO_TABLES
    ensures TablesOrdered(limits, keyCount, path[n]) && Join(path[n]) == metas[..n]
  {
    ChainReads(limits, keyCount, path, metas, 0, n);
    AddMetasSound(limits, keyCount, NO_TABLES, metas[0..n]);
    assert Join(NO_TABLES) == [] && metas[0..n] == metas[..n];
  }

  /** All the tables on the way to these ones. */
  ghost function Path(t: Tables): (path: seq<Tables>)
    ensures |path| == |Join(t)| + 1
  {
    seq(|Join(t)| + 1, n requires 0 <= n <= |Join(t)| => Prefix(t, n))
  }

  /** Reading the records of ordered tables from any point rebuilds the tables. */
  lemma {:induction false} PathChains(limits: Limits, keyCount: nat, t: Tables)
    requires TablesOrdered(limits, keyCount, t)
    ensures Chain(limits, keyCount, Path(t), Join(t)) && Path(t)[0] == NO_TABLES && Path(t)[|Join(t)|] == t
  {
    PrefixEnds(t);
    forall n | 0 <= n < |Join(t)| ensures ChainAt(limits, keyCount, Path(t), Join(t), n) {
      PrefixStep(limits, keyCount, t, n);
    }
  }
}
