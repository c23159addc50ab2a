/** The in-memory namespace index: live entries with a forward and a reverse prefix map, and
    per-key rollback. */
module NamespaceIndex {
  import opened Prelude
  import opened Order

  type BlindKey = Data
  type Token = Data

  /** A namespace entry; only its blind key matters to the index. */
  datatype Entry = Entry(blindKey: BlindKey, manifestId: Data, contentLen: U64, generation: U64)

  /** What one key holds: its entry and its prefix tokens. */
  datatype Row = Row(entry: Entry, tokens: set<Token>)

  type Rows = map<BlindKey, Row>
  type Forward = map<BlindKey, set<Token>>
  type Reverse = map<Token, set<BlindKey>>

  /** Opaque snapshot of one key. */
  datatype Snapshot = Snapshot(blindKey: BlindKey, entry: Option<Entry>, tokens: seq<Token>)

  function Elements(tokens: seq<Token>): set<Token> {
    set t | t in tokens
  }

  // ---------------------------------------------------------------- specification on rows

  datatype Change = Upsert(entry: Entry, tokens: seq<Token>) | Remove(key: BlindKey)

  function Target(change: Change): BlindKey {
    match change
    case Upsert(entry, _) => entry.blindKey
    case Remove(key) => key
  }

  function Apply(rows: Rows, change: Change): Rows {
    match change
    case Upsert(entry, tokens) => rows[entry.blindKey := Row(entry, Elements(tokens))]
    case Remove(key) => rows - {key}
  }

  function Run(rows: Rows, changes: seq<Change>): Rows
    decreases |changes|
  {
    if changes == [] then rows else Run(Apply(rows, changes[0]), changes[1..])
  }

  /** The last change of a key, if any. */
  function LastChange(changes: seq<Change>, key: BlindKey): Option<Change>
    decreases |changes|
  {
    if changes == [] then None
    else if Target(changes[|changes| - 1]) == key then Some(changes[|changes| - 1])
    else LastChange(changes[..|changes| - 1], key)
  }

  lemma {:induction false} RunSnoc(rows: Rows, changes: seq<Change>)
    requires changes != []
    ensures Run(rows, changes) == Apply(Run(rows, changes[..|changes| - 1]), changes[|changes| - 1])
    decreases |changes|
  {
    if |changes| > 1 {
      RunSnoc(Apply(rows, changes[0]), changes[1..]);
      assert changes[1..][..|changes| - 2] == changes[..|changes| - 1][1..];
    }
  }

  /** After any changes a key holds exactly the entry and the tokens of its last upsert, nothing if it
      was removed last, and what it held before if it was never changed. */
  lemma {:induction false} LastChangeDecides(rows: Rows, changes: seq<Change>, key: BlindKey)
    ensures var after := Run(rows, changes);
            match LastChange(changes, key)
            case None => (key in after <==> key in rows) && (key in rows ==> after[key] == rows[key])
            case Some(Remove(_)) => key !in after
            case Some(Upsert(entry, tokens)) =>
              && key in after && entry.blindKey == key && after[key].entry == entry
              && forall t :: t in after[key].tokens <==> t in tokens
    decreases |changes|
  {
    if changes != [] {
      RunSnoc(rows, changes);
      LastChangeDecides(rows, changes[..|changes| - 1], key);
    }
  }

  /** A snapshot is of `rows` when it records exactly what its key holds there. */
  ghost predicate SnapshotOf(rows: Rows, snapshot: Snapshot) {
    if snapshot.blindKey in rows then
      snapshot.entry == Some(rows[snapshot.blindKey].entry)
      && Elements(snapshot.tokens) == rows[snapshot.blindKey].tokens
    else snapshot.entry == None
  }

  function Restored(rows: Rows, snapshot: Snapshot): Rows {
    match snapshot.entry
    case None => rows - {snapshot.blindKey}
    case Some(entry) => Apply(rows - {snapshot.blindKey}, Upsert(entry, snapshot.tokens))
  }

  /** The changes that do not touch one key. */
  function Elsewhere(changes: seq<Change>, key: BlindKey): seq<Change>
    decreases |changes|
  {
    if changes == [] then []
    else if Target(changes[0]) == key then Elsewhere(changes[1..], key)
    else [changes[0]] + Elsewhere(changes[1..], key)
  }

  ghost predicate WellKeyed(rows: Rows) {
    forall k | k in rows :: rows[k].entry.blindKey == k
  }

  /** Rolling a key back after any interleaved changes gives the index in which that key's changes
      never happened: the key is exactly as captured and every other key keeps its later changes. */
  lemma {:induction false} RollbackErasesKey(rows: Rows, changes: seq<Change>, snapshot: Snapshot)
    requires WellKeyed(rows) && SnapshotOf(rows, snapshot)
    ensures Restored(Run(rows, changes), snapshot) == Run(rows, Elsewhere(changes, snapshot.blindKey))
  {
    RestoreReplaces(rows, rows, snapshot);
    RollbackFrom(rows, rows, changes, snapshot);
  }

  /** Restoring changes nothing but the captured key, and sets that one to what was captured. */
  lemma {:induction false} RestoreReplaces(rows: Rows, captured: Rows, snapshot: Snapshot)
    requires WellKeyed(captured) && SnapshotOf(captured, snapshot)
    ensures forall k :: k != snapshot.blindKey ==>
              (k in Restored(rows, snapshot) <==> k in rows)
              && (k in rows ==> Restored(rows, snapshot)[k] == rows[k])
    ensures var k := snapshot.blindKey;
            (k in Restored(rows, snapshot) <==> k in captured)
            && (k in captured ==> Restored(rows, snapshot)[k] == captured[k])
  {
  }

  ghost predicate SameElsewhere(a: Rows, b: Rows, key: BlindKey) {
    forall k :: k != key ==> (k in a <==> k in b) && (k in a ==> a[k] == b[k])
  }

  lemma {:induction false} RollbackFrom(changed: Rows, kept: Rows, changes: seq<Change>, snapshot: Snapshot)
    requires WellKeyed(kept) && SnapshotOf(kept, snapshot) && SameElsewhere(changed, kept, snapshot.blindKey)
    ensures Restored(Run(changed, changes), snapshot) == Run(kept, Elsewhere(changes, snapshot.blindKey))
    decreases |changes|
  {
    if changes == [] {
      RestoreReplaces(changed, kept, snapshot);
      assert Restored(changed, snapshot) == kept;
    } else if Target(changes[0]) == snapshot.blindKey {
      RollbackFrom(Apply(changed, changes[0]), kept, changes[1..], snapshot);
    } else {
      var rest := Elsewhere(changes, snapshot.blindKey);
      assert rest[1..] == Elsewhere(changes[1..], snapshot.blindKey);
      RollbackFrom(Apply(changed, changes[0]), Apply(kept, changes[0]), changes[1..], snapshot);
    }
  }

  // ---------------------------------------------------------------- the three maps

  /** The reverse map is the exact inverse of the forward one and neither holds an empty set. */
  ghost predicate Inverse(forward: Forward, reverse: Reverse) {
    && (forall k | k in forward :: forward[k] != {})
    && (forall t | t in reverse :: reverse[t] != {})
    && (forall k, t | k in forward && t in forward[k] :: t in reverse && k in reverse[t])
    && (forall t, k | t in reverse && k in reverse[t] :: k in forward && t in forward[k])
  }

  ghost predicate Agree(entries: map<BlindKey, Entry>, forward: Forward, reverse: Reverse) {
    && (forall k | k in entries :: entries[k].blindKey == k)
    && forward.Keys <= entries.Keys
    && Inverse(forward, reverse)
  }

  ghost function RowsOf(entries: map<BlindKey, Entry>, forward: Forward): Rows {
    map k | k in entries :: Row(entries[k], if k in forward then forward[k] else {})
  }

  /** The rows determine all three maps, so equal rows mean identical indexes. */
  lemma {:induction false} RowsDetermineMaps(
      entries: map<BlindKey, Entry>, forward: Forward, reverse: Reverse,
      entries': map<BlindKey, Entry>, forward': Forward, reverse': Reverse)
    requires Agree(entries, forward, reverse) && Agree(entries', forward', reverse')
    requires RowsOf(entries, forward) == RowsOf(entries', forward')
    ensures entries == entries' && forward == forward' && reverse == reverse'
  {
    var rows := RowsOf(entries, forward);
    assert entries.Keys == rows.Keys == entries'.Keys;
    assert forall k | k in entries :: entries[k] == rows[k].entry == entries'[k];
    ForwardFromRows(entries, forward, reverse);
    ForwardFromRows(entries', forward', reverse');
    ReverseUnique(forward, reverse, reverse');
  }

  lemma {:induction false} ForwardFromRows(entries: map<BlindKey, Entry>, forward: Forward, reverse: Reverse)
    requires Agree(entries, forward, reverse)
    ensures var rows := RowsOf(entries, forward);
            forward == map k | k in rows && rows[k].tokens != {} :: rows[k].tokens
  {
  }

  lemma {:induction false} ReverseUnique(forward: Forward, a: Reverse, b: Reverse)
    requires Inverse(forward, a) && Inverse(forward, b)
    ensures a == b
  {
    ReverseIncluded(forward, a, b);
    ReverseIncluded(forward, b, a);
    assert a.Keys == b.Keys;
    assert forall t | t in a :: a[t] == b[t];
  }

  lemma {:induction false} ReverseIncluded(forward: Forward, a: Reverse, b: Reverse)
    requires Inverse(forward, a) && Inverse(forward, b)
    ensures forall t | t in a :: t in b && a[t] <= b[t]
  {
    forall t | t in a ensures t in b && a[t] <= b[t] {
      var member :| member in a[t];
      forall k | k in a[t] ensures t in b && k in b[t] {
        assert k in forward && t in forward[k];
      }
    }
  }

  /** The key is listed under the token. */
  predicate Filed(reverse: Reverse, token: Token, key: BlindKey) {
    token in reverse && key in reverse[token]
  }

  lemma {:induction false} FiledByForward(forward: Forward, reverse: Reverse)
    requires Inverse(forward, reverse)
    ensures forall t, k :: Filed(reverse, t, k) <==> k in forward && t in forward[k]
  {
  }

  lemma {:induction false} UpsertFiles(
      forward: Forward, reverse: Reverse, forward': Forward, reverse': Reverse, key: BlindKey, tokens: seq<Token>)
    requires Inverse(forward, reverse) && Inverse(forward', reverse')
    requires forward' == if Elements(tokens) == {} then forward - {key} else (forward - {key})[key := Elements(tokens)]
    ensures forall t :: Filed(reverse', t, key) <==> t in tokens
    ensures forall t, k | k != key :: Filed(reverse', t, k) <==> Filed(reverse, t, k)
  {
    FiledByForward(forward, reverse);
    FiledByForward(forward', reverse');
    forall t ensures Filed(reverse', t, key) <==> t in tokens {
      assert t in tokens <==> t in Elements(tokens);
    }
  }

  /** The reverse map with one key struck from the buckets of some tokens, dropping empty buckets. */
  ghost function Struck(reverse: Reverse, key: BlindKey, tokens: set<Token>): Reverse {
    map t | t in reverse && (t in tokens ==> reverse[t] - {key} != {}) ::
      if t in tokens then reverse[t] - {key} else reverse[t]
  }

  /** The reverse map with one key added to the buckets of some tokens. */
  ghost function Tagged(reverse: Reverse, key: BlindKey, tokens: set<Token>): Reverse {
    map t | t in reverse.Keys + tokens ::
      (if t in reverse then reverse[t] else {}) + (if t in tokens then {key} else {})
  }

  lemma {:induction false} StruckInverse(forward: Forward, reverse: Reverse, key: BlindKey)
    requires Inverse(forward, reverse) && key in forward
    ensures Inverse(forward - {key}, Struck(reverse, key, forward[key]))
  {
    var after := Struck(reverse, key, forward[key]);
    forall k, t | k in forward - {key} && t in (forward - {key})[k] ensures t in after && k in after[t] {
      assert t in reverse && k in reverse[t];
      assert k in reverse[t] - {key};
    }
  }

  lemma {:induction false} TaggedNone(reverse: Reverse, key: BlindKey)
    ensures Tagged(reverse, key, {}) == reverse
  {
    assert Tagged(reverse, key, {}).Keys == reverse.Keys;
    assert forall t | t in reverse :: Tagged(reverse, key, {})[t] == reverse[t];
  }

  lemma {:induction false} TaggedStep(reverse: Reverse, key: BlindKey, tokens: set<Token>, token: Token)
    ensures var now := Tagged(reverse, key, tokens);
            now[token := (if token in now then now[token] else {}) + {key}] == Tagged(reverse, key, tokens + {token})
  {
    var now, after := Tagged(reverse, key, tokens), Tagged(reverse, key, tokens + {token});
    var next := now[token := (if token in now then now[token] else {}) + {key}];
    assert next.Keys == after.Keys;
    assert forall t | t in next :: next[t] == after[t];
  }

  lemma {:induction false} TaggedInverse(forward: Forward, reverse: Reverse, key: BlindKey, tokens: set<Token>)
    requires Inverse(forward, reverse) && key !in forward && tokens != {}
    ensures Inverse(forward[key := tokens], Tagged(reverse, key, tokens))
  {
  }

  // ---------------------------------------------------------------- the index

  class Index {
    var entries: map<BlindKey, Entry>
    var entryPrefixes: Forward
    var prefixes: Reverse

    ghost predicate Valid()
      reads this
    {
      Agree(entries, entryPrefixes, prefixes)
    }

    ghost function Rows(): Rows
      reads this
    {
      RowsOf(entries, entryPrefixes)
    }

    constructor ()
      ensures Valid() && Rows() == map[]
    {
      entries, entryPrefixes, prefixes := map[], map[], map[];
    }

    /** Inserts or replaces an entry and associates it with prefix tokens. */
    method Upsert(entry: Entry, tokens: seq<Token>)
      requires Valid()
      modifies this
      ensures Valid()
      ensures Rows() == Apply(old(Rows()), Change.Upsert(entry, tokens))
      ensures entries == old(entries)[entry.blindKey := entry]
      ensures forall t :: Filed(prefixes, t, entry.blindKey) <==> t in tokens
      ensures forall t, k | k != entry.blindKey :: Filed(prefixes, t, k) <==> Filed(old(prefixes), t, k)
    {
      RemovePrefixMembership(entry.blindKey);
      var prefixSet := Elements(tokens);
      AddPrefixMembership(entry.blindKey, prefixSet);
      entries := entries[entry.blindKey := entry];
      UpsertFiles(old(entryPrefixes), old(prefixes), entryPrefixes, prefixes, entry.blindKey, tokens);
    }

    method AddPrefixMembership(key: BlindKey, tokens: set<Token>)
      requires Inverse(entryPrefixes, prefixes) && key !in entryPrefixes
      modifies this`entryPrefixes, this`prefixes
      ensures Inverse(entryPrefixes, prefixes)
      ensures entryPrefixes == if tokens == {} then old(entryPrefixes) else old(entryPrefixes)[key := tokens]
    {
      var pending := tokens;
      TaggedNone(prefixes, key);
      assert tokens - pending == {};
      while pending != {}
        invariant pending <= tokens
        invariant prefixes == Tagged(old(prefixes), key, tokens - pending)
        invariant entryPrefixes == old(entryPrefixes)
        decreases pending
      {
        var token :| token in pending;
        var members := if token in prefixes then prefixes[token] else {};
        TaggedStep(old(prefixes), key, tokens - pending, token);
        assert tokens - (pending - {token}) == tokens - pending + {token};
        prefixes := prefixes[token := members + {key}];
        pending := pending - {token};
      }
      assert tokens - pending == tokens;
      if tokens != {} {
        TaggedInverse(entryPrefixes, old(prefixes), key, tokens);
        entryPrefixes := entryPrefixes[key := tokens];
      }
    }

    /** Removes an entry from the live index and its prefix lists. */
    method Remove(key: BlindKey)
      requires Valid()
      modifies this
      ensures Valid()
      ensures Rows() == Apply(old(Rows()), Change.Remove(key))
      ensures entries == old(entries) - {key}
      ensures forall t :: !Filed(prefixes, t, key)
      ensures forall t, k | k != key :: Filed(prefixes, t, k) <==> Filed(old(prefixes), t, k)
    {
      FiledByForward(entryPrefixes, prefixes);
      entries := entries - {key};
      RemovePrefixMembership(key);
      FiledByForward(entryPrefixes, prefixes);
    }

    method RemovePrefixMembership(key: BlindKey)
      requires Inverse(entryPrefixes, prefixes)
      modifies this`entryPrefixes, this`prefixes
      ensures Inverse(entryPrefixes, prefixes)
      ensures entryPrefixes == old(entryPrefixes) - {key}
    {
      if key !in entryPrefixes { return; }
      var tokens := entryPrefixes[key];
      ghost var before := prefixes;
      StruckInverse(entryPrefixes, prefixes, key);
      entryPrefixes := entryPrefixes - {key};
      var pending := tokens;
      assert prefixes == Struck(before, key, {});
      while pending != {}
        invariant pending <= tokens && entryPrefixes == old(entryPrefixes) - {key}
        invariant prefixes == Struck(before, key, tokens - pending)
        decreases pending
      {
        var token :| token in pending;
        if token in prefixes {
          var members := prefixes[token] - {key};
          prefixes := if members == {} then prefixes - {token} else prefixes[token := members];
        }
        pending := pending - {token};
      }
      assert tokens - pending == tokens;
    }

    /** Captures one key's live entry and prefix membership. */
    method SnapshotKey(key: BlindKey) returns (snapshot: Snapshot)
      requires Valid()
      ensures snapshot.blindKey == key && SnapshotOf(Rows(), snapshot)
    {
      var tokens := [];
      if key in entryPrefixes { tokens := InOrder(entryPrefixes[key]); }
      snapshot := Snapshot(key, if key in entries then Some(entries[key]) else None, tokens);
    }

    /** Restores a key from a snapshot captured before a staged change. */
    method RestoreKey(snapshot: Snapshot)
      requires Valid()
      modifies this
      ensures Valid()
      ensures Rows() == Restored(old(Rows()), snapshot)
    {
      Remove(snapshot.blindKey);
      if snapshot.entry.Some? { Upsert(snapshot.entry.value, snapshot.tokens); }
    }

    /** Lists, in key order, exactly the live entries whose tokens include the prefix token. */
    method ListPrefix(token: Token) returns (listed: seq<Entry>)
      requires Valid()
      ensures forall i, j | 0 <= i < j < |listed| :: Less(listed[i].blindKey, listed[j].blindKey)
      ensures forall e :: e in listed <==> Carries(Rows(), token, e)
      ensures forall e: Entry ::
                e in listed <==> e.blindKey in entries && entries[e.blindKey] == e && Filed(prefixes, token, e.blindKey)
    {
      listed := [];
      if token !in prefixes { return; }
      var keys := InOrder(prefixes[token]);
      for i := 0 to |keys|
        invariant |listed| == i
        invariant forall j | 0 <= j < i :: keys[j] in entries && listed[j] == entries[keys[j]]
      {
        assert keys[i] in prefixes[token];
        listed := listed + (if keys[i] in entries then [entries[keys[i]]] else []);
      }
      ListedExactly(entries, entryPrefixes, prefixes, token, keys, listed);
    }
  }

  /** An entry is live and carries the token. */
  ghost predicate Carries(rows: Rows, token: Token, e: Entry) {
    e.blindKey in rows && rows[e.blindKey].entry == e && token in rows[e.blindKey].tokens
  }

  lemma {:induction false} ListedExactly(
      entries: map<BlindKey, Entry>, forward: Forward, reverse: Reverse,
      token: Token, keys: seq<BlindKey>, listed: seq<Entry>)
    requires Agree(entries, forward, reverse) && token in reverse
    requires |listed| == |keys| && forall x :: x in keys <==> x in reverse[token]
    requires forall j | 0 <= j < |keys| :: keys[j] in entries && listed[j] == entries[keys[j]]
    ensures forall e :: e in listed <==> Carries(RowsOf(entries, forward), token, e)
  {
    var rows := RowsOf(entries, forward);
    forall e: Entry | Carries(rows, token, e) ensures e in listed {
      assert e.blindKey in keys;
      var j :| 0 <= j < |keys| && keys[j] == e.blindKey;
      assert listed[j] == e;
    }
    forall e | e in listed ensures Carries(rows, token, e) {
      var j :| 0 <= j < |listed| && listed[j] == e;
      assert keys[j] in reverse[token];
    }
  }

  /** The elements of a set in ascending order, as an ordered set iterates. */
  method InOrder(items: set<Data>) returns (listed: seq<Data>)
    ensures forall x :: x in listed <==> x in items
    ensures forall i, j | 0 <= i < j < |listed| :: Less(listed[i], listed[j])
  {
    var pending := items;
    listed := [];
    while pending != {}
      invariant pending <= items
      invariant forall x :: x in items <==> x in listed || x in pending
      invariant forall i, j | 0 <= i < j < |listed| :: Less(listed[i], listed[j])
      invariant forall i, x | 0 <= i < |listed| && x in pending :: Less(listed[i], x)
      decreases pending
    {
      var least := Least(pending);
      listed := listed + [least];
      pending := pending - {least};
    }
  }

  method Least(items: set<Data>) returns (least: Data)
    requires items != {}
    ensures least in items && forall x | x in items && x != least :: Less(least, x)
  {
    least :| least in items;
    var pending := items - {least};
    while pending != {}
      invariant pending <= items && least in items && least !in pending
      invariant forall x | x in items && x !in pending && x != least :: Less(least, x)
      decreases pending
    {
      var next :| next in pending;
      pending := pending - {next};
      LessTotal(least, next);
      if Less(next, least) {
        forall x | x in items && x !in pending && x != next ensures Less(next, x) {
          if x != least { LessTransitive(next, least, x); }
        }
        least := next;
      }
    }
  }
}
