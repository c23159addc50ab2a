/** The bounded table of the newest accepted multipart completions. */
module Completion {
  import opened Prelude
  import opened Order
  import opened Types

  const MAX_RECEIPTS := 1024

  // ---------------------------------------------------------------- specification on sets of receipts

  predicate Compatible(a: Receipt, b: Receipt) {
    a.uploadId == b.uploadId || a.sequence == b.sequence ==> a == b
  }

  predicate Accepts(table: set<Receipt>, receipt: Receipt) {
    ValidReceipt(receipt) && forall other | other in table :: Compatible(other, receipt)
  }

  /** Receipts that can stand in one table: pairwise distinct identities and sequences. */
  ghost predicate Consistent(receipts: set<Receipt>) {
    forall a, b | a in receipts && b in receipts :: Compatible(a, b)
  }

  /** A valid receipt is accepted exactly when every held receipt is the same one or shares neither its
      upload ID nor its sequence; so one with a fresh ID and sequence always is. */
  lemma {:induction false} AcceptedExactly(table: set<Receipt>, receipt: Receipt)
    ensures Accepts(table, receipt) <==>
            ValidReceipt(receipt) && forall other | other in table ::
              other == receipt || (other.uploadId != receipt.uploadId && other.sequence != receipt.sequence)
  {
    forall other ensures Compatible(other, receipt) <==>
                         other == receipt || (other.uploadId != receipt.uploadId && other.sequence != receipt.sequence)
    {
    }
  }

  ghost predicate IsOldest(receipts: set<Receipt>, oldest: Receipt) {
    oldest in receipts && forall r | r in receipts && r != oldest :: oldest.sequence < r.sequence
  }

  lemma {:induction false} OldestExists(receipts: set<Receipt>) returns (oldest: Receipt)
    requires receipts != {} && Consistent(receipts)
    ensures IsOldest(receipts, oldest)
    decreases |receipts|
  {
    var r :| r in receipts;
    var rest := receipts - {r};
    if rest == {} {
      assert receipts == {r};
      oldest := r;
    } else {
      var o := OldestExists(rest);
      assert Compatible(o, r);
      oldest := if o.sequence < r.sequence then o else r;
    }
  }

  ghost function Oldest(receipts: set<Receipt>): (oldest: Receipt)
    requires receipts != {} && Consistent(receipts)
    ensures IsOldest(receipts, oldest)
  {
    assert exists o :: IsOldest(receipts, o) by { var o := OldestExists(receipts); }
    var o :| IsOldest(receipts, o);
    o
  }

  ghost predicate IsTable(table: set<Receipt>) {
    Consistent(table) && |table| <= MAX_RECEIPTS
  }

  ghost function Inserted(table: set<Receipt>, receipt: Receipt): set<Receipt>
    requires IsTable(table) && Accepts(table, receipt)
  {
    var grown := table + {receipt};
    if |grown| > MAX_RECEIPTS then grown - {Oldest(grown)} else grown
  }

  /** What insertion does: the table grows by the receipt, then drops its oldest one if too large. */
  lemma {:induction false} InsertedFacts(table: set<Receipt>, receipt: Receipt)
    requires IsTable(table) && Accepts(table, receipt)
    ensures var grown, after := table + {receipt}, Inserted(table, receipt);
            && IsTable(after) && after <= grown
            && |grown| == |table| + (if receipt in table then 0 else 1)
            && (|grown| <= MAX_RECEIPTS ==> after == grown)
            && (|grown| > MAX_RECEIPTS ==> receipt !in table && |table| == MAX_RECEIPTS == |after|)
            && (forall r, t | r in grown && r !in after && t in after :: r.sequence < t.sequence)
  {
    var grown := table + {receipt};
    GrownSize(table, receipt);
    if |grown| > MAX_RECEIPTS { DroppedSize(grown, Oldest(grown)); }
  }

  lemma {:induction false} GrownSize(table: set<Receipt>, receipt: Receipt)
    ensures |table + {receipt}| == |table| + (if receipt in table then 0 else 1)
  {
    if receipt in table { assert table + {receipt} == table; }
  }

  lemma {:induction false} DroppedSize(grown: set<Receipt>, oldest: Receipt)
    requires oldest in grown
    ensures |grown - {oldest}| == |grown| - 1
  {
  }

  /** The table after a history of insert attempts, and the receipts that were accepted. */
  datatype Ledger = Ledger(table: set<Receipt>, accepted: set<Receipt>)

  /** The table is exactly the newest accepted receipts, up to the bound. */
  ghost predicate HoldsNewest(ledger: Ledger) {
    && IsTable(ledger.table)
    && ledger.table <= ledger.accepted
    && (forall r, t | r in ledger.accepted && r !in ledger.table && t in ledger.table :: r.sequence < t.sequence)
    && (ledger.table != ledger.accepted ==> |ledger.table| == MAX_RECEIPTS)
  }

  ghost function Attempt(ledger: Ledger, receipt: Receipt): Ledger
    requires IsTable(ledger.table)
  {
    if Accepts(ledger.table, receipt) then
      Ledger(Inserted(ledger.table, receipt), ledger.accepted + {receipt})
    else ledger
  }

  lemma {:induction false} AttemptHoldsNewest(ledger: Ledger, receipt: Receipt)
    requires HoldsNewest(ledger)
    ensures HoldsNewest(Attempt(ledger, receipt))
  {
    if Accepts(ledger.table, receipt) {
      InsertedFacts(ledger.table, receipt);
    }
  }

  /** Inserting never brings back a receipt that was accepted and dropped before. */
  lemma {:induction false} AttemptKeepsEvicted(ledger: Ledger, receipt: Receipt, evicted: Receipt)
    requires HoldsNewest(ledger) && evicted in ledger.accepted && evicted !in ledger.table
    ensures evicted in Attempt(ledger, receipt).accepted && evicted !in Attempt(ledger, receipt).table
  {
    if Accepts(ledger.table, receipt) && receipt == evicted {
      InsertedFacts(ledger.table, receipt);
      var grown := ledger.table + {receipt};
      assert |grown| == |ledger.table| + 1;
      assert IsOldest(grown, receipt);
      assert Oldest(grown) == receipt;
    }
  }

  /** A ledger after further attempts; every one of them keeps the newest accepted receipts. */
  ghost function Continue(ledger: Ledger, later: seq<Receipt>): (after: Ledger)
    requires HoldsNewest(ledger)
    ensures HoldsNewest(after)
    decreases |later|
  {
    if later == [] then ledger
    else
      AttemptHoldsNewest(ledger, later[0]);
      Continue(Attempt(ledger, later[0]), later[1..])
  }

  /** The ledger after a history of insert attempts on an empty table. */
  ghost function Replay(history: seq<Receipt>): Ledger {
    Continue(Ledger({}, {}), history)
  }

  /** An accepted receipt that is no longer held never reappears, whatever is inserted later. */
  lemma {:induction false} EvictedStaysEvicted(ledger: Ledger, later: seq<Receipt>, receipt: Receipt)
    requires HoldsNewest(ledger) && receipt in ledger.accepted && receipt !in ledger.table
    ensures receipt in Continue(ledger, later).accepted && receipt !in Continue(ledger, later).table
    decreases |later|
  {
    if later != [] {
      AttemptKeepsEvicted(ledger, later[0], receipt);
      AttemptHoldsNewest(ledger, later[0]);
      EvictedStaysEvicted(Attempt(ledger, later[0]), later[1..], receipt);
    }
  }

  /** After any attempts the table holds all accepted receipts while there are at most 1024 of them, and
      the 1024 with the largest sequences from then on. */
  lemma {:induction false} TableIsBounded(history: seq<Receipt>)
    ensures var Ledger(table, accepted) := Replay(history);
            && table <= accepted && |table| == (if |accepted| <= 1024 then |accepted| else 1024)
            && (forall r, t | r in accepted && r !in table && t in table :: r.sequence < t.sequence)
  {
    var Ledger(table, accepted) := Replay(history);
    if table != accepted { SubsetSmaller(table, accepted); }
  }

  /** The newest receipts of a set are determined by the set. */
  lemma {:induction false} NewestIsUnique(accepted: set<Receipt>, a: set<Receipt>, b: set<Receipt>)
    requires HoldsNewest(Ledger(a, accepted)) && HoldsNewest(Ledger(b, accepted))
    ensures a == b
  {
    NewestIncluded(accepted, a, b);
    NewestIncluded(accepted, b, a);
  }

  lemma {:induction false} NewestIncluded(accepted: set<Receipt>, a: set<Receipt>, b: set<Receipt>)
    requires HoldsNewest(Ledger(a, accepted)) && HoldsNewest(Ledger(b, accepted))
    ensures a <= b
  {
    forall r | r in a ensures r in b {
      if r !in b {
        assert b < a;
        SubsetSmaller(b, a);
      }
    }
  }

  lemma {:induction false} SubsetSmaller(a: set<Receipt>, b: set<Receipt>)
    requires a < b
    ensures |a| < |b|
  {
    var x :| x in b && x !in a;
    if a != {} {
      var y :| y in a;
      SubsetSmaller(a - {y}, b - {y});
    }
  }

  ghost function Elements(history: seq<Receipt>): set<Receipt> {
    set r | r in history
  }

  lemma {:induction false} ConsistentAttempt(ledger: Ledger, receipt: Receipt, all: set<Receipt>)
    requires HoldsNewest(ledger) && Consistent(all) && ledger.accepted + {receipt} <= all && ValidReceipt(receipt)
    ensures Attempt(ledger, receipt).accepted == ledger.accepted + {receipt}
    ensures HoldsNewest(Attempt(ledger, receipt))
  {
    assert Accepts(ledger.table, receipt);
    AttemptHoldsNewest(ledger, receipt);
  }

  /** Every attempt of a consistent history of valid receipts is accepted. */
  lemma {:induction false} ConsistentHistoryAccepted(ledger: Ledger, later: seq<Receipt>, all: set<Receipt>)
    requires HoldsNewest(ledger) && Consistent(all) && ledger.accepted <= all && Elements(later) <= all
    requires forall r | r in later :: ValidReceipt(r)
    ensures Continue(ledger, later).accepted == ledger.accepted + Elements(later)
    decreases |later|
  {
    if later != [] {
      var rest := later[1..];
      assert later == [later[0]] + rest;
      assert Elements(later) == {later[0]} + Elements(rest);
      ConsistentAttempt(ledger, later[0], all);
      ConsistentHistoryAccepted(Attempt(ledger, later[0]), rest, all);
    }
  }

  /** Replaying a consistent history in any order with any repeats gives the same table. */
  lemma {:induction false} ReplayOrderIrrelevant(history: seq<Receipt>, other: seq<Receipt>)
    requires Elements(history) == Elements(other)
    requires Consistent(Elements(history)) && forall r | r in Elements(history) :: ValidReceipt(r)
    ensures Replay(history).table == Replay(other).table
  {
    ConsistentHistoryAccepted(Ledger({}, {}), history, Elements(history));
    ConsistentHistoryAccepted(Ledger({}, {}), other, Elements(history));
    NewestIsUnique(Elements(history), Replay(history).table, Replay(other).table);
  }

  // ---------------------------------------------------------------- the table itself

  type Entries = map<Bytes32, Receipt>

  ghost predicate Keyed(entries: Entries) {
    forall id | id in entries :: entries[id].uploadId == id
  }

  lemma {:induction false} RemoveReceipt(entries: Entries, id: Bytes32)
    requires Keyed(entries) && id in entries
    ensures var rest := entries - {id}; Keyed(rest) && rest.Values == entries.Values - {entries[id]}
  {
    var rest := entries - {id};
    forall r | r in entries.Values - {entries[id]} ensures r in rest.Values {
      var other :| other in entries && entries[other] == r;
      assert other in rest && rest[other] == r;
    }
  }

  lemma {:induction false} ValuesSize(entries: Entries)
    requires Keyed(entries)
    ensures |entries.Values| == |entries|
    decreases |entries|
  {
    if entries == map[] {
      assert entries.Values == {};
    } else {
      var id :| id in entries;
      var rest := entries - {id};
      RemoveReceipt(entries, id);
      ValuesSize(rest);
      assert |rest| == |entries| - 1 by { assert rest.Keys == entries.Keys - {id}; }
      assert entries[id] in entries.Values;
    }
  }

  /** A bounded, strictly ID-ordered root snapshot. */
  ghost predicate SnapshotOk(receipts: seq<Receipt>) {
    && |receipts| <= MAX_RECEIPTS
    && (forall i | 0 <= i < |receipts| :: ValidReceipt(receipts[i]))
    && (forall i | 0 < i < |receipts| :: Less(receipts[i - 1].uploadId, receipts[i].uploadId))
    && (forall i, j | 0 <= i < j < |receipts| :: receipts[i].sequence != receipts[j].sequence)
  }

  /** The least sequence held, as `min_by_key` finds it. */
  method FindOldest(entries: Entries) returns (oldest: Bytes32)
    requires Keyed(entries) && Consistent(entries.Values) && entries != map[]
    ensures oldest in entries && IsOldest(entries.Values, entries[oldest])
  {
    var pending := entries.Keys;
    oldest :| oldest in pending;
    pending := pending - {oldest};
    while pending != {}
      invariant pending <= entries.Keys && oldest in entries && oldest !in pending
      invariant forall id | id in entries && id !in pending && id != oldest ::
                  entries[oldest].sequence < entries[id].sequence
      decreases pending
    {
      var id :| id in pending;
      pending := pending - {id};
      assert entries[id] in entries.Values && entries[oldest] in entries.Values;
      assert Compatible(entries[id], entries[oldest]);
      if entries[id].sequence < entries[oldest].sequence { oldest := id; }
    }
  }

  lemma {:induction false} GrownTable(entries: Entries, receipt: Receipt)
    requires Keyed(entries) && IsTable(entries.Values) && Accepts(entries.Values, receipt)
    ensures var grown := entries[receipt.uploadId := receipt];
            && Keyed(grown) && Consistent(grown.Values) && |grown| == |grown.Values|
            && grown.Values == entries.Values + {receipt}
            && (|grown| <= MAX_RECEIPTS ==> grown.Values == Inserted(entries.Values, receipt) && IsTable(grown.Values))
  {
    assert receipt.uploadId in entries ==> entries[receipt.uploadId] in entries.Values;
    PutReceipt(entries, receipt);
    InsertedFacts(entries.Values, receipt);
    ValuesSize(entries[receipt.uploadId := receipt]);
  }

  lemma {:induction false} OldestDropped(table: set<Receipt>, receipt: Receipt, oldest: Receipt)
    requires IsTable(table) && Accepts(table, receipt)
    requires |table + {receipt}| > MAX_RECEIPTS && IsOldest(table + {receipt}, oldest)
    ensures Inserted(table, receipt) == table + {receipt} - {oldest} && IsTable(Inserted(table, receipt))
  {
    assert Oldest(table + {receipt}) == oldest;
    InsertedFacts(table, receipt);
  }

  class CompletionReceipts {
    var entries: Entries

    ghost predicate Valid()
      reads this
    {
      Keyed(entries) && IsTable(entries.Values)
    }

    constructor ()
      ensures Valid() && entries.Values == {}
    {
      entries := map[];
    }

    /** Rejects without change, or applies one verified result and evicts the oldest if necessary. */
    method Insert(receipt: Receipt) returns (ok: bool)
      requires Valid()
      modifies this
      ensures Valid()
      ensures ok <==> Accepts(old(entries.Values), receipt)
      ensures ok <==> ValidReceipt(receipt) && forall other | other in old(entries.Values) ::
                other == receipt || (other.uploadId != receipt.uploadId && other.sequence != receipt.sequence)
      ensures !ok ==> entries == old(entries)
      ensures ok ==> entries.Values == Inserted(old(entries.Values), receipt)
    {
      ok := Accepts(entries.Values, receipt);
      AcceptedExactly(entries.Values, receipt);
      if !ok { return; }
      var grown := entries[receipt.uploadId := receipt];
      GrownTable(entries, receipt);
      if |grown| > MAX_RECEIPTS {
        var oldest := FindOldest(grown);
        OldestDropped(entries.Values, receipt, grown[oldest]);
        RemoveReceipt(grown, oldest);
        entries := grown - {oldest};
      } else {
        entries := grown;
      }
    }

    /** Opens a snapshot without silent eviction; refuses disorder, duplicates and excess. */
    static method FromSnapshot(receipts: seq<Receipt>) returns (loaded: CompletionReceipts?)
      ensures loaded != null <==> SnapshotOk(receipts)
      ensures loaded != null ==> fresh(loaded) && loaded.Valid() && loaded.entries.Values == Elements(receipts)
    {
      var entries := LoadSnapshot(receipts);
      if entries.None? { return null; }
      SnapshotIsTable(receipts);
      loaded := new CompletionReceipts();
      loaded.entries := entries.value;
    }
  }

  method LoadSnapshot(receipts: seq<Receipt>) returns (loaded: Option<Entries>)
    ensures loaded.Some? <==> SnapshotOk(receipts)
    ensures loaded.Some? ==> Keyed(loaded.value) && loaded.value.Values == Elements(receipts)
  {
    if |receipts| > MAX_RECEIPTS { return None; }
    var sequences: set<U64> := {};
    var entries: Entries := map[];
    for i := 0 to |receipts|
      invariant SnapshotOk(receipts[..i])
      invariant Keyed(entries) && entries.Values == Elements(receipts[..i])
      invariant sequences == SequencesOf(receipts, i)
    {
      var receipt := receipts[i];
      if !ValidReceipt(receipt)
         || (i > 0 && !Less(receipts[i - 1].uploadId, receipt.uploadId))
         || receipt.sequence in sequences
      {
        SnapshotStops(receipts, i);
        return None;
      }
      SnapshotGrows(receipts, i, entries);
      entries := entries[receipt.uploadId := receipt];
      sequences := sequences + {receipt.sequence};
    }
    assert receipts[..|receipts|] == receipts;
    loaded := Some(entries);
  }

  ghost function SequencesOf(receipts: seq<Receipt>, n: nat): set<U64>
    requires n <= |receipts|
  {
    if n == 0 then {} else SequencesOf(receipts, n - 1) + {receipts[n - 1].sequence}
  }

  lemma {:induction false} SequencesHave(receipts: seq<Receipt>, n: nat, sequence: U64)
    requires n <= |receipts|
    ensures sequence in SequencesOf(receipts, n) <==> exists k | 0 <= k < n :: receipts[k].sequence == sequence
    decreases n
  {
    if n > 0 { SequencesHave(receipts, n - 1, sequence); }
  }

  lemma {:induction false} SnapshotStops(receipts: seq<Receipt>, i: nat)
    requires i < |receipts|
    requires || !ValidReceipt(receipts[i])
             || (i > 0 && !Less(receipts[i - 1].uploadId, receipts[i].uploadId))
             || receipts[i].sequence in SequencesOf(receipts, i)
    ensures !SnapshotOk(receipts)
  {
    SequencesHave(receipts, i, receipts[i].sequence);
  }

  lemma {:induction false} SnapshotGrows(receipts: seq<Receipt>, i: nat, entries: Entries)
    requires i < |receipts| <= MAX_RECEIPTS && SnapshotOk(receipts[..i])
    requires Keyed(entries) && entries.Values == Elements(receipts[..i])
    requires ValidReceipt(receipts[i]) && (i > 0 ==> Less(receipts[i - 1].uploadId, receipts[i].uploadId))
    requires receipts[i].sequence !in SequencesOf(receipts, i)
    ensures SnapshotOk(receipts[..i + 1])
    ensures var grown := entries[receipts[i].uploadId := receipts[i]];
            Keyed(grown) && grown.Values == Elements(receipts[..i + 1])
  {
    var front, receipt := receipts[..i], receipts[i];
    assert receipts[..i + 1] == front + [receipt];
    SequencesHave(receipts, i, receipt.sequence);
    forall k | 0 < k <= i ensures Less(receipts[k - 1].uploadId, receipts[k].uploadId) {
      assert k < i ==> front[k] == receipts[k];
      assert front[k - 1] == receipts[k - 1];
    }
    SnapshotIdsFresh(receipts, i);
    forall id | id in entries ensures id != receipt.uploadId {
      assert entries[id] in entries.Values;
      var k :| 0 <= k < i && front[k] == entries[id];
      assert receipts[k].uploadId == id;
    }
    PutReceipt(entries, receipt);
    assert Elements(receipts[..i + 1]) == Elements(front) + {receipt};
  }

  lemma {:induction false} PutReceipt(entries: Entries, receipt: Receipt)
    requires Keyed(entries)
    requires receipt.uploadId in entries ==> entries[receipt.uploadId] == receipt
    ensures var grown := entries[receipt.uploadId := receipt];
            Keyed(grown) && grown.Values == entries.Values + {receipt}
  {
    var grown := entries[receipt.uploadId := receipt];
    forall r | r in entries.Values + {receipt} ensures r in grown.Values {
      if r in entries.Values {
        var id :| id in entries && entries[id] == r;
        assert id in grown && grown[id] == r;
      } else {
        assert grown[receipt.uploadId] == r;
      }
    }
  }

  lemma {:induction false} SnapshotIdsIncrease(receipts: seq<Receipt>, i: nat, j: nat)
    requires i < j < |receipts|
    requires forall k | 0 < k <= j :: Less(receipts[k - 1].uploadId, receipts[k].uploadId)
    ensures Less(receipts[i].uploadId, receipts[j].uploadId)
    decreases j
  {
    if i < j - 1 {
      SnapshotIdsIncrease(receipts, i, j - 1);
      LessTransitive(receipts[i].uploadId, receipts[j - 1].uploadId, receipts[j].uploadId);
    }
  }

  lemma {:induction false} SnapshotIdsFresh(receipts: seq<Receipt>, n: nat)
    requires n < |receipts| && forall k | 0 < k <= n :: Less(receipts[k - 1].uploadId, receipts[k].uploadId)
    ensures forall i | 0 <= i < n :: receipts[i].uploadId != receipts[n].uploadId
  {
    forall i | 0 <= i < n ensures receipts[i].uploadId != receipts[n].uploadId {
      SnapshotIdsIncrease(receipts, i, n);
      LessIrreflexive(receipts[n].uploadId);
    }
  }

  lemma {:induction false} SnapshotIsTable(receipts: seq<Receipt>)
    requires SnapshotOk(receipts)
    ensures IsTable(Elements(receipts))
  {
    forall a, b | a in Elements(receipts) && b in Elements(receipts) ensures Compatible(a, b) {
      var i :| 0 <= i < |receipts| && receipts[i] == a;
      var j :| 0 <= j < |receipts| && receipts[j] == b;
      if i < j { SnapshotIdsFresh(receipts, j); }
      if j < i { SnapshotIdsFresh(receipts, i); }
    }
    ElementsSize(receipts);
  }

  lemma {:induction false} ElementsSize(receipts: seq<Receipt>)
    ensures |Elements(receipts)| <= |receipts|
  {
    if receipts != [] {
      ElementsSize(receipts[1..]);
      assert receipts == [receipts[0]] + receipts[1..];
      assert Elements(receipts) == {receipts[0]} + Elements(receipts[1..]);
    }
  }

  /** Listing any reachable table in upload-ID order is a snapshot that `FromSnapshot` accepts, and by its
      contract loading it gives the same table. */
  lemma {:induction false} ReachableTableSnapshots(history: seq<Receipt>, listed: seq<Receipt>)
    requires Elements(listed) == Replay(history).table
    requires forall i | 0 < i < |listed| :: Less(listed[i - 1].uploadId, listed[i].uploadId)
    ensures SnapshotOk(listed)
  {
    var table := Replay(history).table;
    AcceptedAreValid(Ledger({}, {}), history);
    forall i | 0 <= i < |listed| ensures ValidReceipt(listed[i]) {
      assert listed[i] in Elements(listed);
    }
    forall i, j | 0 <= i < j < |listed| ensures listed[i].sequence != listed[j].sequence {
      SnapshotIdsFresh(listed, j);
      assert listed[i] in Elements(listed) && listed[j] in Elements(listed);
      assert Compatible(listed[i], listed[j]);
    }
    DistinctSize(listed);
  }

  lemma {:induction false} AcceptedAreValid(ledger: Ledger, later: seq<Receipt>)
    requires HoldsNewest(ledger) && forall r | r in ledger.accepted :: ValidReceipt(r)
    ensures forall r | r in Continue(ledger, later).accepted :: ValidReceipt(r)
    decreases |later|
  {
    if later != [] {
      AttemptHoldsNewest(ledger, later[0]);
      AcceptedAreValid(Attempt(ledger, later[0]), later[1..]);
    }
  }

  lemma {:induction false} DistinctSize(listed: seq<Receipt>)
    requires forall i | 0 < i < |listed| :: Less(listed[i - 1].uploadId, listed[i].uploadId)
    ensures |Elements(listed)| == |listed|
  {
    if listed != [] {
      var n := |listed| - 1;
      DistinctSize(listed[..n]);
      SnapshotIdsFresh(listed, n);
      assert listed == listed[..n] + [listed[n]];
      assert Elements(listed) == Elements(listed[..n]) + {listed[n]};
      assert listed[n] !in Elements(listed[..n]);
    }
  }
}
