/** Checking that pack records named by a run agree: repeated facts through a map, and disjoint
    ciphertext ranges through one pass over adjacent sorted spans. */
module Spans {
  import opened Prelude
  import opened RunModel

  // ---------------------------------------------------------------- sorted spans

  /** The order of spans: by pack, then by range, then by record. */
  predicate SpanLess(a: Claim, b: Claim) {
    || a.source < b.source
    || (a.source == b.source && a.start < b.start)
    || (a.source == b.source && a.start == b.start && ClaimEnd(a) < ClaimEnd(b))
    || (a.source == b.source && a.start == b.start && ClaimEnd(a) == ClaimEnd(b) && a.ordinal < b.ordinal)
  }

  ghost predicate SpansSorted(spans: seq<Claim>) {
    forall i | 0 < i < |spans| :: !SpanLess(spans[i], spans[i - 1])
  }

  function InsertSpan(span: Claim, sorted: seq<Claim>): seq<Claim> {
    if sorted == [] || !SpanLess(sorted[0], span) then [span] + sorted
    else [sorted[0]] + InsertSpan(span, sorted[1..])
  }

  function SortSpans(spans: seq<Claim>): seq<Claim> {
    if spans == [] then [] else InsertSpan(spans[0], SortSpans(spans[1..]))
  }

  lemma {:induction false} InsertSpanSorted(span: Claim, sorted: seq<Claim>)
    requires SpansSorted(sorted)
    ensures SpansSorted(InsertSpan(span, sorted))
    ensures multiset(InsertSpan(span, sorted)) == multiset(sorted) + multiset{span}
    ensures InsertSpan(span, sorted) != []
    ensures InsertSpan(span, sorted)[0] == span || (sorted != [] && InsertSpan(span, sorted)[0] == sorted[0])
  {
    if sorted == [] || !SpanLess(sorted[0], span) {
      assert multiset([span] + sorted) == multiset{span} + multiset(sorted);
    } else {
      InsertSpanSorted(span, sorted[1..]);
      assert sorted == [sorted[0]] + sorted[1..];
    }
  }

  lemma {:induction false} SortSpansSorts(spans: seq<Claim>)
    ensures SpansSorted(SortSpans(spans)) && multiset(SortSpans(spans)) == multiset(spans)
  {
    if spans != [] {
      SortSpansSorts(spans[1..]);
      InsertSpanSorted(spans[0], SortSpans(spans[1..]));
      assert spans == [spans[0]] + spans[1..];
    }
  }

  // ---------------------------------------------------------------- adjacent spans suffice

  predicate SameRecord(a: Claim, b: Claim) {
    a.source == b.source && a.ordinal == b.ordinal
  }

  ghost predicate DistinctRecords(spans: seq<Claim>) {
    forall i, j | 0 <= i < j < |spans| :: !SameRecord(spans[i], spans[j])
  }

  /** What is checked between neighbours. */
  predicate Clear(left: Claim, right: Claim) {
    left.source == right.source && left.ordinal != right.ordinal ==> ClaimEnd(left) <= right.start
  }

  ghost predicate AllAgree(spans: seq<Claim>) {
    forall i, j | 0 <= i < |spans| && 0 <= j < |spans| :: Agree(spans[i], spans[j])
  }

  lemma {:induction false} SourcesOrdered(spans: seq<Claim>, i: nat, j: nat)
    requires SpansSorted(spans) && i <= j < |spans|
    ensures spans[i].source <= spans[j].source
    decreases j
  {
    if i < j {
      SourcesOrdered(spans, i, j - 1);
      assert !SpanLess(spans[j], spans[j - 1]);
    }
  }

  /** Clear neighbours are enough: any two spans of one pack are apart, in their order. */
  lemma {:induction false} ClearApart(spans: seq<Claim>, i: nat, j: nat)
    requires SpansSorted(spans) && DistinctRecords(spans) && i < j < |spans| && spans[i].source == spans[j].source
    requires forall k | 0 < k < |spans| :: Clear(spans[k - 1], spans[k])
    ensures ClaimEnd(spans[i]) <= spans[j].start
    decreases j
  {
    SourcesOrdered(spans, i, j - 1);
    SourcesOrdered(spans, j - 1, j);
    assert Clear(spans[j - 1], spans[j]);
    assert !SameRecord(spans[j - 1], spans[j]);
    if i < j - 1 { ClearApart(spans, i, j - 1); }
  }

  lemma {:induction false} ClearMeansAgree(spans: seq<Claim>)
    requires SpansSorted(spans) && DistinctRecords(spans)
    requires forall k | 0 < k < |spans| :: Clear(spans[k - 1], spans[k])
    ensures AllAgree(spans)
  {
    forall i, j | 0 <= i < |spans| && 0 <= j < |spans| ensures Agree(spans[i], spans[j]) {
      if spans[i].source == spans[j].source {
        if i < j { ClearApart(spans, i, j); }
        if j < i { ClearApart(spans, j, i); }
      }
    }
  }

  /** Non-empty sorted neighbours that are not clear overlap. */
  lemma {:induction false} NotClearDisagrees(spans: seq<Claim>, k: nat)
    requires SpansSorted(spans) && 0 < k < |spans| && !Clear(spans[k - 1], spans[k])
    requires forall i | 0 <= i < |spans| :: spans[i].contentLen > 0
    ensures !AllAgree(spans)
  {
    assert !SpanLess(spans[k], spans[k - 1]);
    assert !Agree(spans[k - 1], spans[k]);
  }

  // ---------------------------------------------------------------- the check

  /** Every pack record is named with content, as pointer validation guarantees beforehand. */
  predicate ClaimsNonEmpty(mutations: seq<Mutation>) {
    forall i | 0 <= i < |mutations| :: ClaimOf(mutations[i]).Some? ==> ClaimOf(mutations[i]).value.contentLen > 0
  }

  ghost predicate Claimed(mutations: seq<Mutation>, n: nat, c: Claim)
    requires n <= |mutations|
  {
    exists i | 0 <= i < n :: ClaimOf(mutations[i]) == Some(c)
  }

  ghost predicate Covered(mutations: seq<Mutation>, n: nat, spans: seq<Claim>)
    requires n <= |mutations|
  {
    forall i | 0 <= i < n && ClaimOf(mutations[i]).Some? :: ClaimOf(mutations[i]).value in spans
  }

  ghost predicate Backed(mutations: seq<Mutation>, n: nat, spans: seq<Claim>)
    requires n <= |mutations|
  {
    forall i | 0 <= i < |spans| :: Claimed(mutations, n, spans[i])
  }

  function RecordKey(c: Claim): (nat, nat) {
    (c.source, c.ordinal)
  }

  /** The map finds every span under its record, and nothing else. */
  ghost predicate Mapped(facts: map<(nat, nat), Claim>, spans: seq<Claim>) {
    && (forall i | 0 <= i < |spans| :: RecordKey(spans[i]) in facts)
    && (forall k | k in facts :: facts[k] in spans && RecordKey(facts[k]) == k)
  }

  /** The spans are the distinct records of the first `n` mutations, and the map finds them. */
  ghost predicate Gathered(mutations: seq<Mutation>, n: nat, facts: map<(nat, nat), Claim>, spans: seq<Claim>)
    requires n <= |mutations|
  {
    DistinctRecords(spans) && Covered(mutations, n, spans) && Backed(mutations, n, spans) && Mapped(facts, spans)
  }

  /** Repeated facts agree and sorted neighbours are clear, exactly when all claims agree. */
  method CheckClaims(mutations: seq<Mutation>) returns (ok: bool)
    requires ClaimsNonEmpty(mutations)
    ensures ok <==> ClaimsAgree(mutations)
  {
    var gathered := Gather(mutations);
    if gathered.None? { return false; }
    var sorted := SortSpans(gathered.value);
    SortSpansSorts(gathered.value);
    PermutationFacts(gathered.value, sorted);
    SpansStandForClaims(mutations, gathered.value, sorted);
    ok := CheckNeighbours(sorted);
  }

  /** Compares each sorted span with its neighbour. */
  method CheckNeighbours(sorted: seq<Claim>) returns (ok: bool)
    requires SpansSorted(sorted) && DistinctRecords(sorted)
    requires forall i | 0 <= i < |sorted| :: sorted[i].contentLen > 0
    ensures ok <==> AllAgree(sorted)
  {
    var k := 1;
    while k < |sorted|
      invariant 1 <= k
      invariant forall i | 0 < i < k && i < |sorted| :: Clear(sorted[i - 1], sorted[i])
    {
      if !Clear(sorted[k - 1], sorted[k]) {
        NotClearDisagrees(sorted, k);
        return false;
      }
      k := k + 1;
    }
    ClearMeansAgree(sorted);
    ok := true;
  }

  /** Collects one span for every distinct record, refusing two claims that differ on one record. */
  method Gather(mutations: seq<Mutation>) returns (gathered: Option<seq<Claim>>)
    ensures gathered.None? ==> !ClaimsAgree(mutations)
    ensures gathered.Some? ==> DistinctRecords(gathered.value) && SameClaims(mutations, gathered.value)
  {
    var facts: map<(nat, nat), Claim>, spans := map[], [];
    for i := 0 to |mutations|
      invariant Gathered(mutations, i, facts, spans)
    {
      var ok;
      ok, facts, spans := GatherOne(mutations, i, facts, spans);
      if !ok { return None; }
    }
    GatheredSame(mutations, facts, spans);
    gathered := Some(spans);
  }

  method GatherOne(mutations: seq<Mutation>, i: nat, facts: map<(nat, nat), Claim>, spans: seq<Claim>)
    returns (ok: bool, facts': map<(nat, nat), Claim>, spans': seq<Claim>)
    requires i < |mutations| && Gathered(mutations, i, facts, spans)
    ensures ok ==> Gathered(mutations, i + 1, facts', spans')
    ensures !ok ==> !ClaimsAgree(mutations)
  {
    var claim := ClaimOf(mutations[i]);
    ok, facts', spans' := true, facts, spans;
    if claim.None? {
      GatherKnown(mutations, i, facts, spans);
      return;
    }
    var c := claim.value;
    var key := RecordKey(c);
    if key !in facts {
      GatherNew(mutations, i, facts, spans, c);
      facts', spans' := facts[key := c], spans + [c];
    } else if facts[key] == c {
      GatherKnown(mutations, i, facts, spans);
    } else {
      GatherConflict(mutations, i, facts, spans, c);
      ok := false;
    }
  }

  lemma {:induction false} GatherConflict(
      mutations: seq<Mutation>, i: nat, facts: map<(nat, nat), Claim>, spans: seq<Claim>, c: Claim)
    requires i < |mutations| && Gathered(mutations, i, facts, spans) && ClaimOf(mutations[i]) == Some(c)
    requires RecordKey(c) in facts && facts[RecordKey(c)] != c
    ensures !ClaimsAgree(mutations)
  {
    var known := facts[RecordKey(c)];
    var j :| 0 <= j < |spans| && spans[j] == known;
    assert Claimed(mutations, i, spans[j]);
    Conflict(mutations, i, known, c);
  }

  /** The spans are exactly the claims. */
  ghost predicate SameClaims(mutations: seq<Mutation>, spans: seq<Claim>) {
    Covered(mutations, |mutations|, spans) && Backed(mutations, |mutations|, spans)
  }

  lemma {:induction false} GatheredSame(mutations: seq<Mutation>, facts: map<(nat, nat), Claim>, spans: seq<Claim>)
    requires Gathered(mutations, |mutations|, facts, spans)
    ensures DistinctRecords(spans) && SameClaims(mutations, spans)
  {
  }

  lemma {:induction false} Conflict(mutations: seq<Mutation>, i: nat, known: Claim, c: Claim)
    requires i < |mutations| && ClaimOf(mutations[i]) == Some(c) && Claimed(mutations, i, known)
    requires SameRecord(known, c) && known != c
    ensures !ClaimsAgree(mutations)
  {
    var j :| 0 <= j < i && ClaimOf(mutations[j]) == Some(known);
    assert !Agree(ClaimOf(mutations[j]).value, ClaimOf(mutations[i]).value);
  }

  lemma {:induction false} GatherKnown(mutations: seq<Mutation>, i: nat, facts: map<(nat, nat), Claim>, spans: seq<Claim>)
    requires i < |mutations| && Gathered(mutations, i, facts, spans)
    requires ClaimOf(mutations[i]).Some? ==> ClaimOf(mutations[i]).value in spans
    ensures Gathered(mutations, i + 1, facts, spans)
  {
    forall j | 0 <= j < |spans| ensures Claimed(mutations, i + 1, spans[j]) {
      assert Claimed(mutations, i, spans[j]);
    }
  }

  lemma {:induction false} GatherNew(
      mutations: seq<Mutation>, i: nat, facts: map<(nat, nat), Claim>, spans: seq<Claim>, c: Claim)
    requires i < |mutations| && Gathered(mutations, i, facts, spans)
    requires ClaimOf(mutations[i]) == Some(c) && RecordKey(c) !in facts
    ensures Gathered(mutations, i + 1, facts[RecordKey(c) := c], spans + [c])
  {
    DistinctNew(facts, spans, c);
    MappedNew(facts, spans, c);
    BackedNew(mutations, i, spans, c);
    assert c in spans + [c] && forall x | x in spans :: x in spans + [c];
  }

  lemma {:induction false} BackedNew(mutations: seq<Mutation>, i: nat, spans: seq<Claim>, c: Claim)
    requires i < |mutations| && Backed(mutations, i, spans) && ClaimOf(mutations[i]) == Some(c)
    ensures Backed(mutations, i + 1, spans + [c])
  {
    var longer := spans + [c];
    forall j | 0 <= j < |longer| ensures Claimed(mutations, i + 1, longer[j]) {
      if j < |spans| { assert Claimed(mutations, i, spans[j]); }
    }
  }

  lemma {:induction false} MappedNew(facts: map<(nat, nat), Claim>, spans: seq<Claim>, c: Claim)
    requires Mapped(facts, spans)
    ensures Mapped(facts[RecordKey(c) := c], spans + [c])
  {
    var longer := spans + [c];
    assert longer[|spans|] == c && forall j | 0 <= j < |spans| :: longer[j] == spans[j];
  }

  lemma {:induction false} DistinctNew(facts: map<(nat, nat), Claim>, spans: seq<Claim>, c: Claim)
    requires DistinctRecords(spans) && RecordKey(c) !in facts
    requires forall i | 0 <= i < |spans| :: RecordKey(spans[i]) in facts
    ensures DistinctRecords(spans + [c])
  {
    var longer := spans + [c];
    forall i, j | 0 <= i < j < |longer| ensures !SameRecord(longer[i], longer[j]) {
      assert longer[i] == spans[i] && RecordKey(spans[i]) in facts;
    }
  }

  lemma {:induction false} PermutationFacts(a: seq<Claim>, b: seq<Claim>)
    requires multiset(a) == multiset(b) && DistinctRecords(a)
    ensures |a| == |b| && (forall x :: x in a <==> x in b) && DistinctRecords(b)
  {
    assert |multiset(a)| == |a| && |multiset(b)| == |b|;
    forall x ensures x in a <==> x in b {
      assert x in a <==> x in multiset(a);
      assert x in b <==> x in multiset(b);
    }
    NoRepeats(a, b);
  }

  lemma {:induction false} NoRepeats(a: seq<Claim>, b: seq<Claim>)
    requires multiset(a) == multiset(b) && DistinctRecords(a) && forall x :: x in a <==> x in b
    ensures DistinctRecords(b)
  {
    forall i, j | 0 <= i < j < |b| ensures !SameRecord(b[i], b[j]) {
      assert b[i] in a && b[j] in a;
      var m :| 0 <= m < |a| && a[m] == b[i];
      var n :| 0 <= n < |a| && a[n] == b[j];
      if b[i] == b[j] {
        CountTwice(b, i, j);
        CountOnce(a, m);
      }
    }
  }

  lemma {:induction false} CountTwice(b: seq<Claim>, i: nat, j: nat)
    requires i < j < |b| && b[i] == b[j]
    ensures multiset(b)[b[i]] >= 2
  {
    assert b == b[..j] + [b[j]] + b[j + 1..];
    assert b[i] in b[..j];
  }

  lemma {:induction false} CountOnce(a: seq<Claim>, m: nat)
    requires m < |a| && DistinctRecords(a)
    ensures multiset(a)[a[m]] == 1
  {
    assert a == a[..m] + [a[m]] + a[m + 1..];
    assert a[m] !in a[..m] && a[m] !in a[m + 1..];
  }

  /** All claims agree exactly when all spans do. */
  lemma {:induction false} SpansStandForClaims(mutations: seq<Mutation>, spans: seq<Claim>, sorted: seq<Claim>)
    requires SameClaims(mutations, spans) && ClaimsNonEmpty(mutations) && forall x :: x in spans <==> x in sorted
    ensures ClaimsAgree(mutations) <==> AllAgree(sorted)
    ensures forall i | 0 <= i < |sorted| :: sorted[i].contentLen > 0
  {
    forall i | 0 <= i < |sorted| ensures Claimed(mutations, |mutations|, sorted[i]) {
      assert sorted[i] in spans;
    }
    if AllAgree(sorted) {
      forall i, j | 0 <= i < |mutations| && 0 <= j < |mutations| && ClaimOf(mutations[i]).Some? && ClaimOf(mutations[j]).Some?
        ensures Agree(ClaimOf(mutations[i]).value, ClaimOf(mutations[j]).value)
      {
        assert ClaimOf(mutations[i]).value in sorted && ClaimOf(mutations[j]).value in sorted;
      }
    }
    if ClaimsAgree(mutations) {
      forall i, j | 0 <= i < |sorted| && 0 <= j < |sorted| ensures Agree(sorted[i], sorted[j]) {
        assert Claimed(mutations, |mutations|, sorted[i]) && Claimed(mutations, |mutations|, sorted[j]);
      }
    }
  }
}
