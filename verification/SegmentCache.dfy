/** The byte-budgeted cache of decrypted segments on top of the recency list. */
module SegmentCache {
  import opened Prelude
  import opened Lru

  /** A cached segment: backend object, its provider version if known, and the segment index. */
  datatype SegmentKey = SegmentKey(objectId: Data, version: Option<Data>, index: nat)

  /** Bytes whose length fits a 64-bit word. */
  type Segment = d: Data | |d| < 0x1_0000_0000_0000_0000

  type Retained = map<SegmentKey, Segment>

  datatype Limits = Limits(maxEntries: nat, maxBytes: U64)

  /** Retained segments with their recency, oldest first. */
  datatype Model = Model(order: seq<SegmentKey>, values: Retained)

  ghost function Size(values: Retained, key: SegmentKey): nat {
    if key in values then |values[key]| else 0
  }

  ghost function Total(order: seq<SegmentKey>, values: Retained): nat
    decreases |order|
  {
    if order == [] then 0 else Size(values, order[0]) + Total(order[1..], values)
  }

  ghost predicate Fits(limits: Limits, m: Model) {
    |m.order| <= limits.maxEntries && Total(m.order, m.values) <= limits.maxBytes
  }

  ghost function DropOldest(m: Model): Model
    requires m.order != []
  {
    Model(m.order[1..], m.values - {m.order[0]})
  }

  /** Drops the oldest segment until both limits hold. */
  ghost function Trim(limits: Limits, m: Model): Model
    decreases |m.order|
  {
    if Fits(limits, m) || m.order == [] then m else Trim(limits, DropOldest(m))
  }

  /** How many segments trimming drops. */
  ghost function Dropped(limits: Limits, m: Model): nat
    decreases |m.order|
  {
    if Fits(limits, m) || m.order == [] then 0 else 1 + Dropped(limits, DropOldest(m))
  }

  /** The model right after a segment is stored and before eviction. */
  ghost function Grown(m: Model, key: SegmentKey, plaintext: Segment): Model {
    Model(Recent(m.order, key), m.values[key := plaintext])
  }

  ghost function Store(limits: Limits, m: Model, key: SegmentKey, plaintext: Segment): Model {
    if |plaintext| > limits.maxBytes then m
    else Trim(limits, Grown(m, key, plaintext))
  }

  ghost function Touched(m: Model, key: SegmentKey): Model {
    if key in m.values then m.(order := Recent(m.order, key)) else m
  }

  ghost predicate WellFormed(m: Model) {
    Distinct(m.order) && forall k :: k in m.order <==> k in m.values
  }

  // ---------------------------------------------------------------- totals

  lemma {:induction false} TotalFrame(order: seq<SegmentKey>, a: Retained, b: Retained)
    requires forall k | k in order :: Size(a, k) == Size(b, k)
    ensures Total(order, a) == Total(order, b)
    decreases |order|
  {
    if order != [] { TotalFrame(order[1..], a, b); }
  }

  lemma {:induction false} TotalAppend(order: seq<SegmentKey>, key: SegmentKey, values: Retained)
    ensures Total(order + [key], values) == Total(order, values) + Size(values, key)
    decreases |order|
  {
    if order != [] {
      TotalAppend(order[1..], key, values);
      assert (order + [key])[1..] == order[1..] + [key];
    }
  }

  lemma {:induction false} TotalWithout(order: seq<SegmentKey>, key: SegmentKey, values: Retained)
    requires Distinct(order)
    ensures Total(Without(order, key), values) == Total(order, values) - (if key in order then Size(values, key) else 0)
    decreases |order|
  {
    if order != [] {
      TotalWithout(order[1..], key, values);
      if order[0] == key { WithoutAbsent(order[1..], key); }
    }
  }

  lemma {:induction false} WithoutHas(order: seq<SegmentKey>, key: SegmentKey, k: SegmentKey)
    ensures k in Without(order, key) <==> k in order && k != key
    decreases |order|
  {
    if order != [] {
      WithoutHas(order[1..], key, k);
      assert order == [order[0]] + order[1..];
    }
  }

  lemma {:induction false} WithoutDistinct(order: seq<SegmentKey>, key: SegmentKey)
    requires Distinct(order)
    ensures Distinct(Without(order, key))
    decreases |order|
  {
    if order != [] {
      var first, rest := order[0], Without(order[1..], key);
      WithoutDistinct(order[1..], key);
      WithoutHas(order[1..], key, first);
      assert first !in order[1..];
      if first != key {
        assert forall i | 0 <= i < |rest| :: rest[i] in rest;
      }
    }
  }

  lemma {:induction false} WithoutMembers(order: seq<SegmentKey>, key: SegmentKey)
    requires Distinct(order)
    ensures Distinct(Recent(order, key))
    ensures forall k :: k in Without(order, key) <==> k in order && k != key
  {
    WithoutDistinct(order, key);
    forall k ensures k in Without(order, key) <==> k in order && k != key { WithoutHas(order, key, k); }
    var rest := Without(order, key);
    assert forall i | 0 <= i < |rest| :: rest[i] in rest;
  }

  /** Replacing a segment changes the total by the difference of the two sizes. */
  lemma {:induction false} StoredTotal(m: Model, key: SegmentKey, plaintext: Segment)
    requires WellFormed(m)
    ensures var grown := Grown(m, key, plaintext);
            WellFormed(grown) && Size(m.values, key) <= Total(m.order, m.values)
            && Total(grown.order, grown.values) == Total(m.order, m.values) - Size(m.values, key) + |plaintext|
  {
    var values := m.values[key := plaintext];
    WithoutMembers(m.order, key);
    TotalAppend(Without(m.order, key), key, values);
    TotalFrame(Without(m.order, key), values, m.values);
    TotalWithout(m.order, key, m.values);
  }

  lemma {:induction false} DropTotal(m: Model)
    requires WellFormed(m) && m.order != []
    ensures WellFormed(DropOldest(m))
    ensures Total(m.order, m.values) == Size(m.values, m.order[0]) + Total(DropOldest(m).order, DropOldest(m).values)
  {
    assert m.order == [m.order[0]] + m.order[1..];
    TotalFrame(m.order[1..], m.values, DropOldest(m).values);
  }

  // ---------------------------------------------------------------- eviction

  lemma {:induction false} TrimmedFits(limits: Limits, m: Model)
    requires WellFormed(m)
    ensures var after := Trim(limits, m);
            && WellFormed(after) && Fits(limits, after)
            && (forall k | k in after.values :: k in m.values && after.values[k] == m.values[k])
    decreases |m.order|
  {
    if !Fits(limits, m) && m.order != [] {
      DropTotal(m);
      TrimmedFits(limits, DropOldest(m));
    }
  }

  ghost predicate OverLimits(limits: Limits, order: seq<SegmentKey>, values: Retained) {
    |order| > limits.maxEntries || Total(order, values) > limits.maxBytes
  }

  /** Eviction is oldest-first and stops as soon as both limits hold: what remains is the longest
      recent part of the list that fits. */
  lemma {:induction false} EvictionIsMinimal(limits: Limits, m: Model)
    requires WellFormed(m)
    ensures var n := Dropped(limits, m);
            && n <= |m.order| && Trim(limits, m).order == m.order[n..]
            && forall j | 0 <= j < n :: OverLimits(limits, m.order[j..], m.values)
    decreases |m.order|
  {
    if !Fits(limits, m) && m.order != [] {
      var rest, n := DropOldest(m), Dropped(limits, m);
      DropTotal(m);
      EvictionIsMinimal(limits, rest);
      assert rest.order[n - 1..] == m.order[n..];
      forall j | 0 <= j < n ensures OverLimits(limits, m.order[j..], m.values) {
        if j == 0 {
          assert m.order[0..] == m.order;
        } else {
          StillOver(limits, m, j);
        }
      }
    }
  }

  lemma {:induction false} StillOver(limits: Limits, m: Model, j: nat)
    requires WellFormed(m) && 0 < j <= |m.order|
    requires OverLimits(limits, DropOldest(m).order[j - 1..], DropOldest(m).values)
    ensures OverLimits(limits, m.order[j..], m.values)
  {
    assert DropOldest(m).order[j - 1..] == m.order[j..];
    TotalFrame(m.order[j..], m.values, DropOldest(m).values);
  }

  lemma {:induction false} TrimKeepsLast(limits: Limits, m: Model, key: SegmentKey)
    requires WellFormed(m) && limits.maxEntries >= 1 && key in m.values && |m.values[key]| <= limits.maxBytes
    requires m.order != [] && m.order[|m.order| - 1] == key
    ensures var after := Trim(limits, m);
            && after.order != [] && after.order[|after.order| - 1] == key
            && key in after.values && after.values[key] == m.values[key]
    decreases |m.order|
  {
    if |m.order| == 1 {
      assert Total(m.order, m.values) == |m.values[key]| + Total([], m.values);
    } else if !Fits(limits, m) {
      DropTotal(m);
      TrimKeepsLast(limits, DropOldest(m), key);
    }
  }

  /** A segment that is not too large is retained by its own insertion, as the most recent one. */
  lemma {:induction false} NewestSurvives(limits: Limits, m: Model, key: SegmentKey, plaintext: Segment)
    requires WellFormed(m) && limits.maxEntries >= 1 && |plaintext| <= limits.maxBytes
    ensures var after := Store(limits, m, key, plaintext);
            && after.order != [] && after.order[|after.order| - 1] == key
            && key in after.values && after.values[key] == plaintext
  {
    StoredTotal(m, key, plaintext);
    TrimKeepsLast(limits, Grown(m, key, plaintext), key);
  }

  // ---------------------------------------------------------------- runs

  datatype Event = Stored(key: SegmentKey, plaintext: Segment) | Used(key: SegmentKey)

  ghost function Step(limits: Limits, m: Model, event: Event): Model {
    match event
    case Stored(key, plaintext) => Store(limits, m, key, plaintext)
    case Used(key) => Touched(m, key)
  }

  ghost function Run(limits: Limits, events: seq<Event>): Model
    decreases |events|
  {
    if events == [] then Model([], map[])
    else Step(limits, Run(limits, events[..|events| - 1]), events[|events| - 1])
  }

  /** The bytes of the last insertion for a key that was not skipped as too large. */
  ghost function LastStored(limits: Limits, events: seq<Event>, key: SegmentKey): Option<Segment>
    decreases |events|
  {
    if events == [] then None
    else
      var last := events[|events| - 1];
      if last.Stored? && last.key == key && |last.plaintext| <= limits.maxBytes then Some(last.plaintext)
      else LastStored(limits, events[..|events| - 1], key)
  }

  ghost predicate Faithful(limits: Limits, events: seq<Event>, m: Model) {
    && WellFormed(m) && Fits(limits, m)
    && (forall k | k in m.values :: LastStored(limits, events, k) == Some(m.values[k]))
  }

  /** After every run of insertions and uses the limits hold and a hit returns exactly the bytes
      last stored under that object, version and segment. */
  lemma {:induction false} HitsReturnLastStored(limits: Limits, events: seq<Event>)
    ensures Faithful(limits, events, Run(limits, events))
    decreases |events|
  {
    if events != [] {
      var front, last := events[..|events| - 1], events[|events| - 1];
      HitsReturnLastStored(limits, front);
      match last {
        case Stored(key, plaintext) => StoreFaithful(limits, front, Run(limits, front), events);
        case Used(key) => TouchFaithful(limits, Run(limits, front), key);
      }
    }
  }

  lemma {:induction false} StoreFaithful(limits: Limits, front: seq<Event>, m: Model, events: seq<Event>)
    requires Faithful(limits, front, m)
    requires events != [] && events[..|events| - 1] == front && events[|events| - 1].Stored?
    ensures Faithful(limits, events, Step(limits, m, events[|events| - 1]))
  {
    var key, plaintext := events[|events| - 1].key, events[|events| - 1].plaintext;
    if |plaintext| <= limits.maxBytes {
      StoredTotal(m, key, plaintext);
      TrimmedFits(limits, Grown(m, key, plaintext));
    }
  }

  lemma {:induction false} TouchFaithful(limits: Limits, m: Model, key: SegmentKey)
    requires WellFormed(m) && Fits(limits, m)
    ensures WellFormed(Touched(m, key)) && Fits(limits, Touched(m, key))
  {
    if key in m.values {
      StoredTotal(m, key, m.values[key]);
      assert m.values[key := m.values[key]] == m.values;
      DistinctSize(m.order);
      DistinctSize(Recent(m.order, key));
      assert (set k | k in m.order) == (set k | k in Recent(m.order, key));
    }
  }

  // ---------------------------------------------------------------- recency

  /** When a key was last stored or used, counting from one; a segment that is too large is not stored. */
  ghost function LastUse(limits: Limits, events: seq<Event>, key: SegmentKey): nat
    decreases |events|
  {
    if events == [] then 0
    else
      var last := events[|events| - 1];
      if last.key == key && (last.Stored? ==> |last.plaintext| <= limits.maxBytes) then |events|
      else LastUse(limits, events[..|events| - 1], key)
  }

  lemma {:induction false} LastUseBound(limits: Limits, events: seq<Event>, key: SegmentKey)
    ensures LastUse(limits, events, key) <= |events|
    decreases |events|
  {
    if events != [] { LastUseBound(limits, events[..|events| - 1], key); }
  }

  /** The list is ordered by last use, oldest first. */
  ghost predicate ByLastUse(limits: Limits, events: seq<Event>, order: seq<SegmentKey>) {
    forall i, j | 0 <= i < j < |order| :: LastUse(limits, events, order[i]) < LastUse(limits, events, order[j])
  }

  lemma {:induction false} WithoutByLastUse(limits: Limits, events: seq<Event>, order: seq<SegmentKey>, key: SegmentKey)
    requires ByLastUse(limits, events, order)
    ensures ByLastUse(limits, events, Without(order, key))
    decreases |order|
  {
    if order != [] {
      var rest := Without(order[1..], key);
      WithoutByLastUse(limits, events, order[1..], key);
      forall k | k in rest ensures LastUse(limits, events, order[0]) < LastUse(limits, events, k) {
        WithoutHas(order[1..], key, k);
        var i :| 0 <= i < |order[1..]| && order[1..][i] == k;
        assert order[i + 1] == k;
      }
    }
  }

  /** An event that counts moves its key behind all others. */
  lemma {:induction false} RecentByLastUse(limits: Limits, events: seq<Event>, order: seq<SegmentKey>)
    requires events != [] && ByLastUse(limits, events[..|events| - 1], order)
    requires LastUse(limits, events, events[|events| - 1].key) == |events|
    ensures ByLastUse(limits, events, Recent(order, events[|events| - 1].key))
  {
    var front, key := events[..|events| - 1], events[|events| - 1].key;
    var rest := Without(order, key);
    WithoutByLastUse(limits, front, order, key);
    forall i | 0 <= i < |rest|
      ensures rest[i] != key && LastUse(limits, events, rest[i]) == LastUse(limits, front, rest[i]) < |events|
    {
      WithoutHas(order, key, rest[i]);
      LastUseBound(limits, front, rest[i]);
    }
  }

  lemma {:induction false} SuffixByLastUse(limits: Limits, events: seq<Event>, order: seq<SegmentKey>, n: nat)
    requires ByLastUse(limits, events, order) && n <= |order|
    ensures ByLastUse(limits, events, order[n..])
  {
  }

  lemma {:induction false} UntouchedByLastUse(limits: Limits, events: seq<Event>, order: seq<SegmentKey>)
    requires events != [] && ByLastUse(limits, events[..|events| - 1], order)
    requires forall k | k in order :: LastUse(limits, events, k) == LastUse(limits, events[..|events| - 1], k)
    ensures ByLastUse(limits, events, order)
  {
    forall i, j | 0 <= i < j < |order| ensures LastUse(limits, events, order[i]) < LastUse(limits, events, order[j]) {
      assert order[i] in order && order[j] in order;
    }
  }

  /** After every run the retained segments stand in the order of their last use, so the most recently
      used one is last and eviction takes the least recently used ones. */
  lemma {:induction false} OrderIsLastUse(limits: Limits, events: seq<Event>)
    ensures ByLastUse(limits, events, Run(limits, events).order)
    decreases |events|
  {
    if events != [] {
      var front, last, m := events[..|events| - 1], events[|events| - 1], Run(limits, events[..|events| - 1]);
      OrderIsLastUse(limits, front);
      HitsReturnLastStored(limits, front);
      if last.Used? {
        if last.key in m.values {
          RecentByLastUse(limits, events, m.order);
        } else {
          UntouchedByLastUse(limits, events, m.order);
        }
      } else if |last.plaintext| <= limits.maxBytes {
        var grown := Grown(m, last.key, last.plaintext);
        RecentByLastUse(limits, events, m.order);
        StoredTotal(m, last.key, last.plaintext);
        EvictionIsMinimal(limits, grown);
        SuffixByLastUse(limits, events, grown.order, Dropped(limits, grown));
      } else {
        UntouchedByLastUse(limits, events, m.order);
      }
    }
  }

  /** Using a segment keeps what is retained and moves it to the end; the others keep their order. */
  lemma {:induction false} TouchMovesLast(m: Model, key: SegmentKey)
    requires WellFormed(m) && key in m.values
    ensures var after := Touched(m, key);
            && after.values == m.values && after.order != [] && after.order[|after.order| - 1] == key
            && exists i | 0 <= i < |m.order| ::
                 m.order[i] == key && after.order == m.order[..i] + m.order[i + 1..] + [key]
  {
    var i :| 0 <= i < |m.order| && m.order[i] == key;
    WithoutAt(m.order, key, i);
  }

  ghost predicate Outlives(m: Model, used: SegmentKey, idle: SegmentKey) {
    idle in m.values ==> used in m.values
  }

  lemma {:induction false} UsedLater(
      limits: Limits, events: seq<Event>, order: seq<SegmentKey>, n: nat, used: SegmentKey, idle: SegmentKey)
    requires ByLastUse(limits, events, order) && n <= |order| && used in order && idle in order[n..]
    requires LastUse(limits, events, idle) < LastUse(limits, events, used)
    ensures used in order[n..]
  {
    var i :| n <= i < |order| && order[i] == idle;
    var j :| 0 <= j < |order| && order[j] == used;
    assert j > i;
    assert order[n..][j - n] == used;
  }

  lemma {:induction false} TrimOutlives(limits: Limits, events: seq<Event>, m: Model, used: SegmentKey, idle: SegmentKey)
    requires WellFormed(m) && ByLastUse(limits, events, m.order) && Outlives(m, used, idle)
    requires LastUse(limits, events, idle) < LastUse(limits, events, used)
    ensures Outlives(Trim(limits, m), used, idle)
  {
    TrimmedFits(limits, m);
    EvictionIsMinimal(limits, m);
    var after := Trim(limits, m);
    if idle in after.values {
      assert idle in after.order && used in m.order;
      UsedLater(limits, events, m.order, Dropped(limits, m), used, idle);
    }
  }

  lemma {:induction false} StepOutlives(limits: Limits, events: seq<Event>, used: SegmentKey, idle: SegmentKey)
    requires events != [] && events[|events| - 1].key != idle
    requires LastUse(limits, events[..|events| - 1], idle) < LastUse(limits, events[..|events| - 1], used)
    requires Outlives(Run(limits, events[..|events| - 1]), used, idle)
    ensures LastUse(limits, events, idle) < LastUse(limits, events, used)
    ensures Outlives(Run(limits, events), used, idle)
  {
    var front, last, m := events[..|events| - 1], events[|events| - 1], Run(limits, events[..|events| - 1]);
    HitsReturnLastStored(limits, front);
    OrderIsLastUse(limits, front);
    LastUseBound(limits, front, used);
    if last.Stored? && |last.plaintext| <= limits.maxBytes {
      RecentByLastUse(limits, events, m.order);
      StoredTotal(m, last.key, last.plaintext);
      TrimOutlives(limits, events, Grown(m, last.key, last.plaintext), used, idle);
    }
  }

  /** A segment that is used outlives every retained segment that is not used or stored after it. */
  lemma {:induction false} UsedOutlivesIdle(
      limits: Limits, before: seq<Event>, used: SegmentKey, later: seq<Event>, idle: SegmentKey)
    requires used in Run(limits, before).values && used != idle
    requires forall i | 0 <= i < |later| :: later[i].key != idle
    ensures var events := before + [Used(used)] + later;
            && LastUse(limits, events, idle) < LastUse(limits, events, used)
            && (idle in Run(limits, events).values ==> used in Run(limits, events).values)
    decreases |later|
  {
    var events := before + [Used(used)] + later;
    if later == [] {
      assert events == before + [Used(used)] && events[..|events| - 1] == before;
      LastUseBound(limits, before, idle);
    } else {
      var front := later[..|later| - 1];
      UsedOutlivesIdle(limits, before, used, front, idle);
      assert events[..|events| - 1] == before + [Used(used)] + front;
      StepOutlives(limits, events, used, idle);
    }
  }

  // ---------------------------------------------------------------- the cache

  function SaturatingAdd(a: U64, b: U64): U64 {
    if a + b < U64_LIMIT then a + b else U64_LIMIT - 1
  }

  function SaturatingSub(a: U64, b: U64): U64 {
    if a >= b then a - b else 0
  }

  datatype Outcome = Inserted(evictedEntries: U64, evictedBytes: U64) | SkippedTooLarge

  datatype Lookup = Hit(segments: seq<Segment>) | Miss | InvalidRange

  class Cache {
    const segments: LruCache<SegmentKey, Segment>
    const limits: Limits
    var currentBytes: U64

    ghost predicate Valid()
      reads this, segments
    {
      segments.Valid() && |segments.order| <= limits.maxEntries < U64_LIMIT - 1
    }

    ghost function Contents(): Model
      reads this, segments
    {
      Model(segments.order, segments.Values())
    }

    /** The byte count is the retained total, which every insertion that does not overflow keeps. */
    ghost predicate Exact()
      reads this, segments
    {
      currentBytes == Total(segments.order, segments.Values()) <= limits.maxBytes
    }

    constructor (limits: Limits)
      requires limits.maxEntries < U64_LIMIT - 1
      ensures this.limits == limits && Valid() && Exact() && Contents() == Model([], map[])
      ensures fresh(segments)
    {
      segments := new LruCache();
      this.limits := limits;
      currentBytes := 0;
    }

    method Peek(key: SegmentKey) returns (plaintext: Option<Segment>)
      requires Valid()
      ensures plaintext == if key in Contents().values then Some(Contents().values[key]) else None
    {
      plaintext := segments.Peek(key);
    }

    method Touch(key: SegmentKey)
      requires Valid()
      modifies segments
      ensures Valid() && Contents() == Touched(old(Contents()), key)
    {
      ContentsWellFormed();
      RecentSize(Contents(), key);
      segments.Touch(key);
    }

    /** Stores a segment unless it alone exceeds the byte budget, then evicts what no longer fits. */
    method Insert(key: SegmentKey, plaintext: Segment) returns (outcome: Outcome)
      requires Valid()
      modifies this, segments
      ensures Valid()
      ensures outcome.SkippedTooLarge? <==> |plaintext| > limits.maxBytes
      ensures outcome.SkippedTooLarge? ==> Contents() == old(Contents()) && currentBytes == old(currentBytes)
      ensures old(Exact()) && GrownTotal(old(Contents()), key, plaintext) < U64_LIMIT ==>
                && Exact() && Contents() == Store(limits, old(Contents()), key, plaintext)
                && (outcome.Inserted? ==>
                      && outcome.evictedEntries == Dropped(limits, Grown(old(Contents()), key, plaintext))
                      && outcome.evictedBytes == GrownTotal(old(Contents()), key, plaintext) - currentBytes)
    {
      if |plaintext| > limits.maxBytes { return SkippedTooLarge; }
      ghost var before := Contents();
      ContentsWellFormed();
      StoredTotal(before, key, plaintext);
      RecentSize(before, key);
      var previous := segments.Insert(key, plaintext);
      match previous {
        case Some(replaced) =>
          currentBytes := SaturatingSub(currentBytes, |replaced|);
          currentBytes := SaturatingAdd(currentBytes, |plaintext|);
        case None =>
          currentBytes := SaturatingAdd(currentBytes, |plaintext|);
      }
      var entries, bytes := EvictOverLimits();
      outcome := Inserted(entries, bytes);
    }

    /** Removes oldest segments until both limits hold. */
    method EvictOverLimits() returns (entries: U64, bytes: U64)
      requires segments.Valid() && |segments.order| < U64_LIMIT
      modifies this, segments
      ensures segments.Valid() && |segments.order| <= limits.maxEntries
      ensures old(currentBytes == Total(segments.order, segments.Values())) ==>
                && Contents() == Trim(limits, old(Contents()))
                && currentBytes == Total(segments.order, segments.Values()) <= limits.maxBytes
                && entries == Dropped(limits, old(Contents())) && bytes == old(currentBytes) - currentBytes
    {
      ghost var exact := currentBytes == Total(segments.order, segments.Values());
      entries, bytes := 0, 0;
      var count := segments.Len();
      while count > limits.maxEntries || currentBytes > limits.maxBytes
        invariant segments.Valid() && count == |segments.order|
        invariant entries + count == |old(segments.order)|
        invariant exact ==>
                    && currentBytes == Total(segments.order, segments.Values())
                    && Trim(limits, Contents()) == Trim(limits, old(Contents()))
                    && entries + Dropped(limits, Contents()) == Dropped(limits, old(Contents()))
                    && bytes + currentBytes == old(currentBytes)
        decreases count
      {
        ghost var now := Contents();
        var popped := EvictOldest();
        if popped.None? { break; }
        entries := SaturatingAdd(entries, 1);
        bytes := SaturatingAdd(bytes, popped.value);
        count := segments.Len();
      }
    }

    /** Removes the oldest segment, if there is one, and its bytes from the count. */
    method EvictOldest() returns (bytes: Option<U64>)
      requires segments.Valid()
      modifies this, segments
      ensures segments.Valid()
      ensures old(segments.order) == [] ==>
                bytes == None && Contents() == old(Contents()) && currentBytes == old(currentBytes)
      ensures old(segments.order) != [] ==>
                && bytes == Some(Size(old(Contents()).values, old(segments.order)[0]))
                && currentBytes == SaturatingSub(old(currentBytes), bytes.value)
                && Contents() == DropOldest(old(Contents()))
                && Total(old(Contents()).order, old(Contents()).values)
                   == bytes.value + Total(Contents().order, Contents().values)
    {
      ContentsWellFormed();
      if segments.order != [] { DropTotal(Contents()); }
      var popped := segments.PopLru();
      if popped.None? { return None; }
      currentBytes := SaturatingSub(currentBytes, |popped.value.1|);
      bytes := Some(|popped.value.1|);
    }

    lemma {:induction false} ContentsWellFormed()
      requires segments.Valid()
      ensures WellFormed(Contents())
    {
      MemberLinked(segments.entries, segments.head, segments.tail, segments.order);
    }

    /** Finds a run of segments, all or nothing; a hit also marks them used when the lock is free. */
    method Find(id: ObjectRef, start: nat, count: nat, free: bool) returns (found: Lookup)
      requires Valid()
      modifies segments
      ensures Valid()
      ensures found.InvalidRange? <==> count > 0 && start + count > U64_LIMIT
      ensures !found.InvalidRange? ==> (found.Hit? <==> Holds(old(Contents()), id, start, count))
      ensures found.Hit? ==> found.segments == Held(old(Contents()), id, start, count)
      ensures Contents() == if found.Hit? && free then UsedAll(old(Contents()), id, start, count) else old(Contents())
    {
      found := Collect(id, start, count);
      if found.Hit? && free { Use(id, start, count); }
    }

    method Use(id: ObjectRef, start: nat, count: nat)
      requires Valid()
      modifies segments
      ensures Valid() && Contents() == UsedAll(old(Contents()), id, start, count)
    {
      for i := 0 to count
        invariant Valid() && Contents() == UsedAll(old(Contents()), id, start, i)
      {
        Touch(KeyAt(id, start + i));
      }
    }

    method Collect(id: ObjectRef, start: nat, count: nat) returns (found: Lookup)
      requires Valid()
      ensures found.InvalidRange? <==> count > 0 && start + count > U64_LIMIT
      ensures !found.InvalidRange? ==> (found.Hit? <==> Holds(Contents(), id, start, count))
      ensures found.Hit? ==> found.segments == Held(Contents(), id, start, count)
    {
      var listed, missing := [], false;
      for i := 0 to count
        invariant start + i <= U64_LIMIT || i == 0
        invariant missing <==> !Holds(Contents(), id, start, i)
        invariant !missing ==> listed == Held(Contents(), id, start, i)
      {
        if start + i >= U64_LIMIT { return InvalidRange; }
        var plaintext := Peek(KeyAt(id, start + i));
        match plaintext {
          case Some(segment) => listed := listed + [segment];
          case None => missing := true;
        }
      }
      found := if missing then Miss else Hit(listed);
    }
  }

  /** A backend object and its provider version, when known. */
  datatype ObjectRef = ObjectRef(objectId: Data, version: Option<Data>)

  function KeyAt(id: ObjectRef, index: nat): SegmentKey {
    SegmentKey(id.objectId, id.version, index)
  }

  ghost predicate Holds(m: Model, id: ObjectRef, start: nat, count: nat) {
    forall i | start <= i < start + count :: KeyAt(id, i) in m.values
  }

  ghost function Held(m: Model, id: ObjectRef, start: nat, count: nat): seq<Segment>
    requires Holds(m, id, start, count)
  {
    seq(count, i requires 0 <= i < count => m.values[KeyAt(id, start + i)])
  }

  ghost function UsedAll(m: Model, id: ObjectRef, start: nat, count: nat): Model {
    if count == 0 then m else Touched(UsedAll(m, id, start, count - 1), KeyAt(id, start + count - 1))
  }

  /** Segments of different objects, versions or places are cached apart. */
  lemma {:induction false} KeysAreApart(a: ObjectRef, i: nat, b: ObjectRef, j: nat)
    requires KeyAt(a, i) == KeyAt(b, j)
    ensures a == b && i == j
  {
  }

  ghost function Uses(id: ObjectRef, start: nat, count: nat): seq<Event> {
    if count == 0 then [] else Uses(id, start, count - 1) + [Used(KeyAt(id, start + count - 1))]
  }

  /** Finding a run of segments uses them one after another, as a run of the cache does. */
  lemma {:induction false} FindingIsUsing(limits: Limits, events: seq<Event>, id: ObjectRef, start: nat, count: nat)
    ensures UsedAll(Run(limits, events), id, start, count) == Run(limits, events + Uses(id, start, count))
    decreases count
  {
    if count == 0 {
      assert events + [] == events;
    } else {
      var longer := events + Uses(id, start, count);
      FindingIsUsing(limits, events, id, start, count - 1);
      assert longer[..|longer| - 1] == events + Uses(id, start, count - 1);
    }
  }

  /** The byte total right after a segment is stored and before eviction. */
  ghost function GrownTotal(m: Model, key: SegmentKey, plaintext: Segment): int {
    Total(m.order, m.values) - Size(m.values, key) + |plaintext|
  }

  lemma {:induction false} RecentSize(m: Model, key: SegmentKey)
    requires WellFormed(m)
    ensures |Recent(m.order, key)| == |m.order| + (if key in m.values then 0 else 1)
  {
    if key in m.order {
      var i :| 0 <= i < |m.order| && m.order[i] == key;
      WithoutAt(m.order, key, i);
    } else {
      WithoutAbsent(m.order, key);
    }
  }
}
