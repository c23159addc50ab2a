/** Authenticated encryption of payload segments, by the properties the rest relies on. */
module SegmentAead {
  import opened Prelude
  import opened Types
  import opened Wire
  import opened SegmentContext

  /** Authenticated encryption under the keyring: associated data and bytes in, bytes out. */
  datatype Aead = Aead(seal: (Data, Data) -> Data, open: (Data, Data) -> Option<Data>)

  /** Sealing adds a sixteen-byte tag and opening under the same associated data takes it off. */
  ghost predicate Correct(aead: Aead) {
    && (forall a, p :: |aead.seal(a, p)| == |p| + 16 && aead.open(a, aead.seal(a, p)) == Some(p))
    && (forall a, x | aead.open(a, x).Some? :: |x| == |aead.open(a, x).value| + 16)
  }

  /** A plaintext that was sealed, with its associated data. */
  datatype Message = Message(aad: Data, plaintext: Data)

  /** Nothing that was sealed opens under any other associated data. */
  ghost predicate Authentic(aead: Aead, log: seq<Message>) {
    forall m, b: Data | m in log && b != m.aad :: aead.open(b, aead.seal(m.aad, m.plaintext)) == None
  }

  function SealSegment(aead: Aead, keyId: Text, c: Context, plaintext: Data): Option<Data> {
    if |plaintext| != c.plaintextLen || !Bounded(c, keyId) then None
    else Some(aead.seal(Aad(c, keyId), plaintext))
  }

  function OpenSegment(aead: Aead, keyId: Text, c: Context, sealed: Data): Option<Data> {
    if |sealed| != c.plaintextLen + 16 || !Bounded(c, keyId) then None
    else aead.open(Aad(c, keyId), sealed)
  }

  /** A sealed segment opens to its plaintext under its own context and key. */
  lemma {:induction false} OpensSealed(aead: Aead, keyId: Text, c: Context, plaintext: Data)
    requires Correct(aead) && SealSegment(aead, keyId, c, plaintext).Some?
    ensures OpenSegment(aead, keyId, c, SealSegment(aead, keyId, c, plaintext).value) == Some(plaintext)
  {
  }

  /** Among sealed segments, each opens under its own context and key, and only there. */
  lemma {:induction false} OpensExactly(
      aead: Aead, log: seq<Message>, keyId: Text, c: Context, plaintext: Data, otherKey: Text, other: Context)
    requires Correct(aead) && Authentic(aead, log) && Message(Aad(c, keyId), plaintext) in log
    requires SealSegment(aead, keyId, c, plaintext).Some?
    ensures OpenSegment(aead, otherKey, other, SealSegment(aead, keyId, c, plaintext).value)
         == if other == c && otherKey == keyId then Some(plaintext) else None
  {
    var m := Message(Aad(c, keyId), plaintext);
    if Bounded(other, otherKey) {
      if Aad(other, otherKey) == Aad(c, keyId) {
        AadInjective(other, otherKey, c, keyId);
      } else {
        assert aead.open(Aad(other, otherKey), aead.seal(m.aad, m.plaintext)) == None;
      }
    }
  }

  // ---------------------------------------------------------------- the properties can be met

  /** Numbers the associated data of a log; zero for any other. */
  function CodeOf(log: seq<Message>, aad: Data): (code: nat)
    ensures code <= |log|
    ensures (exists m | m in log :: m.aad == aad) ==> code > 0
  {
    if log == [] then 0 else if log[0].aad == aad then |log| else CodeOf(log[1..], aad)
  }

  lemma {:induction false} CodesDiffer(log: seq<Message>, m: Message, other: Data)
    requires m in log && other != m.aad
    ensures CodeOf(log, m.aad) != CodeOf(log, other)
  {
    if log[0].aad != m.aad && log[0].aad != other { CodesDiffer(log[1..], m, other); }
  }

  /** Puts the number of the associated data behind the plaintext. */
  function Stamped(log: seq<Message>): Aead {
    Aead(
      (a: Data, p: Data) => p + BigEndian(CodeOf(log, a), 16),
      (a: Data, x: Data) =>
        if |x| >= 16 && x[|x| - 16..] == BigEndian(CodeOf(log, a), 16) then Some(x[..|x| - 16]) else None)
  }

  lemma {:induction false} StampsDiffer(m: nat, n: nat)
    requires m != n && m < U64_LIMIT && n < U64_LIMIT
    ensures BigEndian(m, 16) != BigEndian(n, 16)
  {
    RadixValues();
    RadixGrows(8, 16);
    BigEndianRoundTrip(m, 16);
    BigEndianRoundTrip(n, 16);
  }

  lemma {:induction false} RadixGrows(a: nat, b: nat)
    requires a <= b
    ensures Radix(a) <= Radix(b)
    decreases b
  {
    if a < b { RadixGrows(a, b - 1); }
  }

  /** For any fewer than 2^64 messages some scheme is correct and opens none of them elsewhere. */
  lemma {:induction false} AuthenticExists(log: seq<Message>) returns (aead: Aead)
    requires |log| < U64_LIMIT
    ensures Correct(aead) && Authentic(aead, log)
  {
    aead := Stamped(log);
    forall a, p ensures |aead.seal(a, p)| == |p| + 16 && aead.open(a, aead.seal(a, p)) == Some(p) {
      var x := aead.seal(a, p);
      assert x[|x| - 16..] == BigEndian(CodeOf(log, a), 16) && x[..|x| - 16] == p;
    }
    forall m, b: Data | m in log && b != m.aad ensures aead.open(b, aead.seal(m.aad, m.plaintext)) == None {
      var x := aead.seal(m.aad, m.plaintext);
      CodesDiffer(log, m, b);
      StampsDiffer(CodeOf(log, m.aad), CodeOf(log, b));
      assert x[|x| - 16..] == BigEndian(CodeOf(log, m.aad), 16);
    }
  }
}
