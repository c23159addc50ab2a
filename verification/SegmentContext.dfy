/** The byte encodings that bind one payload segment into authenticated encryption. */
module SegmentContext {
  import opened Prelude
  import opened Types
  import opened Wire

  /** Authenticated identity of one independently readable payload segment. */
  datatype Context = Context(
    repositoryContext: Data,
    objectId: Text,
    section: Option<U32>,
    carrierId: Bytes32,
    attemptId: Bytes32,
    partOrdinal: U32,
    segmentOrdinal: U64,
    plaintextLen: U64,
    isFinal: bool,
    layoutContext: Data)

  const AAD_DOMAIN := Ascii("rs3:payload-segment-aad:v3")

  const MAX_SEGMENT: U64 := 64 * 1024 * 1024

  /** The field bounds that encoding enforces. */
  predicate Bounded(c: Context, keyId: Text) {
    && 0 < |c.repositoryContext| <= 4096
    && |c.objectId| <= 1024
    && |c.layoutContext| <= 1024
    && |keyId| <= 255
    && 0 < c.plaintextLen <= MAX_SEGMENT
  }

  /** A field behind its eight-byte length. */
  function PutField(field: Data, tail: Data): Data {
    PutInt(|field|, 8, field + tail)
  }

  function PutSection(section: Option<U32>, tail: Data): Data {
    match section
    case None => PutByte(0, tail)
    case Some(ordinal) => PutByte(1, PutInt(ordinal, 4, tail))
  }

  function PutNonce(c: Context, tail: Data): Data {
    c.carrierId + (c.attemptId + PutInt(c.partOrdinal, 4, PutU64(c.segmentOrdinal, tail)))
  }

  /** The bytes authenticated with a segment. */
  function Aad(c: Context, keyId: Text): Data {
    AAD_DOMAIN + PutField(c.repositoryContext, PutField(c.objectId, PutField(keyId,
      PutSection(c.section, PutNonce(c, PutU64(c.plaintextLen,
        PutByte(if c.isFinal then 1 else 0, PutField(c.layoutContext, []))))))))
  }

  /** The seventy-six bytes a segment's nonce is derived from. */
  function NonceBytes(c: Context): (b: Data)
    ensures |b| == 76
  {
    PutNonce(c, [])
  }

  /** The keyed-hash input a nonce is derived from. */
  function NonceMaterial(aad: Data, nonceContext: Data): Data {
    PutField(aad, PutField(nonceContext, []))
  }

  // ---------------------------------------------------------------- injectivity

  lemma {:induction false} IntInjective(a: nat, b: nat, width: nat, t: Data, u: Data)
    requires a < Radix(width) && b < Radix(width) && PutInt(a, width, t) == PutInt(b, width, u)
    ensures a == b && t == u
  {
    IntRoundTrip(a, width, t);
    IntRoundTrip(b, width, u);
  }

  lemma {:induction false} FieldInjective(a: Data, b: Data, t: Data, u: Data)
    requires |a| < U64_LIMIT && |b| < U64_LIMIT && PutField(a, t) == PutField(b, u)
    ensures a == b && t == u
  {
    RadixValues();
    IntInjective(|a|, |b|, 8, a + t, b + u);
    BytesRoundTrip(a, t);
    BytesRoundTrip(b, u);
  }

  lemma {:induction false} PrefixInjective(a: Data, b: Data, t: Data, u: Data)
    requires |a| == |b| && a + t == b + u
    ensures a == b && t == u
  {
    BytesRoundTrip(a, t);
    BytesRoundTrip(b, u);
  }

  lemma {:induction false} SectionInjective(a: Option<U32>, b: Option<U32>, t: Data, u: Data)
    requires PutSection(a, t) == PutSection(b, u)
    ensures a == b && t == u
  {
    assert PutSection(a, t)[0] == PutSection(b, u)[0];
    assert PutSection(a, t)[1..] == PutSection(b, u)[1..];
    if a.Some? && b.Some? {
      RadixValues();
      IntInjective(a.value, b.value, 4, t, u);
    }
  }

  lemma {:induction false} NonceInjective(a: Context, b: Context, t: Data, u: Data)
    requires PutNonce(a, t) == PutNonce(b, u)
    ensures a.carrierId == b.carrierId && a.attemptId == b.attemptId
    ensures a.partOrdinal == b.partOrdinal && a.segmentOrdinal == b.segmentOrdinal && t == u
  {
    RadixValues();
    var pa, pb := PutU64(a.segmentOrdinal, t), PutU64(b.segmentOrdinal, u);
    var qa, qb := PutInt(a.partOrdinal, 4, pa), PutInt(b.partOrdinal, 4, pb);
    PrefixInjective(a.carrierId, b.carrierId, a.attemptId + qa, b.attemptId + qb);
    PrefixInjective(a.attemptId, b.attemptId, qa, qb);
    IntInjective(a.partOrdinal, b.partOrdinal, 4, pa, pb);
    IntInjective(a.segmentOrdinal, b.segmentOrdinal, 8, t, u);
  }

  /** Within the accepted bounds, distinct contexts or key ids give distinct associated data. */
  lemma {:induction false} AadInjective(a: Context, ka: Text, b: Context, kb: Text)
    requires Bounded(a, ka) && Bounded(b, kb) && Aad(a, ka) == Aad(b, kb)
    ensures a == b && ka == kb
  {
    RadixValues();
    var la, lb := PutField(a.layoutContext, []), PutField(b.layoutContext, []);
    var fa, fb := PutByte(if a.isFinal then 1 else 0, la), PutByte(if b.isFinal then 1 else 0, lb);
    var na, nb := PutNonce(a, PutU64(a.plaintextLen, fa)), PutNonce(b, PutU64(b.plaintextLen, fb));
    var sa, sb := PutSection(a.section, na), PutSection(b.section, nb);
    var ca, cb := PutField(a.objectId, PutField(ka, sa)), PutField(b.objectId, PutField(kb, sb));
    PrefixInjective(AAD_DOMAIN, AAD_DOMAIN, PutField(a.repositoryContext, ca), PutField(b.repositoryContext, cb));
    FieldInjective(a.repositoryContext, b.repositoryContext, ca, cb);
    FieldInjective(a.objectId, b.objectId, PutField(ka, sa), PutField(kb, sb));
    FieldInjective(ka, kb, sa, sb);
    SectionInjective(a.section, b.section, na, nb);
    NonceInjective(a, b, PutU64(a.plaintextLen, fa), PutU64(b.plaintextLen, fb));
    IntInjective(a.plaintextLen, b.plaintextLen, 8, fa, fb);
    ByteRoundTrip(if a.isFinal then 1 else 0, la);
    ByteRoundTrip(if b.isFinal then 1 else 0, lb);
    FieldInjective(a.layoutContext, b.layoutContext, [], []);
  }

  /** The nonce material determines both of its parts. */
  lemma {:induction false} MaterialInjective(a: Data, m: Data, b: Data, n: Data)
    requires |a| < U64_LIMIT && |b| < U64_LIMIT && |m| < U64_LIMIT && |n| < U64_LIMIT
    requires NonceMaterial(a, m) == NonceMaterial(b, n)
    ensures a == b && m == n
  {
    FieldInjective(a, b, PutField(m, []), PutField(n, []));
    FieldInjective(m, n, [], []);
  }

  // ---------------------------------------------------------------- the encoders

  function FieldBytes(field: Data): Data {
    BigEndian(|field|, 8) + field
  }

  function SectionBytes(section: Option<U32>): Data {
    match section
    case None => [0]
    case Some(ordinal) => [1] + BigEndian(ordinal, 4)
  }

  /** Appends the fields one after another, or refuses a context outside the bounds. */
  method AssociatedData(c: Context, keyId: Text) returns (aad: Option<Data>)
    ensures aad == if Bounded(c, keyId) then Some(Aad(c, keyId)) else None
    ensures aad.Some? <==>
            && 1 <= |c.repositoryContext| <= 4096 && |c.objectId| <= 1024 && |c.layoutContext| <= 1024
            && |keyId| <= 255 && 1 <= c.plaintextLen <= 67_108_864
  {
    if !Bounded(c, keyId) { return None; }
    var out := AAD_DOMAIN;
    var fields := [c.repositoryContext, c.objectId, keyId];
    for i := 0 to 3
      invariant out == Appended(AAD_DOMAIN, fields[..i])
    {
      assert fields[..i + 1][..i] == fields[..i];
      out := out + FieldBytes(fields[i]);
    }
    assert fields[..3] == fields;
    AppendedThree(AAD_DOMAIN, fields);
    out := out + SectionBytes(c.section);
    var nonce := NonceContext(c);
    out := out + nonce[..];
    out := out + BigEndian(c.plaintextLen, 8);
    out := out + [if c.isFinal then 1 else 0];
    out := out + FieldBytes(c.layoutContext);
    AadParts(c, keyId);
    aad := Some(out);
  }

  /** A buffer after fields were appended to it, each behind its length. */
  ghost function Appended(start: Data, fields: seq<Data>): Data {
    if fields == [] then start
    else Appended(start, fields[..|fields| - 1]) + FieldBytes(fields[|fields| - 1])
  }

  lemma {:induction false} AppendedThree(start: Data, fields: seq<Data>)
    requires |fields| == 3
    ensures Appended(start, fields) ==
            start + FieldBytes(fields[0]) + FieldBytes(fields[1]) + FieldBytes(fields[2])
  {
    assert Appended(start, fields[..2]) == Appended(start, fields[..2][..1]) + FieldBytes(fields[1]);
    assert Appended(start, fields[..2][..1]) == Appended(start, []) + FieldBytes(fields[0]);
  }

  lemma {:induction false} FieldIs(field: Data, tail: Data)
    ensures PutField(field, tail) == FieldBytes(field) + tail
  {
  }

  lemma {:induction false} SectionIs(section: Option<U32>, tail: Data)
    ensures PutSection(section, tail) == SectionBytes(section) + tail
  {
  }

  lemma {:induction false} NonceIs(c: Context, tail: Data)
    ensures PutNonce(c, tail) == NonceBytes(c) + tail
  {
  }

  lemma {:induction false} Regroup(a: Data, b: Data, c: Data, d: Data, e: Data)
    ensures a + (b + (c + (d + e))) == a + b + c + d + e
  {
  }

  lemma {:induction false} TailParts(c: Context, tail: Data)
    ensures PutSection(c.section, PutNonce(c, PutU64(c.plaintextLen, tail)))
         == SectionBytes(c.section) + (NonceBytes(c) + (BigEndian(c.plaintextLen, 8) + tail))
  {
    NonceIs(c, PutU64(c.plaintextLen, tail));
    SectionIs(c.section, NonceBytes(c) + PutU64(c.plaintextLen, tail));
  }

  lemma {:induction false} HeadParts(c: Context, keyId: Text, rest: Data)
    ensures AAD_DOMAIN + PutField(c.repositoryContext, PutField(c.objectId, PutField(keyId, rest)))
         == AAD_DOMAIN + FieldBytes(c.repositoryContext) + FieldBytes(c.objectId) + FieldBytes(keyId) + rest
  {
    FieldIs(keyId, rest);
    FieldIs(c.objectId, FieldBytes(keyId) + rest);
    FieldIs(c.repositoryContext, FieldBytes(c.objectId) + (FieldBytes(keyId) + rest));
    Regroup(AAD_DOMAIN, FieldBytes(c.repositoryContext), FieldBytes(c.objectId), FieldBytes(keyId), rest);
  }

  /** The nested form is the appended form. */
  lemma {:induction false} AadParts(c: Context, keyId: Text)
    ensures Aad(c, keyId) ==
            AAD_DOMAIN + FieldBytes(c.repositoryContext) + FieldBytes(c.objectId) + FieldBytes(keyId)
            + SectionBytes(c.section) + NonceBytes(c) + BigEndian(c.plaintextLen, 8)
            + [if c.isFinal then 1 else 0] + FieldBytes(c.layoutContext)
  {
    var layout, last := FieldBytes(c.layoutContext), [if c.isFinal then 1 else 0];
    FieldIs(c.layoutContext, []);
    assert layout + [] == layout;
    var length, section, nonce := BigEndian(c.plaintextLen, 8), SectionBytes(c.section), NonceBytes(c);
    TailParts(c, last + layout);
    HeadParts(c, keyId, section + (nonce + (length + (last + layout))));
    var head := AAD_DOMAIN + FieldBytes(c.repositoryContext) + FieldBytes(c.objectId) + FieldBytes(keyId);
    Regroup(head, section, nonce, length, last + layout);
    assert (head + section + nonce + length) + (last + layout) == head + section + nonce + length + last + layout;
  }

  /** Fills the fixed-size nonce context field by field. */
  method NonceContext(c: Context) returns (context: array<Byte>)
    ensures fresh(context) && context[..] == NonceBytes(c)
  {
    context := new Byte[76](_ => 0);
    CopyInto(context, 0, c.carrierId);
    CopyInto(context, 32, c.attemptId);
    CopyInto(context, 64, BigEndian(c.partOrdinal, 4));
    CopyInto(context, 68, BigEndian(c.segmentOrdinal, 8));
    assert context[..] == context[..76];
  }

  method CopyInto(target: array<Byte>, at: nat, source: Data)
    requires at + |source| <= target.Length
    modifies target
    ensures target[..at + |source|] == old(target[..at]) + source
    ensures target[at + |source|..] == old(target[at + |source|..])
  {
    for i := 0 to |source|
      invariant target[..at + i] == old(target[..at]) + source[..i]
      invariant target[at + i..] == old(target[at + i..])
    {
      target[at + i] := source[i];
    }
  }
}
