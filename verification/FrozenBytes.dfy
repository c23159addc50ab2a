/** Byte forms of single records and contexts, as the frozen protocol vectors of the repository have
    them. Identifiers stand for themselves; only their lengths matter here. */
module FrozenBytes {
  import opened Prelude
  import opened Types
  import opened Wire
  import opened SegmentContext

  lemma {:induction false} AsciiIsUtf8(b: Data)
    requires forall i | 0 <= i < |b| :: b[i] < 128
    ensures ValidUtf8(b)
  {
    if b != [] { AsciiIsUtf8(b[1..]); }
  }

  /** An identifier of printable characters. */
  function Name(text: string): (name: Text)
    requires text != "" && forall i | 0 <= i < |text| :: '!' <= text[i] <= '~'
    ensures name == Ascii(text) && |name| == |text|
  {
    AsciiIsUtf8(Ascii(text));
    Ascii(text)
  }

  /** Where two names differ. */
  lemma {:induction false} NamesDiffer(a: string, b: string, n: nat)
    requires a != "" && forall i | 0 <= i < |a| :: '!' <= a[i] <= '~'
    requires b != "" && forall i | 0 <= i < |b| :: '!' <= b[i] <= '~'
    requires n < |a| && n < |b| && a[n] < b[n] && forall i | 0 <= i < n :: a[i] == b[i]
    ensures Name(a)[..n] == Name(b)[..n] && Name(a)[n] < Name(b)[n]
  {
  }

  const NAMESPACE_1: Text := Name("namespace-1")
  const CHUNK_PATH: Text := Name("tenant/snapshot/chunk")
  const DELETED_PATH: Text := Name("tenant/deleted")

  lemma {:induction false} PathLengths()
    ensures |CHUNK_PATH| == 21 && |DELETED_PATH| == 14 && |NAMESPACE_1| == 11
  {
  }

  lemma {:induction false} TenantPaths()
    ensures |CHUNK_PATH| == 21 && |DELETED_PATH| == 14
    ensures DELETED_PATH[..7] == CHUNK_PATH[..7] && DELETED_PATH[7] < CHUNK_PATH[7]
  {
    var a, b := "tenant/deleted", "tenant/snapshot/chunk";
    assert a[0] == b[0] && a[1] == b[1] && a[2] == b[2] && a[3] == b[3] && a[4] == b[4] && a[5] == b[5] && a[6] == b[6];
    NamesDiffer(a, b, 7);
  }

  /** The same byte over and over. */
  function Fill(b: Byte, n: nat): (d: Data)
    ensures |d| == n && forall i | 0 <= i < n :: d[i] == b
  {
    if n == 0 then [] else [b] + Fill(b, n - 1)
  }

  // ---------------------------------------------------------------- numbers

  lemma {:induction false} Word(n: nat, a: Byte, b: Byte, c: Byte, d: Byte)
    requires n == ((a as nat * 256 + b as nat) * 256 + c as nat) * 256 + d as nat
    ensures BigEndian(n, 4) == [a, b, c, d] && BigEndian(n, 8) == [0, 0, 0, 0, a, b, c, d]
  {
    var n3, n2, n1 := (a as nat * 256 + b as nat) * 256 + c as nat, a as nat * 256 + b as nat, a as nat;
    LowByte(n3, d as nat);
    LowByte(n2, c as nat);
    LowByte(n1, b as nat);
    LowByte(0, a as nat);
    ZeroWord(4);
    FourDigits(n, n3, n2, n1, a, b, c, d, 0, []);
    FourDigits(n, n3, n2, n1, a, b, c, d, 4, [0, 0, 0, 0]);
  }

  lemma {:induction false} ZeroWord(width: nat)
    ensures BigEndian(0, width) == Fill(0, width)
    ensures width == 4 ==> BigEndian(0, width) == [0, 0, 0, 0]
    ensures width == 0 ==> BigEndian(0, width) == []
  {
    if width > 0 { ZeroWord(width - 1); }
    assert BigEndian(0, 4) == [0, 0, 0, 0];
  }

  lemma {:induction false} FourDigits(
      n: nat, n3: nat, n2: nat, n1: nat, a: Byte, b: Byte, c: Byte, d: Byte, width: nat, front: Data)
    requires n / 256 == n3 && n % 256 == d as nat && n3 / 256 == n2 && n3 % 256 == c as nat
    requires n2 / 256 == n1 && n2 % 256 == b as nat && n1 / 256 == 0 && n1 % 256 == a as nat
    requires BigEndian(0, width) == front
    ensures BigEndian(n, width + 4) == front + [a, b, c, d]
  {
    assert BigEndian(n1, width + 1) == front + [a];
    assert BigEndian(n2, width + 2) == front + [a, b];
    assert BigEndian(n3, width + 3) == front + [a, b, c];
  }

  // ---------------------------------------------------------------- authenticated contexts

  lemma {:induction false} FieldBytes(field: Data, tail: Data)
    requires |field| < 256
    ensures PutField(field, tail) == [0, 0, 0, 0, 0, 0, 0, |field| as Byte] + (field + tail)
  {
    Word(|field|, 0, 0, 0, |field| as Byte);
  }

  const AAD_DOMAIN_TEXT: Data := Ascii("rs3:payload-segment-aad:v3")
  const REPOSITORY: Data := Ascii("repository/keyring")
  const OPAQUE_A: Text := Name("opaque-a")
  const CONTENT: Text := Name("content")
  const RECORD_LAYOUT: Data := Ascii("segment-size-and-record-offset")
  const SEVENS: Bytes32 := Fill(7, 32)
  const EIGHTS: Bytes32 := Fill(8, 32)

  /** The context of the frozen segment: in a section of a pack, final, five bytes long. */
  const FROZEN_CONTEXT: Context := Context(REPOSITORY, OPAQUE_A, Some(0), SEVENS, EIGHTS, 1, 0, 5, true, RECORD_LAYOUT)

  lemma {:induction false} FrozenNames()
    ensures |REPOSITORY| == 0x12 && |OPAQUE_A| == 8 && |CONTENT| == 7 && |RECORD_LAYOUT| == 0x1e
    ensures AAD_DOMAIN == AAD_DOMAIN_TEXT
  {
  }

  /** The associated data of the frozen segment. */
  lemma {:induction false} FrozenAad()
    ensures Aad(FROZEN_CONTEXT, CONTENT) ==
            AAD_DOMAIN_TEXT + ([0, 0, 0, 0, 0, 0, 0, 0x12] + (REPOSITORY + ([0, 0, 0, 0, 0, 0, 0, 0x08] + (OPAQUE_A +
            ([0, 0, 0, 0, 0, 0, 0, 0x07] + (CONTENT + ([1, 0, 0, 0, 0] + (SEVENS + (EIGHTS + ([0, 0, 0, 1, 0, 0, 0,
            0, 0, 0, 0, 0] + ([0, 0, 0, 0, 0, 0, 0, 5, 1] + ([0, 0, 0, 0, 0, 0, 0, 0x1e] +
            (RECORD_LAYOUT)))))))))))))
  {
    FrozenNames();
    FrozenAadOf(FROZEN_CONTEXT, CONTENT);
  }

  lemma {:induction false} FrozenAadOf(c: Context, keyId: Text)
    requires |c.repositoryContext| == 0x12 && |c.objectId| == 8 && c.section == Some(0) && |keyId| == 7
    requires c.partOrdinal == 1 && c.segmentOrdinal == 0 && c.plaintextLen == 5 && c.isFinal && |c.layoutContext| == 0x1e
    ensures Aad(c, keyId) ==
            AAD_DOMAIN
            + ([0, 0, 0, 0, 0, 0, 0, 0x12] + (c.repositoryContext
            + ([0, 0, 0, 0, 0, 0, 0, 0x08] + (c.objectId
            + ([0, 0, 0, 0, 0, 0, 0, 0x07] + (keyId
            + ([1, 0, 0, 0, 0]
            + (c.carrierId + (c.attemptId + ([0, 0, 0, 1, 0, 0, 0, 0, 0, 0, 0, 0]
            + ([0, 0, 0, 0, 0, 0, 0, 5, 1]
            + ([0, 0, 0, 0, 0, 0, 0, 0x1e] + c.layoutContext))))))))))))
  {
    var layout := PutField(c.layoutContext, []);
    var length := PutU64(c.plaintextLen, PutByte(1, layout));
    var ordinals := PutInt(c.partOrdinal, 4, PutU64(c.segmentOrdinal, length));
    var section := PutSection(c.section, PutNonce(c, length));
    FieldBytes(c.layoutContext, []);
    LengthBytes(layout);
    OrdinalBytes(length);
    SectionBytes(PutNonce(c, length));
    FieldBytes(keyId, section);
    FieldBytes(c.objectId, PutField(keyId, section));
    FieldBytes(c.repositoryContext, PutField(c.objectId, PutField(keyId, section)));
    assert c.layoutContext + [] == c.layoutContext;
  }

  lemma {:induction false} LengthBytes(tail: Data)
    ensures PutU64(5, PutByte(1, tail)) == [0, 0, 0, 0, 0, 0, 0, 5, 1] + tail
  {
    Word(5, 0, 0, 0, 5);
  }

  lemma {:induction false} OrdinalBytes(tail: Data)
    ensures PutInt(1, 4, PutU64(0, tail)) == [0, 0, 0, 1, 0, 0, 0, 0, 0, 0, 0, 0] + tail
  {
    Word(0, 0, 0, 0, 0);
    Word(1, 0, 0, 0, 1);
  }

  lemma {:induction false} SectionBytes(tail: Data)
    ensures PutSection(Some(0), tail) == [1, 0, 0, 0, 0] + tail
  {
    Word(0, 0, 0, 0, 0);
  }
}
