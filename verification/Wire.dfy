/** Byte-level wire primitives: big-endian integers, canonical varints, length-prefixed records and
    text, with the writer and reader that produce and consume them step by step.

    Every encoder takes the bytes that follow it, so that round trips compose. */
module Wire {
  import opened Prelude
  import opened Types

  /** A decoded value and the bytes after it. */
  datatype Taken<+T> = Taken(value: T, rest: Data)

  /** The bytes of an ASCII literal. */
  function Ascii(text: string): Data
    requires forall i | 0 <= i < |text| :: text[i] as int < 128
  {
    seq(|text|, i requires 0 <= i < |text| => text[i] as int as Byte)
  }

  // ---------------------------------------------------------------- fixed-width integers

  function Radix(width: nat): (r: nat)
    ensures r > 0
  {
    if width == 0 then 1 else 256 * Radix(width - 1)
  }

  lemma {:induction false} RadixValues()
    ensures Radix(2) == 0x1_0000 && Radix(4) == U32_LIMIT && Radix(8) == U64_LIMIT
  {
    assert Radix(4) == 256 * (256 * (256 * (256 * Radix(0))));
    assert Radix(8) == 256 * (256 * (256 * (256 * Radix(4))));
  }

  /** The low `width` base-256 digits, most significant first. */
  function BigEndian(n: nat, width: nat): (b: Data)
    ensures |b| == width
  {
    if width == 0 then [] else BigEndian(n / 256, width - 1) + [(n % 256) as Byte]
  }

  function FromBigEndian(b: Data): nat {
    if b == [] then 0 else FromBigEndian(b[..|b| - 1]) * 256 + b[|b| - 1] as nat
  }

  lemma {:induction false} BigEndianRoundTrip(n: nat, width: nat)
    requires n < Radix(width)
    ensures FromBigEndian(BigEndian(n, width)) == n
  {
    if width > 0 {
      BigEndianRoundTrip(n / 256, width - 1);
      assert BigEndian(n, width)[..width - 1] == BigEndian(n / 256, width - 1);
    }
  }

  lemma {:induction false} LowByte(q: nat, r: nat)
    requires r < 256
    ensures (q * 256 + r) / 256 == q && (q * 256 + r) % 256 == r
  {
  }

  lemma {:induction false} BigEndianCanonical(b: Data)
    ensures FromBigEndian(b) < Radix(|b|) && BigEndian(FromBigEndian(b), |b|) == b
  {
    if b != [] {
      var front, last := b[..|b| - 1], b[|b| - 1];
      BigEndianCanonical(front);
      LowByte(FromBigEndian(front), last as nat);
      assert b == front + [last];
    }
  }

  function ReadBytes(b: Data, length: nat): Option<Taken<Data>> {
    if length > |b| then None else Some(Taken(b[..length], b[length..]))
  }

  lemma {:induction false} BytesRoundTrip(bytes: Data, tail: Data)
    ensures ReadBytes(bytes + tail, |bytes|) == Some(Taken(bytes, tail))
  {
  }

  lemma {:induction false} BytesCanonical(b: Data, length: nat)
    requires ReadBytes(b, length).Some?
    ensures var t := ReadBytes(b, length).value; b == t.value + t.rest && |t.value| == length
  {
  }

  function PutInt(n: nat, width: nat, tail: Data): Data {
    BigEndian(n, width) + tail
  }

  function ReadInt(b: Data, width: nat): Option<Taken<nat>> {
    var bytes :- ReadBytes(b, width);
    Some(Taken(FromBigEndian(bytes.value), bytes.rest))
  }

  lemma {:induction false} IntRoundTrip(n: nat, width: nat, tail: Data)
    requires n < Radix(width)
    ensures ReadInt(PutInt(n, width, tail), width) == Some(Taken(n, tail))
  {
    BytesRoundTrip(BigEndian(n, width), tail);
    BigEndianRoundTrip(n, width);
  }

  lemma {:induction false} IntCanonical(b: Data, width: nat)
    requires ReadInt(b, width).Some?
    ensures var t := ReadInt(b, width).value; b == PutInt(t.value, width, t.rest) && t.value < Radix(width)
  {
    BigEndianCanonical(b[..width]);
  }

  function PutU64(n: U64, tail: Data): Data {
    PutInt(n, 8, tail)
  }

  function ReadU64(b: Data): (r: Option<Taken<U64>>) {
    var n :- ReadInt(b, 8);
    if n.value < U64_LIMIT then Some(Taken(n.value, n.rest)) else None
  }

  lemma {:induction false} U64RoundTrip(n: U64, tail: Data)
    ensures ReadU64(PutU64(n, tail)) == Some(Taken(n, tail))
  {
    RadixValues();
    IntRoundTrip(n, 8, tail);
  }

  lemma {:induction false} U64Canonical(b: Data)
    requires ReadU64(b).Some?
    ensures var t := ReadU64(b).value; b == PutU64(t.value, t.rest)
  {
    IntCanonical(b, 8);
  }

  /** Two's complement. */
  function PutI64(n: I64, tail: Data): Data {
    PutU64(if n < 0 then n + U64_LIMIT else n, tail)
  }

  function ReadI64(b: Data): Option<Taken<I64>> {
    var n :- ReadU64(b);
    Some(Taken(if n.value < 0x8000_0000_0000_0000 then n.value else n.value - U64_LIMIT, n.rest))
  }

  lemma {:induction false} I64RoundTrip(n: I64, tail: Data)
    ensures ReadI64(PutI64(n, tail)) == Some(Taken(n, tail))
  {
    U64RoundTrip(if n < 0 then n + U64_LIMIT else n, tail);
  }

  lemma {:induction false} I64Canonical(b: Data)
    requires ReadI64(b).Some?
    ensures var t := ReadI64(b).value; b == PutI64(t.value, t.rest)
  {
    U64Canonical(b);
  }

  function PutByte(n: Byte, tail: Data): Data {
    [n] + tail
  }

  function ReadByte(b: Data): Option<Taken<Byte>> {
    if b == [] then None else Some(Taken(b[0], b[1..]))
  }

  lemma {:induction false} ByteRoundTrip(n: Byte, tail: Data)
    ensures ReadByte(PutByte(n, tail)) == Some(Taken(n, tail))
  {
  }

  lemma {:induction false} ByteCanonical(b: Data)
    requires ReadByte(b).Some?
    ensures var t := ReadByte(b).value; b == PutByte(t.value, t.rest)
  {
  }

  // ---------------------------------------------------------------- varints

  /** Unsigned LEB128 (section 7.6 of DWARF 5). */
  function PutVarint(n: nat, tail: Data): Data {
    if n < 128 then [n as Byte] + tail else [(n % 128 + 128) as Byte] + PutVarint(n / 128, tail)
  }

  function VarintLen(n: nat): (length: nat)
    ensures length >= 1
  {
    if n < 128 then 1 else 1 + VarintLen(n / 128)
  }

  /** Reads the digits from position `index`; at most ten are allowed, the tenth is zero or one and
      the last is non-zero unless it is the only one. */
  function ReadVarintFrom(b: Data, index: nat): Option<Taken<nat>>
    decreases |b|
  {
    if index >= 10 || b == [] then None
    else
      var low := b[0] as nat % 128;
      if index == 9 && low > 1 then None
      else if b[0] < 128 then
        if index > 0 && low == 0 then None else Some(Taken(low, b[1..]))
      else
        var high :- ReadVarintFrom(b[1..], index + 1);
        Some(Taken(low + 128 * high.value, high.rest))
  }

  /** What the digits from position `index` may be worth. */
  function VarintCap(index: nat): (cap: nat)
    requires index <= 9
    ensures cap >= 2 && (index < 9 ==> cap >= 128)
    decreases 9 - index
  {
    if index == 9 then 2 else 128 * VarintCap(index + 1)
  }

  lemma {:induction false} VarintCapValue()
    ensures VarintCap(0) == U64_LIMIT
  {
    assert VarintCap(5) == 128 * (128 * (128 * (128 * VarintCap(9))));
    assert VarintCap(0) == 128 * (128 * (128 * (128 * (128 * VarintCap(5)))));
  }

  lemma {:induction false} VarintRoundTripFrom(n: nat, tail: Data, index: nat)
    requires index <= 9 && n < VarintCap(index) && (index > 0 ==> n > 0)
    ensures ReadVarintFrom(PutVarint(n, tail), index) == Some(Taken(n, tail))
    decreases n
  {
    if n >= 128 {
      assert PutVarint(n, tail)[1..] == PutVarint(n / 128, tail);
      VarintRoundTripFrom(n / 128, tail, index + 1);
    }
  }

  lemma {:induction false} VarintCanonicalFrom(b: Data, index: nat)
    requires ReadVarintFrom(b, index).Some?
    ensures var t := ReadVarintFrom(b, index).value;
            index <= 9 && b == PutVarint(t.value, t.rest) && t.value < VarintCap(index) && (index > 0 ==> t.value > 0)
    decreases |b|
  {
    var t := ReadVarintFrom(b, index).value;
    assert b == [b[0]] + b[1..];
    if b[0] >= 128 {
      VarintCanonicalFrom(b[1..], index + 1);
      assert t.value / 128 == ReadVarintFrom(b[1..], index + 1).value.value;
    }
  }

  function ReadVarint(b: Data): (r: Option<Taken<U64>>) {
    var n :- ReadVarintFrom(b, 0);
    if n.value < U64_LIMIT then Some(Taken(n.value, n.rest)) else None
  }

  lemma {:induction false} VarintRoundTrip(n: U64, tail: Data)
    ensures ReadVarint(PutVarint(n, tail)) == Some(Taken(n, tail))
  {
    VarintCapValue();
    VarintRoundTripFrom(n, tail, 0);
  }

  /** Only the shortest form is accepted: the bytes read are the bytes written for the value. */
  lemma {:induction false} VarintCanonical(b: Data)
    requires ReadVarint(b).Some?
    ensures var t := ReadVarint(b).value; b == PutVarint(t.value, t.rest)
  {
    VarintCanonicalFrom(b, 0);
  }

  /** The planned length is the number of bytes written. */
  lemma {:induction false} VarintLength(n: nat, tail: Data)
    ensures |PutVarint(n, tail)| == VarintLen(n) + |tail|
  {
    if n >= 128 { VarintLength(n / 128, tail); }
  }

  lemma {:induction false} VarintAppend(n: nat, tail: Data)
    ensures PutVarint(n, tail) == PutVarint(n, []) + tail
  {
    if n >= 128 { VarintAppend(n / 128, tail); }
  }

  function ReadCount(b: Data, maximum: nat): Option<Taken<U64>> {
    var n :- ReadVarint(b);
    if n.value > maximum then None else Some(n)
  }

  lemma {:induction false} CountRoundTrip(n: U64, maximum: nat, tail: Data)
    requires n <= maximum
    ensures ReadCount(PutVarint(n, tail), maximum) == Some(Taken(n, tail))
  {
    VarintRoundTrip(n, tail);
  }

  lemma {:induction false} CountCanonical(b: Data, maximum: nat)
    requires ReadCount(b, maximum).Some?
    ensures var t := ReadCount(b, maximum).value; b == PutVarint(t.value, t.rest) && t.value <= maximum
  {
    VarintCanonical(b);
  }

  function ReadU32(b: Data): Option<Taken<U32>> {
    var n :- ReadVarint(b);
    if n.value < U32_LIMIT then Some(Taken(n.value, n.rest)) else None
  }

  lemma {:induction false} U32RoundTrip(n: U32, tail: Data)
    ensures ReadU32(PutVarint(n, tail)) == Some(Taken(n, tail))
  {
    VarintRoundTrip(n, tail);
  }

  lemma {:induction false} U32Canonical(b: Data)
    requires ReadU32(b).Some?
    ensures var t := ReadU32(b).value; b == PutVarint(t.value, t.rest)
  {
    VarintCanonical(b);
  }

  // ---------------------------------------------------------------- records and text

  function PutRecord(record: Data, tail: Data): Data {
    PutVarint(|record|, record + tail)
  }

  function ReadRecord(b: Data, maximum: nat): Option<Taken<Data>> {
    var length :- ReadCount(b, maximum);
    ReadBytes(length.rest, length.value)
  }

  lemma {:induction false} RecordRoundTrip(record: Data, maximum: U64, tail: Data)
    requires |record| <= maximum
    ensures ReadRecord(PutRecord(record, tail), maximum) == Some(Taken(record, tail))
  {
    CountRoundTrip(|record|, maximum, record + tail);
    BytesRoundTrip(record, tail);
  }

  lemma {:induction false} RecordCanonical(b: Data, maximum: nat)
    requires ReadRecord(b, maximum).Some?
    ensures var t := ReadRecord(b, maximum).value; b == PutRecord(t.value, t.rest) && |t.value| <= maximum
  {
    CountCanonical(b, maximum);
    var length := ReadCount(b, maximum).value;
    BytesCanonical(length.rest, length.value);
  }

  lemma {:induction false} RecordLength(record: Data, tail: Data)
    ensures |PutRecord(record, tail)| == VarintLen(|record|) + |record| + |tail|
  {
    VarintLength(|record|, record + tail);
  }

  function ReadText(b: Data, maximum: nat): Option<Taken<Text>> {
    var bytes :- ReadRecord(b, maximum);
    if IsText(bytes.value) then Some(Taken(bytes.value, bytes.rest)) else None
  }

  lemma {:induction false} TextRoundTrip(text: Text, maximum: U64, tail: Data)
    requires |text| <= maximum
    ensures ReadText(PutRecord(text, tail), maximum) == Some(Taken(text, tail))
  {
    RecordRoundTrip(text, maximum, tail);
  }

  lemma {:induction false} TextCanonical(b: Data, maximum: nat)
    requires ReadText(b, maximum).Some?
    ensures var t := ReadText(b, maximum).value; b == PutRecord(t.value, t.rest) && |t.value| <= maximum
  {
    RecordCanonical(b, maximum);
  }

  // ---------------------------------------------------------------- fixed-size byte arrays

  function Read32(b: Data): Option<Taken<Bytes32>> {
    var bytes :- ReadBytes(b, 32);
    Some(Taken(bytes.value, bytes.rest))
  }

  lemma {:induction false} Read32RoundTrip(bytes: Bytes32, tail: Data)
    ensures Read32(bytes + tail) == Some(Taken(bytes, tail))
  {
    BytesRoundTrip(bytes, tail);
  }

  lemma {:induction false} Read32Canonical(b: Data)
    requires Read32(b).Some?
    ensures var t := Read32(b).value; b == t.value + t.rest
  {
  }

  // ---------------------------------------------------------------- the bounded writer

  /** A growing byte buffer with a hard size bound. */
  class Writer {
    var bytes: Data
    const maximum: U64

    constructor (maximum: U64)
      ensures bytes == [] && this.maximum == maximum
    {
      bytes := [];
      this.maximum := maximum;
    }

    method Bytes(value: Data) returns (ok: bool)
      modifies this
      ensures ok <==> |old(bytes)| + |value| <= maximum
      ensures bytes == if ok then old(bytes) + value else old(bytes)
    {
      ok := |bytes| + |value| <= maximum;
      if ok { bytes := bytes + value; }
    }

    /** Writes seven bits at a time, low bits first. */
    method Varint(value: nat) returns (ok: bool)
      requires |bytes| <= maximum
      modifies this
      ensures ok <==> |old(bytes)| + VarintLen(value) <= maximum
      ensures ok ==> bytes == old(bytes) + PutVarint(value, [])
      ensures |bytes| <= maximum
    {
      var rest := value;
      while true
        invariant |bytes| <= maximum
        invariant |bytes| + VarintLen(rest) == |old(bytes)| + VarintLen(value)
        invariant bytes + PutVarint(rest, []) == old(bytes) + PutVarint(value, [])
        decreases rest
      {
        var low, high := rest % 128, rest / 128;
        ghost var before, target := bytes, PutVarint(rest, []);
        ok := Bytes([(if high == 0 then low else low + 128) as Byte]);
        if !ok { return; }
        if high == 0 {
          assert target == [low as Byte];
          return;
        }
        assert target == [(low + 128) as Byte] + PutVarint(high, []);
        rest := high;
      }
    }

    method Record(record: Data) returns (ok: bool)
      requires |bytes| <= maximum
      modifies this
      ensures ok <==> |old(bytes)| + VarintLen(|record|) + |record| <= maximum
      ensures ok ==> bytes == old(bytes) + PutRecord(record, [])
      ensures |bytes| <= maximum
    {
      VarintAppend(|record|, record + []);
      ok := Varint(|record|);
      if ok {
        VarintLength(|record|, []);
        ok := Bytes(record);
        assert record + [] == record;
      }
    }
  }

  // ---------------------------------------------------------------- the reader

  /** A cursor over the bytes still to be decoded. */
  class Reader {
    var remaining: Data

    constructor (bytes: Data)
      ensures remaining == bytes
    {
      remaining := bytes;
    }

    method Bytes(length: nat) returns (value: Option<Data>)
      modifies this
      ensures match ReadBytes(old(remaining), length)
              case None => value == None && remaining == old(remaining)
              case Some(t) => value == Some(t.value) && remaining == t.rest
    {
      if length > |remaining| { return None; }
      value := Some(remaining[..length]);
      remaining := remaining[length..];
    }

    /** Reads at most ten digits, refusing overflow and any non-minimal form. */
    method Varint() returns (value: Option<U64>)
      modifies this
      ensures match ReadVarint(old(remaining))
              case None => value == None
              case Some(t) => value == Some(t.value) && remaining == t.rest
    {
      var sum: nat, scale: nat := 0, 1;
      for index := 0 to 10
        invariant ReadVarintFrom(old(remaining), 0) == Scaled(sum, scale, ReadVarintFrom(remaining, index))
      {
        var byte := Bytes(1);
        if byte.None? { return None; }
        var low := byte.value[0] as nat % 128;
        if index == 9 && low > 1 { return None; }
        ghost var before := sum;
        sum := sum + scale * low;
        if byte.value[0] < 128 {
          if index > 0 && low == 0 { return None; }
          VarintCanonicalFrom(old(remaining), 0);
          VarintCapValue();
          return Some(sum);
        }
        ScaledStep(before, scale, low, ReadVarintFrom(remaining, index + 1));
        scale := scale * 128;
      }
      value := None;
    }

    method Record(maximum: nat) returns (record: Option<Data>)
      modifies this
      ensures match ReadRecord(old(remaining), maximum)
              case None => record == None
              case Some(t) => record == Some(t.value) && remaining == t.rest
    {
      var length := Varint();
      if length.None? || length.value > maximum { return None; }
      record := Bytes(length.value);
    }
  }

  /** A partial sum of digits completed by what the remaining digits give. */
  ghost function Scaled(sum: nat, scale: nat, rest: Option<Taken<nat>>): Option<Taken<nat>> {
    match rest
    case None => None
    case Some(t) => Some(Taken(sum + scale * t.value, t.rest))
  }

  lemma {:induction false} ScaledStep(sum: nat, scale: nat, low: nat, rest: Option<Taken<nat>>)
    ensures Scaled(sum, scale, match rest case None => None case Some(t) => Some(Taken(low + 128 * t.value, t.rest)))
         == Scaled(sum + scale * low, scale * 128, rest)
  {
    match rest {
      case None =>
      case Some(t) => assert scale * (low + 128 * t.value) == scale * low + scale * 128 * t.value;
    }
  }
}
