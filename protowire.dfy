/**
 * The protocol-buffer wire format, restricted to what the eventkit messages
 * use: base-128 varints, little-endian fixed-width values and
 * length-delimited payloads, each preceded by a key that packs the field
 * number with the wire type.
 *
 * A message is a sequence of fields.  Decoding first splits the bytes into
 * fields and fails on any malformed one; the schema layer (module Pb) then
 * folds the fields into a message value.  Because the byte form of a field
 * list is the concatenation of the byte forms of its fields, concatenated
 * messages decode to the concatenation of their field lists, which is what
 * makes protocol buffers merge on concatenation.
 */
module ProtoWire {
  import opened Wrappers
  import opened Text
  import opened Binary

  /** The largest field number a key may carry (2^29 - 1). */
  const MaxFieldNumber: nat := 0x1fff_ffff

  datatype Value =
    | Varint(v: uint64)          // wire type 0
    | Fixed64(v: uint64)         // wire type 1
    | Bytes(data: seq<byte>)     // wire type 2
    | Fixed32(w: uint32)         // wire type 5

  type FieldNumber = n: int | 1 <= n <= MaxFieldNumber witness 1

  datatype Field = Field(number: FieldNumber, value: Value)

  function WireType(v: Value): nat
  {
    match v
    case Varint(_) => 0
    case Fixed64(_) => 1
    case Bytes(_) => 2
    case Fixed32(_) => 5
  }

  predicate ValidField(f: Field)
  {
    f.value.Bytes? ==> |f.value.data| < TwoTo64
  }

  // ---------------------------------------------------------------- varints

  /** Base-128 encoding, least significant group first, high bit set on all but the last byte. */
  function EncodeVarint(n: nat): (s: seq<byte>)
    ensures |s| >= 1
    decreases n
  {
    if n < 128 then [n] else [n % 128 + 128] + EncodeVarint(n / 128)
  }

  /** The value and length of the varint that starts `s`, with no bound on its length. */
  function RawVarint(s: seq<byte>): (r: Option<(nat, nat)>)
    ensures r.Some? ==> 1 <= r.value.1 <= |s|
    decreases |s|
  {
    if s == [] then None
    else if s[0] < 128 then Some((s[0], 1))
    else match RawVarint(s[1..])
      case None => None
      case Some((v, k)) => Some((s[0] - 128 + 128 * v, k + 1))
  }

  /**
   * protowire.ConsumeVarint: at most ten bytes, and the value must fit in
   * 64 bits (the tenth byte may only be 0 or 1).
   */
  function DecodeVarint(s: seq<byte>): (r: Option<(uint64, nat)>)
    ensures r.Some? ==> 1 <= r.value.1 <= |s| && r.value.1 <= 10
  {
    match RawVarint(s)
    case None => None
    case Some((v, k)) => if k <= 10 && v < TwoTo64 then Some((v, k)) else None
  }

  lemma {:induction false} RawVarintOfEncoding(n: nat, rest: seq<byte>)
    ensures RawVarint(EncodeVarint(n) + rest) == Some((n, |EncodeVarint(n)|))
    decreases n
  {
    var s := EncodeVarint(n) + rest;
    if n >= 128 {
      RawVarintOfEncoding(n / 128, rest);
      assert s[1..] == EncodeVarint(n / 128) + rest;
    }
  }

  function Pow128(k: nat): (p: nat)
    ensures p >= 1
  {
    if k == 0 then 1 else 128 * Pow128(k - 1)
  }

  lemma {:induction false} VarintLengthBound(n: nat, k: nat)
    requires 1 <= k && n < Pow128(k)
    ensures |EncodeVarint(n)| <= k
    decreases k
  {
    if n >= 128 {
      assert k >= 2;
      assert n / 128 < Pow128(k - 1);
      VarintLengthBound(n / 128, k - 1);
    }
  }

  lemma VarintRoundTrip(n: uint64, rest: seq<byte>)
    ensures DecodeVarint(EncodeVarint(n) + rest) == Some((n, |EncodeVarint(n)|))
    ensures |EncodeVarint(n)| <= 10
  {
    RawVarintOfEncoding(n, rest);
    assert Pow128(10) > TwoTo64;
    VarintLengthBound(n, 10);
  }

  // ------------------------------------------------------------------ fields

  function Key(f: Field): nat { f.number * 8 + WireType(f.value) }

  function EncodePayload(v: Value): seq<byte>
  {
    match v
    case Varint(n) => EncodeVarint(n)
    case Fixed64(n) => LittleEndian(n, 8)
    case Bytes(d) => EncodeVarint(|d|) + d
    case Fixed32(n) => LittleEndian(n, 4)
  }

  function EncodeField(f: Field): seq<byte>
  {
    EncodeVarint(Key(f)) + EncodePayload(f.value)
  }

  /** The value of wire type `wireType` that starts `body`, and its length. */
  function DecodePayload(wireType: nat, body: seq<byte>): (r: Option<(Value, nat)>)
    ensures r.Some? ==> r.value.1 <= |body| && WireType(r.value.0) == wireType
  {
    if wireType == 0 then
      match DecodeVarint(body)
      case None => None
      case Some((v, m)) => Some((Varint(v), m))
    else if wireType == 1 then
      if |body| < 8 then None else Some((Fixed64(FromLittleEndian(body[..8])), 8))
    else if wireType == 2 then
      match DecodeVarint(body)
      case None => None
      case Some((len, m)) =>
        if len > |body| - m then None else Some((Bytes(body[m..m + len]), m + len))
    else if wireType == 5 then
      if |body| < 4 then None else Some((Fixed32(FromLittleEndian(body[..4])), 4))
    else None
  }

  /**
   * The field that starts `s` and the number of bytes it occupies.  Field
   * number 0, numbers above 2^29 - 1 and the group wire types 3 and 4 are
   * rejected.
   */
  function DecodeField(s: seq<byte>): (r: Option<(Field, nat)>)
    ensures r.Some? ==> 1 <= r.value.1 <= |s|
  {
    match DecodeVarint(s)
    case None => None
    case Some((key, k)) =>
      if key / 8 < 1 || key / 8 > MaxFieldNumber then None
      else match DecodePayload(key % 8, s[k..])
        case None => None
        case Some((v, m)) => Some((Field(key / 8, v), k + m))
  }

  lemma PayloadRoundTrip(v: Value, rest: seq<byte>)
    requires v.Bytes? ==> |v.data| < TwoTo64
    ensures DecodePayload(WireType(v), EncodePayload(v) + rest) == Some((v, |EncodePayload(v)|))
  {
    match v {
      case Varint(n) =>
        VarintRoundTrip(n, rest);
      case Fixed64(n) =>
        Fixed64RoundTrip(n, rest);
      case Bytes(d) =>
        BytesPayloadRoundTrip(d, rest);
      case Fixed32(n) =>
        Fixed32RoundTrip(n, rest);
    }
  }

  lemma Fixed64RoundTrip(n: uint64, rest: seq<byte>)
    ensures DecodePayload(1, LittleEndian(n, 8) + rest) == Some((Fixed64(n), 8))
  {
    var body := LittleEndian(n, 8) + rest;
    assert body[..8] == LittleEndian(n, 8);
    assert FromLittleEndian(body[..8]) == n by {
      assert Pow256(8) == TwoTo64;
      LittleEndianRoundTrip(n, 8);
    }
  }

  lemma Fixed32RoundTrip(n: uint32, rest: seq<byte>)
    ensures DecodePayload(5, LittleEndian(n, 4) + rest) == Some((Fixed32(n), 4))
  {
    var body := LittleEndian(n, 4) + rest;
    assert body[..4] == LittleEndian(n, 4);
    assert FromLittleEndian(body[..4]) == n by {
      assert Pow256(4) == TwoTo32;
      LittleEndianRoundTrip(n, 4);
    }
  }

  lemma BytesPayloadRoundTrip(d: seq<byte>, rest: seq<byte>)
    requires |d| < TwoTo64
    ensures DecodePayload(2, EncodeVarint(|d|) + d + rest) == Some((Bytes(d), |EncodeVarint(|d|) + d|))
  {
    var body := EncodeVarint(|d|) + d + rest;
    var m := |EncodeVarint(|d|)|;
    assert DecodeVarint(body) == Some((|d| as uint64, m as nat)) by {
      VarintRoundTrip(|d|, d + rest);
      assert body == EncodeVarint(|d|) + (d + rest);
    }
    assert body[m..m + |d|] == d;
  }

  lemma FieldRoundTrip(f: Field, rest: seq<byte>)
    requires ValidField(f)
    ensures DecodeField(EncodeField(f) + rest) == Some((f, |EncodeField(f)|))
  {
    var key := Key(f);
    var tail := EncodePayload(f.value) + rest;
    VarintRoundTrip(key, tail);
    assert EncodeField(f) + rest == EncodeVarint(key) + tail;
    assert (EncodeVarint(key) + tail)[|EncodeVarint(key)|..] == tail;
    assert key / 8 == f.number && key % 8 == WireType(f.value);
    PayloadRoundTrip(f.value, rest);
  }

  /** Split a whole buffer into fields; any malformed field fails the whole buffer. */
  function DecodeFields(s: seq<byte>): Option<seq<Field>>
    decreases |s|
  {
    if s == [] then Some([])
    else match DecodeField(s)
      case None => None
      case Some((f, k)) =>
        match DecodeFields(s[k..])
        case None => None
        case Some(fs) => Some([f] + fs)
  }

  function EncodeFields(fs: seq<Field>): seq<byte>
  {
    if fs == [] then [] else EncodeField(fs[0]) + EncodeFields(fs[1..])
  }

  lemma {:induction false} EncodeFieldsAppend(a: seq<Field>, b: seq<Field>)
    ensures EncodeFields(a + b) == EncodeFields(a) + EncodeFields(b)
    decreases |a|, 1
  {
    if a != [] {
      EncodeFieldsAppendCons(a, b);
    } else {
      assert a + b == b;
    }
  }

  lemma {:induction false} EncodeFieldsAppendCons(a: seq<Field>, b: seq<Field>)
    requires a != []
    ensures EncodeFields(a + b) == EncodeFields(a) + EncodeFields(b)
    decreases |a|, 0
  {
    var h := EncodeField(a[0]);
    assert EncodeFields(a + b) == h + EncodeFields(a[1..] + b) by {
      assert (a + b)[0] == a[0] && (a + b)[1..] == a[1..] + b;
    }
    EncodeFieldsAppend(a[1..], b);
    assert h + (EncodeFields(a[1..]) + EncodeFields(b)) == (h + EncodeFields(a[1..])) + EncodeFields(b);
  }

  lemma {:induction false} FieldsRoundTrip(fs: seq<Field>)
    requires forall i :: 0 <= i < |fs| ==> ValidField(fs[i])
    ensures DecodeFields(EncodeFields(fs)) == Some(fs)
  {
    if fs != [] {
      var s := EncodeFields(fs);
      FieldRoundTrip(fs[0], EncodeFields(fs[1..]));
      FieldsRoundTrip(fs[1..]);
      assert s[|EncodeField(fs[0])|..] == EncodeFields(fs[1..]);
      assert [fs[0]] + fs[1..] == fs;
    }
  }

  // ------------------------------------------------- signed integer views

  /** The two's-complement bit pattern of a 64-bit signed value. */
  function FromInt64(x: int64): (u: uint64)
    ensures ToInt64(u) == x
  {
    if x < 0 then x + TwoTo64 else x
  }

  /** The signed reading of 64 bits, as Go's int64(u). */
  function ToInt64(u: uint64): int64
  {
    if u > MaxInt64 then u - TwoTo64 else u
  }

  type int32 = x: int | -0x8000_0000 <= x < 0x8000_0000

  /** An int32 field value is the low 32 bits of the varint, read as signed. */
  function ToInt32(u: uint64): int32
  {
    var low := u % TwoTo32;
    if low >= 0x8000_0000 then low - TwoTo32 else low
  }

  lemma Int32RoundTrip(x: int32)
    ensures ToInt32(FromInt64(x)) == x
  {
  }
}
