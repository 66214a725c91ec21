/** What the push functions and the scalar operators of `mpak` write, and the round trip
    through the reader.  A container is written as the serializer's clients do: its length
    first, then its elements. */
module MpakPrinter {
  import opened Common
  import opened MpakFormat

  datatype IntType = U8 | S8 | U16 | S16 | U32 | S32 | U64 | S64

  /** A value to be packed; the items of a map alternate between keys and values. */
  datatype Value =
    | VNil
    | VBool(b: bool)
    | VInt(ty: IntType, n: int)
    | VFloat(bits: seq<byte>)
    | VDouble(bits: seq<byte>)
    | VRaw(bytes: seq<byte>)
    | VArray(items: seq<Value>)
    | VMap(items: seq<Value>)

  const U32_LIMIT: nat := 0x1_0000_0000

  function WidthOf(ty: IntType): nat {
    match ty
    case U8 => 1 case S8 => 1 case U16 => 2 case S16 => 2 case U32 => 4 case S32 => 4 case U64 => 8 case S64 => 8
  }

  predicate Signed(ty: IntType) {
    ty == S8 || ty == S16 || ty == S32 || ty == S64
  }

  predicate InRange(ty: IntType, n: int) {
    if Signed(ty) then -(Pow256(WidthOf(ty)) as int) <= 2 * n < Pow256(WidthOf(ty)) else 0 <= n < Pow256(WidthOf(ty))
  }

  /** The value fits its C++ type, and counts and sizes fit what the parser can take. */
  predicate Packable(v: Value) {
    match v
    case VInt(ty, n) => InRange(ty, n)
    case VFloat(bits) => |bits| == 4
    case VDouble(bits) => |bits| == 8
    case VRaw(bytes) => |bytes| < INT_LIMIT
    case VArray(items) => |items| < U32_LIMIT && forall i | 0 <= i < |items| :: Packable(items[i])
    case VMap(items) => |items| % 2 == 0 && |items| / 2 < U32_LIMIT && forall i | 0 <= i < |items| :: Packable(items[i])
    case _ => true
  }

  // ---- bytes written ----

  /** The two's complement bits of n. */
  function Bits(ty: IntType, n: int): nat {
    n % Pow256(WidthOf(ty))
  }

  function IntTag(ty: IntType): byte {
    match ty
    case U8 => 0xcc case U16 => 0xcd case U32 => 0xce case U64 => 0xcf
    case S8 => 0xd0 case S16 => 0xd1 case S32 => 0xd2 case S64 => 0xd3
  }

  function IntBytes(ty: IntType, n: int): seq<byte> {
    var u := Bits(ty, n);
    if (ty == U8 && u <= 0x7f) || (ty == S8 && u >= 0xe0) then Digits(u, 1)
    else [IntTag(ty)] + Digits(u, WidthOf(ty))
  }

  function RawHeader(n: nat): seq<byte> {
    if n <= 0x1f then [0xa0 + n]
    else if n <= 0xffff then [0xda] + Digits(n, 2)
    else [0xdb] + Digits(n % U32_LIMIT, 4)
  }

  function ArrayHeader(n: nat): seq<byte> {
    if n <= 0xf then [0x90 + n]
    else if n <= 0xffff then [0xdc] + Digits(n, 2)
    else [0xdd] + Digits(n % U32_LIMIT, 4)
  }

  function MapHeader(n: nat): seq<byte> {
    if n <= 0xf then [0x80 + n]
    else if n <= 0xffff then [0xde] + Digits(n, 2)
    else [0xdf] + Digits(n % U32_LIMIT, 4)
  }

  function Encode(v: Value): (s: seq<byte>)
    ensures |s| >= 1
    decreases v, 0
  {
    match v
    case VNil => [0xc0]
    case VBool(b) => if b then [0xc3] else [0xc2]
    case VInt(ty, n) => IntBytes(ty, n)
    case VFloat(bits) => [0xca] + bits
    case VDouble(bits) => [0xcb] + bits
    case VRaw(bytes) => RawHeader(|bytes|) + bytes
    case VArray(items) => ArrayHeader(|items|) + EncodeAll(items)
    case VMap(items) => MapHeader(|items| / 2) + EncodeAll(items)
  }

  function EncodeAll(vs: seq<Value>): seq<byte>
    decreases vs, 1
  {
    if vs == [] then [] else Encode(vs[0]) + EncodeAll(vs[1..])
  }

  // ---- what comes back ----

  /** The integer the parser makes of it: a fixnum keeps its sign, more than one byte is
      read as unsigned, and 64 bits end up in a signed 64-bit field. */
  function IntBack(ty: IntType, n: int): int {
    if ty == S8 && -0x20 <= n < 0 then n
    else if ty == U64 || ty == S64 then ToSigned64(Bits(ty, n))
    else Bits(ty, n)
  }

  function Back(v: Value): Item
    decreases v, 0
  {
    match v
    case VNil => Nil
    case VBool(b) => Bool(b)
    case VInt(ty, n) => Int(IntBack(ty, n))
    case VFloat(bits) => Dec(bits)
    case VDouble(bits) => Dec(bits)
    case VRaw(bytes) => Raw(bytes)
    case VArray(items) => Array(BackAll(items))
    case VMap(items) => Map(BackAll(items))
  }

  function BackAll(vs: seq<Value>): (r: seq<Item>)
    ensures |r| == |vs|
    decreases vs, 1
  {
    if vs == [] then [] else [Back(vs[0])] + BackAll(vs[1..])
  }

  /** How many non-empty containers are nested around the deepest leaf. */
  function Height(v: Value): nat
    decreases v, 0
  {
    match v
    case VArray(items) => if items == [] then 0 else 1 + Highest(items)
    case VMap(items) => if items == [] then 0 else 1 + Highest(items)
    case _ => 0
  }

  function Highest(vs: seq<Value>): nat
    decreases vs, 1
  {
    if vs == [] then 0
    else
      var a, b := Height(vs[0]), Highest(vs[1..]);
      if a > b then a else b
  }

  // ---- round trip ----

  lemma Powers()
    ensures Pow256(1) == 0x100 && Pow256(2) == 0x1_0000 && Pow256(4) == U32_LIMIT && Pow256(8) == 2 * S64_LIMIT
  {
    assert Pow256(3) == 0x100_0000 && Pow256(4) == 256 * Pow256(3);
    assert Pow256(5) == 256 * Pow256(4) && Pow256(6) == 256 * Pow256(5) && Pow256(7) == 256 * Pow256(6);
  }

  lemma Small(n: nat, m: nat)
    requires n < m
    ensures n % m == n
  {
  }

  lemma FixIntRead(u: nat, rest: seq<byte>, room: nat)
    requires u <= 0x7f || 0xe0 <= u <= 0xff
    ensures Read(Digits(u, 1) + rest, room) == Got(Int(if u <= 0x7f then u else u - 256), rest)
  {
    var s := Digits(u, 1) + rest;
    assert Digits(u, 1) == [] + [u % 256];
    assert s[0] == u && s[1..] == rest;
  }

  lemma WideIntRead(ty: IntType, u: nat, rest: seq<byte>, room: nat)
    requires u < Pow256(WidthOf(ty))
    ensures
      Read([IntTag(ty)] + Digits(u, WidthOf(ty)) + rest, room)
      == Got(Int(if WidthOf(ty) == 8 then ToSigned64(u) else u), rest)
  {
    var w := WidthOf(ty);
    DigitsBack(u, w);
    Small(u, Pow256(w));
    assert LeadOf(IntTag(ty)) == Payload(IntegerKind, w);
    hide LeadOf, Pow256, Digits, BigEndian, ToSigned64, IntTag;
    var d := Digits(u, w);
    var s := [IntTag(ty)] + d + rest;
    assert s[0] == IntTag(ty) && s[1..] == d + rest;
    assert (d + rest)[..w] == d && (d + rest)[w..] == rest;
  }

  lemma BitsSigned(ty: IntType, n: int)
    requires InRange(ty, n)
    ensures Bits(ty, n) < Pow256(WidthOf(ty))
    ensures ty == U8 ==> Bits(ty, n) == n
    ensures ty == S8 ==> Bits(ty, n) == if n >= 0 then n else n + 256
  {
    Powers();
  }

  lemma IntRoundTrip(ty: IntType, n: int, rest: seq<byte>, room: nat)
    requires InRange(ty, n)
    ensures Read(IntBytes(ty, n) + rest, room) == Got(Int(IntBack(ty, n)), rest)
  {
    hide Read, Pow256, Digits, Bits, ToSigned64;
    Powers();
    BitsSigned(ty, n);
    var u := Bits(ty, n);
    if (ty == U8 && u <= 0x7f) || (ty == S8 && u >= 0xe0) {
      FixIntRead(u, rest, room);
    } else {
      WideIntRead(ty, u, rest, room);
    }
  }

  /** A length prefix of w bytes after byte tag. */
  lemma PrefixRead(tag: byte, n: nat, w: nat, tail: seq<byte>, kind: Kind, room: nat)
    requires n < Pow256(w) && LeadOf(tag) == Sized(kind, w)
    ensures
      var s := ([tag] + Digits(n, w)) + tail;
      Read(s, room) == if kind == ArrayKind || kind == MapKind then ReadElements(kind, n, tail, room) else ReadPayload(kind, n, tail)
  {
    DigitsBack(n, w);
    Small(n, Pow256(w));
    hide LeadOf, ReadElements, ReadPayload;
    var d := Digits(n, w);
    var s := ([tag] + d) + tail;
    assert s[0] == tag && s[1..1 + w] == d && s[1 + w..] == tail;
  }

  lemma RawHeaderRead(n: nat, tail: seq<byte>, room: nat)
    requires n < U32_LIMIT
    ensures Read(RawHeader(n) + tail, room) == ReadPayload(BlobKind, n, tail)
  {
    hide ReadPayload;
    Powers();
    var s := RawHeader(n) + tail;
    if n <= 0x1f { assert s[0] == 0xa0 + n && s[1..] == tail; }
    else if n <= 0xffff { PrefixRead(0xda, n, 2, tail, BlobKind, room); }
    else { Small(n, U32_LIMIT); PrefixRead(0xdb, n, 4, tail, BlobKind, room); }
  }

  lemma ArrayHeaderRead(n: nat, tail: seq<byte>, room: nat)
    requires n < U32_LIMIT
    ensures Read(ArrayHeader(n) + tail, room) == ReadElements(ArrayKind, n, tail, room)
  {
    hide ReadElements;
    Powers();
    var s := ArrayHeader(n) + tail;
    if n <= 0xf { assert s[0] == 0x90 + n && s[1..] == tail; }
    else if n <= 0xffff { PrefixRead(0xdc, n, 2, tail, ArrayKind, room); }
    else { Small(n, U32_LIMIT); PrefixRead(0xdd, n, 4, tail, ArrayKind, room); }
  }

  lemma MapHeaderRead(n: nat, tail: seq<byte>, room: nat)
    requires n < U32_LIMIT
    ensures Read(MapHeader(n) + tail, room) == ReadElements(MapKind, n, tail, room)
  {
    hide ReadElements;
    Powers();
    var s := MapHeader(n) + tail;
    if n <= 0xf { assert s[0] == 0x80 + n && s[1..] == tail; }
    else if n <= 0xffff { PrefixRead(0xde, n, 2, tail, MapKind, room); }
    else { Small(n, U32_LIMIT); PrefixRead(0xdf, n, 4, tail, MapKind, room); }
  }

  lemma ScalarRoundTrip(v: Value, rest: seq<byte>, room: nat)
    requires Packable(v) && (v.VNil? || v.VBool? || v.VFloat? || v.VDouble?)
    ensures Read(Encode(v) + rest, room) == Got(Back(v), rest)
  {
    var s := Encode(v) + rest;
    match v
    case VFloat(bits) => assert s[1..] == bits + rest && s[1..][..4] == bits && s[1..][4..] == rest;
    case VDouble(bits) => assert s[1..] == bits + rest && s[1..][..8] == bits && s[1..][8..] == rest;
    case VNil => assert s[1..] == rest;
    case VBool(b) => assert s[1..] == rest;
  }

  /** Round trip: reading back what was packed yields the packed value and consumes exactly
      its bytes, if it is nested no deeper than the parser can follow, and an error if it
      is. */
  lemma {:induction false} RoundTrip(v: Value, rest: seq<byte>, room: nat)
    requires Packable(v)
    ensures Read(Encode(v) + rest, room) == if Height(v) <= room then Got(Back(v), rest) else Bad
    decreases v, 0
  {
    hide Read;
    match v
    case VInt(ty, n) => IntRoundTrip(ty, n, rest, room);
    case VRaw(bytes) =>
      assert Encode(v) + rest == RawHeader(|bytes|) + (bytes + rest);
      RawHeaderRead(|bytes|, bytes + rest, room);
      assert (bytes + rest)[..|bytes|] == bytes && (bytes + rest)[|bytes|..] == rest;
    case VArray(items) =>
      assert Encode(v) + rest == ArrayHeader(|items|) + (EncodeAll(items) + rest);
      ArrayHeaderRead(|items|, EncodeAll(items) + rest, room);
      ElementsRoundTrip(v, items, rest, room);
    case VMap(items) =>
      assert Encode(v) + rest == MapHeader(|items| / 2) + (EncodeAll(items) + rest);
      MapHeaderRead(|items| / 2, EncodeAll(items) + rest, room);
      ElementsRoundTrip(v, items, rest, room);
    case _ => ScalarRoundTrip(v, rest, room);
  }

  lemma {:induction false} ElementsRoundTrip(v: Value, items: seq<Value>, rest: seq<byte>, room: nat)
    requires Packable(v) && (v == VArray(items) || v == VMap(items))
    ensures
      var (kind, n) := if v.VMap? then (MapKind, |items| / 2) else (ArrayKind, |items|);
      ReadElements(kind, n, EncodeAll(items) + rest, room) == if Height(v) <= room then Got(Back(v), rest) else Bad
    decreases v, -1
  {
    hide Read;
    if items == [] {
      assert EncodeAll(items) + rest == rest;
    } else if room > 0 {
      RoundTripAll(items, rest, room - 1);
    }
  }

  lemma {:induction false} RoundTripAll(vs: seq<Value>, rest: seq<byte>, room: nat)
    requires forall i | 0 <= i < |vs| :: Packable(vs[i])
    ensures ReadMany(|vs|, EncodeAll(vs) + rest, room) == if Highest(vs) <= room then GotAll(BackAll(vs), rest) else BadAll
    decreases vs, 1
  {
    hide Read, Packable, Encode, Back, Height;
    if vs == [] {
      assert EncodeAll(vs) + rest == rest;
    } else {
      var tail := EncodeAll(vs[1..]) + rest;
      assert EncodeAll(vs) + rest == Encode(vs[0]) + tail;
      RoundTrip(vs[0], tail, room);
      RoundTripAll(vs[1..], rest, room);
    }
  }

  // ---- which values come back as they were ----

  /** The object a packed value should come back as. */
  function Meaning(v: Value): Item
    decreases v, 0
  {
    match v
    case VInt(ty, n) => Int(n)
    case VArray(items) => Array(Meanings(items))
    case VMap(items) => Map(Meanings(items))
    case _ => Back(v)
  }

  function Meanings(vs: seq<Value>): (r: seq<Item>)
    ensures |r| == |vs|
    decreases vs, 1
  {
    if vs == [] then [] else [Meaning(vs[0])] + Meanings(vs[1..])
  }

  /** Integers that survive: the non-negative ones below 2^63, every S64, and the negative
      fixnums. */
  predicate Survives(ty: IntType, n: int) {
    if n >= 0 then n < S64_LIMIT else ty == S64 || (ty == S8 && n >= -0x20)
  }

  predicate Faithful(v: Value)
    decreases v, 0
  {
    match v
    case VInt(ty, n) => Survives(ty, n)
    case VArray(items) => AllFaithful(items)
    case VMap(items) => AllFaithful(items)
    case _ => true
  }

  predicate AllFaithful(vs: seq<Value>)
    decreases vs, 1
  {
    vs == [] || (Faithful(vs[0]) && AllFaithful(vs[1..]))
  }

  lemma SurvivesIff(ty: IntType, n: int)
    requires InRange(ty, n)
    ensures IntBack(ty, n) == n <==> Survives(ty, n)
  {
    Powers();
    var m := Pow256(WidthOf(ty));
    if n >= 0 { Small(n, m); } else { NegativeBits(n, m); }
  }

  lemma NegativeBits(n: int, m: nat)
    requires -(m as int) <= n < 0
    ensures n % m == n + m
  {
    Small(n + m, m);
    assert n == -1 * m + (n + m);
    var q, r := n / m, n % m;
    assert n == q * m + r;
    assert (q + 1) * m == n + m - r;
    assert q + 1 >= 1 ==> (q + 1) * m >= m;
    assert q + 1 <= -1 ==> (q + 1) * m + m <= 0;
  }

  /** The exact condition under which the round trip preserves the value. */
  lemma {:induction false} FaithfulIff(v: Value)
    requires Packable(v)
    ensures Back(v) == Meaning(v) <==> Faithful(v)
    decreases v, 0
  {
    match v
    case VInt(ty, n) => SurvivesIff(ty, n);
    case VArray(items) => AllFaithfulIff(items);
    case VMap(items) => AllFaithfulIff(items);
    case _ =>
  }

  lemma {:induction false} AllFaithfulIff(vs: seq<Value>)
    requires forall i | 0 <= i < |vs| :: Packable(vs[i])
    ensures BackAll(vs) == Meanings(vs) <==> AllFaithful(vs)
    decreases vs, 1
  {
    if vs != [] {
      FaithfulIff(vs[0]);
      AllFaithfulIff(vs[1..]);
      assert BackAll(vs)[0] == Back(vs[0]) && BackAll(vs)[1..] == BackAll(vs[1..]);
      assert Meanings(vs)[0] == Meaning(vs[0]) && Meanings(vs)[1..] == Meanings(vs[1..]);
    }
  }
}
