/** `operator<<(const data&)` of `mpak`: a parsed object is written without the headers of
    its containers, and integers always as 32 bits. */
module MpakDataPrinter {
  import opened Common
  import opened MpakFormat
  import opened MpakPrinter

  /** `operator int`: the low 32 bits, signed. */
  function ToInt(n: int): int {
    var u := n % U32_LIMIT;
    if u >= INT_LIMIT then u - U32_LIMIT else u
  }

  predicate IsContainer(i: Item) {
    i.Array? || i.Map?
  }

  /** What the operator writes for an object that is not a container. */
  function Scalar(i: Item): Value
    requires !IsContainer(i)
  {
    match i
    case Nil => VNil
    case Bool(b) => VBool(b)
    case Int(n) => VInt(S32, ToInt(n))
    case Dec(bits) => VDouble(bits)
    case Raw(bytes) => VRaw(bytes)
  }

  function DataBytes(i: Item): seq<byte>
    decreases i, 0
  {
    if i.Array? || i.Map? then AllDataBytes(i.items) else Encode(Scalar(i))
  }

  function AllDataBytes(items: seq<Item>): seq<byte>
    decreases items, 1
  {
    if items == [] then [] else DataBytes(items[0]) + AllDataBytes(items[1..])
  }

  /** A floating-point number of an object is a double, and a blob has a size the parser takes. */
  predicate Printable(i: Item) {
    match i
    case Dec(bits) => |bits| == 8
    case Raw(bytes) => |bytes| < INT_LIMIT
    case Array(items) => forall k | 0 <= k < |items| :: Printable(items[k])
    case Map(items) => forall k | 0 <= k < |items| :: Printable(items[k])
    case _ => true
  }

  /** The objects that come back from what the operator writes: no container, and no integer
      outside 0..2^32-1. */
  predicate ComesBack(i: Item) {
    !IsContainer(i) && (i.Int? ==> 0 <= i.n < U32_LIMIT)
  }

  lemma ToIntBits(n: int)
    ensures InRange(S32, ToInt(n)) && Bits(S32, ToInt(n)) == n % U32_LIMIT
  {
    Powers();
    var u := n % U32_LIMIT;
    if u >= INT_LIMIT { NegativeBits(u - U32_LIMIT, U32_LIMIT); } else { Small(u, U32_LIMIT); }
  }

  /** An object that is not a container, with its integer cut to 32 unsigned bits. */
  function Cut(i: Item): Item {
    if i.Int? then Int(i.n % U32_LIMIT) else i
  }

  lemma ScalarReads(i: Item, rest: seq<byte>, room: nat)
    requires Printable(i) && !IsContainer(i)
    ensures Read(DataBytes(i) + rest, room) == Got(Cut(i), rest)
  {
    hide Read, Encode, Bits;
    if i.Int? { ToIntBits(i.n); }
    RoundTrip(Scalar(i), rest, room);
  }

  /** What a container leaves in the buffer is read as the first thing in it that is none. */
  lemma {:induction false} LeafFirst(i: Item, rest: seq<byte>, room: nat)
    requires Printable(i) && DataBytes(i) != []
    ensures Read(DataBytes(i) + rest, room).Got? && !IsContainer(Read(DataBytes(i) + rest, room).item)
    decreases i, 0
  {
    hide Read;
    if IsContainer(i) {
      LeafFirstOfAll(i.items, rest, room);
    } else {
      ScalarReads(i, rest, room);
    }
  }

  lemma {:induction false} LeafFirstOfAll(items: seq<Item>, rest: seq<byte>, room: nat)
    requires (forall k | 0 <= k < |items| :: Printable(items[k])) && AllDataBytes(items) != []
    ensures
      var r := Read(AllDataBytes(items) + rest, room);
      r.Got? && !IsContainer(r.item)
    decreases items, 1
  {
    hide Read, DataBytes, Printable;
    var tail := AllDataBytes(items[1..]);
    assert AllDataBytes(items) + rest == DataBytes(items[0]) + (tail + rest);
    if DataBytes(items[0]) == [] {
      assert AllDataBytes(items) == tail;
      LeafFirstOfAll(items[1..], rest, room);
    } else {
      LeafFirst(items[0], tail + rest, room);
    }
  }

  /** The headerless printer is inverted by the reader exactly for objects that are no
      containers and hold no integer outside the unsigned 32-bit range. */
  lemma ComesBackIff(i: Item, rest: seq<byte>, room: nat)
    requires Printable(i)
    ensures Read(DataBytes(i) + rest, room) == Got(i, rest) <==> ComesBack(i)
  {
    hide Read, DataBytes;
    if !IsContainer(i) {
      ScalarReads(i, rest, room);
    } else if DataBytes(i) == [] {
      assert DataBytes(i) + rest == rest;
      ReadShrinks(rest, room);
    } else {
      LeafFirst(i, rest, room);
    }
  }

  /** The array of nil is written as nil, the empty array not at all, and -1 comes back as
      2^32 - 1. */
  lemma DoesNotComeBack(rest: seq<byte>, room: nat)
    ensures Read(DataBytes(Array([Nil])) + rest, room) == Got(Nil, rest)
    ensures DataBytes(Array([])) == []
    ensures Read(DataBytes(Int(-1)) + rest, room) == Got(Int(0xffff_ffff), rest)
  {
    hide Read;
    ScalarReads(Nil, rest, room);
    ScalarReads(Int(-1), rest, room);
    assert AllDataBytes([Nil]) == DataBytes(Nil) + AllDataBytes([]) == DataBytes(Nil);
  }
}
