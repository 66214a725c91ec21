/** The MessagePack subset of the serializer, as a recursive-descent reader.

    This is the reference the stack machine of MpakMachine is compared with.  It
    follows the "Formats" section of the MessagePack specification, without the
    later str, bin and ext types, and with the two readings this parser has of its
    own: multi-byte integers are unsigned, and 0xd6..0xd9 announce a length. */
module MpakFormat {
  import opened Common
  import opened Arithmetic

  /** Containers nest at most this deep: the parse stack has 16 entries. */
  const STACK_DEPTH: nat := 16
  const INT_LIMIT: nat := 0x8000_0000
  const S64_LIMIT: nat := 0x8000_0000_0000_0000

  /** A decoded object.  The items of a map alternate between keys and values, and a
      floating-point number is kept as its big-endian bits. */
  datatype Item =
    | Nil
    | Bool(b: bool)
    | Int(n: int)
    | Dec(bits: seq<byte>)
    | Raw(bytes: seq<byte>)
    | Array(items: seq<Item>)
    | Map(items: seq<Item>)

  datatype Kind = NilKind | IntegerKind | DoubleKind | BlobKind | ArrayKind | MapKind

  // ---- numbers in network byte order ----

  function Pow256(w: nat): (p: nat)
    ensures p >= 1
  {
    if w == 0 then 1 else 256 * Pow256(w - 1)
  }

  function BigEndian(s: seq<byte>): (n: nat)
    ensures n < Pow256(|s|)
  {
    if s == [] then 0 else BigEndian(s[..|s| - 1]) * 256 + s[|s| - 1]
  }

  function Digits(n: nat, w: nat): (s: seq<byte>)
    ensures |s| == w
  {
    if w == 0 then [] else Digits(n / 256, w - 1) + [n % 256]
  }

  lemma {:induction false} DigitsBack(n: nat, w: nat)
    ensures BigEndian(Digits(n, w)) == n % Pow256(w)
  {
    if w > 0 {
      DigitsBack(n / 256, w - 1);
      assert Digits(n, w)[..w - 1] == Digits(n / 256, w - 1);
      SplitMod(n, Pow256(w - 1));
    }
  }

  lemma SplitMod(n: nat, p: nat)
    requires p >= 1
    ensures n % (256 * p) == (n / 256) % p * 256 + n % 256
  {
    var q := n / 256 / p;
    var r := (n / 256) % p * 256 + n % 256;
    assert n / 256 == q * p + (n / 256) % p;
    assert n == q * (256 * p) + r;
    Remainder(q, 256 * p, r);
  }

  // ---- the first byte ----

  /** What the first byte of an object announces. */
  datatype Lead =
    | Whole(item: Item)
    | Payload(kind: Kind, size: nat)
    | Sized(kind: Kind, width: nat)
    | Elements(kind: Kind, count: nat)
    | Unused

  function LeadOf(b: byte): Lead {
    if b <= 0x7f then Whole(Int(b))
    else if b <= 0x8f then Elements(MapKind, b - 0x80)
    else if b <= 0x9f then Elements(ArrayKind, b - 0x90)
    else if b <= 0xbf then Payload(BlobKind, b - 0xa0)
    else if b == 0xc0 then Whole(Nil)
    else if b == 0xc2 then Whole(Bool(false))
    else if b == 0xc3 then Whole(Bool(true))
    else if b == 0xca then Payload(DoubleKind, 4)
    else if b == 0xcb then Payload(DoubleKind, 8)
    else if b == 0xcc || b == 0xd0 then Payload(IntegerKind, 1)
    else if b == 0xcd || b == 0xd1 then Payload(IntegerKind, 2)
    else if b == 0xce || b == 0xd2 then Payload(IntegerKind, 4)
    else if b == 0xcf || b == 0xd3 then Payload(IntegerKind, 8)
    else if b == 0xd6 then Sized(DoubleKind, 2)
    else if b == 0xd7 then Sized(DoubleKind, 4)
    else if b == 0xd8 then Sized(IntegerKind, 2)
    else if b == 0xd9 then Sized(IntegerKind, 4)
    else if b == 0xda then Sized(BlobKind, 2)
    else if b == 0xdb then Sized(BlobKind, 4)
    else if b == 0xdc then Sized(ArrayKind, 2)
    else if b == 0xdd then Sized(ArrayKind, 4)
    else if b == 0xde then Sized(MapKind, 2)
    else if b == 0xdf then Sized(MapKind, 4)
    else if b >= 0xe0 then Whole(Int(b - 256))
    else Unused
  }

  function ToSigned64(n: nat): int {
    if n >= S64_LIMIT then n - 2 * S64_LIMIT else n
  }

  /** The object a payload stands for, if there is one. */
  function DataItem(kind: Kind, s: seq<byte>): Option<Item> {
    match kind
    case IntegerKind =>
      if |s| == 1 || |s| == 2 || |s| == 4 then Some(Int(BigEndian(s)))
      else if |s| == 8 then Some(Int(ToSigned64(BigEndian(s))))
      else None
    case DoubleKind => if |s| == 8 || |s| == 4 then Some(Dec(s)) else None
    case BlobKind => if |s| < INT_LIMIT then Some(Raw(s)) else None
    case _ => None
  }

  // ---- the reader ----

  datatype Reading = Got(item: Item, rest: seq<byte>) | Short | Bad
  datatype Readings = GotAll(items: seq<Item>, rest: seq<byte>) | ShortAll | BadAll

  /** rest is what remains of s after at least k bytes. */
  predicate Remains(rest: seq<byte>, s: seq<byte>, k: nat) {
    |rest| + k <= |s| && rest == s[|s| - |rest|..]
  }

  lemma DropRemains(s: seq<byte>, k: nat)
    requires k <= |s|
    ensures Remains(s[k..], s, 0) && Remains(s[k..], s, k)
  {
  }

  function ReadPayload(kind: Kind, size: nat, s: seq<byte>): (r: Reading)
    ensures r.Got? ==> Remains(r.rest, s, 0)
  {
    if |s| < size then Short
    else
      match DataItem(kind, s[..size])
      case Some(i) => Got(i, s[size..])
      case None => Bad
  }

  /** Reads one object; `room` containers may still be opened around its leaves. */
  function Read(s: seq<byte>, room: nat): (r: Reading)
    ensures r.Got? ==> Remains(r.rest, s, 1)
    decreases |s|, 0
  {
    if s == [] then Short
    else
      match LeadOf(s[0])
      case Whole(i) => Got(i, s[1..])
      case Payload(kind, size) => ReadPayload(kind, size, s[1..])
      case Elements(kind, count) => ReadElements(kind, count, s[1..], room)
      case Sized(kind, width) =>
        if |s| - 1 < width then Short
        else
          var n := BigEndian(s[1..1 + width]);
          if kind == ArrayKind || kind == MapKind then ReadElements(kind, n, s[1 + width..], room)
          else ReadPayload(kind, n, s[1 + width..])
      case Unused => Bad
  }

  function ReadElements(kind: Kind, count: nat, s: seq<byte>, room: nat): (r: Reading)
    ensures r.Got? ==> Remains(r.rest, s, 0)
    decreases |s|, 2
  {
    if count == 0 then Got(Container(kind, []), s)
    else if room == 0 then Bad
    else
      match ReadMany(if kind == MapKind then 2 * count else count, s, room - 1)
      case GotAll(items, rest) => Got(Container(kind, items), rest)
      case ShortAll => Short
      case BadAll => Bad
  }

  function ReadMany(k: nat, s: seq<byte>, room: nat): (r: Readings)
    ensures r.GotAll? ==> |r.items| == k && Remains(r.rest, s, 0)
    decreases |s|, 1
  {
    if k == 0 then GotAll([], s)
    else
      match Read(s, room)
      case Short => ShortAll
      case Bad => BadAll
      case Got(i, rest) =>
        match ReadMany(k - 1, rest, room)
        case ShortAll => ShortAll
        case BadAll => BadAll
        case GotAll(items, rest') => GotAll([i] + items, rest')
  }

  function Container(kind: Kind, items: seq<Item>): Item {
    if kind == MapKind then Map(items) else Array(items)
  }

  lemma ReadShrinks(s: seq<byte>, room: nat)
    ensures Read(s, room).Got? ==> |Read(s, room).rest| < |s|
  {
    hide Read;
  }
}
