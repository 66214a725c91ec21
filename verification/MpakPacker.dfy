/** The push functions of `mpak`, writing into a buffer with their length checks. */
module MpakPacker {
  import opened Common
  import opened MpakFormat
  import opened MpakDataPrinter
  import opened MpakPrinter
  import opened ReadBuffer

  class Packer {
    const pbuf: Pbuf

    ghost predicate Valid()
      reads this, pbuf, pbuf.mem
    {
      pbuf.Valid() && pbuf.mem != null
    }

    /** Everything written into the buffer. */
    ghost function Content(): seq<byte>
      requires Valid()
      reads this, pbuf, pbuf.mem
    {
      pbuf.mem[..pbuf.len]
    }

    ghost function Room(): nat
      requires Valid()
      reads this, pbuf, pbuf.mem
    {
      pbuf.limit - pbuf.len
    }

    constructor (p: Pbuf)
      requires p.Valid() && p.mem != null
      ensures Valid() && pbuf == p
    {
      pbuf := p;
    }

    /** Bytes d were wanted from content `before` with `room` bytes left.  One byte must
        stay free; a refused push leaves a proper prefix behind. */
    ghost predicate Pushed(ok: bool, before: seq<byte>, room: nat, d: seq<byte>)
      reads this, pbuf, pbuf.mem
    {
      && Valid() && (ok <==> |d| < room)
      && Room() + |Content()| == room + |before|
      && if ok then Content() == before + d
         else exists k :: 0 <= k < |d| + 1 && Content() == before + d[..k]
    }

    /** CHECK_LENGTH, then the pushes. */
    method Push(d: seq<byte>) returns (ok: bool)
      requires Valid()
      modifies pbuf`len, pbuf.mem
      ensures Pushed(ok, old(Content()), old(Room()), d)
      ensures pbuf.mem == old(pbuf.mem)
    {
      if |d| >= pbuf.Available() {
        assert Content() == Content() + d[..0];
        return false;
      }
      var n := pbuf.len;
      var mem := pbuf.mem;
      forall i | 0 <= i < |d| { mem[n + i] := d[i]; }
      pbuf.len := n + |d|;
      assert pbuf.mem[..n + |d|] == old(Content()) + d;
      ok := true;
    }

    lemma PushedPair(ok1: bool, ok: bool, before: seq<byte>, mid: seq<byte>, room: nat, room1: nat, d: seq<byte>, e: seq<byte>)
      requires ok1 ==> mid == before + d && room1 + |mid| == room + |before| && |d| < room && Pushed(ok, mid, room1, e)
      requires !ok1 ==> !ok && Pushed(false, before, room, d)
      ensures Pushed(ok, before, room, d + e)
    {
      if ok1 {
        assert before + d + e == before + (d + e);
        if !ok {
          var k :| 0 <= k < |e| + 1 && Content() == mid + e[..k];
          assert Content() == before + (d + e)[..|d| + k];
        }
      } else {
        var k :| 0 <= k < |d| + 1 && Content() == before + d[..k];
        assert Content() == before + (d + e)[..k];
      }
    }

    /** Packs a value: its encoding is appended, exactly when one more byte would fit. */
    method Pack(v: Value) returns (ok: bool)
      requires Valid()
      modifies pbuf`len, pbuf.mem
      ensures Pushed(ok, old(Content()), old(Room()), Encode(v)) && pbuf.mem == old(pbuf.mem)
      decreases v, 0
    {
      match v
      case VArray(items) => ok := PackPair(ArrayHeader(|items|), items);
      case VMap(items) => ok := PackPair(MapHeader(|items| / 2), items);
      case VRaw(bytes) => ok := PackRaw(bytes);
      case _ => ok := Push(Encode(v));
    }

    /** push_raw: the length, then the data. */
    method PackRaw(bytes: seq<byte>) returns (ok: bool)
      requires Valid()
      modifies pbuf`len, pbuf.mem
      ensures Pushed(ok, old(Content()), old(Room()), RawHeader(|bytes|) + bytes) && pbuf.mem == old(pbuf.mem)
    {
      hide RawHeader;
      var r := Push(RawHeader(|bytes|));
      ghost var mid, room := Content(), Room();
      ok := false;
      if r { ok := Push(bytes); }
      PushedPair(r, ok, old(Content()), mid, old(Room()), room, RawHeader(|bytes|), bytes);
    }

    /** A container: its header, then its elements one by one. */
    method PackPair(header: seq<byte>, items: seq<Value>) returns (ok: bool)
      requires Valid()
      modifies pbuf`len, pbuf.mem
      ensures Pushed(ok, old(Content()), old(Room()), header + EncodeAll(items)) && pbuf.mem == old(pbuf.mem)
      decreases items, 1
    {
      hide Encode, EncodeAll;
      ghost var before, room := Content(), Room();
      ok := Push(header);
      var i := 0;
      NoneEncoded(items);
      assert header + EncodeAll(items[..0]) == header;
      while ok && i < |items|
        invariant 0 <= i <= |items| && pbuf.mem == old(pbuf.mem)
        invariant Pushed(ok, before, room, header + EncodeAll(items[..i]))
        decreases |items| - i
      {
        ghost var mid, left := Content(), Room();
        ghost var d := header + EncodeAll(items[..i]);
        ok := Pack(items[i]);
        PushedPair(true, ok, before, mid, room, left, d, Encode(items[i]));
        OneMoreEncoded(items, i);
        assert d + Encode(items[i]) == header + EncodeAll(items[..i + 1]);
        i := i + 1;
      }
      assert ok ==> items[..i] == items;
      if !ok { RestUnpushed(before, room, header, items, i); }
    }

    // ---- parsed objects ----

    /** Pushed, for bytes d that may be none at all: an empty container asks for no room. */
    ghost predicate PushedData(ok: bool, before: seq<byte>, room: nat, d: seq<byte>)
      reads this, pbuf, pbuf.mem
    {
      if d == [] then Valid() && ok && Room() == room && Content() == before else Pushed(ok, before, room, d)
    }

    lemma PushedDataPair(ok1: bool, ok: bool, before: seq<byte>, mid: seq<byte>, room: nat, room1: nat, d: seq<byte>, e: seq<byte>)
      requires ok1 ==> mid == before + d && room1 + |mid| == room + |before| && (d == [] || |d| < room)
      requires ok1 ==> PushedData(ok, mid, room1, e)
      requires !ok1 ==> !ok && d != [] && Pushed(false, before, room, d)
      ensures PushedData(ok, before, room, d + e)
    {
      if d == [] {
        assert d + e == e && before + d == before;
      } else if ok1 && e == [] {
        assert d + e == d;
      } else {
        PushedPair(ok1, ok, before, mid, room, room1, d, e);
      }
    }

    /** operator<<(const data&): a container is its elements without a header. */
    method PackData(i: Item) returns (ok: bool)
      requires Valid()
      modifies pbuf`len, pbuf.mem
      ensures PushedData(ok, old(Content()), old(Room()), DataBytes(i)) && pbuf.mem == old(pbuf.mem)
      decreases i, 0
    {
      match i
      case Array(items) => ok := PackElements(items);
      case Map(items) => ok := PackElements(items);
      case Raw(bytes) => ok := PackRaw(bytes);
      case _ => ok := Push(Encode(Scalar(i)));
    }

    method PackElements(items: seq<Item>) returns (ok: bool)
      requires Valid()
      modifies pbuf`len, pbuf.mem
      ensures PushedData(ok, old(Content()), old(Room()), AllDataBytes(items)) && pbuf.mem == old(pbuf.mem)
      decreases items, 1
    {
      hide DataBytes, AllDataBytes, Pushed;
      ghost var before, room := Content(), Room();
      ok := true;
      var k := 0;
      NoData(items);
      while ok && k < |items|
        invariant 0 <= k <= |items| && pbuf.mem == old(pbuf.mem)
        invariant PushedData(ok, before, room, AllDataBytes(items[..k]))
        decreases |items| - k
      {
        ghost var d := AllDataBytes(items[..k]);
        PushedAll(before, room, d);
        ghost var mid, left := Content(), Room();
        ok := PackData(items[k]);
        PushedDataPair(true, ok, before, mid, room, left, d, DataBytes(items[k]));
        OneMoreData(items, k);
        k := k + 1;
      }
      assert ok ==> items[..k] == items;
      if !ok { RestUnpushedData(before, room, items, k); }
    }

    /** What a successful push leaves. */
    lemma PushedAll(before: seq<byte>, room: nat, d: seq<byte>)
      requires PushedData(true, before, room, d)
      ensures Valid() && Content() == before + d && Room() + |Content()| == room + |before| && (d == [] || |d| < room)
    {
      assert before + [] == before;
    }

    lemma RestUnpushedData(before: seq<byte>, room: nat, items: seq<Item>, k: nat)
      requires k <= |items| && PushedData(false, before, room, AllDataBytes(items[..k]))
      ensures PushedData(false, before, room, AllDataBytes(items))
    {
      hide *;
      SplitData(items, k);
      RefusedData(before, room, AllDataBytes(items[..k]));
      PushedDataPair(false, false, before, before, room, room, AllDataBytes(items[..k]), AllDataBytes(items[k..]));
    }

    lemma RefusedData(before: seq<byte>, room: nat, d: seq<byte>)
      requires PushedData(false, before, room, d)
      ensures d != [] && Pushed(false, before, room, d)
    {
    }

    /** push_map, with the position the packing started at.  After a key the result of the
        push is tested for being nonzero instead of negative, and curpos is never zero then:
        the value and the other pairs are not reached, and an error is returned.  So it
        succeeds exactly for the empty map, when its header leaves a byte free; otherwise
        the header and what fits of the first key stay behind. */
    method PushMap(items: seq<Item>, start: nat) returns (ok: bool)
      requires Valid() && |items| % 2 == 0 && start <= pbuf.len
      modifies pbuf`len, pbuf.mem
      ensures Valid() && ok == (items == [] && 1 < old(Room())) && pbuf.mem == old(pbuf.mem)
      ensures
        var header := MapHeader(|items| / 2);
        var before, room := old(Content()), old(Room());
        if |header| >= room then Content() == before
        else if items == [] then Content() == before + header
        else PushedData(PushesData(room - |header|, items[0]), before + header, room - |header|, DataBytes(items[0]))
    {
      hide MapHeader, Pushed;
      var header := MapHeader(|items| / 2);
      HeaderSize(|items| / 2);
      ghost var before, room := Content(), Room();
      if |header| >= pbuf.Available() { return false; }
      ok := Push(header);
      PushedIs(before, room, header, ok);
      if items != [] {
        var pushed := PackData(items[0]);
        DataPushed(before + header, room - |header|, items[0], pushed);
        var r := if pushed then pbuf.len - start else -1;
        assert r != 0;
        ok := false;
      }
    }

    lemma PushedIs(before: seq<byte>, room: nat, d: seq<byte>, ok: bool)
      requires Pushed(ok, before, room, d) && |d| < room
      ensures ok && Content() == before + d && Room() == room - |d|
    {
    }

    lemma DataPushed(before: seq<byte>, room: nat, i: Item, ok: bool)
      requires PushedData(ok, before, room, DataBytes(i))
      ensures ok == PushesData(room, i) && Valid() && |Content()| >= |before|
    {
    }

    /** A map of one pair is refused although there is room for it. */
    method OnePairIsRefused() returns (ok: bool)
      requires Valid() && Room() >= 100
      modifies pbuf`len, pbuf.mem
      ensures !ok && Valid() && Content() == old(Content()) + [0x81, 0xc0]
    {
      ghost var before, room := Content(), Room();
      ok := PushMap([Nil, Nil], 0);
      assert MapHeader(1) == [0x81] && DataBytes(Nil) == [0xc0];
      assert PushedData(true, before + [0x81], room - 1, [0xc0]);
      assert before + [0x81] + [0xc0] == before + [0x81, 0xc0];
    }

    lemma RestUnpushed(before: seq<byte>, room: nat, header: seq<byte>, items: seq<Value>, i: nat)
      requires i <= |items| && Pushed(false, before, room, header + EncodeAll(items[..i]))
      ensures Pushed(false, before, room, header + EncodeAll(items))
    {
      hide *;
      SplitEncoded(items, i);
      var d := header + EncodeAll(items[..i]);
      assert header + EncodeAll(items) == d + EncodeAll(items[i..]);
      PushedPair(false, false, before, before, room, room, d, EncodeAll(items[i..]));
    }
  }

  lemma NoneEncoded(vs: seq<Value>)
    ensures EncodeAll(vs[..0]) == []
  {
  }

  lemma {:induction false} SplitEncoded(vs: seq<Value>, i: nat)
    requires i <= |vs|
    ensures EncodeAll(vs) == EncodeAll(vs[..i]) + EncodeAll(vs[i..])
    decreases i
  {
    if i > 0 {
      SplitEncoded(vs[1..], i - 1);
      assert vs[..i][1..] == vs[1..][..i - 1] && vs[1..][i - 1..] == vs[i..];
    } else {
      assert vs[0..] == vs;
    }
  }

  lemma OneMoreEncoded(vs: seq<Value>, i: nat)
    requires i < |vs|
    ensures EncodeAll(vs[..i + 1]) == EncodeAll(vs[..i]) + Encode(vs[i])
  {
    SplitEncoded(vs[..i + 1], i);
    assert vs[..i + 1][..i] == vs[..i] && vs[..i + 1][i..] == [vs[i]];
    assert EncodeAll([vs[i]]) == Encode(vs[i]) + [];
  }

  /** Whether there is room for what the operator writes for i. */
  predicate PushesData(room: int, i: Item) {
    DataBytes(i) == [] || |DataBytes(i)| < room
  }

  lemma HeaderSize(n: nat)
    ensures |MapHeader(n)| >= 1 && MapHeader(0) == [0x80]
  {
  }

  lemma NoData(items: seq<Item>)
    ensures AllDataBytes(items[..0]) == []
  {
  }

  lemma {:induction false} SplitData(items: seq<Item>, k: nat)
    requires k <= |items|
    ensures AllDataBytes(items) == AllDataBytes(items[..k]) + AllDataBytes(items[k..])
    decreases k
  {
    if k > 0 {
      SplitData(items[1..], k - 1);
      assert items[..k][1..] == items[1..][..k - 1] && items[1..][k - 1..] == items[k..];
    } else {
      assert items[0..] == items;
    }
  }

  lemma OneMoreData(items: seq<Item>, k: nat)
    requires k < |items|
    ensures AllDataBytes(items[..k + 1]) == AllDataBytes(items[..k]) + DataBytes(items[k])
  {
    SplitData(items[..k + 1], k);
    assert items[..k + 1][..k] == items[..k] && items[..k + 1][k..] == [items[k]];
    assert AllDataBytes([items[k]]) == DataBytes(items[k]) + [];
  }
}
