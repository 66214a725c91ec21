/** The double-buffered socket writer `wbuf`, for raw stream sends.

    Senders append to `next` while the poller writes out `curr`; when curr is done the two
    are swapped.  Every operation runs under the mutex or touches only curr, so operations
    on one writer are taken one after the other. */
module WriteBuffer {
  import opened Common
  import opened MpakFormat
  import opened ReadBuffer

  /** sizeof(raw): the size and the position of a chunk. */
  const HEADER: nat := 16

  /** A raw command: its data, of which the first pos bytes were sent. */
  datatype Chunk = Chunk(data: seq<byte>, pos: nat)

  /** A buffer: its commands, each after a tag byte, and its capacity. */
  datatype Side = Side(chunks: seq<Chunk>, limit: nat)

  datatype Outcome = Keep | Nop | WriteAgain | Destroy

  function Last(chunks: seq<Chunk>): nat {
    if chunks == [] then 0 else Last(chunks[..|chunks| - 1]) + 1 + HEADER + |chunks[|chunks| - 1].data|
  }

  /** The bytes of a buffer still to be sent. */
  function Unsent(chunks: seq<Chunk>): seq<byte> {
    if chunks == [] then []
    else Rest(chunks[0]) + Unsent(chunks[1..])
  }

  function Rest(c: Chunk): seq<byte> {
    if c.pos <= |c.data| then c.data[c.pos..] else []
  }

  function RequiredSize(n: nat, append: bool): nat {
    n + if append then 0 else HEADER
  }

  /** The capacity after reserve(s) with `last` bytes in use. */
  function Reserved(limit: nat, last: nat, s: nat): nat
    requires limit >= 1
  {
    if limit - last >= s then limit else Doubled(limit, s + last)
  }

  // ---- the byte that is not reserved ----

  function PowerOfTwo(k: nat): (p: nat)
    ensures p >= 1
  {
    if k == 0 then 1 else 2 * PowerOfTwo(k - 1)
  }

  /** sz is the capacity, or the capacity doubled a number of times. */
  ghost predicate DoubledExactly(limit: nat, sz: nat) {
    exists k: nat :: sz == limit * PowerOfTwo(k)
  }

  /** n bytes with their header fill a capacity that reserve can arrive at. */
  ghost predicate Overruns(limit: nat, n: nat) {
    DoubledExactly(limit, HEADER + n)
  }

  /** Where byte i of a new command's data goes: behind the tag and the header. */
  function DataIndex(last: nat, i: nat): nat {
    last + 1 + HEADER + i
  }

  /** The reserved capacity leaves nothing over exactly when what is asked for is the
      capacity doubled a number of times. */
  lemma ExactFitIff(limit: nat, sz: nat)
    requires limit >= 1
    ensures Doubled(limit, sz) == sz <==> DoubledExactly(limit, sz)
  {
    if Doubled(limit, sz) == sz { var k := DoubledTimes(limit, sz); }
    if k: nat :| sz == limit * PowerOfTwo(k) { DoublesTo(limit, k); }
  }

  lemma {:induction false} DoubledTimes(limit: nat, sz: nat) returns (k: nat)
    requires limit >= 1
    ensures Doubled(limit, sz) == limit * PowerOfTwo(k)
    decreases sz - limit
  {
    k := 0;
    if sz > limit {
      k := DoubledTimes(2 * limit, sz);
      OnceMore(limit, k);
      k := k + 1;
    }
  }

  lemma OnceMore(limit: nat, k: nat)
    ensures 2 * limit * PowerOfTwo(k) == limit * PowerOfTwo(k + 1)
  {
    assert limit * (2 * PowerOfTwo(k)) == 2 * (limit * PowerOfTwo(k));
  }

  lemma {:induction false} DoublesTo(limit: nat, k: nat)
    requires limit >= 1
    ensures Doubled(limit, limit * PowerOfTwo(k)) == limit * PowerOfTwo(k)
    decreases k
  {
    if k > 0 {
      OnceMore(limit, k - 1);
      Positive(limit, PowerOfTwo(k - 1));
      DoublesTo(2 * limit, k - 1);
    }
  }

  lemma Positive(a: nat, b: nat)
    requires a >= 1 && b >= 1
    ensures 2 * a * b > a
  {
    assert a * b >= a;
  }

  /** The tag byte of a new command is not counted in what is reserved.  In an empty buffer
      the command fits exactly when its size is not a power of two times the capacity. */
  lemma SpareIff(limit: nat, n: nat)
    requires limit >= 1
    ensures DataIndex(0, n) <= Reserved(limit, 0, RequiredSize(n, false)) <==> !Overruns(limit, n)
  {
    hide Doubled, DoubledExactly;
    ReservedFromEmpty(limit, HEADER + n);
    ExactFitIff(limit, HEADER + n);
  }

  lemma ReservedFromEmpty(limit: nat, s: nat)
    requires limit >= 1
    ensures Reserved(limit, 0, s) == Doubled(limit, s)
  {
  }

  /** When it does not fit, the last byte of the data is written at the index that is the
      capacity, and it is the only one outside. */
  lemma OverrunLandsOnLimit(limit: nat, n: nat, i: nat)
    requires limit >= 1 && Overruns(limit, n) && i < n
    ensures DataIndex(0, i) >= Reserved(limit, 0, RequiredSize(n, false)) <==> i == n - 1
    ensures DataIndex(0, n - 1) == Reserved(limit, 0, RequiredSize(n, false))
  {
    hide Doubled, DoubledExactly;
    ReservedFromEmpty(limit, HEADER + n);
    ExactFitIff(limit, HEADER + n);
  }

  /** A fresh buffer of 16 kilobytes: sends of 16368, 32752, 65520, ... bytes go over. */
  lemma SpareCanFail(k: nat)
    ensures 16384 * PowerOfTwo(k) >= HEADER && Overruns(16384, 16384 * PowerOfTwo(k) - HEADER)
  {
    assert HEADER + (16384 * PowerOfTwo(k) - HEADER) == 16384 * PowerOfTwo(k);
  }

  /** An appended send stays within what is reserved. */
  lemma AppendFits(limit: nat, last: nat, n: nat)
    requires limit >= 1 && last <= limit
    ensures last + n <= Reserved(limit, last, RequiredSize(n, true))
  {
  }

  // ---- runs ----

  /** A writer seen from outside: what was accepted and written, and what its buffers hold. */
  datatype Conn = Conn(accepted: seq<byte>, written: seq<byte>, curr: seq<byte>, next: seq<byte>, attached: bool)

  /** A send, or a call of write while the kernel can take `room` bytes, or fails when negative. */
  datatype Event = SendEvent(data: seq<byte>) | WriteEvent(room: int)

  function Apply(c: Conn, e: Event): Conn {
    match e
    case SendEvent(data) => c.(accepted := c.accepted + data, next := c.next + data, attached := true)
    case WriteEvent(room) =>
      if !c.attached then c
      else if c.curr == [] then c.(curr := c.next, next := [], attached := c.next != [])
      else
        var n := Taken(room, |c.curr|);
        c.(written := c.written + c.curr[..n], curr := c.curr[n..])
  }

  function ApplyAll(c: Conn, es: seq<Event>): Conn {
    if es == [] then c else Apply(ApplyAll(c, es[..|es| - 1]), es[|es| - 1])
  }

  function Sends(es: seq<Event>): seq<byte> {
    if es == [] then []
    else Sends(es[..|es| - 1]) + if es[|es| - 1].SendEvent? then es[|es| - 1].data else []
  }

  predicate Conserving(c: Conn) {
    c.accepted == c.written + c.curr + c.next && (!c.attached ==> c.curr == [] && c.next == [])
  }

  /** Conservation over every run: under any sends, partial writes, failures and swaps, what
      was sent so far is what was written, then what curr and next hold, in this order; and a
      writer that detached has written everything. */
  lemma {:induction false} ConservedInEveryRun(c: Conn, es: seq<Event>)
    requires Conserving(c)
    ensures
      var d := ApplyAll(c, es);
      && Conserving(d) && d.accepted == c.accepted + Sends(es) && d.written <= d.accepted
      && (!d.attached ==> d.written == c.accepted + Sends(es))
  {
    if es == [] {
      assert c.accepted + [] == c.accepted;
      PrefixWritten(c);
    } else {
      var n := |es| - 1;
      ConservedInEveryRun(c, es[..n]);
      var d := ApplyAll(c, es[..n]);
      ConservedStep(d, es[n]);
      assert c.accepted + Sends(es[..n]) + [] == c.accepted + Sends(es[..n]);
      assert es[n].SendEvent? ==> c.accepted + Sends(es[..n]) + es[n].data == c.accepted + (Sends(es[..n]) + es[n].data);
      PrefixWritten(Apply(d, es[n]));
    }
  }

  lemma PrefixWritten(c: Conn)
    requires Conserving(c)
    ensures c.written <= c.accepted && (!c.attached ==> c.written == c.accepted)
  {
    assert c.accepted == c.written + (c.curr + c.next);
    assert !c.attached ==> c.written + ([] + []) == c.written;
  }

  lemma ConservedStep(c: Conn, e: Event)
    requires Conserving(c)
    ensures Conserving(Apply(c, e))
    ensures Apply(c, e).accepted == c.accepted + if e.SendEvent? then e.data else []
  {
    match e
    case SendEvent(data) => assert c.written + c.curr + (c.next + data) == c.accepted + data;
    case WriteEvent(room) =>
      assert c.accepted + [] == c.accepted;
      if c.attached && c.curr == [] {
        assert c.written + c.next + [] == c.written + [] + c.next;
      } else if c.attached {
        var n := Taken(room, |c.curr|);
        assert c.curr[..n] + c.curr[n..] == c.curr;
        assert c.written + c.curr[..n] + c.curr[n..] == c.written + c.curr;
      }
  }

  /** How many calls of write are enough when the kernel takes a byte each time. */
  function CallsLeft(c: Conn): nat {
    if !c.attached then 0 else |c.curr| + |c.next| + if c.next != [] then 2 else 1
  }

  /** Nothing stays behind: once the sends stop, calls of write that get at least a byte
      through write everything and detach the writer. */
  lemma {:induction false} Drains(c: Conn, es: seq<Event>)
    requires Conserving(c) && |es| >= CallsLeft(c)
    requires forall i | 0 <= i < |es| :: es[i].WriteEvent? && es[i].room >= 1
    ensures !ApplyAll(c, es).attached && ApplyAll(c, es).written == c.accepted
  {
    DrainsMore(c, es, |es|);
    assert es[..|es|] == es;
    ConservedInEveryRun(c, es);
    NoSends(es);
    assert c.accepted + [] == c.accepted;
  }

  lemma {:induction false} DrainsMore(c: Conn, es: seq<Event>, k: nat)
    requires k <= |es| && forall i | 0 <= i < |es| :: es[i].WriteEvent? && es[i].room >= 1
    ensures CallsLeft(ApplyAll(c, es[..k])) + k <= CallsLeft(c) || CallsLeft(ApplyAll(c, es[..k])) == 0
    decreases k
  {
    if k == 0 {
      assert es[..0] == [];
    } else {
      DrainsMore(c, es, k - 1);
      assert es[..k][..k - 1] == es[..k - 1];
    }
  }

  lemma {:induction false} NoSends(es: seq<Event>)
    requires forall i | 0 <= i < |es| :: es[i].WriteEvent?
    ensures Sends(es) == []
  {
    if es != [] { NoSends(es[..|es| - 1]); }
  }

  /** What a write of len bytes comes to when the kernel can take `room`. */
  function Taken(room: int, len: nat): nat {
    if room < 0 then 0 else if room < len then room else len
  }

  /** What became of a send: its bytes are in the buffer, or a byte was written at an index
      outside it. */
  datatype Sent = Accepted | Overrun(index: nat)

  class Wbuf {
    var curr: Side
    var next: Side
    var attached: bool
    /** m_last_wcmd is RAW: the last command of next may be appended to. */
    var lastRaw: bool
    /** p_last_writer, as the index of the command it points to. */
    var lastWriter: nat

    /** The bytes of all sends that were accepted, and of all that were written out. */
    ghost var accepted: seq<byte>
    ghost var written: seq<byte>

    ghost predicate Valid()
      reads this
    {
      && accepted == written + Unsent(curr.chunks) + Unsent(next.chunks)
      && (forall i | 0 <= i < |curr.chunks| :: curr.chunks[i].pos < |curr.chunks[i].data|)
      && (forall i | 0 <= i < |next.chunks| :: next.chunks[i].pos == 0 < |next.chunks[i].data|)
      && |curr.chunks| <= 1 && |next.chunks| <= 1
      && Last(curr.chunks) <= curr.limit && Last(next.chunks) <= next.limit && curr.limit >= 1 && next.limit >= 1
      && (lastRaw ==> |next.chunks| >= 1 && lastWriter == |next.chunks| - 1)
      && (!lastRaw ==> next.chunks == [])
      && (!attached ==> curr.chunks == [] && next.chunks == [])
    }

    ghost function View(): Conn
      reads this
    {
      Conn(accepted, written, Unsent(curr.chunks), Unsent(next.chunks), attached)
    }

    constructor (size: nat)
      requires size >= 1
      ensures Valid() && View() == Conn([], [], [], [], false)
      ensures curr.limit == size && next.limit == size
    {
      curr, next := Side([], size), Side([], size);
      attached, lastRaw, lastWriter := false, false, 0;
      accepted, written := [], [];
    }

    /** Conservation: what was accepted is what was written, then what curr and next still
        hold, in order; and a writer that is not attached has nothing left. */
    lemma Conserved()
      requires Valid()
      ensures accepted == written + Unsent(curr.chunks) + Unsent(next.chunks)
      ensures !attached ==> written == accepted
      ensures written <= accepted
    {
      NothingUnsent();
      assert !attached ==> written + [] + [] == written;
      assert accepted == written + (Unsent(curr.chunks) + Unsent(next.chunks));
    }

    /** A send that starts a new command finds the buffer empty. */
    lemma NewCommandsStartEmpty()
      requires Valid() && !lastRaw
      ensures Last(next.chunks) == 0
    {
    }

    /** sendraw of a raw command.  A send that starts a new command writes past the buffer
        exactly when its size with the header is a power of two times the capacity; what the
        memory holds afterwards is not said. */
    method Send(data: seq<byte>) returns (r: Sent)
      requires Valid() && data != []
      modifies this
      ensures r.Overrun? <==> !old(lastRaw) && Overruns(old(next.limit), |data|)
      ensures r.Overrun? ==> r.index == DataIndex(0, |data| - 1) == Reserved(old(next.limit), 0, RequiredSize(|data|, false))
      ensures r.Accepted? ==> Valid() && curr == old(curr) && View() == Apply(old(View()), SendEvent(data))
    {
      hide Last, Unsent, Doubled, Overruns;
      var append := lastRaw;
      var s := RequiredSize(|data|, append);
      var last := Last(next.chunks);
      var limit := Reserved(next.limit, last, s);
      ghost var before := next.chunks;
      if append {
        AppendFits(next.limit, last, |data|);
        var c := next.chunks[lastWriter];
        next := Side(next.chunks[lastWriter := c.(data := c.data + data)], limit);
        assert before == [before[0]] && next.chunks == [before[0].(data := before[0].data + data)];
        AppendChunk(before[0], data);
      } else {
        NothingUnsent();
        SpareIff(next.limit, |data|);
        if DataIndex(last, |data| - 1) >= limit {
          OverrunLandsOnLimit(next.limit, |data|, |data| - 1);
          return Overrun(DataIndex(last, |data| - 1));
        }
        next := Side(next.chunks + [Chunk(data, 0)], limit);
        lastWriter := |next.chunks| - 1;
        assert next.chunks == [Chunk(data, 0)];
        PushChunk(data);
        assert [] + data == data;
      }
      lastRaw := true;
      accepted := accepted + data;
      Joined(written, Unsent(curr.chunks), Unsent(before), data);
      if !attached { attached := true; }
      r := Accepted;
    }

    /** write(2) when the kernel can take `room` bytes, or fails when room is negative. */
    method WriteOut(data: seq<byte>, room: int) returns (r: int)
      modifies this`written
      ensures r == if room < 0 then -1 else Taken(room, |data|)
      ensures written == old(written) + if r >= 0 then data[..r] else []
    {
      if room < 0 { return -1; }
      r := Taken(room, |data|);
      written := written + data[..r];
    }

    /** write_command, called by the poller while the writer is attached: the swap when curr
        is done, otherwise one write of what the kernel takes. */
    method WriteCommand(room: int, again: bool, pipe: bool) returns (r: Outcome)
      requires Valid() && attached
      modifies this
      ensures Valid() && View() == Apply(old(View()), WriteEvent(room))
      ensures old(curr).chunks == [] ==>
        && curr == old(next) && next == old(curr) && written == old(written)
        && (attached <==> old(next).chunks != []) && r == if attached then Keep else Nop
      ensures !attached ==> accepted == written
      ensures old(curr).chunks != [] && room >= 0 ==>
        var unsent := Unsent(old(curr).chunks);
        var n := Taken(room, |unsent|);
        written == old(written) + unsent[..n] && Unsent(curr.chunks) == unsent[n..] && next == old(next) && attached && r == Keep
      ensures old(curr).chunks != [] && room < 0 ==>
        && written == old(written) && curr == old(curr) && next == old(next) && attached
        && r == if pipe then Nop else if again then WriteAgain else Destroy
    {
      hide Unsent, Reserved, Rest;
      EmptyIff(curr.chunks);
      SomethingUnsent(curr.chunks);
      SomethingUnsent(next.chunks);
      NothingUnsent();
      assert written + Unsent(curr.chunks)[..0] == written && Unsent(curr.chunks)[0..] == Unsent(curr.chunks);
      if Last(curr.chunks) == 0 {
        r := Swap();
      } else {
        r := WriteChunks(room, again, pipe);
      }
    }

    /** curr is done: the buffers are swapped, and the writer detaches when both are empty. */
    method Swap() returns (r: Outcome)
      requires Valid() && attached && curr.chunks == []
      modifies this
      ensures Valid() && accepted == old(accepted) && written == old(written)
      ensures curr == old(next) && next == old(curr)
      ensures attached <==> old(next).chunks != []
      ensures r == if attached then Keep else Nop
      ensures !attached ==> accepted == written
    {
      EmptyIff(next.chunks);
      hide Last, Unsent;
      NothingUnsent();
      curr, next := next, curr;
      lastRaw := false;
      assert written + [] + Unsent(curr.chunks) == written + Unsent(curr.chunks) + [];
      if Last(curr.chunks) == 0 {
        attached := false;
        assert written + [] + [] == written;
        return Nop;
      }
      r := Keep;
    }

    /** The walk over the commands of curr: what was finished is cut off at the end, and an
        error leaves everything as it is.  Raw sends are joined into one command, so the
        walk makes one write. */
    method WriteChunks(room: int, again: bool, pipe: bool) returns (r: Outcome)
      requires Valid() && attached && curr.chunks != []
      modifies this`curr, this`written
      ensures Valid()
      ensures room >= 0 ==>
        var unsent := Unsent(old(curr).chunks);
        var n := Taken(room, |unsent|);
        written == old(written) + unsent[..n] && Unsent(curr.chunks) == unsent[n..] && r == Keep
      ensures room < 0 ==>
        && written == old(written) && curr == old(curr)
        && r == if pipe then Nop else if again then WriteAgain else Destroy
    {
      hide Last, Unsent, Reserved, Rest;
      var now, blocked := 0, false;
      ghost var before, limit := curr.chunks, curr.limit;
      ghost var unsent := Unsent(before);
      ghost var n0 := Taken(room, |unsent|);
      NothingUnsent();
      assert before == [before[0]] && before[0..] == before && before[1..] == [];
      OneChunk(before[0]);
      while now < |curr.chunks| && !blocked
        invariant 0 <= now <= |curr.chunks| == 1 && curr.limit == limit && curr.chunks[0].data == before[0].data
        invariant now == 0 ==> curr.chunks[0].pos < |before[0].data|
        invariant now == 0 && !blocked ==> curr.chunks == before && written == old(written)
        invariant now == 1 || blocked ==>
          room >= 0 && written == old(written) + unsent[..n0] && Unsent(curr.chunks[now..]) == unsent[n0..]
        invariant blocked ==> now == 0
        decreases 1 - now, !blocked
      {
        var c := curr.chunks[now];
        var n := WriteOut(c.data[c.pos..], room);
        if n < 0 {
          assert written + [] == written;
          return if pipe then Nop else if again then WriteAgain else Destroy;
        }
        SentSome(c, n);
        curr := curr.(chunks := curr.chunks[now := c.(pos := c.pos + n)]);
        assert curr.chunks == [c.(pos := c.pos + n)] && before == [c];
        if c.pos + n < |c.data| {
          assert curr.chunks[now..] == curr.chunks;
          blocked := true;
        } else {
          assert curr.chunks[1..] == [];
          now := now + 1;
        }
      }
      assert unsent == unsent[..n0] + unsent[n0..];
      ghost var after := Unsent(next.chunks);
      Reassociate(old(written), unsent, written, Unsent(curr.chunks[now..]), after);
      OneChunk(curr.chunks[0]);
      assert now == 0 ==> curr.chunks[now..] == [curr.chunks[0]];
      assert now == 1 ==> curr.chunks[now..] == [];
      curr := curr.(chunks := curr.chunks[now..]);
      r := Keep;
    }
  }

  lemma SentSome(c: Chunk, n: nat)
    requires c.pos + n <= |c.data|
    ensures |Rest(c)| == |c.data| - c.pos && Rest(c) == c.data[c.pos..]
    ensures Rest(c)[..n] == c.data[c.pos..][..n] && Rest(c)[n..] == Rest(c.(pos := c.pos + n))
    ensures c.pos + n == |c.data| ==> Rest(c.(pos := c.pos + n)) == []
    ensures Unsent([c]) == Rest(c) && Unsent([c.(pos := c.pos + n)]) == Rest(c.(pos := c.pos + n))
  {
    OneChunk(c);
    OneChunk(c.(pos := c.pos + n));
  }

  lemma Reassociate(a: seq<byte>, b: seq<byte>, c: seq<byte>, d: seq<byte>, e: seq<byte>)
    requires a + b == c + d
    ensures a + b + e == c + d + e
  {
  }

  lemma EmptyIff(chunks: seq<Chunk>)
    ensures Last(chunks) == 0 <==> chunks == []
  {
  }

  /** A command that is not finished has something to send. */
  lemma SomethingUnsent(chunks: seq<Chunk>)
    requires forall i | 0 <= i < |chunks| :: chunks[i].pos < |chunks[i].data|
    ensures Unsent(chunks) == [] <==> chunks == []
  {
  }

  lemma NothingUnsent()
    ensures Unsent([]) == [] && Last([]) == 0
  {
  }

  lemma OneChunk(c: Chunk)
    ensures Unsent([c]) == Rest(c) && Last([c]) == 1 + HEADER + |c.data|
  {
    assert [c][..0] == [] && [c][1..] == [];
    assert Rest(c) + [] == Rest(c);
  }

  lemma PushChunk(data: seq<byte>)
    ensures Unsent([Chunk(data, 0)]) == data && Last([Chunk(data, 0)]) == 1 + HEADER + |data|
  {
    OneChunk(Chunk(data, 0));
  }

  lemma AppendChunk(c: Chunk, data: seq<byte>)
    requires c.pos == 0
    ensures Unsent([c.(data := c.data + data)]) == Unsent([c]) + data
    ensures Last([c.(data := c.data + data)]) == Last([c]) + |data|
  {
    OneChunk(c);
    OneChunk(c.(data := c.data + data));
  }

  lemma Joined(a: seq<byte>, b: seq<byte>, c: seq<byte>, d: seq<byte>)
    ensures a + b + c + d == a + b + (c + d)
  {
  }
}
