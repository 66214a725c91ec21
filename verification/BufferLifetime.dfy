/** The reference counts behind zero-copy parsing.

    A receive buffer and the parsed objects share memory blocks.  An object's blobs point
    into the blocks the buffer had while it was parsed; the object holds one reference per
    unpack call (`sbuf::refer`), the buffer holds one to its current block.  The steps are
    the buffer and object operations in any order a connection and its clients allow. */
module BufferLifetime {
  import opened Common
  import opened MpakFormat
  import opened ReadBuffer

  type BlockId = nat

  datatype Block = Block(cnt: int, mem: seq<byte>)

  /** A blob of an object: where it points and the bytes that were parsed there. */
  datatype Blob = Blob(block: BlockId, start: nat, bytes: seq<byte>)

  /** An sbuf: its block references and the blobs of the object it belongs to. */
  datatype Sbuf = Sbuf(refs: seq<BlockId>, blobs: seq<Blob>)

  /** `faults` counts reference operations on a block that was freed already. */
  datatype Heap = Heap(blocks: map<BlockId, Block>, next: BlockId, faults: nat)

  datatype State = State(
    heap: Heap, ptr: Option<BlockId>, len: nat, limit: nat, ofs: nat,
    sbufs: seq<Sbuf>, parsing: Option<nat>, inCall: bool)

  function Init(): State {
    State(Heap(map[], 0, 0), None, 0, 0, 0, [], None, false)
  }

  // ---- blocks ----

  function Alloc(h: Heap, mem: seq<byte>): Heap {
    h.(blocks := h.blocks[h.next := Block(1, mem)], next := h.next + 1)
  }

  function Refer(h: Heap, b: BlockId): Heap {
    if b !in h.blocks then h.(faults := h.faults + 1)
    else h.(blocks := h.blocks[b := h.blocks[b].(cnt := h.blocks[b].cnt + 1)])
  }

  function Unref(h: Heap, b: BlockId): Heap {
    if b !in h.blocks then h.(faults := h.faults + 1)
    else if h.blocks[b].cnt - 1 == 0 then h.(blocks := h.blocks - {b})
    else h.(blocks := h.blocks[b := h.blocks[b].(cnt := h.blocks[b].cnt - 1)])
  }

  function UnrefAll(h: Heap, refs: seq<BlockId>): Heap
    decreases refs
  {
    if refs == [] then h else UnrefAll(Unref(h, refs[0]), refs[1..])
  }

  function Overwrite(mem: seq<byte>, at: nat, data: seq<byte>): seq<byte>
    requires at + |data| <= |mem|
  {
    mem[..at] + data + mem[at + |data|..]
  }

  // ---- steps ----

  datatype Step =
    | Reserve(sz: nat, junk: seq<byte>)
    | Receive(data: seq<byte>)
    | BeginUnpack
    | Skip(n: nat)
    | TakeBlob(n: nat)
    | EndUnpack(finished: bool)
    | Fin(obj: nat)
    | Drop

  function NewLimit(st: State, sz: nat): nat {
    if st.ptr.Some? && st.limit >= 1 && st.ofs <= st.len then Doubled(st.limit, sz + (st.len - st.ofs))
    else Doubled(INITIAL_BUFFER_SIZE, sz)
  }

  function Unread(st: State): seq<byte> {
    if st.ptr.Some? && st.ptr.value in st.heap.blocks && st.ofs <= st.len <= |st.heap.blocks[st.ptr.value].mem| then
      st.heap.blocks[st.ptr.value].mem[st.ofs..st.len]
    else []
  }

  /** pbuf::reserve: the new block starts with the unread bytes; the rest is whatever the
      allocator hands out. */
  predicate Reserves(st: State, st': State, sz: nat, junk: seq<byte>) {
    !st.inCall &&
    if st.limit - st.len >= sz then st' == st
    else
      var mem := Unread(st) + junk;
      && |mem| == NewLimit(st, sz)
      && var h := Alloc(st.heap, mem);
      st' == st.(heap := if st.ptr.Some? then Unref(h, st.ptr.value) else h, ptr := Some(st.heap.next),
                 len := |Unread(st)|, limit := |mem|, ofs := 0)
  }

  predicate Receives(st: State, st': State, data: seq<byte>) {
    && !st.inCall && st.ptr.Some? && st.ptr.value in st.heap.blocks
    && st.len + |data| <= st.limit && st.limit == |st.heap.blocks[st.ptr.value].mem|
    && var b := st.heap.blocks[st.ptr.value];
    st' == st.(heap := st.heap.(blocks := st.heap.blocks[st.ptr.value := b.(mem := Overwrite(b.mem, st.len, data))]),
               len := st.len + |data|)
  }

  /** A call of unpack starts: an sbuf is made if there is none, and refers to the block. */
  predicate Begins(st: State, st': State) {
    && !st.inCall && st.ptr.Some?
    && var (i, sbufs) := if st.parsing.Some? then (st.parsing.value, st.sbufs) else (|st.sbufs|, st.sbufs + [Sbuf([], [])]);
    && i < |sbufs|
    && st' == st.(heap := Refer(st.heap, st.ptr.value), parsing := Some(i), inCall := true,
                  sbufs := sbufs[i := sbufs[i].(refs := [st.ptr.value] + sbufs[i].refs)])
  }

  predicate Skips(st: State, st': State, n: nat) {
    st.inCall && st.ofs + n <= st.len && st' == st.(ofs := st.ofs + n)
  }

  predicate Takes(st: State, st': State, n: nat) {
    && st.inCall && st.ofs + n <= st.len && st.parsing.Some? && st.parsing.value < |st.sbufs| && st.ptr.Some?
    && n <= |Unread(st)|
    && var i := st.parsing.value;
    st' == st.(ofs := st.ofs + n,
               sbufs := st.sbufs[i := st.sbufs[i].(blobs := st.sbufs[i].blobs + [Blob(st.ptr.value, st.ofs, Unread(st)[..n])])])
  }

  predicate Ends(st: State, st': State, finished: bool) {
    st.inCall && st' == st.(inCall := false, parsing := if finished then None else st.parsing)
  }

  /** object::fin of an object that was handed out; a second fin finds no sbuf. */
  predicate Fins(st: State, st': State, obj: nat) {
    && obj < |st.sbufs| && st.parsing != Some(obj)
    && st' == st.(heap := UnrefAll(st.heap, st.sbufs[obj].refs), sbufs := st.sbufs[obj := Sbuf([], [])])
  }

  predicate Drops(st: State, st': State) {
    && !st.inCall
    && st' == st.(heap := if st.ptr.Some? then Unref(st.heap, st.ptr.value) else st.heap, ptr := None, len := 0, limit := 0, ofs := 0)
  }

  predicate NextStep(st: State, st': State, step: Step) {
    match step
    case Reserve(sz, junk) => Reserves(st, st', sz, junk)
    case Receive(data) => Receives(st, st', data)
    case BeginUnpack => Begins(st, st')
    case Skip(n) => Skips(st, st', n)
    case TakeBlob(n) => Takes(st, st', n)
    case EndUnpack(finished) => Ends(st, st', finished)
    case Fin(obj) => Fins(st, st', obj)
    case Drop => Drops(st, st')
  }

  ghost predicate Next(st: State, st': State) {
    exists step :: NextStep(st, st', step)
  }

  ghost predicate Run(run: seq<State>) {
    && run != [] && run[0] == Init()
    && forall i | 0 < i < |run| :: Next(run[i - 1], run[i])
  }

  // ---- the invariant ----

  function RefsOf(sbufs: seq<Sbuf>): multiset<BlockId> {
    if sbufs == [] then multiset{} else RefsOf(sbufs[..|sbufs| - 1]) + multiset(sbufs[|sbufs| - 1].refs)
  }

  function PtrRef(ptr: Option<BlockId>): multiset<BlockId> {
    if ptr.Some? then multiset{ptr.value} else multiset{}
  }

  /** Every reference to a block, each as often as it is held. */
  function Refs(st: State): multiset<BlockId> {
    PtrRef(st.ptr) + RefsOf(st.sbufs)
  }

  /** A block is allocated exactly while references are held, and counts them. */
  ghost predicate Counted(h: Heap, refs: multiset<BlockId>) {
    && (forall b :: b in h.blocks <==> b in refs)
    && (forall b | b in h.blocks :: h.blocks[b].cnt == refs[b])
    && (forall b | b in h.blocks :: b < h.next)
    && h.faults == 0
  }

  ghost predicate BufferOk(st: State) {
    match st.ptr
    case None => st.len == 0 && st.limit == 0 && st.ofs == 0
    case Some(p) => p in st.heap.blocks && |st.heap.blocks[p].mem| == st.limit >= 1 && st.ofs <= st.len <= st.limit
  }

  ghost predicate BlobOk(h: Heap, ptr: Option<BlockId>, ofs: nat, refs: seq<BlockId>, blob: Blob) {
    && blob.block in refs && blob.block in h.blocks
    && blob.start + |blob.bytes| <= |h.blocks[blob.block].mem|
    && h.blocks[blob.block].mem[blob.start..blob.start + |blob.bytes|] == blob.bytes
    && (ptr == Some(blob.block) ==> blob.start + |blob.bytes| <= ofs)
  }

  ghost predicate SbufOk(h: Heap, ptr: Option<BlockId>, ofs: nat, s: Sbuf) {
    forall j | 0 <= j < |s.blobs| :: BlobOk(h, ptr, ofs, s.refs, s.blobs[j])
  }

  ghost predicate BlobsOk(st: State) {
    forall i | 0 <= i < |st.sbufs| :: SbufOk(st.heap, st.ptr, st.ofs, st.sbufs[i])
  }

  ghost predicate CallOk(st: State) {
    && (st.parsing.Some? ==> st.parsing.value < |st.sbufs| && st.sbufs[st.parsing.value].refs != [])
    && (st.inCall ==> st.parsing.Some? && st.ptr.Some? && st.ptr.value in st.sbufs[st.parsing.value].refs)
  }

  ghost predicate Inv(st: State) {
    Counted(st.heap, Refs(st)) && BufferOk(st) && BlobsOk(st) && CallOk(st)
  }

  // ---- reference counting ----

  lemma AllocCounted(h: Heap, refs: multiset<BlockId>, mem: seq<byte>)
    requires Counted(h, refs)
    ensures Counted(Alloc(h, mem), refs + multiset{h.next}) && h.next !in refs && h.next !in h.blocks
  {
  }

  lemma ReferCounted(h: Heap, refs: multiset<BlockId>, b: BlockId)
    requires Counted(h, refs) && b in h.blocks
    ensures Counted(Refer(h, b), refs + multiset{b})
  {
  }

  /** Blocks may be freed, but the memory of the others stays as it is. */
  ghost predicate SameMem(h: Heap, h': Heap) {
    forall x | x in h'.blocks && x in h.blocks :: h'.blocks[x].mem == h.blocks[x].mem
  }

  lemma UnrefCounted(h: Heap, refs: multiset<BlockId>, b: BlockId)
    requires Counted(h, refs) && b in refs
    ensures Counted(Unref(h, b), refs - multiset{b})
    ensures SameMem(h, Unref(h, b)) && Unref(h, b).blocks.Keys <= h.blocks.Keys
  {
  }

  lemma {:induction false} UnrefAllCounted(h: Heap, refs: multiset<BlockId>, bs: seq<BlockId>)
    requires Counted(h, refs) && multiset(bs) <= refs
    ensures Counted(UnrefAll(h, bs), refs - multiset(bs))
    ensures SameMem(h, UnrefAll(h, bs)) && UnrefAll(h, bs).blocks.Keys <= h.blocks.Keys
    decreases bs
  {
    hide Counted, Unref;
    if bs != [] {
      assert bs == [bs[0]] + bs[1..];
      assert multiset(bs) == multiset{bs[0]} + multiset(bs[1..]);
      assert bs[0] in multiset(bs);
      UnrefCounted(h, refs, bs[0]);
      UnrefAllCounted(Unref(h, bs[0]), refs - multiset{bs[0]}, bs[1..]);
      assert refs - multiset{bs[0]} - multiset(bs[1..]) == refs - multiset(bs);
    } else {
      assert refs - multiset(bs) == refs;
    }
  }

  lemma {:induction false} RefsUpdate(sbufs: seq<Sbuf>, i: nat, s: Sbuf)
    requires i < |sbufs|
    ensures multiset(sbufs[i].refs) <= RefsOf(sbufs)
    ensures RefsOf(sbufs[i := s]) == RefsOf(sbufs) - multiset(sbufs[i].refs) + multiset(s.refs)
    decreases |sbufs|
  {
    var n := |sbufs| - 1;
    var t := sbufs[i := s];
    if i < n {
      RefsUpdate(sbufs[..n], i, s);
      assert t[..n] == sbufs[..n][i := s];
    } else {
      assert t[..n] == sbufs[..n];
    }
  }

  lemma RefsAppend(sbufs: seq<Sbuf>)
    ensures RefsOf(sbufs + [Sbuf([], [])]) == RefsOf(sbufs)
  {
    assert (sbufs + [Sbuf([], [])])[..|sbufs|] == sbufs;
  }

  lemma HeldIsAllocated(h: Heap, refs: multiset<BlockId>, sbufs: seq<Sbuf>, i: nat)
    requires Counted(h, refs) && RefsOf(sbufs) <= refs && i < |sbufs|
    ensures forall b | b in sbufs[i].refs :: b in h.blocks
  {
    RefsUpdate(sbufs, i, sbufs[i]);
    forall b | b in sbufs[i].refs
      ensures b in h.blocks
    {
      assert b in multiset(sbufs[i].refs);
    }
  }

  /** Blobs stay valid while their object holds its references, whatever happens to the
      buffer: it moves to a block of its own, or it only moves on. */
  lemma BlobsCarry(h: Heap, ptr: Option<BlockId>, ofs: nat, h': Heap, ptr': Option<BlockId>, ofs': nat, s: Sbuf)
    requires SbufOk(h, ptr, ofs, s) && SameMem(h, h') && forall b | b in s.refs :: b in h'.blocks
    requires (ptr' == ptr && ofs <= ofs') || ptr'.None? || ptr'.value !in h.blocks
    ensures SbufOk(h', ptr', ofs', s)
  {
    forall j | 0 <= j < |s.blobs|
      ensures BlobOk(h', ptr', ofs', s.refs, s.blobs[j])
    {
      assert BlobOk(h, ptr, ofs, s.refs, s.blobs[j]);
    }
  }

  /** All objects carry over to a heap that counts at least their references. */
  lemma AllCarry(st: State, st': State)
    requires BlobsOk(st) && st'.sbufs == st.sbufs && SameMem(st.heap, st'.heap) && Counted(st'.heap, Refs(st'))
    requires (st'.ptr == st.ptr && st.ofs <= st'.ofs) || st'.ptr.None? || st'.ptr.value !in st.heap.blocks
    ensures BlobsOk(st')
  {
    hide SbufOk, Counted;
    forall i | 0 <= i < |st.sbufs|
      ensures SbufOk(st'.heap, st'.ptr, st'.ofs, st'.sbufs[i])
    {
      HeldIsAllocated(st'.heap, Refs(st'), st'.sbufs, i);
      BlobsCarry(st.heap, st.ptr, st.ofs, st'.heap, st'.ptr, st'.ofs, st.sbufs[i]);
    }
  }

  // ---- every step keeps the invariant ----

  lemma MovedCounted(h: Heap, ptr: Option<BlockId>, held: multiset<BlockId>, mem: seq<byte>)
    requires Counted(h, PtrRef(ptr) + held)
    ensures
      var h1 := Alloc(h, mem);
      var h' := if ptr.Some? then Unref(h1, ptr.value) else h1;
      && Counted(h', PtrRef(Some(h.next)) + held) && SameMem(h, h') && h.next !in h.blocks
      && h.next in h'.blocks && h'.blocks[h.next].mem == mem
  {
    AllocCounted(h, PtrRef(ptr) + held, mem);
    var h1 := Alloc(h, mem);
    if ptr.Some? {
      UnrefCounted(h1, PtrRef(ptr) + held + multiset{h.next}, ptr.value);
      assert PtrRef(ptr) + held + multiset{h.next} - multiset{ptr.value} == PtrRef(Some(h.next)) + held;
    } else {
      assert PtrRef(ptr) + held + multiset{h.next} == PtrRef(Some(h.next)) + held;
    }
    assert h.next in PtrRef(Some(h.next)) + held;
  }

  lemma ReserveCounted(st: State, st': State, sz: nat, junk: seq<byte>)
    requires Counted(st.heap, Refs(st)) && Reserves(st, st', sz, junk) && st' != st
    ensures Counted(st'.heap, Refs(st')) && SameMem(st.heap, st'.heap)
    ensures st'.ptr.Some? && st'.ptr.value !in st.heap.blocks && st'.ptr.value in st'.heap.blocks
    ensures st'.heap.blocks[st'.ptr.value].mem == Unread(st) + junk
  {
    hide Counted, SameMem, Alloc, Unref, PtrRef, Unread;
    MovedCounted(st.heap, st.ptr, RefsOf(st.sbufs), Unread(st) + junk);
  }

  lemma ReserveInv(st: State, st': State, sz: nat, junk: seq<byte>)
    requires Inv(st) && Reserves(st, st', sz, junk)
    ensures Inv(st') && Unread(st') == Unread(st) && st'.limit - st'.len >= sz
  {
    hide Counted, SbufOk, Alloc, Unref, BlobsOk, SameMem, Refs;
    if st' != st {
      var mem := Unread(st) + junk;
      ReserveCounted(st, st', sz, junk);
      AllCarry(st, st');
      assert st'.len - st'.ofs == |Unread(st)| && mem[..|Unread(st)|] == Unread(st);
    }
  }

  lemma ReceiveInv(st: State, st': State, data: seq<byte>)
    requires Inv(st) && Receives(st, st', data)
    ensures Inv(st') && Unread(st') == Unread(st) + data
  {
    var p := st.ptr.value;
    var m := st.heap.blocks[p].mem;
    var m' := st'.heap.blocks[p].mem;
    assert m'[..st.len] == m[..st.len] && m'[st.len..st'.len] == data;
    assert m'[st.ofs..st'.len] == m'[..st.len][st.ofs..] + m'[st.len..st'.len];
    assert m[st.ofs..st.len] == m[..st.len][st.ofs..];
    forall i, j | 0 <= i < |st.sbufs| && 0 <= j < |st.sbufs[i].blobs|
      ensures BlobOk(st'.heap, st'.ptr, st'.ofs, st'.sbufs[i].refs, st'.sbufs[i].blobs[j])
    {
      var blob := st.sbufs[i].blobs[j];
      assert SbufOk(st.heap, st.ptr, st.ofs, st.sbufs[i]) && BlobOk(st.heap, st.ptr, st.ofs, st.sbufs[i].refs, blob);
      var e := blob.start + |blob.bytes|;
      if blob.block == p { assert m'[blob.start..e] == m'[..st.len][blob.start..e] == m[..st.len][blob.start..e] == m[blob.start..e]; }
    }
  }

  lemma BeginCounted(st: State, st': State)
    requires Inv(st) && Begins(st, st')
    ensures Counted(st'.heap, Refs(st'))
  {
    hide Counted, BlobsOk, RefsOf, Refer;
    var p := st.ptr.value;
    var sbufs := if st.parsing.Some? then st.sbufs else st.sbufs + [Sbuf([], [])];
    var i := st'.parsing.value;
    RefsAppend(st.sbufs);
    RefsUpdate(sbufs, i, st'.sbufs[i]);
    assert multiset([p] + sbufs[i].refs) == multiset{p} + multiset(sbufs[i].refs);
    ReferCounted(st.heap, Refs(st), p);
    assert Refs(st') == Refs(st) + multiset{p};
  }

  lemma BeginBlobs(st: State, st': State)
    requires BlobsOk(st) && Begins(st, st') && st.ptr.value in st.heap.blocks
    ensures BlobsOk(st')
  {
    forall k | 0 <= k < |st'.sbufs|
      ensures SbufOk(st'.heap, st'.ptr, st'.ofs, st'.sbufs[k])
    {
      assert k < |st.sbufs| ==> SbufOk(st.heap, st.ptr, st.ofs, st.sbufs[k]);
      forall j | 0 <= j < |st'.sbufs[k].blobs|
        ensures BlobOk(st'.heap, st'.ptr, st'.ofs, st'.sbufs[k].refs, st'.sbufs[k].blobs[j])
      {
        assert BlobOk(st.heap, st.ptr, st.ofs, st.sbufs[k].refs, st.sbufs[k].blobs[j]);
      }
    }
  }

  lemma BeginInv(st: State, st': State)
    requires Inv(st) && Begins(st, st')
    ensures Inv(st')
  {
    hide Counted, BlobsOk, Refs;
    BeginCounted(st, st');
    BeginBlobs(st, st');
  }

  lemma TakeCounted(st: State, st': State, n: nat)
    requires Counted(st.heap, Refs(st)) && Takes(st, st', n)
    ensures Counted(st'.heap, Refs(st'))
  {
    hide Counted, RefsOf, Unread;
    var i := st.parsing.value;
    RefsUpdate(st.sbufs, i, st'.sbufs[i]);
    assert RefsOf(st.sbufs) - multiset(st.sbufs[i].refs) + multiset(st.sbufs[i].refs) == RefsOf(st.sbufs);
    assert Refs(st') == Refs(st);
  }

  lemma TakeBlobs(st: State, st': State, n: nat)
    requires Inv(st) && Takes(st, st', n)
    ensures BlobsOk(st')
  {
    hide Counted, RefsOf, SbufOk;
    forall k | 0 <= k < |st'.sbufs|
      ensures SbufOk(st'.heap, st'.ptr, st'.ofs, st'.sbufs[k])
    {
      var s := st.sbufs[k];
      HeldIsAllocated(st.heap, Refs(st), st.sbufs, k);
      BlobsCarry(st.heap, st.ptr, st.ofs, st'.heap, st'.ptr, st'.ofs, s);
      if k == st.parsing.value {
        TakenBlob(st, n);
        MoreBlobs(st'.heap, st'.ptr, st'.ofs, s, Blob(st.ptr.value, st.ofs, Unread(st)[..n]));
      }
    }
  }

  lemma TakenBlob(st: State, n: nat)
    requires BufferOk(st) && CallOk(st) && st.inCall && n <= |Unread(st)|
    ensures BlobOk(st.heap, st.ptr, st.ofs + n, st.sbufs[st.parsing.value].refs, Blob(st.ptr.value, st.ofs, Unread(st)[..n]))
  {
    assert Unread(st)[..n] == st.heap.blocks[st.ptr.value].mem[st.ofs..st.ofs + n];
  }

  lemma MoreBlobs(h: Heap, ptr: Option<BlockId>, ofs: nat, s: Sbuf, blob: Blob)
    requires SbufOk(h, ptr, ofs, s) && BlobOk(h, ptr, ofs, s.refs, blob)
    ensures SbufOk(h, ptr, ofs, s.(blobs := s.blobs + [blob]))
  {
    hide BlobOk;
  }

  lemma TakeInv(st: State, st': State, n: nat)
    requires Inv(st) && Takes(st, st', n)
    ensures Inv(st')
  {
    hide Counted, BlobsOk, Refs, Unread;
    TakeCounted(st, st', n);
    TakeBlobs(st, st', n);
  }

  lemma FinCounted(st: State, st': State, obj: nat)
    requires Counted(st.heap, Refs(st)) && Fins(st, st', obj)
    ensures Counted(st'.heap, Refs(st')) && SameMem(st.heap, st'.heap)
    ensures st.ptr.Some? ==> st.ptr.value in st'.heap.blocks
    ensures st'.heap.blocks.Keys <= st.heap.blocks.Keys
  {
    hide Counted, RefsOf, UnrefAll, SameMem;
    var bs := st.sbufs[obj].refs;
    RefsUpdate(st.sbufs, obj, Sbuf([], []));
    UnrefAllCounted(st.heap, Refs(st), bs);
    assert Refs(st') == Refs(st) - multiset(bs);
    PtrAllocated(st');
  }

  lemma PtrAllocated(st: State)
    requires Counted(st.heap, Refs(st))
    ensures st.ptr.Some? ==> st.ptr.value in st.heap.blocks
  {
    assert st.ptr.Some? ==> st.ptr.value in Refs(st);
  }

  lemma FinInv(st: State, st': State, obj: nat)
    requires Inv(st) && Fins(st, st', obj)
    ensures Inv(st')
  {
    hide Counted, SbufOk, Refs, UnrefAll;
    FinCounted(st, st', obj);
    NoBlobs(st'.heap, st'.ptr, st'.ofs);
    forall k | 0 <= k < |st'.sbufs|
      ensures SbufOk(st'.heap, st'.ptr, st'.ofs, st'.sbufs[k])
    {
      if k != obj {
        HeldHere(st', k);
        BlobsCarry(st.heap, st.ptr, st.ofs, st'.heap, st'.ptr, st'.ofs, st.sbufs[k]);
      }
    }
  }

  lemma NoBlobs(h: Heap, ptr: Option<BlockId>, ofs: nat)
    ensures SbufOk(h, ptr, ofs, Sbuf([], []))
  {
  }

  lemma HeldHere(st: State, k: nat)
    requires Counted(st.heap, Refs(st)) && k < |st.sbufs|
    ensures forall b | b in st.sbufs[k].refs :: b in st.heap.blocks
  {
    hide Counted, RefsOf;
    HeldIsAllocated(st.heap, Refs(st), st.sbufs, k);
  }

  lemma DropInv(st: State, st': State)
    requires Inv(st) && Drops(st, st')
    ensures Inv(st')
  {
    if st.ptr.Some? {
      UnrefCounted(st.heap, Refs(st), st.ptr.value);
      assert Refs(st) - multiset{st.ptr.value} == Refs(st');
      AllCarry(st, st');
    }
  }

  lemma SmallStepInv(st: State, st': State, step: Step)
    requires Inv(st) && (step.Skip? || step.EndUnpack?) && NextStep(st, st', step)
    ensures Inv(st')
  {
    hide Counted, RefsOf, SbufOk, SameMem, BufferOk;
    if step.Skip? {
      SameHeap(st.heap);
      AllCarry(st, st');
      SkipBuffer(st, st', step.n);
    } else {
      EndBuffer(st, st', step.finished);
    }
  }

  lemma SameHeap(h: Heap)
    ensures SameMem(h, h)
  {
  }

  lemma SkipBuffer(st: State, st': State, n: nat)
    requires BufferOk(st) && CallOk(st) && Skips(st, st', n)
    ensures BufferOk(st')
  {
  }

  lemma EndBuffer(st: State, st': State, finished: bool)
    requires BufferOk(st) && Ends(st, st', finished)
    ensures BufferOk(st')
  {
  }

  lemma StepInv(st: State, st': State, step: Step)
    requires Inv(st) && NextStep(st, st', step)
    ensures Inv(st')
  {
    hide Inv, Reserves, Receives, Begins, Takes, Fins, Drops;
    match step
    case Reserve(sz, junk) => ReserveInv(st, st', sz, junk);
    case Receive(data) => ReceiveInv(st, st', data);
    case BeginUnpack => BeginInv(st, st');
    case TakeBlob(n) => TakeInv(st, st', n);
    case Fin(obj) => FinInv(st, st', obj);
    case Drop => DropInv(st, st');
    case _ => SmallStepInv(st, st', step);
  }

  lemma {:induction false} RunInv(run: seq<State>, i: nat)
    requires Run(run) && i < |run|
    ensures Inv(run[i])
  {
    hide NextStep;
    if i > 0 {
      RunInv(run, i - 1);
      assert Next(run[i - 1], run[i]);
      var step :| NextStep(run[i - 1], run[i], step);
      StepInv(run[i - 1], run[i], step);
    }
  }

  // ---- what it gives ----

  /** In every reachable state each blob of an object that was not finished points into
      allocated memory that still holds the bytes parsed there, through any number of
      reads, reallocations and other objects' ends. */
  lemma BlobsStayReadable(run: seq<State>, i: nat, obj: nat, j: nat)
    requires Run(run) && i < |run| && obj < |run[i].sbufs| && j < |run[i].sbufs[obj].blobs|
    ensures
      var st, blob := run[i], run[i].sbufs[obj].blobs[j];
      && blob.block in st.heap.blocks && blob.start + |blob.bytes| <= |st.heap.blocks[blob.block].mem|
      && st.heap.blocks[blob.block].mem[blob.start..blob.start + |blob.bytes|] == blob.bytes
  {
    RunInv(run, i);
    assert SbufOk(run[i].heap, run[i].ptr, run[i].ofs, run[i].sbufs[obj]);
  }

  /** No step takes a blob away from an object except its own end. */
  lemma BlobsOnlyEndWithFin(st: State, st': State, step: Step, obj: nat)
    requires NextStep(st, st', step) && obj < |st.sbufs|
    ensures obj < |st'.sbufs| && (step != Fin(obj) ==> st.sbufs[obj].blobs <= st'.sbufs[obj].blobs)
  {
  }

  /** Each block's count is the number of references held to it, a block is freed exactly
      when the last one goes, and no reference operation hits a freed block. */
  lemma CountsAreExact(run: seq<State>, i: nat, b: BlockId)
    requires Run(run) && i < |run|
    ensures run[i].heap.faults == 0
    ensures b in run[i].heap.blocks <==> b in Refs(run[i])
    ensures b in run[i].heap.blocks ==> run[i].heap.blocks[b].cnt == Refs(run[i])[b]
  {
    RunInv(run, i);
  }

  /** When the buffer is gone, the blocks left are those of objects that were not finished. */
  lemma LeftBehind(run: seq<State>, i: nat, b: BlockId)
    requires Run(run) && i < |run| && run[i].ptr.None?
    ensures b in run[i].heap.blocks <==> exists k :: 0 <= k < |run[i].sbufs| && b in run[i].sbufs[k].refs
  {
    RunInv(run, i);
    hide Run;
    assert Refs(run[i]) == RefsOf(run[i].sbufs);
    HeldBy(run[i].sbufs, b);
  }

  lemma {:induction false} HeldBy(sbufs: seq<Sbuf>, b: BlockId)
    ensures b in RefsOf(sbufs) <==> exists k :: 0 <= k < |sbufs| && b in sbufs[k].refs
    decreases |sbufs|
  {
    if sbufs != [] {
      var n := |sbufs| - 1;
      HeldBy(sbufs[..n], b);
      assert b in multiset(sbufs[n].refs) <==> b in sbufs[n].refs;
      assert forall k | 0 <= k < n :: sbufs[..n][k] == sbufs[k];
    }
  }

  /** A connection that dies while an object is under construction: nobody finishes that
      object, and with all others finished exactly the blocks it refers to stay behind,
      among them the one the last call of unpack read. */
  lemma UnfinishedLeaks(run: seq<State>, i: nat)
    requires Run(run) && i < |run| && run[i].ptr.None? && run[i].parsing.Some?
    requires forall k | 0 <= k < |run[i].sbufs| && Some(k) != run[i].parsing :: run[i].sbufs[k].refs == []
    ensures
      var j := run[i].parsing.value;
      && j < |run[i].sbufs| && run[i].sbufs[j].refs != [] && run[i].sbufs[j].refs[0] in run[i].heap.blocks
      && forall b :: b in run[i].heap.blocks <==> b in run[i].sbufs[j].refs
  {
    RunInv(run, i);
    hide Run, Counted, BlobsOk, BufferOk;
    forall b
      ensures b in run[i].heap.blocks <==> b in run[i].sbufs[run[i].parsing.value].refs
    {
      LeftBehind(run, i, b);
    }
  }

  /** When the buffer is gone and every object was finished, no memory is left. */
  lemma NothingLeaks(run: seq<State>, i: nat)
    requires Run(run) && i < |run| && run[i].ptr.None?
    requires forall k | 0 <= k < |run[i].sbufs| :: run[i].sbufs[k].refs == []
    ensures run[i].heap.blocks == map[]
  {
    RunInv(run, i);
    NoRefs(run[i].sbufs);
    assert Refs(run[i]) == multiset{};
    assert forall b :: b !in run[i].heap.blocks;
  }

  lemma {:induction false} NoRefs(sbufs: seq<Sbuf>)
    requires forall k | 0 <= k < |sbufs| :: sbufs[k].refs == []
    ensures RefsOf(sbufs) == multiset{}
    decreases |sbufs|
  {
    if sbufs != [] { NoRefs(sbufs[..|sbufs| - 1]); }
  }
}
