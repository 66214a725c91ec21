/** The same queue used by one thread: `push` and `pop` as a class over its chunks.

    Each operation is a run of the step machine with nobody else moving, so the class
    inherits the machine's invariant; `st` is the machine's state. */
module QueueSequential {
  import opened Common
  import opened QueueProtocol
  import opened QueueInvariant
  import opened QueueSteps
  import opened QueueInduction
  import opened QueueTheorems

  /** Nobody is inside an operation and thread 0 is the only one. */
  ghost predicate Quiet(s: State) {
    Inv(s) && s.producers == map[0 := Idle] && s.consumer == Ready
  }

  /** The values pushed and not popped, oldest first. */
  ghost function ContentsOf(s: State): seq<Task> {
    if |s.popped| <= |s.log| then Values(s.log)[|s.popped|..] else []
  }

  class Queue {
    const cap: nat
    var next: map<Chunk, Option<Chunk>>
    var data: map<Loc, Task>
    var head: Chunk
    var w: Chunk
    var r: Chunk
    var free: Option<Chunk>
    var wp: Loc
    var rp: Loc
    var wpos: nat
    var rpos: nat
    ghost var st: State

    ghost predicate Valid()
      reads this
    {
      && Quiet(st)
      && st.cap == cap && st.next == next && st.data == data && st.head == head && st.w == w && st.r == r
      && st.free == free && st.wp == wp && st.rp == rp && st.wpos == wpos && st.rpos == rpos
    }

    ghost function Contents(): seq<Task>
      reads this
    {
      ContentsOf(st)
    }

    constructor (chunk_size: nat, first: Chunk)
      requires chunk_size >= 1
      ensures Valid() && Contents() == [] && cap == chunk_size
    {
      cap := chunk_size;
      next, data := map[first := None], map[];
      head, w, r, free := first, first, first, None;
      wp, rp, wpos, rpos := Loc(first, 0), Loc(first, 0), 0, 0;
      ghost var s := State(chunk_size, map[first := None], map[], first, first, first, None, Loc(first, 0), Loc(first, 0), 0, 0,
                           map[0 := Idle], Ready, [], [], [], map[0 := []], map[first := 0], [], None);
      InitInv(s);
      st := s;
    }

    /** push: the value is stored at m_wp; a chunk that is full is followed by a recycled
        chunk or a new one.  Its next field is never set before (NextIsNeverSet), so it is
        always expand() that supplies the chunk. */
    method Push(v: Task)
      requires Valid()
      modifies this
      ensures Valid() && Contents() == old(Contents()) + [v]
    {
      hide Quiet, ContentsOf, Above;
      ghost var s := st;
      QuietWriter(s);
      if wpos + 1 == cap {
        data := data[wp := v];
        var c: Chunk;
        if free.Some? {
          c := free.value;
          CachedChunk(s);
          free := next[c];
        } else {
          ghost var b := Above(next.Keys);
          assert b !in next;
          c :| c !in next;
        }
        st := PushLong(s, v, c);
        next := next[c := None][w := Some(c)];
        w, wpos := c, 0;
      } else {
        data := data[wp := v];
        wpos := wpos + 1;
        st := PushShort(s, v);
      }
      wp := Loc(w, wpos);
      PushedOne(s, st, v);
    }

    /** pop: nothing when m_rp == m_wp, otherwise the oldest value. */
    method Pop() returns (x: Option<Task>)
      requires Valid()
      modifies this
      ensures Valid()
      ensures x == if old(Contents()) == [] then None else Some(old(Contents())[0])
      ensures Contents() == if old(Contents()) == [] then [] else old(Contents())[1..]
    {
      hide Quiet, ContentsOf;
      ghost var s := st;
      QuietReader(s);
      if rp == wp { return None; }
      x := Some(data[rp]);
      if rpos + 1 == cap {
        LastRead(s);
        var c := r;
        st := PopLong(s);
        r := next[c].value;
        if c == head { head := r; }
        next := next[c := free];
        free := Some(c);
        rpos := 0;
      } else {
        st := PopShort(s);
        rpos := rpos + 1;
      }
      rp := Loc(r, rpos);
      PoppedOne(s, st);
    }
  }

  /** With nobody inside a push, everything reserved is published and m_wp is the next slot. */
  lemma QuietWriter(s: State)
    requires Quiet(s)
    ensures s.swapper == None && s.wpos < s.cap && s.published == s.log && s.wp == Loc(s.w, s.wpos)
    ensures s.done.Keys == {0} && s.w in s.next && s.next[s.w] == None && s.w in s.base && s.base.Keys <= s.next.Keys
  {
    hide Inv;
    ChunksExist(s);
    QuietThreads(s);
    QuietPublished(s);
    QuietSlot(s);
  }

  lemma ChunksExist(s: State)
    requires Quiet(s)
    ensures s.base.Keys <= s.next.Keys
  {
    hide FreeList, Ends, Threads, Holders, Contents, Completed;
    LiveListInNext(s);
  }

  lemma QuietThreads(s: State)
    requires Quiet(s)
    ensures s.swapper == None && s.done.Keys == {0} && s.w in s.next && s.next[s.w] == None && s.w in s.base
  {
    hide Holders, Contents, Completed, ConsumerOk, History, FreeList;
    assert ThreadOk(ViewOf(s), 0, s.producers[0]);
  }

  lemma QuietPublished(s: State)
    requires Quiet(s)
    ensures s.published == s.log
  {
    hide Lists, Threads, Contents, Completed, ConsumerOk, Positions;
    assert |s.published| < |s.log| ==> Held(s.log[|s.published|].tid, |s.published|, s.producers, s.w, s.cap, s.base);
    assert s.log[..|s.log|] == s.log;
  }

  lemma QuietSlot(s: State)
    requires Quiet(s) && s.swapper == None && s.published == s.log && s.w in s.base
    ensures s.wpos < s.cap && s.wp == Loc(s.w, s.wpos)
  {
    hide Lists, Threads, Contents, Completed, ConsumerOk, Holders, History;
    NumberInjective(s, s.wp, Loc(s.w, s.wpos));
  }

  lemma CachedChunk(s: State)
    requires Quiet(s) && s.free.Some?
    ensures s.cached != [] && s.cached[0] == s.free.value && s.free.value in s.next && s.free.value !in s.base
  {
    assert s.cached != [];
    assert s.cached[0] in s.cached;
  }

  // ---- push as a run of the machine ----

  function Stepped(s: State, p: Producer): State {
    Set(s, 0, p)
  }

  lemma PushShort(s: State, v: Task) returns (s': State)
    requires Quiet(s) && s.wpos + 1 < s.cap
    ensures Quiet(s')
    ensures s' == s.(producers := s'.producers, data := s.data[s.wp := v], wp := Loc(s.w, s.wpos + 1), wpos := s.wpos + 1,
                     log := s.log + [Entry(0, v)], published := s.log + [Entry(0, v)], done := s'.done)
  {
    hide Inv;
    QuietWriter(s);
    var n := s.wpos + 1;
    var p, nx := Loc(s.w, n - 1), Loc(s.w, n);
    var s2 := ReserveShort(s, v);
    var s3 := Stepped(s2, Aimed(v, p, nx));
    AimInv(s2, s3, 0, v, n);
    var s4 := Stepped(s3, Written(v, p, nx)).(data := s.data[p := v]);
    StoreInv(s3, s4, 0, v, p, nx);
    s' := Finish(s4.(wp := nx, published := s.published + [Entry(0, v)]), 0, v);
    PublishInv(s4, s', 0, v, p, nx);
  }

  lemma ReserveShort(s: State, v: Task) returns (s': State)
    requires Quiet(s) && s.wpos + 1 < s.cap && s.done.Keys == {0}
    ensures Inv(s')
    ensures s' == s.(producers := map[0 := Reserved(v, s.wpos + 1)], wpos := s.wpos + 1, log := s.log + [Entry(0, v)])
  {
    hide Inv;
    var s1 := Stepped(s, Trying(v));
    BeginInv(s, s1, 0, v);
    s' := Stepped(s1, Reserved(v, s.wpos + 1)).(wpos := s.wpos + 1, log := s.log + [Entry(0, v)]);
    FetchFreeInv(s1, s', 0, v);
  }

  lemma ReserveLong(s: State, v: Task) returns (s': State)
    requires Quiet(s) && s.wpos + 1 == s.cap && s.done.Keys == {0}
    ensures Inv(s')
    ensures s' == s.(producers := map[0 := Last(v)], wpos := s.cap, log := s.log + [Entry(0, v)], swapper := Some(0))
  {
    hide Inv;
    var s1 := Stepped(s, Trying(v));
    BeginInv(s, s1, 0, v);
    s' := Stepped(s1, Last(v)).(wpos := s.cap, log := s.log + [Entry(0, v)], swapper := Some(0));
    FetchLastInv(s1, s', 0, v);
  }

  /** The next chunk: the first cached one, or one that was never allocated. */
  predicate NextChunk(s: State, c: Chunk) {
    if s.free.Some? then c == s.free.value && c in s.next && s.cached != [] else c !in s.next
  }

  lemma ExpandRun(s: State, v: Task, p: Loc, c: Chunk) returns (s': State)
    requires Inv(s) && At(s, 0, LastWritten(v, p)) && s.w in s.next && s.next[s.w] == None && NextChunk(s, c)
    ensures Inv(s')
    ensures s' == s.(producers := s.producers[0 := Expanding(v, p, c)], next := s.next[c := None],
                     free := if s.free.Some? then s.next[c] else None, cached := if s.free.Some? then s.cached[1..] else s.cached)
  {
    hide Inv;
    if s.free.Some? {
      s' := Stepped(s, Expanding(v, p, c)).(free := s.next[c], next := s.next[c := None], cached := s.cached[1..]);
      TakeCachedInv(s, s', 0, v, p);
    } else {
      s' := Stepped(s, Expanding(v, p, c)).(next := s.next[c := None]);
      AllocateInv(s, s', 0, v, p, c);
    }
  }

  lemma PushLong(s: State, v: Task, c: Chunk) returns (s': State)
    requires Quiet(s) && s.wpos + 1 == s.cap && NextChunk(s, c) && c !in s.base
    ensures Quiet(s') && s.w in s.base
    ensures s' == s.(producers := s'.producers, data := s.data[s.wp := v], next := s.next[c := None][s.w := Some(c)],
                     free := if s.free.Some? then s.next[c] else None, cached := if s.free.Some? then s.cached[1..] else s.cached,
                     base := s.base[c := s.base[s.w] + s.cap], w := c, wp := Loc(c, 0), wpos := 0,
                     log := s.log + [Entry(0, v)], published := s.log + [Entry(0, v)], done := s'.done)
  {
    hide Inv;
    QuietWriter(s);
    var p, nx := Loc(s.w, s.cap - 1), Loc(c, 0);
    var s2 := ReserveLong(s, v);
    var s3 := Stepped(s2, LastAimed(v, p));
    AimLastInv(s2, s3, 0, v);
    var s4 := Stepped(s3, LastWritten(v, p)).(data := s.data[p := v]);
    StoreLastInv(s3, s4, 0, v, p);
    var s5 := ExpandRun(s4, v, p, c);
    s' := FinishLong(s5, v, p, c);
  }

  lemma FinishLong(s5: State, v: Task, p: Loc, c: Chunk) returns (s': State)
    requires Inv(s5) && s5.producers == map[0 := Expanding(v, p, c)] && s5.consumer == Ready && s5.done.Keys == {0}
    requires s5.w in s5.base && c !in s5.base && s5.w in s5.next && c in s5.next && s5.wp == p && s5.cap >= 1
    ensures Quiet(s')
    ensures s' == s5.(producers := s'.producers, next := s5.next[s5.w := Some(c)], base := s5.base[c := s5.base[s5.w] + s5.cap],
                      w := c, wp := Loc(c, 0), wpos := 0, swapper := None,
                      published := s5.published + [Entry(0, v)], done := s'.done)
  {
    hide Inv;
    var nx := Loc(c, 0);
    var s6 := Stepped(s5, Linked(v, p, nx)).(next := s5.next[s5.w := Some(c)], base := s5.base[c := s5.base[s5.w] + s5.cap]);
    LinkInv(s5, s6, 0, v, p, c);
    var s8 := MoveOn(s6, v, p, c);
    s' := PublishOn(s8, v, p, nx);
  }

  lemma PublishOn(s: State, v: Task, p: Loc, nx: Loc) returns (s': State)
    requires Inv(s) && s.producers == map[0 := Moved(v, p, nx)] && s.consumer == Ready && s.done.Keys == {0} && s.wp == p
    ensures Quiet(s')
    ensures s' == s.(producers := s'.producers, wp := nx, wpos := 0, swapper := None,
                     published := s.published + [Entry(0, v)], done := s'.done)
  {
    hide Inv;
    var s1 := Stepped(s, Swapped(v)).(wp := nx, published := s.published + [Entry(0, v)]);
    PublishLastInv(s, s1, 0, v, p, nx);
    s' := Finish(s1.(wpos := 0, swapper := None), 0, v);
    ResetInv(s1, s', 0, v);
  }

  lemma MoveOn(s: State, v: Task, p: Loc, c: Chunk) returns (s': State)
    requires Inv(s) && At(s, 0, Linked(v, p, Loc(c, 0))) && s.wp == p && s.w in s.next && s.next[s.w] == Some(c)
    ensures Inv(s') && s' == s.(producers := s.producers[0 := Moved(v, p, Loc(c, 0))], w := c)
  {
    hide Inv;
    var s1 := Stepped(s, Turn(v, p, Loc(c, 0)));
    SeeTurnInv(s, s1, 0, v, p, Loc(c, 0));
    s' := Stepped(s1, Moved(v, p, Loc(c, 0))).(w := c);
    MoveInv(s1, s', 0, v, p, Loc(c, 0));
  }

  lemma PoppedWithinLog(s: State)
    requires Quiet(s)
    ensures |s.popped| <= |s.log|
  {
    hide Lists, Threads, Holders, Contents, Completed, Positions, ConsumerOk;
  }

  lemma PushedOne(s: State, s': State, v: Task)
    requires Quiet(s) && s'.popped == s.popped && s'.log == s.log + [Entry(0, v)]
    ensures ContentsOf(s') == ContentsOf(s) + [v]
  {
    hide Inv;
    PoppedWithinLog(s);
    assert Values(s'.log) == Values(s.log) + [v];
  }

  // ---- pop as a run of the machine ----

  /** With nobody inside an operation m_rp == m_wp says the queue is empty; otherwise the
      oldest value is at m_rp. */
  lemma QuietReader(s: State)
    requires Quiet(s)
    ensures s.rp == s.wp <==> ContentsOf(s) == []
    ensures s.rp != s.wp ==> s.rp in s.data && s.data[s.rp] == ContentsOf(s)[0] && s.rp == Loc(s.r, s.rpos) && s.rpos < s.cap
  {
    QuietWriter(s);
    ReadableMeansMore(s);
    assert |s.popped| <= |s.published|;
  }

  lemma PopRead(s: State, v: Task) returns (s': State)
    requires Quiet(s) && s.rp != s.wp && s.rp in s.data && v == s.data[s.rp]
    ensures Inv(s')
    ensures s' == s.(rpos := s.rpos + 1, popped := s.popped + [v], consumer := if s.rpos + 1 == s.cap then TakenLast else Taken)
  {
    hide Inv;
    var s1 := s.(consumer := Reading);
    CheckReadableInv(s, s1);
    s' := s1.(rpos := s.rpos + 1, popped := s.popped + [v], consumer := if s.rpos + 1 == s.cap then TakenLast else Taken);
    ReadInv(s1, s', v);
  }

  lemma PopShort(s: State) returns (s': State)
    requires Quiet(s) && s.rp != s.wp && s.rpos + 1 != s.cap
    ensures Quiet(s') && s.rp in s.data
    ensures s' == s.(rpos := s.rpos + 1, rp := Loc(s.r, s.rpos + 1), popped := s.popped + [s.data[s.rp]])
  {
    hide Inv;
    QuietReader(s);
    var s1 := PopRead(s, s.data[s.rp]);
    s' := s1.(rp := Loc(s.r, s.rpos + 1), consumer := Ready);
    AdvanceInv(s1, s');
  }

  /** A chunk is followed by another before its last value is read. */
  lemma LastRead(s: State)
    requires Quiet(s) && s.rp != s.wp && s.rpos + 1 == s.cap
    ensures s.r in s.next && s.next[s.r].Some? && s.head == s.r && s.rp in s.data
  {
    QuietReader(s);
    var s1 := PopRead(s, s.data[s.rp]);
    ReadChunkIsNotWritten(s1);
    hide FreeList, Contents, Holders, Completed, Positions, History;
    QuietTail(s);
  }

  lemma QuietTail(s: State)
    requires Quiet(s)
    ensures s.r in s.next && (s.r != s.w ==> s.next[s.r].Some?) && s.head == s.r
  {
    QuietWriter(s);
    hide FreeList, Contents, Holders, Completed, Positions, History;
  }

  lemma PopLong(s: State) returns (s': State)
    requires Quiet(s) && s.rp != s.wp && s.rpos + 1 == s.cap
    ensures Quiet(s') && s.r in s.next && s.next[s.r].Some? && s.rp in s.data
    ensures
      var nx := s.next[s.r].value;
      s' == s.(rpos := 0, r := nx, rp := Loc(nx, 0), head := nx, next := s.next[s.r := s.free], free := Some(s.r),
               base := s'.base, cached := s'.cached, popped := s.popped + [s.data[s.rp]])
  {
    hide Inv;
    LastRead(s);
    var c, nx := s.r, s.next[s.r].value;
    var s1 := PopRead(s, s.data[s.rp]);
    var s2 := s1.(r := nx, base := s1.base - {c}, consumer := Freeing(c));
    MoveReadInv(s1, s2);
    var s3 := s2.(head := nx, consumer := Caching(c));
    DropHeadInv(s2, s3, c);
    var s4 := s3.(next := s3.next[c := s3.free], free := Some(c), cached := [c] + s3.cached, consumer := Resetting);
    PushCachedInv(s3, s4, c);
    s' := s4.(rpos := 0, rp := Loc(nx, 0), consumer := Ready);
    AdvanceFirstInv(s4, s');
  }

  lemma PoppedOne(s: State, s': State)
    requires Quiet(s) && s.rp != s.wp && s.rp in s.data && s'.log == s.log && s'.popped == s.popped + [s.data[s.rp]]
    ensures ContentsOf(s) != [] && ContentsOf(s') == ContentsOf(s)[1..]
  {
    QuietReader(s);
  }
}
