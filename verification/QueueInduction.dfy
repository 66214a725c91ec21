/** Publication steps and the steps of the consumer keep the invariant, and with
    the steps of QueueSteps every step does. */
module QueueInduction {
  import opened Common
  import opened QueueProtocol
  import opened QueueInvariant
  import opened QueueThreads
  import opened QueueSteps

  // ---- publication ----

  lemma PublishThreads(s: State, s': State, t: Tid, p: Producer, nx: Loc, e: Entry)
    requires Threads(s) && t in s.producers && t in s.done && Slot(s.w, s.cap, s.producers[t]) == Some(s.wp)
    requires Number(s.base, s.wp) == |s.published|
    requires s' == Set(s, t, p).(wp := nx, published := s.published + [e], done := s'.done)
    requires s'.done.Keys == s.done.Keys && ThreadOk(ViewOf(s'), t, p)
    ensures Threads(s')
  {
    forall u | u in s.producers && u != t
      ensures ThreadOk(ViewOf(s'), u, s.producers[u])
    {
      OthersAfterPublish(ViewOf(s), ViewOf(s'), t, s.producers[t], u, s.producers[u], nx);
    }
  }

  lemma PublishHistory(s: State, e: Entry)
    requires History(s.log, s.published, s.popped) && |s.published| < |s.log| && s.log[|s.published|] == e
    ensures History(s.log, s.published + [e], s.popped)
  {
  }

  /** Only one slot of the live list has a given number. */
  lemma NumberInjective(s: State, k: Loc, l: Loc)
    requires Lists(s) && k.chunk in s.base && l.chunk in s.base && k.pos < s.cap && l.pos < s.cap
    requires Number(s.base, k) == Number(s.base, l)
    ensures k == l
  {
  }

  lemma PublishContents(s: State, p: Loc, e: Entry)
    requires Lists(s) && Contents(s.base, s.cap, s.data, |s.popped|, s.published)
    requires p.chunk in s.base && p.pos < s.cap && Number(s.base, p) == |s.published|
    requires p in s.data && s.data[p] == e.val
    ensures Contents(s.base, s.cap, s.data, |s.popped|, s.published + [e])
  {
    hide Lists;
    var after := s.published + [e];
    forall l: Loc | l.chunk in s.base && l.pos < s.cap && |s.popped| <= s.base[l.chunk] + l.pos < |after|
      ensures l in s.data && s.data[l] == after[s.base[l.chunk] + l.pos].val
    {
      var a := s.base[l.chunk] + l.pos;
      if a == |s.published| {
        NumberInjective(s, l, p);
      } else {
        assert after[a] == s.published[a];
      }
    }
  }

  lemma PublishHolders(s: State, t: Tid, p: Producer)
    requires Holders(|s.published|, s.log, s.producers, s.w, s.cap, s.base) && t in s.producers
    requires Slot(s.w, s.cap, s.producers[t]).Some?
    requires Number(s.base, Slot(s.w, s.cap, s.producers[t]).value) == |s.published|
    ensures Holders(|s.published| + 1, s.log, s.producers[t := p], s.w, s.cap, s.base)
  {
  }

  lemma PublishCompleted(s: State, t: Tid, v: Task)
    requires Completed(s.published, s.producers, s.done) && t in s.producers && t in s.done && !s.producers[t].Swapped?
    ensures Completed(s.published + [Entry(t, v)], s.producers[t := Idle], s.done[t := s.done[t] + [v]])
    ensures Completed(s.published + [Entry(t, v)], s.producers[t := Swapped(v)], s.done)
  {
    assert (s.published + [Entry(t, v)])[..|s.published|] == s.published;
  }

  lemma PublishPositions(s: State, s': State, t: Tid, v: Task, p: Loc, nx: Loc)
    requires Positions(s) && Publish(s, s', t, v, p, nx)
    requires nx.chunk == p.chunk && nx.pos == p.pos + 1 < s.cap
    requires s.swapper != Some(t)
    ensures Positions(s')
  {
  }

  lemma PublishConsumer(s: State, s': State)
    requires ConsumerOk(s) && |s.published| <= |s'.published|
    requires s' == s.(producers := s'.producers, wp := s'.wp, published := s'.published, done := s'.done)
    ensures ConsumerOk(s')
  {
  }

  /** What the publishing thread knows about its slot. */
  lemma PublishFacts(s: State, s': State, t: Tid, v: Task, p: Loc, nx: Loc)
    requires Positions(s) && Threads(s) && Publish(s, s', t, v, p, nx)
    ensures Slot(s.w, s.cap, s.producers[t]) == Some(s.wp) && Number(s.base, s.wp) == |s.published|
    ensures |s.published| < |s.log| && s.log[|s.published|] == Entry(t, v)
    ensures p.chunk in s.base && p.pos < s.cap && p in s.data && s.data[p] == v
    ensures nx.chunk == p.chunk && nx.pos == p.pos + 1 < s.cap && s.swapper != Some(t)
    ensures ThreadOk(ViewOf(s'), t, Idle)
  {
    assert ThreadOk(ViewOf(s), t, s.producers[t]);
  }

  lemma PublishInv(s: State, s': State, t: Tid, v: Task, p: Loc, nx: Loc)
    requires Inv(s) && Publish(s, s', t, v, p, nx)
    ensures Inv(s')
  {
    hide LiveList, FreeList, Holders, Contents, Completed, History, ConsumerOk, Positions, Threads, ThreadOk, Number;
    PublishFacts(s, s', t, v, p, nx);
    PublishThreads(s, s', t, Idle, nx, Entry(t, v));
    PublishHistory(s, Entry(t, v));
    PublishContents(s, p, Entry(t, v));
    PublishHolders(s, t, Idle);
    PublishCompleted(s, t, v);
    PublishPositions(s, s', t, v, p, nx);
    PublishConsumer(s, s');
  }

  lemma AtFront(s: State)
    requires Positions(s)
    ensures s.wp.chunk in s.base && Number(s.base, s.wp) == |s.published|
  {
  }

  lemma PublishLastPositions(s: State, s': State, t: Tid, v: Task, p: Loc, nx: Loc)
    requires Positions(s) && PublishLast(s, s', t, v, p, nx) && s.swapper == Some(t)
    requires ThreadOk(ViewOf(s), t, s.producers[t])
    ensures Positions(s')
  {
  }

  lemma PublishLastInv(s: State, s': State, t: Tid, v: Task, p: Loc, nx: Loc)
    requires Inv(s) && PublishLast(s, s', t, v, p, nx)
    ensures Inv(s')
  {
    hide LiveList, FreeList, Holders, Contents, Completed, History, ConsumerOk, Positions;
    assert ThreadOk(ViewOf(s), t, s.producers[t]);
    AtFront(s);
    PublishLastPositions(s, s', t, v, p, nx);
    assert |s.log| == |s.published| + 1 by { LastEntry(s, t, v, p, nx); }
    PublishThreads(s, s', t, Swapped(v), nx, Entry(t, v));
    PublishHistory(s, Entry(t, v));
    PublishContents(s, p, Entry(t, v));
    PublishHolders(s, t, Swapped(v));
    PublishCompleted(s, t, v);
    PublishConsumer(s, s');
  }

  lemma LastEntry(s: State, t: Tid, v: Task, p: Loc, nx: Loc)
    requires Positions(s) && At(s, t, Moved(v, p, nx)) && s.wp == p && ThreadOk(ViewOf(s), t, s.producers[t])
    ensures |s.log| == |s.published| + 1
  {
  }

  lemma ResetThreads(s: State, s': State, t: Tid, v: Task)
    requires Threads(s) && Reset(s, s', t, v) && s.swapper == Some(t)
    ensures Threads(s')
  {
    assert ThreadOk(ViewOf(s), t, s.producers[t]);
    forall u | u in s.producers && u != t
      ensures ThreadOk(ViewOf(s'), u, s.producers[u])
    {
      OthersAfterReset(ViewOf(s), ViewOf(s'), u, s.producers[u]);
    }
  }

  lemma ResetCompleted(s: State, t: Tid, v: Task)
    requires Completed(s.published, s.producers, s.done) && At(s, t, Swapped(v))
    ensures Completed(s.published, s.producers[t := Idle], s.done[t := s.done[t] + [v]])
  {
  }

  lemma ResetEnds(s: State, s': State, t: Tid, v: Task)
    requires Ends(s) && Reset(s, s', t, v) && s.swapper == Some(t) && s.cap >= 1
    ensures Ends(s')
  {
  }

  lemma ResetInv(s: State, s': State, t: Tid, v: Task)
    requires Inv(s) && Reset(s, s', t, v)
    ensures Inv(s')
  {
    hide LiveList, FreeList, Holders, Contents, Completed, Ends;
    assert ThreadOk(ViewOf(s), t, s.producers[t]);
    ResetThreads(s, s', t, v);
    ResetEnds(s, s', t, v);
    SameSlot(s, t, Idle);
    ResetCompleted(s, t, v);
  }

  // ---- pop ----

  /** The consumer moved without touching what producers see. */
  lemma ConsumerStep(s: State, s': State)
    requires Inv(s) && ConsumerOk(s')
    requires s' == s.(consumer := s'.consumer, rpos := s'.rpos, rp := s'.rp, head := s'.head)
    requires Dropped(s'.consumer) == Dropped(s.consumer)
    ensures Inv(s')
  {
    hide LiveList, FreeList, Holders, Contents, Completed, ConsumerOk, History, Producers;
    assert ViewOf(s') == ViewOf(s);
  }

  /** `m_rp != m_wp` means that something is published and not read. */
  lemma ReadableMeansMore(s: State)
    requires Lists(s) && Ends(s) && s.consumer == Ready
    ensures s.rp == s.wp <==> |s.popped| == |s.published|
  {
    hide FreeList, History;
    assert |s.popped| <= |s.published| by { PoppedBound(s); }
    if |s.popped| == |s.published| { NumberInjective(s, s.rp, s.wp); }
  }

  lemma PoppedBound(s: State)
    requires Ends(s)
    ensures |s.popped| <= |s.published| <= |s.log|
  {
  }

  lemma CheckReadableInv(s: State, s': State)
    requires Inv(s) && CheckReadable(s, s')
    ensures Inv(s')
  {
    hide Lists, Threads, Holders, Contents, Completed, History, Positions;
    ReadableMeansMore(s);
    PoppedBound(s);
    ConsumerStep(s, s');
  }

  lemma AdvanceInv(s: State, s': State)
    requires Inv(s) && Advance(s, s')
    ensures Inv(s')
  {
    hide Lists, Threads, Holders, Contents, Completed, History, Positions;
    ConsumerStep(s, s');
  }

  lemma DropHeadInv(s: State, s': State, c: Chunk)
    requires Inv(s) && DropHead(s, s', c)
    ensures Inv(s')
  {
    hide Lists, Threads, Holders, Contents, Completed, History, Positions;
    ConsumerStep(s, s');
  }

  lemma AdvanceFirstInv(s: State, s': State)
    requires Inv(s) && AdvanceFirst(s, s')
    ensures Inv(s')
  {
    hide LiveList, FreeList, Threads, Holders, Contents, Completed, History, Positions;
    ConsumerStep(s, s');
  }

  /** The consumer takes the value that was published at the number it stands at. */
  lemma ReadsPublished(s: State, s': State, v: Task)
    requires Ends(s) && Contents(s.base, s.cap, s.data, |s.popped|, s.published) && Read(s, s', v)
    ensures |s.popped| < |s.published| && s.rp in s.data && v == s.published[|s.popped|].val
  {
    hide Positions;
  }

  lemma ReadPositions(s: State, s': State, v: Task)
    requires Positions(s) && Read(s, s', v)
    ensures Positions(s')
  {
  }

  lemma ReadInv(s: State, s': State, v: Task)
    requires Inv(s) && Read(s, s', v)
    ensures Inv(s')
  {
    hide LiveList, FreeList, Producers, Holders, Completed, Positions;
    assert Positions(s') by { ReadPositions(s, s', v); }
    ReadsPublished(s, s', v);
    assert ViewOf(s') == ViewOf(s);
  }

  lemma MoveReadLists(s: State, s': State)
    requires Lists(s) && MoveRead(s, s') && s.w != s.r
    ensures Lists(s') && s'.r in s'.base && s'.base[s'.r] == s.base[s.r] + s.cap && s.r !in s.cached
  {
    hide FreeList, LiveList;
    MoveReadLive(s.base, s.next, s.cap, s.r, s.w, Tail(s.w, s.producers, s.swapper));
    MoveReadFree(s);
  }

  lemma MoveReadLive(base: map<Chunk, nat>, next: map<Chunk, Option<Chunk>>, cap: nat, r: Chunk, w: Chunk, tail: Chunk)
    requires LiveList(base, next, cap, r, w, tail) && cap >= 1 && w != r && r in next && next[r].Some?
    ensures r in base && next[r].value in base - {r} && base[next[r].value] == base[r] + cap
    ensures LiveList(base - {r}, next, cap, next[r].value, w, tail)
  {
    hide Consecutive, Spaced, Bounded;
    ReadMovesOn(base, next, cap, r, w, tail);
    DropConsecutive(base, next, cap, r, tail);
    DropSpaced(base, cap, r);
    DropBounded(base, next, cap, r, w, tail);
  }

  lemma DropBounded(base: map<Chunk, nat>, next: map<Chunk, Option<Chunk>>, cap: nat, r: Chunk, w: Chunk, tail: Chunk)
    requires LiveList(base, next, cap, r, w, tail) && cap >= 1 && w != r && r in next && next[r].Some?
    ensures r != tail && Bounded(base - {r}, next[r].value, tail)
  {
    hide Consecutive, Spaced;
    ReadMovesOn(base, next, cap, r, w, tail);
    forall c | c in base - {r}
      ensures base[next[r].value] <= base[c] <= base[tail]
    {
      NextAfter(base, next, cap, r, w, tail, c);
    }
  }

  lemma ReadMovesOn(base: map<Chunk, nat>, next: map<Chunk, Option<Chunk>>, cap: nat, r: Chunk, w: Chunk, tail: Chunk)
    requires LiveList(base, next, cap, r, w, tail) && cap >= 1 && w != r && r in next && next[r].Some?
    ensures r != tail && next[r].value in base && base[next[r].value] == base[r] + cap
  {
    hide Spaced;
  }

  lemma DropConsecutive(base: map<Chunk, nat>, next: map<Chunk, Option<Chunk>>, cap: nat, r: Chunk, tail: Chunk)
    requires Consecutive(base, next, cap, tail) && cap >= 1 && Bounded(base, r, tail)
    ensures Consecutive(base - {r}, next, cap, tail)
  {
  }

  lemma DropSpaced(base: map<Chunk, nat>, cap: nat, r: Chunk)
    requires Spaced(base, cap)
    ensures Spaced(base - {r}, cap)
  {
  }

  /** Every other live chunk lies behind the one after r. */
  lemma NextAfter(base: map<Chunk, nat>, next: map<Chunk, Option<Chunk>>, cap: nat, r: Chunk, w: Chunk, tail: Chunk, c: Chunk)
    requires LiveList(base, next, cap, r, w, tail) && cap >= 1 && r in next && next[r].Some? && r != tail && c in base && c != r
    ensures next[r].value in base && base[next[r].value] <= base[c]
  {
  }

  lemma MoveReadFree(s: State)
    requires Lists(s)
    ensures s.r !in s.cached && FreeList(s.base - {s.r}, s.next, s.free, s.cached)
  {
    LiveListInNext(s);
    hide LiveList;
  }

  /** A chunk that is read to its end is no longer the one being written. */
  lemma ReadChunkIsNotWritten(s: State)
    requires Lists(s) && Ends(s) && Threads(s) && s.consumer == TakenLast
    ensures s.w != s.r && s.wp.chunk != s.r && s.base[s.r] + s.cap <= |s.published|
  {
    hide FreeList;
    PoppedBound(s);
    if s.swapper.Some? {
      assert ThreadOk(ViewOf(s), s.swapper.value, s.producers[s.swapper.value]);
    }
  }

  lemma MoveReadThreads(s: State, s': State)
    requires Threads(s) && MoveRead(s, s') && s.w != s.r && s.r in s.base && s.base[s.r] + s.cap <= |s.published|
    ensures Threads(s')
  {
    forall u | u in s.producers
      ensures ThreadOk(ViewOf(s'), u, s.producers[u])
    {
      ThreadsAfterMoveRead(ViewOf(s), ViewOf(s'), u, s.producers[u], s.r);
    }
  }

  lemma MoveReadHolders(s: State, s': State)
    requires Holders(|s.published|, s.log, s.producers, s.w, s.cap, s.base) && MoveRead(s, s') && s.r in s.base
    requires Threads(s) && s.base[s.r] + s.cap <= |s.published|
    ensures Holders(|s'.published|, s'.log, s'.producers, s'.w, s'.cap, s'.base)
  {
    forall a | |s.published| <= a < |s.log|
      ensures Held(s.log[a].tid, a, s'.producers, s'.w, s'.cap, s'.base)
    {
      var t := s.log[a].tid;
      assert Held(t, a, s.producers, s.w, s.cap, s.base);
      assert ThreadOk(ViewOf(s), t, s.producers[t]);
    }
  }

  lemma MoveReadEnds(s: State, s': State)
    requires Ends(s) && MoveRead(s, s') && s.w != s.r && s.wp.chunk != s.r && s.r in s.next && s.r !in s.cached
    requires s'.r in s'.base && s'.base[s'.r] == s.base[s.r] + s.cap
    ensures Ends(s')
  {
  }

  lemma MoveReadInv(s: State, s': State)
    requires Inv(s) && MoveRead(s, s')
    ensures Inv(s')
  {
    hide Lists, Ends, Threads, Holders, Contents, Completed;
    ReadChunkIsNotWritten(s);
    MoveReadLists(s, s');
    LiveListInNext(s');
    LiveListInNext(s);
    MoveReadThreads(s, s');
    MoveReadHolders(s, s');
    MoveReadEnds(s, s');
    MoveReadContents(s, s');
    MoveReadCompleted(s, s');
  }

  lemma MoveReadContents(s: State, s': State)
    requires Contents(s.base, s.cap, s.data, |s.popped|, s.published) && MoveRead(s, s')
    ensures Contents(s'.base, s'.cap, s'.data, |s'.popped|, s'.published)
  {
  }

  lemma MoveReadCompleted(s: State, s': State)
    requires Completed(s.published, s.producers, s.done) && MoveRead(s, s')
    ensures Completed(s'.published, s'.producers, s'.done)
  {
  }

  lemma PushCachedLists(s: State, s': State, c: Chunk)
    requires Lists(s) && PushCached(s, s', c) && c in s.next && c !in s.base && c !in s.cached
    ensures Lists(s')
  {
    hide LiveList;
    LiveListInNext(s);
    var tail := Tail(s.w, s.producers, s.swapper);
    LiveFrame(s.base, s.next, s'.next, s.cap, s.r, s.w, tail);
    ChainFrame(s.next, s'.next, s.free, s.cached);
    assert s'.cached[1..] == s.cached;
  }

  lemma PushCachedThreads(s: State, s': State, c: Chunk)
    requires Threads(s) && PushCached(s, s', c) && c !in s.base
    ensures Threads(s')
  {
    forall u | u in s.producers
      ensures ThreadOk(ViewOf(s'), u, s.producers[u])
    {
      ThreadsAfterPushCached(ViewOf(s), ViewOf(s'), u, s.producers[u], c, s.free);
    }
  }

  lemma PushCachedInv(s: State, s': State, c: Chunk)
    requires Inv(s) && PushCached(s, s', c)
    ensures Inv(s')
  {
    hide Lists, Threads, Holders, Contents, Completed, History, Positions;
    PushCachedLists(s, s', c);
    PushCachedThreads(s, s', c);
    assert Positions(s') by { SamePositions(s, s'); }
  }

  lemma SamePositions(s: State, s': State)
    requires Positions(s)
    requires s' == s.(next := s'.next, free := s'.free, cached := s'.cached, consumer := s'.consumer)
    ensures Positions(s')
  {
  }
}
