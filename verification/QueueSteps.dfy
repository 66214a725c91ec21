/** Every step of the queue machine keeps the invariant.  Each part of the
    invariant has its own lemma; the `...Inv` lemmas put the parts together. */
module QueueSteps {
  import opened Common
  import opened QueueProtocol
  import opened QueueInvariant
  import opened QueueThreads

  // ---- steps that only move thread t ----

  lemma LocalThreads(s: State, s': State, t: Tid, p: Producer)
    requires Threads(s) && t in s.producers && s' == Set(s, t, p)
    requires ThreadOk(ViewOf(s), t, p)
    ensures Threads(s')
  {
    assert ViewOf(s') == ViewOf(s);
  }

  lemma StoreThreads(s: State, s': State, t: Tid, p: Producer)
    requires Threads(s) && t in s.producers && Slot(s.w, s.cap, s.producers[t]).Some?
    requires !p.Idle? && !s.producers[t].Idle? && p.val == s.producers[t].val
    requires s' == Set(s, t, p).(data := s.data[Slot(s.w, s.cap, s.producers[t]).value := p.val])
    requires ThreadOk(ViewOf(s'), t, p)
    ensures Threads(s')
  {
    forall u | u in s.producers && u != t
      ensures ThreadOk(ViewOf(s'), u, s.producers[u])
    {
      OthersAfterStore(ViewOf(s), ViewOf(s'), t, s.producers[t], u, s.producers[u]);
    }
  }

  lemma StoreContents(s: State, t: Tid, p: Loc, v: Task)
    requires Threads(s) && t in s.producers && Slot(s.w, s.cap, s.producers[t]) == Some(p)
    requires Contents(s.base, s.cap, s.data, |s.popped|, s.published)
    ensures Contents(s.base, s.cap, s.data[p := v], |s.popped|, s.published)
  {
    assert SlotOk(ViewOf(s), t, s.producers[t]);
  }

  lemma LocalEnds(s: State, s': State, t: Tid, p: Producer)
    requires Ends(s) && t in s.producers && s' == Set(s, t, p).(data := s'.data)
    requires HoldsLast(p) == HoldsLast(s.producers[t])
    requires p.Moved? == s.producers[t].Moved? && !p.Swapped? && !s.producers[t].Swapped?
    ensures Ends(s')
  {
  }

  lemma SameSlot(s: State, t: Tid, p: Producer)
    requires Holders(|s.published|, s.log, s.producers, s.w, s.cap, s.base)
    requires t in s.producers && Slot(s.w, s.cap, p) == Slot(s.w, s.cap, s.producers[t])
    ensures Holders(|s.published|, s.log, s.producers[t := p], s.w, s.cap, s.base)
  {
  }

  lemma SameCompleted(s: State, t: Tid, p: Producer)
    requires Completed(s.published, s.producers, s.done)
    requires t in s.producers && !s.producers[t].Swapped? && !p.Swapped?
    ensures Completed(s.published, s.producers[t := p], s.done)
  {
  }

  lemma LocalStep(s: State, s': State, t: Tid, p: Producer)
    requires Lists(s) && Ends(s) && Completed(s.published, s.producers, s.done)
    requires Holders(|s.published|, s.log, s.producers, s.w, s.cap, s.base)
    requires t in s.producers && t in s.done && s' == Set(s, t, p).(data := s'.data)
    requires Slot(s.w, s.cap, p) == Slot(s.w, s.cap, s.producers[t]) && HoldsLast(p) == HoldsLast(s.producers[t])
    requires p.Moved? == s.producers[t].Moved? && !p.Swapped? && !s.producers[t].Swapped?
    requires Tail(s.w, s'.producers, s.swapper) == Tail(s.w, s.producers, s.swapper)
    requires Threads(s') && Contents(s.base, s.cap, s'.data, |s.popped|, s.published)
    ensures Inv(s')
  {
    hide Ends, Threads, Holders, Contents, Completed, LiveList, FreeList;
    LocalEnds(s, s', t, p);
    SameSlot(s, t, p);
    SameCompleted(s, t, p);
  }

  lemma BeginInv(s: State, s': State, t: Tid, v: Task)
    requires Inv(s) && Begin(s, s', t, v)
    ensures Inv(s')
  {
    hide Lists, Ends, Holders, Contents, Completed;
    LocalThreads(s, s', t, Trying(v));
    LocalStep(s, s', t, Trying(v));
  }

  lemma RetryInv(s: State, s': State, t: Tid, v: Task)
    requires Inv(s) && Retry(s, s', t, v)
    ensures Inv(s')
  {
    hide Lists, Ends, Holders, Contents, Completed;
    LocalThreads(s, s', t, Trying(v));
    LocalStep(s, s', t, Trying(v));
  }

  lemma SeeTurnInv(s: State, s': State, t: Tid, v: Task, p: Loc, nx: Loc)
    requires Inv(s) && SeeTurn(s, s', t, v, p, nx)
    ensures Inv(s')
  {
    hide Lists, Ends, Holders, Contents, Completed;
    assert ThreadOk(ViewOf(s), t, s.producers[t]);
    LocalThreads(s, s', t, Turn(v, p, nx));
    LocalStep(s, s', t, Turn(v, p, nx));
  }

  lemma AimInv(s: State, s': State, t: Tid, v: Task, n: nat)
    requires Inv(s) && Aim(s, s', t, v, n)
    ensures Inv(s')
  {
    hide Lists, Ends, Holders, Contents, Completed;
    assert ThreadOk(ViewOf(s), t, s.producers[t]);
    LocalThreads(s, s', t, Aimed(v, Loc(s.w, n - 1), Loc(s.w, n)));
    LocalStep(s, s', t, Aimed(v, Loc(s.w, n - 1), Loc(s.w, n)));
  }

  lemma StoreInv(s: State, s': State, t: Tid, v: Task, p: Loc, nx: Loc)
    requires Inv(s) && Store(s, s', t, v, p, nx)
    ensures Inv(s')
  {
    hide Lists, Ends, Holders, Contents, Completed;
    assert ThreadOk(ViewOf(s), t, s.producers[t]);
    StoreThreads(s, s', t, Written(v, p, nx));
    StoreContents(s, t, p, v);
    LocalStep(s, s', t, Written(v, p, nx));
  }

  lemma AimLastInv(s: State, s': State, t: Tid, v: Task)
    requires Inv(s) && AimLast(s, s', t, v)
    ensures Inv(s')
  {
    hide Lists, Ends, Holders, Contents, Completed;
    assert ThreadOk(ViewOf(s), t, s.producers[t]);
    LocalThreads(s, s', t, LastAimed(v, Loc(s.w, s.cap - 1)));
    LocalStep(s, s', t, LastAimed(v, Loc(s.w, s.cap - 1)));
  }

  lemma NothingLinked(s: State, t: Tid)
    requires Lists(s) && s.swapper == Some(t) && t in s.producers
    requires !s.producers[t].Linked? && !s.producers[t].Turn?
    ensures s.w in s.next && s.next[s.w] == None
  {
  }

  lemma StoreLastInv(s: State, s': State, t: Tid, v: Task, p: Loc)
    requires Inv(s) && StoreLast(s, s', t, v, p)
    ensures Inv(s')
  {
    hide Lists, Ends, Holders, Contents, Completed;
    assert ThreadOk(ViewOf(s), t, s.producers[t]);
    NothingLinked(s, t);
    StoreThreads(s, s', t, LastWritten(v, p));
    StoreContents(s, t, p, v);
    LocalStep(s, s', t, LastWritten(v, p));
  }

  // ---- reservation ----

  lemma ReserveThreads(s: State, s': State, t: Tid, p: Producer, e: Entry)
    requires Threads(s) && t in s.producers && s.swapper == None
    requires s' == Set(s, t, p).(wpos := s'.wpos, log := s.log + [e], swapper := s'.swapper)
    requires s'.swapper == None || s'.swapper == Some(t)
    requires ThreadOk(ViewOf(s'), t, p)
    ensures Threads(s')
  {
    assert ViewOf(s') == ViewOf(s).(log := s.log + [e], swapper := s'.swapper);
    forall u | u in s.producers && u != t
      ensures ThreadOk(ViewOf(s'), u, s.producers[u])
    {
      OthersAfterReserve(ViewOf(s), ViewOf(s'), u, s.producers[u], e, s'.swapper);
    }
  }

  lemma ReserveHolders(s: State, t: Tid, p: Producer, v: Task)
    requires Holders(|s.published|, s.log, s.producers, s.w, s.cap, s.base) && t in s.producers
    requires Slot(s.w, s.cap, s.producers[t]) == None
    requires Slot(s.w, s.cap, p).Some? && Number(s.base, Slot(s.w, s.cap, p).value) == |s.log|
    ensures Holders(|s.published|, s.log + [Entry(t, v)], s.producers[t := p], s.w, s.cap, s.base)
  {
  }

  lemma FetchEnds(s: State, s': State, t: Tid, v: Task)
    requires Ends(s) && (FetchFree(s, s', t, v) || FetchLast(s, s', t, v) || FetchOver(s, s', t, v))
    ensures Ends(s')
  {
  }

  lemma FetchFreeInv(s: State, s': State, t: Tid, v: Task)
    requires Inv(s) && FetchFree(s, s', t, v)
    ensures Inv(s')
  {
    hide Holders, Contents, Completed, LiveList, FreeList, ConsumerOk;
    FetchEnds(s, s', t, v);
    assert ThreadOk(ViewOf(s), t, s.producers[t]);
    ReserveThreads(s, s', t, Reserved(v, s.wpos + 1), Entry(t, v));
    ReserveHolders(s, t, Reserved(v, s.wpos + 1), v);
    SameCompleted(s, t, Reserved(v, s.wpos + 1));
  }

  lemma FetchLastInv(s: State, s': State, t: Tid, v: Task)
    requires Inv(s) && FetchLast(s, s', t, v)
    ensures Inv(s')
  {
    hide Holders, Contents, Completed, LiveList, FreeList, ConsumerOk;
    FetchEnds(s, s', t, v);
    assert ThreadOk(ViewOf(s), t, s.producers[t]);
    ReserveThreads(s, s', t, Last(v), Entry(t, v));
    ReserveHolders(s, t, Last(v), v);
    SameCompleted(s, t, Last(v));
  }

  lemma FetchOverInv(s: State, s': State, t: Tid, v: Task)
    requires Inv(s) && FetchOver(s, s', t, v)
    ensures Inv(s')
  {
    hide Holders, Contents, Completed, LiveList, FreeList, ConsumerOk;
    FetchEnds(s, s', t, v);
    assert ThreadOk(ViewOf(s), t, s.producers[t]);
    LocalThreads(s, Set(s, t, Spinning(v)), t, Spinning(v));
    SameSlot(s, t, Spinning(v));
    SameCompleted(s, t, Spinning(v));
  }

  // ---- the next chunk ----

  lemma ExpandEnds(s: State, s': State, t: Tid, p: Producer)
    requires Ends(s) && t in s.producers && s.swapper == Some(t) && HoldsLast(p)
    requires !s.producers[t].Moved? && !s.producers[t].Swapped? && !p.Moved? && !p.Swapped?
    requires s' == Set(s, t, p).(next := s'.next, free := s'.free, cached := s'.cached, base := s'.base)
    requires forall c | c in s'.cached :: c in s.cached || c !in s.next
    requires s.base.Keys <= s'.base.Keys && forall c | c in s.base :: s'.base[c] == s.base[c]
    requires Dropped(s.consumer).Some? ==>
      var d := Dropped(s.consumer).value; d in s.next ==> d in s'.next && s'.next[d] == s.next[d] && (d in s'.base ==> d in s.base)
    ensures Ends(s')
  {
  }

  lemma ExpandThreads(s: State, s': State, t: Tid, p: Producer)
    requires Threads(s) && t in s.producers && s.swapper == Some(t)
    requires s' == Set(s, t, p).(next := s'.next, free := s'.free, cached := s'.cached, base := s'.base)
    requires s.w in s'.next
    requires s.base.Keys <= s'.base.Keys && forall c | c in s.base :: s'.base[c] == s.base[c]
    requires ThreadOk(ViewOf(s'), t, p)
    ensures Threads(s')
  {
    forall u | u in s.producers && u != t
      ensures ThreadOk(ViewOf(s'), u, s.producers[u])
    {
      OthersAfterExpand(ViewOf(s), ViewOf(s'), u, s.producers[u]);
    }
  }

  lemma LiveListInNext(s: State)
    requires Lists(s)
    ensures s.base.Keys <= s.next.Keys && s.w in s.base && s.r in s.base
  {
  }

  /** Writes outside the live list keep it. */
  lemma LiveFrame(base: map<Chunk, nat>, next: map<Chunk, Option<Chunk>>, next': map<Chunk, Option<Chunk>>,
                  cap: nat, r: Chunk, w: Chunk, tail: Chunk)
    requires LiveList(base, next, cap, r, w, tail)
    requires forall d | d in base :: d in next' && next'[d] == next[d]
    ensures LiveList(base, next', cap, r, w, tail)
  {
  }

  lemma TakeCachedLists(s: State, s': State, t: Tid, v: Task, p: Loc)
    requires Lists(s) && TakeCached(s, s', t, v, p) && s.swapper == Some(t)
    ensures Lists(s') && s.free.value !in s'.base && s.free.value !in s'.cached && s.free.value in s.cached
  {
    hide LiveList;
    var c := s.cached[0];
    assert c in s.cached;
    assert s'.cached == s.cached[1..];
    ChainFrame(s.next, s'.next, s'.free, s'.cached);
    assert LiveList(s'.base, s'.next, s'.cap, s'.r, s'.w, s'.w) by {
      LiveListInNext(s);
      LiveFrame(s.base, s.next, s'.next, s.cap, s.r, s.w, s.w);
    }
  }

  lemma TakeCachedInv(s: State, s': State, t: Tid, v: Task, p: Loc)
    requires Inv(s) && TakeCached(s, s', t, v, p)
    ensures Inv(s')
  {
    hide Lists, Ends, Holders, Contents, Completed;
    var q := Expanding(v, p, s.free.value);
    assert ThreadOk(ViewOf(s), t, s.producers[t]);
    TakeCachedLists(s, s', t, v, p);
    PrivateChunk(s, s.free.value);
    ExpandEnds(s, s', t, q);
    ExpandThreads(s, s', t, q);
    SameSlot(s, t, q);
    SameCompleted(s, t, q);
  }

  /** The chunk the consumer is freeing is not in the free list yet. */
  lemma PrivateChunk(s: State, c: Chunk)
    requires Ends(s) && c in s.cached
    ensures Dropped(s.consumer) != Some(c)
  {
  }

  lemma AllocateLists(s: State, s': State, t: Tid, v: Task, p: Loc, c: Chunk)
    requires Lists(s) && Allocate(s, s', t, v, p, c) && s.swapper == Some(t)
    ensures Lists(s') && s.cached == [] && c !in s.base
  {
    hide LiveList;
    LiveListInNext(s);
    LiveFrame(s.base, s.next, s'.next, s.cap, s.r, s.w, s.w);
  }

  lemma AllocateInv(s: State, s': State, t: Tid, v: Task, p: Loc, c: Chunk)
    requires Inv(s) && Allocate(s, s', t, v, p, c)
    ensures Inv(s')
  {
    hide Lists, Holders, Contents, Completed, History, Positions;
    var q := Expanding(v, p, c);
    assert ThreadOk(ViewOf(s), t, s.producers[t]);
    AllocateLists(s, s', t, v, p, c);
    ExpandEnds(s, s', t, q);
    ExpandThreads(s, s', t, q);
    SameSlot(s, t, q);
    SameCompleted(s, t, q);
  }

  lemma LinkLists(s: State, s': State, t: Tid, v: Task, p: Loc, c: Chunk)
    requires Lists(s) && Link(s, s', t, v, p, c) && s.swapper == Some(t)
    requires c in s.next && s.next[c] == None && c !in s.base && c !in s.cached
    ensures Lists(s')
  {
    hide LiveList, FreeList;
    assert FreeList(s'.base, s'.next, s'.free, s'.cached) by { LinkFree(s, c); }
    LinkLive(s.base, s.next, s.cap, s.r, s.w, c);
  }

  lemma LinkFree(s: State, c: Chunk)
    requires Lists(s) && c !in s.cached
    ensures s.w in s.base && FreeList(s.base[c := s.base[s.w] + s.cap], s.next[s.w := Some(c)], s.free, s.cached)
  {
    LiveListInNext(s);
    hide LiveList;
    ChainFrame(s.next, s.next[s.w := Some(c)], s.free, s.cached);
  }

  lemma LinkLive(base: map<Chunk, nat>, next: map<Chunk, Option<Chunk>>, cap: nat, r: Chunk, w: Chunk, c: Chunk)
    requires LiveList(base, next, cap, r, w, w) && c in next && next[c] == None && c !in base
    ensures LiveList(base[c := base[w] + cap], next[w := Some(c)], cap, r, w, c)
  {
    hide Consecutive, Spaced, Bounded;
    LinkConsecutive(base, next, cap, w, c);
    LinkSpaced(base, cap, r, w, c);
    LinkBounded(base, cap, r, w, c);
  }

  lemma LinkBounded(base: map<Chunk, nat>, cap: nat, r: Chunk, w: Chunk, c: Chunk)
    requires Bounded(base, r, w) && c !in base
    ensures Bounded(base[c := base[w] + cap], r, c)
  {
  }

  lemma LinkConsecutive(base: map<Chunk, nat>, next: map<Chunk, Option<Chunk>>, cap: nat, w: Chunk, c: Chunk)
    requires Consecutive(base, next, cap, w) && w in base && base.Keys <= next.Keys && c !in base
    ensures Consecutive(base[c := base[w] + cap], next[w := Some(c)], cap, c)
  {
    var base', next' := base[c := base[w] + cap], next[w := Some(c)];
    forall d {:trigger next'[d]} | d in base' && d in next' && d != c
      ensures next'[d].Some? && next'[d].value in base' && base'[next'[d].value] == base'[d] + cap
    {
      assert d != w ==> next[d].Some? && next[d].value in base && base[next[d].value] == base[d] + cap;
    }
  }

  lemma LinkSpaced(base: map<Chunk, nat>, cap: nat, r: Chunk, w: Chunk, c: Chunk)
    requires Spaced(base, cap) && c !in base && Bounded(base, r, w)
    ensures Spaced(base[c := base[w] + cap], cap)
  {
  }

  lemma LinkHolders(s: State, s': State, t: Tid, v: Task, p: Loc, c: Chunk)
    requires Holders(|s.published|, s.log, s.producers, s.w, s.cap, s.base)
    requires Link(s, s', t, v, p, c) && c !in s.base
    ensures Holders(|s'.published|, s'.log, s'.producers, s'.w, s'.cap, s'.base)
  {
  }

  lemma LinkContents(s: State, c: Chunk)
    requires Contents(s.base, s.cap, s.data, |s.popped|, s.published)
    requires s.w in s.base && |s.published| <= s.base[s.w] + s.cap && c !in s.base
    ensures Contents(s.base[c := s.base[s.w] + s.cap], s.cap, s.data, |s.popped|, s.published)
  {
    var base' := s.base[c := s.base[s.w] + s.cap];
    forall l: Loc | l.chunk in base' && l.pos < s.cap && |s.popped| <= base'[l.chunk] + l.pos < |s.published|
      ensures l in s.data && s.data[l] == s.published[base'[l.chunk] + l.pos].val
    {
      assert l.chunk != c && base'[l.chunk] == s.base[l.chunk];
    }
  }

  /** What the expanding thread knows about the chunk it links. */
  lemma LinkFacts(s: State, s': State, t: Tid, v: Task, p: Loc, c: Chunk)
    requires Threads(s) && Ends(s) && Link(s, s', t, v, p, c)
    ensures s.swapper == Some(t) && s.w in s.next && |s.published| <= s.base[s.w] + s.cap
    ensures c in s.next && s.next[c] == None && c !in s.base && c !in s.cached
    ensures ThreadOk(ViewOf(s'), t, Linked(v, p, Loc(c, 0)))
    ensures Dropped(s.consumer).Some? ==>
      var d := Dropped(s.consumer).value; d != c && d != s.w && d !in s.base
  {
    hide Ends, SlotOk, Threads;
    ThreadAt(s, t);
    LinkEnds(s);
    LinkDropped(s);
    LinkedOk(s, s', t, v, p, c);
  }

  lemma ThreadAt(s: State, t: Tid)
    requires Threads(s) && t in s.producers
    ensures ThreadOk(ViewOf(s), t, s.producers[t])
  {
  }

  lemma LinkEnds(s: State)
    requires Ends(s) && s.swapper.Some? && s.swapper.value in s.producers && s.producers[s.swapper.value].Expanding?
    ensures s.w in s.base && |s.published| <= s.base[s.w] + s.cap
  {
    hide ConsumerOk;
  }

  lemma LinkDropped(s: State)
    requires Ends(s)
    ensures Dropped(s.consumer).Some? ==> Dropped(s.consumer).value != s.w && Dropped(s.consumer).value !in s.base
  {
    hide History;
  }

  /** The thread that linked chunk c waits for its turn in the state it should. */
  lemma LinkedOk(s: State, s': State, t: Tid, v: Task, p: Loc, c: Chunk)
    requires Link(s, s', t, v, p, c) && ThreadOk(ViewOf(s), t, Expanding(v, p, c))
    ensures ThreadOk(ViewOf(s'), t, Linked(v, p, Loc(c, 0)))
  {
    var u, u' := ViewOf(s), ViewOf(s');
    var before, after := Expanding(v, p, c), Linked(v, p, Loc(c, 0));
    assert Slot(u'.w, u'.cap, after) == Slot(u.w, u.cap, before) == Some(p);
    assert p.chunk != c && Number(u'.base, p) == Number(u.base, p);
    assert SlotOk(u', t, after);
    assert StageOk(u', after) by { hide SlotOk; }
  }

  lemma LinkInv(s: State, s': State, t: Tid, v: Task, p: Loc, c: Chunk)
    requires Inv(s) && Link(s, s', t, v, p, c)
    ensures Inv(s')
  {
    hide Lists, Ends, Threads, Holders, Contents, Completed, ThreadOk;
    var q := Linked(v, p, Loc(c, 0));
    LinkFacts(s, s', t, v, p, c);
    LinkLists(s, s', t, v, p, c);
    ExpandEnds(s, s', t, q);
    ExpandThreads(s, s', t, q);
    LinkHolders(s, s', t, v, p, c);
    LinkContents(s, c);
    SameCompleted(s, t, q);
  }

  lemma MoveLists(s: State, s': State, t: Tid, v: Task, p: Loc, nx: Loc)
    requires Lists(s) && Move(s, s', t, v, p, nx) && s.swapper == Some(t) && s.next[s.w] == Some(nx.chunk)
    ensures Lists(s') && s'.w in s.base && s'.w in s.next && s.base[s'.w] == s.base[s.w] + s.cap
  {
    hide Consecutive, Spaced, Bounded, Chain;
    NextChunk(s.base, s.next, s.cap, nx.chunk, s.w);
  }

  lemma NextChunk(base: map<Chunk, nat>, next: map<Chunk, Option<Chunk>>, cap: nat, tail: Chunk, c: Chunk)
    requires Consecutive(base, next, cap, tail) && c in base && c in next && next[c].Some? && tail in next && next[tail] == None
    ensures next[c].value in base && base[next[c].value] == base[c] + cap
  {
  }

  lemma MoveEnds(s: State, s': State, t: Tid, v: Task, p: Loc, nx: Loc)
    requires Ends(s) && Move(s, s', t, v, p, nx) && s.swapper == Some(t)
    requires s'.w in s.base && s.base[s'.w] == s.base[s.w] + s.cap
    ensures Ends(s')
  {
  }

  lemma MoveThreads(s: State, s': State, t: Tid, v: Task, p: Loc, nx: Loc)
    requires Threads(s) && Move(s, s', t, v, p, nx) && s'.w in s.base && s'.w in s.next
    requires Number(s.base, s.wp) == |s.published| && ThreadOk(ViewOf(s'), t, Moved(v, p, nx))
    ensures Threads(s')
  {
    forall u | u in s.producers && u != t
      ensures ThreadOk(ViewOf(s'), u, s.producers[u])
    {
      OthersAfterMove(ViewOf(s), ViewOf(s'), t, s.producers[t], u, s.producers[u], s'.w);
    }
  }

  /** Only the moving thread holds an unpublished slot. */
  lemma MoveHolders(s: State, s': State, t: Tid, v: Task, p: Loc, nx: Loc)
    requires Holders(|s.published|, s.log, s.producers, s.w, s.cap, s.base) && Positions(s)
    requires Move(s, s', t, v, p, nx) && s.swapper == Some(t)
    requires ThreadOk(ViewOf(s), t, s.producers[t])
    ensures Holders(|s'.published|, s'.log, s'.producers, s'.w, s'.cap, s'.base)
  {
  }

  lemma MoveInv(s: State, s': State, t: Tid, v: Task, p: Loc, nx: Loc)
    requires Inv(s) && Move(s, s', t, v, p, nx)
    ensures Inv(s')
  {
    hide LiveList, FreeList, Holders, Contents, Completed, History, ConsumerOk;
    var q := Moved(v, p, nx);
    assert ThreadOk(ViewOf(s), t, s.producers[t]);
    MoveLists(s, s', t, v, p, nx);
    MoveEnds(s, s', t, v, p, nx);
    MoveThreads(s, s', t, v, p, nx);
    MoveHolders(s, s', t, v, p, nx);
    SameCompleted(s, t, q);
  }
}
