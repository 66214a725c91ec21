/** Steps keep what holds of every thread inside `mpush`: one lemma for the
    threads that do not move, then one for the thread that does. */
module QueueThreads {
  import opened Common
  import opened QueueProtocol
  import opened QueueInvariant

  /** Two threads never hold the same slot. */
  lemma DistinctSlots(v: View, t: Tid, p: Producer, u: Tid, q: Producer)
    requires ThreadOk(v, t, p) && ThreadOk(v, u, q) && t != u
    requires Slot(v.w, v.cap, p).Some? && Slot(v.w, v.cap, q).Some?
    ensures Number(v.base, Slot(v.w, v.cap, p).value) != Number(v.base, Slot(v.w, v.cap, q).value)
  {
  }

  lemma OthersAfterReserve(v: View, v': View, u: Tid, q: Producer, e: Entry, s: Option<Tid>)
    requires ThreadOk(v, u, q) && !q.Swapped? && (s == v.swapper || (v.swapper == None && s != Some(u)))
    requires v' == v.(log := v.log + [e], swapper := s)
    ensures ThreadOk(v', u, q)
  {
  }

  lemma OthersAfterStore(v: View, v': View, t: Tid, p: Producer, u: Tid, q: Producer)
    requires ThreadOk(v, t, p) && ThreadOk(v, u, q) && t != u && Slot(v.w, v.cap, p).Some?
    requires v' == v.(data := v.data[Slot(v.w, v.cap, p).value := p.val])
    ensures ThreadOk(v', u, q)
  {
    if Slot(v.w, v.cap, q).Some? { DistinctSlots(v, t, p, u, q); }
  }

  lemma OthersAfterPublish(v: View, v': View, t: Tid, p: Producer, u: Tid, q: Producer, nx: Loc)
    requires ThreadOk(v, t, p) && ThreadOk(v, u, q) && t != u
    requires Slot(v.w, v.cap, p) == Some(v.wp) && Number(v.base, v.wp) == v.from
    requires v' == v.(wp := nx, from := v.from + 1)
    ensures ThreadOk(v', u, q)
  {
    if Slot(v.w, v.cap, q).Some? { DistinctSlots(v, t, p, u, q); }
  }

  /** While t holds position N, the others are at most storing into the current chunk. */
  lemma OthersAfterExpand(v: View, v': View, u: Tid, q: Producer)
    requires ThreadOk(v, u, q) && v.swapper.Some? && v.swapper != Some(u)
    requires v'.w == v.w && v'.cap == v.cap && v'.wp == v.wp && v'.from == v.from && v'.log == v.log
    requires v'.data == v.data && v'.swapper == v.swapper && v.w in v'.next
    requires v.base.Keys <= v'.base.Keys && forall c | c in v.base :: v'.base[c] == v.base[c]
    ensures ThreadOk(v', u, q)
  {
  }

  /** When m_wp reaches the last slot of the chunk, no other thread holds a slot. */
  lemma OthersAfterMove(v: View, v': View, t: Tid, p: Producer, u: Tid, q: Producer, d: Chunk)
    requires ThreadOk(v, t, p) && ThreadOk(v, u, q) && t != u && p.Turn?
    requires Number(v.base, v.wp) == v.from && d in v.base && d in v.next
    requires v' == v.(w := d)
    ensures ThreadOk(v', u, q)
  {
    if Slot(v.w, v.cap, q).Some? {
      DistinctSlots(v, t, p, u, q);
      assert false;
    }
  }

  lemma OthersAfterReset(v: View, v': View, u: Tid, q: Producer)
    requires ThreadOk(v, u, q) && v.swapper != Some(u)
    requires v' == v.(swapper := None)
    ensures ThreadOk(v', u, q)
  {
  }

  /** The chunk the consumer leaves holds no slot any thread still owns. */
  lemma ThreadsAfterMoveRead(v: View, v': View, u: Tid, q: Producer, r: Chunk)
    requires ThreadOk(v, u, q) && r in v.base && r != v.w && v.base[r] + v.cap <= v.from
    requires v' == v.(base := v.base - {r}, dropped := Some(r))
    ensures ThreadOk(v', u, q)
  {
  }

  lemma ThreadsAfterPushCached(v: View, v': View, u: Tid, q: Producer, c: Chunk, free: Option<Chunk>)
    requires ThreadOk(v, u, q) && v.dropped == Some(c) && c !in v.base
    requires v' == v.(next := v.next[c := free], cached := [c] + v.cached, dropped := None)
    ensures ThreadOk(v', u, q)
  {
  }
}
