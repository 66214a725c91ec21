/** The yield table used by many threads: one table, whose locked sections are steps, and
    what happens to its entries outside the lock.

    `remove` unlocks the table before its caller copies the value, and `yield` fills the
    entry after the table was unlocked, so an allocation by another thread may come in
    between.  Every section under the lock is one step, and so are the copy, the filling
    of an entry and the look of the timeout check at an entry. */
module YieldProtocol {
  import opened Common
  import opened Links
  import opened ElementPool
  import opened YieldTable

  type Tid = nat

  /** What an entry holds: nothing until its yield fills it. */
  type Entry = Option<Yielded>

  /** A copy that was made: what the entry held when it was found, what was read, whether the
      entry was erased, and whether nothing touched the element in between. */
  datatype Copy = Copy(was: Entry, got: Copied<Entry>, erased: bool, quiet: bool)

  datatype Pc =
    | Idle
    | Filling(p: Ptr, y: Yielded)   // yield: has its entry, before `set`
    | Erasing(msgid: nat)           // the entry was found to be late
    | Copying(p: Ptr, was: Entry, erased: bool, back: bool, taken: nat, filled: nat)

  /** `takes` and `fills` count the allocations of an element and the writes of `set` to it;
      `ended` lists the yields whose entry was erased.  `broken` is set when a thread follows
      the null fiber of an entry that was not filled, or fills memory given back. */
  datatype State = State(
    pool: Pool<nat, Entry>, threads: map<Tid, Pc>, count: nat,
    takes: map<Ptr, nat>, fills: map<Ptr, nat>, ended: set<nat>, copies: seq<Copy>, broken: bool)

  ghost predicate Init(s: State) {
    && PoolOk(s.pool) && s.pool.at == map[] && s.pool.heap == {} && s.pool.use == 0 && s.pool.max == |s.pool.free|
    && (forall p | p in s.pool.mem :: s.pool.mem[p] == None) && (forall p | p in s.pool.free :: p in s.pool.mem)
    && (forall t | t in s.threads :: s.threads[t] == Idle)
    && s.count == 0 && s.takes == s.fills == map[] && s.ended == {} && s.copies == [] && !s.broken
  }

  predicate At(s: State, t: Tid, pc: Pc) {
    t in s.threads && s.threads[t] == pc && !s.broken
  }

  function Set(s: State, t: Tid, pc: Pc): State {
    s.(threads := s.threads[t := pc])
  }

  function Count(m: map<Ptr, nat>, p: Ptr): nat {
    if p in m then m[p] else 0
  }

  function Inc(m: map<Ptr, nat>, p: Ptr): map<Ptr, nat> {
    m[p := Count(m, p) + 1]
  }

  // ---- steps ----

  /** alloc_yield_context for a new message: an entry that is not filled. */
  ghost predicate Alloc(s: State, s': State, t: Tid, y: Yielded, e: Ptr) {
    && At(s, t, Idle) && y.serial == s.count && y.msgid !in s.pool.at && CanTake(s.pool, e)
    && s' == Set(s, t, Filling(e, y)).(pool := Take(s.pool, y.msgid, e, None), takes := Inc(s.takes, e), count := s.count + 1)
  }

  /** alloc_yield_context for a message that has an entry: that one. */
  predicate Reuse(s: State, s': State, t: Tid, y: Yielded) {
    && At(s, t, Idle) && y.serial == s.count && y.msgid in s.pool.at
    && s' == Set(s, t, Filling(s.pool.at[y.msgid], y)).(count := s.count + 1)
  }

  /** py->set, without the lock. */
  predicate Fill(s: State, s': State, t: Tid, p: Ptr, y: Yielded) {
    && At(s, t, Filling(p, y))
    && s' == if p in s.pool.mem then
               Set(s, t, Idle).(pool := s.pool.(mem := s.pool.mem[p := Some(y)]), fills := Inc(s.fills, p))
             else Set(s, t, Idle).(broken := true)
  }

  function Erased(s: State, t: Tid, k: nat, pc: Pc): State
    requires k in s.pool.at && s.pool.at[k] in s.pool.mem
  {
    var was := s.pool.mem[s.pool.at[k]];
    Set(s, t, pc).(pool := Erase(s.pool, k), ended := s.ended + if was.Some? then {was.value.serial} else {})
  }

  /** find_and_erase_if under the lock; `checked` asks the fiber whether it is removable. */
  predicate Find(s: State, s': State, t: Tid, k: nat, checked: bool, removable: bool) {
    && At(s, t, if checked then Idle else Erasing(k))
    && if k !in s.pool.at then s' == Set(s, t, Idle)
       else
         var e := s.pool.at[k];
         && e in s.pool.mem
         && var was := s.pool.mem[e];
         if checked && was == None then s' == Set(s, t, Idle).(broken := true)
         else if checked && !removable then s' == Set(s, t, Copying(e, was, false, false, Count(s.takes, e), Count(s.fills, e)))
         else s' == Erased(s, t, k, Copying(e, was, true, GivesBack(s.pool, e), Count(s.takes, e), Count(s.fills, e)))
  }

  /** `v = *pv`, without the lock; the fiber that was read is resumed. */
  predicate CopyValue(s: State, s': State, t: Tid) {
    && t in s.threads && s.threads[t].Copying? && !s.broken
    && var c := s.threads[t];
    && s' == Set(s, t, Idle).(copies := s.copies + [Copy(c.was, CopyFrom(s.pool.mem, c.p), c.erased, Quiet(s, c))])
  }

  /** The element was not given back, not allocated again and not written. */
  predicate Quiet(s: State, c: Pc)
    requires c.Copying?
  {
    !c.back && Count(s.takes, c.p) == c.taken && Count(s.fills, c.p) == c.filled
  }

  /** timeout_iterator reads the limit and the message id of an entry; in an entry that was
      not filled both are zero. */
  predicate Look(s: State, s': State, t: Tid, p: Ptr, now: nat) {
    && At(s, t, Idle) && p in s.pool.mem
    && var (limit, msgid) := if s.pool.mem[p].Some? then (s.pool.mem[p].value.limit, s.pool.mem[p].value.msgid) else (0, 0);
    s' == if now > limit then Set(s, t, Erasing(msgid)) else s
  }

  /** erase, whose caller does not look at the value. */
  predicate Forget(s: State, s': State, t: Tid, k: nat) {
    At(s, t, Idle) && k in s.pool.at && s.pool.at[k] in s.pool.mem && s' == Erased(s, t, k, Idle)
  }

  datatype Step =
    | AllocStep(t: Tid, y: Yielded, e: Ptr)
    | ReuseStep(t: Tid, y: Yielded)
    | FillStep(t: Tid, p: Ptr, y: Yielded)
    | FindStep(t: Tid, k: nat, checked: bool, removable: bool)
    | CopyStep(t: Tid)
    | LookStep(t: Tid, p: Ptr, now: nat)
    | ForgetStep(t: Tid, k: nat)

  ghost predicate NextStep(s: State, s': State, step: Step) {
    match step
    case AllocStep(t, y, e) => Alloc(s, s', t, y, e)
    case ReuseStep(t, y) => Reuse(s, s', t, y)
    case FillStep(t, p, y) => Fill(s, s', t, p, y)
    case FindStep(t, k, checked, removable) => Find(s, s', t, k, checked, removable)
    case CopyStep(t) => CopyValue(s, s', t)
    case LookStep(t, p, now) => Look(s, s', t, p, now)
    case ForgetStep(t, k) => Forget(s, s', t, k)
  }

  ghost predicate Next(s: State, s': State) {
    exists step :: NextStep(s, s', step)
  }

  ghost predicate Run(run: seq<State>) {
    && run != [] && Init(run[0])
    && forall i | 0 < i < |run| :: Next(run[i - 1], run[i])
  }

  // ---- the invariant ----

  /** Yields are written once: those still to be written are in no entry and no copy. */
  ghost predicate Unwritten(pool: Pool<nat, Entry>, threads: map<Tid, Pc>, count: nat, ended: set<nat>) {
    && (forall t | t in threads && threads[t].Filling? :: threads[t].y.serial < count && threads[t].y.serial !in ended)
    && (forall t, u | t in threads && u in threads && t != u && threads[t].Filling? && threads[u].Filling? ::
          threads[t].y.serial != threads[u].y.serial)
    && (forall t, p | t in threads && p in pool.mem && threads[t].Filling? && pool.mem[p].Some? ::
          threads[t].y.serial != pool.mem[p].value.serial)
    && (forall p | p in pool.mem && pool.mem[p].Some? :: pool.mem[p].value.serial < count)
    && (forall n | n in ended :: n < count)
  }

  /** A yield is in one element at most, and what a used element holds was not erased. */
  ghost predicate Distinct(pool: Pool<nat, Entry>, ended: set<nat>) {
    && (forall p, q | p in pool.mem && q in pool.mem && pool.mem[p].Some? && pool.mem[q].Some?
                      && pool.mem[p].value.serial == pool.mem[q].value.serial :: p == q)
    && (forall k | k in pool.at && pool.at[k] in pool.mem && pool.mem[pool.at[k]].Some? ::
          pool.mem[pool.at[k]].value.serial !in ended)
  }

  /** No element holds the yield numbered n. */
  ghost predicate Nowhere(mem: map<Ptr, Entry>, n: nat) {
    forall p | p in mem && mem[p].Some? :: mem[p].value.serial != n
  }

  /** What became of an erased element before its value is copied. */
  ghost predicate CopyOk(pool: Pool<nat, Entry>, takes: map<Ptr, nat>, fills: map<Ptr, nat>, ended: set<nat>, c: Pc)
    requires c.Copying?
  {
    && c.taken <= Count(takes, c.p) && c.filled <= Count(fills, c.p)
    && (c.erased && c.was.Some? ==> c.was.value.serial in ended)
    && (c.erased && Count(takes, c.p) == c.taken ==>
          if c.back then c.p !in pool.mem && Count(fills, c.p) == c.filled
          else c.p in pool.mem && c.p in pool.free && (Count(fills, c.p) == c.filled ==> pool.mem[c.p] == c.was))
    && (c.erased && c.was.Some? && (c.back || Count(takes, c.p) != c.taken || Count(fills, c.p) != c.filled) ==>
          Nowhere(pool.mem, c.was.value.serial))
  }

  ghost predicate CopiesOk(s: State) {
    forall t | t in s.threads && s.threads[t].Copying? :: CopyOk(s.pool, s.takes, s.fills, s.ended, s.threads[t])
  }

  /** Erased entries are handed out once each. */
  ghost predicate OnceEach(threads: map<Tid, Pc>, ended: set<nat>, copies: seq<Copy>) {
    && (forall t, u | t in threads && u in threads && t != u && Hands(threads[t]) && Hands(threads[u]) ::
          threads[t].was.value.serial != threads[u].was.value.serial)
    && (forall t, i | t in threads && 0 <= i < |copies| && Hands(threads[t]) && Handed(copies[i]) ::
          threads[t].was.value.serial != copies[i].was.value.serial)
    && (forall i, j | 0 <= i < j < |copies| && Handed(copies[i]) && Handed(copies[j]) ::
          copies[i].was.value.serial != copies[j].was.value.serial)
    && (forall i | 0 <= i < |copies| && Handed(copies[i]) :: copies[i].was.value.serial in ended)
    && (forall t | t in threads && Hands(threads[t]) :: threads[t].was.value.serial in ended)
    && (forall i | 0 <= i < |copies| && Handed(copies[i]) :: copies[i].got == Value(copies[i].was) <==> copies[i].quiet)
  }

  /** The thread erased an entry that was filled and will copy it. */
  predicate Hands(pc: Pc) {
    pc.Copying? && pc.erased && pc.was.Some?
  }

  predicate Handed(c: Copy) {
    c.erased && c.was.Some?
  }

  ghost predicate Inv(s: State) {
    && PoolOk(s.pool) && Unwritten(s.pool, s.threads, s.count, s.ended) && Distinct(s.pool, s.ended)
    && CopiesOk(s) && OnceEach(s.threads, s.ended, s.copies)
  }

  lemma InitInv(s: State)
    requires Init(s)
    ensures Inv(s)
  {
  }

  // ---- what a step of one thread does to the copies of the others ----

  lemma CopyAfterTake(pool: Pool<nat, Entry>, takes: map<Ptr, nat>, fills: map<Ptr, nat>, ended: set<nat>, c: Pc, k: nat, e: Ptr)
    requires c.Copying? && CopyOk(pool, takes, fills, ended, c) && Distinct(pool, ended) && CanTake(pool, e)
    ensures CopyOk(Take(pool, k, e, None), Inc(takes, e), fills, ended, c)
  {
    if pool.free != [] && c.p in pool.free && c.p != e { assert c.p in pool.free[1..]; }
  }

  lemma CopyAfterFill(pool: Pool<nat, Entry>, takes: map<Ptr, nat>, fills: map<Ptr, nat>, ended: set<nat>, c: Pc, p: Ptr, y: Yielded)
    requires c.Copying? && CopyOk(pool, takes, fills, ended, c) && Distinct(pool, ended) && p in pool.mem && y.serial !in ended
    ensures CopyOk(pool.(mem := pool.mem[p := Some(y)]), takes, Inc(fills, p), ended, c)
  {
  }

  lemma CopyAfterErase(pool: Pool<nat, Entry>, takes: map<Ptr, nat>, fills: map<Ptr, nat>, ended: set<nat>, ended': set<nat>, c: Pc, k: nat)
    requires c.Copying? && CopyOk(pool, takes, fills, ended, c) && PoolOk(pool) && k in pool.at && ended <= ended'
    ensures CopyOk(Erase(pool, k), takes, fills, ended', c)
  {
  }

  /** The copy a thread owes when it just erased the entry of k. */
  lemma CopyStarts(pool: Pool<nat, Entry>, takes: map<Ptr, nat>, fills: map<Ptr, nat>, ended: set<nat>, k: nat)
    requires PoolOk(pool) && Distinct(pool, ended) && k in pool.at
    ensures
      var e := pool.at[k];
      && e in pool.mem
      && var was := pool.mem[e];
      CopyOk(Erase(pool, k), takes, fills, ended + if was.Some? then {was.value.serial} else {},
             Copying(e, was, true, GivesBack(pool, e), Count(takes, e), Count(fills, e)))
  {
  }

  lemma DistinctAfterErase(pool: Pool<nat, Entry>, ended: set<nat>, k: nat)
    requires PoolOk(pool) && Distinct(pool, ended) && k in pool.at
    ensures
      var was := pool.mem[pool.at[k]];
      && (was.Some? ==> was.value.serial !in ended)
      && Distinct(Erase(pool, k), ended + if was.Some? then {was.value.serial} else {})
  {
  }

  lemma DistinctAfterTake(pool: Pool<nat, Entry>, ended: set<nat>, k: nat, e: Ptr)
    requires PoolOk(pool) && Distinct(pool, ended) && k !in pool.at && CanTake(pool, e)
    ensures Distinct(Take(pool, k, e, None), ended)
  {
    TakeOk(pool, k, e, None);
  }

  lemma DistinctAfterFill(pool: Pool<nat, Entry>, ended: set<nat>, p: Ptr, y: Yielded)
    requires PoolOk(pool) && Distinct(pool, ended) && p in pool.mem && y.serial !in ended && Nowhere(pool.mem, y.serial)
    ensures Distinct(pool.(mem := pool.mem[p := Some(y)]), ended)
  {
  }

  // ---- threads that move ----

  lemma OnceOther(threads: map<Tid, Pc>, ended: set<nat>, ended': set<nat>, copies: seq<Copy>, t: Tid, pc: Pc)
    requires OnceEach(threads, ended, copies) && !Hands(pc) && ended <= ended'
    ensures OnceEach(threads[t := pc], ended', copies)
  {
  }

  lemma OnceErased(threads: map<Tid, Pc>, ended: set<nat>, copies: seq<Copy>, t: Tid, pc: Pc)
    requires OnceEach(threads, ended, copies) && pc.Copying? && pc.erased && (pc.was.Some? ==> pc.was.value.serial !in ended)
    ensures OnceEach(threads[t := pc], ended + if pc.was.Some? then {pc.was.value.serial} else {}, copies)
  {
  }

  lemma OnceCopied(threads: map<Tid, Pc>, ended: set<nat>, copies: seq<Copy>, t: Tid, c: Copy)
    requires OnceEach(threads, ended, copies) && t in threads && threads[t].Copying?
    requires c.was == threads[t].was && c.erased == threads[t].erased
    requires Handed(c) ==> (c.got == Value(c.was) <==> c.quiet)
    ensures OnceEach(threads[t := Idle], ended, copies + [c])
  {
  }

  lemma UnwrittenOther(pool: Pool<nat, Entry>, threads: map<Tid, Pc>, count: nat, ended: set<nat>, t: Tid, pc: Pc)
    requires Unwritten(pool, threads, count, ended) && !pc.Filling?
    ensures Unwritten(pool, threads[t := pc], count, ended)
  {
  }

  lemma UnwrittenYield(pool: Pool<nat, Entry>, pool': Pool<nat, Entry>, threads: map<Tid, Pc>, count: nat, ended: set<nat>,
                       t: Tid, p: Ptr, y: Yielded)
    requires Unwritten(pool, threads, count, ended) && y.serial == count
    requires forall q | q in pool'.mem && pool'.mem[q].Some? :: q in pool.mem && pool'.mem[q] == pool.mem[q]
    ensures Unwritten(pool', threads[t := Filling(p, y)], count + 1, ended)
  {
  }

  lemma UnwrittenFilled(pool: Pool<nat, Entry>, threads: map<Tid, Pc>, count: nat, ended: set<nat>, t: Tid, p: Ptr, y: Yielded)
    requires Unwritten(pool, threads, count, ended) && t in threads && threads[t] == Filling(p, y)
    ensures y.serial !in ended && Nowhere(pool.mem, y.serial)
    ensures Unwritten(pool.(mem := pool.mem[p := Some(y)]), threads[t := Idle], count, ended)
  {
  }

  lemma UnwrittenErased(pool: Pool<nat, Entry>, pool': Pool<nat, Entry>, threads: map<Tid, Pc>, count: nat, ended: set<nat>,
                        t: Tid, pc: Pc, e: Ptr)
    requires Unwritten(pool, threads, count, ended) && !pc.Filling? && e in pool.mem
    requires forall q | q in pool'.mem :: q in pool.mem && pool'.mem[q] == pool.mem[q]
    ensures
      var was := pool.mem[e];
      Unwritten(pool', threads[t := pc], count, ended + if was.Some? then {was.value.serial} else {})
  {
  }

  // ---- steps keep the invariant ----

  lemma AllocInv(s: State, s': State, t: Tid, y: Yielded, e: Ptr)
    requires Inv(s) && Alloc(s, s', t, y, e)
    ensures Inv(s')
  {
    hide CopyOk, Distinct, PoolOk, CanTake, Unwritten, OnceEach, Take, Inc;
    TakeOk(s.pool, y.msgid, e, None);
    DistinctAfterTake(s.pool, s.ended, y.msgid, e);
    TakeMem(s.pool, y.msgid, e);
    UnwrittenYield(s.pool, s'.pool, s.threads, s.count, s.ended, t, e, y);
    OnceOther(s.threads, s.ended, s.ended, s.copies, t, Filling(e, y));
    forall u | u in s'.threads && s'.threads[u].Copying?
      ensures CopyOk(s'.pool, s'.takes, s'.fills, s'.ended, s'.threads[u])
    {
      CopyAfterTake(s.pool, s.takes, s.fills, s.ended, s.threads[u], y.msgid, e);
    }
  }

  lemma TakeMem(pool: Pool<nat, Entry>, k: nat, e: Ptr)
    ensures
      var mem := Take(pool, k, e, None).mem;
      forall q | q in mem && mem[q].Some? :: q in pool.mem && mem[q] == pool.mem[q]
  {
  }

  lemma ReuseInv(s: State, s': State, t: Tid, y: Yielded)
    requires Inv(s) && Reuse(s, s', t, y)
    ensures Inv(s')
  {
    hide CopyOk, Distinct, PoolOk, Unwritten, OnceEach;
    UnwrittenYield(s.pool, s.pool, s.threads, s.count, s.ended, t, s.pool.at[y.msgid], y);
    OnceOther(s.threads, s.ended, s.ended, s.copies, t, s'.threads[t]);
  }

  lemma FillInv(s: State, s': State, t: Tid, p: Ptr, y: Yielded)
    requires Inv(s) && Fill(s, s', t, p, y)
    ensures Inv(s')
  {
    hide CopyOk, Distinct, PoolOk, Unwritten, OnceEach, Inc, Nowhere;
    OnceOther(s.threads, s.ended, s.ended, s.copies, t, Idle);
    UnwrittenOther(s.pool, s.threads, s.count, s.ended, t, Idle);
    UnwrittenFilled(s.pool, s.threads, s.count, s.ended, t, p, y);
    if p in s.pool.mem {
      FilledPool(s.pool, p, y);
      DistinctAfterFill(s.pool, s.ended, p, y);
      forall u | u in s'.threads && s'.threads[u].Copying?
        ensures CopyOk(s'.pool, s'.takes, s'.fills, s'.ended, s'.threads[u])
      {
        CopyAfterFill(s.pool, s.takes, s.fills, s.ended, s.threads[u], p, y);
      }
    }
  }

  lemma FilledPool(pool: Pool<nat, Entry>, p: Ptr, y: Yielded)
    requires PoolOk(pool)
    ensures PoolOk(pool.(mem := pool.mem[p := Some(y)]))
  {
  }

  /** Erasing an entry, when the thread goes on to pc. */
  lemma ErasedInv(s: State, t: Tid, k: nat, pc: Pc)
    requires Inv(s) && k in s.pool.at
    requires
      var e := s.pool.at[k];
      && e in s.pool.mem
      && (pc == Idle || pc == Copying(e, s.pool.mem[e], true, GivesBack(s.pool, e), Count(s.takes, e), Count(s.fills, e)))
    ensures Inv(Erased(s, t, k, pc))
  {
    hide CopyOk, Distinct, PoolOk, GivesBack, Erase, Unwritten, OnceEach, Count;
    EraseOk(s.pool, k);
    DistinctAfterErase(s.pool, s.ended, k);
    CopyStarts(s.pool, s.takes, s.fills, s.ended, k);
    EraseMem(s.pool, k);
    var s' := Erased(s, t, k, pc);
    UnwrittenErased(s.pool, s'.pool, s.threads, s.count, s.ended, t, pc, s.pool.at[k]);
    if pc == Idle {
      OnceOther(s.threads, s.ended, s'.ended, s.copies, t, Idle);
    } else {
      OnceErased(s.threads, s.ended, s.copies, t, pc);
    }
    forall u | u in s'.threads && s'.threads[u].Copying?
      ensures CopyOk(s'.pool, s'.takes, s'.fills, s'.ended, s'.threads[u])
    {
      if u != t { CopyAfterErase(s.pool, s.takes, s.fills, s.ended, s'.ended, s.threads[u], k); }
    }
  }

  lemma EraseMem(pool: Pool<nat, Entry>, k: nat)
    requires k in pool.at
    ensures forall p | p in Erase(pool, k).mem :: p in pool.mem && Erase(pool, k).mem[p] == pool.mem[p]
  {
  }

  /** A thread moves on without touching the table. */
  lemma MovedInv(s: State, t: Tid, pc: Pc, b: bool)
    requires Inv(s) && !pc.Filling? && !Hands(pc) && (pc.Copying? ==> CopyOk(s.pool, s.takes, s.fills, s.ended, pc))
    ensures Inv(Set(s, t, pc).(broken := b))
  {
    hide CopyOk, Distinct, PoolOk, Unwritten, OnceEach;
    UnwrittenOther(s.pool, s.threads, s.count, s.ended, t, pc);
    OnceOther(s.threads, s.ended, s.ended, s.copies, t, pc);
  }

  lemma FindInv(s: State, s': State, t: Tid, k: nat, checked: bool, removable: bool)
    requires Inv(s) && Find(s, s', t, k, checked, removable)
    ensures Inv(s')
  {
    hide Inv, CopyOk, Erase, GivesBack, Erased;
    if k !in s.pool.at {
      MovedInv(s, t, Idle, s.broken);
    } else {
      var e := s.pool.at[k];
      var was := s.pool.mem[e];
      if checked && was == None {
        MovedInv(s, t, Idle, true);
      } else if checked && !removable {
        LooseCopy(s, e, was);
        MovedInv(s, t, Copying(e, was, false, false, Count(s.takes, e), Count(s.fills, e)), s.broken);
      } else {
        ErasedInv(s, t, k, Copying(e, was, true, GivesBack(s.pool, e), Count(s.takes, e), Count(s.fills, e)));
      }
    }
  }

  lemma LooseCopy(s: State, e: Ptr, was: Entry)
    ensures CopyOk(s.pool, s.takes, s.fills, s.ended, Copying(e, was, false, false, Count(s.takes, e), Count(s.fills, e)))
  {
  }

  lemma CopyInv(s: State, s': State, t: Tid)
    requires Inv(s) && CopyValue(s, s', t)
    ensures Inv(s')
  {
    hide CopyOk, Distinct, PoolOk, Unwritten, OnceEach, Quiet;
    var c := s.threads[t];
    SoundIff(s, c);
    UnwrittenOther(s.pool, s.threads, s.count, s.ended, t, Idle);
    OnceCopied(s.threads, s.ended, s.copies, t, Copy(c.was, CopyFrom(s.pool.mem, c.p), c.erased, Quiet(s, c)));
  }

  lemma SoundIff(s: State, c: Pc)
    requires c.Copying? && CopyOk(s.pool, s.takes, s.fills, s.ended, c)
    ensures Hands(c) ==> (CopyFrom(s.pool.mem, c.p) == Value(c.was) <==> Quiet(s, c))
  {
  }

  lemma LookInv(s: State, s': State, t: Tid, p: Ptr, now: nat)
    requires Inv(s) && Look(s, s', t, p, now)
    ensures Inv(s')
  {
    hide Inv, CopyOk;
    if s' != s { MovedInv(s, t, s'.threads[t], s.broken); }
  }

  lemma StepInv(s: State, s': State, step: Step)
    requires Inv(s) && NextStep(s, s', step)
    ensures Inv(s')
  {
    hide Inv, Alloc, Reuse, Fill, Find, CopyValue, Look;
    match step
    case AllocStep(t, y, e) => AllocInv(s, s', t, y, e);
    case ReuseStep(t, y) => ReuseInv(s, s', t, y);
    case FillStep(t, p, y) => FillInv(s, s', t, p, y);
    case FindStep(t, k, checked, removable) => FindInv(s, s', t, k, checked, removable);
    case CopyStep(t) => CopyInv(s, s', t);
    case LookStep(t, p, now) => LookInv(s, s', t, p, now);
    case ForgetStep(t, k) => ErasedInv(s, t, k, Idle);
  }

  lemma {:induction false} RunInv(run: seq<State>, i: nat)
    requires Run(run) && i < |run|
    ensures Inv(run[i])
  {
    hide Inv, NextStep;
    if i == 0 {
      InitInv(run[0]);
    } else {
      RunInv(run, i - 1);
      assert Next(run[i - 1], run[i]);
      var step :| NextStep(run[i - 1], run[i], step);
      StepInv(run[i - 1], run[i], step);
    }
  }

  // ---- what it gives ----

  /** The value read through the pointer that remove returned is the one that was removed
      exactly when the element was not given back to the heap and, since then, no allocation
      took it and no late `set` wrote it. */
  lemma CopyIsSoundIff(run: seq<State>, i: nat, t: Tid)
    requires Run(run) && i < |run| && t in run[i].threads && Hands(run[i].threads[t])
    ensures
      var c := run[i].threads[t];
      CopyFrom(run[i].pool.mem, c.p) == Value(c.was) <==> Quiet(run[i], c)
  {
    hide Run, CopyOk;
    RunInv(run, i);
    SoundIff(run[i], run[i].threads[t]);
  }

  /** Whether the element is given back is decided by the half-use rule when it is erased. */
  lemma BackIff(s: State, s': State, t: Tid, k: nat, checked: bool, removable: bool)
    requires Find(s, s', t, k, checked, removable) && k in s.pool.at && s'.threads[t].Copying? && s'.threads[t].erased
    ensures s'.threads[t].p == s.pool.at[k] && s'.threads[t].was == s.pool.mem[s.pool.at[k]]
    ensures s'.threads[t].back <==> s.pool.at[k] in s.pool.heap && s.pool.max / 2 >= s.pool.use
  {
  }

  /** Every copy of an erased entry read what had been erased exactly when it was quiet. */
  lemma EveryCopyIff(run: seq<State>, i: nat, n: nat)
    requires Run(run) && i < |run| && n < |run[i].copies| && Handed(run[i].copies[n])
    ensures run[i].copies[n].got == Value(run[i].copies[n].was) <==> run[i].copies[n].quiet
  {
    RunInv(run, i);
    hide Run, CopyOk, Distinct, Unwritten, PoolOk;
  }

  /** A removable yield is resumed at most once, by a response, an event or a timeout, as long
      as every copy so far was quiet. */
  lemma ResumedAtMostOnce(run: seq<State>, i: nat, m: nat, n: nat)
    requires Run(run) && i < |run| && m < n < |run[i].copies|
    requires forall j | 0 <= j < |run[i].copies| && Handed(run[i].copies[j]) :: run[i].copies[j].quiet
    requires Handed(run[i].copies[m]) && Handed(run[i].copies[n])
    ensures
      var a, b := run[i].copies[m].got, run[i].copies[n].got;
      && a.Value? && a.v.Some? && b.Value? && b.v.Some? && a.v.value.serial != b.v.value.serial
      && {a.v.value.serial, b.v.value.serial} <= run[i].ended
  {
    RunInv(run, i);
    EveryCopyIff(run, i, m);
    EveryCopyIff(run, i, n);
    hide Run, CopyOk, Distinct, Unwritten, PoolOk;
  }

  // ---- callers that keep to the protocol ----

  /** Message ids are new, and an entry is not looked for before its yield has returned. */
  ghost predicate Orderly(s: State, step: Step) {
    match step
    case ReuseStep(_, _) => false
    case FindStep(_, k, _, _) => k in s.pool.at ==> !BeingFilled(s.threads, s.pool.at[k])
    case ForgetStep(_, k) => k in s.pool.at ==> !BeingFilled(s.threads, s.pool.at[k])
    case _ => true
  }

  ghost predicate BeingFilled(threads: map<Tid, Pc>, p: Ptr) {
    exists t :: t in threads && threads[t].Filling? && threads[t].p == p
  }

  ghost predicate OrderlyNext(s: State, s': State) {
    exists step :: NextStep(s, s', step) && Orderly(s, step)
  }

  ghost predicate OrderlyRun(run: seq<State>) {
    && run != [] && Init(run[0])
    && forall i | 0 < i < |run| :: OrderlyNext(run[i - 1], run[i])
  }

  lemma OrderlyIsRun(run: seq<State>)
    requires OrderlyRun(run)
    ensures Run(run)
  {
    forall i | 0 < i < |run|
      ensures Next(run[i - 1], run[i])
    {
      assert OrderlyNext(run[i - 1], run[i]);
      var step :| NextStep(run[i - 1], run[i], step) && Orderly(run[i - 1], step);
    }
  }

  /** A yield fills its own entry, and an entry that is not filled has its yield under way. */
  ghost predicate FillersOk(pool: Pool<nat, Entry>, threads: map<Tid, Pc>) {
    && (forall t | t in threads && threads[t].Filling? ::
          threads[t].y.msgid in pool.at && pool.at[threads[t].y.msgid] == threads[t].p)
    && (forall k | k in pool.at && pool.at[k] in pool.mem && pool.mem[pool.at[k]] == None :: BeingFilled(threads, pool.at[k]))
  }

  /** An erased element that was not allocated again was not written either. */
  ghost predicate NotLate(threads: map<Tid, Pc>, takes: map<Ptr, nat>, fills: map<Ptr, nat>) {
    forall t | t in threads && threads[t].Copying? && threads[t].erased && Count(takes, threads[t].p) == threads[t].taken ::
      Count(fills, threads[t].p) == threads[t].filled
  }

  ghost predicate OrderlyInv(s: State) {
    Inv(s) && FillersOk(s.pool, s.threads) && NotLate(s.threads, s.takes, s.fills) && !s.broken
  }

  lemma FillersAfterAlloc(pool: Pool<nat, Entry>, threads: map<Tid, Pc>, t: Tid, y: Yielded, e: Ptr)
    requires FillersOk(pool, threads) && t in threads && threads[t] == Idle && y.msgid !in pool.at && CanTake(pool, e) && PoolOk(pool)
    ensures FillersOk(Take(pool, y.msgid, e, None), threads[t := Filling(e, y)])
  {
    var threads' := threads[t := Filling(e, y)];
    assert threads'[t].Filling? && threads'[t].p == e;
    forall k | k in pool.at && pool.at[k] in pool.mem && pool.mem[pool.at[k]] == None
      ensures BeingFilled(threads', pool.at[k])
    {
      var u :| u in threads && threads[u].Filling? && threads[u].p == pool.at[k];
      assert threads'[u] == threads[u];
    }
  }

  lemma FillersAfterFill(pool: Pool<nat, Entry>, threads: map<Tid, Pc>, t: Tid, p: Ptr, y: Yielded)
    requires FillersOk(pool, threads) && t in threads && threads[t] == Filling(p, y)
    ensures FillersOk(pool.(mem := pool.mem[p := Some(y)]), threads[t := Idle])
  {
    forall k | k in pool.at && pool.at[k] in pool.mem && pool.at[k] != p && pool.mem[pool.at[k]] == None
      ensures BeingFilled(threads[t := Idle], pool.at[k])
    {
      var u :| u in threads && threads[u].Filling? && threads[u].p == pool.at[k];
      assert threads[t := Idle][u] == threads[u];
    }
  }

  lemma FillersAfterMove(pool: Pool<nat, Entry>, threads: map<Tid, Pc>, t: Tid, pc: Pc)
    requires FillersOk(pool, threads) && t in threads && !threads[t].Filling? && !pc.Filling?
    ensures FillersOk(pool, threads[t := pc])
  {
    forall k | k in pool.at && pool.at[k] in pool.mem && pool.mem[pool.at[k]] == None
      ensures BeingFilled(threads[t := pc], pool.at[k])
    {
      var u :| u in threads && threads[u].Filling? && threads[u].p == pool.at[k];
      assert threads[t := pc][u] == threads[u];
    }
  }

  lemma FillersAfterErase(pool: Pool<nat, Entry>, threads: map<Tid, Pc>, k: nat)
    requires FillersOk(pool, threads) && k in pool.at && !BeingFilled(threads, pool.at[k])
    ensures FillersOk(Erase(pool, k), threads)
  {
    EraseMem(pool, k);
    forall t | t in threads && threads[t].Filling?
      ensures threads[t].y.msgid != k
    {
    }
  }

  lemma FillIsNotLate(s: State, t: Tid, p: Ptr, y: Yielded)
    requires OrderlyInv(s) && t in s.threads && s.threads[t] == Filling(p, y)
    ensures p in s.pool.mem && NotLate(s.threads[t := Idle], s.takes, Inc(s.fills, p))
  {
    assert s.pool.at[y.msgid] == p;
    forall u | u in s.threads && s.threads[u].Copying? && s.threads[u].erased && Count(s.takes, s.threads[u].p) == s.threads[u].taken
      ensures s.threads[u].p != p
    {
      assert CopyOk(s.pool, s.takes, s.fills, s.ended, s.threads[u]);
    }
  }

  lemma AllocIsNotLate(s: State, t: Tid, pc: Pc, e: Ptr)
    requires CopiesOk(s) && NotLate(s.threads, s.takes, s.fills) && !pc.Copying?
    ensures NotLate(s.threads[t := pc], Inc(s.takes, e), s.fills)
  {
    forall u | u in s.threads && s.threads[u].Copying?
      ensures s.threads[u].taken <= Count(s.takes, s.threads[u].p)
    {
      assert CopyOk(s.pool, s.takes, s.fills, s.ended, s.threads[u]);
    }
  }

  lemma MoveIsNotLate(s: State, t: Tid, pc: Pc)
    requires NotLate(s.threads, s.takes, s.fills)
    requires pc.Copying? && pc.erased ==> Count(s.fills, pc.p) == pc.filled
    ensures NotLate(s.threads[t := pc], s.takes, s.fills)
  {
  }

  lemma OrderlyFind(s: State, s': State, t: Tid, k: nat, checked: bool, removable: bool)
    requires OrderlyInv(s) && Find(s, s', t, k, checked, removable) && Orderly(s, FindStep(t, k, checked, removable))
    ensures FillersOk(s'.pool, s'.threads) && NotLate(s'.threads, s'.takes, s'.fills) && !s'.broken
  {
    hide Inv, Erase, GivesBack, NotLate, BeingFilled;
    if k in s.pool.at { NotBlank(s, k); }
    hide FillersOk;
    FillersAfterMove(s.pool, s.threads, t, s'.threads[t]);
    MoveIsNotLate(s, t, s'.threads[t]);
    if k in s.pool.at && s'.threads[t].Copying? && s'.threads[t].erased {
      FillersAfterErase(s.pool, s.threads, k);
      FillersAfterMove(Erase(s.pool, k), s.threads, t, s'.threads[t]);
    }
  }

  lemma NotBlank(s: State, k: nat)
    requires FillersOk(s.pool, s.threads) && k in s.pool.at && s.pool.at[k] in s.pool.mem && !BeingFilled(s.threads, s.pool.at[k])
    ensures s.pool.mem[s.pool.at[k]].Some?
  {
  }

  lemma OrderlyForget(s: State, s': State, t: Tid, k: nat)
    requires OrderlyInv(s) && Forget(s, s', t, k) && Orderly(s, ForgetStep(t, k))
    ensures FillersOk(s'.pool, s'.threads) && NotLate(s'.threads, s'.takes, s'.fills) && !s'.broken
  {
    hide Inv, Erase, GivesBack, NotLate, BeingFilled, FillersOk;
    FillersAfterErase(s.pool, s.threads, k);
    FillersAfterMove(Erase(s.pool, k), s.threads, t, Idle);
    MoveIsNotLate(s, t, Idle);
  }

  lemma OrderlyStep(s: State, s': State, step: Step)
    requires OrderlyInv(s) && NextStep(s, s', step) && Orderly(s, step)
    ensures OrderlyInv(s')
  {
    hide PoolOk, Unwritten, Distinct, CopiesOk, OnceEach, FillersOk, NotLate, Find, Forget, Take, Inc, BeingFilled, CanTake, CopyFrom, Quiet;
    StepInv(s, s', step);
    match step
    case AllocStep(t, y, e) =>
      FillersAfterAlloc(s.pool, s.threads, t, y, e);
      AllocIsNotLate(s, t, Filling(e, y), e);
    case FillStep(t, p, y) =>
      FillersAfterFill(s.pool, s.threads, t, p, y);
      FillIsNotLate(s, t, p, y);
    case FindStep(t, k, checked, removable) => OrderlyFind(s, s', t, k, checked, removable);
    case CopyStep(t) =>
      FillersAfterMove(s.pool, s.threads, t, Idle);
      MoveIsNotLate(s, t, Idle);
    case LookStep(t, p, now) =>
      FillersAfterMove(s.pool, s.threads, t, s'.threads[t]);
      MoveIsNotLate(s, t, s'.threads[t]);
    case ForgetStep(t, k) => OrderlyForget(s, s', t, k);
    case ReuseStep(t, y) =>
  }

  lemma {:induction false} OrderlyRunInv(run: seq<State>, i: nat)
    requires OrderlyRun(run) && i < |run|
    ensures OrderlyInv(run[i])
  {
    hide NextStep, Orderly, Inv;
    if i == 0 {
      InitInv(run[0]);
      OrderlyStarts(run[0]);
    } else {
      OrderlyRunInv(run, i - 1);
      hide OrderlyInv;
      assert OrderlyNext(run[i - 1], run[i]);
      var step :| NextStep(run[i - 1], run[i], step) && Orderly(run[i - 1], step);
      OrderlyStep(run[i - 1], run[i], step);
    }
  }

  lemma OrderlyStarts(s: State)
    requires Init(s)
    ensures FillersOk(s.pool, s.threads) && NotLate(s.threads, s.takes, s.fills) && !s.broken
  {
  }

  /** When message ids are new and no one asks for an entry before its yield has returned,
      the copy is sound exactly when the element was not given back and no allocation took
      it before the copy. */
  lemma OrderlyCopyIff(run: seq<State>, i: nat, t: Tid)
    requires OrderlyRun(run) && i < |run| && t in run[i].threads && Hands(run[i].threads[t])
    ensures
      var c := run[i].threads[t];
      CopyFrom(run[i].pool.mem, c.p) == Value(c.was) <==> !c.back && Count(run[i].takes, c.p) == c.taken
  {
    hide Run, OrderlyRun, Inv, FillersOk;
    OrderlyIsRun(run);
    OrderlyRunInv(run, i);
    CopyIsSoundIff(run, i, t);
  }

  /** And no thread follows a null fiber or fills memory given back. */
  lemma OrderlyNeverBroken(run: seq<State>, i: nat)
    requires OrderlyRun(run) && i < |run|
    ensures !run[i].broken
  {
    OrderlyRunInv(run, i);
  }

  // ---- a run that fails ----

  /** Fiber 7 waits for message 1, and fiber 8 for message 2. */
  function Seven(): Yielded { Yielded(7, 1, 5, 0) }
  function Eight(): Yielded { Yielded(8, 2, 5, 1) }

  /** A table with one element and two threads. */
  function TwoThreads(): State {
    State(Pool(map[], map[0 := None], [0], {}, 1, 0), map[0 := Idle, 1 := Idle], 0, map[], map[], {}, [], false)
  }

  /** Where the two threads stand, and what the element holds. */
  predicate Stand(s: State, a: Pc, b: Pc, at: map<nat, Ptr>, entry: Entry, taken: nat, filled: nat, count: nat, copies: seq<Copy>) {
    && s.threads.Keys == {0, 1} && s.threads[0] == a && s.threads[1] == b && !s.broken
    && s.pool.at == at && s.pool.mem == map[0 := entry] && s.pool.heap == {}
    && s.pool.free == (if at == map[] then [0] else [])
    && Count(s.takes, 0) == taken && Count(s.fills, 0) == filled && s.count == count && s.copies == copies
  }

  lemma StepsOn(s: State, s': State, step: Step)
    requires match step
      case AllocStep(t, y, e) => Alloc(s, s', t, y, e)
      case FillStep(t, p, y) => Fill(s, s', t, p, y)
      case FindStep(t, k, checked, removable) =>
        Find(s, s', t, k, checked, removable) && forall u | u in s.threads :: !s.threads[u].Filling?
      case CopyStep(t) => CopyValue(s, s', t)
      case _ => false
    ensures OrderlyNext(s, s')
  {
    hide Alloc, Fill, Find, CopyValue;
    assert NextStep(s, s', step) && Orderly(s, step);
  }

  /** The yield of thread t takes the element and fills it. */
  lemma Waits(s: State, t: Tid, y: Yielded, a: Pc, b: Pc, before: Entry, taken: nat, filled: nat)
    returns (mid: State, s': State)
    requires Stand(s, a, b, map[], before, taken, filled, y.serial, []) && (t == 0 || t == 1) && s.threads[t] == Idle
    requires !a.Filling? && !b.Filling?
    ensures OrderlyNext(s, mid) && OrderlyNext(mid, s')
    ensures Stand(s', a, b, map[y.msgid := 0], Some(y), taken + 1, filled + 1, y.serial + 1, [])
  {
    hide OrderlyNext, Orderly, NextStep;
    mid := Set(s, t, Filling(0, y)).(pool := Take(s.pool, y.msgid, 0, None), takes := Inc(s.takes, 0), count := s.count + 1);
    StepsOn(s, mid, AllocStep(t, y, 0));
    s' := Set(mid, t, Idle).(pool := mid.pool.(mem := mid.pool.mem[0 := Some(y)]), fills := Inc(mid.fills, 0));
    StepsOn(mid, s', FillStep(t, 0, y));
  }

  /** Thread t finds the entry of y and erases it. */
  lemma Erases(s: State, t: Tid, y: Yielded, a: Pc, b: Pc, taken: nat, filled: nat, count: nat, copies: seq<Copy>) returns (s': State)
    requires Stand(s, a, b, map[y.msgid := 0], Some(y), taken, filled, count, copies) && (t == 0 || t == 1) && s.threads[t] == Idle
    requires !a.Filling? && !b.Filling?
    ensures OrderlyNext(s, s')
    ensures
      var c := Copying(0, Some(y), true, false, taken, filled);
      Stand(s', if t == 0 then c else a, if t == 1 then c else b, map[], Some(y), taken, filled, count, copies)
  {
    hide OrderlyNext, Orderly, NextStep;
    s' := Erased(s, t, y.msgid, Copying(0, Some(y), true, false, taken, filled));
    assert map[y.msgid := 0] - {y.msgid} == map[];
    StepsOn(s, s', FindStep(t, y.msgid, true, true));
  }

  /** Thread t makes its copy. */
  lemma Copies(s: State, t: Tid, a: Pc, b: Pc, at: map<nat, Ptr>, entry: Entry, taken: nat, filled: nat, count: nat, copies: seq<Copy>)
    returns (s': State)
    requires Stand(s, a, b, at, entry, taken, filled, count, copies) && (t == 0 || t == 1) && s.threads[t].Copying? && s.threads[t].p == 0
    ensures OrderlyNext(s, s')
    ensures
      var c := s.threads[t];
      Stand(s', if t == 0 then Idle else a, if t == 1 then Idle else b, at, entry, taken, filled, count,
            copies + [Copy(c.was, Value(entry), c.erased, Quiet(s, c))])
  {
    hide OrderlyNext, Orderly, NextStep, Quiet;
    var c := s.threads[t];
    s' := Set(s, t, Idle).(copies := s.copies + [Copy(c.was, CopyFrom(s.pool.mem, c.p), c.erased, Quiet(s, c))]);
    StepsOn(s, s', CopyStep(t));
  }

  /** In a run where every caller keeps to the protocol, fiber 8 is resumed twice for good and
      fiber 7 never, although each entry was erased once: between the erasure of 7 and its
      copy, the element is allocated for 8. */
  lemma ResumedTwice() returns (run: seq<State>)
    ensures OrderlyRun(run)
    ensures
      var copies := run[|run| - 1].copies;
      && |copies| == 2 && copies[0].erased && copies[1].erased
      && copies[0].was == Some(Seven()) && copies[0].got == copies[1].got == Value(Some(Eight()))
  {
    hide OrderlyNext, Stand, Quiet, Init;
    Starts();
    var s0 := TwoThreads();
    var s1, s2 := Waits(s0, 0, Seven(), Idle, Idle, None, 0, 0);
    Threads(s2, Idle, Idle, map[1 := 0], Some(Seven()), 1, 1, 1, []);
    var s3 := Erases(s2, 0, Seven(), Idle, Idle, 1, 1, 1, []);
    var c := Copying(0, Some(Seven()), true, false, 1, 1);
    Threads(s3, c, Idle, map[], Some(Seven()), 1, 1, 1, []);
    var s4, s5 := Waits(s3, 1, Eight(), c, Idle, Some(Seven()), 1, 1);
    Threads(s5, c, Idle, map[2 := 0], Some(Eight()), 2, 2, 2, []);
    var s6 := Copies(s5, 0, c, Idle, map[2 := 0], Some(Eight()), 2, 2, 2, []);
    var copies := [] + [Copy(Some(Seven()), Value(Some(Eight())), true, Quiet(s5, c))];
    Threads(s6, Idle, Idle, map[2 := 0], Some(Eight()), 2, 2, 2, copies);
    var s7 := Erases(s6, 1, Eight(), Idle, Idle, 2, 2, 2, copies);
    var d := Copying(0, Some(Eight()), true, false, 2, 2);
    Threads(s7, Idle, d, map[], Some(Eight()), 2, 2, 2, copies);
    var s8 := Copies(s7, 1, Idle, d, map[], Some(Eight()), 2, 2, 2, copies);
    var all := copies + [Copy(Some(Eight()), Value(Some(Eight())), true, Quiet(s7, d))];
    Threads(s8, Idle, Idle, map[], Some(Eight()), 2, 2, 2, all);
    run := [s0, s1, s2, s3, s4, s5, s6, s7, s8];
  }

  lemma Starts()
    ensures Init(TwoThreads()) && Stand(TwoThreads(), Idle, Idle, map[], None, 0, 0, 0, [])
  {
  }

  lemma Threads(s: State, a: Pc, b: Pc, at: map<nat, Ptr>, entry: Entry, taken: nat, filled: nat, count: nat, copies: seq<Copy>)
    requires Stand(s, a, b, at, entry, taken, filled, count, copies)
    ensures 0 in s.threads && 1 in s.threads && s.threads[0] == a && s.threads[1] == b && s.copies == copies
  {
  }
}
