/** The inductive invariant of the queue machine, stated part by part over the
    components each part depends on. */
module QueueInvariant {
  import opened Common
  import opened QueueProtocol

  function Values(e: seq<Entry>): (v: seq<Task>)
    ensures |v| == |e| && forall i | 0 <= i < |e| :: v[i] == e[i].val
  {
    seq(|e|, i requires 0 <= i < |e| => e[i].val)
  }

  /** The values thread t published, in publication order. */
  function PushedBy(e: seq<Entry>, t: Tid): seq<Task> {
    if e == [] then []
    else
      var last := e[|e| - 1];
      PushedBy(e[..|e| - 1], t) + if last.tid == t then [last.val] else []
  }

  /** The number of a slot, counted from the first slot of the run. */
  function Number(base: map<Chunk, nat>, p: Loc): int {
    if p.chunk in base then base[p.chunk] + p.pos else -1
  }

  /** The slot a thread holds between its fetch-and-add and its publication. */
  function Slot(w: Chunk, cap: nat, p: Producer): Option<Loc> {
    match p
    case Reserved(_, n) => if n >= 1 then Some(Loc(w, n - 1)) else None
    case Aimed(_, p, _) => Some(p)
    case Written(_, p, _) => Some(p)
    case Last(_) => if cap >= 1 then Some(Loc(w, cap - 1)) else None
    case LastAimed(_, p) => Some(p)
    case LastWritten(_, p) => Some(p)
    case Expanding(_, p, _) => Some(p)
    case Linked(_, p, _) => Some(p)
    case Turn(_, p, _) => Some(p)
    case Moved(_, p, _) => Some(p)
    case _ => None
  }

  predicate Stored(p: Producer) {
    p.Written? || p.LastWritten? || p.Expanding? || p.Linked? || p.Turn? || p.Moved?
  }

  predicate HoldsLast(p: Producer) {
    p.Last? || p.LastAimed? || p.LastWritten? || p.Expanding? || p.Linked? || p.Turn? || p.Moved? || p.Swapped?
  }

  /** The last chunk of the live list. */
  function Tail(w: Chunk, producers: map<Tid, Producer>, swapper: Option<Tid>): Chunk {
    if swapper.Some? && swapper.value in producers then
      match producers[swapper.value]
      case Linked(_, _, nx) => nx.chunk
      case Turn(_, _, nx) => nx.chunk
      case _ => w
    else w
  }

  /** Every chunk but the last is linked to the one that holds the next slots. */
  ghost predicate Consecutive(base: map<Chunk, nat>, next: map<Chunk, Option<Chunk>>, cap: nat, tail: Chunk) {
    forall c {:trigger next[c]} | c in base && c in next && c != tail ::
      next[c].Some? && next[c].value in base && base[next[c].value] == base[c] + cap
  }

  /** Chunk r comes first and chunk tail last. */
  ghost predicate Bounded(base: map<Chunk, nat>, r: Chunk, tail: Chunk) {
    r in base && tail in base && forall c | c in base :: base[r] <= base[c] <= base[tail]
  }

  /** No two chunks share a slot number. */
  ghost predicate Spaced(base: map<Chunk, nat>, cap: nat) {
    forall c, d | c in base && d in base && c != d :: base[c] + cap <= base[d] || base[d] + cap <= base[c]
  }

  /** The live list: consecutive chunks hold consecutive runs of `cap` slots. */
  ghost predicate LiveList(base: map<Chunk, nat>, next: map<Chunk, Option<Chunk>>, cap: nat,
                           r: Chunk, w: Chunk, tail: Chunk) {
    && base.Keys <= next.Keys
    && r in base && w in base && tail in base && next[tail] == None
    && Bounded(base, r, tail) && Consecutive(base, next, cap, tail) && Spaced(base, cap)
  }

  ghost predicate Chain(next: map<Chunk, Option<Chunk>>, head: Option<Chunk>, list: seq<Chunk>)
    decreases list
  {
    if list == [] then head == None
    else head == Some(list[0]) && list[0] in next && Chain(next, next[list[0]], list[1..])
  }

  /** The free list: a chain of distinct allocated chunks outside the live list. */
  ghost predicate FreeList(base: map<Chunk, nat>, next: map<Chunk, Option<Chunk>>,
                           free: Option<Chunk>, cached: seq<Chunk>) {
    && Chain(next, free, cached)
    && (forall c | c in cached :: c in next && c !in base)
    && (forall i, j | 0 <= i < j < |cached| :: cached[i] != cached[j])
  }

  /** A chunk held privately by the consumer. */
  function Dropped(c: Consumer): Option<Chunk> {
    match c
    case Freeing(d) => Some(d)
    case Caching(d) => Some(d)
    case _ => None
  }

  ghost predicate ConsumerOk(s: State) {
    && s.r in s.base
    && s.head == (if s.consumer.Freeing? then s.consumer.dropped else s.r)
    && (Dropped(s.consumer).Some? ==>
          var d := Dropped(s.consumer).value;
          d in s.next && d !in s.base && d !in s.cached && (s.consumer.Freeing? ==> s.next[d] == Some(s.r)))
    && (match s.consumer
        case Ready => s.rp == Loc(s.r, s.rpos) && s.rpos < s.cap && |s.popped| == s.base[s.r] + s.rpos
        case Reading => s.rp == Loc(s.r, s.rpos) && s.rpos < s.cap && |s.popped| == s.base[s.r] + s.rpos
                        && |s.popped| < |s.published|
        case Taken => 1 <= s.rpos < s.cap && |s.popped| == s.base[s.r] + s.rpos
        case TakenLast => s.rpos == s.cap && |s.popped| == s.base[s.r] + s.cap
        case _ => |s.popped| == s.base[s.r])
  }

  ghost predicate History(log: seq<Entry>, published: seq<Entry>, popped: seq<Task>) {
    && |popped| <= |published| <= |log|
    && published == log[..|published|]
    && (forall i | 0 <= i < |popped| :: popped[i] == published[i].val)
  }

  ghost predicate Positions(s: State) {
    && s.w in s.base && s.wp.chunk in s.base && s.wp.pos < s.cap && Number(s.base, s.wp) == |s.published|
    && (match s.swapper
        case None => s.wpos < s.cap && |s.log| == s.base[s.w] + s.wpos
        case Some(t) =>
          && s.wpos >= s.cap && t in s.producers && HoldsLast(s.producers[t])
          && |s.log| == s.base[s.w] + (if s.producers[t].Moved? || s.producers[t].Swapped? then 0 else s.cap))
  }

  /** What a thread inside `mpush` depends on. */
  datatype View = View(w: Chunk, cap: nat, base: map<Chunk, nat>, next: map<Chunk, Option<Chunk>>,
                       cached: seq<Chunk>, dropped: Option<Chunk>, wp: Loc,
                       from: nat, log: seq<Entry>, data: map<Loc, Task>, swapper: Option<Tid>)

  function ViewOf(s: State): View {
    View(s.w, s.cap, s.base, s.next, s.cached, Dropped(s.consumer), s.wp, |s.published|, s.log, s.data, s.swapper)
  }

  /** Thread t holds the unpublished reservation its position says. */
  ghost predicate SlotOk(v: View, t: Tid, p: Producer) {
    Slot(v.w, v.cap, p).Some? ==>
      var l := Slot(v.w, v.cap, p).value;
      var a := Number(v.base, l);
      && l.chunk in v.base && l.pos < v.cap
      && v.from <= a < |v.log| && v.log[a] == Entry(t, p.val)
      && (Stored(p) ==> l in v.data && v.data[l] == p.val)
  }

  /** What holds of a thread by where it stands. */
  ghost predicate StageOk(v: View, p: Producer) {
    && v.w in v.base && v.w in v.next && v.cap >= 1
    && match p
        case Reserved(_, n) => 1 <= n < v.cap
        case Aimed(_, l, nx) => l.chunk == v.w && nx == Loc(v.w, l.pos + 1) && nx.pos < v.cap
        case Written(_, l, nx) => l.chunk == v.w && nx == Loc(v.w, l.pos + 1) && nx.pos < v.cap
        case LastAimed(_, l) => l == Loc(v.w, v.cap - 1)
        case LastWritten(_, l) => l == Loc(v.w, v.cap - 1) && v.next[v.w] == None
        case Expanding(_, l, c) =>
          && l == Loc(v.w, v.cap - 1) && v.next[v.w] == None && c in v.next && v.next[c] == None
          && c !in v.base && c !in v.cached && v.dropped != Some(c)
        case Linked(_, l, nx) => l == Loc(v.w, v.cap - 1) && nx.pos == 0 && v.next[v.w] == Some(nx.chunk)
        case Turn(_, l, nx) => l == Loc(v.w, v.cap - 1) && nx.pos == 0 && v.next[v.w] == Some(nx.chunk) && v.wp == l
        case Moved(_, l, nx) => l.chunk in v.base && l.pos == v.cap - 1
                                && v.base[l.chunk] + v.cap == v.base[v.w] && nx == Loc(v.w, 0)
        case Swapped(_) => v.from == |v.log|
        case _ => true
  }

  ghost predicate ThreadOk(v: View, t: Tid, p: Producer) {
    && (HoldsLast(p) <==> v.swapper == Some(t))
    && SlotOk(v, t, p)
    && StageOk(v, p)
  }

  ghost predicate Producers(v: View, producers: map<Tid, Producer>) {
    forall t | t in producers :: ThreadOk(v, t, producers[t])
  }

  /** Slot number a is held by thread t. */
  ghost predicate Held(t: Tid, a: int, producers: map<Tid, Producer>, w: Chunk, cap: nat, base: map<Chunk, nat>) {
    && t in producers && Slot(w, cap, producers[t]).Some?
    && Number(base, Slot(w, cap, producers[t]).value) == a
  }

  /** Every unpublished reservation is held by the thread that made it. */
  ghost predicate Holders(from: nat, log: seq<Entry>, producers: map<Tid, Producer>, w: Chunk, cap: nat, base: map<Chunk, nat>) {
    forall a {:trigger log[a]} | from <= a < |log| :: Held(log[a].tid, a, producers, w, cap, base)
  }

  /** Published slots that were not read yet hold the published values. */
  ghost predicate Contents(base: map<Chunk, nat>, cap: nat, data: map<Loc, Task>, from: nat, published: seq<Entry>) {
    forall l: Loc {:trigger l in data} | l.chunk in base && l.pos < cap && from <= base[l.chunk] + l.pos < |published| ::
      l in data && data[l] == published[base[l.chunk] + l.pos].val
  }

  /** Each thread's completed pushes are its published entries, in order. */
  ghost predicate Completed(published: seq<Entry>, producers: map<Tid, Producer>, done: map<Tid, seq<Task>>) {
    forall t | t in producers && t in done ::
      PushedBy(published, t) == done[t] + if producers[t].Swapped? then [producers[t].val] else []
  }

  ghost predicate Lists(s: State) {
    && s.cap >= 1
    && LiveList(s.base, s.next, s.cap, s.r, s.w, Tail(s.w, s.producers, s.swapper))
    && FreeList(s.base, s.next, s.free, s.cached)
  }

  ghost predicate Threads(s: State) {
    s.done.Keys == s.producers.Keys && Producers(ViewOf(s), s.producers)
  }

  /** The counters at both ends agree with the history of the run. */
  ghost predicate Ends(s: State) {
    && History(s.log, s.published, s.popped) && Positions(s) && ConsumerOk(s)
  }

  ghost predicate Inv(s: State) {
    && Lists(s) && Ends(s) && Threads(s)
    && Holders(|s.published|, s.log, s.producers, s.w, s.cap, s.base)
    && Contents(s.base, s.cap, s.data, |s.popped|, s.published)
    && Completed(s.published, s.producers, s.done)
  }

  lemma InitInv(s: State)
    requires Init(s)
    ensures Inv(s)
  {
  }

  /** A chain is not affected by writes to chunks outside it. */
  lemma ChainFrame(next: map<Chunk, Option<Chunk>>, next': map<Chunk, Option<Chunk>>, head: Option<Chunk>, list: seq<Chunk>)
    requires Chain(next, head, list)
    decreases list
    requires forall c | c in list :: c in next ==> c in next' && next'[c] == next[c]
    ensures Chain(next', head, list)
  {
    if list != [] {
      ChainFrame(next, next', next[list[0]], list[1..]);
    }
  }
}
