/** The chunked multi-producer queue as an interleaved step machine.

    Any number of threads run `mpush`; one thread runs `pop`.  A step makes at most
    one access to memory that another thread may change (the locked sections of
    `cache` and `free` are one step each), so every interleaving of the original
    program is a run of this machine.  Chunks are identified by address: a chunk
    that is recycled keeps its address, its stale contents and its `next` field.
    Reading a slot that was never written yields an arbitrary value. */
module QueueProtocol {
  import opened Common

  type Task(!new, ==)
  type Tid = nat
  type Chunk = nat

  /** A pointer to a slot, as `current(c, pos)` computes it. */
  datatype Loc = Loc(chunk: Chunk, pos: nat)

  datatype Entry = Entry(tid: Tid, val: Task)

  /** Where a thread stands inside `mmovestep(..., rval = false)`. */
  datatype Producer =
    | Idle
    | Trying(val: Task)                            // at the label `retry`
    | Reserved(val: Task, n: nat)                  // got position n < N
    | Aimed(val: Task, p: Loc, next: Loc)          // read m_w and computed its slot
    | Written(val: Task, p: Loc, next: Loc)        // slot stored, publication CAS pending
    | Spinning(val: Task)                          // got a position beyond N
    | Last(val: Task)                              // got position N
    | LastAimed(val: Task, p: Loc)                 // computed slot N-1
    | LastWritten(val: Task, p: Loc)               // slot N-1 stored
    | Expanding(val: Task, p: Loc, chunk: Chunk)   // inside expand(), chunk not linked yet
    | Linked(val: Task, p: Loc, next: Loc)         // waits until m_wp == p
    | Turn(val: Task, p: Loc, next: Loc)           // m_wp == p was seen
    | Moved(val: Task, p: Loc, next: Loc)          // m_w advanced, publication CAS pending
    | Swapped(val: Task)                           // published, position not reset yet

  /** Where the consumer stands inside `pop`. */
  datatype Consumer =
    | Ready
    | Reading              // readable() held
    | Taken                // value copied, same chunk
    | TakenLast            // value copied, chunk exhausted
    | Freeing(dropped: Chunk)  // m_r advanced, old chunk about to be freed
    | Caching(dropped: Chunk)  // m_c updated, about to enter the free list
    | Resetting

  /** Shared memory, thread positions and history variables.
      `log` lists reservations, `published` successful publications, `popped` the
      values handed out and `done[t]` the pushes thread t has completed.  `base` maps
      each chunk of the live list to the number of its first slot counted from the
      start of the run, `cached` lists the free list and `swapper` names the thread
      that holds position N. */
  datatype State = State(
    cap: nat,
    next: map<Chunk, Option<Chunk>>,
    data: map<Loc, Task>,
    head: Chunk, w: Chunk, r: Chunk, free: Option<Chunk>,
    wp: Loc, rp: Loc, wpos: nat, rpos: nat,
    producers: map<Tid, Producer>,
    consumer: Consumer,
    log: seq<Entry>, published: seq<Entry>, popped: seq<Task>, done: map<Tid, seq<Task>>,
    base: map<Chunk, nat>, cached: seq<Chunk>, swapper: Option<Tid>)

  predicate Init(s: State) {
    && s.cap >= 1
    && s.w in s.next && s.next[s.w] == None
    && s.head == s.w == s.r && s.free == None
    && s.wp == s.rp == Loc(s.w, 0) && s.wpos == s.rpos == 0
    && (forall t | t in s.producers :: s.producers[t] == Idle)
    && s.consumer == Ready
    && s.log == [] && s.published == [] && s.popped == []
    && s.done.Keys == s.producers.Keys && (forall t | t in s.done :: s.done[t] == [])
    && s.base == map[s.w := 0] && s.cached == [] && s.swapper == None
  }

  function Set(s: State, t: Tid, p: Producer): State {
    s.(producers := s.producers[t := p])
  }

  function Finish(s: State, t: Tid, v: Task): State
    requires t in s.done
  {
    Set(s, t, Idle).(done := s.done[t := s.done[t] + [v]])
  }

  /** Thread t stands at p. */
  predicate At(s: State, t: Tid, p: Producer) {
    t in s.producers && t in s.done && s.producers[t] == p
  }

  // ---- steps of mpush ----

  predicate Begin(s: State, s': State, t: Tid, v: Task) {
    At(s, t, Idle) && s' == Set(s, t, Trying(v))
  }

  // `__sync_add_and_fetch(&pos, 1)` and the three branches on its result

  predicate FetchFree(s: State, s': State, t: Tid, v: Task) {
    At(s, t, Trying(v)) && s.wpos + 1 < s.cap
    && s' == Set(s, t, Reserved(v, s.wpos + 1)).(wpos := s.wpos + 1, log := s.log + [Entry(t, v)])
  }

  predicate FetchLast(s: State, s': State, t: Tid, v: Task) {
    At(s, t, Trying(v)) && s.wpos + 1 == s.cap
    && s' == Set(s, t, Last(v)).(wpos := s.wpos + 1, log := s.log + [Entry(t, v)], swapper := Some(t))
  }

  predicate FetchOver(s: State, s': State, t: Tid, v: Task) {
    At(s, t, Trying(v)) && s.wpos + 1 > s.cap
    && s' == Set(s, t, Spinning(v)).(wpos := s.wpos + 1)
  }

  predicate Retry(s: State, s': State, t: Tid, v: Task) {
    At(s, t, Spinning(v)) && s.wpos < s.cap && s' == Set(s, t, Trying(v))
  }

  predicate Aim(s: State, s': State, t: Tid, v: Task, n: nat) {
    At(s, t, Reserved(v, n)) && n >= 1 && s' == Set(s, t, Aimed(v, Loc(s.w, n - 1), Loc(s.w, n)))
  }

  predicate Store(s: State, s': State, t: Tid, v: Task, p: Loc, nx: Loc) {
    At(s, t, Aimed(v, p, nx)) && s' == Set(s, t, Written(v, p, nx)).(data := s.data[p := v])
  }

  predicate Publish(s: State, s': State, t: Tid, v: Task, p: Loc, nx: Loc) {
    At(s, t, Written(v, p, nx)) && s.wp == p
    && s' == Finish(s.(wp := nx, published := s.published + [Entry(t, v)]), t, v)
  }

  predicate AimLast(s: State, s': State, t: Tid, v: Task) {
    At(s, t, Last(v)) && s.cap >= 1 && s' == Set(s, t, LastAimed(v, Loc(s.w, s.cap - 1)))
  }

  predicate StoreLast(s: State, s': State, t: Tid, v: Task, p: Loc) {
    At(s, t, LastAimed(v, p)) && s' == Set(s, t, LastWritten(v, p)).(data := s.data[p := v])
  }

  /** `c->next` is set already, expand() is not called. */
  predicate HasNext(s: State, s': State, t: Tid, v: Task, p: Loc) {
    At(s, t, LastWritten(v, p)) && s.w in s.next && s.next[s.w].Some?
    && s' == Set(s, t, Linked(v, p, Loc(s.next[s.w].value, 0)))
  }

  /** `cache()` under the lock, and `c->next = NULL` on the private chunk. */
  predicate TakeCached(s: State, s': State, t: Tid, v: Task, p: Loc) {
    At(s, t, LastWritten(v, p)) && s.w in s.next && s.next[s.w] == None
    && s.free.Some? && s.free.value in s.next && s.cached != []
    && s' == Set(s, t, Expanding(v, p, s.free.value)).(
      free := s.next[s.free.value], next := s.next[s.free.value := None], cached := s.cached[1..])
  }

  predicate Allocate(s: State, s': State, t: Tid, v: Task, p: Loc, c: Chunk) {
    At(s, t, LastWritten(v, p)) && s.w in s.next && s.next[s.w] == None
    && s.free == None && c !in s.next
    && s' == Set(s, t, Expanding(v, p, c)).(next := s.next[c := None])
  }

  predicate Link(s: State, s': State, t: Tid, v: Task, p: Loc, c: Chunk) {
    At(s, t, Expanding(v, p, c)) && s.w in s.base
    && s' == Set(s, t, Linked(v, p, Loc(c, 0))).(
      next := s.next[s.w := Some(c)], base := s.base[c := s.base[s.w] + s.cap])
  }

  predicate SeeTurn(s: State, s': State, t: Tid, v: Task, p: Loc, nx: Loc) {
    At(s, t, Linked(v, p, nx)) && s.wp == p && s' == Set(s, t, Turn(v, p, nx))
  }

  predicate Move(s: State, s': State, t: Tid, v: Task, p: Loc, nx: Loc) {
    At(s, t, Turn(v, p, nx)) && s.w in s.next && s.next[s.w].Some?
    && s' == Set(s, t, Moved(v, p, nx)).(w := s.next[s.w].value)
  }

  predicate PublishLast(s: State, s': State, t: Tid, v: Task, p: Loc, nx: Loc) {
    At(s, t, Moved(v, p, nx)) && s.wp == p
    && s' == Set(s, t, Swapped(v)).(wp := nx, published := s.published + [Entry(t, v)])
  }

  predicate Reset(s: State, s': State, t: Tid, v: Task) {
    At(s, t, Swapped(v)) && s' == Finish(s.(wpos := 0, swapper := None), t, v)
  }

  // ---- steps of pop ----

  predicate CheckReadable(s: State, s': State) {
    s.consumer == Ready && s' == s.(consumer := if s.rp != s.wp then Reading else Ready)
  }

  predicate Read(s: State, s': State, v: Task) {
    s.consumer == Reading && (s.rp in s.data ==> v == s.data[s.rp])
    && s' == s.(rpos := s.rpos + 1, popped := s.popped + [v],
                consumer := if s.rpos + 1 == s.cap then TakenLast else Taken)
  }

  predicate Advance(s: State, s': State) {
    s.consumer == Taken && s' == s.(rp := Loc(s.r, s.rpos), consumer := Ready)
  }

  predicate MoveRead(s: State, s': State) {
    s.consumer == TakenLast && s.r in s.next && s.next[s.r].Some?
    && s' == s.(r := s.next[s.r].value, base := s.base - {s.r}, consumer := Freeing(s.r))
  }

  predicate DropHead(s: State, s': State, c: Chunk) {
    s.consumer == Freeing(c)
    && if c == s.head then
         s.head in s.next && s.next[s.head].Some?
         && s' == s.(head := s.next[s.head].value, consumer := Caching(c))
       else s' == s.(consumer := Caching(c))
  }

  predicate PushCached(s: State, s': State, c: Chunk) {
    s.consumer == Caching(c)
    && s' == s.(next := s.next[c := s.free], free := Some(c), cached := [c] + s.cached, consumer := Resetting)
  }

  predicate AdvanceFirst(s: State, s': State) {
    s.consumer == Resetting && s' == s.(rpos := 0, rp := Loc(s.r, 0), consumer := Ready)
  }

  datatype Step =
    | BeginStep(t: Tid, v: Task)
    | FetchFreeStep(t: Tid, v: Task)
    | FetchLastStep(t: Tid, v: Task)
    | FetchOverStep(t: Tid, v: Task)
    | RetryStep(t: Tid, v: Task)
    | AimStep(t: Tid, v: Task, n: nat)
    | StoreStep(t: Tid, v: Task, p: Loc, nx: Loc)
    | PublishStep(t: Tid, v: Task, p: Loc, nx: Loc)
    | AimLastStep(t: Tid, v: Task)
    | StoreLastStep(t: Tid, v: Task, p: Loc)
    | HasNextStep(t: Tid, v: Task, p: Loc)
    | TakeCachedStep(t: Tid, v: Task, p: Loc)
    | AllocateStep(t: Tid, v: Task, p: Loc, c: Chunk)
    | LinkStep(t: Tid, v: Task, p: Loc, c: Chunk)
    | SeeTurnStep(t: Tid, v: Task, p: Loc, nx: Loc)
    | MoveStep(t: Tid, v: Task, p: Loc, nx: Loc)
    | PublishLastStep(t: Tid, v: Task, p: Loc, nx: Loc)
    | ResetStep(t: Tid, v: Task)
    | CheckReadableStep
    | ReadStep(v: Task)
    | AdvanceStep
    | MoveReadStep
    | DropHeadStep(c: Chunk)
    | PushCachedStep(c: Chunk)
    | AdvanceFirstStep

  predicate NextStep(s: State, s': State, step: Step) {
    match step
    case BeginStep(t, v) => Begin(s, s', t, v)
    case FetchFreeStep(t, v) => FetchFree(s, s', t, v)
    case FetchLastStep(t, v) => FetchLast(s, s', t, v)
    case FetchOverStep(t, v) => FetchOver(s, s', t, v)
    case RetryStep(t, v) => Retry(s, s', t, v)
    case AimStep(t, v, n) => Aim(s, s', t, v, n)
    case StoreStep(t, v, p, nx) => Store(s, s', t, v, p, nx)
    case PublishStep(t, v, p, nx) => Publish(s, s', t, v, p, nx)
    case AimLastStep(t, v) => AimLast(s, s', t, v)
    case StoreLastStep(t, v, p) => StoreLast(s, s', t, v, p)
    case HasNextStep(t, v, p) => HasNext(s, s', t, v, p)
    case TakeCachedStep(t, v, p) => TakeCached(s, s', t, v, p)
    case AllocateStep(t, v, p, c) => Allocate(s, s', t, v, p, c)
    case LinkStep(t, v, p, c) => Link(s, s', t, v, p, c)
    case SeeTurnStep(t, v, p, nx) => SeeTurn(s, s', t, v, p, nx)
    case MoveStep(t, v, p, nx) => Move(s, s', t, v, p, nx)
    case PublishLastStep(t, v, p, nx) => PublishLast(s, s', t, v, p, nx)
    case ResetStep(t, v) => Reset(s, s', t, v)
    case CheckReadableStep => CheckReadable(s, s')
    case ReadStep(v) => Read(s, s', v)
    case AdvanceStep => Advance(s, s')
    case MoveReadStep => MoveRead(s, s')
    case DropHeadStep(c) => DropHead(s, s', c)
    case PushCachedStep(c) => PushCached(s, s', c)
    case AdvanceFirstStep => AdvanceFirst(s, s')
  }

  ghost predicate Next(s: State, s': State) {
    exists step :: NextStep(s, s', step)
  }

  /** A run from an initial state under any interleaving. */
  ghost predicate Run(tr: seq<State>) {
    && |tr| > 0 && Init(tr[0])
    && forall i | 0 <= i < |tr| - 1 :: Next(tr[i], tr[i + 1])
  }
}
