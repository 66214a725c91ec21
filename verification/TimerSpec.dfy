/** The deadline scheduler the timing wheel stands for.

    Time is the number of ticks processed so far.  A job runs at its due tick and
    is then due one period later, unless its callback asks to stop.  A timer that
    was added waits for the next tick, which turns its start index into a deadline. */
module TimerSpec {
  import opened Arithmetic

  type TaskId = nat

  const MAX_DELAY: int := 32767
  const MAX_INDEX: int := 65535

  datatype Job = Job(due: int, period: nat)
  datatype Wait = Wait(start: nat, period: nat)
  datatype Plan = Plan(now: int, jobs: map<TaskId, Job>, waiting: map<TaskId, Wait>)

  /** Whether a task goes on after its callback at a tick: it returned a non-negative value
      and did not close its own timer. */
  type Callback = (TaskId, int) -> bool

  /** The slot visited at tick n. */
  function SlotAt(size: nat, n: int): (s: nat)
    requires size >= 1
    ensures s < size
  {
    n % size
  }

  /** The slot and the revolution count `insert_timer` computes. */
  function SlotFor(size: nat, index: nat, current: nat): nat
    requires size >= 1
  {
    var slot := (index + current) % size;
    if slot == current && index / size == 0 then slot + 1 else slot
  }

  function DelayFor(size: nat, index: nat, current: nat): nat
    requires size >= 1
  {
    var delay := index / size;
    if (index + current) % size == current && delay > 0 then delay - 1 else delay
  }

  /** The revolution count fits its 15 bits; `insert_timer` gives up otherwise. */
  predicate Fits(size: nat, index: nat)
    requires size >= 1
  {
    DelayFor(size, index, 0) <= MAX_DELAY
  }

  /** Ticks until the first visit. */
  function Effective(index: nat): nat {
    if index == 0 then 1 else index
  }

  predicate RunsNow(p: Plan, id: TaskId) {
    id in p.jobs && p.jobs[id].due == p.now
  }

  function TickJobs(size: nat, p: Plan, cb: Callback): map<TaskId, Job>
    requires size >= 1
  {
    map id | id in p.jobs && (RunsNow(p, id) ==> cb(id, p.now) && Fits(size, p.jobs[id].period)) ::
      if RunsNow(p, id) then Job(p.now + Effective(p.jobs[id].period), p.jobs[id].period) else p.jobs[id]
  }

  function Started(size: nat, p: Plan): map<TaskId, Job>
    requires size >= 1
  {
    map id | id in p.waiting && Fits(size, p.waiting[id].start) ::
      Job(p.now + Effective(p.waiting[id].start), p.waiting[id].period)
  }

  function Tick(size: nat, p: Plan, cb: Callback): Plan
    requires size >= 1
  {
    Plan(p.now + 1, TickJobs(size, p, cb) + Started(size, p), map[])
  }

  function WithAdded(p: Plan, waits: map<TaskId, Wait>): Plan {
    p.(waiting := p.waiting + waits)
  }

  /** Ticks in a row; adds[i] are the timers that callbacks of the i-th of them add. */
  function Ticks(size: nat, p: Plan, cb: Callback, adds: seq<map<TaskId, Wait>>): Plan
    requires size >= 1
  {
    if adds == [] then p
    else Tick(size, WithAdded(Ticks(size, p, cb, adds[..|adds| - 1]), adds[|adds| - 1]), cb)
  }

  lemma TicksStep(size: nat, p: Plan, cb: Callback, adds: seq<map<TaskId, Wait>>, waits: map<TaskId, Wait>)
    requires size >= 1
    ensures Ticks(size, p, cb, adds + [waits]) == Tick(size, WithAdded(Ticks(size, p, cb, adds), waits), cb)
  {
    assert (adds + [waits])[..|adds|] == adds;
  }

  lemma {:induction false} TicksNow(size: nat, p: Plan, cb: Callback, adds: seq<map<TaskId, Wait>>)
    requires size >= 1
    ensures Ticks(size, p, cb, adds).now == p.now + |adds|
    decreases |adds|
  {
    if adds != [] { TicksNow(size, p, cb, adds[..|adds| - 1]); }
  }

  /** What can happen to the scheduler. */
  datatype Event = TickEvent | Add(waits: map<TaskId, Wait>) | Cancel(id: TaskId)

  function Apply(size: nat, p: Plan, cb: Callback, e: Event): Plan
    requires size >= 1
  {
    match e
    case TickEvent => Tick(size, p, cb)
    case Add(waits) => WithAdded(p, waits)
    case Cancel(id) => p.(jobs := p.jobs - {id})
  }

  function ApplyAll(size: nat, p: Plan, cb: Callback, es: seq<Event>): Plan
    requires size >= 1
  {
    if es == [] then p
    else Apply(size, ApplyAll(size, p, cb, es[..|es| - 1]), cb, es[|es| - 1])
  }

  predicate Leaves(e: Event, id: TaskId) {
    match e
    case TickEvent => true
    case Add(waits) => id !in waits
    case Cancel(x) => x != id
  }

  /** Nothing in es adds or cancels id. */
  predicate LeavesAlone(es: seq<Event>, id: TaskId) {
    forall i | 0 <= i < |es| :: Leaves(es[i], id)
  }

  function EventsOf(adds: seq<map<TaskId, Wait>>): seq<Event> {
    if adds == [] then [] else EventsOf(adds[..|adds| - 1]) + [Add(adds[|adds| - 1]), TickEvent]
  }

  /** Timers added while a tick is under way act as if they were added just before it. */
  lemma {:induction false} TicksAreEvents(size: nat, p: Plan, cb: Callback, adds: seq<map<TaskId, Wait>>)
    requires size >= 1
    ensures Ticks(size, p, cb, adds) == ApplyAll(size, p, cb, EventsOf(adds))
    decreases |adds|
  {
    if adds != [] {
      var n := |adds| - 1;
      TicksAreEvents(size, p, cb, adds[..n]);
      var es := EventsOf(adds[..n]);
      var es2 := es + [Add(adds[n])];
      assert EventsOf(adds) == es2 + [TickEvent];
      assert (es2 + [TickEvent])[..|es2|] == es2 && es2[..|es|] == es;
    }
  }

  // ---- the wheel arithmetic ----

  /** A task of slot `due % size` with `delay` whole revolutions to go, seen before tick `now`. */
  predicate InWindow(size: nat, now: int, delay: nat, due: int) {
    now + delay * size <= due < now + size + delay * size
  }

  /** The slot computed by insert_timer lies in the table exactly when the index is
      positive or the current slot is not the last one. */
  lemma SlotInTableIff(size: nat, index: nat, current: nat)
    requires size >= 1 && current < size
    ensures SlotFor(size, index, current) < size <==> (index > 0 || current + 1 < size)
  {
    if index / size == 0 {
      assert index < size;
      if index > 0 { SmallSum(size, index, current); }
    } else {
      assert index > 0;
    }
  }

  lemma SmallSum(size: nat, index: nat, current: nat)
    requires 0 < index < size && current < size
    ensures (index + current) % size != current
  {
    if index + current < size {
      assert (index + current) % size == index + current;
    } else {
      assert (index + current) % size == index + current - size;
    }
  }

  /** The index comes back to the current slot when it is a multiple of the size. */
  lemma SameSlotIff(size: nat, index: nat, current: nat)
    requires current < size
    ensures (index + current) % size == current <==> index % size == 0
  {
    var r := index % size;
    assert (index + current) % size == (r + current) % size by { SumMod(size, index, current); }
    if r > 0 { SmallSum(size, r, current); } else { assert (0 + current) % size == current; }
  }

  lemma DelaySplit(size: nat, index: nat)
    requires size >= 1
    ensures index == index / size * size + index % size
    ensures index / size >= 1 ==> (index / size - 1) * size == index / size * size - size
    ensures index / size == 0 <==> index < size
  {
  }

  lemma DelayAnywhere(size: nat, index: nat, current: nat)
    requires current < size
    ensures DelayFor(size, index, current) == DelayFor(size, index, 0)
  {
    SameSlotIff(size, index, current);
    SameSlotIff(size, index, 0);
  }

  lemma DelayBounds(size: nat, index: nat)
    requires size >= 1
    ensures 1 <= Effective(index) - DelayFor(size, index, 0) * size <= size
  {
    SameSlotIff(size, index, 0);
    DelaySplit(size, index);
  }

  lemma SlotOfDeadline(size: nat, index: nat, n: int)
    requires size >= 1 && n >= 0 && SlotFor(size, index, n % size) < size
    ensures (n + Effective(index)) % size == SlotFor(size, index, n % size)
  {
    SameSlotIff(size, index, n % size);
    SumMod(size, n, Effective(index));
    if index == 0 {
      assert (n % size + 1) % size == n % size + 1;
    } else {
      DelaySplit(size, index);
    }
  }

  /** insert_timer at tick n puts a timer where it is found at tick n + index. */
  lemma InsertMeetsDeadline(size: nat, index: nat, n: int)
    requires size >= 1 && n >= 0 && SlotFor(size, index, n % size) < size
    ensures (n + Effective(index)) % size == SlotFor(size, index, n % size)
    ensures InWindow(size, n + 1, DelayFor(size, index, n % size), n + Effective(index))
    ensures DelayFor(size, index, n % size) == DelayFor(size, index, 0)
  {
    SlotOfDeadline(size, index, n);
    DelayAnywhere(size, index, n % size);
    DelayBounds(size, index);
    hide SlotFor, DelayFor, Effective;
  }

  lemma SumMod(size: nat, n: int, k: int)
    requires size >= 1
    ensures (n + k) % size == (n % size + k) % size
  {
    var x := n % size + k;
    var y := x % size;
    assert n + k == (n / size) * size + x;
    assert x == (x / size) * size + y;
    assert n + k == (n / size + x / size) * size + y by {
      assert (n / size + x / size) * size == (n / size) * size + (x / size) * size;
    }
    Remainder(n / size + x / size, size, y);
  }

  /** A task is found at its due tick: the visited slot holds a task with no
      revolution left exactly when it is due now. */
  lemma FoundWhenDue(size: nat, now: int, delay: nat, due: int)
    requires size >= 1 && InWindow(size, now, delay, due)
    ensures due % size == now % size <==> due == now + delay * size
    ensures due % size != now % size ==> InWindow(size, now + 1, delay, due)
    ensures due % size == now % size ==> (delay == 0 <==> due == now)
    ensures due % size == now % size && delay > 0 ==> InWindow(size, now + 1, delay - 1, due)
  {
    var x := due - delay * size;
    assert due % size == x % size by { ShiftMod(size, x, delay); }
    var o := x - now;
    assert x % size == (now % size + o) % size by { SumMod(size, now, o); }
    if 0 < o { SmallSum(size, o, now % size); assert (now % size + o) % size != now % size; }
    if delay > 0 { assert delay * size >= size; assert (delay - 1) * size == delay * size - size; }
  }

  lemma ShiftMod(size: nat, x: int, k: int)
    requires size >= 1
    ensures (x + k * size) % size == x % size
  {
    assert x + k * size == (x / size + k) * size + x % size by {
      assert (x / size + k) * size == (x / size) * size + k * size;
    }
    Remainder(x / size + k, size, x % size);
  }

  /** With 16-bit indices the revolution count overflows only on a one-slot wheel. */
  lemma FitsIff(size: nat, index: nat)
    requires size >= 1 && index <= MAX_INDEX
    ensures Fits(size, index) <==> (size >= 2 || index <= MAX_DELAY + 1)
  {
    SameSlotIff(size, index, 0);
    DelaySplit(size, index);
    if size >= 2 { TwiceTheQuotient(size, index / size); }
    if size == 1 { assert index / size == index && index % size == 0; }
  }

  lemma TwiceTheQuotient(size: nat, q: nat)
    requires size >= 2
    ensures 2 * q <= q * size
  {
  }

  /** base is a number of whole turns of the wheel. */
  predicate Aligned(size: nat, base: nat)
    requires size >= 1
  {
    base % size == 0
  }

  /** The counter and the time visit the same slot when whole turns were dropped. */
  lemma RebasedSlot(size: nat, base: nat, count: nat)
    requires size >= 1 && Aligned(size, base)
    ensures SlotAt(size, base + count) == count % size
  {
    SumMod(size, base, count);
  }

  lemma RebaseKeepsTurns(size: nat, base: nat, count: nat)
    requires size >= 1 && Aligned(size, base)
    ensures count % size <= count && Aligned(size, base + count - count % size)
    ensures (count % size) % size == count % size
  {
    SumMod(size, base, count - count % size);
    ShiftMod(size, 0, count / size);
    assert count - count % size == 0 + (count / size) * size;
  }
}
