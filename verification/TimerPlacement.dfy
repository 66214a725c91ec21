/** Where the wheel keeps its tasks, as values: slot lists, the tasks waiting to be
    inserted, the array of entries and the tick each inserted task is due at. */
module TimerPlacement {
  import opened Common
  import opened TimerSpec

  /** A task: its interval index and the 16-bit word its start index shares with the
      removed bit and the revolution count. */
  datatype Task = Task(idx: nat, word: nat)

  function Removed(t: Task): bool { t.word % 2 == 1 }
  function Delay(t: Task): nat { t.word / 2 }
  function WithDelay(t: Task, d: nat): Task { t.(word := 2 * d + t.word % 2) }

  datatype Wheel = Wheel(slots: seq<seq<TaskId>>, pending: seq<TaskId>, entries: map<TaskId, Task>, due: map<TaskId, int>)

  ghost predicate TaskOk(t: Task) {
    1 <= t.idx <= MAX_INDEX && t.word <= MAX_INDEX
  }

  /** The task array holds exactly the inserted and the waiting tasks. */
  ghost predicate Partition(w: Wheel) {
    && w.entries.Keys == w.due.Keys + (set id | id in w.pending)
    && (forall id | id in w.pending :: id !in w.due)
    && NoDup(w.pending)
    && (forall id | id in w.entries :: TaskOk(w.entries[id]))
  }

  /** Inserted task id is in the list of its slot, for tick `now` or later. */
  ghost predicate InSlot(w: Wheel, size: nat, now: int, s: nat, id: TaskId) {
    && id in w.due && id in w.entries && size >= 1 && w.due[id] % size == s
    && InWindow(size, now, Delay(w.entries[id]), w.due[id])
  }

  ghost predicate SlotLists(w: Wheel, size: nat, rest: seq<TaskId>, now: int) {
    && size >= 1 && |w.slots| == size
    && (forall s | 0 <= s < size :: NoDup(w.slots[s]))
    && (forall s, id {:trigger id in w.slots[s]} | 0 <= s < size && id in w.slots[s] ::
          id !in rest && InSlot(w, size, now, s, id))
    && (forall id | id in w.due :: id in rest || id in w.slots[w.due[id] % size])
  }

  /** The tasks of a list taken from the slot of tick now - 1. */
  ghost predicate Visiting(w: Wheel, size: nat, rest: seq<TaskId>, now: int) {
    && size >= 1 && NoDup(rest)
    && forall id | id in rest :: InSlot(w, size, now - 1, (now - 1) % size, id)
  }

  /** Every live entry is in exactly one place: a slot list, the list being visited
      or the list of waiting tasks. */
  ghost predicate Placed(w: Wheel, size: nat, rest: seq<TaskId>, now: int) {
    Partition(w) && SlotLists(w, size, rest, now) && Visiting(w, size, rest, now)
  }

  /** Between ticks a task entry is live exactly when it is in one place: the list of
      waiting tasks or the list of a single slot. */
  lemma OnePlace(w: Wheel, size: nat, now: int, id: TaskId)
    requires Placed(w, size, [], now)
    ensures id in w.entries <==> id in w.pending || exists s | 0 <= s < |w.slots| :: id in w.slots[s]
    ensures id in w.pending ==> forall s | 0 <= s < |w.slots| :: id !in w.slots[s]
    ensures forall r, s | 0 <= r < s < |w.slots| && id in w.slots[r] :: id !in w.slots[s]
  {
    forall s | 0 <= s < |w.slots| && id in w.slots[s]
      ensures InSlot(w, size, now, s, id)
    {
    }
  }

  /** The deadline scheduler the placement stands for. */
  ghost function JobsOf(w: Wheel): map<TaskId, Job> {
    map id | id in w.due && id in w.entries && !Removed(w.entries[id]) :: Job(w.due[id], w.entries[id].idx)
  }

  ghost function WaitingOf(w: Wheel): map<TaskId, Wait> {
    map id | id in w.pending && id in w.entries :: Wait(w.entries[id].word, w.entries[id].idx)
  }

  lemma Uncons(s: seq<TaskId>)
    requires s != [] && NoDup(s)
    ensures s[0] in s && s[0] !in s[1..] && NoDup(s[1..])
    ensures forall x :: x in s <==> x == s[0] || x in s[1..]
  {
  }

  lemma Cons(x: TaskId, s: seq<TaskId>)
    ensures forall y :: y in [x] + s <==> y == x || y in s
    ensures NoDup(s) && x !in s ==> NoDup([x] + s)
  {
  }

  // ---- what the operations do ----

  /** A new timer joins the waiting ones, also while a list is being visited. */
  lemma PlacedAdd(w: Wheel, size: nat, rest: seq<TaskId>, now: int, id: TaskId, t: Task)
    requires Placed(w, size, rest, now) && id !in w.entries && TaskOk(t)
    ensures
      var w' := w.(entries := w.entries[id := t], pending := [id] + w.pending);
      && Placed(w', size, rest, now)
      && JobsOf(w') == JobsOf(w)
      && WaitingOf(w') == WaitingOf(w)[id := Wait(t.word, t.idx)]
  {
    hide Partition, SlotLists, Visiting, JobsOf, WaitingOf;
    AddPartition(w, id, t);
    AddSlotLists(w, size, rest, now, id, t);
    AddVisiting(w, size, rest, now, id, t);
  }

  lemma AddPartition(w: Wheel, id: TaskId, t: Task)
    requires Partition(w) && id !in w.entries && TaskOk(t)
    ensures
      var w' := w.(entries := w.entries[id := t], pending := [id] + w.pending);
      Partition(w') && JobsOf(w') == JobsOf(w) && WaitingOf(w') == WaitingOf(w)[id := Wait(t.word, t.idx)]
  {
    Cons(id, w.pending);
    hide NoDup, TaskOk;
  }

  lemma AddSlotLists(w: Wheel, size: nat, rest: seq<TaskId>, now: int, id: TaskId, t: Task)
    requires SlotLists(w, size, rest, now) && id !in w.entries
    ensures SlotLists(w.(entries := w.entries[id := t], pending := [id] + w.pending), size, rest, now)
  {
    hide InWindow;
  }

  lemma AddVisiting(w: Wheel, size: nat, rest: seq<TaskId>, now: int, id: TaskId, t: Task)
    requires Visiting(w, size, rest, now) && id !in w.entries
    ensures Visiting(w.(entries := w.entries[id := t], pending := [id] + w.pending), size, rest, now)
  {
    hide InWindow;
  }

  lemma EntryOk(w: Wheel, size: nat, now: int, id: TaskId)
    requires Placed(w, size, [], now) && id in w.entries
    ensures TaskOk(w.entries[id])
  {
    hide SlotLists, Visiting;
  }

  lemma ClosedTask(t: Task)
    requires TaskOk(t)
    ensures
      var t' := t.(word := if Removed(t) then t.word else t.word + 1);
      TaskOk(t') && Delay(t') == Delay(t) && Removed(t')
  {
  }

  lemma PlacedClose(w: Wheel, size: nat, now: int, id: TaskId, t: Task)
    requires Placed(w, size, [], now) && id in w.entries && TaskOk(t)
    requires t.idx == w.entries[id].idx && Delay(t) == Delay(w.entries[id]) && Removed(t)
    ensures
      var w' := w.(entries := w.entries[id := t]);
      && Placed(w', size, [], now)
      && (id in w.pending ==> JobsOf(w') == JobsOf(w) && WaitingOf(w') == WaitingOf(w)[id := Wait(t.word, t.idx)])
      && (id !in w.pending ==> JobsOf(w') == JobsOf(w) - {id} && WaitingOf(w') == WaitingOf(w))
  {
    hide Partition, SlotLists, JobsOf, WaitingOf, Removed, Delay, TaskOk;
    ClosePartition(w, id, t);
    CloseSlotLists(w, size, now, id, t);
  }

  lemma ClosePartition(w: Wheel, id: TaskId, t: Task)
    requires Partition(w) && id in w.entries && TaskOk(t) && t.idx == w.entries[id].idx && Removed(t)
    ensures
      var w' := w.(entries := w.entries[id := t]);
      && Partition(w')
      && (id in w.pending ==> JobsOf(w') == JobsOf(w) && WaitingOf(w') == WaitingOf(w)[id := Wait(t.word, t.idx)])
      && (id !in w.pending ==> JobsOf(w') == JobsOf(w) - {id} && WaitingOf(w') == WaitingOf(w))
  {
    hide NoDup;
  }

  lemma CloseSlotLists(w: Wheel, size: nat, now: int, id: TaskId, t: Task)
    requires SlotLists(w, size, [], now) && id in w.entries && Delay(t) == Delay(w.entries[id])
    ensures SlotLists(w.(entries := w.entries[id := t]), size, [], now)
  {
    hide InWindow;
  }

  /** Taking the list of the slot of tick now. */
  lemma PlacedTake(w: Wheel, size: nat, now: int)
    requires Placed(w, size, [], now) && now >= 0
    ensures now % size < |w.slots| && Placed(w.(slots := w.slots[now % size := []]), size, w.slots[now % size], now + 1)
  {
    var w' := w.(slots := w.slots[now % size := []]);
    var rest := w.slots[now % size];
    forall s, id {:trigger id in w'.slots[s]} | 0 <= s < size && id in w'.slots[s]
      ensures id !in rest && InSlot(w', size, now + 1, s, id)
    {
      assert InSlot(w, size, now, s, id);
      FoundWhenDue(size, now, Delay(w.entries[id]), w.due[id]);
    }
  }

  /** The first visited task is freed. */
  lemma PlacedDrop(w: Wheel, size: nat, rest: seq<TaskId>, now: int)
    requires Placed(w, size, rest, now) && rest != []
    ensures Placed(w.(entries := w.entries - {rest[0]}, due := w.due - {rest[0]}), size, rest[1..], now)
  {
    Uncons(rest);
    hide InWindow, NoDup;
    var w' := w.(entries := w.entries - {rest[0]}, due := w.due - {rest[0]});
    assert Partition(w') by { hide SlotLists; }
    assert SlotLists(w', size, rest[1..], now) by { hide Partition; }
    assert Visiting(w', size, rest[1..], now) by { hide SlotLists, Partition; }
  }

  /** The slot lists after id, which is in none of them, joins list s. */
  lemma SlotListsPush(w: Wheel, w': Wheel, size: nat, rest: seq<TaskId>, rest': seq<TaskId>, now: int,
                      id: TaskId, t: Task, s: nat, due: int)
    requires SlotLists(w, size, rest, now) && s < size && (id in rest || id !in w.due)
    requires id !in rest' && forall x :: x in rest <==> x in rest' || (x == id && id in rest)
    requires due % size == s && InWindow(size, now, Delay(t), due)
    requires w'.slots == w.slots[s := [id] + w.slots[s]]
    requires w'.entries == w.entries[id := t] && w'.due == w.due[id := due]
    ensures SlotLists(w', size, rest', now)
  {
    assert id !in w.slots[s];
    Cons(id, w.slots[s]);
    hide InWindow, NoDup;
    forall r, x {:trigger x in w'.slots[r]} | 0 <= r < size && x in w'.slots[r]
      ensures x !in rest' && InSlot(w', size, now, r, x)
    {
      if x != id { assert x in w.slots[r]; }
    }
  }

  /** The first visited task is put into slot s for its next due tick. */
  lemma PlacedMove(w: Wheel, size: nat, rest: seq<TaskId>, now: int, t: Task, s: nat, due: int)
    requires Placed(w, size, rest, now) && rest != [] && s < size && TaskOk(t)
    requires due % size == s && InWindow(size, now, Delay(t), due)
    ensures s < |w.slots| && Placed(w.(slots := w.slots[s := [rest[0]] + w.slots[s]], entries := w.entries[rest[0] := t],
                                       due := w.due[rest[0] := due]), size, rest[1..], now)
  {
    Uncons(rest);
    hide InWindow, NoDup;
    var w' := w.(slots := w.slots[s := [rest[0]] + w.slots[s]], entries := w.entries[rest[0] := t], due := w.due[rest[0] := due]);
    SlotListsPush(w, w', size, rest, rest[1..], now, rest[0], t, s, due);
    hide SlotLists;
    assert Partition(w');
    assert Visiting(w', size, rest[1..], now) by { hide Partition; }
  }

  /** The first waiting task is freed because it cannot be inserted. */
  lemma PlacedRefuse(w: Wheel, size: nat, now: int)
    requires Placed(w, size, [], now) && w.pending != []
    ensures Placed(w.(pending := w.pending[1..], entries := w.entries - {w.pending[0]}), size, [], now)
  {
    Uncons(w.pending);
    hide InWindow, NoDup;
  }

  /** The first waiting task is inserted. */
  lemma PlacedStart(w: Wheel, size: nat, now: int, t: Task, s: nat, due: int)
    requires Placed(w, size, [], now) && w.pending != [] && s < size && TaskOk(t)
    requires due % size == s && InWindow(size, now, Delay(t), due)
    ensures s < |w.slots|
    ensures Placed(w.(slots := w.slots[s := [w.pending[0]] + w.slots[s]], pending := w.pending[1..],
                      entries := w.entries[w.pending[0] := t], due := w.due[w.pending[0] := due]), size, [], now)
  {
    Uncons(w.pending);
    hide InWindow, NoDup;
    var id := w.pending[0];
    var w' := w.(slots := w.slots[s := [id] + w.slots[s]], pending := w.pending[1..],
                 entries := w.entries[id := t], due := w.due[id := due]);
    SlotListsPush(w, w', size, [], [], now, id, t, s, due);
    hide SlotLists;
  }

  // ---- one visited task ----

  /** What a callback says: it returns a non-negative value, a negative one, or a non-negative
      one after it closed its own timer. */
  datatype Answer = Again | Negative | Closed

  type Answers = (TaskId, int) -> Answer

  /** The timers that go on after their callback. */
  function Goes(cb: Answers): Callback {
    (id: TaskId, n: int) => cb(id, n) == Again
  }

  /** The task after its removed bit was set, if it closed itself. */
  function Marked(t: Task, a: Answer): Task {
    if a == Closed && !Removed(t) then t.(word := t.word + 1) else t
  }

  function Dropped(w: Wheel, id: TaskId): Wheel {
    w.(entries := w.entries - {id}, due := w.due - {id})
  }

  function PutInto(w: Wheel, id: TaskId, t: Task, s: nat, due: int): Wheel
    requires s < |w.slots|
  {
    w.(slots := w.slots[s := [id] + w.slots[s]], entries := w.entries[id := t], due := w.due[id := due])
  }

  /** From `before` to `w`, task id was visited and nothing else changed. */
  ghost predicate VisitedOnly(before: Wheel, w: Wheel, size: nat, n: int, cb: Answers, id: TaskId)
    requires size >= 1
  {
    Visited(before, w, size, n, cb, id) && w.pending == before.pending
    && forall x | x != id :: Untouched(before, w, x)
  }

  lemma VisitedTask(w: Wheel, size: nat, n: int, list: seq<TaskId>)
    requires Placed(w, size, list, n + 1) && list != [] && n >= 0
    ensures list[0] in w.entries && list[0] in w.due && TaskOk(w.entries[list[0]]) && size >= 1 && |w.slots| == size
    ensures w.due[list[0]] % size == n % size
    ensures Delay(w.entries[list[0]]) == 0 <==> w.due[list[0]] == n
    ensures Delay(w.entries[list[0]]) > 0 ==> InWindow(size, n + 1, Delay(w.entries[list[0]]) - 1, w.due[list[0]])
  {
    assert |w.slots| == size;
    hide SlotLists, InWindow;
    assert list[0] in list;
    assert InSlot(w, size, n, n % size, list[0]);
    FoundWhenDue(size, n, Delay(w.entries[list[0]]), w.due[list[0]]);
  }

  lemma VisitDrop(w: Wheel, size: nat, n: int, cb: Answers, list: seq<TaskId>)
    requires Placed(w, size, list, n + 1) && list != [] && n >= 0 && list[0] in w.entries && size >= 1
    requires Removed(w.entries[list[0]])
          || (Delay(w.entries[list[0]]) == 0 && (cb(list[0], n) == Negative || !Fits(size, w.entries[list[0]].idx)))
    ensures Placed(Dropped(w, list[0]), size, list[1..], n + 1)
    ensures VisitedOnly(w, Dropped(w, list[0]), size, n, cb, list[0])
  {
    VisitedTask(w, size, n, list);
    PlacedDrop(w, size, list, n + 1);
    hide Placed, Fits, InWindow;
  }

  lemma VisitDelay(w: Wheel, size: nat, n: int, cb: Answers, list: seq<TaskId>)
    requires Placed(w, size, list, n + 1) && list != [] && n >= 0 && list[0] in w.entries && list[0] in w.due
    requires |w.slots| == size && size >= 1
    requires !Removed(w.entries[list[0]]) && Delay(w.entries[list[0]]) > 0
    ensures
      var t := w.entries[list[0]];
      var w' := PutInto(w, list[0], WithDelay(t, Delay(t) - 1), SlotAt(size, n), w.due[list[0]]);
      Placed(w', size, list[1..], n + 1) && VisitedOnly(w, w', size, n, cb, list[0])
  {
    VisitedTask(w, size, n, list);
    var t := w.entries[list[0]];
    PlacedMove(w, size, list, n + 1, WithDelay(t, Delay(t) - 1), SlotAt(size, n), w.due[list[0]]);
    hide Placed, Fits, InWindow;
  }

  lemma VisitRun(w: Wheel, size: nat, n: int, cb: Answers, list: seq<TaskId>)
    requires Placed(w, size, list, n + 1) && list != [] && n >= 0 && list[0] in w.entries
    requires |w.slots| == size && size >= 1
    requires !Removed(w.entries[list[0]]) && Delay(w.entries[list[0]]) == 0
    requires cb(list[0], n) != Negative && Fits(size, w.entries[list[0]].idx)
    ensures
      var t := Marked(w.entries[list[0]], cb(list[0], n));
      var s := SlotFor(size, t.idx, SlotAt(size, n));
      && s < size
      && var w' := PutInto(w, list[0], WithDelay(t, DelayFor(size, t.idx, SlotAt(size, n))), s, n + Effective(t.idx));
      && Placed(w', size, list[1..], n + 1) && VisitedOnly(w, w', size, n, cb, list[0])
  {
    hide Placed, Fits, InWindow, Effective, SlotFor, DelayFor, SlotAt, TaskOk, Delay, Removed, WithDelay, Marked;
    VisitedTask(w, size, n, list);
    MarkedIs(w.entries[list[0]], cb(list[0], n));
    var t := Marked(w.entries[list[0]], cb(list[0], n));
    NextDue(size, n, t);
    StaysMarked(t, DelayFor(size, t.idx, SlotAt(size, n)));
    var t' := WithDelay(t, DelayFor(size, t.idx, SlotAt(size, n)));
    PlacedMove(w, size, list, n + 1, t', SlotFor(size, t.idx, SlotAt(size, n)), n + Effective(t.idx));
  }

  lemma MarkThenPut(w: Wheel, id: TaskId, m: Task, t: Task, s: nat, due: int)
    requires s < |w.slots|
    ensures PutInto(w.(entries := w.entries[id := m]), id, t, s, due) == PutInto(w, id, t, s, due)
  {
    assert w.entries[id := m][id := t] == w.entries[id := t];
  }

  lemma MarkThenDrop(w: Wheel, id: TaskId, m: Task)
    ensures Dropped(w.(entries := w.entries[id := m]), id) == Dropped(w, id)
  {
    assert w.entries[id := m] - {id} == w.entries - {id};
  }

  lemma MarkedIs(t: Task, a: Answer)
    ensures Marked(t, a).idx == t.idx && Delay(Marked(t, a)) == Delay(t) && (TaskOk(t) ==> TaskOk(Marked(t, a)))
    ensures !Removed(t) ==> (Removed(Marked(t, a)) <==> a == Closed)
  {
  }

  lemma StaysMarked(t: Task, d: nat)
    ensures WithDelay(t, d).idx == t.idx && (Removed(WithDelay(t, d)) <==> Removed(t))
  {
  }

  /** Where a task that ran at tick n goes next. */
  lemma NextDue(size: nat, n: nat, t: Task)
    requires size >= 1 && TaskOk(t) && Fits(size, t.idx)
    ensures SlotFor(size, t.idx, SlotAt(size, n)) < size
    ensures
      var t' := WithDelay(t, DelayFor(size, t.idx, SlotAt(size, n)));
      && TaskOk(t') && (n + Effective(t.idx)) % size == SlotFor(size, t.idx, SlotAt(size, n))
      && InWindow(size, n + 1, Delay(t'), n + Effective(t.idx))
  {
    SlotInTableIff(size, t.idx, SlotAt(size, n));
    InsertMeetsDeadline(size, t.idx, n);
    assert DelayFor(size, t.idx, 0) <= MAX_DELAY;
    hide SlotFor, DelayFor, InWindow, Effective, Fits;
  }

  // ---- one tick ----

  /** What a visit at tick n makes of task id. */
  ghost predicate Visited(before: Wheel, w: Wheel, size: nat, n: int, cb: Answers, id: TaskId)
    requires size >= 1
  {
    id in before.entries && id in before.due &&
    var t := before.entries[id];
    if Removed(t) || (before.due[id] == n && (cb(id, n) == Negative || !Fits(size, t.idx))) then
      id !in w.entries && id !in w.due
    else
      && id in w.entries && id in w.due && w.entries[id].idx == t.idx
      && (Removed(w.entries[id]) <==> before.due[id] == n && cb(id, n) == Closed)
      && w.due[id] == if before.due[id] == n then n + Effective(t.idx) else before.due[id]
  }

  ghost predicate Untouched(before: Wheel, w: Wheel, id: TaskId) {
    && (id in w.entries <==> id in before.entries) && (id in w.due <==> id in before.due)
    && (id in w.entries ==> w.entries[id] == before.entries[id])
    && (id in w.due ==> w.due[id] == before.due[id])
  }

  /** The callback of task id is run when it is visited at tick n. */
  ghost predicate Runs(before: Wheel, id: TaskId, n: int) {
    id in before.entries && id in before.due && !Removed(before.entries[id]) && before.due[id] == n
  }

  /** The callbacks run while visiting a list at tick n, in list order. */
  ghost function RunsOf(before: Wheel, list: seq<TaskId>, n: int): seq<TaskId> {
    if list == [] then []
    else
      var id := list[|list| - 1];
      RunsOf(before, list[..|list| - 1], n)
      + if Runs(before, id, n) then [id] else []
  }

  lemma {:induction false} RunsOfIs(before: Wheel, list: seq<TaskId>, n: int)
    requires NoDup(list)
    ensures NoDup(RunsOf(before, list, n))
    ensures forall id :: id in RunsOf(before, list, n) <==> id in list && Runs(before, id, n)
  {
    if list != [] {
      var k := |list| - 1;
      RunsOfIs(before, list[..k], n);
      assert list == list[..k] + [list[k]];
    }
  }

  lemma DueIsInSlot(w: Wheel, size: nat, n: int, id: TaskId)
    requires SlotLists(w, size, [], n) && n >= 0 && id in w.due && w.due[id] == n
    ensures n % size < |w.slots| && id in w.slots[n % size]
  {
    hide NoDup, InSlot;
  }

  lemma VisitJob(before: Wheel, w: Wheel, size: nat, n: int, cb: Answers, p: Plan, id: TaskId)
    requires size >= 1 && p.now == n && p.jobs == JobsOf(before)
    requires Visited(before, w, size, n, cb, id)
          || (Untouched(before, w, id) && (id in before.due ==> before.due[id] != n))
    ensures id in JobsOf(w) <==> id in TickJobs(size, p, Goes(cb))
    ensures id in JobsOf(w) ==> JobsOf(w)[id] == TickJobs(size, p, Goes(cb))[id]
  {
    hide Effective, Fits;
  }

  lemma NewHasNoJob(before: Wheel, w: Wheel, size: nat, cb: Answers, p: Plan, id: TaskId)
    requires size >= 1 && p.jobs == JobsOf(before) && id !in before.entries && id !in w.due
    ensures id !in JobsOf(w) && id !in TickJobs(size, p, Goes(cb))
  {
  }

  /** Visiting the slot of tick n is one step of the deadline scheduler, whatever timers the
      callbacks add. */
  lemma VisitIsTick(before: Wheel, taken: Wheel, w: Wheel, size: nat, n: int, cb: Answers, p: Plan, added: map<TaskId, Wait>)
    requires Placed(before, size, [], n) && n >= 0 && n % size < |before.slots|
    requires taken == before.(slots := before.slots[n % size := []])
    requires forall id | id in before.slots[n % size] :: Visited(taken, w, size, n, cb, id)
    requires forall id | id !in before.slots[n % size] && id !in added :: Untouched(taken, w, id)
    requires Grown(taken, w, added)
    requires p.now == n && p.jobs == JobsOf(before)
    ensures JobsOf(w) == TickJobs(size, p, Goes(cb)) && WaitingOf(w) == WaitingOf(before) + added
    ensures RanAt(RunsOf(taken, before.slots[n % size], n), p)
  {
    hide Placed, SlotLists, NoDup, Visited, Untouched, TickJobs, JobsOf, RunsOf, RunsNow;
    TakenJobs(before, taken, size, n);
    SameWaiting(before, taken);
    RunsOfIs(taken, before.slots[n % size], n);
    forall id
      ensures RunsNow(p, id) <==> id in RunsOf(taken, before.slots[n % size], n)
      ensures id in JobsOf(w) <==> id in TickJobs(size, p, Goes(cb))
      ensures id in JobsOf(w) ==> JobsOf(w)[id] == TickJobs(size, p, Goes(cb))[id]
    {
      RunsHere(before, taken, size, n, p, id);
      if id in added && id !in before.slots[n % size] {
        NewHasNoJob(taken, w, size, cb, p, id);
      } else {
        assert id in before.slots[n % size] ==> Visited(taken, w, size, n, cb, id);
        assert id !in before.slots[n % size] ==> Untouched(taken, w, id);
        VisitJob(taken, w, size, n, cb, p, id);
      }
    }
  }

  lemma TakenJobs(before: Wheel, taken: Wheel, size: nat, n: int)
    requires Placed(before, size, [], n) && n >= 0 && n % size < |before.slots| && taken == before.(slots := taken.slots)
    ensures size >= 1 && NoDup(before.slots[n % size]) && JobsOf(taken) == JobsOf(before)
  {
  }

  lemma RunsHere(before: Wheel, taken: Wheel, size: nat, n: int, p: Plan, id: TaskId)
    requires Placed(before, size, [], n) && n >= 0 && n % size < |before.slots| && taken == before.(slots := taken.slots)
    requires p.now == n && p.jobs == JobsOf(before)
    ensures RunsNow(p, id) <==> id in before.slots[n % size] && Runs(taken, id, n)
    ensures id in taken.due && taken.due[id] == n ==> id in before.slots[n % size]
  {
    hide Partition, Visiting, NoDup, InSlot;
    if id in before.due && before.due[id] == n { DueIsInSlot(before, size, n, id); }
  }

  /** What draining at tick n makes of waiting task id. */
  ghost predicate Drained(before: Wheel, w: Wheel, size: nat, n: int, id: TaskId)
    requires size >= 1
  {
    id in before.entries &&
    var t := before.entries[id];
    if Fits(size, t.word) then
      && id in w.entries && id in w.due && !Removed(w.entries[id]) && w.entries[id].idx == t.idx
      && w.due[id] == n + Effective(t.word)
    else id !in w.entries && id !in w.due
  }

  lemma DrainIsStart(before: Wheel, w: Wheel, size: nat, n: int, p: Plan)
    requires size >= 1 && Partition(before) && Partition(w) && w.pending == []
    requires forall id | id in before.pending :: Drained(before, w, size, n, id)
    requires forall id | id !in before.pending :: Untouched(before, w, id)
    requires p.now == n && p.waiting == WaitingOf(before)
    ensures JobsOf(w) == JobsOf(before) + Started(size, p)
  {
    hide Effective, Fits, NoDup;
    forall id
      ensures id in JobsOf(w) <==> id in JobsOf(before) + Started(size, p)
      ensures id in JobsOf(w) ==> JobsOf(w)[id] == (JobsOf(before) + Started(size, p))[id]
    {
      assert id in before.pending ==> Drained(before, w, size, n, id);
      assert id !in before.pending ==> Untouched(before, w, id);
    }
  }

  /** From `before` to `w` the timers `added` were put on the waiting list. */
  ghost predicate Grown(before: Wheel, w: Wheel, added: map<TaskId, Wait>) {
    && added.Keys !! before.entries.Keys && (forall id | id in added :: id !in w.due)
    && WaitingOf(w) == WaitingOf(before) + added
  }

  /** From `before` to `w` timers were added and nothing else changed. */
  ghost predicate GrownOnly(before: Wheel, w: Wheel, added: map<TaskId, Wait>) {
    && Grown(before, w, added) && w.slots == before.slots && w.due == before.due
    && forall x | x !in added :: Untouched(before, w, x)
  }

  /** From `before` to `w` task id was visited, its callback added timers, and nothing else
      changed. */
  ghost predicate VisitedAdding(before: Wheel, w: Wheel, size: nat, n: int, cb: Answers, id: TaskId, added: map<TaskId, Wait>)
    requires size >= 1
  {
    && Visited(before, w, size, n, cb, id) && Grown(before, w, added)
    && forall x | x != id && x !in added :: Untouched(before, w, x)
  }

  lemma NothingAdded(w: Wheel)
    ensures GrownOnly(w, w, map[]) && Grown(w, w, map[]) && forall id :: Untouched(w, w, id)
  {
  }

  lemma OneMoreAdded(before: Wheel, w: Wheel, added: map<TaskId, Wait>, id: TaskId, t: Task)
    requires GrownOnly(before, w, added) && id !in before.entries && id !in w.entries && id !in w.due
    ensures
      var w' := w.(entries := w.entries[id := t], pending := [id] + w.pending);
      WaitingOf(w') == WaitingOf(w)[id := Wait(t.word, t.idx)] ==> GrownOnly(before, w', added[id := Wait(t.word, t.idx)])
  {
    hide WaitingOf;
    var w' := w.(entries := w.entries[id := t], pending := [id] + w.pending);
    forall x | x !in added[id := Wait(t.word, t.idx)]
      ensures Untouched(before, w', x)
    {
      assert Untouched(before, w, x);
    }
    assert WaitingOf(before) + added[id := Wait(t.word, t.idx)] == (WaitingOf(before) + added)[id := Wait(t.word, t.idx)];
  }

  /** Waiting timers that a visit does not touch. */
  lemma VisitedKeepsWaiting(before: Wheel, w: Wheel, size: nat, n: int, cb: Answers, id: TaskId)
    requires size >= 1 && VisitedOnly(before, w, size, n, cb, id) && Partition(before)
    ensures WaitingOf(w) == WaitingOf(before)
  {
    hide NoDup, TaskOk, Fits, Effective;
    assert id !in before.pending;
    forall x | x in before.pending
      ensures x in w.entries <==> x in before.entries
      ensures x in w.entries ==> w.entries[x] == before.entries[x]
    {
      assert Untouched(before, w, x);
    }
  }

  /** A visit after its callback added timers. */
  lemma VisitAfterAdds(before: Wheel, mid: Wheel, w: Wheel, size: nat, n: int, cb: Answers, id: TaskId, added: map<TaskId, Wait>)
    requires size >= 1 && GrownOnly(before, mid, added) && VisitedOnly(mid, w, size, n, cb, id)
    requires id in before.entries && Partition(mid)
    ensures VisitedAdding(before, w, size, n, cb, id, added)
  {
    hide NoDup, Fits, Effective, Removed, WaitingOf, Partition;
    VisitedKeepsWaiting(mid, w, size, n, cb, id);
    assert Untouched(before, mid, id);
    forall x | x != id
      ensures Untouched(mid, w, x)
      ensures x !in added ==> Untouched(before, w, x)
    {
      assert x !in added ==> Untouched(before, mid, x);
    }
  }

  /** One more element of the list was visited. */
  lemma VisitNext(before: Wheel, now: Wheel, after: Wheel, size: nat, n: int, cb: Answers, list: seq<TaskId>, i: nat,
                  added: map<TaskId, Wait>, more: map<TaskId, Wait>)
    requires size >= 1 && i < |list| && NoDup(list) && (forall id | id in list :: id in before.entries)
    requires forall id | id in list[..i] :: Visited(before, now, size, n, cb, id)
    requires forall id | id !in list[..i] && id !in added :: Untouched(before, now, id)
    requires Grown(before, now, added) && more.Keys !! before.entries.Keys
    requires VisitedAdding(now, after, size, n, cb, list[i], more)
    ensures forall id | id in list[..i + 1] :: Visited(before, after, size, n, cb, id)
    ensures forall id | id !in list[..i + 1] && id !in added + more :: Untouched(before, after, id)
    ensures Grown(before, after, added + more)
  {
    hide NoDup, Fits, Effective, Removed, Grown;
    AddedIsNew(before, now, added);
    Snoc(list, i);
    assert Untouched(before, now, list[i]);
    forall id | id in list[..i]
      ensures Visited(before, after, size, n, cb, id)
    {
      assert id in list && Visited(before, now, size, n, cb, id) && Untouched(now, after, id);
    }
    forall id | id !in list[..i + 1] && id !in added + more
      ensures Untouched(before, after, id)
    {
      assert Untouched(before, now, id) && Untouched(now, after, id);
    }
    GrownMore(before, now, after, list[i], added, more);
  }

  lemma AddedIsNew(before: Wheel, w: Wheel, added: map<TaskId, Wait>)
    requires Grown(before, w, added)
    ensures added.Keys !! before.entries.Keys
  {
  }

  lemma GrownMore(before: Wheel, now: Wheel, after: Wheel, tt: TaskId, added: map<TaskId, Wait>, more: map<TaskId, Wait>)
    requires Grown(before, now, added) && Grown(now, after, more) && tt in before.entries && more.Keys !! before.entries.Keys
    requires forall x | x != tt && x !in more :: Untouched(now, after, x)
    ensures Grown(before, after, added + more)
  {
    hide WaitingOf;
    forall id | id in added + more
      ensures id !in after.due
    {
      assert id !in more ==> Untouched(now, after, id);
    }
    assert WaitingOf(before) + added + more == WaitingOf(before) + (added + more);
  }

  lemma Snoc(list: seq<TaskId>, i: nat)
    requires i < |list| && NoDup(list)
    ensures list[i] !in list[..i]
    ensures forall id :: id in list[..i + 1] <==> id == list[i] || id in list[..i]
  {
  }

  /** From `before` to `w`, waiting task id was drained and nothing else changed. */
  ghost predicate DrainedOnly(before: Wheel, w: Wheel, size: nat, n: int, id: TaskId)
    requires size >= 1
  {
    Drained(before, w, size, n, id) && forall x | x != id :: Untouched(before, w, x)
  }

  lemma DrainNext(before: Wheel, now: Wheel, after: Wheel, size: nat, n: int, list: seq<TaskId>, i: nat)
    requires size >= 1 && i < |list| && NoDup(list)
    requires forall id | id in list[..i] :: Drained(before, now, size, n, id)
    requires forall id | id !in list[..i] :: Untouched(before, now, id)
    requires DrainedOnly(now, after, size, n, list[i])
    ensures forall id | id in list[..i + 1] :: Drained(before, after, size, n, id)
    ensures forall id | id !in list[..i + 1] :: Untouched(before, after, id)
  {
    Snoc(list, i);
    hide NoDup, Fits, Effective, Removed;
    assert Untouched(before, now, list[i]);
    forall id | id in list[..i]
      ensures Drained(before, after, size, n, id)
    {
      assert Drained(before, now, size, n, id) && Untouched(now, after, id);
    }
    forall id | id !in list[..i + 1]
      ensures Untouched(before, after, id)
    {
      assert Untouched(before, now, id) && Untouched(now, after, id);
    }
  }

  lemma WaitingTasks(w: Wheel, size: nat, now: int)
    requires Placed(w, size, [], now)
    ensures NoDup(w.pending) && forall id | id in w.pending :: id in w.entries && id !in w.due && TaskOk(w.entries[id])
  {
  }

  lemma DrainRefuse(w: Wheel, size: nat, n: int)
    requires Placed(w, size, [], n + 1) && w.pending != [] && size >= 1 && n >= 0
    requires w.pending[0] in w.entries && !Fits(size, w.entries[w.pending[0]].word)
    ensures
      var id := w.pending[0];
      var w' := w.(pending := w.pending[1..], entries := w.entries - {id}, due := w.due - {id});
      Placed(w', size, [], n + 1) && DrainedOnly(w, w', size, n, id)
  {
    var id := w.pending[0];
    assert id in w.pending && id !in w.due;
    assert w.due - {id} == w.due;
    PlacedRefuse(w, size, n + 1);
    hide Placed, Fits, Effective;
  }

  lemma ClearedWord(t: Task, d: nat)
    requires TaskOk(t) && d <= MAX_DELAY
    ensures
      var t' := WithDelay(Task(t.idx, t.word - t.word % 2), d);
      TaskOk(t') && !Removed(t') && Delay(t') == d && t'.idx == t.idx
  {
  }

  lemma DrainStart(w: Wheel, size: nat, n: int)
    requires Placed(w, size, [], n + 1) && w.pending != [] && |w.slots| == size >= 1 && n >= 0
    requires w.pending[0] in w.entries && Fits(size, w.entries[w.pending[0]].word)
    requires SlotFor(size, w.entries[w.pending[0]].word, SlotAt(size, n)) < size
    ensures
      var id := w.pending[0];
      var t := w.entries[id];
      var s := SlotFor(size, t.word, SlotAt(size, n));
      var d := DelayFor(size, t.word, SlotAt(size, n));
      var w' := PutInto(w, id, WithDelay(Task(t.idx, t.word - t.word % 2), d), s, n + Effective(t.word)).(
        pending := w.pending[1..]);
      Placed(w', size, [], n + 1) && DrainedOnly(w, w', size, n, id)
  {
    hide Placed, Fits, InWindow, Effective, SlotFor, DelayFor, SlotAt, WithDelay, Removed, Delay, TaskOk;
    var id := w.pending[0];
    WaitingTasks(w, size, n + 1);
    assert id in w.pending;
    var t := w.entries[id];
    var t' := WithDelay(Task(t.idx, t.word - t.word % 2), DelayFor(size, t.word, SlotAt(size, n)));
    StartDue(size, n, t);
    PlacedStart(w, size, n + 1, t', SlotFor(size, t.word, SlotAt(size, n)), n + Effective(t.word));
  }

  /** Where a task drained at tick n goes first. */
  lemma StartDue(size: nat, n: nat, t: Task)
    requires size >= 1 && TaskOk(t) && Fits(size, t.word) && SlotFor(size, t.word, SlotAt(size, n)) < size
    ensures
      var t' := WithDelay(Task(t.idx, t.word - t.word % 2), DelayFor(size, t.word, SlotAt(size, n)));
      && TaskOk(t') && !Removed(t') && t'.idx == t.idx
      && (n + Effective(t.word)) % size == SlotFor(size, t.word, SlotAt(size, n))
      && InWindow(size, n + 1, Delay(t'), n + Effective(t.word))
  {
    InsertMeetsDeadline(size, t.word, n);
    assert DelayFor(size, t.word, 0) <= MAX_DELAY;
    ClearedWord(t, DelayFor(size, t.word, SlotAt(size, n)));
    hide SlotFor, DelayFor, InWindow, Effective, Fits;
  }

  /** No timer of waits has start index 0 while slot idx is the last one: the slot
      insert_timer computes would lie past the slot table. */
  predicate StartsFit(size: nat, waits: map<TaskId, Wait>, idx: nat) {
    forall id | id in waits :: waits[id].start >= 1 || idx + 1 < size
  }

  lemma StartsInTable(w: Wheel, size: nat, idx: nat)
    requires size >= 1 && idx < size && StartsFit(size, WaitingOf(w), idx)
    ensures forall id | id in w.pending && id in w.entries :: SlotFor(size, w.entries[id].word, idx) < size
  {
    forall id | id in w.pending && id in w.entries
      ensures SlotFor(size, w.entries[id].word, idx) < size
    {
      assert id in WaitingOf(w);
      SlotInTableIff(size, w.entries[id].word, idx);
    }
  }

  // ---- timers added by callbacks ----

  /** What a callback that runs at a tick asks to add: start and interval indices. */
  type Requests = (TaskId, int) -> seq<(int, int)>

  predicate Acceptable(intval: int) {
    1 <= intval <= MAX_INDEX
  }

  /** How many of the requests add_timer accepts. */
  function Count(rs: seq<(int, int)>): nat {
    if rs == [] then 0 else Count(rs[..|rs| - 1]) + if Acceptable(rs[|rs| - 1].1) then 1 else 0
  }

  /** The accepted requests, as waiting timers numbered from `first` on. */
  function NewWaits(rs: seq<(int, int)>, first: TaskId): map<TaskId, Wait> {
    if rs == [] then map[]
    else
      var r, rest := rs[|rs| - 1], rs[..|rs| - 1];
      var m := NewWaits(rest, first);
      if Acceptable(r.1) then m[first + Count(rest) := Wait(r.0 % 0x1_0000, r.1)] else m
  }

  /** All that the callbacks run at tick n ask to add, in the order they run. */
  function AllRequests(adds: Requests, runs: seq<TaskId>, n: int): seq<(int, int)> {
    if runs == [] then [] else AllRequests(adds, runs[..|runs| - 1], n) + adds(runs[|runs| - 1], n)
  }

  lemma {:induction false} NewWaitsAppend(a: seq<(int, int)>, b: seq<(int, int)>, first: TaskId)
    ensures Count(a + b) == Count(a) + Count(b)
    ensures NewWaits(a + b, first) == NewWaits(a, first) + NewWaits(b, first + Count(a))
    decreases |b|
  {
    if b == [] {
      assert a + b == a;
    } else {
      var k := |b| - 1;
      NewWaitsAppend(a, b[..k], first);
      assert (a + b)[..|a + b| - 1] == a + b[..k];
    }
  }

  lemma {:induction false} NewWaitsRange(rs: seq<(int, int)>, first: TaskId)
    ensures forall id | id in NewWaits(rs, first) :: first <= id < first + Count(rs)
  {
    if rs != [] { NewWaitsRange(rs[..|rs| - 1], first); }
  }

  /** No accepted request has start index 0 while slot idx is the last one. */
  predicate RequestsFit(size: nat, rs: seq<(int, int)>, idx: nat) {
    forall k | 0 <= k < |rs| && Acceptable(rs[k].1) :: rs[k].0 % 0x1_0000 >= 1 || idx + 1 < size
  }

  lemma {:induction false} NewWaitsFit(size: nat, rs: seq<(int, int)>, idx: nat, first: TaskId)
    requires RequestsFit(size, rs, idx)
    ensures StartsFit(size, NewWaits(rs, first), idx)
  {
    if rs != [] { NewWaitsFit(size, rs[..|rs| - 1], idx, first); }
  }

  lemma {:induction false} AllRequestsFit(size: nat, adds: Requests, runs: seq<TaskId>, n: int, idx: nat)
    requires forall id :: RequestsFit(size, adds(id, n), idx)
    ensures RequestsFit(size, AllRequests(adds, runs, n), idx)
  {
    if runs != [] {
      AllRequestsFit(size, adds, runs[..|runs| - 1], n, idx);
      assert RequestsFit(size, adds(runs[|runs| - 1], n), idx);
    }
  }

  lemma RunsMore(before: Wheel, list: seq<TaskId>, i: nat, n: int)
    requires i < |list|
    ensures RunsOf(before, list[..i + 1], n) == RunsOf(before, list[..i], n) + if Runs(before, list[i], n) then [list[i]] else []
  {
    assert list[..i + 1][..i] == list[..i];
  }

  lemma RequestsMore(adds: Requests, runs: seq<TaskId>, n: int, id: TaskId)
    ensures AllRequests(adds, runs + [id], n) == AllRequests(adds, runs, n) + adds(id, n)
  {
    assert (runs + [id])[..|runs|] == runs;
  }

  lemma NothingRan(before: Wheel, adds: Requests, n: int, first: TaskId)
    ensures RunsOf(before, [], n) == [] && AllRequests(adds, [], n) == []
    ensures Count([]) == 0 && NewWaits([], first) == map[]
  {
  }

  /** OneMoreVisit for what the callbacks added. */
  lemma OneMoreRun(before: Wheel, n: int, adds: Requests, list: seq<TaskId>, i: nat, runs: seq<TaskId>, first: TaskId)
    requires i < |list| && runs == RunsOf(before, list[..i], n)
    ensures
      var more := if Runs(before, list[i], n) then adds(list[i], n) else [];
      var rs := AllRequests(adds, runs, n);
      var rs' := AllRequests(adds, RunsOf(before, list[..i + 1], n), n);
      && Count(rs') == Count(rs) + Count(more)
      && NewWaits(rs', first) == NewWaits(rs, first) + NewWaits(more, first + Count(rs))
  {
    hide RunsOf, AllRequests, NewWaits, Count, Runs;
    RunsMore(before, list, i, n);
    NothingRan(before, adds, n, first + Count(AllRequests(adds, runs, n)));
    if Runs(before, list[i], n) {
      RequestsMore(adds, runs, n, list[i]);
      NewWaitsAppend(AllRequests(adds, runs, n), adds(list[i], n), first);
    } else {
      assert runs + [] == runs;
    }
  }

  lemma RunsUntouched(before: Wheel, now: Wheel, id: TaskId, n: int)
    requires Untouched(before, now, id)
    ensures Runs(now, id, n) <==> Runs(before, id, n)
  {
  }

  lemma AddsStartFit(size: nat, adds: Requests, runs: seq<TaskId>, n: int, idx: nat, first: TaskId, waits: map<TaskId, Wait>)
    requires (forall id :: RequestsFit(size, adds(id, n), idx)) && StartsFit(size, waits, idx)
    ensures StartsFit(size, waits + NewWaits(AllRequests(adds, runs, n), first), idx)
  {
    AllRequestsFit(size, adds, runs, n, idx);
    NewWaitsFit(size, AllRequests(adds, runs, n), idx, first);
    hide AllRequests, NewWaits, RequestsFit;
  }

  // ---- whole ticks ----

  /** The callbacks run at each tick so far, and the number of the next timer. */
  datatype Log = Log(ticks: seq<seq<TaskId>>, next: TaskId)

  /** The callbacks in `runs` are the jobs of p that are due now, each once. */
  ghost predicate RanAt(runs: seq<TaskId>, p: Plan) {
    NoDup(runs) && forall id :: id in runs <==> RunsNow(p, id)
  }

  /** One more tick was run: its callbacks are the jobs of p due now, each once, and
      `added` are the timers they asked for. */
  ghost predicate RanTick(before: Log, after: Log, p: Plan, adds: Requests, added: map<TaskId, Wait>) {
    && |after.ticks| == |before.ticks| + 1 && after.ticks[..|before.ticks|] == before.ticks
    && var runs := after.ticks[|before.ticks|];
    && RanAt(runs, p) && added == NewWaits(AllRequests(adds, runs, p.now), before.next)
    && after.next == before.next + Count(AllRequests(adds, runs, p.now))
  }

  /** How many timers the callbacks of some ticks in a row add. */
  ghost function AddedIn(adds: Requests, ticks: seq<seq<TaskId>>, n: int): nat {
    if ticks == [] then 0
    else
      var k := |ticks| - 1;
      AddedIn(adds, ticks[..k], n) + Count(AllRequests(adds, ticks[k], n + k))
  }

  /** The i-th of the ticks run from plan p on ran the jobs due then, and added[i] are the
      timers that its callbacks asked for. */
  ghost predicate RanNth(before: Log, after: Log, size: nat, p: Plan, cb: Callback, adds: Requests,
                         added: seq<map<TaskId, Wait>>, i: nat)
    requires size >= 1 && i < |added| && |before.ticks| + i < |after.ticks|
  {
    var b := |before.ticks|;
    && RanAt(after.ticks[b + i], Ticks(size, p, cb, added[..i]))
    && added[i] == NewWaits(AllRequests(adds, after.ticks[b + i], p.now + i),
                            before.next + AddedIn(adds, after.ticks[b..b + i], p.now))
  }

  /** One tick for each of `added` was run from plan p on, in order and each once. */
  ghost predicate RanTicks(before: Log, after: Log, size: nat, p: Plan, cb: Callback, adds: Requests,
                           added: seq<map<TaskId, Wait>>)
    requires size >= 1
  {
    var b := |before.ticks|;
    && |after.ticks| == b + |added| && after.ticks[..b] == before.ticks
    && after.next == before.next + AddedIn(adds, after.ticks[b..], p.now)
    && forall i: nat | i < |added| :: RanNth(before, after, size, p, cb, adds, added, i)
  }

  lemma RanOneMore(before: Log, now: Log, after: Log, size: nat, p: Plan, cb: Callback, adds: Requests,
                   added: seq<map<TaskId, Wait>>, waits: map<TaskId, Wait>, q: Plan)
    requires size >= 1 && RanTicks(before, now, size, p, cb, adds, added) && q == Ticks(size, p, cb, added)
    requires RanTick(now, after, q, adds, waits)
    ensures RanTicks(before, after, size, p, cb, adds, added + [waits])
  {
    hide RanAt, Ticks, NewWaits, AllRequests, Count, AddedIn, RanNth;
    var more, k, b := added + [waits], |added|, |before.ticks|;
    TicksNow(size, p, cb, added);
    assert after.ticks[..b] == now.ticks[..b];
    AddedInOneMore(adds, now.ticks[b..], after.ticks[b..], p.now);
    forall i: nat | i < |more|
      ensures RanNth(before, after, size, p, cb, adds, more, i)
    {
      if i < k {
        KeepsNth(before, now, after, size, p, cb, adds, added, waits, i);
      } else {
        NewNth(before, now, after, size, p, cb, adds, added, waits, q);
      }
    }
  }

  lemma KeepsNth(before: Log, now: Log, after: Log, size: nat, p: Plan, cb: Callback, adds: Requests,
                 added: seq<map<TaskId, Wait>>, waits: map<TaskId, Wait>, i: nat)
    requires size >= 1 && i < |added| && |now.ticks| == |before.ticks| + |added| < |after.ticks|
    requires after.ticks[..|now.ticks|] == now.ticks && RanNth(before, now, size, p, cb, adds, added, i)
    ensures RanNth(before, after, size, p, cb, adds, added + [waits], i)
  {
    hide RanAt, Ticks, NewWaits, AllRequests, AddedIn;
    assert (added + [waits])[..i] == added[..i];
    SamePrefix(now.ticks, after.ticks, |before.ticks|, i);
  }

  lemma NewNth(before: Log, now: Log, after: Log, size: nat, p: Plan, cb: Callback, adds: Requests,
               added: seq<map<TaskId, Wait>>, waits: map<TaskId, Wait>, q: Plan)
    requires size >= 1 && |now.ticks| == |before.ticks| + |added| < |after.ticks| && q == Ticks(size, p, cb, added)
    requires after.ticks[..|now.ticks|] == now.ticks && q.now == p.now + |added|
    requires now.next == before.next + AddedIn(adds, now.ticks[|before.ticks|..], p.now)
    requires RanAt(after.ticks[|now.ticks|], q) && waits == NewWaits(AllRequests(adds, after.ticks[|now.ticks|], q.now), now.next)
    ensures RanNth(before, after, size, p, cb, adds, added + [waits], |added|)
  {
    hide RanAt, Ticks, NewWaits, AllRequests, AddedIn;
    assert (added + [waits])[..|added|] == added;
    SamePrefix(now.ticks, after.ticks, |before.ticks|, |added|);
    assert now.ticks[|before.ticks|..|now.ticks|] == now.ticks[|before.ticks|..];
  }

  lemma SamePrefix(s: seq<seq<TaskId>>, t: seq<seq<TaskId>>, b: nat, i: nat)
    requires b + i <= |s| < |t| && t[..|s|] == s
    ensures t[b..b + i] == s[b..b + i] && (i < |s| - b ==> t[b + i] == s[b + i])
  {
    assert t[..|s|][b..b + i] == t[b..b + i];
    assert b + i < |s| ==> t[..|s|][b + i] == t[b + i];
  }

  lemma AddedInOneMore(adds: Requests, s: seq<seq<TaskId>>, t: seq<seq<TaskId>>, n: int)
    requires |t| == |s| + 1 && t[..|s|] == s
    ensures AddedIn(adds, t, n) == AddedIn(adds, s, n) + Count(AllRequests(adds, t[|s|], n + |s|))
  {
  }

  // ---- facts about placements ----

  lemma NotYetDue(w: Wheel, size: nat, rest: seq<TaskId>, now: int, id: TaskId)
    requires Placed(w, size, rest, now) && id !in w.entries
    ensures id !in w.due
  {
    hide SlotLists, Visiting, NoDup, TaskOk;
  }

  lemma PlacedEntries(w: Wheel, size: nat, rest: seq<TaskId>, now: int)
    requires Placed(w, size, rest, now)
    ensures Partition(w) && |w.slots| == size && NoDup(rest)
    ensures forall id | id in rest :: id in w.entries
    ensures forall id | id in w.pending :: id in w.entries
  {
    hide NoDup, TaskOk;
  }

  lemma SameWaiting(before: Wheel, w: Wheel)
    requires w == before.(slots := w.slots)
    ensures WaitingOf(w) == WaitingOf(before)
  {
  }

  lemma GrownKeeps(before: Wheel, w: Wheel, added: map<TaskId, Wait>, id: TaskId)
    requires GrownOnly(before, w, added) && id in before.entries
    ensures Untouched(before, w, id)
  {
  }

  lemma RunsInTable(t: Task, size: nat, idx: nat)
    requires TaskOk(t) && idx < size
    ensures SlotFor(size, t.idx, idx) < size
  {
    SlotInTableIff(size, t.idx, idx);
  }

  // ---- conservation of entries ----

  /** Of the timers numbered so far, each is either live or was freed, and not both. */
  ghost predicate Conserved(live: set<TaskId>, freed: set<TaskId>, next: TaskId) {
    && (forall id | id in live :: id < next && id !in freed) && (forall id | id in freed :: id < next)
    && (forall id: TaskId | id < next :: id in live || id in freed)
  }

  lemma ConservedAdd(live: set<TaskId>, freed: set<TaskId>, next: TaskId)
    requires Conserved(live, freed, next)
    ensures next !in live && Conserved(live + {next}, freed, next + 1)
  {
  }

  lemma ConservedFree(live: set<TaskId>, freed: set<TaskId>, next: TaskId, id: TaskId)
    requires Conserved(live, freed, next) && id in live
    ensures id !in freed && Conserved(live - {id}, freed + {id}, next)
  {
  }

  lemma ConservedBelow(live: set<TaskId>, freed: set<TaskId>, next: TaskId)
    requires Conserved(live, freed, next)
    ensures forall id | id in live :: id < next
  {
  }

  // ---- expirations that arrive while ticks are run ----

  /** How many expirations arrive during k ticks from tick n on. */
  function ArrivedIn(arrivals: nat -> nat, n: nat, k: nat): nat {
    if k == 0 then 0 else ArrivedIn(arrivals, n, k - 1) + arrivals(n + k - 1)
  }

  lemma OneMoreArrival(arrivals: nat -> nat, n: nat, k: nat)
    ensures ArrivedIn(arrivals, n, k + 1) == ArrivedIn(arrivals, n, k) + arrivals(n + k)
  {
  }

  lemma {:induction false} NoArrivals(n: nat, k: nat)
    ensures ArrivedIn(m => 0, n, k) == 0
  {
    if k > 0 { NoArrivals(n, k - 1); }
  }

  /** The ticks still to be run. */
  function Backlog(count: nat, target: nat): nat {
    if count < target then target - count else 0
  }

  lemma BacklogIs(start: nat, target: nat, k: nat)
    requires start + k >= target && (start + k <= target || k == 0)
    ensures k == Backlog(start, target)
  {
  }

  lemma BacklogOf(count: nat, target: nat)
    requires count <= target
    ensures Backlog(count, target) == target - count
  {
  }
}
