/** The timing wheel `taskgrp` itself: it keeps the placement of TimerPlacement and
    refines the deadline scheduler of TimerSpec.

    Pointers to timer entries are ids, and `entries` is the array they point into. */
module TimerWheel {
  import opened Common
  import opened TimerSpec
  import opened TimerPlacement

  const MAX_COUNT: nat := 0x7FFF_FFFF_FFFF_FFFF
  const U64_LIMIT: nat := 0x1_0000_0000_0000_0000

  class TaskGroup {
    const size: nat
    const sched: array<seq<TaskId>>
    var insert: seq<TaskId>
    var entries: map<TaskId, Task>
    var processed: bool
    var count: nat
    var trigger: nat
    /** Timers are numbered as they are added; a number is not used again. */
    var nextId: TaskId

    /** Ticks dropped from `count` by rebasing, so that base + count is the time.  The
        program does not keep it; here it only tells callbacks the tick. */
    var base: nat
    /** The timers whose entry was freed. */
    ghost var freed: set<TaskId>
    /** How many expirations were counted so far. */
    ghost var expired: nat
    /** The tick each task in the wheel is due at. */
    ghost var due: map<TaskId, int>
    /** ran[n] lists the callbacks run at tick n, in order. */
    ghost var ran: seq<seq<TaskId>>

    ghost function Now(): nat
      reads this
    {
      base + count
    }

    ghost function View(): Wheel
      reads this, sched
    {
      Wheel(sched[..], insert, entries, due)
    }

    ghost predicate Valid()
      reads this, sched
    {
      && Placed(View(), size, [], Now())
      && Aligned(size, base) && count <= trigger && |ran| == Now() && Numbered() && expired == base + trigger
    }

    ghost predicate Numbered()
      reads this
    {
      Conserved(entries.Keys, freed, nextId)
    }

    /** The deadline scheduler this wheel stands for. */
    ghost function Abs(): Plan
      reads this, sched
    {
      Plan(Now(), JobsOf(View()), WaitingOf(View()))
    }

    ghost function Progress(): Log
      reads this
    {
      Log(ran, nextId)
    }

    constructor (slots: nat)
      requires slots >= 1
      ensures Valid() && fresh(sched) && size == slots && !processed && trigger == 0
      ensures Abs() == Plan(0, map[], map[])
    {
      size := slots;
      sched := new seq<TaskId>[slots](i => []);
      insert, entries := [], map[];
      processed, count, trigger := false, 0, 0;
      base, due, ran, nextId, freed, expired := 0, map[], [], 0, {}, 0;
    }

    /** add_timer: refused exactly when the interval index does not fit 1..65535;
        the start index keeps its low 16 bits. */
    method AddTimer(start: int, intval: int) returns (r: Option<TaskId>)
      requires Valid()
      modifies this`insert, this`entries, this`nextId
      ensures Valid()
      ensures r.Some? <==> 1 <= intval <= MAX_INDEX
      ensures r.Some? ==> r.value !in old(entries) && r.value in insert
      ensures r.Some? ==>
        Abs() == Apply(size, old(Abs()), (id, n) => true, Add(map[r.value := Wait(start % 0x1_0000, intval)]))
      ensures r.None? ==> insert == old(insert) && entries == old(entries)
    {
      hide Placed, JobsOf, WaitingOf, Aligned;
      r := AddEntry(start, intval, [], Now());
      assert r.Some? ==> old(Abs()).waiting[r.value := Wait(start % 0x1_0000, intval)]
                         == old(Abs()).waiting + map[r.value := Wait(start % 0x1_0000, intval)];
    }

    /** create_task and insert_timer, possible at any moment of a tick. */
    method AddEntry(start: int, intval: int, ghost rest: seq<TaskId>, ghost now: int) returns (r: Option<TaskId>)
      requires Placed(View(), size, rest, now) && Numbered()
      modifies this`insert, this`entries, this`nextId
      ensures Placed(View(), size, rest, now) && Numbered()
      ensures r == if Acceptable(intval) then Some(old(nextId)) else None
      ensures r.None? ==> View() == old(View()) && nextId == old(nextId)
      ensures r.Some? ==>
        var w, t := old(View()), Task(intval, start % 0x1_0000);
        && r.value !in w.entries && nextId == old(nextId) + 1
        && View() == w.(entries := w.entries[r.value := t], pending := [r.value] + w.pending)
        && JobsOf(View()) == JobsOf(w) && WaitingOf(View()) == WaitingOf(w)[r.value := Wait(t.word, t.idx)]
    {
      hide Placed, JobsOf, WaitingOf, Conserved;
      ConservedAdd(entries.Keys, freed, nextId);
      if intval > MAX_INDEX || intval < 1 { return None; }
      var id := nextId;
      PlacedAdd(View(), size, rest, now, id, Task(intval, start % 0x1_0000));
      entries := entries[id := Task(intval, start % 0x1_0000)];
      insert := [id] + insert;
      assert entries.Keys == old(entries).Keys + {id};
      nextId := nextId + 1;
      r := Some(id);
    }

    /** What a callback does before it returns: it adds timers. */
    method AddAll(requests: seq<(int, int)>, ghost rest: seq<TaskId>, ghost now: int) returns (ghost added: map<TaskId, Wait>)
      requires Placed(View(), size, rest, now) && Numbered()
      modifies this`insert, this`entries, this`nextId
      ensures Placed(View(), size, rest, now) && Numbered()
      ensures GrownOnly(old(View()), View(), added) && added == NewWaits(requests, old(nextId))
      ensures nextId == old(nextId) + Count(requests)
    {
      hide Placed, JobsOf, WaitingOf, GrownOnly, Grown, Untouched, Conserved;
      ghost var before := View();
      ConservedBelow(entries.Keys, freed, nextId);
      added := map[];
      NothingAdded(before);
      var k := 0;
      while k < |requests|
        invariant 0 <= k <= |requests| && Placed(View(), size, rest, now) && Numbered()
        invariant GrownOnly(before, View(), added) && added == NewWaits(requests[..k], old(nextId))
        invariant nextId == old(nextId) + Count(requests[..k])
        invariant forall id | id in before.entries :: id < old(nextId)
      {
        ghost var w := View();
        var r := AddEntry(requests[k].0, requests[k].1, rest, now);
        assert requests[..k + 1][..k] == requests[..k];
        if r.Some? {
          NotYetDue(w, size, rest, now, r.value);
          OneMoreAdded(before, w, added, r.value, Task(requests[k].1, requests[k].0 % 0x1_0000));
          added := added[r.value := Wait(requests[k].0 % 0x1_0000, requests[k].1)];
        }
        k := k + 1;
      }
      assert requests[..k] == requests;
    }

    /** task::close sets the removed bit.  That cancels a timer exactly when it is in
        the wheel; for a timer that is not drained yet it only makes the start index odd. */
    method Close(id: TaskId)
      requires Valid() && id in entries
      modifies this`entries
      ensures Valid()
      ensures id !in insert ==> Abs() == Apply(size, old(Abs()), (id, n) => true, Cancel(id))
      ensures id in insert ==>
        var w := old(entries[id]);
        Abs() == old(Abs()).(waiting := old(Abs()).waiting[id := Wait(if Removed(w) then w.word else w.word + 1, w.idx)])
    {
      hide Placed, JobsOf, WaitingOf, Aligned, Conserved, Removed, Delay, TaskOk;
      EntryOk(View(), size, Now(), id);
      var t := entries[id];
      var t' := t.(word := if Removed(t) then t.word else t.word + 1);
      ClosedTask(t);
      PlacedClose(View(), size, Now(), id, t');
      assert entries[id := t'].Keys == entries.Keys;
      entries := entries[id := t'];
    }

    /** insert_timer(t, index, current) and insert_timer_at. */
    method InsertTimer(id: TaskId, index: nat, current: nat, ghost n: nat) returns (ok: bool)
      requires size >= 1 && sched.Length == size && id in entries && current == SlotAt(size, n)
      requires SlotFor(size, index, current) < size
      modifies this`entries, this`due, sched
      ensures ok <==> Fits(size, index)
      ensures ok ==>
        View() == PutInto(old(View()), id, WithDelay(old(entries[id]), DelayFor(size, index, current)),
                          SlotFor(size, index, current), n + Effective(index))
      ensures !ok ==> View() == old(View())
      ensures entries.Keys == old(entries).Keys
    {
      var tmp := index + current;
      var delay := index / size;
      var slot := tmp % size;
      if slot == current {
        if delay > 0 { delay := delay - 1; } else { slot := slot + 1; }
      }
      DelayAnywhere(size, index, current);
      if delay > MAX_DELAY { return false; }
      entries := entries[id := WithDelay(entries[id], delay)];
      sched[slot] := [id] + sched[slot];
      due := due[id := n + Effective(index)];
      ok := true;
    }

    /** remove_timer: a live entry is freed, which was not freed before. */
    method RemoveTimer(id: TaskId)
      requires Numbered() && id in entries
      modifies this`entries, this`due, this`freed
      ensures View() == Dropped(old(View()), id) && Numbered()
      ensures id !in old(freed) && freed == old(freed) + {id}
    {
      hide Conserved;
      ConservedFree(entries.Keys, freed, nextId, id);
      assert (entries - {id}).Keys == entries.Keys - {id};
      entries := entries - {id};
      due := due - {id};
      freed := freed + {id};
    }

    /** A visited task with no revolution left: run its callback and insert it anew. */
    method RunTask(tt: TaskId, ghost list: seq<TaskId>, idx: nat, cb: Answers, adds: Requests, n: nat)
      returns (ghost added: map<TaskId, Wait>)
      requires Placed(View(), size, list, n + 1) && list != [] && list[0] == tt && Numbered()
      requires sched.Length == size >= 1 && idx == SlotAt(size, n)
      requires tt in entries && !Removed(entries[tt]) && Delay(entries[tt]) == 0
      requires SlotFor(size, entries[tt].idx, idx) < size
      modifies this`insert, this`entries, this`due, this`nextId, this`freed, sched
      ensures Placed(View(), size, list[1..], n + 1) && Numbered()
      ensures VisitedAdding(old(View()), View(), size, n, cb, tt, added)
      ensures added == NewWaits(adds(tt, n), old(nextId)) && nextId == old(nextId) + Count(adds(tt, n))
      ensures old(freed) <= freed
    {
      hide Placed, InWindow, Fits, Effective, SlotFor, DelayFor, SlotAt, VisitedOnly, VisitedAdding, WithDelay, Removed, Delay,
        GrownOnly, Grown, NewWaits, Count, Conserved, Marked, PutInto, Dropped;
      ghost var before := View();
      var answer := cb(tt, n);
      added := AddAll(adds(tt, n), list, n + 1);
      ghost var mid := View();
      GrownKeeps(before, mid, added, tt);
      PlacedEntries(mid, size, list, n + 1);
      MarkedIs(entries[tt], answer);
      entries := entries[tt := Marked(entries[tt], answer)];
      assert entries.Keys == mid.entries.Keys;
      ghost var marked := entries[tt];
      var ok := answer != Negative;
      if ok {
        ok := InsertTimer(tt, entries[tt].idx, idx, n);
      }
      if ok {
        VisitRun(mid, size, n, cb, list);
        ghost var moved, slot := WithDelay(marked, DelayFor(size, marked.idx, idx)), SlotFor(size, marked.idx, idx);
        MarkThenPut(mid, tt, marked, moved, slot, n + Effective(marked.idx));
      } else {
        VisitDrop(mid, size, n, cb, list);
        MarkThenDrop(mid, tt, marked);
        RemoveTimer(tt);
      }
      VisitAfterAdds(before, mid, View(), size, n, cb, tt, added);
    }

    /** One task of the list taken from slot idx at tick n. */
    method VisitTask(tt: TaskId, ghost list: seq<TaskId>, idx: nat, cb: Answers, adds: Requests, n: nat)
      returns (ghost added: map<TaskId, Wait>)
      requires Placed(View(), size, list, n + 1) && list != [] && list[0] == tt && size >= 1 && idx == SlotAt(size, n)
      requires Numbered()
      modifies this`insert, this`entries, this`due, this`nextId, this`freed, sched
      ensures Placed(View(), size, list[1..], n + 1) && Numbered()
      ensures VisitedAdding(old(View()), View(), size, n, cb, tt, added)
      ensures
        var rs := if Runs(old(View()), tt, n) then adds(tt, n) else [];
        added == NewWaits(rs, old(nextId)) && nextId == old(nextId) + Count(rs)
      ensures old(freed) <= freed
    {
      hide Placed, InWindow, Fits, Effective, SlotAt, VisitedOnly, VisitedAdding, WithDelay, Removed, Delay, GrownOnly, SlotFor, Conserved;
      ghost var before := View();
      VisitedTask(before, size, n, list);
      PlacedEntries(before, size, list, n + 1);
      NothingAdded(before);
      added := map[];
      var t := entries[tt];
      if Removed(t) {
        VisitDrop(before, size, n, cb, list);
        RemoveTimer(tt);
        VisitAfterAdds(before, before, View(), size, n, cb, tt, map[]);
      } else if Delay(t) > 0 {
        VisitDelay(before, size, n, cb, list);
        entries := entries[tt := WithDelay(t, Delay(t) - 1)];
        assert entries.Keys == before.entries.Keys;
        sched[idx] := [tt] + sched[idx];
        assert View() == PutInto(before, tt, WithDelay(t, Delay(t) - 1), idx, due[tt]);
        VisitAfterAdds(before, before, View(), size, n, cb, tt, map[]);
      } else {
        RunsInTable(t, size, idx);
        added := RunTask(tt, list, idx, cb, adds, n);
      }
    }

    /** The list walk of one tick; `list` was taken from slot idx. */
    method VisitList(list: seq<TaskId>, idx: nat, cb: Answers, adds: Requests, n: nat)
      returns (ghost runs: seq<TaskId>, ghost added: map<TaskId, Wait>)
      requires Placed(View(), size, list, n + 1) && size >= 1 && idx == SlotAt(size, n) && Numbered()
      modifies this`insert, this`entries, this`due, this`nextId, this`freed, sched
      ensures Placed(View(), size, [], n + 1) && Numbered()
      ensures forall id | id in list :: Visited(old(View()), View(), size, n, cb, id)
      ensures forall id | id !in list && id !in added :: Untouched(old(View()), View(), id)
      ensures Grown(old(View()), View(), added)
      ensures runs == RunsOf(old(View()), list, n) && added == NewWaits(AllRequests(adds, runs, n), old(nextId))
      ensures nextId == old(nextId) + Count(AllRequests(adds, runs, n)) && old(freed) <= freed
    {
      hide Placed, Visited, Untouched, Grown, VisitedAdding, NoDup, NewWaits, Count, AllRequests, RunsOf, Runs, SlotAt, Conserved;
      ConservedBelow(entries.Keys, freed, nextId);
      runs, added := [], map[];
      ghost var before, first := View(), nextId;
      PlacedEntries(before, size, list, n + 1);
      NothingAdded(before);
      NothingRan(before, adds, n, first);
      var t := list;
      ghost var i := 0;
      assert list[..0] == [] && list[0..] == list;
      while t != []
        invariant 0 <= i <= |list| && t == list[i..]
        invariant Placed(View(), size, t, n + 1) && Numbered() && NoDup(list) && forall id | id in list :: id in before.entries
        invariant forall id | id in before.entries :: id < first
        invariant forall id | id in list[..i] :: Visited(before, View(), size, n, cb, id)
        invariant forall id | id !in list[..i] && id !in added :: Untouched(before, View(), id)
        invariant Grown(before, View(), added)
        invariant runs == RunsOf(before, list[..i], n) && added == NewWaits(AllRequests(adds, runs, n), first)
        invariant nextId == first + Count(AllRequests(adds, runs, n)) && old(freed) <= freed
        decreases |t|
      {
        var tt := t[0];
        ghost var now, id0 := View(), nextId;
        ghost var more := VisitTask(tt, t, idx, cb, adds, n);
        Snoc(list, i);
        AddedIsNew(before, now, added);
        assert Untouched(before, now, tt);
        RunsUntouched(before, now, tt, n);
        OneMoreRun(before, n, adds, list, i, runs, first);
        NewWaitsRange(if Runs(before, tt, n) then adds(tt, n) else [], id0);
        VisitNext(before, now, View(), size, n, cb, list, i, added, more);
        added := added + more;
        runs := RunsOf(before, list[..i + 1], n);
        t := t[1..];
        i := i + 1;
      }
      assert list[..i] == list;
    }

    /** The drain of one tick: timers added since the last drain enter the wheel. */
    method DrainList(list: seq<TaskId>, idx: nat, n: nat)
      requires Placed(View().(pending := list), size, [], n + 1) && insert == [] && size >= 1 && idx == SlotAt(size, n) && Numbered()
      requires forall id | id in list && id in entries :: SlotFor(size, entries[id].word, idx) < size
      modifies this`entries, this`due, this`freed, sched
      ensures Placed(View(), size, [], n + 1) && Numbered() && old(freed) <= freed
      ensures forall id | id in list :: Drained(old(View()).(pending := list), View(), size, n, id)
      ensures forall id | id !in list :: Untouched(old(View()).(pending := list), View(), id)
    {
      ghost var before := View().(pending := list);
      WaitingTasks(before, size, n + 1);
      assert sched.Length == size;
      hide Placed, Drained, InWindow, SlotFor, SlotAt, TaskOk, Conserved;
      var t := list;
      ghost var i := 0;
      while t != []
        invariant 0 <= i <= |list| && t == list[i..]
        invariant Placed(View().(pending := t), size, [], n + 1) && Numbered() && old(freed) <= freed
        invariant forall id | id in list[..i] :: Drained(before, View().(pending := t), size, n, id)
        invariant forall id | id !in list[..i] :: Untouched(before, View().(pending := t), id)
        decreases |t|
      {
        var tt := t[0];
        ghost var now := View().(pending := t);
        Snoc(list, i);
        assert Untouched(before, now, tt);
        DrainTask(tt, t, idx, n);
        DrainNext(before, now, View().(pending := t[1..]), size, n, list, i);
        t := t[1..];
        i := i + 1;
      }
      assert list[..i] == list && View().(pending := []) == View();
    }

    method DrainTask(tt: TaskId, ghost list: seq<TaskId>, idx: nat, n: nat)
      requires Placed(View().(pending := list), size, [], n + 1) && list != [] && list[0] == tt && Numbered()
      requires sched.Length == size >= 1 && idx == SlotAt(size, n)
      requires tt in entries && TaskOk(entries[tt]) && SlotFor(size, entries[tt].word, idx) < size
      modifies this`entries, this`due, this`freed, sched
      ensures Placed(View().(pending := list[1..]), size, [], n + 1)
      ensures DrainedOnly(old(View()).(pending := list), View().(pending := list[1..]), size, n, tt)
      ensures Numbered() && old(freed) <= freed
    {
      ghost var before := View().(pending := list);
      hide Placed, InWindow, Fits, Effective, SlotFor, DelayFor, SlotAt, DrainedOnly, WithDelay, Conserved;
      var startIdx := entries[tt].word;
      entries := entries[tt := Task(entries[tt].idx, startIdx - startIdx % 2)];
      assert entries.Keys == before.entries.Keys;
      var ok := InsertTimer(tt, startIdx, idx, n);
      if ok {
        DrainStart(before, size, n);
        assert entries == before.entries[tt := entries[tt]];
      } else {
        DrainRefuse(before, size, n);
        RemoveTimer(tt);
        assert entries == before.entries - {tt};
      }
    }
  
    /** No timer waiting to be drained has start index 0 while the last slot is next:
        the index insert_timer computes would lie past the slot table. */
    ghost predicate Drainable()
      requires size >= 1
      reads this, sched
    {
      StartsFit(size, WaitingOf(View()), count % size)
    }

    /** Nor does a callback run at tick n ask for such a timer. */
    ghost predicate AddsFit(adds: Requests, n: int)
      requires size >= 1 && n >= 0
    {
      forall id :: RequestsFit(size, adds(id, n), SlotAt(size, n))
    }

    /** Tick n is about to run. */
    ghost predicate TickReady(n: nat)
      reads this, sched
    {
      Placed(View(), size, [], n) && n == base + count && size >= 1 && Aligned(size, base) && Drainable() && Numbered()
    }

    /** The visit of tick n is done and its slot was idx; the waiting timers are still to be drained. */
    ghost predicate TickVisited(n: nat, idx: nat)
      reads this, sched
    {
      && Placed(View(), size, [], n + 1) && size >= 1 && idx == SlotAt(size, n) && Numbered()
      && StartsFit(size, WaitingOf(View()), idx)
    }

    /** The list of the current slot is taken and the counter moves on. */
    method TakeSlot(n: nat) returns (idx: nat, t: seq<TaskId>)
      requires TickReady(n)
      modifies this`count, sched
      ensures size >= 1 && n % size == idx == SlotAt(size, n) && idx < |old(View()).slots| && t == old(View()).slots[idx]
      ensures idx == old(count) % size && count == old(count) + 1 && View() == old(View()).(slots := old(View()).slots[idx := []])
      ensures Placed(View(), size, t, n + 1)
    {
      hide Placed;
      TickSlot(n);
      idx := count % size;
      PlacedTake(View(), size, n);
      t := sched[idx];
      sched[idx] := [];
      count := count + 1;
    }

    lemma TickSlot(n: nat)
      requires TickReady(n)
      ensures size >= 1 && n % size == count % size == SlotAt(size, n) && count % size < sched.Length == size
    {
      RebasedSlot(size, base, count);
    }

    /** First half of a tick: the list of the current slot is taken and visited. */
    method TickVisit(cb: Answers, adds: Requests, n: nat) returns (idx: nat, ghost added: map<TaskId, Wait>)
      requires TickReady(n) && AddsFit(adds, n)
      modifies this`insert, this`entries, this`due, this`nextId, this`freed, this`count, this`ran, sched
      ensures TickVisited(n, idx) && count == old(count) + 1
      ensures JobsOf(View()) == TickJobs(size, old(Abs()), Goes(cb)) && WaitingOf(View()) == WaitingOf(old(View())) + added
      ensures RanTick(old(Progress()), Progress(), old(Abs()), adds, added) && old(freed) <= freed
    {
      hide Placed, Visited, Untouched, Grown, NoDup, Aligned, JobsOf, WaitingOf, TickJobs, NewWaits, AllRequests, Count, RunsOf, RanAt,
        RequestsFit, StartsFit, SlotAt, Conserved;
      ghost var before, p := View(), Abs();
      var t;
      idx, t := TakeSlot(n);
      ghost var taken, runs := View(), [];
      runs, added := VisitList(t, idx, cb, adds, n);
      VisitIsTick(before, taken, View(), size, n, cb, p, added);
      AddsStartFit(size, adds, runs, n, idx, old(nextId), p.waiting);
      ran := ran + [runs];
    }

    /** Second half of a tick: the timers added since the last drain enter the wheel. */
    method TickDrain(idx: nat, n: nat, ghost p: Plan)
      requires TickVisited(n, idx) && p.now == n && p.waiting == WaitingOf(View())
      modifies this`insert, this`entries, this`due, this`freed, sched
      ensures size >= 1 && Placed(View(), size, [], n + 1) && insert == [] && Numbered()
      ensures JobsOf(View()) == JobsOf(old(View())) + Started(size, p) && old(freed) <= freed
    {
      hide SlotLists, Visiting, Drained, Untouched, SlotFor, SlotAt, Conserved;
      ghost var before := View();
      if insert != [] {
        StartsInTable(before, size, idx);
        var t := insert;
        insert := [];
        assert View().(pending := t) == before;
        DrainList(t, idx, n);
        DrainIsStart(before, View(), size, n, p);
      } else {
        assert p.waiting == map[];
        assert Started(size, p) == map[];
      }
    }

    /** One round of the catch-up loop: one tick of the deadline scheduler, to which
        the timers that callbacks add during the tick were added just before it. */
    method RunTick(cb: Answers, adds: Requests) returns (ghost added: map<TaskId, Wait>)
      requires Valid() && Drainable() && AddsFit(adds, base + count) && count < trigger
      modifies this`insert, this`entries, this`due, this`nextId, this`freed, this`count, this`ran, sched
      ensures Valid() && insert == [] && count == old(count) + 1
      ensures Abs() == Tick(size, WithAdded(old(Abs()), added), Goes(cb))
      ensures RanTick(old(Progress()), Progress(), old(Abs()), adds, added) && old(freed) <= freed
    {
      hide Placed, JobsOf, WaitingOf, Aligned, Conserved, RanTick, TickJobs, Started, StartsFit, RequestsFit, SlotAt, AddsFit;
      Counters();
      ghost var p := Abs();
      var n := base + count;
      assert TickReady(n);
      ghost var before := Progress();
      var idx;
      idx, added := TickVisit(cb, adds, n);
      ghost var q := WithAdded(p, added);
      assert q.waiting == WaitingOf(View()) && q.now == n;
      TickDrain(idx, n, q);
      TickDone(p, q, cb, before, adds, added);
    }

    lemma TickDone(p: Plan, q: Plan, cb: Answers, before: Log, adds: Requests, added: map<TaskId, Wait>)
      requires size >= 1 && Placed(View(), size, [], p.now + 1) && base + count == p.now + 1 && |before.ticks| == p.now
      requires Aligned(size, base) && count <= trigger && insert == [] && Numbered() && expired == base + trigger
      requires RanTick(before, Progress(), p, adds, added) && q == WithAdded(p, added)
      requires JobsOf(View()) == TickJobs(size, p, Goes(cb)) + Started(size, q)
      ensures Valid() && Abs() == Tick(size, q, Goes(cb))
    {
      hide Placed, JobsOf, Started, Aligned, Conserved;
      assert TickJobs(size, p, Goes(cb)) == TickJobs(size, q, Goes(cb));
      assert WaitingOf(View()) == map[];
    }

    /** operator()(U64): c more expirations are counted.  While another call is under way
        that is all.  Otherwise every tick not run yet is run, once and in order; expirations
        that arrive meanwhile stay to be served by the next call. */
    method Fire(c: nat, cb: Answers, adds: Requests, arrivals: nat -> nat) returns (ghost added: seq<map<TaskId, Wait>>)
      requires !processed ==>
        && Valid() && (count < trigger + c ==> Drainable())
        && (forall n | base + count <= n < base + trigger + c :: AddsFit(adds, n))
        && trigger + c + ArrivedIn(arrivals, base + count, trigger + c - count) < U64_LIMIT
      requires processed ==> trigger + c < U64_LIMIT
      modifies this, sched
      ensures processed == old(processed) && old(freed) <= freed
      ensures old(processed) ==>
        && trigger == old(trigger) + c && expired == old(expired) + c && count == old(count) && base == old(base)
        && ran == old(ran) && nextId == old(nextId) && View() == old(View())
      ensures !old(processed) ==>
        && Valid() && |added| == old(trigger + c - count) && (added != [] ==> insert == [])
        && Abs() == Ticks(size, old(Abs()), Goes(cb), added)
        && RanTicks(old(Progress()), Progress(), size, old(Abs()), Goes(cb), adds, added)
      ensures !old(processed) ==>
        var late := ArrivedIn(arrivals, old(base + count), |added|);
        && trigger - count == late && expired == old(expired) + c + late
        && count == if old(trigger) + c + late > MAX_COUNT then (old(trigger) + c) % size else old(trigger) + c
    {
      hide *;
      if !processed { Counters(); }
      trigger := trigger + c;
      expired := expired + c;
      if !processed { StillValid(c); } else { SameView(); }
      added := ProcessOneShot(trigger, cb, adds, arrivals);
      if !processed { BacklogOf(old(count), old(trigger) + c); }
    }

    lemma Counters()
      requires Valid()
      ensures size >= 1 && count <= trigger && |ran| == base + count && expired == base + trigger
    {
    }

    /** process_one_shot, with the value that was read of the trigger count. */
    method ProcessOneShot(target: nat, cb: Answers, adds: Requests, arrivals: nat -> nat)
      returns (ghost added: seq<map<TaskId, Wait>>)
      requires target <= trigger
      requires !processed ==>
        && Valid() && (count < target ==> Drainable())
        && (forall n | base + count <= n < base + target :: AddsFit(adds, n))
        && (target > count ==> trigger + ArrivedIn(arrivals, base + count, target - count) < U64_LIMIT)
      modifies this, sched
      ensures processed == old(processed) && old(freed) <= freed
      ensures old(processed) ==>
        && trigger == old(trigger) && expired == old(expired) && count == old(count) && base == old(base)
        && ran == old(ran) && nextId == old(nextId) && View() == old(View())
      ensures !old(processed) ==>
        && Valid() && |added| == Backlog(old(count), target) && (added != [] ==> insert == [])
        && Abs() == Ticks(size, old(Abs()), Goes(cb), added)
        && RanTicks(old(Progress()), Progress(), size, old(Abs()), Goes(cb), adds, added)
      ensures !old(processed) ==>
        var late := ArrivedIn(arrivals, old(base + count), |added|);
        && trigger - count == old(trigger) + late - (old(count) + |added|) && expired == old(expired) + late
        && count == if old(trigger) + late > MAX_COUNT then (old(count) + |added|) % size else old(count) + |added|
    {
      hide *;
      added := [];
      if processed { return; }
      Counters();
      processed := true;
      StillValid(0);
      added := CatchUp(target, cb, adds, arrivals);
      if trigger > MAX_COUNT { Rebase(); }
      label After:
      processed := false;
      StillValid@After(0);
    }

    /** The catch-up loop.  Calls that come in during a round find `processed` set and only
        add to the trigger count. */
    method CatchUp(target: nat, cb: Answers, adds: Requests, arrivals: nat -> nat) returns (ghost added: seq<map<TaskId, Wait>>)
      requires Valid() && target <= trigger && (count < target ==> Drainable())
      requires forall n | base + count <= n < base + target :: AddsFit(adds, n)
      modifies this`insert, this`entries, this`due, this`nextId, this`freed, this`count, this`ran, this`trigger, this`expired, sched
      ensures Valid() && |added| == Backlog(old(count), target) && count == old(count) + |added| && (added != [] ==> insert == [])
      ensures Abs() == Ticks(size, old(Abs()), Goes(cb), added)
      ensures RanTicks(old(Progress()), Progress(), size, old(Abs()), Goes(cb), adds, added)
      ensures
        var late := ArrivedIn(arrivals, base + old(count), |added|);
        trigger == old(trigger) + late && expired == old(expired) + late
      ensures old(freed) <= freed
    {
      hide *;
      ghost var p, start, before := Abs(), count, Progress();
      NoTicksYet(cb, adds, arrivals, target);
      added := [];
      while count < target
        invariant Valid() && size >= 1 && start <= count && |added| == count - start && target <= trigger
        invariant count <= target || added == []
        invariant (count < target ==> Drainable()) && (added != [] ==> insert == [])
        invariant Abs() == Ticks(size, p, Goes(cb), added) && old(freed) <= freed
        invariant RanTicks(before, Progress(), size, p, Goes(cb), adds, added)
        invariant trigger == old(trigger) + ArrivedIn(arrivals, base + start, |added|)
        invariant expired == old(expired) + ArrivedIn(arrivals, base + start, |added|)
      {
        ghost var done, q, n := Progress(), Abs(), base + count;
        var c := arrivals(base + count);
        ghost var more := RunTick(cb, adds);
        label Ran:
        trigger := trigger + c;
        expired := expired + c;
        StillValid@Ran(c);
        OneMoreArrival(arrivals, base + start, |added|);
        TicksStep(size, p, Goes(cb), added, more);
        NothingToDrain();
        RanOneMore(before, done, Progress(), size, p, Goes(cb), adds, added, more, q);
        added := added + [more];
      }
      BacklogIs(start, target, |added|);
    }

    /** Counting an expiration changes neither the wheel nor the schedule. */
    twostate lemma StillValid(c: nat)
      requires old(Valid()) && trigger == old(trigger) + c && expired == old(expired) + c
      requires unchanged(sched) && unchanged(this`insert, this`entries, this`due, this`count, this`base, this`ran, this`nextId, this`freed)
      ensures Valid() && Abs() == old(Abs()) && Progress() == old(Progress())
      ensures size >= 1 && (old(Drainable()) ==> Drainable())
    {
    }

    twostate lemma SameView()
      requires unchanged(sched) && unchanged(this`insert, this`entries, this`due)
      ensures View() == old(View())
    {
    }

    /** What one call does to the counters. */
    method Serve(c: nat, cb: Answers, adds: Requests, arrivals: nat -> nat) returns (ghost late: nat)
      requires Valid() && !processed && (count < trigger + c ==> Drainable()) && forall n: nat :: AddsFit(adds, n)
      requires trigger + c + ArrivedIn(arrivals, base + count, trigger + c - count) < U64_LIMIT
      modifies this, sched
      ensures Valid() && !processed && trigger - count == late && expired == old(expired) + c + late
      ensures late == ArrivedIn(arrivals, old(base + count), old(trigger + c - count))
      ensures c >= 1 ==> insert == []
      ensures trigger <= old(trigger) + c + late
    {
      hide *;
      Counters();
      ghost var added := Fire(c, cb, adds, arrivals);
      late := ArrivedIn(arrivals, old(base + count), |added|);
      Counters();
      NotMore(old(trigger) + c, size);
    }

    lemma NotMore(a: nat, m: nat)
      requires m >= 1
      ensures a % m <= a
    {
    }

    /** Expirations that come in while the ticks of one call are run are served by the next:
        after it, as many ticks were run as expirations were counted. */
    method FireTwice(c: nat, d: nat, cb: Answers, adds: Requests, arrivals: nat -> nat)
      requires Valid() && !processed && c >= 1 && Drainable() && forall n: nat :: AddsFit(adds, n)
      requires trigger + c + ArrivedIn(arrivals, base + count, trigger + c - count) + d < U64_LIMIT
      modifies this, sched
      ensures Valid() && count == trigger
      ensures |ran| == expired == old(expired) + c + ArrivedIn(arrivals, old(base + count), old(trigger + c - count)) + d
    {
      hide *;
      Counters();
      ghost var late := Serve(c, cb, adds, arrivals);
      Counters();
      NothingToDrain();
      NoArrivals(base + count, trigger + d - count);
      late := Serve(d, cb, adds, n => 0);
      Counters();
    }

    lemma NoTicksYet(cb: Answers, adds: Requests, arrivals: nat -> nat, target: nat)
      requires Valid()
      ensures size >= 1 && count <= trigger && Ticks(size, Abs(), Goes(cb), []) == Abs()
      ensures ArrivedIn(arrivals, base + count, 0) == 0
      ensures RanTicks(Progress(), Progress(), size, Abs(), Goes(cb), adds, [])
    {
    }

    lemma NothingToDrain()
      requires size >= 1
      ensures insert == [] ==> Drainable()
    {
    }

    /** The counters are rebased: whole turns of the wheel are dropped from both, so
        the next slot, the backlog and the time stay what they were. */
    method Rebase()
      requires Valid()
      modifies this`count, this`trigger, this`base
      ensures Valid() && Abs() == old(Abs()) && Progress() == old(Progress())
      ensures count == old(count) % size && count % size == old(count) % size
      ensures trigger - count == old(trigger) - old(count)
      ensures base + count == old(base) + old(count)
    {
      assert size >= 1 && Aligned(size, base);
      RebaseKeepsTurns(size, base, count);
      var idx := count % size;
      hide Aligned, Placed;
      trigger := trigger + idx - count;
      base := base + count - idx;
      count := idx;
    }
  }

}
