/** When a timer runs, over any sequence of ticks, additions and cancellations. */
module TimerDeadlines {
  import opened TimerSpec

  /** m is one of the ticks first, first + period, first + 2 * period, ... */
  predicate Scheduled(first: int, period: nat, m: int)
    requires period >= 1
  {
    m >= first && (m - first) % period == 0
  }

  /** The callback asked to go on at every scheduled tick before m. */
  ghost predicate KeptUntil(cb: Callback, id: TaskId, first: int, period: nat, m: int)
    requires period >= 1
  {
    forall x {:trigger cb(id, x)} | first <= x < m && Scheduled(first, period, x) :: cb(id, x)
  }

  /** While it is kept, the job is due at the next scheduled tick; otherwise it is gone. */
  ghost predicate OnSchedule(p: Plan, cb: Callback, id: TaskId, first: int, period: nat)
    requires period >= 1
  {
    && id !in p.waiting
    && if KeptUntil(cb, id, first, period, p.now) then
         && id in p.jobs && p.jobs[id].period == period
         && p.jobs[id].due >= p.now && Scheduled(first, period, p.jobs[id].due)
         && (p.jobs[id].due == first || p.jobs[id].due - period < p.now)
       else id !in p.jobs
  }

  /** Between two scheduled ticks one period apart nothing is scheduled. */
  lemma NothingBetween(first: int, period: nat, a: int, m: int)
    requires period >= 1 && Scheduled(first, period, a) && a < m < a + period
    ensures !Scheduled(first, period, m)
  {
    var d := m - a;
    assert (m - first) % period == ((a - first) % period + d) % period by { SumMod(period, a - first, d); }
    assert (0 + d) % period == d;
  }

  lemma NextScheduled(first: int, period: nat, a: int)
    requires period >= 1 && Scheduled(first, period, a)
    ensures Scheduled(first, period, a + period)
  {
    ShiftMod(period, a - first, 1);
    assert 1 * period == period;
  }

  /** On schedule, the job runs now exactly when now is a scheduled tick it was kept for. */
  lemma RunsIff(p: Plan, cb: Callback, id: TaskId, first: int, period: nat)
    requires period >= 1 && OnSchedule(p, cb, id, first, period)
    ensures RunsNow(p, id) <==> Scheduled(first, period, p.now) && KeptUntil(cb, id, first, period, p.now)
  {
    if KeptUntil(cb, id, first, period, p.now) && p.jobs[id].due > p.now && p.jobs[id].due > first {
      PreviousScheduled(first, period, p.jobs[id].due);
      NothingBetween(first, period, p.jobs[id].due - period, p.now);
    }
  }

  lemma SmallMod(period: nat, d: nat)
    requires period >= 1
    ensures d < period ==> d % period == d
  {
  }

  lemma PreviousScheduled(first: int, period: nat, a: int)
    requires period >= 1 && Scheduled(first, period, a) && a > first
    ensures Scheduled(first, period, a - period)
  {
    var d := a - first;
    assert 0 < d && d % period == 0;
    SmallMod(period, d);
    ShiftMod(period, d - period, 1);
    assert 1 * period == period;
  }

  lemma KeptStep(cb: Callback, id: TaskId, first: int, period: nat, m: int)
    requires period >= 1
    ensures KeptUntil(cb, id, first, period, m + 1)
        <==> KeptUntil(cb, id, first, period, m) && (Scheduled(first, period, m) ==> cb(id, m))
  {
    if KeptUntil(cb, id, first, period, m + 1) && Scheduled(first, period, m) {
      assert cb(id, m);
    }
  }

  lemma TickOnSchedule(size: nat, p: Plan, cb: Callback, id: TaskId, first: int, period: nat)
    requires size >= 1 && period >= 1 && Fits(size, period) && OnSchedule(p, cb, id, first, period)
    ensures OnSchedule(Tick(size, p, cb), cb, id, first, period)
  {
    RunsIff(p, cb, id, first, period);
    KeptStep(cb, id, first, period, p.now);
    if RunsNow(p, id) { NextScheduled(first, period, p.now); }
  }

  lemma {:induction false} StaysOnSchedule(size: nat, p: Plan, cb: Callback, es: seq<Event>, id: TaskId, first: int, period: nat)
    requires size >= 1 && period >= 1 && Fits(size, period) && OnSchedule(p, cb, id, first, period)
    requires LeavesAlone(es, id)
    ensures OnSchedule(ApplyAll(size, p, cb, es), cb, id, first, period)
  {
    if es != [] {
      var n := |es| - 1;
      StaysOnSchedule(size, p, cb, es[..n], id, first, period);
      var q := ApplyAll(size, p, cb, es[..n]);
      if es[n].TickEvent? { TickOnSchedule(size, q, cb, id, first, period); }
    }
  }

  /** The deadline theorem: a timer drained at tick n with start index s and interval
      k runs at tick m exactly when m is n+s, n+s+k, n+s+2k, ... and its callback
      returned a non-negative value at each of those ticks before m, whatever else
      is added or cancelled in between. */
  lemma RunsExactlyAtDeadlines(size: nat, p: Plan, cb: Callback, id: TaskId, es: seq<Event>)
    requires size >= 1 && id in p.waiting && LeavesAlone(es, id)
    requires p.waiting[id].period >= 1 && Fits(size, p.waiting[id].start) && Fits(size, p.waiting[id].period)
    ensures
      var q := ApplyAll(size, Tick(size, p, cb), cb, es);
      var first := p.now + Effective(p.waiting[id].start);
      var period := p.waiting[id].period;
      RunsNow(q, id) <==> Scheduled(first, period, q.now) && KeptUntil(cb, id, first, period, q.now)
  {
    var first := p.now + Effective(p.waiting[id].start);
    var period := p.waiting[id].period;
    var p' := Tick(size, p, cb);
    assert (first - first) % period == 0;
    StaysOnSchedule(size, p', cb, es, id, first, period);
    RunsIff(ApplyAll(size, p', cb, es), cb, id, first, period);
  }

  /** A cancelled job never runs again unless it is added anew. */
  lemma CancelledNeverRuns(size: nat, p: Plan, cb: Callback, id: TaskId, es: seq<Event>)
    requires size >= 1 && id !in p.waiting && LeavesAlone(es, id)
    ensures !RunsNow(ApplyAll(size, Apply(size, p, cb, Cancel(id)), cb, es), id)
  {
    GoneStaysGone(size, Apply(size, p, cb, Cancel(id)), cb, id, es);
  }

  lemma {:induction false} GoneStaysGone(size: nat, p: Plan, cb: Callback, id: TaskId, es: seq<Event>)
    requires size >= 1 && id !in p.waiting && id !in p.jobs && LeavesAlone(es, id)
    ensures var q := ApplyAll(size, p, cb, es); id !in q.jobs && id !in q.waiting
  {
    if es != [] { GoneStaysGone(size, p, cb, id, es[..|es| - 1]); }
  }
}
