/** The mailbox always gets its commands run: without further commands, every schedule of
    the threads comes to an end, and then nothing is left to do. */
module EmitterProgress {
  import opened Common
  import opened Emitter

  /** What is left to do, compared component by component: threads that will append, commands
      on the list, and how far the threads still have to go. */
  datatype Rank = Rank(adding: nat, listed: nat, steps: nat)

  predicate Less(a: Rank, b: Rank) {
    || a.adding < b.adding
    || (a.adding == b.adding && a.listed < b.listed)
    || (a.adding == b.adding && a.listed == b.listed && a.steps < b.steps)
  }

  function AdderSteps(a: Adder): nat {
    match a
    case Wanting(_) => 14
    case Appending(_) => 13
    case Unlocking => 12
    case Claiming => 11
    case Pushing => 10
    case Idle => 0
  }

  /** With commands on the list, a thread that released the owner may go on to take it again;
      with an empty list it stops. */
  function RunnerSteps(r: Runner, empty: bool): nat {
    match r
    case Resting => 0
    case Entered => if empty then 5 else 2
    case Holding => if empty then 4 else 1
    case Taken(b) => if empty then 3 + |b| else 8 + |b|
    case Running(b) => if empty then 2 + |b| else 7 + |b|
    case Released => if empty then 1 else 6
    case Again => if empty then 8 else 5
    case Requeuing => if empty then 7 else 4
  }

  function TaskSteps(n: nat, empty: bool): nat {
    if empty then 6 * n else 3 * n
  }

  ghost function Steps(s: State): nat -> nat {
    (t: nat) =>
      if Thread(s, t) then AdderSteps(s.adders[t]) + RunnerSteps(s.runners[t], s.list == []) + TaskSteps(s.tasks[t], s.list == [])
      else 0
  }

  ghost function Adding(s: State): nat -> nat {
    (t: nat) => if Thread(s, t) && (s.adders[t].Wanting? || s.adders[t].Appending?) then 1 else 0
  }

  /** The threads are numbered below n. */
  ghost function RankOf(s: State, n: nat): Rank {
    Rank(Total(Adding(s), n), |s.list|, Total(Steps(s), n))
  }

  ghost predicate Below(s: State, n: nat) {
    forall t: Tid | Thread(s, t) :: t < n
  }

  /** What a step does for the thread itself. */
  lemma OwnRank(s: State, s': State, t: Tid)
    requires Works(s, s', t)
    ensures Thread(s, t) && Thread(s', t)
    ensures Adding(s')(t) < Adding(s)(t) || (Adding(s')(t) == Adding(s)(t) && |s'.list| <= |s.list|)
    ensures Adding(s')(t) == Adding(s)(t) && |s'.list| == |s.list| ==> s'.list == s.list && Steps(s')(t) < Steps(s)(t)
  {
    hide AddStep, RunStep;
    if AddStep(s, s', t) { AddRank(s, s', t); } else { RunRank(s, s', t); }
  }

  lemma AddRank(s: State, s': State, t: Tid)
    requires AddStep(s, s', t)
    ensures Thread(s, t) && Thread(s', t)
    ensures Adding(s')(t) < Adding(s)(t) || (Adding(s')(t) == Adding(s)(t) && s'.list == s.list && Steps(s')(t) < Steps(s)(t))
  {
  }

  lemma RunRank(s: State, s': State, t: Tid)
    requires RunStep(s, s', t)
    ensures Thread(s, t) && Thread(s', t) && Adding(s')(t) == Adding(s)(t) && |s'.list| <= |s.list|
    ensures |s'.list| == |s.list| ==> s'.list == s.list && Steps(s')(t) < Steps(s)(t)
  {
    hide Start, LockList, TakeList, UnlockList, Execute, Release, CheckHead, Reclaim, Requeue;
    if Start(s, s', t) || LockList(s, s', t) || TakeList(s, s', t) {
      EnterRank(s, s', t);
    } else if UnlockList(s, s', t) || Execute(s, s', t) || Release(s, s', t) {
      BatchRank(s, s', t);
    } else {
      LeaveRank(s, s', t);
    }
  }

  lemma EnterRank(s: State, s': State, t: Tid)
    requires Start(s, s', t) || LockList(s, s', t) || TakeList(s, s', t)
    ensures Thread(s, t) && Thread(s', t) && Adding(s')(t) == Adding(s)(t) && |s'.list| <= |s.list|
    ensures |s'.list| == |s.list| ==> s'.list == s.list && Steps(s')(t) < Steps(s)(t)
  {
  }

  lemma BatchRank(s: State, s': State, t: Tid)
    requires UnlockList(s, s', t) || Execute(s, s', t) || Release(s, s', t)
    ensures Thread(s, t) && Thread(s', t) && Adding(s')(t) == Adding(s)(t) && s'.list == s.list && Steps(s')(t) < Steps(s)(t)
  {
  }

  lemma LeaveRank(s: State, s': State, t: Tid)
    requires CheckHead(s, s', t) || Reclaim(s, s', t) || Requeue(s, s', t)
    ensures Thread(s, t) && Thread(s', t) && Adding(s')(t) == Adding(s)(t) && s'.list == s.list && Steps(s')(t) < Steps(s)(t)
  {
  }

  /** Every step of any thread, other than the start of an addition, leaves less to do. */
  lemma WorkRanks(s: State, s': State, t: Tid, n: nat)
    requires Works(s, s', t) && Below(s, n)
    ensures Below(s', n) && Less(RankOf(s', n), RankOf(s, n))
  {
    hide Works, Steps, Adding, Total;
    WorkOthers(s, s', t);
    OwnRank(s, s', t);
    OthersRank(s, s', t);
    TotalChange(Adding(s), Adding(s'), n, t);
    assert forall u :: Thread(s', u) ==> Thread(s, u);
    if s'.list == s.list { TotalChange(Steps(s), Steps(s'), n, t); }
  }

  lemma OthersRank(s: State, s': State, t: Tid)
    requires Others(s, s', t) && s'.adders.Keys == s.adders.Keys && s'.runners.Keys == s.runners.Keys && s'.tasks.Keys == s.tasks.Keys
    ensures forall u | u != t :: Adding(s)(u) == Adding(s')(u)
    ensures s'.list == s.list ==> forall u | u != t :: Steps(s)(u) == Steps(s')(u)
  {
  }

  // ---- schedules ----

  ghost predicate CanWork(s: State) {
    exists t, s' :: Works(s, s', t)
  }

  ghost predicate WorksOn(s: State, s': State) {
    exists t :: Works(s, s', t)
  }

  /** Any order in which the threads go on, with no further commands added from outside, for
      as long as one of them can. */
  ghost predicate Unassisted(f: nat -> State) {
    forall k: nat :: if CanWork(f(k)) then WorksOn(f(k), f(k + 1)) else f(k + 1) == f(k)
  }

  lemma {:induction false} ComesToRest(f: nat -> State, k: nat, n: nat) returns (m: nat)
    requires Unassisted(f) && Inv(f(k)) && Below(f(k), n)
    ensures m >= k && Inv(f(m)) && !CanWork(f(m))
    decreases RankOf(f(k), n).adding, RankOf(f(k), n).listed, RankOf(f(k), n).steps
  {
    hide Inv, Works, Below, RankOf, CanWork;
    if CanWork(f(k)) {
      assert WorksOn(f(k), f(k + 1));
      var t :| Works(f(k), f(k + 1), t);
      WorkInv(f(k), f(k + 1), t);
      WorkRanks(f(k), f(k + 1), t, n);
      m := ComesToRest(f, k + 1, n);
    } else {
      m := k;
    }
  }

  lemma {:induction false} LogGrows(f: nat -> State, k: nat, m: nat)
    requires Unassisted(f) && k <= m
    ensures f(k).log <= f(m).log
    decreases m
  {
    hide Works, CanWork;
    if k < m {
      LogGrows(f, k, m - 1);
      if CanWork(f(m - 1)) {
        assert WorksOn(f(m - 1), f(m - 1 + 1));
        var t :| Works(f(m - 1), f(m), t);
        WorkAppends(f(m - 1), f(m), t);
      } else {
        assert f(m - 1 + 1) == f(m - 1);
      }
    }
  }

  lemma WorkAppends(s: State, s': State, t: Tid)
    requires Works(s, s', t)
    ensures s.log <= s'.log
  {
  }

  /** Progress: from any reachable state, whatever the scheduler does, the threads come to
      rest after finitely many steps, every command was run, those appended before among them,
      and nobody is inside the mailbox. */
  lemma EverythingRuns(run: seq<State>, i: nat, f: nat -> State) returns (m: nat)
    requires Run(run) && i < |run| && f(0) == run[i] && Unassisted(f)
    ensures f(m).done == f(m).log && Quiet(f(m)) && run[i].log <= f(m).done
  {
    hide Run, Inv, Works;
    RunInv(run, i);
    var n := Above(f(0).adders.Keys);
    m := ComesToRest(f, 0, n);
    LogGrows(f, 0, m);
    if f(m).done != f(m).log || !Quiet(f(m)) { SomeoneWorks(f(m)); }
  }
}
