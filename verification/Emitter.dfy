/** The mailbox of an emitter: a locked command list and an owner word.

    Any thread adds commands; whoever sets the owner pushes an emit task to its own task
    queue, and the thread that takes it runs the commands.  A step makes at most one
    access to the owner word or the list head, and the sections under the mutex are steps
    between a lock and an unlock.  Watchers that run inside a command may add commands to
    the same emitter, so a thread can be adding while it is running. */
module Emitter {
  import opened Common

  type Command(!new, ==)
  type Tid = nat

  /** Where a thread stands in add_command. */
  datatype Adder =
    | Idle
    | Wanting(c: Command)    // before the lock
    | Appending(c: Command)  // holds the lock
    | Unlocking              // appended, holds the lock
    | Claiming               // before the compare-and-swap of the owner
    | Pushing                // won it, before the push of the emit task

  /** Where a thread stands in process_commands. */
  datatype Runner =
    | Resting
    | Entered                      // took an emit task, before the lock
    | Holding                      // holds the lock
    | Taken(batch: seq<Command>)   // took the list, holds the lock
    | Running(batch: seq<Command>) // commands not run yet
    | Released                     // owner cleared, before the read of the head
    | Again                        // saw a head, before the compare-and-swap
    | Requeuing                    // won it, before the push

  /** `log` lists the commands in the order of appending, `done` those run. */
  datatype State = State(
    list: seq<Command>, lock: Option<Tid>, owner: Option<Tid>,
    adders: map<Tid, Adder>, runners: map<Tid, Runner>, tasks: map<Tid, nat>,
    log: seq<Command>, done: seq<Command>)

  predicate Init(s: State) {
    && s.list == [] && s.lock == None && s.owner == None && s.log == [] && s.done == []
    && s.adders.Keys == s.runners.Keys == s.tasks.Keys
    && forall t | t in s.adders :: s.adders[t] == Idle && s.runners[t] == Resting && s.tasks[t] == 0
  }

  predicate Thread(s: State, t: Tid) {
    t in s.adders && t in s.runners && t in s.tasks
  }

  function SetAdder(s: State, t: Tid, a: Adder): State {
    s.(adders := s.adders[t := a])
  }

  function SetRunner(s: State, t: Tid, r: Runner): State {
    s.(runners := s.runners[t := r])
  }

  function PushTask(s: State, t: Tid): State
    requires t in s.tasks
  {
    s.(tasks := s.tasks[t := s.tasks[t] + 1])
  }

  // ---- add_command ----

  predicate Begin(s: State, s': State, t: Tid, c: Command) {
    && Thread(s, t) && s.adders[t] == Idle && (s.runners[t].Resting? || s.runners[t].Running?)
    && s' == SetAdder(s, t, Wanting(c))
  }

  predicate Lock(s: State, s': State, t: Tid) {
    && Thread(s, t) && s.adders[t].Wanting? && s.lock == None
    && s' == SetAdder(s, t, Appending(s.adders[t].c)).(lock := Some(t))
  }

  predicate Append(s: State, s': State, t: Tid) {
    && Thread(s, t) && s.adders[t].Appending?
    && s' == SetAdder(s, t, Unlocking).(list := s.list + [s.adders[t].c], log := s.log + [s.adders[t].c])
  }

  predicate Unlock(s: State, s': State, t: Tid) {
    Thread(s, t) && s.adders[t] == Unlocking && s' == SetAdder(s, t, Claiming).(lock := None)
  }

  predicate Claim(s: State, s': State, t: Tid) {
    && Thread(s, t) && s.adders[t] == Claiming
    && s' == if s.owner == None then SetAdder(s, t, Pushing).(owner := Some(t)) else SetAdder(s, t, Idle)
  }

  predicate Push(s: State, s': State, t: Tid) {
    Thread(s, t) && s.adders[t] == Pushing && s' == PushTask(SetAdder(s, t, Idle), t)
  }

  // ---- process_commands ----

  /** Thread t stands at r and is not inside a nested add_command. */
  predicate At(s: State, t: Tid, r: Runner) {
    Thread(s, t) && s.adders[t] == Idle && s.runners[t] == r
  }

  predicate Start(s: State, s': State, t: Tid) {
    At(s, t, Resting) && s.tasks[t] > 0 && s' == SetRunner(s, t, Entered).(tasks := s.tasks[t := s.tasks[t] - 1])
  }

  predicate LockList(s: State, s': State, t: Tid) {
    At(s, t, Entered) && s.lock == None && s' == SetRunner(s, t, Holding).(lock := Some(t))
  }

  predicate TakeList(s: State, s': State, t: Tid) {
    At(s, t, Holding) && s' == SetRunner(s, t, Taken(s.list)).(list := [])
  }

  predicate UnlockList(s: State, s': State, t: Tid) {
    && Thread(s, t) && s.runners[t].Taken? && s.adders[t] == Idle
    && s' == SetRunner(s, t, Running(s.runners[t].batch)).(lock := None)
  }

  predicate Execute(s: State, s': State, t: Tid) {
    && Thread(s, t) && s.runners[t].Running? && s.adders[t] == Idle && s.runners[t].batch != []
    && s' == SetRunner(s, t, Running(s.runners[t].batch[1..])).(done := s.done + [s.runners[t].batch[0]])
  }

  predicate Release(s: State, s': State, t: Tid) {
    At(s, t, Running([])) && s' == SetRunner(s, t, Released).(owner := None)
  }

  predicate CheckHead(s: State, s': State, t: Tid) {
    At(s, t, Released) && s' == SetRunner(s, t, if s.list == [] then Resting else Again)
  }

  predicate Reclaim(s: State, s': State, t: Tid) {
    && At(s, t, Again)
    && s' == if s.owner == None then SetRunner(s, t, Requeuing).(owner := Some(t)) else SetRunner(s, t, Resting)
  }

  predicate Requeue(s: State, s': State, t: Tid) {
    At(s, t, Requeuing) && s' == PushTask(SetRunner(s, t, Resting), t)
  }

  predicate AddStep(s: State, s': State, t: Tid) {
    Lock(s, s', t) || Append(s, s', t) || Unlock(s, s', t) || Claim(s, s', t) || Push(s, s', t)
  }

  predicate RunStep(s: State, s': State, t: Tid) {
    || Start(s, s', t) || LockList(s, s', t) || TakeList(s, s', t) || UnlockList(s, s', t) || Execute(s, s', t)
    || Release(s, s', t) || CheckHead(s, s', t) || Reclaim(s, s', t) || Requeue(s, s', t)
  }

  /** A step of thread t other than the start of a new add_command. */
  predicate Works(s: State, s': State, t: Tid) {
    AddStep(s, s', t) || RunStep(s, s', t)
  }

  ghost predicate StepOf(s: State, s': State, t: Tid) {
    Works(s, s', t) || exists c :: Begin(s, s', t, c)
  }

  ghost predicate Next(s: State, s': State) {
    exists t :: StepOf(s, s', t)
  }

  ghost predicate Run(run: seq<State>) {
    && run != [] && Init(run[0])
    && forall i | 0 < i < |run| :: Next(run[i - 1], run[i])
  }

  // ---- the invariant ----

  function BatchOf(r: Runner): seq<Command> {
    if r.Taken? || r.Running? then r.batch else []
  }

  predicate InProcess(r: Runner) {
    r.Entered? || r.Holding? || r.Taken? || r.Running?
  }

  /** How often thread t is about to run, or runs, the commands. */
  function Tokens(s: State, t: Tid): nat
    requires Thread(s, t)
  {
    (if s.adders[t].Pushing? then 1 else 0)
    + (if s.runners[t].Requeuing? || InProcess(s.runners[t]) then 1 else 0)
    + s.tasks[t]
  }

  predicate HoldsLock(s: State, t: Tid)
    requires Thread(s, t)
  {
    s.adders[t].Appending? || s.adders[t].Unlocking? || s.runners[t].Holding? || s.runners[t].Taken?
  }

  /** Thread t will still look at the owner word. */
  predicate WillLook(s: State, t: Tid) {
    Thread(s, t) && (s.adders[t].Unlocking? || s.adders[t].Claiming? || s.runners[t].Released? || s.runners[t].Again?)
  }

  predicate TokenOk(s: State, t: Tid) {
    Thread(s, t) ==> Tokens(s, t) == if s.owner == Some(t) then 1 else 0
  }

  predicate LockedOk(s: State, t: Tid) {
    Thread(s, t) ==> (HoldsLock(s, t) <==> s.lock == Some(t))
  }

  predicate NestOk(s: State, t: Tid) {
    Thread(s, t) ==> s.adders[t] != Idle ==> s.runners[t].Resting? || s.runners[t].Running?
  }

  ghost predicate ThreadsOk(s: State) {
    && s.adders.Keys == s.runners.Keys == s.tasks.Keys
    && (forall t :: NestOk(s, t))
    && (s.owner.Some? ==> Thread(s, s.owner.value)) && (s.lock.Some? ==> Thread(s, s.lock.value))
  }

  ghost predicate TokensOk(s: State) {
    forall t :: TokenOk(s, t)
  }

  ghost predicate LockOk(s: State) {
    forall t :: LockedOk(s, t)
  }

  function Batch(s: State): seq<Command> {
    if s.owner.Some? && s.owner.value in s.runners then BatchOf(s.runners[s.owner.value]) else []
  }

  ghost predicate InOrder(s: State) {
    s.log == s.done + Batch(s) + s.list
  }

  ghost predicate Watched(s: State) {
    s.list != [] && s.owner == None ==> exists t :: WillLook(s, t)
  }

  ghost predicate Inv(s: State) {
    ThreadsOk(s) && TokensOk(s) && LockOk(s) && InOrder(s) && Watched(s)
  }

  // ---- every step keeps the invariant ----

  /** A step of t changes nothing of the other threads. */
  ghost predicate Others(s: State, s': State, t: Tid) {
    && s'.adders.Keys == s.adders.Keys && s'.runners.Keys == s.runners.Keys && s'.tasks.Keys == s.tasks.Keys
    && forall u | u != t && Thread(s, u) ::
         s'.adders[u] == s.adders[u] && s'.runners[u] == s.runners[u] && s'.tasks[u] == s.tasks[u]
  }

  lemma WorkOthers(s: State, s': State, t: Tid)
    requires Works(s, s', t)
    ensures Thread(s, t) && Others(s, s', t)
  {
    hide AddStep, RunStep, Others;
    if AddStep(s, s', t) { AddOthers(s, s', t); } else { RunOthers(s, s', t); }
  }

  lemma AddOthers(s: State, s': State, t: Tid)
    requires AddStep(s, s', t)
    ensures Thread(s, t) && Others(s, s', t)
  {
  }

  lemma RunOthers(s: State, s': State, t: Tid)
    requires RunStep(s, s', t)
    ensures Thread(s, t) && Others(s, s', t)
  {
  }

  /** What a step does to the words the threads share, seen from the thread itself. */
  lemma WorkLocal(s: State, s': State, t: Tid)
    requires Works(s, s', t) && TokenOk(s, t) && LockedOk(s, t) && NestOk(s, t)
    ensures TokenOk(s', t) && LockedOk(s', t) && NestOk(s', t)
    ensures s'.owner == s.owner || (s.owner == None && s'.owner == Some(t)) || (s.owner == Some(t) && s'.owner == None)
    ensures s'.lock == s.lock || (s.lock == None && s'.lock == Some(t)) || (s.lock == Some(t) && s'.lock == None)
  {
    hide AddStep, RunStep, TokenOk, LockedOk, NestOk;
    if AddStep(s, s', t) { AddLocal(s, s', t); } else { RunLocal(s, s', t); }
  }

  lemma AddLocal(s: State, s': State, t: Tid)
    requires AddStep(s, s', t) && TokenOk(s, t) && LockedOk(s, t) && NestOk(s, t)
    ensures TokenOk(s', t) && LockedOk(s', t) && NestOk(s', t)
    ensures s'.owner == s.owner || (s.owner == None && s'.owner == Some(t))
    ensures s'.lock == s.lock || (s.lock == None && s'.lock == Some(t)) || (s.lock == Some(t) && s'.lock == None)
  {
  }

  lemma RunLocal(s: State, s': State, t: Tid)
    requires RunStep(s, s', t) && TokenOk(s, t) && LockedOk(s, t) && NestOk(s, t)
    ensures TokenOk(s', t) && LockedOk(s', t) && NestOk(s', t)
    ensures s'.owner == s.owner || (s.owner == None && s'.owner == Some(t)) || (s.owner == Some(t) && s'.owner == None)
    ensures s'.lock == s.lock || (s.lock == None && s'.lock == Some(t)) || (s.lock == Some(t) && s'.lock == None)
  {
  }

  lemma WorkThreads(s: State, s': State, t: Tid)
    requires ThreadsOk(s) && TokensOk(s) && LockOk(s) && Works(s, s', t)
    ensures ThreadsOk(s') && TokensOk(s') && LockOk(s')
  {
    hide Works, TokenOk, LockedOk, NestOk;
    WorkOthers(s, s', t);
    assert NestOk(s, t) && TokenOk(s, t) && LockedOk(s, t);
    WorkLocal(s, s', t);
    forall u | u != t
      ensures NestOk(s', u) && TokenOk(s', u) && LockedOk(s', u)
    {
      assert NestOk(s, u) && TokenOk(s, u) && LockedOk(s, u);
      OtherOk(s, s', t, u);
    }
  }

  lemma OtherOk(s: State, s': State, t: Tid, u: Tid)
    requires Others(s, s', t) && u != t && NestOk(s, u) && TokenOk(s, u) && LockedOk(s, u)
    requires s'.owner == s.owner || (s.owner == None && s'.owner == Some(t)) || (s.owner == Some(t) && s'.owner == None)
    requires s'.lock == s.lock || (s.lock == None && s'.lock == Some(t)) || (s.lock == Some(t) && s'.lock == None)
    ensures NestOk(s', u) && TokenOk(s', u) && LockedOk(s', u)
  {
  }

  /** The commands under way and in the list change only with the log and what was run. */
  lemma WorkOrder(s: State, s': State, t: Tid)
    requires TokenOk(s, t) && InOrder(s) && Works(s, s', t)
    ensures InOrder(s')
  {
    if Execute(s, s', t) {
      var b := s.runners[t].batch;
      assert s.done + b == s.done + [b[0]] + b[1..];
    } else if Append(s, s', t) {
      AppendOrder(s, s', t);
    } else if TakeList(s, s', t) {
      assert s.done + [] + s.list == s.done + s.list + [];
    } else {
      OrderKept(s, s', t);
    }
  }

  lemma AppendOrder(s: State, s': State, t: Tid)
    requires InOrder(s) && Append(s, s', t)
    ensures InOrder(s')
  {
    assert s.done + Batch(s) + (s.list + [s.adders[t].c]) == s.log + [s.adders[t].c];
  }

  lemma OrderKept(s: State, s': State, t: Tid)
    requires TokenOk(s, t) && InOrder(s) && Works(s, s', t) && !Execute(s, s', t) && !Append(s, s', t) && !TakeList(s, s', t)
    ensures InOrder(s')
  {
    hide InOrder, AddStep, RunStep, Batch;
    if AddStep(s, s', t) { AddKeeps(s, s', t); } else { RunKeeps(s, s', t); }
    SameOrder(s, s');
  }

  lemma AddKeeps(s: State, s': State, t: Tid)
    requires AddStep(s, s', t) && TokenOk(s, t) && !Append(s, s', t)
    ensures Batch(s') == Batch(s) && s'.list == s.list && s'.log == s.log && s'.done == s.done
  {
  }

  lemma RunKeeps(s: State, s': State, t: Tid)
    requires RunStep(s, s', t) && TokenOk(s, t) && !Execute(s, s', t) && !TakeList(s, s', t)
    ensures Batch(s') == Batch(s) && s'.list == s.list && s'.log == s.log && s'.done == s.done
  {
  }

  lemma SameOrder(s: State, s': State)
    requires InOrder(s) && Batch(s') == Batch(s) && s'.list == s.list && s'.log == s.log && s'.done == s.done
    ensures InOrder(s')
  {
  }

  lemma WorkLooks(s: State, s': State, t: Tid)
    requires Works(s, s', t) && s'.list != [] && s'.owner == None && !WillLook(s', t)
    ensures s.list != [] && s.owner == None && !WillLook(s, t)
  {
  }

  lemma WorkWatched(s: State, s': State, t: Tid)
    requires Watched(s) && Works(s, s', t)
    ensures Watched(s')
  {
    hide Works;
    WorkOthers(s, s', t);
    if s'.list != [] && s'.owner == None && !WillLook(s', t) {
      WorkLooks(s, s', t);
      var w :| WillLook(s, w);
      assert WillLook(s', w);
    }
  }

  lemma WorkInv(s: State, s': State, t: Tid)
    requires Inv(s) && Works(s, s', t)
    ensures Inv(s')
  {
    assert TokenOk(s, t);
    hide Works, ThreadsOk, LockOk, InOrder, Watched;
    WorkThreads(s, s', t);
    WorkOrder(s, s', t);
    WorkWatched(s, s', t);
  }

  lemma BeginInv(s: State, s': State, t: Tid, c: Command)
    requires Inv(s) && Begin(s, s', t, c)
    ensures Inv(s')
  {
    assert NestOk(s, t) && TokenOk(s, t) && LockedOk(s, t);
    assert NestOk(s', t) && TokenOk(s', t) && LockedOk(s', t);
    assert Others(s, s', t);
    forall u | u != t
      ensures NestOk(s', u) && TokenOk(s', u) && LockedOk(s', u)
    {
      assert NestOk(s, u) && TokenOk(s, u) && LockedOk(s, u);
    }
    if s'.list != [] && s'.owner == None {
      var w :| WillLook(s, w);
      assert WillLook(s', w);
    }
  }

  lemma {:induction false} RunInv(run: seq<State>, i: nat)
    requires Run(run) && i < |run|
    ensures Inv(run[i])
  {
    hide Works, Begin;
    if i > 0 {
      RunInv(run, i - 1);
      assert Next(run[i - 1], run[i]);
      var t :| StepOf(run[i - 1], run[i], t);
      if Works(run[i - 1], run[i], t) {
        WorkInv(run[i - 1], run[i], t);
      } else {
        var c :| Begin(run[i - 1], run[i], t, c);
        BeginInv(run[i - 1], run[i], t, c);
      }
    }
  }

  // ---- what it gives ----

  /** The owner is set exactly when one emit task is pushed, queued or run for the emitter,
      and it is the owner's. */
  lemma OwnerIsTheOnlyToken(run: seq<State>, i: nat, t: Tid)
    requires Run(run) && i < |run| && Thread(run[i], t)
    ensures Tokens(run[i], t) == if run[i].owner == Some(t) then 1 else 0
  {
    RunInv(run, i);
    assert TokenOk(run[i], t);
  }

  /** Only the owner is inside process_commands, so no two threads run commands of one
      emitter at a time. */
  lemma RunnerIsOwner(run: seq<State>, i: nat, t: Tid)
    requires Run(run) && i < |run| && Thread(run[i], t) && InProcess(run[i].runners[t])
    ensures run[i].owner == Some(t)
    ensures forall u | Thread(run[i], u) && InProcess(run[i].runners[u]) :: u == t
  {
    RunInv(run, i);
    hide Run;
    forall u | Thread(run[i], u) && InProcess(run[i].runners[u])
      ensures run[i].owner == Some(u)
    {
      assert TokenOk(run[i], u) && Tokens(run[i], u) >= 1;
    }
  }

  /** Commands run in the order they were appended, each exactly once: what was run, the
      batch under way and the list make up the append order. */
  lemma ExactlyOnceInOrder(run: seq<State>, i: nat)
    requires Run(run) && i < |run|
    ensures run[i].log == run[i].done + Batch(run[i]) + run[i].list
    ensures run[i].done <= run[i].log
  {
    RunInv(run, i);
    assert run[i].done + Batch(run[i]) + run[i].list == run[i].done + (Batch(run[i]) + run[i].list);
  }

  /** Every thread is outside add_command and process_commands. */
  ghost predicate Quiet(s: State) {
    forall t | Thread(s, t) :: s.adders[t] == Idle && s.runners[t] == Resting
  }

  /** No lost wake-up: when no thread is in the middle of something, commands that were
      not run have an owner, and a task of that owner is queued for them. */
  lemma NoLostWakeUp(run: seq<State>, i: nat)
    requires Run(run) && i < |run| && Quiet(run[i]) && run[i].done != run[i].log
    ensures run[i].owner.Some? && Thread(run[i], run[i].owner.value) && run[i].tasks[run[i].owner.value] == 1
  {
    hide Run, Inv, Quiet;
    RunInv(run, i);
    QuietHasTask(run[i]);
  }

  lemma QuietHasTask(s: State)
    requires Inv(s) && Quiet(s) && s.done != s.log
    ensures s.owner.Some? && Thread(s, s.owner.value) && s.tasks[s.owner.value] == 1
  {
    assert s.owner.Some? && Thread(s, s.owner.value) ==> Batch(s) == [];
    assert s.done + [] + [] == s.done;
    assert s.list != [];
    assert forall t :: !WillLook(s, t);
    assert TokenOk(s, s.owner.value);
  }

  /** The protocol does not get stuck: while a command was not run, some thread can go on
      without any further command being added. */
  lemma Progress(run: seq<State>, i: nat)
    requires Run(run) && i < |run| && run[i].done != run[i].log
    ensures exists t, s' :: Works(run[i], s', t)
  {
    hide Run, Inv, Works;
    RunInv(run, i);
    SomeoneWorks(run[i]);
  }

  lemma SomeoneWorks(s: State)
    requires Inv(s) && (s.done != s.log || !Quiet(s))
    ensures exists t, s' :: Works(s, s', t)
  {
    hide Works, InOrder, TokensOk, LockOk, Watched;
    if !Quiet(s) {
      var t :| Thread(s, t) && (s.adders[t] != Idle || s.runners[t] != Resting);
      if s.lock.Some? && HoldsLock(s, t) == false {
        HolderWorks(s, s.lock.value);
      } else {
        BusyWorks(s, t);
      }
    } else {
      QuietHasTask(s);
      var t := s.owner.value;
      assert Start(s, SetRunner(s, t, Entered).(tasks := s.tasks[t := s.tasks[t] - 1]), t);
      StartWorks(s, SetRunner(s, t, Entered).(tasks := s.tasks[t := s.tasks[t] - 1]), t);
    }
  }

  lemma StartWorks(s: State, s': State, t: Tid)
    requires Start(s, s', t)
    ensures Works(s, s', t)
  {
  }

  lemma HolderWorks(s: State, t: Tid)
    requires Inv(s) && s.lock == Some(t)
    ensures exists s' :: Works(s, s', t)
  {
    hide InOrder, TokensOk, Watched;
    assert LockedOk(s, t) && NestOk(s, t);
    if s.adders[t].Appending? {
      assert Works(s, SetAdder(s, t, Unlocking).(list := s.list + [s.adders[t].c], log := s.log + [s.adders[t].c]), t);
    } else if s.adders[t].Unlocking? {
      assert Works(s, SetAdder(s, t, Claiming).(lock := None), t);
    } else if s.runners[t].Holding? {
      assert Works(s, SetRunner(s, t, Taken(s.list)).(list := []), t);
    } else {
      assert Works(s, SetRunner(s, t, Running(s.runners[t].batch)).(lock := None), t);
    }
  }

  /** A thread in the middle of something can go on unless it waits for the lock. */
  lemma BusyWorks(s: State, t: Tid)
    requires Inv(s) && Thread(s, t) && (s.adders[t] != Idle || s.runners[t] != Resting)
    requires s.lock == None || HoldsLock(s, t)
    ensures exists s' :: Works(s, s', t)
  {
    hide InOrder, TokensOk, Watched;
    assert LockedOk(s, t);
    if HoldsLock(s, t) {
      HolderWorks(s, t);
    } else if s.adders[t] != Idle {
      AdderWorks(s, t);
    } else {
      RunnerWorks(s, t);
    }
  }

  lemma AdderWorks(s: State, t: Tid)
    requires Thread(s, t) && s.lock == None && (s.adders[t].Wanting? || s.adders[t].Claiming? || s.adders[t].Pushing?)
    ensures exists s' :: Works(s, s', t)
  {
    match s.adders[t]
    case Wanting(c) => assert Works(s, SetAdder(s, t, Appending(c)).(lock := Some(t)), t);
    case Claiming =>
      assert Works(s, if s.owner == None then SetAdder(s, t, Pushing).(owner := Some(t)) else SetAdder(s, t, Idle), t);
    case Pushing => assert Works(s, PushTask(SetAdder(s, t, Idle), t), t);
  }

  lemma RunnerWorks(s: State, t: Tid)
    requires Thread(s, t) && s.lock == None && s.adders[t] == Idle
    requires s.runners[t].Entered? || s.runners[t].Running? || s.runners[t].Released? || s.runners[t].Again? || s.runners[t].Requeuing?
    ensures exists s' :: Works(s, s', t)
  {
    match s.runners[t]
    case Entered => assert Works(s, SetRunner(s, t, Holding).(lock := Some(t)), t);
    case Running(b) =>
      if b == [] { assert Works(s, SetRunner(s, t, Released).(owner := None), t); }
      else { assert Works(s, SetRunner(s, t, Running(b[1..])).(done := s.done + [b[0]]), t); }
    case Released => assert Works(s, SetRunner(s, t, if s.list == [] then Resting else Again), t);
    case Again =>
      assert Works(s, if s.owner == None then SetRunner(s, t, Requeuing).(owner := Some(t)) else SetRunner(s, t, Resting), t);
    case Requeuing => assert Works(s, PushTask(SetRunner(s, t, Resting), t), t);
  }
}
