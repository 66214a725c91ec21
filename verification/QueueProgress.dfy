/** Pushes of the queue always end: without new pushes, every schedule of the producers comes
    to rest after finitely many steps, with or without a consumer, and then every push that
    was under way is published. */
module QueueProgress {
  import opened Common
  import opened QueueProtocol
  import opened QueueInvariant
  import opened QueueTheorems

  /** What is left to do, compared component by component: pushes under way, those that have
      no slot yet, and the steps left under these conditions. */
  datatype Rank = Rank(pushes: nat, unreserved: nat, steps: nat)

  predicate Less(a: Rank, b: Rank) {
    || a.pushes < b.pushes
    || (a.pushes == b.pushes && a.unreserved < b.unreserved)
    || (a.pushes == b.pushes && a.unreserved == b.unreserved && a.steps < b.steps)
  }

  /** While the chunk is full a thread that tries goes on to wait; after that it is the other
      way round. */
  function StepsLeft(p: Producer, full: bool): nat {
    match p
    case Idle => 0
    case Trying(_) => if full then 2 else 1
    case Spinning(_) => if full then 1 else 2
    case Reserved(_, _) => 3
    case Aimed(_, _, _) => 2
    case Written(_, _, _) => 1
    case Last(_) => 9
    case LastAimed(_, _) => 8
    case LastWritten(_, _) => 7
    case Expanding(_, _, _) => 6
    case Linked(_, _, _) => 5
    case Turn(_, _, _) => 4
    case Moved(_, _, _) => 3
    case Swapped(_) => 2
  }

  predicate Full(s: State) {
    s.wpos >= s.cap
  }

  ghost function UnderWay(s: State): nat -> nat {
    (t: nat) => if t in s.producers && !s.producers[t].Idle? then 1 else 0
  }

  ghost function Unreserved(s: State): nat -> nat {
    (t: nat) => if t in s.producers && (s.producers[t].Trying? || s.producers[t].Spinning?) then 1 else 0
  }

  ghost function Steps(s: State): nat -> nat {
    (t: nat) => if t in s.producers then StepsLeft(s.producers[t], Full(s)) else 0
  }

  /** The threads are numbered below n. */
  ghost function RankOf(s: State, n: nat): Rank {
    Rank(Total(UnderWay(s), n), Total(Unreserved(s), n), Total(Steps(s), n))
  }

  ghost predicate Below(s: State, n: nat) {
    forall t: Tid | t in s.producers :: t < n
  }

  /** The values thread t has pushed or is pushing. */
  function Due(s: State, t: Tid): seq<Task>
    requires t in s.producers && t in s.done
  {
    s.done[t] + if s.producers[t].Idle? then [] else [s.producers[t].val]
  }

  /** What a step of a push does: it moves one thread, towards the end of its push. */
  ghost predicate Moves(s: State, s': State, t: Tid) {
    && t in s.producers && t in s.done && t in s'.producers && t in s'.done
    && s'.producers == s.producers[t := s'.producers[t]] && s'.done == s.done[t := s'.done[t]]
    && s'.cap == s.cap && !s.producers[t].Idle? && Due(s', t) == Due(s, t)
    && (|| UnderWay(s')(t) < UnderWay(s)(t)
        || (UnderWay(s')(t) == UnderWay(s)(t) && Unreserved(s')(t) < Unreserved(s)(t))
        || (UnderWay(s')(t) == UnderWay(s)(t) && Unreserved(s')(t) == Unreserved(s)(t)
            && Full(s') == Full(s) && Steps(s')(t) < Steps(s)(t)))
  }

  lemma FetchMoves(s: State, s': State, t: Tid, v: Task)
    requires FetchFree(s, s', t, v) || FetchLast(s, s', t, v)
    ensures Moves(s, s', t)
  {
  }

  lemma WaitMoves(s: State, s': State, t: Tid, v: Task)
    requires FetchOver(s, s', t, v) || Retry(s, s', t, v)
    ensures Moves(s, s', t)
  {
  }

  /** A thread that has a slot goes on with its push. */
  predicate Further(p: Producer, q: Producer) {
    && !p.Idle? && !q.Idle? && p.val == q.val && !p.Trying? && !p.Spinning? && !q.Trying? && !q.Spinning?
    && StepsLeft(q, true) < StepsLeft(p, true)
  }

  lemma GoesOn(s: State, s': State, t: Tid)
    requires t in s.producers && t in s.done && t in s'.producers && Further(s.producers[t], s'.producers[t])
    requires s'.producers == s.producers[t := s'.producers[t]] && s'.done == s.done && s'.cap == s.cap && s'.wpos == s.wpos
    ensures Moves(s, s', t)
  {
    assert s.done == s.done[t := s.done[t]];
  }

  lemma SlotMoves(s: State, s': State, t: Tid, v: Task, n: nat, p: Loc, nx: Loc)
    requires Aim(s, s', t, v, n) || Store(s, s', t, v, p, nx)
    ensures Moves(s, s', t)
  {
    hide Moves;
    GoesOn(s, s', t);
  }

  lemma PublishMoves(s: State, s': State, t: Tid, v: Task, p: Loc, nx: Loc)
    requires Publish(s, s', t, v, p, nx)
    ensures Moves(s, s', t)
  {
    hide Moves;
    PushEnds(s, s', t, v);
  }

  /** A push is over. */
  lemma PushEnds(s: State, s': State, t: Tid, v: Task)
    requires t in s.producers && t in s.done && !s.producers[t].Idle? && s.producers[t].val == v && s'.cap == s.cap
    requires s'.producers == s.producers[t := Idle] && s'.done == s.done[t := s.done[t] + [v]]
    ensures Moves(s, s', t)
  {
    assert s.done[t] + [v] + [] == s.done[t] + [v];
  }

  lemma LastMoves(s: State, s': State, t: Tid, v: Task, p: Loc, c: Chunk)
    requires AimLast(s, s', t, v) || StoreLast(s, s', t, v, p) || HasNext(s, s', t, v, p)
          || TakeCached(s, s', t, v, p) || Allocate(s, s', t, v, p, c)
    ensures Moves(s, s', t)
  {
    hide Moves;
    GoesOn(s, s', t);
  }

  lemma SwapMoves(s: State, s': State, t: Tid, v: Task, p: Loc, nx: Loc, c: Chunk)
    requires Link(s, s', t, v, p, c) || SeeTurn(s, s', t, v, p, nx) || Move(s, s', t, v, p, nx) || PublishLast(s, s', t, v, p, nx)
    ensures Moves(s, s', t)
  {
    hide Moves;
    GoesOn(s, s', t);
  }

  lemma ResetMoves(s: State, s': State, t: Tid, v: Task)
    requires Reset(s, s', t, v)
    ensures Moves(s, s', t)
  {
    hide Moves;
    PushEnds(s, s', t, v);
  }

  lemma StepMoves(s: State, s': State, step: Step) returns (t: Tid)
    requires NextStep(s, s', step) && MovesSomePush(step)
    ensures Moves(s, s', t)
  {
    hide Begin, FetchFree, FetchLast, FetchOver, Retry, Aim, Store, Publish, AimLast, StoreLast, HasNext, TakeCached,
      Allocate, Link, SeeTurn, Move, PublishLast, Reset, CheckReadable, Read, Advance, MoveRead, DropHead, PushCached, AdvanceFirst, Moves;
    t := step.t;
    match step {
      case FetchFreeStep(t, v) => FetchMoves(s, s', t, v);
      case FetchLastStep(t, v) => FetchMoves(s, s', t, v);
      case FetchOverStep(t, v) => WaitMoves(s, s', t, v);
      case RetryStep(t, v) => WaitMoves(s, s', t, v);
      case AimStep(t, v, n) => SlotMoves(s, s', t, v, n, s.wp, s.wp);
      case StoreStep(t, v, p, nx) => SlotMoves(s, s', t, v, 0, p, nx);
      case PublishStep(t, v, p, nx) => PublishMoves(s, s', t, v, p, nx);
      case AimLastStep(t, v) => LastMoves(s, s', t, v, s.wp, s.w);
      case StoreLastStep(t, v, p) => LastMoves(s, s', t, v, p, s.w);
      case HasNextStep(t, v, p) => LastMoves(s, s', t, v, p, s.w);
      case TakeCachedStep(t, v, p) => LastMoves(s, s', t, v, p, s.w);
      case AllocateStep(t, v, p, c) => LastMoves(s, s', t, v, p, c);
      case LinkStep(t, v, p, c) => SwapMoves(s, s', t, v, p, s.wp, c);
      case SeeTurnStep(t, v, p, nx) => SwapMoves(s, s', t, v, p, nx, s.w);
      case MoveStep(t, v, p, nx) => SwapMoves(s, s', t, v, p, nx, s.w);
      case PublishLastStep(t, v, p, nx) => SwapMoves(s, s', t, v, p, nx, s.w);
      case ResetStep(t, v) => ResetMoves(s, s', t, v);
    }
  }

  /** Every step of a push leaves less to do. */
  lemma MoveRanks(s: State, s': State, t: Tid, n: nat)
    requires Moves(s, s', t) && Below(s, n)
    ensures Below(s', n) && Less(RankOf(s', n), RankOf(s, n))
  {
    hide Total, Due;
    OthersSame(s, s', t);
    TotalChange(UnderWay(s), UnderWay(s'), n, t);
    TotalChange(Unreserved(s), Unreserved(s'), n, t);
    if Full(s') == Full(s) { TotalChange(Steps(s), Steps(s'), n, t); }
  }

  lemma OthersSame(s: State, s': State, t: Tid)
    requires t in s'.producers && t in s.producers && s'.producers == s.producers[t := s'.producers[t]]
    ensures forall u: nat | u != t :: UnderWay(s)(u) == UnderWay(s')(u) && Unreserved(s)(u) == Unreserved(s')(u)
    ensures Full(s') == Full(s) ==> forall u: nat | u != t :: Steps(s)(u) == Steps(s')(u)
  {
  }

  /** The consumer does not undo any of it. */
  lemma PopKeepsRank(s: State, s': State, step: Step, n: nat)
    requires NextStep(s, s', step) && !MovesSomePush(step) && !step.BeginStep?
    ensures RankOf(s', n) == RankOf(s, n) && s'.producers == s.producers && s'.done == s.done
  {
    hide Total;
    PopKeeps(s, s', step);
    assert forall t: nat :: UnderWay(s')(t) == UnderWay(s)(t) && Unreserved(s')(t) == Unreserved(s)(t) && Steps(s')(t) == Steps(s)(t);
    SameTotal(UnderWay(s), UnderWay(s'), n);
    SameTotal(Unreserved(s), Unreserved(s'), n);
    SameTotal(Steps(s), Steps(s'), n);
  }

  lemma PopKeeps(s: State, s': State, step: Step)
    requires NextStep(s, s', step) && !MovesSomePush(step) && !step.BeginStep?
    ensures s'.producers == s.producers && s'.done == s.done && s'.wpos == s.wpos && s'.cap == s.cap
  {
    hide FetchFree, FetchLast, FetchOver, Retry, Aim, Store, Publish, AimLast, StoreLast, HasNext, TakeCached,
      Allocate, Link, SeeTurn, Move, PublishLast, Reset;
  }

  lemma SameTotal(f: nat -> nat, g: nat -> nat, n: nat)
    requires forall t: nat :: g(t) == f(t)
    ensures Total(g, n) == Total(f, n)
  {
    TotalChange(f, g, n, n);
  }

  // ---- schedules ----

  ghost predicate CanPush(s: State) {
    exists step, s' :: NextStep(s, s', step) && MovesSomePush(step)
  }

  ghost predicate PushesOn(s: State, s': State) {
    exists step :: NextStep(s, s', step) && MovesSomePush(step)
  }

  /** Any order in which the producers go on, with no new pushes and no consumer, for as long
      as one of them can. */
  ghost predicate Unassisted(f: nat -> State) {
    forall k: nat :: if CanPush(f(k)) then PushesOn(f(k), f(k + 1)) else f(k + 1) == f(k)
  }

  ghost predicate SameDue(s: State, s': State) {
    && s.producers.Keys == s'.producers.Keys && s.producers.Keys == s.done.Keys && s'.producers.Keys == s'.done.Keys
    && forall t | t in s.producers :: Due(s', t) == Due(s, t)
  }

  lemma MoveKeepsDue(s: State, s': State, t: Tid)
    requires Moves(s, s', t) && s.producers.Keys == s.done.Keys
    ensures SameDue(s, s')
  {
  }

  lemma {:induction false} ComesToRest(f: nat -> State, k: nat, n: nat) returns (m: nat)
    requires Unassisted(f) && Inv(f(k)) && Below(f(k), n)
    ensures m >= k && Inv(f(m)) && !CanPush(f(m)) && SameDue(f(k), f(m))
    decreases RankOf(f(k), n).pushes, RankOf(f(k), n).unreserved, RankOf(f(k), n).steps
  {
    hide Inv, NextStep, Below, RankOf, CanPush, Moves, SameDue, MovesSomePush;
    DueOf(f(k));
    if CanPush(f(k)) {
      assert PushesOn(f(k), f(k + 1));
      var step :| NextStep(f(k), f(k + 1), step) && MovesSomePush(step);
      StepInv(f(k), f(k + 1), step);
      var t := StepMoves(f(k), f(k + 1), step);
      MoveRanks(f(k), f(k + 1), t, n);
      MoveKeepsDue(f(k), f(k + 1), t);
      m := ComesToRest(f, k + 1, n);
      DueTransitive(f(k), f(k + 1), f(m));
    } else {
      m := k;
    }
  }

  lemma DueOf(s: State)
    requires Inv(s)
    ensures s.producers.Keys == s.done.Keys && SameDue(s, s)
  {
    hide Lists, Ends, Holders, Contents, Completed;
  }

  lemma DueTransitive(a: State, b: State, c: State)
    requires SameDue(a, b) && SameDue(b, c)
    ensures SameDue(a, c)
  {
    hide Due;
  }

  /** Progress: from any reachable state, whatever the scheduler does, the producers come to
      rest after finitely many steps.  Then every push that was under way is completed, in
      its thread's order, and everything reserved is published. */
  lemma EveryPushCompletes(run: seq<State>, i: nat, f: nat -> State) returns (m: nat)
    requires Run(run) && i < |run| && f(0) == run[i] && Unassisted(f)
    ensures f(m).published == f(m).log
    ensures forall t | t in run[i].producers ::
      && t in run[i].done && t in f(m).producers && t in f(m).done
      && f(m).producers[t] == Idle && f(m).done[t] == Due(run[i], t) == PushedBy(f(m).published, t)
  {
    hide Run, Inv, NextStep, Due, Moves, CanPush, MovesSomePush;
    RunInv(run, i);
    var n := Above(f(0).producers.Keys);
    DueOf(f(0));
    m := ComesToRest(f, 0, n);
    forall t | t in f(m).producers
      ensures f(m).producers[t] == Idle
    {
      if f(m).producers[t] != Idle {
        var step, s' := SomeThreadMoves(f(m), t);
        CanMove(f(m), s', step);
      }
    }
    AtRest(f(m));
  }

  lemma CanMove(s: State, s': State, step: Step)
    requires NextStep(s, s', step) && MovesSomePush(step)
    ensures CanPush(s)
  {
  }

  lemma AtRest(s: State)
    requires Inv(s) && forall t | t in s.producers :: s.producers[t] == Idle
    ensures s.published == s.log
    ensures forall t | t in s.producers :: t in s.done && s.done[t] == Due(s, t) == PushedBy(s.published, t)
  {
    hide Lists, Contents, ConsumerOk, Positions;
    assert |s.published| < |s.log| ==> Held(s.log[|s.published|].tid, |s.published|, s.producers, s.w, s.cap, s.base);
    assert s.log[..|s.log|] == s.log;
  }
}
