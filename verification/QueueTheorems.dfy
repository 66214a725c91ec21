/** What every run of the queue machine guarantees. */
module QueueTheorems {
  import opened Common
  import opened QueueProtocol
  import opened QueueInvariant
  import opened QueueThreads
  import opened QueueSteps
  import opened QueueInduction

  /** `c->next` is never set when position N is taken: expand() always runs. */
  lemma NextIsNeverSet(s: State, s': State, t: Tid, v: Task, p: Loc)
    requires Inv(s)
    ensures !HasNext(s, s', t, v, p)
  {
    hide Lists, Ends, Holders, Contents, Completed;
    assert t in s.producers ==> ThreadOk(ViewOf(s), t, s.producers[t]);
  }

  lemma StepInv(s: State, s': State, step: Step)
    requires Inv(s) && NextStep(s, s', step)
    ensures Inv(s')
  {
    hide Inv, Begin, FetchFree, FetchLast, FetchOver, Retry, Aim, Store, Publish, AimLast, StoreLast, HasNext, TakeCached,
      Allocate, Link, SeeTurn, Move, PublishLast, Reset, CheckReadable, Read, Advance, MoveRead, DropHead, PushCached, AdvanceFirst;
    match step {
      case BeginStep(t, v) => BeginInv(s, s', t, v);
      case FetchFreeStep(t, v) => FetchFreeInv(s, s', t, v);
      case FetchLastStep(t, v) => FetchLastInv(s, s', t, v);
      case FetchOverStep(t, v) => FetchOverInv(s, s', t, v);
      case RetryStep(t, v) => RetryInv(s, s', t, v);
      case AimStep(t, v, n) => AimInv(s, s', t, v, n);
      case StoreStep(t, v, p, nx) => StoreInv(s, s', t, v, p, nx);
      case PublishStep(t, v, p, nx) => PublishInv(s, s', t, v, p, nx);
      case AimLastStep(t, v) => AimLastInv(s, s', t, v);
      case StoreLastStep(t, v, p) => StoreLastInv(s, s', t, v, p);
      case HasNextStep(t, v, p) => NextIsNeverSet(s, s', t, v, p);
      case TakeCachedStep(t, v, p) => TakeCachedInv(s, s', t, v, p);
      case AllocateStep(t, v, p, c) => AllocateInv(s, s', t, v, p, c);
      case LinkStep(t, v, p, c) => LinkInv(s, s', t, v, p, c);
      case SeeTurnStep(t, v, p, nx) => SeeTurnInv(s, s', t, v, p, nx);
      case MoveStep(t, v, p, nx) => MoveInv(s, s', t, v, p, nx);
      case PublishLastStep(t, v, p, nx) => PublishLastInv(s, s', t, v, p, nx);
      case ResetStep(t, v) => ResetInv(s, s', t, v);
      case CheckReadableStep => CheckReadableInv(s, s');
      case ReadStep(v) => ReadInv(s, s', v);
      case AdvanceStep => AdvanceInv(s, s');
      case MoveReadStep => MoveReadInv(s, s');
      case DropHeadStep(c) => DropHeadInv(s, s', c);
      case PushCachedStep(c) => PushCachedInv(s, s', c);
      case AdvanceFirstStep => AdvanceFirstInv(s, s');
    }
  }

  lemma StepOf(tr: seq<State>, i: nat) returns (step: Step)
    requires Run(tr) && i + 1 < |tr|
    ensures NextStep(tr[i], tr[i + 1], step)
  {
    assert Next(tr[i], tr[i + 1]);
    step :| NextStep(tr[i], tr[i + 1], step);
  }

  lemma {:induction false} RunInv(tr: seq<State>, i: nat)
    requires Run(tr) && i < |tr|
    ensures Inv(tr[i])
  {
    hide NextStep, Inv, Init, Next;
    if i == 0 {
      InitInv(tr[0]);
    } else {
      RunInv(tr, i - 1);
      var step := StepOf(tr, i - 1);
      hide Inv, NextStep;
      StepInv(tr[i - 1], tr[i], step);
    }
  }

  /** FIFO: at any moment of any run, the values handed out are the first values
      published, and publications happen in reservation order. */
  lemma Fifo(tr: seq<State>, i: nat)
    requires Run(tr) && i < |tr|
    ensures |tr[i].popped| <= |tr[i].published| <= |tr[i].log|
    ensures tr[i].popped == Values(tr[i].published)[..|tr[i].popped|]
    ensures tr[i].published == tr[i].log[..|tr[i].published|]
  {
    RunInv(tr, i);
    hide Lists, Threads, Holders, Contents, Completed, Positions, ConsumerOk;
  }

  /** Each push appears in the published sequence exactly once and in its thread's
      order: what thread t published is what it pushed, plus the push that is
      published but has not returned. */
  lemma ExactlyOnce(tr: seq<State>, i: nat, t: Tid)
    requires Run(tr) && i < |tr| && t in tr[i].producers
    ensures t in tr[i].done
    ensures PushedBy(tr[i].published, t)
         == tr[i].done[t] + if tr[i].producers[t].Swapped? then [tr[i].producers[t].val] else []
  {
    RunInv(tr, i);
    hide Lists, Holders, Contents, Ends;
  }

  /** What one step does to the history: it appends, and a pop appends the oldest
      published value that was not handed out yet. */
  lemma StepHistory(s: State, s': State, step: Step)
    requires Inv(s) && NextStep(s, s', step)
    ensures s.log <= s'.log && s.published <= s'.published && s.popped <= s'.popped
    ensures |s'.popped| > |s.popped| ==>
      |s.popped| < |s.published| && s'.popped == s.popped + [s.published[|s.popped|].val]
  {
    hide Lists, Ends, Threads, Holders, Contents, Completed;
    if step.ReadStep? {
      ReadsPublished(s, s', step.v);
    } else {
      hide Inv;
      AppendsOnly(s, s', step);
    }
  }

  lemma AppendsOnly(s: State, s': State, step: Step)
    requires NextStep(s, s', step) && !step.ReadStep?
    ensures s.log <= s'.log && s.published <= s'.published && s'.popped == s.popped
  {
    hide Begin, FetchOver, Retry, Aim, Store, AimLast, StoreLast, HasNext, TakeCached,
      Allocate, Link, SeeTurn, Move, Reset, CheckReadable, Read, Advance, MoveRead, DropHead, PushCached, AdvanceFirst;
    match step {
      case FetchFreeStep(t, v) =>
      case FetchLastStep(t, v) =>
      case PublishStep(t, v, p, nx) =>
      case PublishLastStep(t, v, p, nx) =>
      case _ => KeepsHistory(s, s', step);
    }
  }

  lemma KeepsHistory(s: State, s': State, step: Step)
    requires NextStep(s, s', step) && !step.ReadStep? && !step.FetchFreeStep? && !step.FetchLastStep?
    requires !step.PublishStep? && !step.PublishLastStep?
    ensures s'.log == s.log && s'.published == s.published && s'.popped == s.popped
  {
    hide Publish, PublishLast, FetchFree, FetchLast, Read;
  }

  /** History is never rewritten. */
  lemma {:induction false} HistoryGrows(tr: seq<State>, i: nat, j: nat)
    requires Run(tr) && i <= j < |tr|
    ensures tr[i].log <= tr[j].log && tr[i].published <= tr[j].published && tr[i].popped <= tr[j].popped
    decreases j
  {
    hide Run, Inv, NextStep;
    if i < j {
      HistoryGrows(tr, i, j - 1);
      RunInv(tr, j - 1);
      var step := StepOf(tr, j - 1);
      StepHistory(tr[j - 1], tr[j], step);
    }
  }

  /** Between two pops, `m_rp == m_wp` holds exactly when nothing is left to read. */
  lemma EmptyExactlyWhenEqual(tr: seq<State>, i: nat)
    requires Run(tr) && i < |tr| && tr[i].consumer == Ready
    ensures tr[i].rp == tr[i].wp <==> |tr[i].popped| == |tr[i].published|
  {
    RunInv(tr, i);
    hide Lists, Ends, Threads, Holders, Contents, Completed;
    ReadableMeansMore(tr[i]);
  }

  /** Conservation: once no push and no pop is under way and the queue is empty, every
      push of every thread was handed out, each once and in reservation order. */
  lemma NothingLostWhenQuiet(tr: seq<State>, i: nat)
    requires Run(tr) && i < |tr| && tr[i].consumer == Ready && tr[i].rp == tr[i].wp
    requires forall t | t in tr[i].producers :: tr[i].producers[t] == Idle
    ensures tr[i].published == tr[i].log && tr[i].popped == Values(tr[i].log)
    ensures forall t | t in tr[i].producers :: t in tr[i].done && PushedBy(tr[i].log, t) == tr[i].done[t]
  {
    var s := tr[i];
    EmptyExactlyWhenEqual(tr, i);
    Fifo(tr, i);
    RunInv(tr, i);
    hide Run, Lists, ConsumerOk, Positions, Contents;
    assert |s.published| < |s.log| ==> Held(s.log[|s.published|].tid, |s.published|, s.producers, s.w, s.cap, s.base);
    assert s.log[..|s.log|] == s.log && Values(s.published)[..|s.published|] == Values(s.published);
  }

  /** The slot thread t is going to store into, or has stored into without having
      published it: it lies in a live chunk, so in none that is cached or being
      freed; no published value that was not read is in it; no other thread owns it. */
  lemma OwnedSlotIsPrivate(tr: seq<State>, i: nat, t: Tid, u: Tid)
    requires Run(tr) && i < |tr| && t in tr[i].producers && u in tr[i].producers && t != u
    requires Slot(tr[i].w, tr[i].cap, tr[i].producers[t]).Some?
    ensures
      var s := tr[i];
      var l := Slot(s.w, s.cap, s.producers[t]).value;
      && l.chunk in s.base && l.pos < s.cap && l.chunk !in s.cached && Dropped(s.consumer) != Some(l.chunk)
      && Number(s.base, l) >= |s.published|
      && Slot(s.w, s.cap, s.producers[u]) != Some(l)
  {
    var s := tr[i];
    RunInv(tr, i);
    hide LiveList, Ends, Holders, Contents, Completed;
    assert ThreadOk(ViewOf(s), t, s.producers[t]);
    assert ThreadOk(ViewOf(s), u, s.producers[u]);
    if Slot(s.w, s.cap, s.producers[u]).Some? {
      DistinctSlots(ViewOf(s), t, s.producers[t], u, s.producers[u]);
    }
    DroppedIsDead(s);
  }

  lemma DroppedIsDead(s: State)
    requires Ends(s)
    ensures Dropped(s.consumer).Some? ==> Dropped(s.consumer).value !in s.base
  {
  }

  /** While the consumer recycles a chunk, nobody else has any part in it: it is neither live
      nor cached, the consumer reads elsewhere, no producer holds a slot of it or is about to
      link it, and nothing is published into it next. */
  lemma RecycledIsDead(tr: seq<State>, i: nat, t: Tid)
    requires Run(tr) && i < |tr| && Dropped(tr[i].consumer).Some? && t in tr[i].producers
    ensures
      var s := tr[i];
      var d := Dropped(s.consumer).value;
      && d !in s.base && d !in s.cached && d != s.r && d != s.w && d != s.wp.chunk
      && (Slot(s.w, s.cap, s.producers[t]).Some? ==> Slot(s.w, s.cap, s.producers[t]).value.chunk != d)
      && (s.producers[t].Expanding? ==> s.producers[t].chunk != d)
  {
    hide Run, Lists, Ends, Threads, Holders, Contents, Completed;
    RunInv(tr, i);
    RecycledIsOff(tr[i]);
    RecycledIsNotHeld(tr[i], t);
  }

  lemma RecycledIsOff(s: State)
    requires Ends(s) && Dropped(s.consumer).Some?
    ensures
      var d := Dropped(s.consumer).value;
      d !in s.base && d !in s.cached && d != s.r && d != s.w && d != s.wp.chunk
  {
    hide History;
  }

  lemma RecycledIsNotHeld(s: State, t: Tid)
    requires Threads(s) && t in s.producers && Dropped(s.consumer).Some? && Dropped(s.consumer).value !in s.base
    ensures
      var d := Dropped(s.consumer).value;
      && (Slot(s.w, s.cap, s.producers[t]).Some? ==> Slot(s.w, s.cap, s.producers[t]).value.chunk != d)
      && (s.producers[t].Expanding? ==> s.producers[t].chunk != d)
  {
    assert ThreadOk(ViewOf(s), t, s.producers[t]);
  }

  /** The consumer reads inside a live chunk, and a slot that was written. */
  lemma ReadsLiveSlot(tr: seq<State>, i: nat)
    requires Run(tr) && i < |tr| && tr[i].consumer == Reading
    ensures
      var s := tr[i];
      && s.rp.chunk in s.base && s.rp.chunk !in s.cached && s.rp.pos < s.cap
      && s.rp in s.data && |s.popped| < |s.published| && s.data[s.rp] == s.published[|s.popped|].val
  {
    RunInv(tr, i);
    hide LiveList, Threads, Holders, Completed;
  }

  // ---- progress ----

  predicate MovesSomePush(step: Step) {
    !step.BeginStep? && !step.CheckReadableStep? && !step.ReadStep? && !step.AdvanceStep? && !step.MoveReadStep?
    && !step.DropHeadStep? && !step.PushCachedStep? && !step.AdvanceFirstStep?
  }

  /** Outside a push, or waiting for another thread. */
  predicate Waits(p: Producer) {
    p.Idle? || p.Spinning? || p.Written? || p.Linked? || p.Moved?
  }

  lemma FreshChunk(next: map<Chunk, Option<Chunk>>) returns (c: Chunk)
    ensures c !in next
  {
    var bound := Above(next.Keys);
    c := bound;
  }

  lemma TryingMoves(s: State, t: Tid, v: Task) returns (step: Step, s': State)
    requires At(s, t, Trying(v))
    ensures NextStep(s, s', step) && MovesSomePush(step)
  {
    if s.wpos + 1 < s.cap {
      step := FetchFreeStep(t, v);
      s' := Set(s, t, Reserved(v, s.wpos + 1)).(wpos := s.wpos + 1, log := s.log + [Entry(t, v)]);
    } else if s.wpos + 1 == s.cap {
      step := FetchLastStep(t, v);
      s' := Set(s, t, Last(v)).(wpos := s.wpos + 1, log := s.log + [Entry(t, v)], swapper := Some(t));
    } else {
      step := FetchOverStep(t, v);
      s' := Set(s, t, Spinning(v)).(wpos := s.wpos + 1);
    }
  }

  lemma ExpanderMoves(s: State, t: Tid) returns (step: Step, s': State)
    requires Lists(s) && t in s.producers && t in s.done && s.w in s.next
    requires s.producers[t].LastWritten? && s.next[s.w] == None
    ensures NextStep(s, s', step) && MovesSomePush(step)
  {
    hide LiveList, NextStep;
    var v, p := s.producers[t].val, s.producers[t].p;
    if s.free == None {
      var c := FreshChunk(s.next);
      step := AllocateStep(t, v, p, c);
      s' := Set(s, t, Expanding(v, p, c)).(next := s.next[c := None]);
      assert Allocate(s, s', t, v, p, c);
    } else {
      assert s.cached[0] in s.cached;
      step := TakeCachedStep(t, v, p);
      s' := Set(s, t, Expanding(v, p, s.free.value)).(
        free := s.next[s.free.value], next := s.next[s.free.value := None], cached := s.cached[1..]);
      assert TakeCached(s, s', t, v, p);
    }
    StepIs(s, s', step);
  }

  lemma StepIs(s: State, s': State, step: Step)
    requires match step
      case AllocateStep(t, v, p, c) => Allocate(s, s', t, v, p, c)
      case TakeCachedStep(t, v, p) => TakeCached(s, s', t, v, p)
      case _ => false
    ensures NextStep(s, s', step)
  {
  }

  lemma StorerMoves(s: State, t: Tid) returns (step: Step, s': State)
    requires t in s.producers && t in s.done && ThreadOk(ViewOf(s), t, s.producers[t])
    requires s.producers[t].Reserved? || s.producers[t].Aimed? || s.producers[t].Last? || s.producers[t].LastAimed?
    ensures NextStep(s, s', step) && MovesSomePush(step)
  {
    match s.producers[t] {
      case Reserved(v, n) =>
        step := AimStep(t, v, n);
        s' := Set(s, t, Aimed(v, Loc(s.w, n - 1), Loc(s.w, n)));
      case Aimed(v, p, nx) =>
        step := StoreStep(t, v, p, nx);
        s' := Set(s, t, Written(v, p, nx)).(data := s.data[p := v]);
      case Last(v) =>
        step := AimLastStep(t, v);
        s' := Set(s, t, LastAimed(v, Loc(s.w, s.cap - 1)));
      case LastAimed(v, p) =>
        step := StoreLastStep(t, v, p);
        s' := Set(s, t, LastWritten(v, p)).(data := s.data[p := v]);
    }
  }

  lemma SwapperMoves(s: State, t: Tid) returns (step: Step, s': State)
    requires t in s.producers && t in s.done && ThreadOk(ViewOf(s), t, s.producers[t])
    requires s.producers[t].Expanding? || s.producers[t].Turn? || s.producers[t].Swapped?
    ensures NextStep(s, s', step) && MovesSomePush(step)
  {
    match s.producers[t] {
      case Expanding(v, p, d) =>
        step := LinkStep(t, v, p, d);
        s' := Set(s, t, Linked(v, p, Loc(d, 0))).(next := s.next[s.w := Some(d)], base := s.base[d := s.base[s.w] + s.cap]);
      case Turn(v, p, nx) =>
        step := MoveStep(t, v, p, nx);
        s' := Set(s, t, Moved(v, p, nx)).(w := s.next[s.w].value);
      case Swapped(v) =>
        step := ResetStep(t, v);
        s' := Finish(s.(wpos := 0, swapper := None), t, v);
    }
  }

  /** A thread that is not waiting for another one can take its next step. */
  lemma RunningThreadMoves(s: State, t: Tid) returns (step: Step, s': State)
    requires Inv(s) && t in s.producers && !Waits(s.producers[t])
    ensures NextStep(s, s', step) && MovesSomePush(step)
  {
    hide Lists, Ends, Holders, Contents, Completed, NextStep, MovesSomePush;
    assert ThreadOk(ViewOf(s), t, s.producers[t]);
    if s.producers[t].Trying? {
      step, s' := TryingMoves(s, t, s.producers[t].val);
    } else if s.producers[t].LastWritten? {
      step, s' := ExpanderMoves(s, t);
    } else if s.producers[t].Expanding? || s.producers[t].Turn? || s.producers[t].Swapped? {
      step, s' := SwapperMoves(s, t);
    } else {
      step, s' := StorerMoves(s, t);
    }
  }

  /** The holder of the oldest unpublished slot finds `*ptr == p`. */
  lemma FrontThreadMoves(s: State, t: Tid) returns (step: Step, s': State)
    requires Inv(s) && |s.published| < |s.log| && t == s.log[|s.published|].tid && t in s.producers
    requires s.producers[t].Written? || s.producers[t].Linked? || s.producers[t].Moved?
    ensures NextStep(s, s', step) && MovesSomePush(step)
  {
    hide Inv, ThreadOk, Held;
    FrontThreadAtFront(s, t);
    match s.producers[t] {
      case Written(v, p, nx) =>
        step := PublishStep(t, v, p, nx);
        s' := Finish(s.(wp := nx, published := s.published + [Entry(t, v)]), t, v);
      case Linked(v, p, nx) =>
        step := SeeTurnStep(t, v, p, nx);
        s' := Set(s, t, Turn(v, p, nx));
      case Moved(v, p, nx) =>
        step := PublishLastStep(t, v, p, nx);
        s' := Set(s, t, Swapped(v)).(wp := nx, published := s.published + [Entry(t, v)]);
    }
  }

  lemma FrontThreadAtFront(s: State, t: Tid)
    requires Inv(s) && |s.published| < |s.log| && t == s.log[|s.published|].tid && t in s.producers
    requires s.producers[t].Written? || s.producers[t].Linked? || s.producers[t].Moved?
    ensures s.wp == s.producers[t].p && t in s.done
  {
    hide Lists, Ends, Contents, Completed;
    assert ThreadOk(ViewOf(s), t, s.producers[t]);
    assert Held(s.log[|s.published|].tid, |s.published|, s.producers, s.w, s.cap, s.base);
    WriterAt(s);
    NumberInjective(s, s.wp, s.producers[t].p);
  }

  lemma WriterAt(s: State)
    requires Ends(s)
    ensures s.wp.chunk in s.base && s.wp.pos < s.cap && Number(s.base, s.wp) == |s.published|
  {
    hide ConsumerOk, History;
  }

  lemma SpinnerMoves(s: State, t: Tid) returns (step: Step, s': State)
    requires Inv(s) && |s.published| == |s.log| && t in s.producers && s.producers[t].Spinning?
    requires forall u | u in s.producers :: Waits(s.producers[u])
    ensures NextStep(s, s', step) && MovesSomePush(step)
  {
    hide Lists, Contents, Completed, Holders, ConsumerOk, History;
    forall u | u in s.producers
      ensures !HoldsLast(s.producers[u])
    {
      assert Waits(s.producers[u]) && ThreadOk(ViewOf(s), u, s.producers[u]);
    }
    step := RetryStep(t, s.producers[t].val);
    s' := Set(s, t, Trying(s.producers[t].val));
  }

  /** No deadlock: while a push is under way, some thread can move it or another
      push forward without the consumer doing anything. */
  lemma NoDeadlock(tr: seq<State>, i: nat, t: Tid) returns (step: Step, s': State)
    requires Run(tr) && i < |tr| && t in tr[i].producers && !tr[i].producers[t].Idle?
    ensures NextStep(tr[i], s', step) && MovesSomePush(step)
  {
    hide NextStep, Inv, Run, MovesSomePush;
    RunInv(tr, i);
    step, s' := SomeThreadMoves(tr[i], t);
  }

  lemma SomeThreadMoves(s: State, t: Tid) returns (step: Step, s': State)
    requires Inv(s) && t in s.producers && !s.producers[t].Idle?
    ensures NextStep(s, s', step) && MovesSomePush(step)
  {
    hide NextStep, Inv, MovesSomePush;
    if u :| u in s.producers && !Waits(s.producers[u]) {
      step, s' := RunningThreadMoves(s, u);
    } else if |s.published| < |s.log| {
      FrontThread(s);
      step, s' := FrontThreadMoves(s, s.log[|s.published|].tid);
    } else {
      OnlySpinners(s, t);
      step, s' := SpinnerMoves(s, t);
    }
  }

  lemma FrontThread(s: State)
    requires Inv(s) && |s.published| < |s.log|
    ensures s.log[|s.published|].tid in s.producers
    ensures Slot(s.w, s.cap, s.producers[s.log[|s.published|].tid]).Some?
  {
    hide Lists, Ends, Threads, Contents, Completed;
    assert Held(s.log[|s.published|].tid, |s.published|, s.producers, s.w, s.cap, s.base);
  }

  lemma OnlySpinners(s: State, t: Tid)
    requires Inv(s) && |s.published| >= |s.log| && t in s.producers && !s.producers[t].Idle? && Waits(s.producers[t])
    ensures |s.published| == |s.log| && s.producers[t].Spinning?
  {
    hide Lists, Holders, Contents, Completed, Positions, ConsumerOk;
    assert ThreadOk(ViewOf(s), t, s.producers[t]);
  }

  /** The consumer is never stuck inside a pop. */
  lemma ConsumerMoves(tr: seq<State>, i: nat) returns (step: Step, s': State)
    requires Run(tr) && i < |tr|
    ensures NextStep(tr[i], s', step) && !MovesSomePush(step) && !step.BeginStep?
  {
    hide NextStep, Inv, Run, MovesSomePush;
    RunInv(tr, i);
    if tr[i].consumer == Reading { ReadsLiveSlot(tr, i); }
    if tr[i].consumer == TakenLast { NextToReadExists(tr[i]); }
    if tr[i].consumer.Freeing? { HeadHasNext(tr[i]); }
    step, s' := PopMoves(tr[i]);
  }

  lemma PopMoves(s: State) returns (step: Step, s': State)
    requires s.consumer == Reading ==> s.rp in s.data
    requires s.consumer == TakenLast ==> s.r in s.next && s.next[s.r].Some?
    requires s.consumer.Freeing? ==> s.head in s.next && s.next[s.head].Some?
    ensures NextStep(s, s', step) && !MovesSomePush(step) && !step.BeginStep?
  {
    match s.consumer {
      case Ready => step := CheckReadableStep; s' := s.(consumer := if s.rp != s.wp then Reading else Ready);
      case Reading =>
        var v := s.data[s.rp];
        step := ReadStep(v);
        s' := s.(rpos := s.rpos + 1, popped := s.popped + [v],
                 consumer := if s.rpos + 1 == s.cap then TakenLast else Taken);
      case Taken => step := AdvanceStep; s' := s.(rp := Loc(s.r, s.rpos), consumer := Ready);
      case TakenLast =>
        step := MoveReadStep;
        s' := s.(r := s.next[s.r].value, base := s.base - {s.r}, consumer := Freeing(s.r));
      case Freeing(c) =>
        step := DropHeadStep(c);
        s' := if c == s.head then s.(head := s.next[s.head].value, consumer := Caching(c)) else s.(consumer := Caching(c));
      case Caching(c) =>
        step := PushCachedStep(c);
        s' := s.(next := s.next[c := s.free], free := Some(c), cached := [c] + s.cached, consumer := Resetting);
      case Resetting => step := AdvanceFirstStep; s' := s.(rpos := 0, rp := Loc(s.r, 0), consumer := Ready);
    }
  }

  lemma HeadHasNext(s: State)
    requires Inv(s) && s.consumer.Freeing?
    ensures s.head in s.next && s.next[s.head].Some?
  {
    hide Lists, Threads, Holders, Contents, Completed, Positions, History;
  }

  lemma NextToReadExists(s: State)
    requires Inv(s) && s.consumer == TakenLast
    ensures s.r in s.next && s.next[s.r].Some?
  {
    hide FreeList, Holders, Contents, Completed;
    ReadChunkIsNotWritten(s);
    WriterAt(s);
    assert s.base[s.wp.chunk] <= s.base[Tail(s.w, s.producers, s.swapper)];
  }
}
