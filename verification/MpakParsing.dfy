/** What the stack machine computes: the reader's result, whatever the fragmentation. */
module MpakParsing {
  import opened Common
  import opened MpakFormat
  import opened MpakMachine

  // ---- the machine and the reader ----

  /** The run after an object of the entry above base was read. */
  function Continue(base: Stack, item: Item, s: seq<byte>): Outcome
    requires BaseOk(base)
  {
    if base == [] then Finished(item, s)
    else
      DeliverOk(base, item);
      Run(Deliver(base, item), s)
  }

  lemma DeliverOk(base: Stack, item: Item)
    requires BaseOk(base) && base != []
    ensures Valid(Deliver(base, item)) && Below(Deliver(base, item)) == Below(base)
    ensures Top(Deliver(base, item)) == Top(base).(items := Top(base).items + [item])
  {
    assert Open(Top(base));
    assert Below(Deliver(base, item)) == Below(base);
  }

  lemma StartOk(base: Stack)
    requires BaseOk(base)
    ensures Valid(base + [Blank()]) && Below(base + [Blank()]) == base && Top(base + [Blank()]) == Blank()
  {
    assert Below(base + [Blank()]) == base;
  }

  /** Run from an entry that just starts is what Read says. */
  ghost predicate Agrees(r: Reading, run: Outcome, base: Stack)
    requires BaseOk(base)
  {
    match r
    case Got(i, u) => run == Continue(base, i, u)
    case Short => run.Suspended?
    case Bad => run == Broken
  }

  /** The number of items an open container entry still waits for. */
  function Missing(f: Frame): nat
    requires Open(f)
  {
    (if f.kind == MapKind then 2 * f.need else f.need) - |f.items|
  }

  lemma PopRuns(stack: Stack, item: Item, s: seq<byte>, u: seq<byte>)
    requires Valid(stack) && Step(stack, s) == PopStack(stack, item, u)
    ensures Run(stack, s) == Continue(Below(stack), item, u)
  {
  }

  lemma OpenMore(base: Stack, f: Frame)
    requires BaseOk(base) && Open(f)
    ensures |base| + 1 < STACK_DEPTH ==> BaseOk(base + [f])
  {
  }

  /** A container whose child was started, when the stack has room for the child. */
  lemma ChildRuns(base: Stack, f: Frame, stack: Stack, s: seq<byte>, u: seq<byte>)
    requires BaseOk(base) && Open(f) && Valid(stack) && Step(stack, s) == PushStack(base + [f], u)
    ensures |base| + 1 >= STACK_DEPTH ==> Run(stack, s) == Broken
    ensures |base| + 1 < STACK_DEPTH ==>
      BaseOk(base + [f]) && Valid(base + [f] + [Blank()]) && Run(stack, s) == Run(base + [f] + [Blank()], u)
  {
    OpenMore(base, f);
    if |base| + 1 < STACK_DEPTH { StartOk(base + [f]); }
  }

  /** What a container entry does when its child is complete. */
  lemma NextChild(base: Stack, f: Frame, item: Item, s: seq<byte>) returns (f': Frame)
    requires BaseOk(base) && Open(f) && |base| + 1 < STACK_DEPTH
    ensures BaseOk(base + [f])
    ensures Missing(f) == 1 ==>
      Continue(base + [f], item, s) == Continue(base, Container(f.kind, f.items + [item]), s)
    ensures Missing(f) > 1 ==>
      && Open(f') && f'.kind == f.kind && f'.items == f.items + [item] && Missing(f') == Missing(f) - 1
      && BaseOk(base + [f']) && Valid(base + [f'] + [Blank()])
      && Continue(base + [f], item, s) == Run(base + [f'] + [Blank()], s)
  {
    OpenMore(base, f);
    DeliverOk(base + [f], item);
    var stack := Deliver(base + [f], item);
    assert Below(base + [f]) == base;
    var g := f.(items := f.items + [item]);
    assert stack == base + [g] && Top(stack) == g && Below(stack) == base;
    f' := if f.status == InMap then g.(status := InMapVal)
          else if f.status == InArray then g.(popped := f.popped + 1)
          else g.(status := InMap, popped := f.popped + 1);
    if Missing(f) == 1 {
      assert Step(stack, s) == PopStack(stack, Container(f.kind, g.items), s);
      PopRuns(stack, Container(f.kind, g.items), s, s);
    } else {
      assert Step(stack, s) == PushStack(base + [f'], s);
      ChildRuns(base, f', stack, s, s);
    }
  }

  lemma {:induction false} MachineReadsMany(base: Stack, f: Frame, s: seq<byte>)
    requires BaseOk(base) && Open(f) && |base| + 1 < STACK_DEPTH
    ensures BaseOk(base + [f]) && Valid(base + [f] + [Blank()])
    ensures
      var run := Run(base + [f] + [Blank()], s);
      match ReadMany(Missing(f), s, STACK_DEPTH - 2 - |base|)
      case GotAll(items, u) => run == Continue(base, Container(f.kind, f.items + items), u)
      case ShortAll => run.Suspended?
      case BadAll => run == Broken
    decreases |s|, 1
  {
    hide Step, Run, Continue, Valid, Container, Missing, Read, Open, BaseOk, Remains;
    OpenMore(base, f);
    StartOk(base + [f]);
    ReadShrinks(s, STACK_DEPTH - 2 - |base|);
    MachineReads(base + [f], s);
    MissingSome(f);
    match Read(s, STACK_DEPTH - 2 - |base|)
    case Got(i, u) =>
      var f' := NextChild(base, f, i, u);
      if Missing(f) > 1 {
        MachineReadsMany(base, f', u);
        match ReadMany(Missing(f) - 1, u, STACK_DEPTH - 2 - |base|)
        case GotAll(items, u') => assert f.items + [i] + items == f.items + ([i] + items);
        case _ =>
      } else {
        assert ReadMany(0, u, STACK_DEPTH - 2 - |base|) == GotAll([], u);
        assert [i] + [] == [i] && f.items + ([i] + []) == f.items + [i];
      }
    case _ =>
  }

  lemma MissingSome(f: Frame)
    requires Open(f)
    ensures Missing(f) >= 1
  {
  }

  lemma {:induction false} ElementsRun(base: Stack, g: Frame, stack: Stack, s: seq<byte>, u: seq<byte>)
    requires BaseOk(base) && Valid(stack) && Below(stack) == base
    requires g.kind == ArrayKind || g.kind == MapKind
    requires Step(stack, s) == LengthCheck(stack, g, u)
    ensures Agrees(ReadElements(g.kind, g.need, u, STACK_DEPTH - 1 - |base|), Run(stack, s), base)
    decreases |u|, 2
  {
    hide Step, Run, Continue, Valid, Open, TopOk;
    if g.need == 0 {
      PopRuns(stack, Container(g.kind, []), s, u);
    } else {
      var f := g.(status := if g.kind == MapKind then InMap else InArray, popped := 0, items := []);
      FirstChild(g.need, f);
      ChildRuns(base, f, stack, s, u);
      if |base| + 1 < STACK_DEPTH {
        MachineReadsMany(base, f, u);
        match ReadMany(Missing(f), u, STACK_DEPTH - 2 - |base|)
        case GotAll(items, u') => assert [] + items == items;
        case _ =>
      }
    }
  }

  lemma FirstChild(n: nat, f: Frame)
    requires f.need == n > 0 && f.popped == 0 && f.items == []
    requires (f.status == InArray && f.kind == ArrayKind) || (f.status == InMap && f.kind == MapKind)
    ensures Open(f) && Missing(f) == if f.kind == MapKind then 2 * n else n
  {
  }

  lemma PayloadRuns(base: Stack, g: Frame, s: seq<byte>)
    requires BaseOk(base) && g.status == Data && TopOk(g)
    ensures Valid(base + [g]) && Agrees(ReadPayload(g.kind, g.need, s), Run(base + [g], s), base)
  {
    var stack := base + [g];
    assert Below(stack) == base;
    if |s| >= g.need && DataItem(g.kind, s[..g.need]).Some? {
      PopRuns(stack, DataItem(g.kind, s[..g.need]).value, s, s[g.need..]);
    }
  }

  /** A length prefix of 2 or 4 bytes. */
  lemma {:induction false} SizedRuns(base: Stack, g: Frame, s: seq<byte>)
    requires BaseOk(base) && g.status == Length && TopOk(g)
    ensures Valid(base + [g])
    ensures |s| < g.need ==> Run(base + [g], s).Suspended?
    ensures |s| >= g.need ==>
      var n := BigEndian(s[..g.need]);
      Agrees(if g.kind == ArrayKind || g.kind == MapKind then ReadElements(g.kind, n, s[g.need..], STACK_DEPTH - 1 - |base|)
             else ReadPayload(g.kind, n, s[g.need..]), Run(base + [g], s), base)
    decreases |s|, 3
  {
    hide Agrees, Read, ReadElements, ReadPayload, BaseOk;
    var stack := base + [g];
    assert Below(stack) == base;
    if |s| >= g.need {
      var g' := g.(need := BigEndian(s[..g.need]));
      if g.kind == ArrayKind || g.kind == MapKind {
        ElementsRun(base, g', stack, s, s[g.need..]);
      } else {
        assert Below(stack) + [g'.(status := Data)] == base + [g'.(status := Data)];
        assert Step(stack, s) == Next(base + [g'.(status := Data)], s[g.need..]);
        PayloadRuns(base, g'.(status := Data), s[g.need..]);
      }
    }
  }

  /** The branches on the first byte and the parse table are the format's. */
  lemma FirstByte(stack: Stack, s: seq<byte>)
    requires stack != [] && Top(stack) == Blank() && s != []
    ensures
      var u := s[1..];
      match LeadOf(s[0])
      case Whole(i) => Step(stack, s) == PopStack(stack, i, u)
      case Payload(kind, size) => Step(stack, s) == KeepStack(stack, Blank().(status := Data, need := size, kind := kind), u)
      case Sized(kind, width) => Step(stack, s) == KeepStack(stack, Blank().(status := Length, need := width, kind := kind), u)
      case Elements(kind, count) => Step(stack, s) == LengthCheck(stack, Blank().(need := count, kind := kind), u)
      case Unused => Step(stack, s) == Fail || Step(stack, s) == KeepStack(stack, Blank().(status := Data), u)
  {
    hide PopStack, KeepStack, LengthCheck;
  }

  lemma LeadShape(b: byte)
    ensures
      match LeadOf(b)
      case Payload(kind, size) => kind != ArrayKind && kind != MapKind
      case Sized(kind, width) => kind != NilKind && (width == 2 || width == 4)
      case Elements(kind, count) => kind == ArrayKind || kind == MapKind
      case _ => true
  {
  }

  /** The parse stack computes what the recursive-descent reader does: the same object
      and the same bytes consumed, a wait on input that is cut short, an error on input
      that is malformed or nested too deep. */
  lemma {:induction false} MachineReads(base: Stack, s: seq<byte>)
    requires BaseOk(base)
    ensures Valid(base + [Blank()])
    ensures Agrees(Read(s, STACK_DEPTH - 1 - |base|), Run(base + [Blank()], s), base)
    decreases |s|, 0
  {
    StartOk(base);
    if s != [] {
      FirstByte(base + [Blank()], s);
      LeadShape(s[0]);
      ByteRuns(base, s);
    } else {
      assert Step(base + [Blank()], s) == Stuck;
    }
  }

  /** Only the top entry changes: the run goes on from there. */
  lemma KeepRuns(base: Stack, g: Frame, s: seq<byte>, u: seq<byte>)
    requires Valid(base + [Blank()]) && Below(base + [Blank()]) == base
    requires Step(base + [Blank()], s) == KeepStack(base + [Blank()], g, u)
    ensures Valid(base + [g]) && Run(base + [Blank()], s) == Run(base + [g], u)
  {
    hide Step, BaseOk, TopOk;
    StepProgress(base + [Blank()], s);
  }

  lemma {:induction false} ByteRuns(base: Stack, s: seq<byte>)
    requires BaseOk(base) && s != [] && Valid(base + [Blank()]) && Below(base + [Blank()]) == base
    ensures Agrees(Read(s, STACK_DEPTH - 1 - |base|), Run(base + [Blank()], s), base)
    decreases |s| - 1, 4
  {
    hide BaseOk, Valid, LengthCheck, Step, LeadOf, Continue, ReadElements, ReadPayload, PopStack, Remains, Run, KeepStack;
    var stack, u := base + [Blank()], s[1..];
    FirstByte(stack, s);
    LeadShape(s[0]);
    match LeadOf(s[0])
    case Whole(i) => PopRuns(stack, i, s, u);
    case Payload(kind, size) =>
      var g := Blank().(status := Data, need := size, kind := kind);
      KeepRuns(base, g, s, u);
      PayloadRuns(base, g, u);
    case Sized(kind, width) =>
      var g := Blank().(status := Length, need := width, kind := kind);
      KeepRuns(base, g, s, u);
      SizedRuns(base, g, u);
      assert |u| >= width ==> u[..width] == s[1..1 + width] && u[width..] == s[1 + width..];
    case Elements(kind, count) => ElementsRun(base, Blank().(need := count, kind := kind), stack, s, u);
    case Unused => UnusedByte(base, s);
  }

  lemma UnusedByte(base: Stack, s: seq<byte>)
    requires BaseOk(base) && s != [] && Valid(base + [Blank()]) && Below(base + [Blank()]) == base && LeadOf(s[0]) == Unused
    ensures Run(base + [Blank()], s) == Broken
  {
    FirstByte(base + [Blank()], s);
    hide Step, BaseOk, Valid, LeadOf;
    if Step(base + [Blank()], s) != Fail {
      KeepRuns(base, Blank().(status := Data), s, s[1..]);
      PayloadRuns(base, Blank().(status := Data), s[1..]);
    }
  }
}
