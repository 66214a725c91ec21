/** The resumable parser `mpak::unpack` as a machine over its parse stack, one
    iteration of its loop a step, and the proof that it is the reader of MpakFormat. */
module MpakMachine {
  import opened Common
  import opened MpakFormat

  datatype Status = Initial | Length | Data | InArray | InMap | InMapVal

  /** A stack entry.  `items` holds what has been written through its object pointer so
      far: the elements of an array, the keys and values of a map. */
  datatype Frame = Frame(status: Status, kind: Kind, need: nat, popped: nat, items: seq<Item>)

  type Stack = seq<Frame>

  function Blank(): Frame {
    Frame(Initial, NilKind, 0, 0, [])
  }

  datatype StepResult =
    | Stuck
    | Next(stack: Stack, unread: seq<byte>)
    | Finish(item: Item, unread: seq<byte>)
    | Fail

  // ---- well-formed stacks ----

  /** How many items a container entry holds before the child it is waiting for. */
  function ItemsBefore(f: Frame): nat {
    if f.status == InArray then f.popped else if f.status == InMap then 2 * f.popped else 2 * f.popped + 1
  }

  predicate IsContainer(f: Frame) {
    match f.status
    case InArray => f.kind == ArrayKind && f.popped < f.need
    case InMap => f.kind == MapKind && f.popped < f.need
    case InMapVal => f.kind == MapKind && f.popped < f.need
    case _ => false
  }

  /** A container entry with a child under way above it. */
  predicate Open(f: Frame) {
    IsContainer(f) && |f.items| == ItemsBefore(f)
  }

  predicate TopOk(f: Frame) {
    match f.status
    case Initial => true
    case Length => f.kind != NilKind && (f.need == 2 || f.need == 4)
    case Data => f.kind != ArrayKind && f.kind != MapKind
    case _ => IsContainer(f) && |f.items| == ItemsBefore(f) + 1
  }

  predicate BaseOk(base: Stack) {
    |base| < STACK_DEPTH && forall i | 0 <= i < |base| :: Open(base[i])
  }

  predicate Valid(stack: Stack) {
    stack != [] && BaseOk(stack[..|stack| - 1]) && TopOk(stack[|stack| - 1])
  }

  function Top(stack: Stack): Frame
    requires stack != []
  {
    stack[|stack| - 1]
  }

  function Below(stack: Stack): Stack
    requires stack != []
  {
    stack[..|stack| - 1]
  }

  /** The entries of the parse table for bytes 0xc4 to 0xdf. */
  function TableStatus(b: byte): Status {
    if 0xd6 <= b <= 0xdf then Length else Data
  }

  function TableNeed(b: byte): nat {
    if b == 0xca then 4 else if b == 0xcb then 8
    else if b == 0xcc || b == 0xd0 then 1
    else if b == 0xcd || b == 0xd1 then 2
    else if b == 0xce || b == 0xd2 then 4
    else if b == 0xcf || b == 0xd3 then 8
    else if 0xd6 <= b <= 0xdf then (if b % 2 == 0 then 2 else 4)
    else 0
  }

  function TableKind(b: byte): Kind {
    if b == 0xca || b == 0xcb || b == 0xd6 || b == 0xd7 then DoubleKind
    else if 0xcc <= b <= 0xd3 || b == 0xd8 || b == 0xd9 then IntegerKind
    else if b == 0xda || b == 0xdb then BlobKind
    else if b == 0xdc || b == 0xdd then ArrayKind
    else if b == 0xde || b == 0xdf then MapKind
    else NilKind
  }

  // ---- one iteration ----

  /** The value of the top entry is complete: it goes to the entry below, or out. */
  function PopStack(stack: Stack, item: Item, s: seq<byte>): StepResult
    requires stack != []
  {
    if |stack| == 1 then Finish(item, s) else Next(Deliver(Below(stack), item), s)
  }

  function Deliver(base: Stack, item: Item): Stack
    requires base != []
  {
    Below(base) + [Top(base).(items := Top(base).items + [item])]
  }

  /** A child of the top entry is started. */
  function PushStack(stack: Stack, s: seq<byte>): StepResult {
    if |stack| >= STACK_DEPTH then Fail else Next(stack + [Blank()], s)
  }

  function KeepStack(stack: Stack, f: Frame, s: seq<byte>): StepResult
    requires stack != []
  {
    Next(Below(stack) + [f], s)
  }

  function LengthCheck(stack: Stack, f: Frame, s: seq<byte>): StepResult
    requires stack != []
  {
    match f.kind
    case ArrayKind =>
      if f.need == 0 then PopStack(stack, Array([]), s)
      else PushStack(Below(stack) + [f.(status := InArray, popped := 0, items := [])], s)
    case MapKind =>
      if f.need == 0 then PopStack(stack, Map([]), s)
      else PushStack(Below(stack) + [f.(status := InMap, popped := 0, items := [])], s)
    case _ => KeepStack(stack, f.(status := Data), s)
  }

  function StepInitial(stack: Stack, s: seq<byte>): StepResult
    requires stack != [] && s != []
  {
    var f, b, u := Top(stack), s[0], s[1..];
    if b <= 0x7f then PopStack(stack, Int(b), u)
    else if b / 32 * 32 == 0xa0 then KeepStack(stack, f.(need := b % 32, status := Data, kind := BlobKind), u)
    else if b / 16 * 16 == 0x90 then LengthCheck(stack, f.(need := b % 16, kind := ArrayKind), u)
    else if b / 16 * 16 == 0x80 then LengthCheck(stack, f.(need := b % 16, kind := MapKind), u)
    else if b == 0xc0 then PopStack(stack, Nil, u)
    else if b == 0xc2 then PopStack(stack, Bool(false), u)
    else if b == 0xc3 then PopStack(stack, Bool(true), u)
    else if 0xc4 <= b <= 0xdf then
      KeepStack(stack, f.(status := TableStatus(b), need := TableNeed(b), kind := TableKind(b)), u)
    else if 0xe0 <= b then PopStack(stack, Int(b as int - 256), u)
    else Fail
  }

  function Step(stack: Stack, s: seq<byte>): StepResult
    requires stack != []
  {
    var f := Top(stack);
    match f.status
    case Initial => if s == [] then Stuck else StepInitial(stack, s)
    case Length =>
      if |s| < f.need then Stuck
      else LengthCheck(stack, f.(need := BigEndian(s[..f.need])), s[f.need..])
    case Data =>
      if |s| < f.need then Stuck
      else
        (match DataItem(f.kind, s[..f.need])
         case Some(i) => PopStack(stack, i, s[f.need..])
         case None => Fail)
    case InArray =>
      if f.popped + 1 < f.need then PushStack(Below(stack) + [f.(popped := f.popped + 1)], s)
      else PopStack(stack, Array(f.items), s)
    case InMap => PushStack(Below(stack) + [f.(status := InMapVal)], s)
    case InMapVal =>
      if f.popped + 1 < f.need then PushStack(Below(stack) + [f.(status := InMap, popped := f.popped + 1)], s)
      else PopStack(stack, Map(f.items), s)
  }

  // ---- runs ----

  /** What decreases when a step reads nothing. */
  function Rank(stack: Stack): nat
    requires stack != []
  {
    if Top(stack).status == Initial || Top(stack).status == Length then 0 else |stack|
  }

  /** r reads from s and leaves a well-formed stack of rank at most `rank`. */
  predicate Moves(r: StepResult, s: seq<byte>, rank: nat) {
    match r
    case Next(t, u) => Valid(t) && Remains(u, s, 0) && (|u| < |s| || Rank(t) <= rank)
    case Finish(i, u) => Remains(u, s, 0)
    case _ => true
  }

  lemma PopMoves(stack: Stack, item: Item, s: seq<byte>)
    requires stack != [] && BaseOk(Below(stack))
    ensures Moves(PopStack(stack, item, s), s, |stack| - 1)
  {
    if |stack| > 1 {
      var base := Below(stack);
      assert Open(Top(base));
      assert Below(Deliver(base, item)) == Below(base);
    }
  }

  lemma LeafMoves(stack: Stack, item: Item, s: seq<byte>)
    requires stack != [] && BaseOk(Below(stack))
    ensures Moves(PopStack(stack, item, s), s, |stack|)
  {
    PopMoves(stack, item, s);
  }

  lemma PushMoves(base: Stack, f: Frame, s: seq<byte>)
    requires BaseOk(base) && Open(f)
    ensures Moves(PushStack(base + [f], s), s, 0)
  {
    assert Below(base + [f] + [Blank()]) == base + [f];
  }

  lemma KeepMoves(stack: Stack, f: Frame, s: seq<byte>)
    requires stack != [] && BaseOk(Below(stack)) && TopOk(f)
    ensures Moves(KeepStack(stack, f, s), s, |stack|)
  {
    assert Below(Below(stack) + [f]) == Below(stack);
  }

  lemma LengthMoves(stack: Stack, f: Frame, s: seq<byte>)
    requires stack != [] && BaseOk(Below(stack)) && f.kind != NilKind
    ensures Moves(LengthCheck(stack, f, s), s, |stack|)
  {
    hide PopStack, PushStack, KeepStack, BaseOk;
    LeafMoves(stack, Array([]), s);
    LeafMoves(stack, Map([]), s);
    match f.kind
    case ArrayKind => if f.need > 0 { PushMoves(Below(stack), f.(status := InArray, popped := 0, items := []), s); }
    case MapKind => if f.need > 0 { PushMoves(Below(stack), f.(status := InMap, popped := 0, items := []), s); }
    case _ => KeepMoves(stack, f.(status := Data), s);
  }

  lemma InitialMoves(stack: Stack, s: seq<byte>)
    requires stack != [] && BaseOk(Below(stack)) && Top(stack).status == Initial && s != []
    ensures Moves(StepInitial(stack, s), s[1..], |stack|)
  {
    hide PopStack, LengthCheck, KeepStack, BaseOk, Valid;
    var f, b, u := Top(stack), s[0], s[1..];
    LeafMoves(stack, Int(b), u);
    LeafMoves(stack, Int(b as int - 256), u);
    LeafMoves(stack, Nil, u);
    LeafMoves(stack, Bool(false), u);
    LeafMoves(stack, Bool(true), u);
    KeepMoves(stack, f.(need := b % 32, status := Data, kind := BlobKind), u);
    KeepMoves(stack, f.(status := TableStatus(b), need := TableNeed(b), kind := TableKind(b)), u);
    LengthMoves(stack, f.(need := b % 16, kind := ArrayKind), u);
    LengthMoves(stack, f.(need := b % 16, kind := MapKind), u);
  }

  /** A step keeps the stack well-formed and its height below the limit, reads a prefix of
      what is unread, and makes progress. */
  predicate Progress(stack: Stack, s: seq<byte>)
    requires stack != []
  {
    match Step(stack, s)
    case Next(t, u) => Valid(t) && Remains(u, s, 0) && (|u| < |s| || Rank(t) < Rank(stack))
    case Finish(i, u) => Remains(u, s, if Top(stack).status == Initial then 1 else 0)
    case _ => true
  }

  lemma ReadProgress(stack: Stack, s: seq<byte>)
    requires Valid(stack) && (Top(stack).status == Initial || Top(stack).status == Length)
    ensures Progress(stack, s)
  {
    hide StepInitial, LengthCheck, BaseOk;
    var f := Top(stack);
    if f.status == Initial {
      if s != [] { InitialMoves(stack, s); }
    } else if |s| >= f.need {
      LengthMoves(stack, f.(need := BigEndian(s[..f.need])), s[f.need..]);
    }
  }

  /** What remains after more was read. */
  lemma RemainsTwice(s: seq<byte>, k: nat)
    requires k <= |s|
    ensures forall u | Remains(u, s[k..], 0) :: Remains(u, s, 0) && |u| <= |s|
  {
  }

  lemma DataProgress(stack: Stack, s: seq<byte>)
    requires stack != [] && BaseOk(Below(stack)) && Top(stack).status == Data
    ensures Progress(stack, s)
  {
    hide PopStack, BaseOk, DataItem, Valid, Remains;
    var f := Top(stack);
    if |s| >= f.need && DataItem(f.kind, s[..f.need]).Some? {
      PopMoves(stack, DataItem(f.kind, s[..f.need]).value, s[f.need..]);
      DropRemains(s, f.need);
      RemainsTwice(s, f.need);
    }
  }

  lemma ContainerProgress(stack: Stack, s: seq<byte>)
    requires Valid(stack) && IsContainer(Top(stack))
    ensures Progress(stack, s)
  {
    hide PopStack, PushStack, BaseOk;
    var f := Top(stack);
    PopMoves(stack, Array(f.items), s);
    PopMoves(stack, Map(f.items), s);
    if f.popped + 1 < f.need {
      if f.status == InArray { PushMoves(Below(stack), f.(popped := f.popped + 1), s); }
      if f.status == InMapVal { PushMoves(Below(stack), f.(status := InMap, popped := f.popped + 1), s); }
    }
    if f.status == InMap { PushMoves(Below(stack), f.(status := InMapVal), s); }
  }

  lemma StepProgress(stack: Stack, s: seq<byte>)
    requires Valid(stack)
    ensures Progress(stack, s)
  {
    hide Progress;
    match Top(stack).status
    case Initial => ReadProgress(stack, s);
    case Length => ReadProgress(stack, s);
    case Data => DataProgress(stack, s);
    case _ => ContainerProgress(stack, s);
  }

  /** The termination measure of the loop: unread bytes, then rank. */
  lemma NextOk(stack: Stack, s: seq<byte>)
    requires Valid(stack)
    ensures stack != []
    ensures Step(stack, s).Next? ==>
      var t, u := Step(stack, s).stack, Step(stack, s).unread;
      Valid(t) && |u| <= |s| && (|u| < |s| || Rank(t) < Rank(stack))
  {
    hide Step, Valid, Rank;
    StackThere(stack);
    StepProgress(stack, s);
  }

  lemma StackThere(stack: Stack)
    requires Valid(stack)
    ensures stack != []
  {
  }

  datatype Outcome = Finished(item: Item, unread: seq<byte>) | Suspended(stack: Stack, unread: seq<byte>) | Broken

  /** The loop of unpack: it ends on every input, whatever the bytes are. */
  function Run(stack: Stack, s: seq<byte>): (r: Outcome)
    requires Valid(stack)
    ensures r.Suspended? ==> Valid(r.stack) && Remains(r.unread, s, 0)
    ensures r.Finished? ==> Remains(r.unread, s, 0)
    decreases |s|, Rank(stack)
  {
    StepProgress(stack, s);
    match Step(stack, s)
    case Stuck => Suspended(stack, s)
    case Fail => Broken
    case Finish(i, u) => Finished(i, u)
    case Next(t, u) => Run(t, u)
  }
}
