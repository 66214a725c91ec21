/** Parsing a stream that arrives in pieces. */
module MpakStream {
  import opened Common
  import opened MpakFormat
  import opened MpakMachine
  import opened MpakParsing

  /** The parse state between two calls: suspended, or dead after a parse error. */
  datatype State = Live(stack: Stack, unread: seq<byte>) | Dead

  datatype Decoded = Decoded(items: seq<Item>, state: State)

  predicate StateOk(st: State) {
    st.Live? ==> Valid(st.stack)
  }

  /** A fresh parse context. */
  function Start(): (stack: Stack)
    ensures Valid(stack)
  {
    [Blank()]
  }

  /** unpack again and again: the objects delivered and the state at the end. */
  function Decode(stack: Stack, s: seq<byte>): (d: Decoded)
    requires Valid(stack)
    ensures StateOk(d.state)
    decreases |s|, if stack == Start() then 0 else 1
  {
    match Run(stack, s)
    case Broken => Decoded([], Dead)
    case Suspended(t, u) => Decoded([], Live(t, u))
    case Finished(i, u) =>
      StartConsumes(stack, s);
      var d := Decode(Start(), u);
      Decoded([i] + d.items, d.state)
  }

  lemma StartConsumes(stack: Stack, s: seq<byte>)
    requires Valid(stack)
    ensures Run(stack, s).Finished? ==> |Run(stack, s).unread| <= |s|
    ensures Run(stack, s).Finished? && stack == Start() ==> |Run(stack, s).unread| < |s|
  {
    hide Run, Read;
    StartReads(s);
    ReadShrinks(s, STACK_DEPTH - 1);
  }

  // ---- more input does not change what was done ----

  function WithMore(r: StepResult, more: seq<byte>): StepResult {
    match r
    case Next(t, u) => Next(t, u + more)
    case Finish(i, u) => Finish(i, u + more)
    case _ => r
  }

  lemma StepMore(stack: Stack, s: seq<byte>, more: seq<byte>)
    requires stack != [] && !Step(stack, s).Stuck?
    ensures Step(stack, s + more) == WithMore(Step(stack, s), more)
  {
    hide DataItem, TableStatus, TableNeed, TableKind;
    var f := Top(stack);
    if f.status == Initial {
      assert s != [] && (s + more)[0] == s[0] && (s + more)[1..] == s[1..] + more;
    } else {
      assert |s| >= f.need ==> (s + more)[..f.need] == s[..f.need] && (s + more)[f.need..] == s[f.need..] + more;
    }
  }

  /** A call that ended on s ends the same way on more input, with that input unread;
      a call that was suspended picks up where it stopped. */
  lemma {:induction false} RunMore(stack: Stack, s: seq<byte>, more: seq<byte>)
    requires Valid(stack)
    ensures
      match Run(stack, s)
      case Finished(i, u) => Run(stack, s + more) == Finished(i, u + more)
      case Suspended(t, u) => Run(stack, s + more) == Run(t, u + more)
      case Broken => Run(stack, s + more) == Broken
    decreases |s|, Rank(stack)
  {
    hide Step, Valid, Rank;
    NextOk(stack, s);
    if !Step(stack, s).Stuck? { StepMore(stack, s, more); }
    match Step(stack, s)
    case Next(t, u) => RunMore(t, u, more);
    case _ =>
  }

  function Then(d: Decoded, more: seq<byte>): (e: Decoded)
    requires StateOk(d.state)
    ensures StateOk(e.state)
  {
    match d.state
    case Dead => d
    case Live(t, u) =>
      var e := Decode(t, u + more);
      Decoded(d.items + e.items, e.state)
  }

  /** Decoding s and then more is decoding both at once. */
  lemma {:induction false} DecodeMore(stack: Stack, s: seq<byte>, more: seq<byte>)
    requires Valid(stack)
    ensures Decode(stack, s + more) == Then(Decode(stack, s), more)
    decreases |s|, if stack == Start() then 0 else 1
  {
    hide Run, Valid, Start;
    RunMore(stack, s, more);
    match Run(stack, s)
    case Finished(i, u) =>
      StartConsumes(stack, s);
      DecodeMore(Start(), u, more);
      var d := Decode(Start(), u);
      assert d.state.Live? ==>
        [i] + (d.items + Decode(d.state.stack, d.state.unread + more).items)
        == ([i] + d.items) + Decode(d.state.stack, d.state.unread + more).items;
    case Suspended(t, u) => assert [] + Decode(t, u + more).items == Decode(t, u + more).items;
    case Broken =>
  }

  /** Chunks as they arrive from the network, one read after the other. */
  function Feed(d: Decoded, chunks: seq<seq<byte>>): Decoded
    requires StateOk(d.state)
    decreases chunks
  {
    if chunks == [] then d else Feed(Then(d, chunks[0]), chunks[1..])
  }

  lemma ThenNothing(d: Decoded)
    requires StateOk(d.state) && d.state.Live? ==> Decode(d.state.stack, d.state.unread) == Decoded([], d.state)
    requires StateOk(d.state)
    ensures Then(d, []) == d
  {
    assert d.state.Live? ==> d.state.unread + [] == d.state.unread;
    assert d.items + [] == d.items;
  }

  lemma {:induction false} ThenThen(d: Decoded, a: seq<byte>, b: seq<byte>)
    requires StateOk(d.state)
    ensures StateOk(Then(d, a).state) && Then(Then(d, a), b) == Then(d, a + b)
  {
    hide Decode;
    match d.state
    case Live(t, u) =>
      DecodeMore(t, u + a, b);
      assert u + a + b == u + (a + b);
      var e := Decode(t, u + a);
      assert e.state.Live? ==>
        var f := Decode(e.state.stack, e.state.unread + b);
        (d.items + e.items) + f.items == d.items + (e.items + f.items);
    case Dead =>
  }

  /** Fragmentation theorem: however the bytes are split, the same objects are delivered in
      the same order and the parser ends in the same state as on the whole input. */
  lemma {:induction false} FragmentationIndependent(s: seq<byte>, chunks: seq<seq<byte>>)
    ensures Feed(Decode(Start(), s), chunks) == Decode(Start(), s + Concat(chunks))
  {
    hide Decode, Start, Feed, Then, Concat, Valid;
    SuspendedStays(Start(), s);
    FeedIsThen(Decode(Start(), s), chunks);
    DecodeMore(Start(), s, Concat(chunks));
  }

  /** A suspended state has nothing left to decode. */
  lemma {:induction false} SuspendedStays(stack: Stack, s: seq<byte>)
    requires Valid(stack)
    ensures var d := Decode(stack, s); d.state.Live? ==> Decode(d.state.stack, d.state.unread) == Decoded([], d.state)
    decreases |s|, if stack == Start() then 0 else 1
  {
    hide Run, Valid, Start;
    match Run(stack, s)
    case Finished(i, u) => StartConsumes(stack, s); SuspendedStays(Start(), u);
    case Suspended(t, u) => RunAgain(stack, s);
    case Broken =>
  }

  lemma {:induction false} RunAgain(stack: Stack, s: seq<byte>)
    requires Valid(stack)
    ensures var r := Run(stack, s); r.Suspended? ==> Run(r.stack, r.unread) == r
    decreases |s|, Rank(stack)
  {
    hide Step, Valid, Rank;
    NextOk(stack, s);
    match Step(stack, s)
    case Next(t, u) => RunAgain(t, u);
    case _ =>
  }

  lemma {:induction false} FeedIsThen(d: Decoded, chunks: seq<seq<byte>>)
    requires StateOk(d.state)
    requires d.state.Live? ==> Decode(d.state.stack, d.state.unread) == Decoded([], d.state)
    ensures Feed(d, chunks) == Then(d, Concat(chunks))
    decreases chunks
  {
    hide Decode;
    if chunks == [] {
      ThenNothing(d);
    } else {
      var e := Then(d, chunks[0]);
      ThenSettles(d, chunks[0]);
      FeedIsThen(e, chunks[1..]);
      ThenThen(d, chunks[0], Concat(chunks[1..]));
    }
  }

  lemma ThenSettles(d: Decoded, more: seq<byte>)
    requires StateOk(d.state)
    ensures var e := Then(d, more); StateOk(e.state) && (e.state.Live? ==> Decode(e.state.stack, e.state.unread) == Decoded([], e.state))
  {
    if d.state.Live? { SuspendedStays(d.state.stack, d.state.unread + more); }
  }

  // ---- against the reader ----

  datatype Ending = Rest(tail: seq<byte>) | Malformed

  /** Objects read one after the other: what a stream means. */
  function ReadAll(s: seq<byte>): (seq<Item>, Ending) {
    match Read(s, STACK_DEPTH - 1)
    case Short => ([], Rest(s))
    case Bad => ([], Malformed)
    case Got(i, u) =>
      var (items, e) := ReadAll(u);
      ([i] + items, e)
  }

  lemma StartReads(s: seq<byte>)
    ensures
      match Read(s, STACK_DEPTH - 1)
      case Got(i, u) => Run(Start(), s) == Finished(i, u)
      case Short => Run(Start(), s).Suspended?
      case Bad => Run(Start(), s) == Broken
  {
    hide Run, Read;
    MachineReads([], s);
    assert [] + [Blank()] == Start();
  }

  /** The parser delivers the objects of the stream, and dies exactly on a malformed one. */
  lemma {:induction false} DecodeIsReadAll(s: seq<byte>)
    ensures Decode(Start(), s).items == ReadAll(s).0
    ensures Decode(Start(), s).state.Dead? <==> ReadAll(s).1.Malformed?
    decreases |s|
  {
    hide Run, Read;
    StartReads(s);
    ReadShrinks(s, STACK_DEPTH - 1);
    match Read(s, STACK_DEPTH - 1)
    case Got(i, u) => DecodeIsReadAll(u);
    case _ =>
  }
}
