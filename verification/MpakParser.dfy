/** `mpak::unpack` over its parse stack and the read loop of a stream connection. */
module MpakParser {
  import opened Common
  import opened MpakFormat
  import opened MpakMachine
  import opened MpakStream
  import opened ReadBuffer

  const MINIMUM_FREE_PBUF: nat := 1024

  datatype Result = Success | ExtraBytes | Continue | ParseError

  /** How an iteration of the loop ends. */
  datatype Flow = GoOn | WaitNext | Complete | Error

  class Unpacker {
    const entries: array<Frame>
    var height: nat
    /** at_work: the object parsed last. */
    var result: Item

    ghost predicate Shaped()
      reads this
    {
      entries.Length == STACK_DEPTH && height < STACK_DEPTH
    }

    ghost function Entries(): Stack
      requires Shaped()
      reads this, entries
    {
      entries[..height + 1]
    }

    ghost predicate Valid()
      reads this, entries
    {
      Shaped() && MpakMachine.Valid(Entries())
    }

    constructor ()
      ensures Valid() && Entries() == Start() && fresh(entries)
    {
      entries := new Frame[STACK_DEPTH](i => Blank());
      height := 0;
      result := Nil;
    }

    /** What an iteration from this stack and these unread bytes did. */
    ghost predicate Did(r: StepResult, flow: Flow, p: Pbuf)
      reads this, entries, p, p.mem
    {
      Shaped() && p.Valid() &&
      match r
      case Stuck => flow == WaitNext
      case Fail => flow == Error
      case Finish(i, u) => flow == Complete && result == i && Entries() == Start() && p.Unread() == u
      case Next(t, u) => flow == GoOn && Entries() == t && p.Unread() == u
    }

    method SetTop(f: Frame)
      requires Shaped()
      modifies entries
      ensures Entries() == Below(old(Entries())) + [f]
    {
      entries[height] := f;
    }

    /** l_pushstack */
    method PushStackEntry(ghost s: seq<byte>, p: Pbuf) returns (flow: Flow)
      requires Shaped() && p.Valid() && s == p.Unread()
      modifies this`height, entries
      ensures Did(PushStack(old(Entries()), s), flow, p) && flow != WaitNext
    {
      if height + 1 >= STACK_DEPTH { return Error; }
      height := height + 1;
      entries[height] := Blank();
      assert Entries() == old(Entries()) + [Blank()];
      flow := GoOn;
    }

    /** l_popstack, after `item` was stored through the object pointer of the top entry. */
    method PopStackEntry(item: Item, ghost s: seq<byte>, p: Pbuf) returns (flow: Flow)
      requires Shaped() && p.Valid() && s == p.Unread()
      modifies this`height, this`result, entries
      ensures Did(PopStack(old(Entries()), item, s), flow, p) && flow != WaitNext
    {
      if height == 0 {
        result := item;
        entries[0] := Blank();
        assert Entries() == Start();
        return Complete;
      }
      height := height - 1;
      entries[height] := entries[height].(items := entries[height].items + [item]);
      assert Entries() == Deliver(Below(old(Entries())), item);
      flow := GoOn;
    }

    /** l_keepstack */
    method KeepStackEntry(f: Frame, ghost s: seq<byte>, p: Pbuf) returns (flow: Flow)
      requires Shaped() && p.Valid() && s == p.Unread()
      modifies entries
      ensures Did(KeepStack(old(Entries()), f, s), flow, p) && flow != WaitNext
    {
      SetTop(f);
      flow := GoOn;
    }

    /** l_length_check, with the length and the type in f. */
    method CheckLength(f: Frame, ghost s: seq<byte>, p: Pbuf) returns (flow: Flow)
      requires Shaped() && p.Valid() && s == p.Unread()
      modifies this`height, this`result, entries
      ensures Did(LengthCheck(old(Entries()), f, s), flow, p) && flow != WaitNext
    {
      match f.kind
      case ArrayKind =>
        if f.need == 0 {
          flow := PopStackEntry(Array([]), s, p);
        } else {
          SetTop(f.(status := InArray, popped := 0, items := []));
          flow := PushStackEntry(s, p);
        }
      case MapKind =>
        if f.need == 0 {
          flow := PopStackEntry(Map([]), s, p);
        } else {
          SetTop(f.(status := InMap, popped := 0, items := []));
          flow := PushStackEntry(s, p);
        }
      case _ => flow := KeepStackEntry(f.(status := Data), s, p);
    }

    /** The first byte of an object. */
    method FirstByte(p: Pbuf) returns (flow: Flow)
      requires Shaped() && p.Valid() && p.Unread() != [] && Top(Entries()).status == Initial
      modifies this`height, this`result, entries, p`ofs
      ensures Did(StepInitial(old(Entries()), old(p.Unread())), flow, p) && flow != WaitNext
    {
      hide Did, PopStack, KeepStack, LengthCheck, TableStatus, TableNeed, TableKind;
      var f := entries[height];
      var b := p.Pop();
      ghost var u := p.Unread();
      if b <= 0x7f {
        flow := PopStackEntry(Int(b), u, p);
      } else if b / 32 * 32 == 0xa0 {
        flow := KeepStackEntry(f.(need := b % 32, status := Data, kind := BlobKind), u, p);
      } else if b / 16 * 16 == 0x90 {
        flow := CheckLength(f.(need := b % 16, kind := ArrayKind), u, p);
      } else if b / 16 * 16 == 0x80 {
        flow := CheckLength(f.(need := b % 16, kind := MapKind), u, p);
      } else if b == 0xc0 {
        flow := PopStackEntry(Nil, u, p);
      } else if b == 0xc2 {
        flow := PopStackEntry(Bool(false), u, p);
      } else if b == 0xc3 {
        flow := PopStackEntry(Bool(true), u, p);
      } else if 0xc4 <= b <= 0xdf {
        flow := KeepStackEntry(f.(status := TableStatus(b), need := TableNeed(b), kind := TableKind(b)), u, p);
      } else if 0xe0 <= b {
        flow := PopStackEntry(Int(b as int - 256), u, p);
      } else {
        flow := Refuse(p);
      }
    }

    /** l_error */
    method Refuse(p: Pbuf) returns (flow: Flow)
      requires Shaped() && p.Valid()
      ensures Did(Fail, flow, p) && flow != WaitNext
    {
      flow := Error;
    }

    method NeedMore(p: Pbuf) returns (flow: Flow)
      requires Shaped() && p.Valid()
      ensures Did(Stuck, flow, p)
    {
      flow := WaitNext;
    }

    /** The payload of a scalar or a blob. */
    method Payload(p: Pbuf) returns (flow: Flow)
      requires Shaped() && p.Valid() && Top(Entries()).status == Data
      modifies this`height, this`result, entries, p`ofs
      ensures Did(Step(old(Entries()), old(p.Unread())), flow, p)
      ensures flow == WaitNext ==> Entries() == old(Entries()) && p.Unread() == old(p.Unread())
    {
      hide Did, PopStack, DataItem;
      var f := entries[height];
      if f.need + p.ofs > p.len {
        flow := NeedMore(p);
      } else {
        var value := DataItem(f.kind, p.Peek(f.need));
        match value
        case Some(i) =>
          p.AddParsedOfs(f.need);
          flow := PopStackEntry(i, p.Unread(), p);
        case None => flow := Refuse(p);
      }
    }

    /** A length prefix. */
    method Prefix(p: Pbuf) returns (flow: Flow)
      requires Shaped() && p.Valid() && Top(Entries()).status == Length
      modifies this`height, this`result, entries, p`ofs
      ensures Did(Step(old(Entries()), old(p.Unread())), flow, p)
      ensures flow == WaitNext ==> Entries() == old(Entries()) && p.Unread() == old(p.Unread())
    {
      hide Did, LengthCheck, BigEndian;
      var f := entries[height];
      if f.need + p.ofs > p.len {
        flow := NeedMore(p);
      } else {
        var n := BigEndian(p.Peek(f.need));
        p.AddParsedOfs(f.need);
        flow := CheckLength(f.(need := n), p.Unread(), p);
      }
    }

    /** An element of an array, a key or a value of a map is complete. */
    method ElementDone(p: Pbuf) returns (flow: Flow)
      requires Shaped() && p.Valid()
      requires var st := Top(Entries()).status; st == InArray || st == InMap || st == InMapVal
      modifies this`height, this`result, entries
      ensures Did(Step(old(Entries()), p.Unread()), flow, p) && flow != WaitNext
    {
      hide Did, PopStack, PushStack;
      var f := entries[height];
      ghost var u := p.Unread();
      if f.status == InMap {
        SetTop(f.(status := InMapVal));
        flow := PushStackEntry(u, p);
      } else if f.popped + 1 < f.need {
        SetTop(if f.status == InArray then f.(popped := f.popped + 1) else f.(status := InMap, popped := f.popped + 1));
        flow := PushStackEntry(u, p);
      } else {
        flow := PopStackEntry(if f.status == InArray then Array(f.items) else Map(f.items), u, p);
      }
    }

    /** One iteration of the loop. */
    method Iterate(p: Pbuf) returns (flow: Flow)
      requires Shaped() && p.Valid()
      modifies this`height, this`result, entries, p`ofs
      ensures Did(Step(old(Entries()), old(p.Unread())), flow, p)
      ensures flow == WaitNext ==> Entries() == old(Entries()) && p.Unread() == old(p.Unread())
    {
      hide Did, StepInitial, PopStack, PushStack, KeepStack, LengthCheck, DataItem;
      match entries[height].status
      case Initial =>
        if p.Readable() { flow := FirstByte(p); } else { flow := NeedMore(p); }
      case Length => flow := Prefix(p);
      case Data => flow := Payload(p);
      case _ => flow := ElementDone(p);
    }

    /** What a call of unpack did, given the run it stands for. */
    ghost predicate Ended(run: Outcome, r: Result, p: Pbuf)
      reads this, entries, p, p.mem
    {
      p.Valid() &&
      match run
      case Finished(i, u) =>
        && Valid() && Entries() == Start() && p.Unread() == u && result == i
        && r == if u == [] then Success else ExtraBytes
      case Suspended(t, u) => Valid() && Entries() == t && p.Unread() == u && r == Continue
      case Broken => r == ParseError
    }

    lemma EndedMeans(run: Outcome, r: Result, p: Pbuf)
      requires Ended(run, r, p)
      ensures p.Valid()
      ensures
        match r
        case Success => run.Finished? && run.unread == [] && result == run.item
        case ExtraBytes => run.Finished? && run.unread != [] && result == run.item
        case Continue => run.Suspended?
        case ParseError => run == Broken
      ensures r != ParseError ==> Valid() && Shaped() && MpakMachine.Valid(Entries()) && p.Unread() == run.unread
      ensures r == Success || r == ExtraBytes ==> Entries() == Start()
      ensures r == Continue ==> Entries() == run.stack
    {
    }

    /** unpack: the loop ends on every input, reads no byte that has not arrived, and is
        the run of the stack machine. */
    method Unpack(p: Pbuf) returns (r: Result)
      requires Valid() && p.Valid()
      modifies this`height, this`result, entries, p`ofs
      ensures Ended(Run(old(Entries()), old(p.Unread())), r, p)
    {
      hide Run, Step, MpakMachine.Valid, Rank, Start, Blank;
      ghost var run := Run(Entries(), p.Unread());
      while true
        invariant Valid() && p.Valid() && Run(Entries(), p.Unread()) == run
        decreases |p.Unread()|, Rank(Entries())
      {
        ghost var t, u := Entries(), p.Unread();
        NextOk(t, u);
        RunStep(t, u);
        var flow := Iterate(p);
        FlowIs(Step(t, u), flow, p);
        match flow
        case GoOn =>
        case WaitNext => return Continue;
        case Complete => return if p.len == p.ofs then Success else ExtraBytes;
        case Error => return ParseError;
      }
    }

    lemma FlowIs(r: StepResult, flow: Flow, p: Pbuf)
      requires Did(r, flow, p)
      ensures
        match flow
        case GoOn => r.Next?
        case WaitNext => r.Stuck?
        case Complete => r.Finish?
        case Error => r.Fail?
    {
    }
  }

  lemma RunStep(t: Stack, u: seq<byte>)
    requires MpakMachine.Valid(t)
    ensures t != []
    ensures
      match Step(t, u)
      case Stuck => Run(t, u) == Suspended(t, u)
      case Fail => Run(t, u) == Broken
      case Finish(i, v) => Run(t, u) == Finished(i, v)
      case Next(t', v) => MpakMachine.Valid(t') && Run(t, u) == Run(t', v)
  {
    hide Step, MpakMachine.Valid;
    NextOk(t, u);
  }

  /** A stream connection: what arrives is parsed, and parsed objects are delivered. */
  class Connection {
    const pbuf: Pbuf
    const sr: Unpacker
    var delivered: seq<Item>

    ghost predicate Valid()
      reads this, pbuf, pbuf.mem, sr, sr.entries
    {
      pbuf.Valid() && sr.Valid()
    }

    /** What the connection has made of the bytes received so far. */
    ghost function Progress(alive: bool): Decoded
      reads this, pbuf, pbuf.mem, sr, sr.entries
      requires alive ==> Valid()
    {
      Decoded(delivered, if alive then Live(sr.Entries(), pbuf.Unread()) else Dead)
    }

    constructor ()
      ensures Valid() && Progress(true) == Decoded([], Live(Start(), []))
      ensures fresh(pbuf) && fresh(sr) && fresh(sr.entries)
    {
      pbuf := new Pbuf();
      sr := new Unpacker();
      delivered := [];
    }

    /** read_stream: one read from the socket, then every object that is complete.  `wire`
        is what the kernel holds; the read takes some of it, as much as there is room for. */
    method ReadStream(wire: seq<byte>) returns (k: nat, alive: bool)
      requires Valid() && wire != []
      modifies this`delivered, pbuf, pbuf.mem, sr, sr.entries
      ensures 1 <= k <= |wire| && (alive ==> Valid())
      ensures Progress(alive) == Then(old(Progress(true)), wire[..k])
      ensures pbuf.mem == old(pbuf.mem) || fresh(pbuf.mem)
    {
      pbuf.Reserve(MINIMUM_FREE_PBUF);
      k :| 1 <= k <= |wire| && k <= pbuf.Available() by { assert 1 <= |wire| && 1 <= pbuf.Available(); }
      pbuf.Fill(wire[..k]);
      alive := Parse();
    }

    /** unpack until it does not return EXTRA_BYTES. */
    method Parse() returns (alive: bool)
      requires pbuf.Valid() && sr.Valid()
      modifies this`delivered, pbuf`ofs, sr, sr.entries
      ensures alive ==> pbuf.Valid() && sr.Valid()
      ensures
        var d := Decode(old(sr.Entries()), old(pbuf.Unread()));
        && delivered == old(delivered) + d.items
        && d.state == if alive then Live(sr.Entries(), pbuf.Unread()) else Dead
    {
      hide *;
      UnpackerValid();
      ghost var d := Decode(sr.Entries(), pbuf.Unread());
      ghost var before := delivered;
      while true
        invariant pbuf.Valid() && sr.Valid() && sr.Shaped() && MpakMachine.Valid(sr.Entries())
        invariant
          var e := Decode(sr.Entries(), pbuf.Unread());
          before + d.items == delivered + e.items && d.state == e.state
        decreases |pbuf.Unread()|, if sr.Entries() == Start() then 0 else 1
      {
        StartConsumes(sr.Entries(), pbuf.Unread());
        DecodeStep(sr.Entries(), pbuf.Unread());
        ghost var run := Run(sr.Entries(), pbuf.Unread());
        var pres := sr.Unpack(pbuf);
        sr.EndedMeans(run, pres, pbuf);
        match pres
        case Success =>
          delivered := delivered + [sr.result];
          NothingLeft(pbuf.Unread());
          return true;
        case ExtraBytes =>
          delivered := delivered + [sr.result];
        case Continue => return true;
        case ParseError => return false;
      }
    }

    lemma UnpackerValid()
      requires sr.Valid()
      ensures sr.Shaped() && MpakMachine.Valid(sr.Entries())
    {
    }
  }

  lemma DecodeStep(t: Stack, s: seq<byte>)
    requires MpakMachine.Valid(t)
    ensures
      match Run(t, s)
      case Broken => Decode(t, s) == Decoded([], Dead)
      case Suspended(t', u) => Decode(t, s) == Decoded([], Live(t', u))
      case Finished(i, u) => Decode(t, s) == Decoded([i] + Decode(Start(), u).items, Decode(Start(), u).state)
  {
    hide Run, MpakMachine.Valid, Start;
  }

  /** A fresh parser with nothing to read stays as it is. */
  lemma NothingLeft(s: seq<byte>)
    requires s == []
    ensures Decode(Start(), s) == Decoded([], Live(Start(), []))
  {
  }
}
