/** Packing and parsing together: packed values sent as a stream and read in pieces. */
module MpakRoundTrip {
  import opened Common
  import opened MpakFormat
  import opened MpakMachine
  import opened MpakPrinter
  import opened MpakStream

  predicate AllPackable(vs: seq<Value>) {
    forall i | 0 <= i < |vs| :: Packable(vs[i])
  }

  /** One packed value, whatever follows it: it is returned and exactly its bytes are
      consumed, unless it nests deeper than the parse stack. */
  lemma ParsePacked(v: Value, rest: seq<byte>)
    requires Packable(v)
    ensures Run(Start(), Encode(v) + rest) == if Height(v) < STACK_DEPTH then Finished(Back(v), rest) else Broken
  {
    hide Run, Read, Packable;
    RoundTrip(v, rest, STACK_DEPTH - 1);
    StartReads(Encode(v) + rest);
  }

  /** A packed value cut short anywhere makes the parser wait for more. */
  lemma TruncatedWaits(v: Value, k: nat)
    requires Packable(v) && Height(v) < STACK_DEPTH && k < |Encode(v)|
    ensures Run(Start(), Encode(v)[..k]).Suspended?
  {
    hide Run, Packable, Height, Encode;
    var p, q := Encode(v)[..k], Encode(v)[k..];
    assert p + q == Encode(v) + [];
    ParsePacked(v, []);
    RunMore(Start(), p, q);
  }

  lemma {:induction false} DecodePacked(vs: seq<Value>)
    requires AllPackable(vs) && Highest(vs) < STACK_DEPTH
    ensures Decode(Start(), EncodeAll(vs)) == Decoded(BackAll(vs), Live(Start(), []))
    decreases vs
  {
    hide Run, Packable, Start, Encode, Height, Back;
    if vs == [] {
      NothingToDecode();
    } else {
      ParsePacked(vs[0], EncodeAll(vs[1..]));
      DecodePacked(vs[1..]);
    }
  }

  lemma NothingToDecode()
    ensures Decode(Start(), []) == Decoded([], Live(Start(), []))
  {
  }

  /** Stream theorem: packed values, sent one after the other and received in chunks of any
      sizes, come out in order, and nothing is left over. */
  lemma StreamRoundTrip(vs: seq<Value>, chunks: seq<seq<byte>>)
    requires AllPackable(vs) && Highest(vs) < STACK_DEPTH && Concat(chunks) == EncodeAll(vs)
    ensures Feed(Decoded([], Live(Start(), [])), chunks) == Decoded(BackAll(vs), Live(Start(), []))
  {
    hide Decode, Start, Feed, Packable;
    NothingToDecode();
    FragmentationIndependent([], chunks);
    assert [] + Concat(chunks) == EncodeAll(vs);
    DecodePacked(vs);
  }

  /** Values the parser takes faithfully come out as they went in. */
  lemma FaithfulStream(vs: seq<Value>, chunks: seq<seq<byte>>)
    requires AllPackable(vs) && Highest(vs) < STACK_DEPTH && Concat(chunks) == EncodeAll(vs)
    ensures Feed(Decoded([], Live(Start(), [])), chunks).items == Meanings(vs) <==> AllFaithful(vs)
  {
    StreamRoundTrip(vs, chunks);
    AllFaithfulIff(vs);
    hide *;
  }
}
