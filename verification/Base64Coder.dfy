/** The base64 coders as the program runs them: a saved state and an output buffer. */
module Base64Coder {
  import opened Common
  import opened Base64

  datatype EncodeStep = A | B | C
  datatype DecodeStep = a | b | c | d

  class Encoder {
    var step: EncodeStep
    var result: nat
    var stepcount: nat

    ghost function State(): Encoding
      reads this
    {
      match step
      case A => StepA(stepcount)
      case B => StepB(result, stepcount)
      case C => StepC(result, stepcount)
    }

    ghost predicate Valid()
      reads this
    {
      EncOk(State())
    }

    constructor ()
      ensures Valid() && State() == StepA(0)
    {
      step, result, stepcount := A, 0, 0;
    }

    /** base64_encode_block: n characters are written from `from` on. */
    method EncodeBlock(plain: seq<byte>, out: array<byte>, from: nat) returns (n: nat)
      requires Valid() && from + |EncodeAll(State(), plain).1| <= out.Length
      modifies this, out
      ensures Valid()
      ensures from + n <= out.Length
      ensures State() == EncodeAll(old(State()), plain).0 && out[from..from + n] == EncodeAll(old(State()), plain).1
      ensures out[..from] == old(out[..from])
    {
      hide EncodeAll, EncodeOne, EncOk, State;
      n := 0;
      var i := 0;
      ghost var s := State();
      NothingEncoded(s);
      assert plain[..0] == [];
      while i < |plain|
        invariant 0 <= i <= |plain| && Valid() && from + n <= out.Length
        invariant State() == EncodeAll(s, plain[..i]).0 && out[from..from + n] == EncodeAll(s, plain[..i]).1
        invariant out[..from] == old(out[..from])
      {
        Prefix(s, plain, i);
        assert EncodeAll(s, plain[..i]).0 == State();
        ghost var before, written := out[from..from + n], out[..from + n];
        assert before == written[from..];
        ghost var t := State();
        var k := EncodeByte(plain[i], out, from + n);
        assert out[from..from + n] == out[..from + n][from..] == before;
        assert out[from..from + n + k] == out[from..from + n] + out[from + n..from + n + k];
        assert out[from..from + n + k] == before + EncodeOne(t, plain[i]).1;
        n := n + k;
        i := i + 1;
      }
      assert plain[..i] == plain;
    }

    method EncodeByte(fragment: byte, out: array<byte>, at: nat) returns (k: nat)
      requires Valid() && at + |EncodeOne(State(), fragment).1| <= out.Length
      modifies this, out
      ensures Valid() && k == |EncodeOne(old(State()), fragment).1|
      ensures State() == EncodeOne(old(State()), fragment).0 && out[at..at + k] == EncodeOne(old(State()), fragment).1
      ensures out[..at] == old(out[..at])
    {
      match step
      case A =>
        out[at] := EncodeValue(fragment / 4);
        result, step, k := fragment % 4 * 16, B, 1;
      case B =>
        out[at] := EncodeValue(result + fragment / 16);
        result, step, k := fragment % 16 * 4, C, 1;
      case C =>
        out[at] := EncodeValue(result + fragment / 64);
        out[at + 1] := EncodeValue(fragment % 64);
        k, step := 2, A;
        stepcount := stepcount + 1;
        if stepcount == CHARS_PER_LINE / 4 {
          out[at + 2] := NEWLINE;
          k, stepcount := 3, 0;
        }
    }

    /** base64_encode_blockend. */
    method EncodeBlockEnd(out: array<byte>, from: nat) returns (n: nat)
      requires Valid() && from + |EncodeEnd(State())| <= out.Length
      modifies out
      ensures n == |EncodeEnd(State())| && out[from..from + n] == EncodeEnd(State()) && out[..from] == old(out[..from])
    {
      n := 0;
      match step {
        case B =>
          out[from], out[from + 1], out[from + 2] := EncodeValue(result), PAD, PAD;
          n := 3;
        case C =>
          out[from], out[from + 1] := EncodeValue(result), PAD;
          n := 2;
        case A =>
      }
      out[from + n] := NEWLINE;
      n := n + 1;
    }
  }

  lemma NothingEncoded(s: Encoding)
    ensures EncodeAll(s, []) == (s, [])
  {
  }

  lemma NothingDecoded(s: Decoding)
    requires DecOk(s)
    ensures DecodeAll(s, []) == (s, [])
  {
  }

  lemma Prefix(s: Encoding, bs: seq<byte>, i: nat)
    requires i < |bs|
    ensures
      var (t, x) := EncodeAll(s, bs[..i]);
      var (u, y) := EncodeOne(t, bs[i]);
      EncodeAll(s, bs[..i + 1]) == (u, x + y) && |EncodeAll(s, bs[..i + 1]).1| <= |EncodeAll(s, bs).1|
  {
    hide EncodeAll, EncodeOne;
    EncodeSnoc(s, bs[..i], bs[i]);
    assert bs[..i] + [bs[i]] == bs[..i + 1];
    EncodeBlocks(s, bs[..i + 1], bs[i + 1..]);
    assert bs[..i + 1] + bs[i + 1..] == bs;
  }

  class Decoder {
    var step: DecodeStep
    var plainchar: byte

    ghost function State(): Decoding
      reads this
    {
      match step
      case a => Stepa
      case b => Stepb(plainchar)
      case c => Stepc(plainchar)
      case d => Stepd(plainchar)
    }

    ghost predicate Valid()
      reads this
    {
      DecOk(State())
    }

    constructor ()
      ensures Valid() && State() == Stepa
    {
      step, plainchar := a, 0;
    }

    /** base64_decode_block: n bytes are written from `from` on, and one more position holds
        the byte under construction. */
    method DecodeBlock(code: seq<byte>, out: array<byte>, from: nat) returns (n: nat)
      requires Valid() && AllDecodable(code) && from + |DecodeAll(State(), code).1| < out.Length
      modifies this, out
      ensures Valid()
      ensures from + n < out.Length
      ensures State() == DecodeAll(old(State()), code).0 && out[from..from + n] == DecodeAll(old(State()), code).1
      ensures out[..from] == old(out[..from])
    {
      hide DecodeAll, DecodeOne, DecOk, State;
      n := 0;
      out[from] := plainchar;
      var i := 0;
      ghost var s := State();
      NothingDecoded(s);
      assert code[..0] == [];
      while i < |code|
        invariant 0 <= i <= |code| && Valid() && from + n < out.Length
        invariant step != a ==> out[from + n] == plainchar
        invariant State() == DecodeAll(s, code[..i]).0 && out[from..from + n] == DecodeAll(s, code[..i]).1
        invariant out[..from] == old(out[..from])
      {
        DecodePrefix(s, code, i);
        ghost var before, written := out[from..from + n], out[..from + n];
        assert before == written[from..];
        ghost var t := State();
        var k := DecodeCharacter(code[i], out, from + n);
        assert out[from..from + n] == out[..from + n][from..] == before;
        assert out[from..from + n + k] == out[from..from + n] + out[from + n..from + n + k];
        assert out[from..from + n + k] == before + DecodeOne(t, code[i]).1;
        n := n + k;
        i := i + 1;
      }
      assert code[..i] == code;
      Save(out[from + n]);
    }

    /** The byte under construction is saved; between groups there is none. */
    method Save(v: byte)
      requires step != a ==> v == plainchar
      modifies this`plainchar
      ensures State() == old(State())
    {
      plainchar := v;
    }

    method DecodeCharacter(ch: byte, out: array<byte>, at: nat) returns (k: nat)
      requires Valid() && Decodable(ch) && at + |DecodeOne(State(), ch).1| < out.Length
      requires step != a ==> out[at] == plainchar
      modifies this, out
      ensures Valid() && k == |DecodeOne(old(State()), ch).1|
      ensures State() == DecodeOne(old(State()), ch).0 && out[at..at + k] == DecodeOne(old(State()), ch).1
      ensures out[..at] == old(out[..at])
      ensures step != a ==> out[at + k] == plainchar
    {
      hide DecodeValue;
      var fragment := DecodeValue(ch);
      k := 0;
      if fragment < 0 { return; }
      Pieces(fragment);
      match step
      case a =>
        out[at] := fragment * 4;
        step, plainchar := b, out[at];
      case b =>
        out[at] := out[at] + fragment / 16;
        out[at + 1] := fragment % 16 * 16;
        k, step, plainchar := 1, c, out[at + 1];
      case c =>
        out[at] := out[at] + fragment / 4;
        out[at + 1] := fragment % 4 * 64;
        k, step, plainchar := 1, d, out[at + 1];
      case d =>
        out[at] := out[at] + fragment;
        k, step := 1, a;
    }
  }

  lemma DecodePrefix(s: Decoding, cs: seq<byte>, i: nat)
    requires DecOk(s) && AllDecodable(cs) && i < |cs|
    ensures
      var (t, x) := DecodeAll(s, cs[..i]);
      var (u, y) := DecodeOne(t, cs[i]);
      DecodeAll(s, cs[..i + 1]) == (u, x + y) && |DecodeAll(s, cs[..i + 1]).1| <= |DecodeAll(s, cs).1|
  {
    hide DecodeAll, DecodeOne, DecOk;
    DecodeSnoc(s, cs[..i], cs[i]);
    assert cs[..i] + [cs[i]] == cs[..i + 1];
    DecodeBlocks(s, cs[..i + 1], cs[i + 1..]);
    assert cs[..i + 1] + cs[i + 1..] == cs;
  }
}
