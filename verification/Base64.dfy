/** The streaming base64 coder of libb64: section 4 of RFC 4648, with a newline after
    every 72 characters and one at the end.

    Both directions are coroutines that resume inside their loop; here a state says where.
    Characters and bytes are numbers below 256. */
module Base64 {
  import opened Common

  const CHARS_PER_LINE: nat := 72
  const NEWLINE: byte := 10
  const PAD: byte := 61

  // ---- the alphabet ----

  function EncodeValue(v: nat): byte {
    if v > 63 then PAD
    else if v < 26 then 65 + v
    else if v < 52 then 97 + (v - 26)
    else if v < 62 then 48 + (v - 52)
    else if v == 62 then 43
    else 47
  }

  /** n table entries counting up from v. */
  function Run(v: int, n: nat): (r: seq<int>)
    ensures |r| == n && forall i | 0 <= i < n :: r[i] == v + i
  {
    seq(n, i => v + i)
  }

  /** The table of base64_decode_value, for the characters from 43 on: `+`, `/`, the digits,
      the padding, the capital and the small letters, and what lies between them. */
  function DecodingTable(): (t: seq<int>)
    ensures |t| == 80 && t[0] == 62 && t[4] == 63 && t[18] == -2
    ensures forall i | 5 <= i < 15 :: t[i] == 52 + (i - 5)
    ensures forall i | 22 <= i < 48 :: t[i] == i - 22
    ensures forall i | 54 <= i < 80 :: t[i] == 26 + (i - 54)
    ensures forall i | 1 <= i < 4 || 15 <= i < 18 || 19 <= i < 22 || 48 <= i < 54 :: t[i] == -1
  {
    [62, -1, -1, -1, 63] + Run(52, 10) + [-1, -1, -1, -2, -1, -1, -1]
    + Run(0, 26) + [-1, -1, -1, -1, -1, -1] + Run(26, 26)
  }

  /** Conversion to a signed char. */
  function ToChar(n: int): int {
    (n + 128) % 256 - 128
  }

  /** `value_in -= 43`, on a signed char. */
  function TableIndex(c: byte): int {
    ToChar(ToChar(c) - 43)
  }

  /** The bound check does not answer -1, so the table is read. */
  predicate Looked(c: byte) {
    !(TableIndex(c) < 0 || TableIndex(c) > |DecodingTable()|)
  }

  /** The characters base64_decode_value may be given. */
  predicate Decodable(c: byte) {
    c != 123
  }

  /** The bound check lets one index too many through: the table is read within its bounds
      exactly for the characters other than 123. */
  lemma LookupInBoundsIff(c: byte)
    ensures (Looked(c) ==> 0 <= TableIndex(c) < |DecodingTable()|) <==> Decodable(c)
    ensures Looked(c) <==> 43 <= c <= 123
  {
    if c < 128 {
      CharBelow(c);
      CharBelow(c - 43);
    } else {
      assert ToChar(c) == c - 256;
      assert ToChar(c - 299) == if c < 171 then c - 43 else c - 299;
    }
  }

  lemma CharBelow(n: int)
    requires -128 <= n < 128
    ensures ToChar(n) == n
  {
  }

  /** 123 is read at the first index past the table. */
  lemma LookupPastTheEnd()
    ensures Looked(123) && TableIndex(123) == |DecodingTable()|
  {
    LookupInBoundsIff(123);
    CharBelow(123);
    CharBelow(80);
  }

  function DecodeValue(c: byte): (v: int)
    requires Decodable(c)
    ensures -2 <= v < 64
  {
    LookupInBoundsIff(c);
    if TableIndex(c) < 0 || TableIndex(c) > |DecodingTable()| then -1 else DecodingTable()[TableIndex(c)]
  }

  /** What the table says. */
  lemma DecodeValueIs(c: byte)
    requires Decodable(c)
    ensures DecodeValue(c) ==
      if c == 43 then 62
      else if c == 47 then 63
      else if 48 <= c <= 57 then c - 48 + 52
      else if c == PAD then -2
      else if 65 <= c <= 90 then c - 65
      else if 97 <= c <= 122 then c - 97 + 26
      else -1
  {
    LookupInBoundsIff(c);
    if 43 <= c < 123 {
      CharBelow(c);
      CharBelow(c - 43);
    }
  }

  /** The alphabet and the table are inverse, and padding and newlines are no digits. */
  lemma AlphabetInverse(v: nat)
    requires v <= 63
    ensures Decodable(EncodeValue(v)) && DecodeValue(EncodeValue(v)) == v
    ensures DecodeValue(PAD) < 0 && DecodeValue(NEWLINE) < 0
  {
    hide DecodeValue;
    DecodeValueIs(EncodeValue(v));
    DecodeValueIs(PAD);
    DecodeValueIs(NEWLINE);
  }

  // ---- encoding ----

  /** Where the encoder resumes, with the bits carried over and the groups on this line. */
  datatype Encoding = StepA(count: nat) | StepB(result: nat, count: nat) | StepC(result: nat, count: nat)

  predicate EncOk(s: Encoding) {
    && s.count < CHARS_PER_LINE / 4
    && (s.StepB? ==> s.result < 64 && s.result % 16 == 0)
    && (s.StepC? ==> s.result < 64 && s.result % 4 == 0)
  }

  function EncodeOne(s: Encoding, b: byte): (Encoding, seq<byte>) {
    match s
    case StepA(n) => (StepB(b % 4 * 16, n), [EncodeValue(b / 4)])
    case StepB(r, n) => (StepC(b % 16 * 4, n), [EncodeValue(r + b / 16)])
    case StepC(r, n) =>
      var chars := [EncodeValue(r + b / 64), EncodeValue(b % 64)];
      if n + 1 == CHARS_PER_LINE / 4 then (StepA(0), chars + [NEWLINE]) else (StepA(n + 1), chars)
  }

  function EncodeAll(s: Encoding, bs: seq<byte>): (Encoding, seq<byte>) {
    if bs == [] then (s, [])
    else
      var (t, out) := EncodeAll(s, bs[..|bs| - 1]);
      var (u, chars) := EncodeOne(t, bs[|bs| - 1]);
      (u, out + chars)
  }

  function EncodeEnd(s: Encoding): seq<byte> {
    match s
    case StepA(n) => [NEWLINE]
    case StepB(r, n) => [EncodeValue(r), PAD, PAD, NEWLINE]
    case StepC(r, n) => [EncodeValue(r), PAD, NEWLINE]
  }

  // ---- decoding ----

  /** Where the decoder resumes; plain is the byte under construction. */
  datatype Decoding = Stepa | Stepb(plain: byte) | Stepc(plain: byte) | Stepd(plain: byte)

  predicate DecOk(s: Decoding) {
    match s
    case Stepa => true
    case Stepb(p) => p % 4 == 0
    case Stepc(p) => p % 16 == 0
    case Stepd(p) => p % 64 == 0
  }

  function DecodeOne(s: Decoding, c: byte): (r: (Decoding, seq<byte>))
    requires DecOk(s) && Decodable(c)
    ensures DecOk(r.0)
  {
    var f := DecodeValue(c);
    if f < 0 then (s, [])
    else
      Pieces(f);
      match s
      case Stepa => (Stepb(f * 4), [])
      case Stepb(p) => Joins4(p, f / 16); (Stepc(f % 16 * 16), [p + f / 16])
      case Stepc(p) => Joins16(p, f / 4); (Stepd(f % 4 * 64), [p + f / 4])
      case Stepd(p) => Joins64(p, f); (Stepa, [p + f])
  }

  /** The bits of a digit, moved to their places in a byte. */
  lemma Pieces(f: nat)
    requires f < 64
    ensures f * 4 < 256 && f * 4 % 4 == 0 && f / 16 < 4
    ensures f % 16 * 16 < 256 && f % 16 * 16 % 16 == 0 && f / 4 < 16
    ensures f % 4 * 64 < 256 && f % 4 * 64 % 64 == 0
  {
  }

  lemma Joins4(p: byte, x: nat)
    requires p % 4 == 0 && x < 4
    ensures p + x < 256
  {
  }

  lemma Joins16(p: byte, x: nat)
    requires p % 16 == 0 && x < 16
    ensures p + x < 256
  {
  }

  lemma Joins64(p: byte, x: nat)
    requires p % 64 == 0 && x < 64
    ensures p + x < 256
  {
  }

  predicate AllDecodable(cs: seq<byte>) {
    forall i | 0 <= i < |cs| :: Decodable(cs[i])
  }

  function DecodeAll(s: Decoding, cs: seq<byte>): (r: (Decoding, seq<byte>))
    requires DecOk(s) && AllDecodable(cs)
    ensures DecOk(r.0)
  {
    if cs == [] then (s, [])
    else
      var (t, out) := DecodeAll(s, cs[..|cs| - 1]);
      var (u, plain) := DecodeOne(t, cs[|cs| - 1]);
      (u, out + plain)
  }

  // ---- blocks ----

  lemma EncodeSnoc(s: Encoding, bs: seq<byte>, b: byte)
    ensures
      var (t, out) := EncodeAll(s, bs);
      var (u, chars) := EncodeOne(t, b);
      EncodeAll(s, bs + [b]) == (u, out + chars)
  {
    hide EncodeOne;
    assert (bs + [b])[..|bs|] == bs;
  }

  lemma DecodeSnoc(s: Decoding, cs: seq<byte>, c: byte)
    requires DecOk(s) && AllDecodable(cs) && Decodable(c)
    ensures AllDecodable(cs + [c])
    ensures
      var (t, out) := DecodeAll(s, cs);
      var (u, plain) := DecodeOne(t, c);
      DecodeAll(s, cs + [c]) == (u, out + plain)
  {
    hide DecodeOne, DecOk;
    assert (cs + [c])[..|cs|] == cs;
  }

  /** Encoding in blocks is encoding at once. */
  lemma {:induction false} EncodeBlocks(s: Encoding, a: seq<byte>, b: seq<byte>)
    ensures
      var (t, x) := EncodeAll(s, a);
      var (u, y) := EncodeAll(t, b);
      EncodeAll(s, a + b) == (u, x + y)
    decreases |b|
  {
    hide EncodeOne;
    var (t, x) := EncodeAll(s, a);
    if b == [] {
      assert a + b == a && x + [] == x;
    } else {
      var n := |b| - 1;
      EncodeBlocks(s, a, b[..n]);
      EncodeSnoc(s, a + b[..n], b[n]);
      assert a + b[..n] + [b[n]] == a + b;
      var (u, y) := EncodeAll(t, b[..n]);
      assert x + y + EncodeOne(u, b[n]).1 == x + (y + EncodeOne(u, b[n]).1);
    }
  }

  /** Decoding in blocks is decoding at once. */
  lemma {:induction false} DecodeBlocks(s: Decoding, a: seq<byte>, b: seq<byte>)
    requires DecOk(s) && AllDecodable(a) && AllDecodable(b)
    ensures AllDecodable(a + b)
    ensures
      var (t, x) := DecodeAll(s, a);
      var (u, y) := DecodeAll(t, b);
      DecodeAll(s, a + b) == (u, x + y)
    decreases |b|
  {
    hide DecodeOne, DecOk;
    var (t, x) := DecodeAll(s, a);
    if b == [] {
      assert a + b == a && x + [] == x;
    } else {
      var n := |b| - 1;
      DecodeBlocks(s, a, b[..n]);
      DecodeSnoc(s, a + b[..n], b[n]);
      assert a + b[..n] + [b[n]] == a + b;
      var (u, y) := DecodeAll(t, b[..n]);
      assert x + y + DecodeOne(u, b[n]).1 == x + (y + DecodeOne(u, b[n]).1);
    }
  }

  // ---- round trip ----

  /** The decoder holds what the encoder has written of its last, incomplete byte. */
  predicate InStep(e: Encoding, d: Decoding, whole: seq<byte>, decoded: seq<byte>) {
    match e
    case StepA(n) => d == Stepa && decoded == whole
    case StepB(r, n) =>
      d.Stepb? && whole != [] && decoded == whole[..|whole| - 1]
      && d.plain == whole[|whole| - 1] / 4 * 4 && r == whole[|whole| - 1] % 4 * 16
    case StepC(r, n) =>
      d.Stepc? && whole != [] && decoded == whole[..|whole| - 1]
      && d.plain == whole[|whole| - 1] / 16 * 16 && r == whole[|whole| - 1] % 16 * 4
  }

  /** Decoding the character of digit v. */
  lemma Digit(d: Decoding, v: nat)
    requires DecOk(d) && v <= 63
    ensures Decodable(EncodeValue(v))
    ensures DecodeOne(d, EncodeValue(v)) == match d
      case Stepa => (Stepb(v * 4), [])
      case Stepb(p) => (Stepc(v % 16 * 16), [p + v / 16])
      case Stepc(p) => (Stepd(v % 4 * 64), [p + v / 4])
      case Stepd(p) => (Stepa, [p + v])
  {
    AlphabetInverse(v);
    hide EncodeValue, DecodeValue;
  }

  lemma NoDigit(d: Decoding, c: byte)
    requires DecOk(d) && (c == PAD || c == NEWLINE || c == 0)
    ensures Decodable(c) && DecodeOne(d, c) == (d, [])
  {
    hide DecodeValue;
    DecodeValueIs(c);
  }

  lemma DecodeChar(d: Decoding, c: byte)
    requires DecOk(d) && Decodable(c)
    ensures AllDecodable([c]) && DecodeAll(d, [c]) == DecodeOne(d, c)
  {
    hide DecodeOne;
    DecodeSnoc(d, [], c);
    assert [] + [c] == [c] && [] + DecodeOne(d, c).1 == DecodeOne(d, c).1;
  }

  lemma DecodePair(d: Decoding, c: byte, c': byte)
    requires DecOk(d) && Decodable(c) && Decodable(c')
    ensures
      var (t, x) := DecodeOne(d, c);
      var (u, y) := DecodeOne(t, c');
      AllDecodable([c, c']) && DecodeAll(d, [c, c']) == (u, x + y)
  {
    hide DecodeOne;
    DecodeChar(d, c);
    DecodeSnoc(d, [c], c');
    assert [c] + [c'] == [c, c'];
  }

  /** Padding, newlines and a terminating zero decode to nothing. */
  lemma DecodePadding(d: Decoding, cs: seq<byte>, c: byte)
    requires DecOk(d) && AllDecodable(cs) && (c == PAD || c == NEWLINE || c == 0)
    ensures AllDecodable(cs + [c]) && DecodeAll(d, cs + [c]) == DecodeAll(d, cs)
  {
    hide DecodeOne;
    var (t, x) := DecodeAll(d, cs);
    NoDigit(t, c);
    DecodeSnoc(d, cs, c);
    assert x + [] == x;
  }

  lemma Reassembled(whole: seq<byte>, decoded: seq<byte>, x: byte)
    requires whole != [] && decoded == whole[..|whole| - 1] && x == whole[|whole| - 1]
    ensures decoded + [x] == whole
  {
  }

  lemma InStepA(n: nat, whole: seq<byte>, b: byte)
    requires n < CHARS_PER_LINE / 4
    ensures
      var (e, cs) := EncodeOne(StepA(n), b);
      EncOk(e) && AllDecodable(cs) && InStep(e, DecodeAll(Stepa, cs).0, whole + [b], whole + DecodeAll(Stepa, cs).1)
  {
    hide EncodeValue, DecodeValue, DecodeOne;
    Digit(Stepa, b / 4);
    DecodeChar(Stepa, EncodeValue(b / 4));
    assert (whole + [b])[..|whole|] == whole && whole + [] == whole;
  }

  lemma InStepB(r: nat, n: nat, p: byte, whole: seq<byte>, decoded: seq<byte>, b: byte)
    requires EncOk(StepB(r, n)) && DecOk(Stepb(p)) && InStep(StepB(r, n), Stepb(p), whole, decoded)
    ensures
      var (e, cs) := EncodeOne(StepB(r, n), b);
      EncOk(e) && AllDecodable(cs) && InStep(e, DecodeAll(Stepb(p), cs).0, whole + [b], decoded + DecodeAll(Stepb(p), cs).1)
  {
    hide EncodeValue, DecodeValue, DecodeOne;
    var v := r + b / 16;
    Digit(Stepb(p), v);
    DecodeChar(Stepb(p), EncodeValue(v));
    assert v / 16 == whole[|whole| - 1] % 4 && v % 16 == b / 16;
    Reassembled(whole, decoded, p + v / 16);
    assert (whole + [b])[..|whole|] == whole;
  }

  lemma InStepC(r: nat, n: nat, p: byte, whole: seq<byte>, decoded: seq<byte>, b: byte)
    requires EncOk(StepC(r, n)) && DecOk(Stepc(p)) && InStep(StepC(r, n), Stepc(p), whole, decoded)
    ensures
      var (e, cs) := EncodeOne(StepC(r, n), b);
      EncOk(e) && AllDecodable(cs) && InStep(e, DecodeAll(Stepc(p), cs).0, whole + [b], decoded + DecodeAll(Stepc(p), cs).1)
  {
    hide EncodeValue, DecodeValue, DecodeOne, DecodeAll;
    var v, w := r + b / 64, b % 64;
    var cs := [EncodeValue(v), EncodeValue(w)];
    assert v / 4 == whole[|whole| - 1] % 16 && v % 4 == b / 64;
    Digit(Stepc(p), v);
    Digit(Stepd(v % 4 * 64), w);
    DecodePair(Stepc(p), EncodeValue(v), EncodeValue(w));
    DecodePadding(Stepc(p), cs, NEWLINE);
    Reassembled(whole, decoded, p + v / 4);
    Joined(decoded, whole, p + v / 4, v % 4 * 64 + w);
  }

  lemma Joined(decoded: seq<byte>, whole: seq<byte>, x: byte, y: byte)
    requires decoded + [x] == whole
    ensures decoded + ([x] + [y]) == whole + [y]
  {
  }

  lemma OneInStep(e: Encoding, d: Decoding, whole: seq<byte>, decoded: seq<byte>, b: byte)
    requires EncOk(e) && DecOk(d) && InStep(e, d, whole, decoded)
    ensures
      var (e', cs) := EncodeOne(e, b);
      EncOk(e') && AllDecodable(cs) && InStep(e', DecodeAll(d, cs).0, whole + [b], decoded + DecodeAll(d, cs).1)
  {
    hide EncodeOne, DecodeAll;
    match e
    case StepA(n) => InStepA(n, whole, b);
    case StepB(r, n) => InStepB(r, n, d.plain, whole, decoded, b);
    case StepC(r, n) => InStepC(r, n, d.plain, whole, decoded, b);
  }

  lemma {:induction false} AllInStep(bs: seq<byte>)
    ensures
      var (e, out) := EncodeAll(StepA(0), bs);
      EncOk(e) && AllDecodable(out) && InStep(e, DecodeAll(Stepa, out).0, bs, DecodeAll(Stepa, out).1)
  {
    hide EncodeOne, DecodeOne;
    if bs != [] {
      var n := |bs| - 1;
      AllInStep(bs[..n]);
      var (e, out) := EncodeAll(StepA(0), bs[..n]);
      var (d, plain) := DecodeAll(Stepa, out);
      OneInStep(e, d, bs[..n], plain, bs[n]);
      DecodeBlocks(Stepa, out, EncodeOne(e, bs[n]).1);
      assert bs[..n] + [bs[n]] == bs;
    }
  }

  lemma EndInStep(e: Encoding, d: Decoding, whole: seq<byte>, decoded: seq<byte>)
    requires EncOk(e) && DecOk(d) && InStep(e, d, whole, decoded)
    ensures AllDecodable(EncodeEnd(e)) && decoded + DecodeAll(d, EncodeEnd(e)).1 == whole
  {
    hide EncodeValue, DecodeValue, DecodeOne, DecodeAll;
    match e
    case StepA(n) =>
      NoDigit(d, NEWLINE);
      DecodeChar(d, NEWLINE);
    case StepB(r, n) =>
      var c := EncodeValue(r);
      Digit(d, r);
      DecodeChar(d, c);
      DecodePadding(d, [c], PAD);
      DecodePadding(d, [c] + [PAD], PAD);
      DecodePadding(d, [c] + [PAD] + [PAD], NEWLINE);
      assert [c] + [PAD] + [PAD] + [NEWLINE] == EncodeEnd(e);
      Reassembled(whole, decoded, d.plain + r / 16);
    case StepC(r, n) =>
      var c := EncodeValue(r);
      Digit(d, r);
      DecodeChar(d, c);
      DecodePadding(d, [c], PAD);
      DecodePadding(d, [c] + [PAD], NEWLINE);
      assert [c] + [PAD] + [NEWLINE] == EncodeEnd(e);
      Reassembled(whole, decoded, d.plain + r / 4);
  }

  /** Everything the encoder writes for bs, newlines and padding included. */
  function Encoded(bs: seq<byte>): seq<byte> {
    var (e, out) := EncodeAll(StepA(0), bs);
    out + EncodeEnd(e)
  }

  /** Round trip: decoding what was encoded returns the bytes. */
  lemma RoundTrip(bs: seq<byte>)
    ensures AllDecodable(Encoded(bs)) && DecodeAll(Stepa, Encoded(bs)).1 == bs
  {
    AllInStep(bs);
    var (e, out) := EncodeAll(StepA(0), bs);
    var (d, plain) := DecodeAll(Stepa, out);
    EndInStep(e, d, bs, plain);
    DecodeBlocks(Stepa, out, EncodeEnd(e));
  }

  /** base64::encode puts a zero in place of the last newline. */
  function EncodedString(bs: seq<byte>): seq<byte>
    requires Encoded(bs) != []
  {
    Encoded(bs)[..|Encoded(bs)| - 1] + [0]
  }

  /** The wrappers invert each other, with or without the terminating zero. */
  lemma WrapperRoundTrip(bs: seq<byte>)
    ensures Encoded(bs) != [] && AllDecodable(EncodedString(bs)) && DecodeAll(Stepa, EncodedString(bs)).1 == bs
    ensures AllDecodable(Encoded(bs)[..|Encoded(bs)| - 1]) && DecodeAll(Stepa, Encoded(bs)[..|Encoded(bs)| - 1]).1 == bs
  {
    RoundTrip(bs);
    EndsWithNewline(bs);
    hide Encoded, DecodeAll;
    var text := Encoded(bs)[..|Encoded(bs)| - 1];
    assert Encoded(bs) == text + [NEWLINE];
    assert AllDecodable(text);
    DecodePadding(Stepa, text, NEWLINE);
    DecodePadding(Stepa, text, 0);
  }

  lemma EndsWithNewline(bs: seq<byte>)
    ensures Encoded(bs) != [] && Encoded(bs)[|Encoded(bs)| - 1] == NEWLINE
  {
    hide EncodeAll, EncodeValue;
  }

  function EncodeInBlocks(s: Encoding, blocks: seq<seq<byte>>): (Encoding, seq<byte>)
    decreases blocks
  {
    if blocks == [] then (s, [])
    else
      var (t, x) := EncodeAll(s, blocks[0]);
      var (u, y) := EncodeInBlocks(t, blocks[1..]);
      (u, x + y)
  }

  predicate BlocksDecodable(blocks: seq<seq<byte>>) {
    forall i | 0 <= i < |blocks| :: AllDecodable(blocks[i])
  }

  function DecodeInBlocks(s: Decoding, blocks: seq<seq<byte>>): (Decoding, seq<byte>)
    requires DecOk(s) && BlocksDecodable(blocks)
    decreases blocks
  {
    if blocks == [] then (s, [])
    else
      var (t, x) := DecodeAll(s, blocks[0]);
      var (u, y) := DecodeInBlocks(t, blocks[1..]);
      (u, x + y)
  }

  lemma {:induction false} EncodeAnyBlocks(s: Encoding, blocks: seq<seq<byte>>)
    ensures EncodeInBlocks(s, blocks) == EncodeAll(s, Concat(blocks))
    decreases blocks
  {
    if blocks != [] {
      EncodeAnyBlocks(EncodeAll(s, blocks[0]).0, blocks[1..]);
      EncodeBlocks(s, blocks[0], Concat(blocks[1..]));
    }
  }

  lemma {:induction false} DecodeAnyBlocks(s: Decoding, blocks: seq<seq<byte>>)
    requires DecOk(s) && BlocksDecodable(blocks)
    ensures AllDecodable(Concat(blocks)) && DecodeInBlocks(s, blocks) == DecodeAll(s, Concat(blocks))
    decreases blocks
  {
    if blocks != [] {
      DecodeAnyBlocks(DecodeAll(s, blocks[0]).0, blocks[1..]);
      DecodeBlocks(s, blocks[0], Concat(blocks[1..]));
    }
  }

  lemma {:induction false} SplitDecodable(blocks: seq<seq<byte>>)
    requires AllDecodable(Concat(blocks))
    ensures BlocksDecodable(blocks)
    decreases blocks
  {
    if blocks != [] {
      var rest := Concat(blocks[1..]);
      assert forall i | 0 <= i < |blocks[0]| :: Concat(blocks)[i] == blocks[0][i];
      assert forall i | 0 <= i < |rest| :: Concat(blocks)[|blocks[0]| + i] == rest[i];
      SplitDecodable(blocks[1..]);
    }
  }

  /** Streaming round trip: bytes encoded in any blocks and ended, then decoded in any
      blocks, come back. */
  lemma StreamingRoundTrip(plain: seq<seq<byte>>, code: seq<seq<byte>>)
    requires Concat(code) == EncodeInBlocks(StepA(0), plain).1 + EncodeEnd(EncodeInBlocks(StepA(0), plain).0)
    ensures BlocksDecodable(code) && DecodeInBlocks(Stepa, code).1 == Concat(plain)
  {
    EncodeAnyBlocks(StepA(0), plain);
    RoundTrip(Concat(plain));
    SplitDecodable(code);
    DecodeAnyBlocks(Stepa, code);
  }

  // ---- lines ----

  /** The column after cs, starting in column col, if no line gets longer than 72. */
  function Columns(cs: seq<byte>): int {
    if cs == [] then 0
    else
      var col := Columns(cs[..|cs| - 1]);
      if col < 0 || (cs[|cs| - 1] != NEWLINE && col == CHARS_PER_LINE) then -1
      else if cs[|cs| - 1] == NEWLINE then 0
      else col + 1
  }

  function ColumnOf(s: Encoding): nat {
    4 * s.count + match s case StepA(_) => 0 case StepB(_, _) => 1 case StepC(_, _) => 2
  }

  /** No line of the output is longer than 72 characters. */
  lemma {:induction false} LinesFit(bs: seq<byte>)
    ensures
      var (e, out) := EncodeAll(StepA(0), bs);
      EncOk(e) && Columns(out) == ColumnOf(e) && Columns(Encoded(bs)) == 0
  {
    if bs != [] {
      var n := |bs| - 1;
      LinesFit(bs[..n]);
      var (e, out) := EncodeAll(StepA(0), bs[..n]);
      OneColumn(e, out, bs[n]);
    }
    var (e, out) := EncodeAll(StepA(0), bs);
    EndColumn(e, out);
  }

  lemma ColumnSnoc(cs: seq<byte>, c: byte, col: nat)
    requires Columns(cs) == col
    ensures Columns(cs + [c]) == if c == NEWLINE then 0 else if col == CHARS_PER_LINE then -1 else col + 1
  {
    assert (cs + [c])[..|cs|] == cs;
  }

  lemma OneColumn(e: Encoding, out: seq<byte>, b: byte)
    requires EncOk(e) && Columns(out) == ColumnOf(e)
    ensures EncOk(EncodeOne(e, b).0) && Columns(out + EncodeOne(e, b).1) == ColumnOf(EncodeOne(e, b).0)
  {
    hide Columns, EncodeValue;
    var cs := EncodeOne(e, b).1;
    NoNewline(e, b);
    ColumnSnoc(out, cs[0], ColumnOf(e));
    if e.StepC? {
      ColumnSnoc(out + [cs[0]], cs[1], ColumnOf(e) + 1);
      assert out + [cs[0]] + [cs[1]] == out + cs[..2];
      if |cs| == 3 {
        ColumnSnoc(out + cs[..2], NEWLINE, ColumnOf(e) + 2);
        assert out + cs[..2] + [NEWLINE] == out + cs;
      } else {
        assert cs[..2] == cs;
      }
    }
  }

  lemma NoNewline(e: Encoding, b: byte)
    ensures var cs := EncodeOne(e, b).1; cs[0] != NEWLINE && (e.StepC? ==> cs[1] != NEWLINE)
  {
  }

  lemma EndColumn(e: Encoding, out: seq<byte>)
    requires EncOk(e) && Columns(out) == ColumnOf(e)
    ensures Columns(out + EncodeEnd(e)) == 0
  {
    var cs := EncodeEnd(e);
    var col := ColumnOf(e);
    assert cs[0] != NEWLINE || e.StepA?;
    hide Columns, EncodeValue;
    ColumnSnoc(out, cs[0], col);
    if e.StepB? {
      ColumnSnoc(out + [cs[0]], PAD, col + 1);
      ColumnSnoc(out + [cs[0]] + [PAD], PAD, col + 2);
      ColumnSnoc(out + [cs[0]] + [PAD] + [PAD], NEWLINE, col + 3);
      assert out + [cs[0]] + [PAD] + [PAD] + [NEWLINE] == out + cs;
    } else if e.StepC? {
      ColumnSnoc(out + [cs[0]], PAD, col + 1);
      ColumnSnoc(out + [cs[0]] + [PAD], NEWLINE, col + 2);
      assert out + [cs[0]] + [PAD] + [NEWLINE] == out + cs;
    }
  }

  // ---- sizes ----

  function Offset(s: Encoding): nat {
    match s case StepA(_) => 0 case StepB(_, _) => 1 case StepC(_, _) => 2
  }

  /** How much was written after n bytes: a line of 73 characters for every 54 of them. */
  lemma {:induction false} LengthSoFar(bs: seq<byte>) returns (lines: nat)
    ensures
      var (e, out) := EncodeAll(StepA(0), bs);
      && EncOk(e) && |bs| == 54 * lines + 3 * e.count + Offset(e)
      && |out| == 73 * lines + 4 * e.count + Offset(e)
  {
    lines := 0;
    if bs != [] {
      lines := LengthSoFar(bs[..|bs| - 1]);
      var (e, out) := EncodeAll(StepA(0), bs[..|bs| - 1]);
      if e.StepC? && e.count + 1 == CHARS_PER_LINE / 4 { lines := lines + 1; }
      assert EncOk(EncodeOne(e, bs[|bs| - 1]).0) by { EncodeKeepsOk(e, bs[|bs| - 1]); }
    }
  }

  lemma EncodeKeepsOk(e: Encoding, b: byte)
    requires EncOk(e)
    ensures EncOk(EncodeOne(e, b).0)
  {
  }

  lemma EncodedLength(bs: seq<byte>)
    ensures |Encoded(bs)| == 4 * ((|bs| + 2) / 3) + |bs| / 54 + 1
  {
    hide EncodeAll;
    var lines := LengthSoFar(bs);
    var e := EncodeAll(StepA(0), bs).0;
    Divided(|bs|, lines, e.count, Offset(e));
  }

  lemma Divided(n: nat, lines: nat, c: nat, o: nat)
    requires n == 54 * lines + 3 * c + o && c < 18 && o < 3
    ensures n / 54 == lines && (n + 2) / 3 == 18 * lines + c + if o == 0 then 0 else 1
  {
  }

  /** base64::buffsize. */
  function BufferSize(n: nat): nat {
    (3 + ((2 + n) * 4 / 3 + 1 + 1)) / 4 * 4
  }

  /** The size helper leaves no room for line breaks beyond the first three: the encoded
      text fits the size it computes exactly for inputs below 216 bytes. */
  lemma BufferFitsIff(bs: seq<byte>)
    ensures |Encoded(bs)| <= BufferSize(|bs|) <==> |bs| < 216
  {
    hide Encoded, BufferSize;
    EncodedLength(bs);
    BufferSizeIs(|bs|);
  }

  /** The helper counts four characters for each started group of three, and four more. */
  lemma BufferSizeIs(n: nat)
    ensures BufferSize(n) == 4 * ((n + 2) / 3) + 4
  {
    var m, r := (n + 2) / 3, (n + 2) % 3;
    assert (2 + n) * 4 == 12 * m + 4 * r;
    assert (2 + n) * 4 / 3 == 4 * m + 4 * r / 3;
  }
}
