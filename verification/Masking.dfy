/** Masking of WebSocket payloads (section 5.3 of RFC 6455) as `mask_payload` does it: word
    by word, with the position in the key carried from piece to piece. */
module Masking {
  import opened Common

  type Key = seq<bv8>

  function Xor(a: bv8, b: bv8): bv8 {
    a ^ b
  }

  /** The octet of the key at position n, counted round and round. */
  function KeyOctet(key: Key, n: nat): bv8
    requires |key| == 4
  {
    key[n % 4]
  }

  /** Octet i of the payload is masked with octet (from + i) mod 4 of the key. */
  function Masked(s: seq<bv8>, key: Key, start: nat): (r: seq<bv8>)
    requires |key| == 4
    ensures |r| == |s|
  {
    seq(|s|, i requires 0 <= i < |s| => Xor(s[i], KeyOctet(key, start + i)))
  }

  /** The 32-bit word at four octets, lowest address first. */
  function Word(a: bv8, b: bv8, c: bv8, d: bv8): bv32 {
    (a as bv32) | ((b as bv32) << 8) | ((c as bv32) << 16) | ((d as bv32) << 24)
  }

  function Octet(w: bv32, i: nat): bv8
    requires i < 4
  {
    match i
    case 0 => (w & 0xff) as bv8
    case 1 => ((w >> 8) & 0xff) as bv8
    case 2 => ((w >> 16) & 0xff) as bv8
    case 3 => ((w >> 24) & 0xff) as bv8
  }

  /** Masking a word masks its four octets. */
  lemma WordMask(a: bv8, b: bv8, c: bv8, d: bv8, k0: bv8, k1: bv8, k2: bv8, k3: bv8)
    ensures
      var w := Word(a, b, c, d) ^ Word(k0, k1, k2, k3);
      Octet(w, 0) == Xor(a, k0) && Octet(w, 1) == Xor(b, k1) && Octet(w, 2) == Xor(c, k2) && Octet(w, 3) == Xor(d, k3)
  {
  }

  /** The octets of p[at..at + 4] hold word w. */
  method StoreWord(p: array<bv8>, at: nat, w: bv32)
    requires at + 4 <= p.Length
    modifies p
    ensures p[at] == Octet(w, 0) && p[at + 1] == Octet(w, 1) && p[at + 2] == Octet(w, 2) && p[at + 3] == Octet(w, 3)
    ensures p[..at] == old(p[..at]) && p[at + 4..] == old(p[at + 4..])
  {
    p[at], p[at + 1], p[at + 2], p[at + 3] := Octet(w, 0), Octet(w, 1), Octet(w, 2), Octet(w, 3);
  }

  /** n octets of s from `done` on are masked as well. */
  lemma MaskMore(s: seq<bv8>, key: Key, start: nat, done: nat, n: nat)
    requires |key| == 4 && done + n <= |s|
    ensures Masked(s[..done + n], key, start) == Masked(s[..done], key, start) + Masked(s[done..done + n], key, start + done)
  {
    PieceByPiece(s[..done], s[done..done + n], key, start);
    assert s[..done] + s[done..done + n] == s[..done + n];
  }

  /** Octets at..at + 4 are masked as one word with the whole key. */
  method MaskWord(p: array<bv8>, at: nat, key: Key)
    requires at + 4 <= p.Length && |key| == 4
    modifies p
    ensures p[..at] == old(p[..at]) && p[at + 4..] == old(p[at + 4..])
    ensures p[at..at + 4] == Masked(old(p[at..at + 4]), key, 0)
  {
    hide Word, Octet, Xor, Masked;
    ghost var old4 := p[at..at + 4];
    WordMask(p[at], p[at + 1], p[at + 2], p[at + 3], key[0], key[1], key[2], key[3]);
    StoreWord(p, at, Word(p[at], p[at + 1], p[at + 2], p[at + 3]) ^ Word(key[0], key[1], key[2], key[3]));
    FourOctets(old4, p[at..at + 4], key);
  }

  lemma FourOctets(s: seq<bv8>, t: seq<bv8>, key: Key)
    requires |key| == |s| == |t| == 4
    requires t[0] == Xor(s[0], key[0]) && t[1] == Xor(s[1], key[1]) && t[2] == Xor(s[2], key[2]) && t[3] == Xor(s[3], key[3])
    ensures t == Masked(s, key, 0)
  {
    hide Xor;
  }

  method MaskOctet(p: array<bv8>, at: nat, key: Key, k: nat)
    requires at < p.Length && |key| == 4 && k < 4
    modifies p
    ensures p[..at] == old(p[..at]) && p[at + 1..] == old(p[at + 1..])
    ensures p[at] == Xor(old(p[at]), key[k])
  {
    p[at] := Xor(p[at], key[k]);
  }

  /** What was masked so far, and what is still as it came. */
  ghost predicate MaskedUpTo(now: seq<bv8>, before: seq<bv8>, key: Key, start: nat, done: nat)
    requires |key| == 4
  {
    && done <= |before| == |now|
    && now == Masked(before[..done], key, start) + before[done..]
  }

  lemma OneMore(now: seq<bv8>, after: seq<bv8>, before: seq<bv8>, key: Key, start: nat, done: nat)
    requires |key| == 4 && MaskedUpTo(now, before, key, start, done) && done < |before| && |after| == |now|
    requires after[..done] == now[..done] && after[done + 1..] == now[done + 1..]
    requires after[done] == Xor(now[done], KeyOctet(key, start + done))
    ensures MaskedUpTo(after, before, key, start, done + 1)
  {
    hide Xor, KeyOctet;
    MaskMore(before, key, start, done, 1);
    assert before[done..done + 1] == [before[done]] && now[done] == before[done..][0];
    assert after == after[..done] + [after[done]] + after[done + 1..];
  }

  lemma FourMore(now: seq<bv8>, after: seq<bv8>, before: seq<bv8>, key: Key, start: nat, done: nat)
    requires |key| == 4 && MaskedUpTo(now, before, key, start, done) && done + 4 <= |before| && |after| == |now|
    requires (start + done) % 4 == 0
    requires after[..done] == now[..done] && after[done + 4..] == now[done + 4..]
    requires after[done..done + 4] == Masked(now[done..done + 4], key, 0)
    ensures MaskedUpTo(after, before, key, start, done + 4)
  {
    hide Xor, KeyOctet, Masked;
    MaskMore(before, key, start, done, 4);
    assert now[done..done + 4] == before[done..done + 4];
    SamePhase(before[done..done + 4], key, 0, start + done);
    assert after == after[..done] + after[done..done + 4] + after[done + 4..];
  }

  /** mask_payload: the whole of p is masked from position mask_idx of the key on, and the
      position after it is returned. */
  method MaskPayload(p: array<bv8>, key: Key, mask_idx: nat) returns (idx: nat)
    requires |key| == 4 && mask_idx < 4
    modifies p
    ensures p[..] == Masked(old(p[..]), key, mask_idx)
    ensures idx == (mask_idx + p.Length) % 4
  {
    hide Masked, Xor, MaskedUpTo, KeyOctet;
    ghost var before := p[..];
    idx := mask_idx;
    var at := 0;
    NothingMasked(before, key, mask_idx);
    if idx > 0 {
      at, idx := MaskHead(p, key, mask_idx, before);
    }
    Phase(mask_idx, at, at);
    at := MaskWords(p, key, mask_idx, at, before);
    if p.Length - at > 0 {
      idx := MaskTail(p, key, mask_idx, at, before);
    }
    AllMasked(p[..], before, key, mask_idx);
  }

  /** The octets up to the next whole turn of the key. */
  method MaskHead(p: array<bv8>, key: Key, mask_idx: nat, ghost before: seq<bv8>) returns (at: nat, idx: nat)
    requires |key| == 4 && 0 < mask_idx < 4 && p[..] == before
    modifies p
    ensures at <= p.Length && MaskedUpTo(p[..], before, key, mask_idx, at)
    ensures idx == (mask_idx + at) % 4 && (idx == 0 || at == p.Length)
  {
    hide Masked, Xor, MaskedUpTo;
    at, idx := 0, mask_idx;
    NothingMasked(before, key, mask_idx);
    while at < p.Length && idx < 4
      invariant 0 <= at <= p.Length && idx == mask_idx + at <= 4
      invariant MaskedUpTo(p[..], before, key, mask_idx, at)
    {
      ghost var now := p[..];
      MaskOctet(p, at, key, idx);
      Slices(p, now, at, 1);
      OneMore(now, p[..], before, key, mask_idx, at);
      at, idx := at + 1, idx + 1;
    }
    if idx >= 4 { idx := 0; }
  }

  /** Whole words. */
  method MaskWords(p: array<bv8>, key: Key, ghost start: nat, first: nat, ghost before: seq<bv8>) returns (at: nat)
    requires |key| == 4 && first <= p.Length == |before| && MaskedUpTo(p[..], before, key, start, first)
    requires (start + first) % 4 == 0 || first == p.Length
    modifies p
    ensures first <= at <= p.Length && p.Length - at < 4 && MaskedUpTo(p[..], before, key, start, at)
    ensures (start + first) % 4 == (start + at) % 4
  {
    hide Masked, Xor, MaskedUpTo, KeyOctet;
    at := first;
    while p.Length - at >= 4
      invariant first <= at <= p.Length && (start + first) % 4 == (start + at) % 4
      invariant MaskedUpTo(p[..], before, key, start, at)
    {
      ghost var now := p[..];
      MaskWord(p, at, key);
      Slices(p, now, at, 4);
      FourMore(now, p[..], before, key, start, at);
      at := at + 4;
    }
  }

  /** What is left over, less than a word. */
  method MaskTail(p: array<bv8>, key: Key, ghost start: nat, first: nat, ghost before: seq<bv8>) returns (idx: nat)
    requires |key| == 4 && 0 < p.Length - first < 4 && p.Length == |before|
    requires MaskedUpTo(p[..], before, key, start, first) && (start + first) % 4 == 0
    modifies p
    ensures MaskedUpTo(p[..], before, key, start, p.Length)
    ensures idx == (start + p.Length) % 4
  {
    hide Masked, Xor, MaskedUpTo;
    var at := first;
    var remain := p.Length - first;
    idx := 0;
    while at < p.Length
      invariant first <= at <= p.Length && (at > first ==> idx == at - first - 1)
      invariant MaskedUpTo(p[..], before, key, start, at)
    {
      idx := remain - (p.Length - at);
      Phase(start, first, at);
      ghost var now := p[..];
      MaskOctet(p, at, key, idx);
      Slices(p, now, at, 1);
      OneMore(now, p[..], before, key, start, at);
      at := at + 1;
    }
    idx := idx + 1;
    Phase(start, first, at);
  }

  lemma Phase(start: nat, first: nat, at: nat)
    ensures (start + first) % 4 == 0 && first <= at < first + 4 ==> (start + at) % 4 == at - first
  {
  }

  lemma Slices(p: array<bv8>, now: seq<bv8>, at: nat, n: nat)
    requires at + n <= p.Length == |now|
    ensures p[..][..at] == p[..at] && p[..][at + n..] == p[at + n..]
    ensures n == 4 ==> p[..][at..at + 4] == p[at..at + 4]
  {
  }

  lemma NothingMasked(s: seq<bv8>, key: Key, start: nat)
    requires |key| == 4
    ensures MaskedUpTo(s, s, key, start, 0)
  {
    assert Masked(s[..0], key, start) == [];
  }

  lemma AllMasked(now: seq<bv8>, before: seq<bv8>, key: Key, start: nat)
    requires |key| == 4 && MaskedUpTo(now, before, key, start, |before|)
    ensures now == Masked(before, key, start)
  {
    assert before[..|before|] == before;
  }

  // ---- laws ----

  lemma SamePhase(s: seq<bv8>, key: Key, a: nat, b: nat)
    requires |key| == 4 && a % 4 == b % 4
    ensures Masked(s, key, a) == Masked(s, key, b)
  {
    hide KeyOctet, Xor;
    forall i | 0 <= i < |s|
      ensures Masked(s, key, a)[i] == Masked(s, key, b)[i]
    {
      SameOctet(key, a, b, i);
    }
  }

  lemma SameOctet(key: Key, a: nat, b: nat, i: nat)
    requires |key| == 4 && a % 4 == b % 4
    ensures KeyOctet(key, a + i) == KeyOctet(key, b + i)
  {
  }

  /** A payload masked in pieces, the key position carried over, is masked as a whole. */
  lemma PieceByPiece(a: seq<bv8>, b: seq<bv8>, key: Key, start: nat)
    requires |key| == 4
    ensures Masked(a + b, key, start) == Masked(a, key, start) + Masked(b, key, start + |a|)
    ensures Masked(b, key, start + |a|) == Masked(b, key, (start + |a|) % 4)
  {
    hide Xor, KeyOctet;
    var r := Masked(a, key, start) + Masked(b, key, start + |a|);
    forall i | 0 <= i < |a + b|
      ensures Masked(a + b, key, start)[i] == r[i]
    {
      assert i >= |a| ==> start + |a| + (i - |a|) == start + i;
    }
    SamePhase(b, key, start + |a|, (start + |a|) % 4);
  }

  function Pieces(ps: seq<seq<bv8>>, key: Key, idx: nat): seq<bv8>
    requires |key| == 4
  {
    if ps == [] then [] else Masked(ps[0], key, idx) + Pieces(ps[1..], key, (idx + |ps[0]|) % 4)
  }

  /** Any pieces, each masked by its own call. */
  lemma {:induction false} AnyPieces(ps: seq<seq<bv8>>, key: Key, idx: nat)
    requires |key| == 4
    ensures Pieces(ps, key, idx) == Masked(Concat(ps), key, idx)
    decreases |ps|
  {
    hide Masked;
    if ps != [] {
      AnyPieces(ps[1..], key, (idx + |ps[0]|) % 4);
      PieceByPiece(ps[0], Concat(ps[1..]), key, idx);
    } else {
      assert |Masked([], key, idx)| == 0;
    }
  }

  /** Masking twice with the same key restores the payload. */
  lemma MaskTwice(s: seq<bv8>, key: Key, start: nat)
    requires |key| == 4
    ensures Masked(Masked(s, key, start), key, start) == s
  {
    hide Xor, KeyOctet;
    forall i | 0 <= i < |s|
      ensures Masked(Masked(s, key, start), key, start)[i] == s[i]
    {
      XorTwice(s[i], KeyOctet(key, start + i));
    }
  }

  lemma XorTwice(a: bv8, k: bv8)
    ensures Xor(Xor(a, k), k) == a
  {
  }
}
