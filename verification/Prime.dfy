/** The prime sieve that sizes hash tables. */
module Prime {
  import opened Arithmetic

  /** d divides k and is neither 1 nor k. */
  predicate Factor(k: int, d: int) {
    2 <= d < k && k % d == 0
  }

  ghost predicate IsPrime(n: int) {
    n >= 2 && forall d :: !Factor(n, d)
  }

  ghost predicate HasFactorBelow(k: int, i: int) {
    exists d :: d < i && Factor(k, d)
  }

  /** p[k - 1] says of every k up to given whether it has a factor below i. */
  ghost predicate Sieved(p: seq<bool>, given: nat, i: nat) {
    |p| == given && forall k {:trigger p[k - 1]} | 1 <= k <= given :: p[k - 1] <==> HasFactorBelow(k, i)
  }

  lemma Divides(d: nat, i: nat, k: nat)
    requires d >= 1 && i >= 1 && i % d == 0 && k % i == 0
    ensures k % d == 0
  {
    var a, b := i / d, k / i;
    assert i == a * d && k == b * i;
    assert k == (b * a) * d by { assert b * (a * d) == (b * a) * d; }
    Remainder(b * a, d, 0);
  }

  /** Between a multiple of i and the next there is no other. */
  lemma NoMultipleBetween(i: nat, j: nat, k: nat)
    requires i >= 1 && j % i == 0 && j < k < j + i
    ensures k % i != 0
  {
    assert j == (j / i) * i;
    Remainder(j / i, i, k - j);
  }

  /** A number that was marked already needs no marking of its multiples. */
  lemma SkipMarked(i: nat, k: int)
    requires HasFactorBelow(i, i) && i >= 2
    ensures HasFactorBelow(k, i + 1) <==> HasFactorBelow(k, i)
  {
    if Factor(k, i) {
      var d :| d < i && Factor(i, d);
      Divides(d, i, k);
      assert Factor(k, d);
    }
    FactorHere(k, i);
  }

  lemma FactorHere(k: int, i: nat)
    requires i >= 2
    ensures HasFactorBelow(k, i + 1) <==> HasFactorBelow(k, i) || Factor(k, i)
  {
    if HasFactorBelow(k, i + 1) {
      var d :| d < i + 1 && Factor(k, d);
      assert d < i ==> HasFactorBelow(k, i);
    }
  }

  /** A factor and its cofactor are both at least i when there is none below. */
  lemma FactorsAbove(k: nat, i: nat, d: nat)
    requires i >= 2 && !HasFactorBelow(k, i) && Factor(k, d)
    ensures k >= i * i
  {
    var e := k / d;
    assert k == e * d;
    Cofactor(k, d, e);
    assert d >= i && e >= i;
    Bigger(e, d, i);
  }

  lemma Cofactor(k: nat, d: nat, e: nat)
    requires k == e * d && 2 <= d < k
    ensures Factor(k, e)
  {
    assert e <= 1 ==> e * d <= d;
    assert e * d >= e * 2;
    assert d * e == e * d;
    Remainder(d, e, 0);
  }

  lemma Bigger(e: nat, d: nat, i: nat)
    requires e >= i && d >= i
    ensures e * d >= i * i
  {
    assert e * d >= i * d && i * d >= i * i;
  }

  /** Up to the square of i, having no factor below i means being prime. */
  lemma SmallFactor(k: nat, i: nat)
    requires i >= 2 && k < i * i && !HasFactorBelow(k, i) && k >= 2
    ensures IsPrime(k)
  {
    forall d
      ensures !Factor(k, d)
    {
      if Factor(k, d) { FactorsAbove(k, i, d); }
    }
  }

  /** The multiples of i above i are marked. */
  method Mark(p: array<bool>, given: nat, i: nat)
    requires 2 <= i <= given && Sieved(p[..], given, i)
    modifies p
    ensures Sieved(p[..], given, i + 1)
  {
    var j := i * 2;
    Remainder(2, i, 0);
    assert p.Length == given;
    while j <= given
      invariant i < j && j % i == 0 && p.Length == given
      invariant forall k {:trigger p[k - 1]} | 1 <= k <= given ::
        p[k - 1] <==> HasFactorBelow(k, i) || (i < k < j && k % i == 0)
      decreases given + i - j
    {
      p[j - 1] := true;
      forall k | j < k < j + i
        ensures k % i != 0
      {
        NoMultipleBetween(i, j, k);
      }
      NextMultiple(j, i);
      j := j + i;
    }
    forall k {:trigger p[..][k - 1]} | 1 <= k <= given
      ensures p[..][k - 1] <==> HasFactorBelow(k, i + 1)
    {
      assert p[..][k - 1] == p[k - 1];
      FactorHere(k, i);
    }
  }

  lemma NextMultiple(j: nat, i: nat)
    requires i >= 1 && j % i == 0
    ensures (j + i) % i == 0
  {
    assert j == (j / i) * i && j + i == (j / i + 1) * i;
    Remainder(j / i + 1, i, 0);
  }

  lemma NothingMarked(p: seq<bool>, given: nat)
    requires |p| == given && forall k | 0 <= k < given :: !p[k]
    ensures Sieved(p, given, 2)
  {
  }

  /** i > given / i says that i squared is above given. */
  lemma AboveRoot(i: nat, given: nat)
    requires i >= 1
    ensures i > given / i <==> given < i * i
  {
    var q := given / i;
    assert q * i <= given < q * i + i;
    if i > q { Scaled(q + 1, i, i); assert (q + 1) * i == q * i + i; } else { Scaled(i, q, i); }
  }

  lemma Scaled(a: nat, b: nat, c: nat)
    requires a <= b
    ensures a * c <= b * c
  {
  }

  /** prime: up to 3 the argument itself; above, the largest prime that is not larger. */
  method Prime(given: int) returns (r: int)
    ensures given <= 3 ==> r == given
    ensures given > 3 ==> IsPrime(r) && r <= given && forall q | r < q <= given :: !IsPrime(q)
  {
    if given <= 3 { return given; }
    var p := new bool[given](_ => false);
    NothingMarked(p[..], given);
    var i := 2;
    while i <= given
      invariant 2 <= i <= given + 1 && Sieved(p[..], given, i)
    {
      AboveRoot(i, given);
      if i > given / i { break; }
      if p[i - 1] {
        assert p[..][i - 1];
        forall k
          ensures HasFactorBelow(k, i + 1) <==> HasFactorBelow(k, i)
        {
          SkipMarked(i, k);
        }
      } else {
        Mark(p, given, i);
      }
      i := i + 1;
    }
    assert given < i * i by { if i == given + 1 { Squared(given); } }
    r := LargestUnmarked(p, given, i);
  }

  lemma Squared(given: nat)
    ensures given < (given + 1) * (given + 1)
  {
    assert (given + 1) * (given + 1) == given * given + 2 * given + 1;
  }

  method LargestUnmarked(p: array<bool>, given: nat, i: nat) returns (r: int)
    requires given > 3 && i >= 2 && given < i * i && Sieved(p[..], given, i)
    ensures IsPrime(r) && r <= given && forall q | r < q <= given :: !IsPrime(q)
  {
    var k := given - 1;
    while k > 0
      invariant 0 <= k < given
      invariant forall q | k + 1 < q <= given :: !IsPrime(q)
    {
      SievedAt(p[..], given, i, k + 1);
      if !p[k] {
        SmallFactor(k + 1, i);
        return k + 1;
      }
      MarkedNotPrime(k + 1, i);
      k := k - 1;
    }
    TwoIsPrime();
    assert false;
    r := -1;
  }

  lemma SievedAt(p: seq<bool>, given: nat, i: nat, k: nat)
    requires Sieved(p, given, i) && 1 <= k <= given
    ensures p[k - 1] <==> HasFactorBelow(k, i)
  {
  }

  lemma MarkedNotPrime(k: nat, i: nat)
    requires HasFactorBelow(k, i)
    ensures !IsPrime(k)
  {
  }

  lemma TwoIsPrime()
    ensures IsPrime(2)
  {
  }
}
