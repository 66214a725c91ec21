/** Small definitions the modules share. */
module Common {

  datatype Option<+T> = None | Some(value: T)

  /** An octet as a number. */
  type byte = x: int | 0 <= x < 256

  function Concat<T>(parts: seq<seq<T>>): seq<T> {
    if parts == [] then [] else parts[0] + Concat(parts[1..])
  }

  ghost predicate NoDup<T(!new)>(s: seq<T>) {
    forall i, j | 0 <= i < j < |s| :: s[i] != s[j]
  }

  /** A number above all of s: an address that is not in use. */
  ghost function Above(s: set<nat>): (b: nat)
    ensures forall x | x in s :: x < b
  {
    if s == {} then 0
    else
      var x :| x in s;
      var rest := Above(s - {x});
      assert forall y | y in s :: y == x || y in s - {x};
      if x < rest then rest else x + 1
  }

  /** f(0) + ... + f(n - 1). */
  ghost function Total(f: nat -> nat, n: nat): nat {
    if n == 0 then 0 else Total(f, n - 1) + f(n - 1)
  }

  /** Sums of functions that agree except at t. */
  lemma {:induction false} TotalChange(f: nat -> nat, g: nat -> nat, n: nat, t: nat)
    requires forall u | u != t :: f(u) == g(u)
    ensures t < n ==> Total(g, n) + f(t) == Total(f, n) + g(t)
    ensures t >= n ==> Total(g, n) == Total(f, n)
  {
    if n > 0 { TotalChange(f, g, n - 1, t); }
  }
}
