/** Intrusive doubly linked lists: `next` and `prev` are fields of elements, given as maps
    from an element's address, and a list is the sequence of addresses they link. */
module Links {
  import opened Common

  type Ptr = nat

  type Field = map<Ptr, Option<Ptr>>

  function Elem(s: seq<Ptr>, i: int): Option<Ptr> {
    if 0 <= i < |s| then Some(s[i]) else None
  }

  predicate NextAt(next: Field, s: seq<Ptr>, i: int) {
    0 <= i < |s| ==> s[i] in next && next[s[i]] == Elem(s, i + 1)
  }

  predicate PrevAt(prev: Field, s: seq<Ptr>, i: int) {
    0 <= i < |s| ==> s[i] in prev && prev[s[i]] == Elem(s, i - 1)
  }

  /** From `top`, the next fields link the elements of s in order and end there. */
  ghost predicate Chained(next: Field, top: Option<Ptr>, s: seq<Ptr>) {
    top == Elem(s, 0) && forall i :: NextAt(next, s, i)
  }

  ghost predicate BackChained(prev: Field, s: seq<Ptr>) {
    forall i :: PrevAt(prev, s, i)
  }

  /** A doubly linked list without cycles: next and prev fields match. */
  ghost predicate Linked(next: Field, prev: Field, top: Option<Ptr>, s: seq<Ptr>) {
    NoDup(s) && Chained(next, top, s) && BackChained(prev, s)
  }

  function PushNext(next: Field, top: Option<Ptr>, e: Ptr): Field {
    next[e := top]
  }

  function PushPrev(prev: Field, top: Option<Ptr>, e: Ptr): Field {
    var p := prev[e := None];
    if top.Some? then p[top.value := Some(e)] else p
  }

  /** e becomes the first element. */
  lemma PushFront(next: Field, prev: Field, top: Option<Ptr>, s: seq<Ptr>, e: Ptr)
    requires Linked(next, prev, top, s) && e !in s
    ensures Linked(PushNext(next, top, e), PushPrev(prev, top, e), Some(e), [e] + s)
  {
    var n, p, t := PushNext(next, top, e), PushPrev(prev, top, e), [e] + s;
    forall i
      ensures NextAt(n, t, i) && PrevAt(p, t, i)
    {
      assert NextAt(next, s, i - 1) && PrevAt(prev, s, i - 1);
    }
  }

  function Without(s: seq<Ptr>, i: nat): seq<Ptr>
    requires i < |s|
  {
    s[..i] + s[i + 1..]
  }

  function UnlinkNext(next: Field, prev: Field, e: Ptr): Field
    requires e in next && e in prev
  {
    if prev[e].Some? then next[prev[e].value := next[e]] else next
  }

  function UnlinkPrev(next: Field, prev: Field, e: Ptr): Field
    requires e in next && e in prev
  {
    if next[e].Some? then prev[next[e].value := prev[e]] else prev
  }

  /** The element at position i is taken out by joining its neighbours. */
  lemma Unlink(next: Field, prev: Field, top: Option<Ptr>, s: seq<Ptr>, i: nat)
    requires Linked(next, prev, top, s) && i < |s|
    ensures s[i] in next && s[i] in prev && (i == 0 <==> prev[s[i]].None?)
    ensures
      Linked(UnlinkNext(next, prev, s[i]), UnlinkPrev(next, prev, s[i]),
             if prev[s[i]].Some? then top else next[s[i]], Without(s, i))
  {
    var e := s[i];
    assert NextAt(next, s, i) && PrevAt(prev, s, i);
    var n, p, t := UnlinkNext(next, prev, e), UnlinkPrev(next, prev, e), Without(s, i);
    forall k
      ensures NextAt(n, t, k) && PrevAt(p, t, k)
    {
      var j := if k < i then k else k + 1;
      assert NextAt(next, s, j) && PrevAt(prev, s, j);
    }
  }

  predicate Same(f: Field, f': Field, x: Ptr) {
    x in f ==> x in f' && f'[x] == f[x]
  }

  /** Elements that are not on the list do not matter to it. */
  lemma Frame(next: Field, prev: Field, next': Field, prev': Field, top: Option<Ptr>, s: seq<Ptr>)
    requires Linked(next, prev, top, s)
    requires forall x | x in s :: Same(next, next', x) && Same(prev, prev', x)
    ensures Linked(next', prev', top, s)
  {
    forall i
      ensures NextAt(next', s, i) && PrevAt(prev', s, i)
    {
      assert NextAt(next, s, i) && PrevAt(prev, s, i);
      assert 0 <= i < |s| ==> Same(next, next', s[i]) && Same(prev, prev', s[i]);
    }
  }

  lemma WithoutMembers(s: seq<Ptr>, i: nat)
    requires i < |s| && NoDup(s)
    ensures NoDup(Without(s, i)) && s[i] !in Without(s, i)
    ensures forall x :: x in Without(s, i) <==> x in s && x != s[i]
  {
    forall x
      ensures x in Without(s, i) <==> x in s && x != s[i]
    {
      if x in s && x != s[i] {
        var j :| 0 <= j < |s| && s[j] == x;
        assert x == Without(s, i)[if j < i then j else j - 1];
      }
    }
  }

  lemma PopFront(next: Field, s: seq<Ptr>)
    requires s != [] && Chained(next, Some(s[0]), s)
    ensures s[0] in next && Chained(next, next[s[0]], s[1..])
  {
    assert NextAt(next, s, 0);
    forall i
      ensures NextAt(next, s[1..], i)
    {
      assert NextAt(next, s, i + 1);
    }
  }

  lemma ChainFrame(next: Field, next': Field, top: Option<Ptr>, s: seq<Ptr>)
    requires Chained(next, top, s) && forall x | x in s :: Same(next, next', x)
    ensures Chained(next', top, s)
  {
    forall i
      ensures NextAt(next', s, i)
    {
      assert NextAt(next, s, i);
      assert 0 <= i < |s| ==> Same(next, next', s[i]);
    }
  }
}
