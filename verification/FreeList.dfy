/** The element allocator `fix_size_allocator`: a doubly linked list of used elements, a
    singly linked list of free ones, and elements taken from the heap when those run out. */
module FreeList {
  import opened Common
  import opened Links

  class Allocator {
    const expandable: bool
    var next: Field
    var prev: Field
    /** The flags elem_from_heap and elem_used. */
    var fromHeap: set<Ptr>
    var inUse: set<Ptr>
    var usedTop: Option<Ptr>
    var freeTop: Option<Ptr>
    var max: int
    var use: int

    ghost var used: seq<Ptr>
    ghost var free: seq<Ptr>

    ghost predicate Valid()
      reads this
    {
      && Lists(next, prev, usedTop, freeTop, used, free, inUse)
      && use == |used| && max == |used| + |free|
    }

    /** The half-use rule of free_elm: an element from the heap goes back to it when at most
        half of the elements are in use, the freed one still counted. */
    predicate GivesBack(e: Ptr)
      reads this
    {
      e in fromHeap && max / 2 >= use
    }

    /** Element e was given back to the heap, or else became the first of the free list. */
    ghost predicate Freed(e: Ptr, back: bool, elements: set<Ptr>, heap: set<Ptr>, before: seq<Ptr>, m: int)
      reads this
    {
      if back then next.Keys == elements - {e} && fromHeap == heap - {e} && free == before && max == m - 1
      else next.Keys == elements && fromHeap == heap && free == [e] + before && max == m
    }

    /** init_header: elements 0 to mx - 1 are on the free list in order. */
    constructor (mx: nat, opt_expandable: bool)
      requires mx >= 1
      ensures Valid() && used == [] && |free| == mx && expandable == opt_expandable
    {
      expandable := opt_expandable;
      fromHeap, inUse := {}, {};
      usedTop, max, use := None, mx, 0;
      var n: Field := map[0 := None];
      var p: Field := map[0 := None];
      ghost var fs := [0];
      var i := 1;
      while i < mx
        invariant 1 <= i <= mx && |fs| == i && forall k | 0 <= k < i :: fs[k] == k
        invariant Chained(n, Some(0), fs) && NoDup(fs) && n.Keys == p.Keys && forall x :: x in n <==> x in fs
      {
        ghost var n0, fs0 := n, fs;
        assert fs[i - 1] == i - 1 && i - 1 in n;
        n := n[i - 1 := Some(i)][i := None];
        p := p[i := None];
        fs := fs + [i];
        forall k
          ensures NextAt(n, fs, k)
        {
          assert NextAt(n0, fs0, k);
        }
        i := i + 1;
      }
      next, prev, freeTop := n, p, Some(0);
      used, free := [], fs;
    }

    /** alloc_nolock: the element is unused before and first of the used list after. */
    method Alloc() returns (r: Option<Ptr>)
      requires Valid()
      modifies this
      ensures Valid()
      ensures r.None? <==> old(free) == [] && !expandable
      ensures r.None? ==> used == old(used) && free == old(free) && max == old(max) && use == old(use)
      ensures r.Some? ==> r.value !in old(used) && used == [r.value] + old(used) && use == old(use) + 1
      ensures r.Some? ==>
        if old(free) == [] then r.value !in old(next) && free == [] && max == old(max) + 1
        else r.value == old(free)[0] && free == old(free)[1..] && max == old(max)
      ensures fromHeap == if r.Some? && old(free) == [] then old(fromHeap) + {r.value} else old(fromHeap)
    {
      hide Lists, PushNext, PushPrev, Above;
      ListsTops(next, prev, usedTop, freeTop, used, free, inUse);
      var e: Ptr;
      if freeTop.None? {
        if !expandable { return None; }
        ghost var b := Above(next.Keys);
        assert b !in next;
        e :| e !in next;
        TakeHeap(next, prev, usedTop, freeTop, used, free, inUse, e);
        fromHeap := fromHeap + {e};
        max := max + 1;
      } else {
        e := freeTop.value;
        TakeFree(next, prev, usedTop, freeTop, used, free, inUse);
        freeTop := next[e];
        free := free[1..];
      }
      prev := PushPrev(prev, usedTop, e);
      next := PushNext(next, usedTop, e);
      usedTop := Some(e);
      used := [e] + used;
      inUse := inUse + {e};
      use := use + 1;
      r := Some(e);
    }

    /** free: refused for an element that is not in use; otherwise it leaves the used list,
        and goes back to the heap or to the front of the free list. */
    method Free(e: Ptr) returns (ok: bool)
      requires Valid() && e in next
      modifies this
      ensures Valid()
      ensures ok <==> e in old(used)
      ensures !ok ==> used == old(used) && free == old(free) && max == old(max)
      ensures ok ==> use == old(use) - 1
      ensures ok ==> exists i :: 0 <= i < |old(used)| && old(used)[i] == e && used == Without(old(used), i)
      ensures ok ==> Freed(e, old(GivesBack(e)), old(next.Keys), old(fromHeap), old(free), old(max))
    {
      hide Lists, Without;
      FlagMeansUsed(next, prev, usedTop, freeTop, used, free, inUse, e);
      if e !in inUse { return false; }
      ghost var i :| 0 <= i < |used| && used[i] == e;
      FreeElm(e, i);
      ok := true;
    }

    /** free_elm, and the counting of free. */
    method FreeElm(e: Ptr, ghost i: nat)
      requires Valid() && i < |used| && used[i] == e
      modifies this
      ensures Valid() && used == Without(old(used), i) && use == old(use) - 1
      ensures Freed(e, old(GivesBack(e)), old(next.Keys), old(fromHeap), old(free), old(max))
    {
      hide Lists, Without, UnlinkNext, UnlinkPrev;
      Detach(next, prev, usedTop, freeTop, used, free, inUse, i);
      var top := if usedTop == Some(e) then next[e] else usedTop;
      var n, p := UnlinkNext(next, prev, e), UnlinkPrev(next, prev, e);
      usedTop, used, inUse := top, Without(used, i), inUse - {e};
      if GivesBack(e) {
        next, prev := n - {e}, p - {e};
        fromHeap := fromHeap - {e};
        max := max - 1;
      } else {
        prev := p[e := None];
        next := n[e := freeTop];
        freeTop := Some(e);
        free := [e] + free;
      }
      use := use - 1;
    }

    /** first and next walk the used list. */
    method First() returns (r: Option<Ptr>)
      requires Valid()
      ensures r == Elem(used, 0)
    {
      ListsTops(next, prev, usedTop, freeTop, used, free, inUse);
      r := usedTop;
    }

    method Next(e: Ptr) returns (r: Option<Ptr>)
      requires Valid() && e in used
      ensures exists i :: 0 <= i < |used| && used[i] == e && r == Elem(used, i + 1)
    {
      r := next[e];
      ghost var i :| 0 <= i < |used| && used[i] == e;
      assert NextAt(next, used, i);
    }
  }

  lemma PushKeepsFree(next: Field, freeTop: Option<Ptr>, free: seq<Ptr>, top: Option<Ptr>, e: Ptr)
    requires Chained(next, freeTop, free) && e !in free
    ensures Chained(PushNext(next, top, e), freeTop, free)
  {
    ChainFrame(next, PushNext(next, top, e), freeTop, free);
  }

  /** The used and the free list are disjoint, together they are all elements, and the
      in-use flag tells which list an element is on. */
  ghost predicate Lists(next: Field, prev: Field, usedTop: Option<Ptr>, freeTop: Option<Ptr>,
                        used: seq<Ptr>, free: seq<Ptr>, inUse: set<Ptr>) {
    && Linked(next, prev, usedTop, used) && Chained(next, freeTop, free)
    && next.Keys == prev.Keys && Partition(next.Keys, used, free, inUse)
  }

  ghost predicate Partition(elements: set<Ptr>, used: seq<Ptr>, free: seq<Ptr>, inUse: set<Ptr>) {
    && NoDup(free)
    && (forall x | x in free :: x !in used)
    && (forall x :: x in elements <==> x in used || x in free)
    && (forall x | x in elements :: x in inUse <==> x in used)
  }

  lemma PartitionTake(elements: set<Ptr>, used: seq<Ptr>, free: seq<Ptr>, inUse: set<Ptr>)
    requires Partition(elements, used, free, inUse) && free != []
    ensures free[0] in elements && free[0] !in used && free[0] !in free[1..]
    ensures Partition(elements, [free[0]] + used, free[1..], inUse + {free[0]})
  {
    var e := free[0];
    assert free == [e] + free[1..];
    forall x
      ensures x in free <==> x == e || x in free[1..]
    {
    }
    assert e !in free[1..];
  }

  lemma ListsTops(next: Field, prev: Field, usedTop: Option<Ptr>, freeTop: Option<Ptr>,
                  used: seq<Ptr>, free: seq<Ptr>, inUse: set<Ptr>)
    requires Lists(next, prev, usedTop, freeTop, used, free, inUse)
    ensures usedTop == Elem(used, 0) && freeTop == Elem(free, 0) && next.Keys == prev.Keys
    ensures forall x | x in used || x in free :: x in next
    ensures forall x | x in free :: x !in used
  {
  }

  lemma FlagMeansUsed(next: Field, prev: Field, usedTop: Option<Ptr>, freeTop: Option<Ptr>,
                      used: seq<Ptr>, free: seq<Ptr>, inUse: set<Ptr>, e: Ptr)
    requires Lists(next, prev, usedTop, freeTop, used, free, inUse) && e in next
    ensures e in inUse <==> e in used
    ensures e in prev
  {
  }

  lemma TakeFree(next: Field, prev: Field, usedTop: Option<Ptr>, freeTop: Option<Ptr>,
                 used: seq<Ptr>, free: seq<Ptr>, inUse: set<Ptr>)
    requires Lists(next, prev, usedTop, freeTop, used, free, inUse) && free != []
    ensures free[0] in next
    ensures
      var e := free[0];
      Lists(PushNext(next, usedTop, e), PushPrev(prev, usedTop, e), Some(e), next[e], [e] + used, free[1..], inUse + {e})
  {
    hide Linked, Chained, Partition, PushNext, PushPrev;
    ListsTops(next, prev, usedTop, freeTop, used, free, inUse);
    PartitionTake(next.Keys, used, free, inUse);
    var e := free[0];
    PopFront(next, free);
    PushFront(next, prev, usedTop, used, e);
    PushKeepsFree(next, next[e], free[1..], usedTop, e);
    PushMembers(next, prev, usedTop, used, e);
    assert next.Keys + {e} == next.Keys && prev.Keys + {e} == prev.Keys;
  }

  lemma PushMembers(next: Field, prev: Field, top: Option<Ptr>, s: seq<Ptr>, e: Ptr)
    requires Linked(next, prev, top, s)
    ensures PushNext(next, top, e).Keys == next.Keys + {e} && PushPrev(prev, top, e).Keys == prev.Keys + {e}
  {
    assert PrevAt(prev, s, 0);
  }

  lemma TakeHeap(next: Field, prev: Field, usedTop: Option<Ptr>, freeTop: Option<Ptr>,
                 used: seq<Ptr>, free: seq<Ptr>, inUse: set<Ptr>, e: Ptr)
    requires Lists(next, prev, usedTop, freeTop, used, free, inUse) && free == [] && e !in next
    ensures Lists(PushNext(next, usedTop, e), PushPrev(prev, usedTop, e), Some(e), freeTop, [e] + used, free, inUse + {e})
  {
    hide Linked, Chained;
    PushFront(next, prev, usedTop, used, e);
    PushKeepsFree(next, freeTop, free, usedTop, e);
    PushMembers(next, prev, usedTop, used, e);
  }

  /** What is left when used[i] is taken out, for both ways of freeing it. */
  lemma Detach(next: Field, prev: Field, usedTop: Option<Ptr>, freeTop: Option<Ptr>,
               used: seq<Ptr>, free: seq<Ptr>, inUse: set<Ptr>, i: nat)
    requires Lists(next, prev, usedTop, freeTop, used, free, inUse) && i < |used|
    ensures NoDup(used) && used[i] in next && used[i] in prev && |Without(used, i)| == |used| - 1
    ensures
      var e := used[i];
      var n, p := UnlinkNext(next, prev, e), UnlinkPrev(next, prev, e);
      var top := if usedTop == Some(e) then next[e] else usedTop;
      && e in n && e in p && n.Keys == next.Keys
      && Lists(n - {e}, p - {e}, top, freeTop, Without(used, i), free, inUse - {e})
      && Lists(n[e := freeTop], p[e := None], top, Some(e), Without(used, i), [e] + free, inUse - {e})
  {
    hide Linked, Chained, UnlinkNext, UnlinkPrev, NoDup, Without, Partition;
    var e := used[i];
    LinkedNoDup(next, prev, usedTop, used);
    PartitionDrop(next.Keys, used, free, inUse, i);
    Unlink(next, prev, usedTop, used, i);
    UnlinkMembers(next, prev, usedTop, used, i);
    UnlinkKeepsFree(next, prev, usedTop, used, i, freeTop, free);
    var n, p := UnlinkNext(next, prev, e), UnlinkPrev(next, prev, e);
    var top := if usedTop == Some(e) then next[e] else usedTop;
    DropKeeps(n, p, top, Without(used, i), freeTop, free, e);
    ReturnKeeps(n, p, top, Without(used, i), freeTop, free, e);
    assert (n - {e}).Keys == next.Keys - {e} == (p - {e}).Keys;
    assert n[e := freeTop].Keys == next.Keys == p[e := None].Keys;
  }

  lemma LinkedNoDup(next: Field, prev: Field, top: Option<Ptr>, s: seq<Ptr>)
    requires Linked(next, prev, top, s)
    ensures NoDup(s)
  {
  }

  lemma PartitionDrop(elements: set<Ptr>, used: seq<Ptr>, free: seq<Ptr>, inUse: set<Ptr>, i: nat)
    requires Partition(elements, used, free, inUse) && NoDup(used) && i < |used|
    ensures NoDup(free) && used[i] !in free && used[i] !in Without(used, i) && |Without(used, i)| == |used| - 1
    ensures forall x | x in free :: x !in used
    ensures Partition(elements - {used[i]}, Without(used, i), free, inUse - {used[i]})
    ensures Partition(elements, Without(used, i), [used[i]] + free, inUse - {used[i]})
  {
    WithoutMembers(used, i);
    hide Without;
  }

  lemma UnlinkMembers(next: Field, prev: Field, top: Option<Ptr>, s: seq<Ptr>, i: nat)
    requires Linked(next, prev, top, s) && i < |s|
    ensures s[i] in next && s[i] in prev
    ensures UnlinkNext(next, prev, s[i]).Keys == next.Keys && UnlinkPrev(next, prev, s[i]).Keys == prev.Keys
    ensures (top == Some(s[i])) == prev[s[i]].None?
  {
    assert NextAt(next, s, i) && PrevAt(prev, s, i) && NextAt(next, s, i - 1) && PrevAt(prev, s, i + 1);
  }

  lemma UnlinkKeepsFree(next: Field, prev: Field, top: Option<Ptr>, used: seq<Ptr>, i: nat, freeTop: Option<Ptr>, free: seq<Ptr>)
    requires Linked(next, prev, top, used) && i < |used| && Chained(next, freeTop, free)
    requires forall x | x in free :: x !in used
    ensures used[i] in next && used[i] in prev && Chained(UnlinkNext(next, prev, used[i]), freeTop, free)
  {
    assert NextAt(next, used, i) && PrevAt(prev, used, i);
    ChainFrame(next, UnlinkNext(next, prev, used[i]), freeTop, free);
  }

  lemma DropKeeps(next: Field, prev: Field, top: Option<Ptr>, used: seq<Ptr>, freeTop: Option<Ptr>, free: seq<Ptr>, e: Ptr)
    requires Linked(next, prev, top, used) && Chained(next, freeTop, free) && e !in used && e !in free
    ensures Linked(next - {e}, prev - {e}, top, used) && Chained(next - {e}, freeTop, free)
  {
    Frame(next, prev, next - {e}, prev - {e}, top, used);
    ChainFrame(next, next - {e}, freeTop, free);
  }

  lemma ReturnKeeps(next: Field, prev: Field, top: Option<Ptr>, used: seq<Ptr>, freeTop: Option<Ptr>, free: seq<Ptr>, e: Ptr)
    requires Linked(next, prev, top, used) && Chained(next, freeTop, free) && NoDup(free) && e !in used && e !in free
    ensures Linked(next[e := freeTop], prev[e := None], top, used)
    ensures Chained(next[e := freeTop], Some(e), [e] + free) && NoDup([e] + free)
  {
    var n := next[e := freeTop];
    Frame(next, prev, n, prev[e := None], top, used);
    forall i
      ensures NextAt(n, [e] + free, i)
    {
      assert NextAt(next, free, i - 1);
    }
  }
}
