/** The watcher list of an emitter: an intrusive singly linked list with its last element. */
module Watchers {
  import opened Common
  import opened Links

  class WatcherList {
    var next: Field
    var top: Option<Ptr>
    var last: Option<Ptr>

    /** The watchers, in list order. */
    ghost var list: seq<Ptr>

    ghost predicate Valid()
      reads this
    {
      Chained(next, top, list) && NoDup(list) && last == Elem(list, |list| - 1)
    }

    constructor ()
      ensures Valid() && list == []
    {
      next, top, last, list := map[], None, None, [];
    }

    /** add_watch_entry. */
    method Add(w: Ptr)
      requires Valid() && w !in list
      modifies this
      ensures Valid() && list == [w] + old(list)
    {
      ChainPush(next, top, list, w);
      next := next[w := top];
      top := Some(w);
      if last.None? { last := Some(w); }
      list := [w] + list;
    }

    /** remove_watch_entry: no watcher given means all of them. */
    method Remove(w: Option<Ptr>) returns (found: bool, freed: seq<Ptr>)
      requires Valid()
      modifies this
      ensures Valid()
      ensures w.None? ==> found && list == [] && freed == old(list)
      ensures w.Some? ==> (found <==> w.value in old(list)) && freed == if found then [w.value] else []
      ensures w.Some? && !found ==> list == old(list)
      ensures w.Some? && found ==> exists i :: 0 <= i < |old(list)| && old(list)[i] == w.value && list == Without(old(list), i)
    {
      freed := [];
      if w.None? {
        freed := RemoveAll();
        return true, freed;
      }
      found := RemoveOne(w.value);
      if found { freed := [w.value]; }
    }

    /** Every watcher is freed, in list order. */
    method RemoveAll() returns (freed: seq<Ptr>)
      requires Valid()
      modifies this
      ensures Valid() && list == [] && freed == old(list)
    {
      var w := top;
      freed := [];
      ghost var i := 0;
      while w.Some?
        invariant 0 <= i <= |list| && w == Elem(list, i) && freed == list[..i]
        invariant Valid() && list == old(list)
        decreases |list| - i
      {
        var pw := w.value;
        assert NextAt(next, list, i);
        w := next[pw];
        freed := freed + [pw];
        i := i + 1;
      }
      assert list[..i] == list;
      top, last, list := None, None, [];
    }

    /** One watcher leaves; it may be gone already. */
    method RemoveOne(w: Ptr) returns (found: bool)
      requires Valid()
      modifies this
      ensures Valid()
      ensures found <==> w in old(list)
      ensures !found ==> list == old(list)
      ensures found ==> exists i :: 0 <= i < |old(list)| && old(list)[i] == w && list == Without(old(list), i)
    {
      if top == Some(w) {
        DropFront();
        assert Without(old(list), 0) == old(list)[1..];
        return true;
      }
      if top.None? { return false; }
      assert NextAt(next, list, 0);
      var prev := top.value;
      var curr := next[prev];
      ghost var i := 1;
      while curr.Some?
        invariant Valid() && list == old(list) && 1 <= i <= |list| && prev == list[i - 1] && curr == Elem(list, i)
        invariant forall j | 0 <= j < i :: list[j] != w
        decreases |list| - i
      {
        assert NextAt(next, list, i) && NextAt(next, list, i - 1);
        if curr.value == w {
          ChainCut(next, top, list, i);
          WithoutMembers(list, i);
          next := next[prev := next[w]];
          if Some(w) == last { last := Some(prev); }
          list := Without(list, i);
          return true;
        }
        prev := curr.value;
        curr := next[prev];
        i := i + 1;
      }
      found := false;
    }

    /** The first watcher is taken off the list. */
    method DropFront()
      requires Valid() && list != []
      modifies this
      ensures Valid() && list == old(list)[1..]
    {
      assert NextAt(next, list, 0) && NextAt(next, list, |list| - 1);
      PopFront(next, list);
      if top == last {
        assert |list| == 1;
        last := next[top.value];
        top := last;
      } else {
        top := next[top.value];
      }
      list := list[1..];
    }

    /** emit: every watcher is called once, in list order; those that return STOP leave, and
        the others are on the list in reverse order afterwards. */
    method Emit(keep: Ptr -> bool) returns (called: seq<Ptr>)
      requires Valid()
      modifies this
      ensures Valid() && called == old(list) && list == KeptReversed(old(list), keep)
    {
      hide Chained, KeptReversed;
      ghost var all := list;
      NothingKept(keep, next);
      ChainTop(next, top, list);
      var w := top;
      top := None;
      called := [];
      var remain: Option<Ptr> := None;
      var newLast: Option<Ptr> := None;
      ghost var i := 0;
      assert all[0..] == all && all[..0] == [];
      while w.Some?
        invariant 0 <= i <= |all| && called == all[..i] && NoDup(all)
        invariant w == Elem(all, i) && Chained(next, w, all[i..]) && Chained(next, remain, KeptReversed(all[..i], keep))
        invariant newLast == Elem(KeptReversed(all[..i], keep), |KeptReversed(all[..i], keep)| - 1)
        decreases |all| - i
      {
        var pw := w.value;
        assert pw == all[i];
        EmitStep(next, all, i, remain, keep);
        called := called + [pw];
        w := next[pw];
        if keep(pw) {
          next := next[pw := remain];
          if remain.None? { newLast := Some(pw); }
          remain := Some(pw);
        }
        i := i + 1;
      }
      assert all[..i] == all;
      KeptDistinct(all, keep);
      top, last, list := remain, newLast, KeptReversed(all, keep);
    }

    /** emit_one: the first watcher is called; it leaves the list on STOP and goes to its end
        on KEEP. */
    method EmitOne(keep: Ptr -> bool) returns (called: Option<Ptr>)
      requires Valid()
      modifies this
      ensures Valid() && called == Elem(old(list), 0)
      ensures old(list) == [] ==> list == []
      ensures old(list) != [] ==> list == old(list)[1..] + if keep(old(list)[0]) then [old(list)[0]] else []
    {
      called := top;
      if top.None? { return; }
      var w := top.value;
      DropFront();
      if keep(w) {
        ChainAppend(next, top, list, w);
        next := next[w := None];
        if last.Some? { next := next[last.value := Some(w)]; }
        else if top == last { top := Some(w); }
        last := Some(w);
        list := list + [w];
      }
    }
  }

  /** The watchers that stay, last one first. */
  ghost function KeptReversed(s: seq<Ptr>, keep: Ptr -> bool): seq<Ptr> {
    if s == [] then []
    else (if keep(s[|s| - 1]) then [s[|s| - 1]] else []) + KeptReversed(s[..|s| - 1], keep)
  }

  lemma {:induction false} KeptAmong(s: seq<Ptr>, keep: Ptr -> bool)
    ensures forall x | x in KeptReversed(s, keep) :: x in s
  {
    if s != [] { KeptAmong(s[..|s| - 1], keep); }
  }

  lemma {:induction false} KeptDistinct(s: seq<Ptr>, keep: Ptr -> bool)
    requires NoDup(s)
    ensures NoDup(KeptReversed(s, keep))
  {
    if s != [] {
      var n := |s| - 1;
      KeptDistinct(s[..n], keep);
      KeptAmong(s[..n], keep);
      assert s[n] !in s[..n];
    }
  }

  lemma NothingKept(keep: Ptr -> bool, next: Field)
    ensures KeptReversed([], keep) == [] && Chained(next, None, [])
  {
  }

  lemma ChainTop(next: Field, top: Option<Ptr>, s: seq<Ptr>)
    requires Chained(next, top, s)
    ensures top == Elem(s, 0)
  {
  }

  /** One watcher is called: the rest of the old list and the list of those that stay. */
  lemma EmitStep(next: Field, all: seq<Ptr>, i: nat, remain: Option<Ptr>, keep: Ptr -> bool)
    requires NoDup(all) && i < |all| && Chained(next, Some(all[i]), all[i..])
    requires Chained(next, remain, KeptReversed(all[..i], keep))
    ensures all[i] in next && next[all[i]] == Elem(all, i + 1) && Chained(next, next[all[i]], all[i + 1..])
    ensures remain.None? <==> KeptReversed(all[..i], keep) == []
    ensures keep(all[i]) ==> KeptReversed(all[..i + 1], keep) == [all[i]] + KeptReversed(all[..i], keep)
    ensures !keep(all[i]) ==> KeptReversed(all[..i + 1], keep) == KeptReversed(all[..i], keep)
    ensures Chained(next[all[i] := remain], next[all[i]], all[i + 1..])
    ensures Chained(next[all[i] := remain], Some(all[i]), [all[i]] + KeptReversed(all[..i], keep))
  {
    var rest, kept := all[i..], KeptReversed(all[..i], keep);
    assert rest[0] == all[i] && rest[1..] == all[i + 1..];
    assert NextAt(next, rest, 0);
    PopFront(next, rest);
    KeptAmong(all[..i], keep);
    assert all[..i + 1][..i] == all[..i];
    ChainPush(next, remain, kept, all[i]);
    ChainFrame(next, next[all[i] := remain], next[all[i]], rest[1..]);
  }

  lemma ChainPush(next: Field, top: Option<Ptr>, s: seq<Ptr>, e: Ptr)
    requires Chained(next, top, s) && e !in s
    ensures Chained(next[e := top], Some(e), [e] + s)
  {
    var n, t := next[e := top], [e] + s;
    forall i
      ensures NextAt(n, t, i)
    {
      assert NextAt(next, s, i - 1);
    }
  }

  lemma ChainAppend(next: Field, top: Option<Ptr>, s: seq<Ptr>, e: Ptr)
    requires Chained(next, top, s) && NoDup(s) && e !in s
    ensures
      var n := next[e := None];
      Chained(if s == [] then n else n[s[|s| - 1] := Some(e)], if s == [] then Some(e) else top, s + [e])
  {
    var n := if s == [] then next[e := None] else next[e := None][s[|s| - 1] := Some(e)];
    forall i
      ensures NextAt(n, s + [e], i)
    {
      assert NextAt(next, s, i);
    }
  }

  /** The element at position i, not the first, is skipped by the one before it. */
  lemma ChainCut(next: Field, top: Option<Ptr>, s: seq<Ptr>, i: nat)
    requires Chained(next, top, s) && NoDup(s) && 1 <= i < |s|
    ensures s[i] in next && Chained(next[s[i - 1] := next[s[i]]], top, Without(s, i))
  {
    assert NextAt(next, s, i);
    var n := next[s[i - 1] := next[s[i]]];
    forall k
      ensures NextAt(n, Without(s, i), k)
    {
      assert NextAt(next, s, if k < i then k else k + 1);
    }
  }
}
