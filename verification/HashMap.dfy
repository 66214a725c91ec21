/** The chained hash table of `map` over the element allocator, refining a finite map. */
module HashMap {
  import opened Common
  import opened Links
  import opened FreeList
  import opened ElementPool

  /** Each bucket is a doubly linked chain from its table entry. */
  ghost predicate ChainsOk(next: Field, prev: Field, tops: seq<Option<Ptr>>, chains: seq<seq<Ptr>>) {
    |tops| == |chains| && forall h | 0 <= h < |chains| :: Linked(next, prev, tops[h], chains[h])
  }

  /** The used elements are exactly those on chains, each on the chain of its key. */
  ghost predicate Bucketed<K(!new)>(hash: K -> nat, chains: seq<seq<Ptr>>, keys: map<Ptr, K>, used: seq<Ptr>) {
    && (forall h, p {:trigger p in chains[h]} | 0 <= h < |chains| && p in chains[h] ::
          p in used && p in keys && hash(keys[p]) == h)
    && (forall p | p in used :: p in keys && hash(keys[p]) < |chains| && p in chains[hash(keys[p])])
  }

  ghost predicate UniqueKeys<K(!new)>(keys: map<Ptr, K>, used: seq<Ptr>) {
    forall p, q | p in used && q in used && p in keys && q in keys && keys[p] == keys[q] :: p == q
  }

  ghost predicate Held<K(!new)>(keys: map<Ptr, K>, used: seq<Ptr>, k: K) {
    exists p :: p in used && p in keys && keys[p] == k
  }

  /** The used elements hold the entries of the map, one each. */
  ghost predicate Stores<K(!new), V(!new)>(keys: map<Ptr, K>, vals: map<Ptr, V>, used: seq<Ptr>, contents: map<K, V>) {
    && (forall p | p in used :: p in keys && p in vals && keys[p] in contents && contents[keys[p]] == vals[p])
    && (forall k | k in contents :: Held(keys, used, k))
    && |contents| == |used|
  }

  class Table<K(==, !new), V(!new)> {
    const elements: Allocator
    const hash: K -> nat
    const table: array<Option<Ptr>>
    var next: Field
    var prev: Field
    var keys: map<Ptr, K>
    /** The memory of the elements' values: an element that was given back to the heap has none. */
    var vals: map<Ptr, V>

    ghost var chains: seq<seq<Ptr>>
    /** The finite map this table stands for, and the element each key is in. */
    ghost var contents: map<K, V>
    ghost var at: map<K, Ptr>

    ghost predicate Valid()
      reads this, elements, table
    {
      && elements.Valid()
      && (forall k :: hash(k) < table.Length)
      && ChainsOk(next, prev, table[..], chains)
      && Bucketed(hash, chains, keys, elements.used)
      && UniqueKeys(keys, elements.used)
      && Stores(keys, vals, elements.used, contents)
      && Located(keys, elements.used, contents, at)
    }

    /** What of the table the locked sections change, as a value. */
    ghost function Shared(): Pool<K, V>
      reads this, elements
    {
      Pool(at, vals, elements.free, elements.fromHeap, elements.max, elements.use)
    }

    constructor (size: nat, mx: nat, expandable: bool, h: K -> nat)
      requires size >= 1 && mx >= 1 && forall k :: h(k) < size
      ensures Valid() && contents == map[] && elements.use == 0 && fresh(elements) && fresh(table)
      ensures hash == h && elements.expandable == expandable && at == map[]
    {
      elements := new Allocator(mx, expandable);
      hash := h;
      table := new Option<Ptr>[size](i => None);
      next, prev, keys, vals := map[], map[], map[], map[];
      chains := seq(size, i => []);
      contents, at := map[], map[];
    }

    /** The walk along the chain of k. */
    method Find(k: K) returns (e: Option<Ptr>)
      requires Valid()
      ensures e.Some? ==> e.value in elements.used && e.value in keys && e.value in vals && keys[e.value] == k
      ensures e.Some? <==> k in contents
      ensures e.Some? ==> contents[k] == vals[e.value] && k in at && at[k] == e.value
    {
      var h := hash(k);
      e := table[h];
      ghost var chain := chains[h];
      ghost var i := 0;
      assert Linked(next, prev, table[..][h], chain);
      while e.Some?
        invariant 0 <= i <= |chain| && e == Elem(chain, i)
        invariant forall j | 0 <= j < i :: chain[j] in keys && keys[chain[j]] != k
        decreases |chain| - i
      {
        assert e.value in chains[h];
        if keys[e.value] == k {
          LocatedAt(keys, elements.used, contents, at, e.value);
          return;
        }
        assert NextAt(next, chain, i);
        e := next[e.value];
        i := i + 1;
      }
      NotFound(hash, chains, keys, vals, elements.used, contents, k, chain);
    }

    method Get(k: K) returns (r: Option<V>)
      requires Valid()
      ensures r == if k in contents then Some(contents[k]) else None
    {
      var e := Find(k);
      if e.None? { return None; }
      r := Some(vals[e.value]);
    }

    /** insert with the functor f, which is given the value that is there, if any.  It fails
        only when the key is new, no element is free and the allocator may not grow. */
    method Insert(k: K, f: Option<V> -> V) returns (ok: bool)
      requires Valid()
      modifies this, elements, table
      ensures Valid()
      ensures !ok <==> k !in old(contents) && old(elements.free) == [] && !elements.expandable
      ensures !ok ==>
        contents == old(contents) && Shared() == old(Shared()) && elements.used == old(elements.used) && keys == old(keys)
      ensures ok && k !in old(contents) ==>
        && k in at && CanTake(old(Shared()), at[k]) && Shared() == Take(old(Shared()), k, at[k], f(None))
        && elements.used == [at[k]] + old(elements.used) && at[k] !in old(elements.used) && keys == old(keys)[at[k] := k]
      ensures k in old(contents) ==>
        && ok && elements.used == old(elements.used) && keys == old(keys)
        && k in old(at) && Shared() == old(Shared()).(mem := old(vals)[old(at)[k] := f(Some(old(contents)[k]))])
      ensures ok ==>
        contents == old(contents)[k := f(if k in old(contents) then Some(old(contents)[k]) else None)]
    {
      hide ChainsOk, Bucketed, UniqueKeys, Stores, Located;
      var e := Find(k);
      if e.Some? {
        var v := f(Some(vals[e.value]));
        StoreOver(keys, vals, elements.used, contents, e.value, v);
        StillLocated(keys, elements.used, contents, at, k, v);
        vals := vals[e.value := v];
        contents := contents[k := v];
        return true;
      }
      ghost var before := Shared();
      LocatedKeys(keys, elements.used, contents, at);
      var n := elements.Alloc();
      if n.None? { return false; }
      LinkNew(n.value, k, f(None));
      ok := true;
    }

    /** A fresh element becomes the first of its chain. */
    method LinkNew(e: Ptr, k: K, v: V)
      requires elements.Valid() && elements.used != [] && elements.used[0] == e && e !in elements.used[1..]
      requires forall k :: hash(k) < table.Length
      requires ChainsOk(next, prev, table[..], chains) && Bucketed(hash, chains, keys, elements.used[1..])
      requires UniqueKeys(keys, elements.used[1..]) && Stores(keys, vals, elements.used[1..], contents) && k !in contents
      requires Located(keys, elements.used[1..], contents, at)
      modifies this, table
      ensures Valid() && contents == old(contents)[k := v] && at == old(at)[k := e]
      ensures keys == old(keys)[e := k] && vals == old(vals)[e := v]
    {
      hide ChainsOk, Bucketed, UniqueKeys, Stores, Located, PushNext, PushPrev;
      var h := hash(k);
      ghost var used, tops := elements.used[1..], table[..];
      assert elements.used == [e] + used;
      SameLength(next, prev, tops, chains);
      Disjoint(hash, chains, keys, used, h);
      AddBucketed(hash, chains, keys, vals, used, contents, e, k, v);
      AddLinked(next, prev, tops, chains, h, e);
      AddLocated(keys, used, contents, at, e, k, v);
      ghost var chains' := chains[h := [e] + chains[h]];
      keys, vals := keys[e := k], vals[e := v];
      prev := PushPrev(prev, table[h], e);
      next := PushNext(next, table[h], e);
      table[h] := Some(e);
      assert table[..] == tops[h := Some(e)];
      chains, contents, at := chains', contents[k := v], at[k := e];
    }

    /** remove with the functor f: the entry goes if f agrees.  What is returned is the
        address of what was found, which by then may be a free element or no memory at all. */
    method Remove(k: K, f: V -> bool) returns (r: Option<Ptr>)
      requires Valid()
      modifies this, elements, table
      ensures Valid() && keys == old(keys)
      ensures r.Some? <==> k in old(contents)
      ensures r.Some? ==>
        && k in old(at) && r.value == old(at)[k] && r.value in old(elements.used)
        && r.value in old(vals) && old(vals)[r.value] == old(contents)[k]
      ensures
        if r.Some? && f(old(contents)[k]) then
          && contents == old(contents) - {k} && Shared() == Erase(old(Shared()), k)
          && exists i :: 0 <= i < |old(elements.used)| && old(elements.used)[i] == r.value
                      && elements.used == Without(old(elements.used), i)
        else contents == old(contents) && Shared() == old(Shared()) && elements.used == old(elements.used)
    {
      hide ChainsOk, Bucketed, UniqueKeys, Stores, Located, Without, Detached;
      var found := Find(k);
      if found.None? { return None; }
      var e := found.value;
      r := Some(e);
      if f(vals[e]) { EraseElement(e, k); }
    }

    /** The end of remove: e leaves its chain and is freed. */
    method EraseElement(e: Ptr, k: K)
      requires Valid() && k in contents && k in at && at[k] == e && e in elements.used && e in keys && keys[e] == k
      modifies this, elements, table
      ensures Valid() && keys == old(keys) && contents == old(contents) - {k} && Shared() == Erase(old(Shared()), k)
      ensures exists i :: 0 <= i < |old(elements.used)| && old(elements.used)[i] == e && elements.used == Without(old(elements.used), i)
    {
      hide ChainsOk, Bucketed, UniqueKeys, Stores, Located, Without, Detached, NoDup, Lists, Linked;
      ghost var used, chains0 := elements.used, chains;
      UsedNoDup();
      InElements(e);
      UnlinkFrom(e, k);
      var ok := elements.Free(e);
      ghost var i :| 0 <= i < |used| && used[i] == e && elements.used == Without(used, i);
      if e !in elements.next { vals := vals - {e}; }
      ShrunkBuckets(hash, chains0, chains, keys, used, i);
      ShrunkStores(keys, old(vals), vals, used, contents, i);
      ShrunkLocated(keys, used, contents, at, i);
      contents, at := contents - {k}, at - {k};
    }

    lemma InElements(e: Ptr)
      requires elements.Valid() && e in elements.used
      ensures e in elements.next
    {
    }

    /** find_and_erase_if: the value is copied through the returned pointer, after the table
        was unlocked.  Used by one thread, it is the value that was removed exactly when the
        element was not given back to the heap. */
    method FindAndErase(k: K, f: V -> bool) returns (c: Copied<V>)
      requires Valid()
      modifies this, elements, table
      ensures Valid() && keys == old(keys)
      ensures k !in old(contents) ==> c == Absent
      ensures k in old(contents) && !f(old(contents)[k]) ==> c == Value(old(contents)[k])
      ensures k in old(contents) && f(old(contents)[k]) ==>
        k in old(at) && c == if GivesBack(old(Shared()), old(at)[k]) then Garbage else Value(old(contents)[k])
      ensures
        if k in old(contents) && f(old(contents)[k]) then
          && contents == old(contents) - {k} && k in old(at) && Shared() == Erase(old(Shared()), k)
          && exists i :: 0 <= i < |old(elements.used)| && old(elements.used)[i] == old(at)[k]
                      && elements.used == Without(old(elements.used), i)
        else contents == old(contents) && Shared() == old(Shared()) && elements.used == old(elements.used)
    {
      hide ChainsOk, Bucketed, UniqueKeys, Stores, Located, Without, Detached;
      var p := Remove(k, f);
      if p.None? { return Absent; }
      c := CopyFrom(vals, p.value);
    }

    lemma UsedNoDup()
      requires elements.Valid()
      ensures NoDup(elements.used)
    {
    }

    /** The allocator counts the entries of the map. */
    lemma UseIsSize()
      requires Valid()
      ensures elements.use == |contents|
    {
    }

    /** Takes e out of its collision chain. */
    method UnlinkFrom(e: Ptr, k: K)
      requires Valid() && e in elements.used && e in keys && keys[e] == k
      modifies this`next, this`prev, this`chains, table
      ensures ChainsOk(next, prev, table[..], chains)
      ensures Detached(old(chains), chains, hash(k), e)
      ensures hash(k) < |old(chains)| && NoDup(old(chains)[hash(k)])
    {
      hide ChainsOk, Bucketed, UniqueKeys, Stores, Located, Lists, Linked, NoDup, UnlinkNext, UnlinkPrev, Without;
      var h := hash(k);
      ghost var tops := table[..];
      OnItsChain(hash, chains, keys, elements.used, e);
      ghost var i :| 0 <= i < |chains[h]| && chains[h][i] == e;
      SameLength(next, prev, tops, chains);
      ChainNoDup(next, prev, tops, chains, h);
      DetachLinked(hash, keys, elements.used, next, prev, tops, chains, h, i);
      var n, p := UnlinkNext(next, prev, e), UnlinkPrev(next, prev, e);
      if prev[e].None? { table[h] := next[e]; }
      assert table[..] == tops[h := if prev[e].Some? then tops[h] else next[e]];
      next, prev := n, p;
      chains := chains[h := Without(chains[h], i)];
    }

    lemma Counted()
      requires Valid()
      ensures elements.max - elements.use == |elements.free| && elements.use == |contents|
    {
    }

    /** i elements of `all` were visited, with result `pass`; the others are still the last
        used elements, with their keys. */
    ghost predicate SweptTo(all: seq<Ptr>, i: nat, ks: map<Ptr, K>, heap: set<Ptr>, pass: Pass<K, V>)
      reads this, elements
    {
      && contents == pass.contents && elements.max == pass.max && elements.use == pass.use
      && Suffix(elements.used, all, i) && Unvisited(keys, elements.fromHeap, all, i, ks, heap)
    }

    /** What a callback of an iteration inserts. */
    method AddEntries(adds: seq<(K, V)>, ghost all: seq<Ptr>, ghost i: nat, ghost ks: map<Ptr, K>, ghost heap: set<Ptr>,
                      ghost pass: Pass<K, V>)
      requires Valid() && SweptTo(all, i, ks, heap, pass)
      modifies this, elements, table
      ensures Valid() && SweptTo(all, i, ks, heap, AddedAll(pass, adds, elements.expandable))
    {
      hide ChainsOk, Bucketed, UniqueKeys, Stores, Located, SweptTo, Added;
      var j := 0;
      assert adds[..0] == [];
      while j < |adds|
        invariant 0 <= j <= |adds| && Valid()
        invariant SweptTo(all, i, ks, heap, AddedAll(pass, adds[..j], elements.expandable))
      {
        AddEntry(adds[j].0, adds[j].1, all, i, ks, heap, AddedAll(pass, adds[..j], elements.expandable));
        assert adds[..j + 1][..j] == adds[..j];
        j := j + 1;
      }
      assert adds[..j] == adds;
    }

    method AddEntry(k: K, v: V, ghost all: seq<Ptr>, ghost i: nat, ghost ks: map<Ptr, K>, ghost heap: set<Ptr>,
                    ghost pass: Pass<K, V>)
      requires Valid() && SweptTo(all, i, ks, heap, pass)
      modifies this, elements, table
      ensures Valid() && SweptTo(all, i, ks, heap, Added(pass, k, v, elements.expandable))
    {
      hide ChainsOk, Bucketed, UniqueKeys, Stores, Located, Suffix, Unvisited, Lists, Linked, NoDup;
      Counted();
      ghost var used, keys0, heap0 := elements.used, keys, elements.fromHeap;
      var ok := Insert(k, before => v);
      if ok && k !in pass.contents {
        SuffixPush(used, all, i, at[k]);
        UnvisitedPush(keys0, heap0, used, all, i, ks, heap, at[k], k);
      }
    }

    /** The callback erases the entry it was given, or does not. */
    method DropEntry(k: K, drop: bool, ghost pp: Ptr, ghost all: seq<Ptr>, ghost i: nat, ghost ks: map<Ptr, K>, ghost heap: set<Ptr>,
                     ghost pass: Pass<K, V>)
      returns (c: seq<Copied<V>>)
      requires Valid() && i < |all| && pp == all[i] && pp in keys && keys[pp] == k && k in contents
      requires SweptTo(all, i, ks, heap, pass)
      modifies this, elements, table
      ensures Valid() && SweptTo(all, i + 1, ks, heap, Dropped(pass, k, pp in heap, drop))
      ensures Dropped(pass, k, pp in heap, drop).copies == pass.copies + c
    {
      hide ChainsOk, Bucketed, UniqueKeys, Stores, Located, Without, Lists, Linked, Suffix, Unvisited, NoDup;
      UsedNoDup();
      InUse(pp, all, i);
      UnvisitedKey(keys, elements.fromHeap, all, i, ks, heap);
      ghost var used := elements.used;
      c := [];
      assert pass.copies + c == pass.copies;
      if drop {
        var got := FindAndErase(k, w => true);
        ghost var n :| 0 <= n < |used| && used[n] == pp && elements.used == Without(used, n);
        SuffixErase(used, all, i, n);
        UnvisitedErase(keys, old(elements.fromHeap), elements.fromHeap, used, all, i, ks, heap);
        c := [got];
      } else {
        SuffixKeep(used, all, i);
        UnvisitedNext(keys, elements.fromHeap, all, i, ks, heap);
      }
    }

    lemma InUse(pp: Ptr, all: seq<Ptr>, i: nat)
      requires Valid() && i < |all| && pp == all[i] && Suffix(elements.used, all, i)
      ensures pp in elements.used && pp in keys && pp in vals && keys[pp] in contents && contents[keys[pp]] == vals[pp]
      ensures keys[pp] in at && at[keys[pp]] == pp
    {
      SuffixHere(elements.used, all, i);
    }

    /** iterate: the next element is read before the callback runs, so the callback may erase
        the element it is given, and insert others.  Entries are visited in the order of the
        used list at the start, until a callback returns a negative number. */
    method Sweep(act: (K, V) -> Action<K, V>) returns (visited: seq<K>, copies: seq<Copied<V>>)
      requires Valid()
      modifies this, elements, table
      ensures Valid()
      ensures
        var pass := Walk(StartPass(old(contents), old(elements.max), old(elements.use)),
                         Entries(old(keys), old(elements.fromHeap), old(elements.used)), elements.expandable, act);
        && contents == pass.contents && elements.max == pass.max && elements.use == pass.use
        && visited == pass.visited && copies == pass.copies
    {
      hide ChainsOk, Bucketed, UniqueKeys, Stores, Located, Lists, Linked, NoDup, SweptTo, Walk, Visit, Entries;
      visited, copies := [], [];
      ghost var all, ks, heap := elements.used, keys, elements.fromHeap;
      ghost var pass := StartPass(contents, elements.max, elements.use);
      SweepStart(act);
      ghost var start, entries := pass, Entries(ks, heap, all);
      var p := elements.First();
      var stop := false;
      ghost var i := 0;
      while p.Some? && !stop
        invariant Valid() && 0 <= i <= |all| == |entries| && (!stop ==> p == Elem(all, i))
        invariant SweptTo(all, i, ks, heap, pass) && pass == Walk(start, entries[..i], elements.expandable, act)
        invariant visited == pass.visited && copies == pass.copies && stop == pass.stopped
        decreases |all| - i, !stop
      {
        var k, c;
        p, k, c, stop := VisitNext(p.value, act, all, i, ks, heap, pass);
        EntryAt(ks, heap, all, i, k);
        WalkMore(start, entries, i, elements.expandable, act);
        pass := Visit(pass, entries[i].0, entries[i].1, elements.expandable, act);
        visited, copies := visited + [k], copies + c;
        i := i + 1;
      }
      if stop { WalkStopped(start, entries, i, elements.expandable, act); }
      assert entries[..|entries|] == entries;
      Reached(all, i, ks, heap, pass);
    }

    /** One round: the next element is read, then the callback runs. */
    method VisitNext(pp: Ptr, act: (K, V) -> Action<K, V>, ghost all: seq<Ptr>, ghost i: nat, ghost ks: map<Ptr, K>,
                     ghost heap: set<Ptr>, ghost pass: Pass<K, V>)
      returns (p: Option<Ptr>, k: K, c: seq<Copied<V>>, stop: bool)
      requires Valid() && i < |all| && pp == all[i] && SweptTo(all, i, ks, heap, pass) && !pass.stopped
      modifies this, elements, table
      ensures Valid() && p == Elem(all, i + 1) && pp in ks && ks[pp] == k
      ensures
        var pass' := Visit(pass, k, pp in heap, elements.expandable, act);
        && SweptTo(all, i + 1, ks, heap, pass')
        && pass'.visited == pass.visited + [k] && pass'.copies == pass.copies + c && pass'.stopped == stop
    {
      hide ChainsOk, Bucketed, UniqueKeys, Stores, Located, Without, Lists, Linked, Suffix, Unvisited, NoDup, AddedAll;
      InUse(pp, all, i);
      UnvisitedKey(keys, elements.fromHeap, all, i, ks, heap);
      UsedNoDup();
      ghost var used := elements.used;
      p := elements.Next(pp);
      ghost var j :| 0 <= j < |used| && used[j] == pp && p == Elem(used, j + 1);
      SuffixNext(used, all, i, j);
      k := keys[pp];
      var a := act(k, vals[pp]);
      c := DropEntry(k, a.drop, pp, all, i, ks, heap, pass);
      ghost var dropped := Dropped(pass, k, pp in heap, a.drop);
      AddEntries(a.adds, all, i + 1, ks, heap, dropped);
      AddedKeeps(dropped, a.adds, elements.expandable);
      stop := a.stop;
    }

    lemma SweepStart(act: (K, V) -> Action<K, V>)
      requires Valid()
      ensures forall p | p in elements.used :: p in keys
      ensures SweptTo(elements.used, 0, keys, elements.fromHeap, StartPass(contents, elements.max, elements.use))
      ensures
        var entries := Entries(keys, elements.fromHeap, elements.used);
        && |entries| == |elements.used|
        && Walk(StartPass(contents, elements.max, elements.use), entries[..0], elements.expandable, act)
           == StartPass(contents, elements.max, elements.use)
    {
      hide ChainsOk, Bucketed, UniqueKeys, Located, Lists, Linked, NoDup;
    }

    lemma Reached(all: seq<Ptr>, i: nat, ks: map<Ptr, K>, heap: set<Ptr>, pass: Pass<K, V>)
      requires SweptTo(all, i, ks, heap, pass)
      ensures contents == pass.contents && elements.max == pass.max && elements.use == pass.use
    {
    }
  }

  /** e is gone from chain h, and the other chains are what they were. */
  ghost predicate Detached(chains: seq<seq<Ptr>>, chains': seq<seq<Ptr>>, h: nat, e: Ptr) {
    h < |chains| && exists i :: 0 <= i < |chains[h]| && chains[h][i] == e && chains' == chains[h := Without(chains[h], i)]
  }

  lemma SameLength(next: Field, prev: Field, tops: seq<Option<Ptr>>, chains: seq<seq<Ptr>>)
    requires ChainsOk(next, prev, tops, chains)
    ensures |tops| == |chains|
  {
  }

  lemma ChainNoDup(next: Field, prev: Field, tops: seq<Option<Ptr>>, chains: seq<seq<Ptr>>, h: nat)
    requires ChainsOk(next, prev, tops, chains) && h < |chains|
    ensures NoDup(chains[h])
  {
    assert Linked(next, prev, tops[h], chains[h]);
  }

  lemma NotFound<K(!new), V(!new)>(hash: K -> nat, chains: seq<seq<Ptr>>, keys: map<Ptr, K>, vals: map<Ptr, V>,
                                   used: seq<Ptr>, contents: map<K, V>, k: K, chain: seq<Ptr>)
    requires Bucketed(hash, chains, keys, used) && Stores(keys, vals, used, contents)
    requires hash(k) < |chains| && chain == chains[hash(k)]
    requires forall j | 0 <= j < |chain| :: chain[j] in keys && keys[chain[j]] != k
    ensures k !in contents
  {
    forall p | p in used && p in keys
      ensures keys[p] != k
    {
      assert p in chains[hash(keys[p])];
      assert keys[p] == k ==> p in chain;
    }
  }

  lemma OnItsChain<K(!new)>(hash: K -> nat, chains: seq<seq<Ptr>>, keys: map<Ptr, K>, used: seq<Ptr>, e: Ptr)
    requires Bucketed(hash, chains, keys, used) && e in used
    ensures e in keys && hash(keys[e]) < |chains| && e in chains[hash(keys[e])]
  {
  }

  /** An element is on one chain only. */
  lemma OneChain<K(!new)>(hash: K -> nat, chains: seq<seq<Ptr>>, keys: map<Ptr, K>, used: seq<Ptr>, g: nat, h: nat, p: Ptr)
    requires Bucketed(hash, chains, keys, used) && g < |chains| && h < |chains|
    ensures g != h ==> p !in chains[g] || p !in chains[h]
  {
  }

  lemma Disjoint<K(!new)>(hash: K -> nat, chains: seq<seq<Ptr>>, keys: map<Ptr, K>, used: seq<Ptr>, h: nat)
    requires Bucketed(hash, chains, keys, used) && h < |chains|
    ensures forall g, p | 0 <= g < |chains| && g != h && p in chains[g] :: p !in chains[h]
  {
    forall g, p | 0 <= g < |chains| && g != h && p in chains[g]
      ensures p !in chains[h]
    {
      OneChain(hash, chains, keys, used, g, h, p);
    }
  }

  /** `at` is where the keys of the map are. */
  ghost predicate Located<K(!new), V(!new)>(keys: map<Ptr, K>, used: seq<Ptr>, contents: map<K, V>, at: map<K, Ptr>) {
    && (forall k | k in contents :: k in at)
    && (forall k | k in at :: k in contents && at[k] in used && at[k] in keys && keys[at[k]] == k)
    && (forall p | p in used :: p in keys && keys[p] in at && at[keys[p]] == p)
  }

  lemma LocatedAt<K(!new), V(!new)>(keys: map<Ptr, K>, used: seq<Ptr>, contents: map<K, V>, at: map<K, Ptr>, p: Ptr)
    requires Located(keys, used, contents, at) && p in used && p in keys && keys[p] in contents
    ensures keys[p] in at && at[keys[p]] == p
  {
  }

  lemma StillLocated<K(!new), V(!new)>(keys: map<Ptr, K>, used: seq<Ptr>, contents: map<K, V>, at: map<K, Ptr>, k: K, v: V)
    requires Located(keys, used, contents, at) && k in contents
    ensures Located(keys, used, contents[k := v], at)
  {
  }

  lemma LocatedKeys<K(!new), V(!new)>(keys: map<Ptr, K>, used: seq<Ptr>, contents: map<K, V>, at: map<K, Ptr>)
    requires Located(keys, used, contents, at)
    ensures at.Keys == contents.Keys && forall k | k in at :: at[k] in used
  {
  }

  lemma AddLocated<K(!new), V(!new)>(keys: map<Ptr, K>, used: seq<Ptr>, contents: map<K, V>, at: map<K, Ptr>, e: Ptr, k: K, v: V)
    requires Located(keys, used, contents, at) && e !in used && k !in contents
    ensures Located(keys[e := k], [e] + used, contents[k := v], at[k := e])
  {
    var keys', used', at' := keys[e := k], [e] + used, at[k := e];
    forall p | p in used'
      ensures p in keys' && keys'[p] in at' && at'[keys'[p]] == p
    {
      assert p != e ==> p in used && keys'[p] == keys[p] && keys[p] in contents;
    }
  }

  lemma ShrunkLocated<K(!new), V(!new)>(keys: map<Ptr, K>, used: seq<Ptr>, contents: map<K, V>, at: map<K, Ptr>, i: nat)
    requires Located(keys, used, contents, at) && NoDup(used) && i < |used| && used[i] in keys
    ensures Located(keys, Without(used, i), contents - {keys[used[i]]}, at - {keys[used[i]]})
  {
    WithoutMembers(used, i);
    hide Without, NoDup;
  }

  // ---- insertion ----

  lemma StoreOver<K(!new), V(!new)>(keys: map<Ptr, K>, vals: map<Ptr, V>, used: seq<Ptr>, contents: map<K, V>, e: Ptr, v: V)
    requires Stores(keys, vals, used, contents) && UniqueKeys(keys, used) && e in used && e in keys
    ensures Stores(keys, vals[e := v], used, contents[keys[e] := v])
  {
    assert contents[keys[e] := v].Keys == contents.Keys;
    assert |contents[keys[e] := v]| == |contents|;
  }

  lemma AddBucketed<K(!new), V(!new)>(hash: K -> nat, chains: seq<seq<Ptr>>, keys: map<Ptr, K>, vals: map<Ptr, V>,
                                      used: seq<Ptr>, contents: map<K, V>, e: Ptr, k: K, v: V)
    requires Bucketed(hash, chains, keys, used) && UniqueKeys(keys, used) && Stores(keys, vals, used, contents)
    requires e !in used && k !in contents && hash(k) < |chains|
    ensures forall h | 0 <= h < |chains| :: e !in chains[h]
    ensures Bucketed(hash, chains[hash(k) := [e] + chains[hash(k)]], keys[e := k], [e] + used)
    ensures UniqueKeys(keys[e := k], [e] + used)
    ensures Stores(keys[e := k], vals[e := v], [e] + used, contents[k := v])
  {
    forall h | 0 <= h < |chains|
      ensures e !in chains[h]
    {
    }
    AddBuckets(hash, chains, keys, used, e, k);
    AddStores(keys, vals, used, contents, e, k, v);
  }

  lemma AddBuckets<K(!new)>(hash: K -> nat, chains: seq<seq<Ptr>>, keys: map<Ptr, K>, used: seq<Ptr>, e: Ptr, k: K)
    requires Bucketed(hash, chains, keys, used) && e !in used && hash(k) < |chains|
    ensures Bucketed(hash, chains[hash(k) := [e] + chains[hash(k)]], keys[e := k], [e] + used)
  {
    var chains' := chains[hash(k) := [e] + chains[hash(k)]];
    forall h, p | 0 <= h < |chains'| && p in chains'[h]
      ensures p in [e] + used && p in keys[e := k] && hash(keys[e := k][p]) == h
    {
      assert p != e ==> p in chains[h];
    }
    forall p | p in [e] + used
      ensures p in keys[e := k] && hash(keys[e := k][p]) < |chains'| && p in chains'[hash(keys[e := k][p])]
    {
      assert p != e ==> p in used && p in chains[hash(keys[p])];
    }
  }

  lemma AddStores<K(!new), V(!new)>(keys: map<Ptr, K>, vals: map<Ptr, V>, used: seq<Ptr>, contents: map<K, V>, e: Ptr, k: K, v: V)
    requires UniqueKeys(keys, used) && Stores(keys, vals, used, contents) && e !in used && k !in contents
    ensures UniqueKeys(keys[e := k], [e] + used)
    ensures Stores(keys[e := k], vals[e := v], [e] + used, contents[k := v])
  {
    hide UniqueKeys, Stores;
    AddUnique(keys, vals, used, contents, e, k);
    AddHolders(keys, vals, used, contents, e, k, keys[e := k], [e] + used, contents[k := v]);
    AddEntries(keys, vals, used, contents, e, k, v, keys[e := k], vals[e := v], [e] + used, contents[k := v]);
  }

  lemma AddUnique<K(!new), V(!new)>(keys: map<Ptr, K>, vals: map<Ptr, V>, used: seq<Ptr>, contents: map<K, V>, e: Ptr, k: K)
    requires UniqueKeys(keys, used) && Stores(keys, vals, used, contents) && e !in used && k !in contents
    ensures UniqueKeys(keys[e := k], [e] + used)
  {
    hide Stores;
    var keys', used' := keys[e := k], [e] + used;
    forall p, q | p in used' && q in used' && p in keys' && q in keys' && keys'[p] == keys'[q]
      ensures p == q
    {
      HoldsKey(keys, vals, used, contents, p);
      HoldsKey(keys, vals, used, contents, q);
    }
  }

  lemma AddHolders<K(!new), V(!new)>(keys: map<Ptr, K>, vals: map<Ptr, V>, used: seq<Ptr>, contents: map<K, V>, e: Ptr, k: K,
                                     keys': map<Ptr, K>, used': seq<Ptr>, contents': map<K, V>)
    requires Stores(keys, vals, used, contents) && e !in used
    requires keys' == keys[e := k] && used' == [e] + used && contents'.Keys == contents.Keys + {k}
    ensures forall c | c in contents' :: Held(keys', used', c)
  {
    hide Stores;
    forall c | c in contents'
      ensures Held(keys', used', c)
    {
      var p := if c in contents then KeyHolder(keys, vals, used, contents, c) else e;
      assert p in used' && p in keys' && (p != e ==> keys'[p] == c);
      assert e in used' && keys'[e] == k;
    }
  }

  lemma AddEntries<K(!new), V(!new)>(keys: map<Ptr, K>, vals: map<Ptr, V>, used: seq<Ptr>, contents: map<K, V>, e: Ptr, k: K, v: V,
                                     keys': map<Ptr, K>, vals': map<Ptr, V>, used': seq<Ptr>, contents': map<K, V>)
    requires Stores(keys, vals, used, contents) && e !in used && k !in contents
    requires keys' == keys[e := k] && vals' == vals[e := v] && used' == [e] + used && contents' == contents[k := v]
    requires forall c | c in contents' :: Held(keys', used', c)
    ensures Stores(keys', vals', used', contents')
  {
    hide Held, Stores;
    forall p | p in used'
      ensures p in keys' && p in vals' && keys'[p] in contents' && contents'[keys'[p]] == vals'[p]
    {
      EntryOf(keys, vals, used, contents, p);
    }
    EntriesGrow(keys, vals, used, contents, k, v);
    StoresFrom(keys', vals', used', contents');
  }

  lemma EntryOf<K(!new), V(!new)>(keys: map<Ptr, K>, vals: map<Ptr, V>, used: seq<Ptr>, contents: map<K, V>, p: Ptr)
    requires Stores(keys, vals, used, contents)
    ensures p in used ==> p in keys && p in vals && keys[p] in contents && contents[keys[p]] == vals[p]
  {
  }

  lemma EntriesGrow<K(!new), V(!new)>(keys: map<Ptr, K>, vals: map<Ptr, V>, used: seq<Ptr>, contents: map<K, V>, k: K, v: V)
    requires Stores(keys, vals, used, contents) && k !in contents
    ensures |contents[k := v]| == |used| + 1
  {
    assert contents[k := v].Keys == contents.Keys + {k};
  }

  lemma StoresFrom<K(!new), V(!new)>(keys: map<Ptr, K>, vals: map<Ptr, V>, used: seq<Ptr>, contents: map<K, V>)
    requires forall p | p in used :: p in keys && p in vals && keys[p] in contents && contents[keys[p]] == vals[p]
    requires (forall c | c in contents :: Held(keys, used, c)) && |contents| == |used|
    ensures Stores(keys, vals, used, contents)
  {
    hide Held;
  }

  lemma HoldsKey<K(!new), V(!new)>(keys: map<Ptr, K>, vals: map<Ptr, V>, used: seq<Ptr>, contents: map<K, V>, p: Ptr)
    requires Stores(keys, vals, used, contents)
    ensures p in used ==> p in keys && keys[p] in contents
  {
  }

  ghost function KeyHolder<K(!new), V(!new)>(keys: map<Ptr, K>, vals: map<Ptr, V>, used: seq<Ptr>, contents: map<K, V>, c: K): (p: Ptr)
    requires Stores(keys, vals, used, contents) && c in contents
    ensures p in used && p in keys && keys[p] == c
  {
    var p :| p in used && p in keys && keys[p] == c;
    p
  }

  lemma AddLinked(next: Field, prev: Field, tops: seq<Option<Ptr>>, chains: seq<seq<Ptr>>, h: nat, e: Ptr)
    requires ChainsOk(next, prev, tops, chains) && h < |chains| && forall g | 0 <= g < |chains| :: e !in chains[g]
    requires forall g, p | 0 <= g < |chains| && g != h && p in chains[g] :: p !in chains[h]
    ensures ChainsOk(PushNext(next, tops[h], e), PushPrev(prev, tops[h], e), tops[h := Some(e)], chains[h := [e] + chains[h]])
  {
    var n, p := PushNext(next, tops[h], e), PushPrev(prev, tops[h], e);
    var chains' := chains[h := [e] + chains[h]];
    var tops' := tops[h := Some(e)];
    PushFront(next, prev, tops[h], chains[h], e);
    assert tops[h] == Elem(chains[h], 0);
    forall g | 0 <= g < |chains'|
      ensures Linked(n, p, tops'[g], chains'[g])
    {
      if g != h {
        assert Linked(next, prev, tops[g], chains[g]);
        forall x | x in chains[g]
          ensures Same(next, n, x) && Same(prev, p, x)
        {
          assert x !in chains[h] && x != e;
        }
        Frame(next, prev, n, p, tops[g], chains[g]);
      }
    }
  }

  // ---- removal ----

  lemma DetachLinked<K(!new)>(hash: K -> nat, keys: map<Ptr, K>, used: seq<Ptr>, next: Field, prev: Field,
                              tops: seq<Option<Ptr>>, chains: seq<seq<Ptr>>, h: nat, i: nat)
    requires Bucketed(hash, chains, keys, used)
    requires ChainsOk(next, prev, tops, chains) && h < |chains| && i < |chains[h]|
    ensures chains[h][i] in next && chains[h][i] in prev
    ensures
      var e := chains[h][i];
      ChainsOk(UnlinkNext(next, prev, e), UnlinkPrev(next, prev, e), tops[h := if prev[e].Some? then tops[h] else next[e]],
               chains[h := Without(chains[h], i)])
  {
    var e := chains[h][i];
    Unlink(next, prev, tops[h], chains[h], i);
    Neighbours(next, prev, tops[h], chains[h], i);
    var n, p := UnlinkNext(next, prev, e), UnlinkPrev(next, prev, e);
    var chains' := chains[h := Without(chains[h], i)];
    var tops' := tops[h := if prev[e].Some? then tops[h] else next[e]];
    forall g | 0 <= g < |chains'|
      ensures Linked(n, p, tops'[g], chains'[g])
    {
      hide Linked, Bucketed;
      if g != h {
        forall x | x in chains[g]
          ensures x !in chains[h]
        {
          OneChain(hash, chains, keys, used, g, h, x);
        }
        assert Linked(next, prev, tops[g], chains[g]);
        Frame(next, prev, n, p, tops[g], chains[g]);
      }
    }
  }

  lemma Neighbours(next: Field, prev: Field, top: Option<Ptr>, s: seq<Ptr>, i: nat)
    requires Linked(next, prev, top, s) && i < |s|
    ensures s[i] in next && (next[s[i]].Some? ==> next[s[i]].value in s)
    ensures s[i] in prev && (prev[s[i]].Some? ==> prev[s[i]].value in s)
  {
    assert NextAt(next, s, i) && PrevAt(prev, s, i);
  }

  lemma ShrunkBuckets<K(!new)>(hash: K -> nat, chains: seq<seq<Ptr>>, chains': seq<seq<Ptr>>, keys: map<Ptr, K>, used: seq<Ptr>, i: nat)
    requires Bucketed(hash, chains, keys, used) && NoDup(used) && i < |used| && used[i] in keys
    requires Detached(chains, chains', hash(keys[used[i]]), used[i])
    requires NoDup(chains[hash(keys[used[i]])])
    ensures Bucketed(hash, chains', keys, Without(used, i))
  {
    var e := used[i];
    var h := hash(keys[e]);
    var j :| 0 <= j < |chains[h]| && chains[h][j] == e && chains' == chains[h := Without(chains[h], j)];
    WithoutMembers(used, i);
    WithoutMembers(chains[h], j);
    hide Without, NoDup;
    forall g, p | 0 <= g < |chains'| && p in chains'[g]
      ensures p in Without(used, i) && p in keys && hash(keys[p]) == g
    {
      assert p in chains[g];
    }
    forall p | p in Without(used, i)
      ensures p in keys && hash(keys[p]) < |chains'| && p in chains'[hash(keys[p])]
    {
      assert p in used && p in chains[hash(keys[p])];
    }
  }

  lemma ShrunkStores<K(!new), V(!new)>(keys: map<Ptr, K>, vals: map<Ptr, V>, vals': map<Ptr, V>, used: seq<Ptr>,
                                       contents: map<K, V>, i: nat)
    requires Stores(keys, vals, used, contents) && UniqueKeys(keys, used) && NoDup(used) && i < |used|
    requires vals' == vals || vals' == vals - {used[i]}
    ensures used[i] in keys && keys[used[i]] in contents
    ensures UniqueKeys(keys, Without(used, i)) && Stores(keys, vals', Without(used, i), contents - {keys[used[i]]})
  {
    hide Without, NoDup, Stores, UniqueKeys, Held;
    var e, used' := used[i], Without(used, i);
    WithoutMembers(used, i);
    WithoutLength(used, i);
    EntryOf(keys, vals, used, contents, e);
    var contents' := contents - {keys[e]};
    ShrunkUnique(keys, used, used');
    forall c | c in contents'
      ensures Held(keys, used', c)
    {
      var p := KeyHolder(keys, vals, used, contents, c);
      HeldAt(keys, used', p);
    }
    forall p | p in used'
      ensures p in keys && p in vals' && keys[p] in contents' && contents'[keys[p]] == vals'[p]
    {
      EntryOf(keys, vals, used, contents, p);
      if keys[p] == keys[e] { OneHolder(keys, used, p, e); }
    }
    EntriesShrink(keys, vals, used, contents, keys[e]);
    StoresFrom(keys, vals', used', contents');
  }

  lemma WithoutLength(s: seq<Ptr>, i: nat)
    requires i < |s|
    ensures |Without(s, i)| == |s| - 1
  {
  }

  lemma ShrunkUnique<K(!new)>(keys: map<Ptr, K>, used: seq<Ptr>, used': seq<Ptr>)
    requires UniqueKeys(keys, used) && forall p | p in used' :: p in used
    ensures UniqueKeys(keys, used')
  {
  }

  lemma OneHolder<K(!new)>(keys: map<Ptr, K>, used: seq<Ptr>, p: Ptr, q: Ptr)
    requires UniqueKeys(keys, used) && p in used && q in used && p in keys && q in keys && keys[p] == keys[q]
    ensures p == q
  {
  }

  lemma HeldAt<K(!new)>(keys: map<Ptr, K>, used: seq<Ptr>, p: Ptr)
    requires p in used && p in keys
    ensures Held(keys, used, keys[p])
  {
  }

  lemma EntriesShrink<K(!new), V(!new)>(keys: map<Ptr, K>, vals: map<Ptr, V>, used: seq<Ptr>, contents: map<K, V>, k: K)
    requires Stores(keys, vals, used, contents) && k in contents
    ensures |contents - {k}| == |used| - 1
  {
    assert (contents - {k}).Keys == contents.Keys - {k};
  }

  // ---- iteration ----

  /** What a callback does: whether it erases the entry it is given, what it inserts
      afterwards, and whether it returns a negative number. */
  datatype Action<K, V> = Action(drop: bool, adds: seq<(K, V)>, stop: bool)

  /** An iteration so far: the map, the counters of the allocator, the keys visited and the
      copies of erased values. */
  datatype Pass<K(==), V> = Pass(contents: map<K, V>, max: int, use: int, visited: seq<K>, copies: seq<Copied<V>>, stopped: bool)

  function StartPass<K, V>(contents: map<K, V>, max: int, use: int): Pass<K, V> {
    Pass(contents, max, use, [], [], false)
  }

  function Dropped<K, V>(pass: Pass<K, V>, k: K, heap: bool, drop: bool): Pass<K, V>
    requires k in pass.contents
  {
    var p := pass.(visited := pass.visited + [k]);
    if !drop then p
    else if heap && p.max / 2 >= p.use then
      p.(contents := p.contents - {k}, max := p.max - 1, use := p.use - 1, copies := p.copies + [Garbage])
    else p.(contents := p.contents - {k}, use := p.use - 1, copies := p.copies + [Value(p.contents[k])])
  }

  function Added<K, V>(pass: Pass<K, V>, k: K, v: V, expandable: bool): Pass<K, V> {
    if k in pass.contents then pass.(contents := pass.contents[k := v])
    else if pass.max > pass.use then pass.(contents := pass.contents[k := v], use := pass.use + 1)
    else if expandable then pass.(contents := pass.contents[k := v], max := pass.max + 1, use := pass.use + 1)
    else pass
  }

  function AddedAll<K, V>(pass: Pass<K, V>, adds: seq<(K, V)>, expandable: bool): Pass<K, V> {
    if adds == [] then pass
    else Added(AddedAll(pass, adds[..|adds| - 1], expandable), adds[|adds| - 1].0, adds[|adds| - 1].1, expandable)
  }

  /** The visit of the entry of k. */
  function Visit<K, V>(pass: Pass<K, V>, k: K, heap: bool, expandable: bool, act: (K, V) -> Action<K, V>): Pass<K, V> {
    if pass.stopped || k !in pass.contents then pass
    else
      var a := act(k, pass.contents[k]);
      AddedAll(Dropped(pass, k, heap, a.drop), a.adds, expandable).(stopped := a.stop)
  }

  /** Visits one after the other; the entries are keys, with the origin of their elements. */
  function Walk<K, V>(pass: Pass<K, V>, entries: seq<(K, bool)>, expandable: bool, act: (K, V) -> Action<K, V>): Pass<K, V> {
    if entries == [] then pass
    else
      var last := entries[|entries| - 1];
      Visit(Walk(pass, entries[..|entries| - 1], expandable, act), last.0, last.1, expandable, act)
  }

  ghost function Entries<K>(keys: map<Ptr, K>, heap: set<Ptr>, used: seq<Ptr>): (s: seq<(K, bool)>)
    requires forall p | p in used :: p in keys
    ensures |s| == |used| && forall i | 0 <= i < |used| :: s[i] == (keys[used[i]], used[i] in heap)
  {
    seq(|used|, i requires 0 <= i < |used| => (keys[used[i]], used[i] in heap))
  }

  /** The elements of `all` from i on end the used list. */
  ghost predicate Suffix(used: seq<Ptr>, all: seq<Ptr>, i: nat) {
    i <= |all| && |all| - i <= |used| && used[|used| - (|all| - i)..] == all[i..]
  }

  ghost predicate Unvisited<K(!new)>(keys: map<Ptr, K>, fromHeap: set<Ptr>, all: seq<Ptr>, i: nat, ks: map<Ptr, K>, heap: set<Ptr>) {
    forall j | i <= j < |all| ::
      all[j] in keys && all[j] in ks && keys[all[j]] == ks[all[j]] && (all[j] in fromHeap <==> all[j] in heap)
  }

  lemma SuffixHere(used: seq<Ptr>, all: seq<Ptr>, i: nat)
    requires Suffix(used, all, i) && i < |all|
    ensures used[|used| - (|all| - i)] == all[i] && all[i] in used
  {
    assert all[i..][0] == all[i];
  }

  lemma SuffixMember(used: seq<Ptr>, all: seq<Ptr>, i: nat, j: nat)
    requires Suffix(used, all, i) && i <= j < |all|
    ensures used[|used| - (|all| - j)] == all[j]
  {
    assert all[i..][j - i] == all[j];
  }

  lemma SuffixAt(used: seq<Ptr>, all: seq<Ptr>, i: nat, n: nat)
    requires Suffix(used, all, i) && i < |all| && NoDup(used) && n < |used| && used[n] == all[i]
    ensures n == |used| - (|all| - i)
  {
    SuffixHere(used, all, i);
  }

  lemma SuffixKeep(used: seq<Ptr>, all: seq<Ptr>, i: nat)
    requires Suffix(used, all, i) && i < |all|
    ensures Suffix(used, all, i + 1)
  {
    assert all[i..][1..] == all[i + 1..];
  }

  lemma SuffixErase(used: seq<Ptr>, all: seq<Ptr>, i: nat, n: nat)
    requires Suffix(used, all, i) && i < |all| && NoDup(used) && n < |used| && used[n] == all[i]
    ensures Suffix(Without(used, n), all, i + 1)
  {
    SuffixAt(used, all, i, n);
    assert Without(used, n)[n..] == used[n + 1..] == all[i..][1..];
  }

  lemma SuffixPush(used: seq<Ptr>, all: seq<Ptr>, i: nat, e: Ptr)
    requires Suffix(used, all, i)
    ensures Suffix([e] + used, all, i)
  {
  }

  lemma SuffixNext(used: seq<Ptr>, all: seq<Ptr>, i: nat, j: nat)
    requires Suffix(used, all, i) && i < |all| && NoDup(used) && j < |used| && used[j] == all[i]
    ensures Elem(used, j + 1) == Elem(all, i + 1)
  {
    SuffixAt(used, all, i, j);
    if i + 1 < |all| { SuffixMember(used, all, i, i + 1); }
  }

  lemma UnvisitedNext<K(!new)>(keys: map<Ptr, K>, fromHeap: set<Ptr>, all: seq<Ptr>, i: nat, ks: map<Ptr, K>, heap: set<Ptr>)
    requires Unvisited(keys, fromHeap, all, i, ks, heap)
    ensures Unvisited(keys, fromHeap, all, i + 1, ks, heap)
  {
  }

  lemma UnvisitedKey<K(!new)>(keys: map<Ptr, K>, fromHeap: set<Ptr>, all: seq<Ptr>, i: nat, ks: map<Ptr, K>, heap: set<Ptr>)
    requires Unvisited(keys, fromHeap, all, i, ks, heap) && i < |all|
    ensures all[i] in keys && all[i] in ks && keys[all[i]] == ks[all[i]] && (all[i] in fromHeap <==> all[i] in heap)
  {
  }

  lemma UnvisitedErase<K(!new)>(keys: map<Ptr, K>, fromHeap: set<Ptr>, fromHeap': set<Ptr>, used: seq<Ptr>, all: seq<Ptr>, i: nat,
                                ks: map<Ptr, K>, heap: set<Ptr>)
    requires Unvisited(keys, fromHeap, all, i, ks, heap) && Suffix(used, all, i) && NoDup(used) && i < |all|
    requires fromHeap' == fromHeap || fromHeap' == fromHeap - {all[i]}
    ensures Unvisited(keys, fromHeap', all, i + 1, ks, heap)
  {
    forall j | i + 1 <= j < |all|
      ensures all[j] != all[i]
    {
      SuffixMember(used, all, i, j);
      SuffixHere(used, all, i);
    }
  }

  lemma UnvisitedPush<K(!new)>(keys: map<Ptr, K>, fromHeap: set<Ptr>, used: seq<Ptr>, all: seq<Ptr>, i: nat,
                               ks: map<Ptr, K>, heap: set<Ptr>, e: Ptr, k: K)
    requires Unvisited(keys, fromHeap, all, i, ks, heap) && Suffix(used, all, i) && e !in used
    ensures Unvisited(keys[e := k], fromHeap, all, i, ks, heap)
    ensures Unvisited(keys[e := k], fromHeap + {e}, all, i, ks, heap)
  {
    forall j | i <= j < |all|
      ensures all[j] != e
    {
      SuffixMember(used, all, i, j);
    }
  }

  lemma EntryAt<K>(keys: map<Ptr, K>, heap: set<Ptr>, used: seq<Ptr>, i: nat, k: K)
    requires (forall p | p in used :: p in keys) && i < |used| && keys[used[i]] == k
    ensures Entries(keys, heap, used)[i] == (k, used[i] in heap)
  {
  }

  lemma {:induction false} AddedKeeps<K, V>(pass: Pass<K, V>, adds: seq<(K, V)>, expandable: bool)
    ensures AddedAll(pass, adds, expandable).visited == pass.visited && AddedAll(pass, adds, expandable).copies == pass.copies
    ensures AddedAll(pass, adds, expandable).stopped == pass.stopped
  {
    if adds != [] { AddedKeeps(pass, adds[..|adds| - 1], expandable); }
  }

  lemma WalkMore<K, V>(pass: Pass<K, V>, entries: seq<(K, bool)>, i: nat, expandable: bool, act: (K, V) -> Action<K, V>)
    requires i < |entries|
    ensures Walk(pass, entries[..i + 1], expandable, act)
         == Visit(Walk(pass, entries[..i], expandable, act), entries[i].0, entries[i].1, expandable, act)
  {
    assert entries[..i + 1][..i] == entries[..i];
  }

  /** After a negative result nothing more is visited. */
  lemma {:induction false} WalkStopped<K, V>(pass: Pass<K, V>, entries: seq<(K, bool)>, i: nat, expandable: bool, act: (K, V) -> Action<K, V>)
    requires i <= |entries| && Walk(pass, entries[..i], expandable, act).stopped
    ensures Walk(pass, entries, expandable, act) == Walk(pass, entries[..i], expandable, act)
    decreases |entries|
  {
    if i == |entries| {
      assert entries[..i] == entries;
    } else {
      var n := |entries| - 1;
      assert entries[..n][..i] == entries[..i];
      WalkStopped(pass, entries[..n], i, expandable, act);
    }
  }

  function EntryKeys<K>(entries: seq<(K, bool)>): (ks: seq<K>)
    ensures |ks| == |entries| && forall i | 0 <= i < |ks| :: ks[i] == entries[i].0
  {
    seq(|entries|, i requires 0 <= i < |entries| => entries[i].0)
  }

  /** No callback inserts under key k. */
  ghost predicate NotAdded<K(!new), V(!new)>(act: (K, V) -> Action<K, V>, k: K) {
    forall j, v, n | 0 <= n < |act(j, v).adds| :: act(j, v).adds[n].0 != k
  }

  /** Insertion keeps what is there, except under the keys inserted. */
  lemma {:induction false} AddedAllKeeps<K, V>(pass: Pass<K, V>, adds: seq<(K, V)>, expandable: bool, k: K)
    ensures k in pass.contents ==> k in AddedAll(pass, adds, expandable).contents
    ensures (forall n | 0 <= n < |adds| :: adds[n].0 != k) ==>
      && (k in AddedAll(pass, adds, expandable).contents <==> k in pass.contents)
      && (k in pass.contents ==> AddedAll(pass, adds, expandable).contents[k] == pass.contents[k])
  {
    if adds != [] { AddedAllKeeps(pass, adds[..|adds| - 1], expandable, k); }
  }

  /** The entries are visited in order and each once; only a negative result cuts that short. */
  lemma {:induction false} WalkVisits<K(!new), V(!new)>(start: Pass<K, V>, entries: seq<(K, bool)>, expandable: bool,
                                                        act: (K, V) -> Action<K, V>)
    requires start.visited == [] && !start.stopped && NoDup(EntryKeys(entries))
    requires forall i | 0 <= i < |entries| :: entries[i].0 in start.contents
    ensures
      var pass := Walk(start, entries, expandable, act);
      && |pass.visited| <= |entries| && pass.visited == EntryKeys(entries)[..|pass.visited|]
      && (pass.stopped || |pass.visited| == |entries|)
      && forall k | k in start.contents && k !in pass.visited :: k in pass.contents
  {
    hide AddedAll, NoDup;
    if entries != [] {
      var n := |entries| - 1;
      var before, last := Walk(start, entries[..n], expandable, act), entries[n];
      assert EntryKeys(entries[..n]) == EntryKeys(entries)[..n];
      PrefixNoDup(EntryKeys(entries), n);
      WalkVisits(start, entries[..n], expandable, act);
      if !before.stopped {
        assert before.visited == EntryKeys(entries)[..n] && last.0 !in before.visited;
        VisitOne(before, last.0, last.1, expandable, act, start.contents.Keys);
        assert EntryKeys(entries)[..n] + [last.0] == EntryKeys(entries)[..n + 1];
      }
    }
  }

  lemma PrefixNoDup<K(!new)>(s: seq<K>, n: nat)
    requires NoDup(s) && n < |s|
    ensures NoDup(s[..n]) && s[n] !in s[..n]
  {
  }

  lemma VisitOne<K(!new), V(!new)>(pass: Pass<K, V>, k: K, heap: bool, expandable: bool, act: (K, V) -> Action<K, V>, ks: set<K>)
    requires !pass.stopped && k in pass.contents && forall j | j in ks && j !in pass.visited :: j in pass.contents
    ensures
      var after := Visit(pass, k, heap, expandable, act);
      after.visited == pass.visited + [k] && forall j | j in ks && j !in after.visited :: j in after.contents
  {
    hide AddedAll;
    var a := act(k, pass.contents[k]);
    var d := Dropped(pass, k, heap, a.drop);
    AddedKeeps(d, a.adds, expandable);
    forall j | j in ks && j !in pass.visited + [k]
      ensures j in Visit(pass, k, heap, expandable, act).contents
    {
      AddedAllKeeps(d, a.adds, expandable, j);
    }
  }

  /** What becomes of an entry nobody inserts over: it is gone if its callback erased it, and
      otherwise it is what it was. */
  lemma {:induction false} WalkKeeps<K(!new), V(!new)>(start: Pass<K, V>, entries: seq<(K, bool)>, expandable: bool,
                                                       act: (K, V) -> Action<K, V>, k: K)
    requires start.visited == [] && !start.stopped && NoDup(EntryKeys(entries)) && k in start.contents && NotAdded(act, k)
    requires forall i | 0 <= i < |entries| :: entries[i].0 in start.contents
    ensures
      var pass := Walk(start, entries, expandable, act);
      && (k in pass.contents <==> !(k in pass.visited && act(k, start.contents[k]).drop))
      && (k in pass.contents ==> pass.contents[k] == start.contents[k])
  {
    hide AddedAll, NoDup;
    if entries != [] {
      var n := |entries| - 1;
      var before, last := Walk(start, entries[..n], expandable, act), entries[n];
      assert EntryKeys(entries[..n]) == EntryKeys(entries)[..n];
      PrefixNoDup(EntryKeys(entries), n);
      WalkKeeps(start, entries[..n], expandable, act, k);
      WalkVisits(start, entries[..n], expandable, act);
      if !before.stopped {
        assert last.0 !in before.visited && last.0 in before.contents;
        var a := act(last.0, before.contents[last.0]);
        var d := Dropped(before, last.0, last.1, a.drop);
        AddedKeeps(d, a.adds, expandable);
        AddedAllKeeps(d, a.adds, expandable, k);
      }
    }
  }

  /** Callbacks that only erase: every entry is visited once, and exactly those the callbacks
      do not erase are left. */
  lemma OnlyErasing<K(!new), V(!new)>(start: Pass<K, V>, entries: seq<(K, bool)>, expandable: bool, act: (K, V) -> Action<K, V>)
    requires start.visited == [] && !start.stopped && NoDup(EntryKeys(entries))
    requires forall k :: k in start.contents <==> k in EntryKeys(entries)
    requires forall k, v :: act(k, v).adds == [] && !act(k, v).stop
    ensures
      var pass := Walk(start, entries, expandable, act);
      && pass.visited == EntryKeys(entries)
      && pass.contents == map k | k in start.contents && !act(k, start.contents[k]).drop :: start.contents[k]
  {
    hide NoDup;
    var pass := Walk(start, entries, expandable, act);
    assert forall i | 0 <= i < |entries| :: entries[i].0 == EntryKeys(entries)[i];
    WalkVisits(start, entries, expandable, act);
    NeverStops(start, entries, expandable, act);
    assert EntryKeys(entries)[..|entries|] == EntryKeys(entries);
    forall k | k in start.contents
      ensures k in pass.contents <==> !act(k, start.contents[k]).drop
      ensures k in pass.contents ==> pass.contents[k] == start.contents[k]
    {
      WalkKeeps(start, entries, expandable, act, k);
    }
    NothingNew(start, entries, expandable, act);
  }

  lemma {:induction false} NeverStops<K(!new), V(!new)>(start: Pass<K, V>, entries: seq<(K, bool)>, expandable: bool,
                                                        act: (K, V) -> Action<K, V>)
    requires !start.stopped && forall k, v :: !act(k, v).stop
    ensures !Walk(start, entries, expandable, act).stopped
  {
    hide AddedAll;
    if entries != [] { NeverStops(start, entries[..|entries| - 1], expandable, act); }
  }

  lemma {:induction false} NothingNew<K(!new), V(!new)>(start: Pass<K, V>, entries: seq<(K, bool)>, expandable: bool,
                                                        act: (K, V) -> Action<K, V>)
    requires forall k, v :: act(k, v).adds == []
    ensures forall k | k in Walk(start, entries, expandable, act).contents :: k in start.contents
  {
    if entries != [] { NothingNew(start, entries[..|entries| - 1], expandable, act); }
  }

  /** What the callbacks of visited entries insert under a new key is there at the end. */
  lemma {:induction false} WalkAdds<K(!new), V(!new)>(start: Pass<K, V>, entries: seq<(K, bool)>, act: (K, V) -> Action<K, V>,
                                                      i: nat, n: nat, k: K, v: V)
    requires start.visited == [] && !start.stopped && NoDup(EntryKeys(entries)) && i < |entries|
    requires (forall j | 0 <= j < |entries| :: entries[j].0 in start.contents && entries[j].0 != k)
    requires i < |Walk(start, entries, true, act).visited| && NotAdded(act, entries[i].0)
    requires
      var adds := act(entries[i].0, start.contents[entries[i].0]).adds;
      n < |adds| && adds[n] == (k, v)
    requires forall j, w, m | 0 <= m < |act(j, w).adds| && act(j, w).adds[m].0 == k :: act(j, w).adds[m].1 == v
    ensures k in Walk(start, entries, true, act).contents && Walk(start, entries, true, act).contents[k] == v
    decreases |entries|
  {
    hide NoDup, AddedAll;
    var last := |entries| - 1;
    var before := Walk(start, entries[..last], true, act);
    assert EntryKeys(entries[..last]) == EntryKeys(entries)[..last];
    PrefixNoDup(EntryKeys(entries), last);
    WalkVisits(start, entries[..last], true, act);
    assert forall m | 0 <= m < last :: entries[..last][m] == entries[m];
    var (j, heap) := entries[last];
    if i < last { WalkAdds(start, entries[..last], act, i, n, k, v); }
    if !before.stopped {
      assert j !in before.visited;
      var a := act(j, before.contents[j]);
      var d := Dropped(before, j, heap, a.drop);
      if i < last {
        InsertsAgain(d, a.adds, k, v);
      } else {
        WalkKeeps(start, entries[..last], true, act, j);
        Inserts(d, a.adds, n, k, v);
      }
    }
  }

  lemma {:induction false} InsertsAgain<K, V>(pass: Pass<K, V>, adds: seq<(K, V)>, k: K, v: V)
    requires k in pass.contents && pass.contents[k] == v
    requires forall m | 0 <= m < |adds| && adds[m].0 == k :: adds[m].1 == v
    ensures k in AddedAll(pass, adds, true).contents && AddedAll(pass, adds, true).contents[k] == v
  {
    if adds != [] { InsertsAgain(pass, adds[..|adds| - 1], k, v); }
  }

  lemma {:induction false} Inserts<K, V>(pass: Pass<K, V>, adds: seq<(K, V)>, n: nat, k: K, v: V)
    requires n < |adds| && adds[n] == (k, v)
    requires forall m | 0 <= m < |adds| && adds[m].0 == k :: adds[m].1 == v
    ensures k in AddedAll(pass, adds, true).contents && AddedAll(pass, adds, true).contents[k] == v
    decreases |adds|
  {
    if n < |adds| - 1 { Inserts(pass, adds[..|adds| - 1], n, k, v); }
  }

  /** A copy of an erased value is the value unless its element was given back, which only
      happens to elements from the heap. */
  lemma {:induction false} CopiesIntact<K(!new), V(!new)>(start: Pass<K, V>, entries: seq<(K, bool)>, expandable: bool,
                                                          act: (K, V) -> Action<K, V>)
    requires start.copies == [] && forall i | 0 <= i < |entries| :: !entries[i].1
    ensures Garbage !in Walk(start, entries, expandable, act).copies
  {
    hide AddedAll;
    if entries != [] {
      var n := |entries| - 1;
      CopiesIntact(start, entries[..n], expandable, act);
      var before, last := Walk(start, entries[..n], expandable, act), entries[n];
      if !before.stopped && last.0 in before.contents {
        var a := act(last.0, before.contents[last.0]);
        AddedKeeps(Dropped(before, last.0, last.1, a.drop), a.adds, expandable);
      }
    }
  }
}
