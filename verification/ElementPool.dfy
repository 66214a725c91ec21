/** The elements behind a hash table, as values: where each key is, what the memory holds,
    and the two ways an erased element goes.  A pointer into an erased element is read
    after the table's lock is gone, so what is found there depends on what happened since. */
module ElementPool {
  import opened Common
  import opened Links

  /** A value copied through a pointer that `remove` returned: none, the value found at the
      address, or nothing sensible because the memory was given back. */
  datatype Copied<V> = Absent | Value(v: V) | Garbage

  /** `at` says which element a key is in, `mem` what is in the memory of elements, `heap`
      which elements came from the heap. */
  datatype Pool<K(==), V> = Pool(at: map<K, Ptr>, mem: map<Ptr, V>, free: seq<Ptr>, heap: set<Ptr>, max: int, use: int)

  /** Used and free elements are disjoint, a used element is in one place and has memory. */
  ghost predicate PoolOk<K(!new), V>(p: Pool<K, V>) {
    && (forall k | k in p.at :: p.at[k] in p.mem && p.at[k] !in p.free)
    && (forall j, k | j in p.at && k in p.at && p.at[j] == p.at[k] :: j == k)
    && NoDup(p.free)
  }

  /** The half-use rule. */
  predicate GivesBack<K, V>(p: Pool<K, V>, e: Ptr) {
    e in p.heap && p.max / 2 >= p.use
  }

  /** The locked section of remove: the element of k goes back to the heap, or becomes the
      first of the free list with its contents untouched. */
  function Erase<K, V>(p: Pool<K, V>, k: K): Pool<K, V>
    requires k in p.at
  {
    var e := p.at[k];
    if GivesBack(p, e) then Pool(p.at - {k}, p.mem - {e}, p.free, p.heap - {e}, p.max - 1, p.use - 1)
    else Pool(p.at - {k}, p.mem, [e] + p.free, p.heap, p.max, p.use - 1)
  }

  /** The element alloc_nolock hands out: the first free one, or any address that is not in use. */
  predicate CanTake<K, V>(p: Pool<K, V>, e: Ptr) {
    if p.free != [] then e == p.free[0] else forall k | k in p.at :: p.at[k] != e
  }

  /** The locked section of insert for a new key. */
  function Take<K, V>(p: Pool<K, V>, k: K, e: Ptr, v: V): Pool<K, V> {
    if p.free != [] then Pool(p.at[k := e], p.mem[e := v], p.free[1..], p.heap, p.max, p.use + 1)
    else Pool(p.at[k := e], p.mem[e := v], [], p.heap + {e}, p.max + 1, p.use + 1)
  }

  /** Reading through a pointer into an element. */
  function CopyFrom<V>(mem: map<Ptr, V>, e: Ptr): Copied<V> {
    if e in mem then Value(mem[e]) else Garbage
  }

  lemma EraseOk<K(!new), V>(p: Pool<K, V>, k: K)
    requires PoolOk(p) && k in p.at
    ensures PoolOk(Erase(p, k))
  {
  }

  lemma TakeOk<K(!new), V>(p: Pool<K, V>, k: K, e: Ptr, v: V)
    requires PoolOk(p) && k !in p.at && CanTake(p, e)
    ensures PoolOk(Take(p, k, e, v))
  {
    var q := Take(p, k, e, v);
    if p.free != [] {
      assert forall x | x in q.free :: x in p.free;
    }
    forall j | j in p.at
      ensures p.at[j] != e && p.at[j] !in q.free
    {
    }
  }

  /** With nothing in between, the copy is the value that was removed exactly when the
      element was not given back to the heap. */
  lemma CopyRightAfterIff<K(!new), V>(p: Pool<K, V>, k: K)
    requires PoolOk(p) && k in p.at
    ensures CopyFrom(Erase(p, k).mem, p.at[k]) == if GivesBack(p, p.at[k]) then Garbage else Value(p.mem[p.at[k]])
  {
  }

  /** The free list is last in, first out: the next allocation takes the very element that
      was erased, and the copy is then what the allocation put there. */
  lemma NextAllocationTakesIt<K(!new), V>(p: Pool<K, V>, k: K, k': K, e: Ptr, v: V)
    requires PoolOk(p) && k in p.at && !GivesBack(p, p.at[k]) && CanTake(Erase(p, k), e)
    ensures e == p.at[k] && CopyFrom(Take(Erase(p, k), k', e, v).mem, p.at[k]) == Value(v)
  {
  }

  /** Three keys in a pool that was made for one: erasing the third after the others gives
      its element back, and the copy that follows reads memory that is gone. */
  lemma CopyCanFail()
    ensures
      var p0: Pool<nat, nat> := Pool(map[], map[], [10], {}, 1, 0);
      var p1 := Take(p0, 1, 10, 7);
      var p2 := Take(p1, 2, 11, 8);
      var p3 := Take(p2, 3, 12, 9);
      && CanTake(p0, 10) && CanTake(p1, 11) && CanTake(p2, 12) && 1 in p3.at
      && var q1 := Erase(p3, 1);
      && 2 in q1.at
      && var q2 := Erase(q1, 2);
      && 3 in q2.at && q2.mem[12] == 9 && CopyFrom(Erase(q2, 3).mem, q2.at[3]) == Garbage
  {
    hide CopyFrom;
    var p0: Pool<nat, nat> := Pool(map[], map[], [10], {}, 1, 0);
    var p3 := Take(Take(Take(p0, 1, 10, 7), 2, 11, 8), 3, 12, 9);
    assert p3.heap == {11, 12} && p3.max == 3 && p3.use == 3;
    assert p3.at[1] == 10 && p3.at[2] == 11 && p3.at[3] == 12 && p3.mem[12] == 9;
    var q1 := Erase(p3, 1);
    assert q1 == Pool(p3.at - {1}, p3.mem, [10], {11, 12}, 3, 2);
    var q2 := Erase(q1, 2);
    assert q2 == Pool(q1.at - {2}, p3.mem, [11, 10], {11, 12}, 3, 1);
    assert GivesBack(q2, 12);
    GoneAfter(q2, 3);
  }

  lemma GoneAfter<K, V>(p: Pool<K, V>, k: K)
    requires k in p.at && GivesBack(p, p.at[k])
    ensures CopyFrom(Erase(p, k).mem, p.at[k]) == Garbage
  {
  }
}
