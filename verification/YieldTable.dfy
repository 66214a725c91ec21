/** The table of fibers that wait for a message: `fabric` over the hash table, used by one
    thread.  What several threads make of it is the subject of YieldProtocol. */
module YieldTable {
  import opened Common
  import opened Links
  import opened ElementPool
  import opened HashMap
  import FreeList

  /** A yield: the fiber, the message it waits for and its time limit.  `serial` numbers the
      yields; it only serves to tell them apart. */
  datatype Yielded = Yielded(fiber: nat, msgid: nat, limit: nat, serial: nat)

  class Fabric {
    const yielded: Table<nat, Yielded>
    /** The number of yields so far. */
    var count: nat
    /** The yields whose fiber was resumed for good: by a response, an event or a timeout. */
    ghost var ended: set<nat>
    /** Yields whose entry was erased, but whose copy was read from memory already given
        back: their fiber is not the one resumed. */
    ghost var lost: set<nat>
    /** Yields whose entry was taken over by a later yield with the same message id. */
    ghost var replaced: set<nat>

    ghost predicate Valid()
      reads this, yielded, yielded.elements, yielded.table
    {
      yielded.Valid() && ended !! lost && Accounted(yielded.contents, count, ended + lost, replaced)
    }

    constructor (size: nat, mx: nat, hash: nat -> nat)
      requires size >= 1 && mx >= 1 && forall k :: hash(k) < size
      ensures Valid() && yielded.contents == map[] && ended == lost == {} && count == 0 && yielded.elements.expandable
    {
      yielded := new Table(size, mx, true, hash);
      count, ended, lost, replaced := 0, {}, {}, {};
      new;
      assert yielded.contents == map[];
      assert ended + lost == {};
    }

    /** yield: the entry of the message is made, or taken over when there is one. */
    method Yield(fiber: nat, msgid: nat, limit: nat) returns (ok: bool)
      requires Valid()
      modifies this`count, this`replaced, yielded, yielded.elements, yielded.table
      ensures Valid() && (yielded.elements.expandable ==> ok)
      ensures ok ==> count == old(count) + 1
      ensures ok ==> yielded.contents == old(yielded.contents)[msgid := Yielded(fiber, msgid, limit, old(count))]
      ensures !ok ==> yielded.contents == old(yielded.contents) && count == old(count)
      ensures msgid !in old(yielded.contents) ==> replaced == old(replaced)
    {
      hide ChainsOk, Bucketed, UniqueKeys, Stores, Located, Accounted, Serials, FreeList.Lists;
      var y := Yielded(fiber, msgid, limit, count);
      ghost var before := yielded.contents;
      ok := yielded.Insert(msgid, existing => y);
      if ok {
        if msgid in before { replaced := replaced + {before[msgid].serial}; }
        count := count + 1;
        assert replaced == old(replaced) + if msgid in before then {before[msgid].serial} else {};
        AccountYield(before, count - 1, ended + lost, old(replaced), y);
      }
    }

    /** find_and_erase_if and the resume that follows: the entry stays only when the fiber is
        not removable.  An erased entry's fiber is the one resumed, and was never resumed
        before, exactly when its element was not given back to the heap. */
    method Resume(msgid: nat, removable: Yielded -> bool) returns (c: Copied<Yielded>)
      requires Valid()
      modifies this`ended, this`lost, yielded, yielded.elements, yielded.table
      ensures Valid()
      ensures msgid !in old(yielded.contents) ==> c == Absent
      ensures
        if msgid in old(yielded.contents) && removable(old(yielded.contents)[msgid]) then
          var y := old(yielded.contents)[msgid];
          && yielded.contents == old(yielded.contents) - {msgid} && y.serial !in old(ended) && msgid in old(yielded.at)
          && if GivesBack(old(yielded.Shared()), old(yielded.at)[msgid]) then
               c == Garbage && lost == old(lost) + {y.serial} && ended == old(ended)
             else c == Value(y) && ended == old(ended) + {y.serial} && lost == old(lost)
        else
          && yielded.contents == old(yielded.contents) && ended == old(ended) && lost == old(lost)
          && (msgid in old(yielded.contents) ==> c == Value(old(yielded.contents)[msgid]))
    {
      hide ChainsOk, Bucketed, UniqueKeys, Stores, Located, Accounted, Serials, FreeList.Lists;
      ghost var before, gone := yielded.contents, ended + lost;
      c := yielded.FindAndErase(msgid, removable);
      if msgid in before && removable(before[msgid]) {
        AccountErase(before, count, gone, replaced, {msgid});
        OneSerial(before, msgid);
        ghost var serial := before[msgid].serial;
        if c == Garbage { lost := lost + {serial}; } else { ended := ended + {serial}; }
        assert ended + lost == gone + {serial};
      }
    }

    /** check_timeout: exactly the entries past their limit are erased.  Their fibers, none of
        which was resumed before, get the timeout error as far as their copies are sound. */
    method CheckTimeout(now: nat) returns (visited: seq<nat>, copies: seq<Copied<Yielded>>)
      requires Valid()
      modifies this`ended, this`lost, yielded, yielded.elements, yielded.table
      ensures Valid()
      ensures yielded.contents == map k | k in old(yielded.contents) && now <= old(yielded.contents)[k].limit :: old(yielded.contents)[k]
      ensures
        var late := set k | k in old(yielded.contents) && now > old(yielded.contents)[k].limit;
        var serials := Serials(old(yielded.contents), late);
        && serials !! old(ended) && CopiedSerials(copies) <= serials
        && ended == old(ended) + CopiedSerials(copies) && lost == old(lost) + (serials - CopiedSerials(copies))
      ensures
        var entries := Entries(old(yielded.keys), old(yielded.elements.fromHeap), old(yielded.elements.used));
        && visited == EntryKeys(entries)
        && copies == Walk(StartPass(old(yielded.contents), old(yielded.elements.max), old(yielded.elements.use)),
                          entries, yielded.elements.expandable, TimeOut(now)).copies
    {
      hide ChainsOk, Bucketed, UniqueKeys, Stores, Located, Accounted, Serials, FreeList.Lists, Walk, CopiedSerials, NoDup, Linked,
        Visit, Entries, EntryKeys;
      ghost var before := yielded.contents;
      ghost var late := set k | k in before && now > before[k].limit;
      ghost var start := StartPass(before, yielded.elements.max, yielded.elements.use);
      EntriesCover();
      ghost var entries := Entries(yielded.keys, yielded.elements.fromHeap, yielded.elements.used);
      visited, copies := yielded.Sweep(TimeOut(now));
      OnlyErasing(start, entries, yielded.elements.expandable, TimeOut(now));
      assert yielded.contents == before - late;
      CopiesAreLate(start, entries, yielded.elements.expandable, now);
      assert late == set k | k in start.contents && now > start.contents[k].limit;
      ghost var copied := CopiedSerials(copies);
      AccountTimeOut(before, count, ended, lost, replaced, late, copied);
      ended, lost := ended + copied, lost + (Serials(before, late) - copied);
    }

    lemma EntriesCover()
      requires yielded.Valid()
      ensures forall p | p in yielded.elements.used :: p in yielded.keys
      ensures
        var ks := EntryKeys(Entries(yielded.keys, yielded.elements.fromHeap, yielded.elements.used));
        NoDup(ks) && forall k :: k in yielded.contents <==> k in ks
    {
      hide ChainsOk, Bucketed, UniqueKeys, Stores, Located, FreeList.Lists, NoDup, Entries, EntryKeys;
      yielded.UsedNoDup();
      CoverAll(yielded.keys, yielded.vals, yielded.elements.used, yielded.elements.fromHeap, yielded.contents);
    }
  }

  /** The entries of the used elements are those of the map, each once. */
  lemma CoverAll(keys: map<Ptr, nat>, vals: map<Ptr, Yielded>, used: seq<Ptr>, heap: set<Ptr>, contents: map<nat, Yielded>)
    requires Stores(keys, vals, used, contents) && UniqueKeys(keys, used) && NoDup(used)
    ensures forall p | p in used :: p in keys
    ensures var ks := EntryKeys(Entries(keys, heap, used)); NoDup(ks) && forall k :: k in contents <==> k in ks
  {
    var ks := EntryKeys(Entries(keys, heap, used));
    forall i, j | 0 <= i < j < |ks|
      ensures ks[i] != ks[j]
    {
      assert used[i] in used && used[j] in used;
    }
    forall k | k in contents
      ensures k in ks
    {
      var p := KeyHolder(keys, vals, used, contents, k);
      var i :| 0 <= i < |used| && used[i] == p;
      assert ks[i] == k;
    }
    forall k | k in ks
      ensures k in contents
    {
      var i :| 0 <= i < |ks| && ks[i] == k;
      assert used[i] in used;
    }
  }

  /** timeout_iterator: an entry past its limit is erased. */
  function TimeOut(now: nat): (nat, Yielded) -> Action<nat, Yielded> {
    (k: nat, y: Yielded) => Action(now > y.limit, [], false)
  }

  /** The yields whose values were copied soundly. */
  ghost function CopiedSerials(copies: seq<Copied<Yielded>>): set<nat> {
    set c | c in copies && c.Value? :: c.v.serial
  }

  /** Sound copies are values of entries that were past their limit. */
  lemma {:induction false} CopiesAreLate(start: Pass<nat, Yielded>, entries: seq<(nat, bool)>, expandable: bool, now: nat)
    requires start.copies == []
    ensures
      var late := set k | k in start.contents && now > start.contents[k].limit;
      CopiedSerials(Walk(start, entries, expandable, TimeOut(now)).copies) <= Serials(start.contents, late)
    ensures forall k | k in Walk(start, entries, expandable, TimeOut(now)).contents ::
      k in start.contents && Walk(start, entries, expandable, TimeOut(now)).contents[k] == start.contents[k]
  {
    var late := set k | k in start.contents && now > start.contents[k].limit;
    if entries != [] {
      var n := |entries| - 1;
      CopiesAreLate(start, entries[..n], expandable, now);
      var before, last := Walk(start, entries[..n], expandable, TimeOut(now)), entries[n];
      var after := Walk(start, entries, expandable, TimeOut(now));
      forall c | c in after.copies && c.Value?
        ensures c.v.serial in Serials(start.contents, late)
      {
        if c in before.copies {
          assert c.v.serial in CopiedSerials(before.copies);
        } else {
          assert last.0 in late && c.v == start.contents[last.0];
        }
      }
    }
  }

  ghost function Serials(contents: map<nat, Yielded>, ks: set<nat>): set<nat> {
    set k | k in ks && k in contents :: contents[k].serial
  }

  /** Erased entries, of which some were copied soundly and the others are lost. */
  lemma AccountTimeOut(contents: map<nat, Yielded>, count: nat, ended: set<nat>, lost: set<nat>, replaced: set<nat>,
                       late: set<nat>, copied: set<nat>)
    requires Accounted(contents, count, ended + lost, replaced) && ended !! lost && late <= contents.Keys
    requires copied <= Serials(contents, late)
    ensures
      var ended', lost' := ended + copied, lost + (Serials(contents, late) - copied);
      && Serials(contents, late) !! ended && ended' !! lost'
      && Accounted(contents - late, count, ended' + lost', replaced)
  {
    hide Accounted, Serials;
    AccountErase(contents, count, ended + lost, replaced, late);
    var serials := Serials(contents, late);
    assert ended + copied + (lost + (serials - copied)) == ended + lost + serials;
  }

  lemma OneSerial(contents: map<nat, Yielded>, k: nat)
    requires k in contents
    ensures Serials(contents, {k}) == {contents[k].serial}
  {
  }

  /** Every yield is in exactly one place: still pending, ended, or replaced. */
  ghost predicate Accounted(contents: map<nat, Yielded>, count: nat, ended: set<nat>, replaced: set<nat>) {
    && (forall k | k in contents :: contents[k].msgid == k && contents[k].serial < count)
    && (forall j, k | j in contents && k in contents && contents[j].serial == contents[k].serial :: j == k)
    && (forall k | k in contents :: contents[k].serial !in ended && contents[k].serial !in replaced)
    && ended !! replaced
    && (forall s | s in ended || s in replaced :: s < count)
    && (forall s | 0 <= s < count :: s in ended || s in replaced || s in Serials(contents, contents.Keys))
  }

  lemma AccountYield(contents: map<nat, Yielded>, count: nat, ended: set<nat>, replaced: set<nat>, y: Yielded)
    requires Accounted(contents, count, ended, replaced) && y.serial == count
    ensures Accounted(contents[y.msgid := y], count + 1, ended,
                      replaced + if y.msgid in contents then {contents[y.msgid].serial} else {})
  {
    var after := contents[y.msgid := y];
    var r := replaced + if y.msgid in contents then {contents[y.msgid].serial} else {};
    forall s | 0 <= s < count + 1
      ensures s in ended || s in r || s in Serials(after, after.Keys)
    {
      if s == count {
        assert after[y.msgid].serial == s;
      } else if s !in ended && s !in replaced {
        var k :| k in contents && contents[k].serial == s;
        if k != y.msgid { assert k in after && after[k].serial == s; }
      }
    }
  }

  lemma AccountErase(contents: map<nat, Yielded>, count: nat, ended: set<nat>, replaced: set<nat>, ks: set<nat>)
    requires Accounted(contents, count, ended, replaced) && ks <= contents.Keys
    ensures Serials(contents, ks) !! ended
    ensures Accounted(contents - ks, count, ended + Serials(contents, ks), replaced)
  {
    var after := contents - ks;
    forall s | 0 <= s < count
      ensures s in ended + Serials(contents, ks) || s in replaced || s in Serials(after, after.Keys)
    {
      if s !in ended && s !in replaced {
        var k :| k in contents && contents[k].serial == s;
        assert k in ks || k in after;
      }
    }
  }
}
