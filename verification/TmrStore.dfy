/**
 Triple modular redundancy: `src/TmrStore.hpp`. The mutex makes each call one step.
 */
module TmrStore {
  import opened Wrappers

  const MAX_TMR_ENTRIES := 64

  function Vote<T(==)>(copies: seq<T>): T
    requires |copies| == 3
  {
    if copies[0] == copies[1] then copies[0]
    else if copies[1] == copies[2] then copies[1]
    else if copies[0] == copies[2] then copies[0]
    else copies[0]
  }

  /** The copies after a read or a scrub. */
  function Healed<T(==)>(copies: seq<T>): (r: seq<T>)
    ensures |r| == |copies|
    ensures |copies| == 3 ==> r == [Vote(copies), Vote(copies), Vote(copies)]
  {
    if |copies| == 3 then [Vote(copies), Vote(copies), Vote(copies)] else copies
  }

  /** How many of the three copies hold `v`. */
  function Support<T(==)>(copies: seq<T>, v: T): nat
    requires |copies| == 3
  {
    (if copies[0] == v then 1 else 0) + (if copies[1] == v then 1 else 0) + (if copies[2] == v then 1 else 0)
  }

  /** The vote is the majority whenever there is one, and the first copy when there is none. */
  lemma {:induction false} VoteIsMajority<T>(copies: seq<T>, v: T)
    requires |copies| == 3
    ensures Support(copies, v) >= 2 ==> Vote(copies) == v
    ensures Support(copies, Vote(copies)) < 2 ==> Vote(copies) == copies[0]
  {
  }

  /** Any corruption of any one copy of an agreeing store is outvoted. */
  lemma {:induction false} SingleUpsetHealed<T>(v: T, i: nat, bad: T)
    requires i < 3
    ensures Vote([v, v, v][i := bad]) == v
  {
  }

  class Store<T(==)> {
    var copies: seq<T>

    ghost predicate Valid()
      reads this
    {
      |copies| == 3
    }

    constructor (initial: T)
      ensures Valid() && copies == [initial, initial, initial]
    {
      copies := [initial, initial, initial];
    }

    method Write(v: T)
      requires Valid()
      modifies this
      ensures copies == [v, v, v]
    {
      copies := [v, v, v];
    }

    method Read() returns (v: T)
      requires Valid()
      modifies this
      ensures v == Vote(old(copies)) && copies == [v, v, v]
    {
      v := Vote(copies);
      copies := [v, v, v];
    }

    predicate IsSane()
      requires Valid()
      reads this
    {
      copies[0] == copies[1] && copies[1] == copies[2]
    }

    method Scrub()
      requires Valid()
      modifies this
      ensures copies == Healed(old(copies))
    {
      if !IsSane() {
        var v := Vote(copies);
        copies := [v, v, v];
      }
    }
  }

  class Registry<T(==)> {
    var entries: seq<Store<T>>

    ghost predicate Valid()
      reads this
    {
      |entries| <= MAX_TMR_ENTRIES && forall i, j :: 0 <= i < j < |entries| ==> entries[i] != entries[j]
    }

    constructor ()
      ensures Valid() && entries == []
    {
      entries := [];
    }

    /** Incomplete and repeated registrations are ignored, and so is one too many. */
    method Register(named: bool, store: Store?<T>, hasScrub: bool)
      requires Valid()
      modifies this
      ensures Valid()
      ensures entries == if named && store != null && hasScrub && store !in old(entries)
                            && |old(entries)| < MAX_TMR_ENTRIES
                         then old(entries) + [store] else old(entries)
    {
      if !named || store == null || !hasScrub {
        return;
      }
      for i := 0 to |entries|
        invariant forall k :: 0 <= k < i ==> entries[k] != store
        invariant entries == old(entries)
      {
        if entries[i] == store {
          return;
        }
      }
      if |entries| < MAX_TMR_ENTRIES {
        entries := entries + [store];
      }
    }

    /** Swap-with-last removal: the others stay registered, though not in their old places. */
    method Unregister(store: Store?<T>)
      requires Valid()
      modifies this
      ensures Valid()
      ensures forall s :: s in entries <==> s in old(entries) && s != store
    {
      if store == null || |entries| == 0 {
        return;
      }
      for i := 0 to |entries|
        invariant forall k :: 0 <= k < i ==> entries[k] != store
        invariant entries == old(entries)
      {
        if entries[i] == store {
          var last := |entries| - 1;
          ghost var before := entries;
          entries := entries[i := entries[last]][..last];
          assert forall k :: 0 <= k < last ==> entries[k] == before[if k == i then last else k];
          forall s ensures s in entries <==> s in before && s != store {
            if s in before && s != store {
              var k :| 0 <= k < |before| && before[k] == s;
              assert entries[if k == last then i else k] == s;
            }
          }
          return;
        }
      }
    }

    /** Every registered store agrees afterwards, on what it would have voted before. */
    method ScrubAll()
      requires Valid() && forall s :: s in entries ==> s.Valid()
      modifies entries
      ensures forall s :: s in entries ==>
        s.Valid() && s.copies == Healed(old(s.copies))
    {
      for i := 0 to |entries|
        invariant forall k :: 0 <= k < |entries| ==> entries[k].Valid()
        invariant forall k :: 0 <= k < i ==> entries[k].copies == Healed(old(entries[k].copies))
        invariant forall k :: i <= k < |entries| ==> entries[k].copies == old(entries[k].copies)
      {
        entries[i].Scrub();
      }
    }
  }
}
