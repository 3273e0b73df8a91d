/**
 The pool as it is used (kv_block_pool.rs): the object that is updated in place, and the reference-counted
 handles whose last owner gives a slot back.
 */
module KvBlockHandles {
  import opened Collections
  import opened KvBlockPool
  import opened KvBlockPlan

  function EmptyPool(n: nat): Pool {
    Pool(seq(n, _ => EMPTY_BLOCK), Ids(n))
  }

  lemma EmptyPoolInv(n: nat)
    ensures Inv(EmptyPool(n))
  {
    forall id: nat
      ensures BlockOk(Block(EmptyPool(n), id)) && FreeOk(EmptyPool(n), id)
    {
      if 1 <= id <= n {
        assert Ids(n)[id - 1] == id;
      }
    }
  }

  class BlockPool {
    var blocks: seq<LcmBlock>
    var free: seq<nat>

    function View(): Pool
      reads this
    {
      Pool(blocks, free)
    }

    ghost predicate Valid()
      reads this
    {
      Inv(View())
    }

    constructor (numLcmBlocks: nat)
      ensures Valid() && View() == EmptyPool(numLcmBlocks)
      ensures |free| == |blocks| == numLcmBlocks && forall i :: 0 <= i < numLcmBlocks ==> free[i] == i + 1
    {
      free := Ids(numLcmBlocks);
      blocks := seq(numLcmBlocks, _ => EMPTY_BLOCK);
      EmptyPoolInv(numLcmBlocks);
    }

    /** Commits one planned location; its preconditions are the assertions of the original. */
    method Occupy(group: Group, slots: nat, loc: Location)
      requires Valid() && CanOccupy(View(), group, slots, loc)
      modifies this
      ensures Valid() && View() == Occupied(old(View()), group, slots, loc)
      ensures Block(View(), loc.parent).boundGroup == Some(group)
      ensures forall o :: IsOccupied(View(), o) <==> o == loc || IsOccupied(old(View()), o)
      ensures free == if old(Block(View(), loc.parent)).occupiedCount == 0 then old(free)[1..] else old(free)
    {
      OccupyKeepsInv(View(), group, slots, loc);
      var parent := blocks[loc.parent - 1];
      if parent.occupiedCount == 0 {
        parent := LcmBlock(Some(group), Vacant(slots), 0);
        free := free[1..];
      }
      parent := LcmBlock(Some(group), parent.occupancy[loc.slot := true], parent.occupiedCount + 1);
      blocks := blocks[loc.parent - 1 := parent];
    }

    /** Gives a slot back; the last slot of a parent sends the parent to the end of the free queue. */
    method Release(loc: Location)
      requires Valid() && IsOccupied(View(), loc)
      modifies this
      ensures Valid() && View() == Released(old(View()), loc)
      ensures |free| <= |blocks|
      ensures forall o :: IsOccupied(View(), o) <==> o != loc && IsOccupied(old(View()), o)
      ensures free == if old(Block(View(), loc.parent)).occupiedCount == 1 then old(free) + [loc.parent] else old(free)
    {
      ReleaseKeepsInv(View(), loc);
      FreeQueueFits(View(), loc);
      forall o
        ensures IsOccupied(Released(View(), loc), o) <==> o != loc && IsOccupied(View(), o)
      {
        ReleasedSlot(View(), loc, o);
      }
      var parent := blocks[loc.parent - 1];
      parent := LcmBlock(parent.boundGroup, parent.occupancy[loc.slot := false], parent.occupiedCount - 1);
      if parent.occupiedCount == 0 {
        parent := EMPTY_BLOCK;
        free := free + [loc.parent];
      }
      blocks := blocks[loc.parent - 1 := parent];
    }

    method PlanLocations(group: Group, slots: nat, count: nat) returns (locations: seq<Location>)
      requires Valid() && PackedAs(View(), group, slots)
      ensures locations == PlanOf(View(), group, slots, count)
    {
      var partial := CollectPartial(group);
      partial := SortForUse(partial);
      PartialOrderFound(View(), group, partial);
      locations := TakePartial(partial, count, FreshSlots(free, slots));
      if |locations| == count {
        return;
      }
      locations := TakeFree(locations, slots, count, Candidates(View(), partial, slots));
      if |locations| == count {
        return;
      }
      return [];
    }

    /** Fills the partially occupied parents first, in order of use. */
    method TakePartial(partial: seq<nat>, count: nat, ghost unbound: seq<Location>)
      returns (locations: seq<Location>)
      requires forall id :: id in partial ==> HasParent(View(), id)
      ensures Taken(VacantIn(View(), partial) + unbound, locations, unbound, count)
    {
      locations := [];
      ghost var all := VacantIn(View(), partial) + unbound;
      assert partial[0..] == partial;
      for i := 0 to |partial|
        invariant Taking(all, locations, VacantIn(View(), partial[i..]) + unbound, count)
      {
        assert partial[i] in partial;
        ghost var was, row := locations, VacantSlots(partial[i], Block(View(), partial[i]).occupancy, 0);
        locations := PushVacant(locations, partial[i], blocks[partial[i] - 1].occupancy, count);
        assert partial[i..][1..] == partial[i + 1..];
        TakeRow(all, was, row, VacantIn(View(), partial[i + 1..]), unbound, count, locations);
        if |locations| == count {
          return;
        }
      }
    }

    /** Consumes free parents from the front of the queue. */
    method TakeFree(taken: seq<Location>, slots: nat, count: nat, ghost all: seq<Location>)
      returns (locations: seq<Location>)
      requires Taking(all, taken, FreshSlots(free, slots), count)
      ensures Taken(all, locations, [], count)
    {
      locations := taken;
      assert free[0..] == free;
      for i := 0 to |free|
        invariant Taking(all, locations, FreshSlots(free[i..], slots), count)
      {
        ghost var was, row := locations, VacantSlots(free[i], Vacant(slots), 0);
        locations := PushFresh(locations, free[i], slots, count);
        assert free[i..][1..] == free[i + 1..];
        assert row + FreshSlots(free[i + 1..], slots) + [] == row + FreshSlots(free[i + 1..], slots);
        TakeRow(all, was, row, FreshSlots(free[i + 1..], slots), [], count, locations);
        assert FreshSlots(free[i + 1..], slots) + [] == FreshSlots(free[i + 1..], slots);
        if |locations| == count {
          return;
        }
      }
    }

    /** The group's parents with vacant slots, by ascending id. */
    method CollectPartial(group: Group) returns (partial: seq<nat>)
      ensures Distinct(partial)
      ensures forall id: nat :: id in partial <==> IsPartial(View(), group, id)
    {
      partial := [];
      for index := 0 to |blocks|
        invariant Distinct(partial)
        invariant forall id: nat :: id in partial <==> id <= index && IsPartial(View(), group, id)
      {
        var parent := blocks[index];
        if parent.boundGroup == Some(group) && parent.occupiedCount < |parent.occupancy| {
          DistinctSnoc(partial, index + 1);
          partial := partial + [index + 1];
        }
      }
    }

    /** Sorts parents by descending occupancy, then ascending id. */
    method SortForUse(ids: seq<nat>) returns (sorted: seq<nat>)
      requires Distinct(ids)
      ensures SortedIds(View(), sorted)
      ensures forall id :: id in sorted <==> id in ids
    {
      sorted := [];
      for i := 0 to |ids|
        invariant SortedIds(View(), sorted)
        invariant forall id :: id in sorted <==> id in ids[..i]
      {
        InsertIdSorted(View(), sorted, ids[i]);
        sorted := InsertId(View(), sorted, ids[i]);
        assert ids[..i + 1] == ids[..i] + [ids[i]];
      }
      assert ids[..|ids|] == ids;
    }

    /**
     All or nothing: exactly `num` distinct slots, none of them in use before, if and only if the group's
     vacant slots and the free parents cover the request; otherwise nothing changes.
     */
    method AcquireBlocks(group: Group, slots: nat, num: nat) returns (locations: seq<Location>)
      requires Valid() && slots > 0 && PackedAs(View(), group, slots)
      modifies this
      ensures Valid() && PackedAs(View(), group, slots)
      ensures locations == PlanOf(old(View()), group, slots, num)
      ensures |locations| == if num <= Available(old(View()), group, slots) then num else 0
      ensures Commits(old(View()), group, slots, locations)
      ensures View() == Committed(old(View()), group, slots, locations)
      ensures Distinct(locations) && forall loc :: loc in locations ==> !IsOccupied(old(View()), loc)
    {
      ghost var before := View();
      PlanFits(before, group, slots, num);
      locations := [];
      if num == 0 {
        return;
      }
      var plan := PlanLocations(group, slots, num);
      if |plan| != num {
        return;
      }
      CommitAll(group, slots, plan);
      locations := plan;
    }

    /** Commits a plan slot by slot: no assertion of `Occupy` fires on the way. */
    method CommitAll(group: Group, slots: nat, plan: seq<Location>)
      requires Valid() && Commits(View(), group, slots, plan)
      modifies this
      ensures Valid() && View() == Committed(old(View()), group, slots, plan)
    {
      assert plan[0..] == plan;
      for i := 0 to |plan|
        invariant Valid() && Commits(View(), group, slots, plan[i..])
        invariant Committed(View(), group, slots, plan[i..]) == Committed(old(View()), group, slots, plan)
      {
        assert plan[i..][0] == plan[i] && plan[i..][1..] == plan[i + 1..];
        Occupy(group, slots, plan[i]);
      }
    }
  }

  /** A plan in the making: what was taken and what is left make up all candidates. */
  ghost predicate Taking(all: seq<Location>, taken: seq<Location>, rest: seq<Location>, count: nat) {
    && all == taken + rest
    && (|taken| < count || taken == [])
  }

  /** The plan is complete, or everything but `rest` has been taken. */
  ghost predicate Taken(all: seq<Location>, taken: seq<Location>, rest: seq<Location>, count: nat) {
    if |taken| == count then count <= |all| && taken == all[..count] else Taking(all, taken, rest, count)
  }

  lemma TakeRow(all: seq<Location>, taken: seq<Location>, row: seq<Location>, mid: seq<Location>, end: seq<Location>,
                count: nat, next: seq<Location>)
    requires Taking(all, taken, (row + mid) + end, count)
    requires next == if |taken + row| < count then taken + row else (taken + row)[..count]
    ensures Taken(all, next, mid + end, count)
  {
  }

  /** Appends the vacant slots of one parent, stopping at `count` locations. */
  method PushVacant(locations: seq<Location>, id: nat, occupancy: seq<bool>, count: nat) returns (r: seq<Location>)
    requires |locations| < count || locations == []
    ensures var all := locations + VacantSlots(id, occupancy, 0);
            r == if |all| < count then all else all[..count]
  {
    r := locations;
    for slot := 0 to |occupancy|
      invariant |r| <= count
      invariant r + VacantSlots(id, occupancy, slot) == locations + VacantSlots(id, occupancy, 0)
    {
      if |r| == count {
        break;
      }
      if !occupancy[slot] {
        r := r + [Location(id, slot)];
      }
    }
  }

  /** Appends all slots of a free parent, stopping at `count` locations. */
  method PushFresh(locations: seq<Location>, id: nat, slots: nat, count: nat) returns (r: seq<Location>)
    requires |locations| < count || locations == []
    ensures var all := locations + VacantSlots(id, Vacant(slots), 0);
            r == if |all| < count then all else all[..count]
  {
    r := locations;
    for slot := 0 to slots
      invariant |r| <= count
      invariant r + VacantSlots(id, Vacant(slots), slot) == locations + VacantSlots(id, Vacant(slots), 0)
    {
      if |r| == count {
        break;
      }
      r := r + [Location(id, slot)];
    }
  }

  lemma PartialOrderFound(p: Pool, group: Group, ids: seq<nat>)
    requires SortedIds(p, ids) && forall id: nat :: id in ids <==> IsPartial(p, group, id)
    ensures ids == PartialOrder(p, group)
    ensures forall id :: id in ids ==> HasParent(p, id)
  {
    forall id
      ensures ListsPartial(p, group, ids, id)
    {
    }
    PartialOrderIs(p, group);
    PartialIdsUnique(p, group, ids, PartialOrder(p, group));
  }

  lemma PlanFits(p: Pool, group: Group, slots: nat, num: nat)
    requires Inv(p) && PackedAs(p, group, slots) && slots > 0
    ensures var plan := PlanOf(p, group, slots, num);
            && |plan| == (if num <= Available(p, group, slots) then num else 0)
            && Commits(p, group, slots, plan)
            && Inv(Committed(p, group, slots, plan)) && PackedAs(Committed(p, group, slots, plan), group, slots)
            && Distinct(plan) && forall loc :: loc in plan ==> !IsOccupied(p, loc)
  {
    var ids, plan := PartialOrder(p, group), PlanOf(p, group, slots, num);
    PartialOrderIs(p, group);
    CandidatesAre(p, group, slots, ids);
    if num <= Available(p, group, slots) {
      var next := PlanCommits(p, group, slots, ids, num);
    }
    forall loc | loc in plan
      ensures !IsOccupied(p, loc)
    {
      assert loc in Candidates(p, ids, slots);
      assert FreeOk(p, loc.parent) && BlockOk(Block(p, loc.parent));
    }
  }
}
