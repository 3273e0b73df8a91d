/**
 Planning and committing in the LCM block pool (kv_block_pool.rs): what a plan contains, that it always
 commits, how much it can serve, and that it binds as few new parents as possible.
 */
module KvBlockPlan {
  import opened Arithmetic
  import opened Collections
  import opened KvBlockPool

  // ----- which locations are candidates

  /** A vacant slot of a parent that the group already owns. */
  predicate GroupVacant(p: Pool, group: Group, loc: Location) {
    var b := Block(p, loc.parent);
    b.boundGroup == Some(group) && loc.slot < |b.occupancy| && !b.occupancy[loc.slot]
  }

  /** A slot of a parent that the group could still bind. */
  predicate FreshSlot(p: Pool, slots: nat, loc: Location) {
    loc.parent in p.free && loc.slot < slots
  }

  ghost function VacantSet(p: Pool, group: Group): set<Location> {
    set id: nat, slot: nat {:trigger Location(id, slot)}
      | id < |p.blocks| + 1 && slot < |Block(p, id).occupancy| && GroupVacant(p, group, Location(id, slot))
      :: Location(id, slot)
  }

  /** How many blocks the group can be given: its vacant slots plus every slot of the free parents. */
  ghost function Available(p: Pool, group: Group, slots: nat): nat {
    |VacantSet(p, group)| + |p.free| * slots
  }

  lemma VacantSetHas(p: Pool, group: Group, loc: Location)
    ensures loc in VacantSet(p, group) <==> GroupVacant(p, group, loc)
  {
    if GroupVacant(p, group, loc) {
      assert HasParent(p, loc.parent);
      assert Location(loc.parent, loc.slot) == loc;
    }
  }

  lemma {:induction false} VacantInHas(p: Pool, ids: seq<nat>, loc: Location)
    ensures loc in VacantIn(p, ids) <==>
              && loc.parent in ids && loc.slot < |Block(p, loc.parent).occupancy|
              && !Block(p, loc.parent).occupancy[loc.slot]
  {
    if ids != [] {
      VacantSlotsAre(ids[0], Block(p, ids[0]).occupancy, 0, loc);
      VacantInHas(p, ids[1..], loc);
      assert loc.parent in ids <==> loc.parent == ids[0] || loc.parent in ids[1..];
    }
  }

  lemma {:induction false} FreshSlotsHas(ids: seq<nat>, slots: nat, loc: Location)
    ensures loc in FreshSlots(ids, slots) <==> loc.parent in ids && loc.slot < slots
  {
    if ids != [] {
      VacantSlotsAre(ids[0], Vacant(slots), 0, loc);
      FreshSlotsHas(ids[1..], slots, loc);
      assert loc.parent in ids <==> loc.parent == ids[0] || loc.parent in ids[1..];
    }
  }

  lemma {:induction false} VacantInDistinct(p: Pool, ids: seq<nat>)
    requires Distinct(ids)
    ensures Distinct(VacantIn(p, ids))
  {
    if ids != [] {
      var row, rest := VacantSlots(ids[0], Block(p, ids[0]).occupancy, 0), VacantIn(p, ids[1..]);
      VacantSlotsDistinct(ids[0], Block(p, ids[0]).occupancy, 0);
      VacantInDistinct(p, ids[1..]);
      forall loc | loc in row
        ensures loc !in rest
      {
        VacantSlotsAre(ids[0], Block(p, ids[0]).occupancy, 0, loc);
        VacantInHas(p, ids[1..], loc);
      }
      DistinctConcat(row, rest);
    }
  }

  lemma {:induction false} FreshSlotsDistinct(ids: seq<nat>, slots: nat)
    requires Distinct(ids)
    ensures Distinct(FreshSlots(ids, slots)) && |FreshSlots(ids, slots)| == |ids| * slots
  {
    if ids != [] {
      var row, rest := VacantSlots(ids[0], Vacant(slots), 0), FreshSlots(ids[1..], slots);
      VacantSlotsDistinct(ids[0], Vacant(slots), 0);
      assert Vacant(slots)[0..] == Vacant(slots);
      CountVacant(slots);
      FreshSlotsDistinct(ids[1..], slots);
      forall loc | loc in row
        ensures loc !in rest
      {
        VacantSlotsAre(ids[0], Vacant(slots), 0, loc);
        FreshSlotsHas(ids[1..], slots, loc);
      }
      DistinctConcat(row, rest);
      assert |ids| * slots == slots + |ids[1..]| * slots;
    }
  }

  lemma SortedIdsDistinct(p: Pool, ids: seq<nat>)
    requires SortedIds(p, ids)
    ensures Distinct(ids)
  {
    forall i, j | 0 <= i < j < |ids|
      ensures ids[i] != ids[j]
    {
      assert Before(p, ids[i], ids[j]);
    }
  }

  lemma PartialAreVacant(p: Pool, group: Group, ids: seq<nat>, loc: Location)
    requires Inv(p) && PartialIds(p, group, ids)
    ensures loc in VacantIn(p, ids) <==> GroupVacant(p, group, loc)
  {
    VacantInHas(p, ids, loc);
    assert ListsPartial(p, group, ids, loc.parent) && BlockOk(Block(p, loc.parent));
    if GroupVacant(p, group, loc) {
      CountSet(Block(p, loc.parent).occupancy, loc.slot);
    }
  }

  /** The candidates are exactly the slots that the group can be given, each one once. */
  lemma CandidatesAre(p: Pool, group: Group, slots: nat, ids: seq<nat>)
    requires Inv(p) && PartialIds(p, group, ids)
    ensures forall loc :: loc in Candidates(p, ids, slots) <==> GroupVacant(p, group, loc) || FreshSlot(p, slots, loc)
    ensures Distinct(Candidates(p, ids, slots))
    ensures |VacantIn(p, ids)| == |VacantSet(p, group)|
    ensures |Candidates(p, ids, slots)| == Available(p, group, slots)
  {
    var vacant, unbound := VacantIn(p, ids), FreshSlots(p.free, slots);
    SortedIdsDistinct(p, ids);
    VacantInDistinct(p, ids);
    FreshSlotsDistinct(p.free, slots);
    forall loc
      ensures loc in vacant <==> GroupVacant(p, group, loc)
      ensures loc in vacant <==> loc in VacantSet(p, group)
      ensures loc in unbound <==> FreshSlot(p, slots, loc)
      ensures loc in vacant ==> loc !in unbound
    {
      PartialAreVacant(p, group, ids, loc);
      VacantSetHas(p, group, loc);
      FreshSlotsHas(p.free, slots, loc);
      assert FreeOk(p, loc.parent) && BlockOk(Block(p, loc.parent));
    }
    DistinctConcat(vacant, unbound);
    assert ToSet(vacant) == VacantSet(p, group);
    ToSetSize(vacant);
  }

  // ----- the plan

  /** Puts a parent id into a list that is in order of use. */
  function InsertId(p: Pool, ids: seq<nat>, id: nat): seq<nat> {
    if ids == [] || Before(p, id, ids[0]) then [id] + ids else [ids[0]] + InsertId(p, ids[1..], id)
  }

  function PartialUpTo(p: Pool, group: Group, n: nat): seq<nat> {
    if n == 0 then []
    else if IsPartial(p, group, n) then InsertId(p, PartialUpTo(p, group, n - 1), n)
    else PartialUpTo(p, group, n - 1)
  }

  /** The group's partially filled parents in order of use. */
  function PartialOrder(p: Pool, group: Group): seq<nat> {
    PartialUpTo(p, group, |p.blocks|)
  }

  lemma {:induction false} InsertIdSorted(p: Pool, ids: seq<nat>, id: nat)
    requires SortedIds(p, ids) && id !in ids
    ensures SortedIds(p, InsertId(p, ids, id))
    ensures forall x :: x in InsertId(p, ids, id) <==> x == id || x in ids
  {
    var r := InsertId(p, ids, id);
    if ids == [] {
    } else if Before(p, id, ids[0]) {
      assert forall i :: 0 < i < |ids| ==> Before(p, ids[0], ids[i]);
    } else {
      InsertIdSorted(p, ids[1..], id);
      assert ids == [ids[0]] + ids[1..];
      forall i | 0 < i < |r|
        ensures Before(p, r[0], r[i])
      {
        assert r[i] in InsertId(p, ids[1..], id);
        if r[i] != id {
          var k :| 0 < k < |ids| && ids[k] == r[i];
        } else {
          assert ids[0] in ids;
        }
      }
    }
  }

  lemma {:induction false} PartialUpToIs(p: Pool, group: Group, n: nat)
    requires n <= |p.blocks|
    ensures SortedIds(p, PartialUpTo(p, group, n))
    ensures forall id: nat :: id in PartialUpTo(p, group, n) <==> id <= n && IsPartial(p, group, id)
  {
    if n > 0 {
      PartialUpToIs(p, group, n - 1);
      if IsPartial(p, group, n) {
        InsertIdSorted(p, PartialUpTo(p, group, n - 1), n);
      }
    }
  }

  lemma PartialOrderIs(p: Pool, group: Group)
    ensures PartialIds(p, group, PartialOrder(p, group))
  {
    PartialUpToIs(p, group, |p.blocks|);
    forall id
      ensures ListsPartial(p, group, PartialOrder(p, group), id)
    {
    }
  }

  /** The first `count` candidates, or nothing when there are not that many. */
  function PlanOf(p: Pool, group: Group, slots: nat, count: nat): seq<Location> {
    var c := Candidates(p, PartialOrder(p, group), slots);
    if count <= |c| then c[..count] else []
  }

  // ----- the order of a plan

  lemma {:induction false} SlotsInOrder(id: nat, occupancy: seq<bool>, from: nat, k: nat, slot: nat)
    requires k < |VacantSlots(id, occupancy, from)|
    requires from <= slot < VacantSlots(id, occupancy, from)[k].slot && slot < |occupancy| && !occupancy[slot]
    ensures Location(id, slot) in VacantSlots(id, occupancy, from)[..k]
    decreases |occupancy| - from
  {
    var all := VacantSlots(id, occupancy, from);
    if occupancy[from] {
      assert all == VacantSlots(id, occupancy, from + 1);
      SlotsInOrder(id, occupancy, from + 1, k, slot);
    } else if slot == from {
      assert all[0] == Location(id, from) && k > 0;
      assert all[..k][0] == all[0];
    } else {
      SlotsInOrder(id, occupancy, from + 1, k - 1, slot);
      assert all[..k] == [Location(id, from)] + VacantSlots(id, occupancy, from + 1)[..k - 1];
    }
  }

  /** What comes before the head of a row is in the rows in front of it. */
  lemma RowThenRest(row: seq<Location>, rest: seq<Location>, k: nat, a: Location)
    requires k <= |row + rest|
    requires k <= |row| ==> a in row[..k]
    requires k > |row| ==> a in row || a in rest[..k - |row|]
    ensures a in (row + rest)[..k]
  {
    if k <= |row| {
      assert (row + rest)[..k] == row[..k];
    } else {
      assert (row + rest)[..k] == row + rest[..k - |row|];
    }
  }

  /** Slot `a` of the `x`-th parent comes before the `k`-th slot, of the `y`-th parent. */
  lemma {:induction false} VacantInOrder(p: Pool, ids: seq<nat>, k: nat, a: Location, x: nat, y: nat)
    requires Distinct(ids) && k < |VacantIn(p, ids)| && x <= y < |ids|
    requires ids[x] == a.parent && ids[y] == VacantIn(p, ids)[k].parent
    requires a.slot < |Block(p, a.parent).occupancy| && !Block(p, a.parent).occupancy[a.slot]
    requires x == y ==> a.slot < VacantIn(p, ids)[k].slot
    ensures a in VacantIn(p, ids)[..k]
  {
    var occupancy := Block(p, ids[0]).occupancy;
    var row, rest := VacantSlots(ids[0], occupancy, 0), VacantIn(p, ids[1..]);
    assert Location(a.parent, a.slot) == a;
    if k < |row| {
      VacantSlotsAre(ids[0], occupancy, 0, row[k]);
      SlotsInOrder(ids[0], occupancy, 0, k, a.slot);
    } else {
      assert rest[k - |row|] in rest;
      VacantInHas(p, ids[1..], rest[k - |row|]);
      if x == 0 {
        VacantSlotsAre(ids[0], occupancy, 0, a);
      } else {
        VacantInOrder(p, ids[1..], k - |row|, a, x - 1, y - 1);
      }
    }
    if k == |row| && x == 0 {
      assert row[..k] == row;
    }
    RowThenRest(row, rest, k, a);
  }

  lemma {:induction false} FreshInOrder(ids: seq<nat>, slots: nat, k: nat, a: Location, x: nat, y: nat)
    requires Distinct(ids) && k < |FreshSlots(ids, slots)| && x <= y < |ids| && a.slot < slots
    requires ids[x] == a.parent && ids[y] == FreshSlots(ids, slots)[k].parent
    requires x == y ==> a.slot < FreshSlots(ids, slots)[k].slot
    ensures a in FreshSlots(ids, slots)[..k]
  {
    var row, rest := VacantSlots(ids[0], Vacant(slots), 0), FreshSlots(ids[1..], slots);
    assert Location(a.parent, a.slot) == a;
    if k < |row| {
      VacantSlotsAre(ids[0], Vacant(slots), 0, row[k]);
      SlotsInOrder(ids[0], Vacant(slots), 0, k, a.slot);
    } else {
      assert rest[k - |row|] in rest;
      FreshSlotsHas(ids[1..], slots, rest[k - |row|]);
      if x == 0 {
        VacantSlotsAre(ids[0], Vacant(slots), 0, a);
      } else {
        FreshInOrder(ids[1..], slots, k - |row|, a, x - 1, y - 1);
      }
    }
    if k == |row| && x == 0 {
      assert row[..k] == row;
    }
    RowThenRest(row, rest, k, a);
  }

  /**
   What a plan uses first. When it holds a slot, everything in front of it has been taken before: of a parent of the
   group, the vacant slots of every other one with more occupied slots, or as many and a lower id, and the vacant slots
   below it; of a free parent, all vacant slots of the group, and the free parents in front of it in the queue.
   */
  lemma PlanOrder(p: Pool, group: Group, slots: nat, n: nat, k: nat, a: Location)
    requires Inv(p) && PackedAs(p, group, slots) && slots > 0 && k < |PlanOf(p, group, slots, n)|
    ensures var plan, b := PlanOf(p, group, slots, n), PlanOf(p, group, slots, n)[k];
            && (GroupVacant(p, group, b) || FreshSlot(p, slots, b))
            && (GroupVacant(p, group, a) && a.parent != b.parent && GroupVacant(p, group, b)
                && Block(p, a.parent).occupiedCount > Block(p, b.parent).occupiedCount
                ==> a in plan[..k])
            && (GroupVacant(p, group, a) && a.parent < b.parent && GroupVacant(p, group, b)
                && Block(p, a.parent).occupiedCount == Block(p, b.parent).occupiedCount
                ==> a in plan[..k])
            && (GroupVacant(p, group, a) && a.parent == b.parent && a.slot < b.slot ==> a in plan[..k])
            && (GroupVacant(p, group, a) && b.parent in p.free ==> a in plan[..k])
            && (FreshSlot(p, slots, a) && a.parent == b.parent && a.slot < b.slot ==> a in plan[..k])
            && (forall x, y :: 0 <= x < y < |p.free| && p.free[x] == a.parent && p.free[y] == b.parent ==>
                  (a.slot < slots ==> a in plan[..k]))
  {
    var ids := PartialOrder(p, group);
    PartialOrderIs(p, group);
    CandidatesAre(p, group, slots, ids);
    SortedIdsDistinct(p, ids);
    var vacant, unbound, plan := VacantIn(p, ids), FreshSlots(p.free, slots), PlanOf(p, group, slots, n);
    var b := plan[k];
    assert b in plan && b == Candidates(p, ids, slots)[k] && b in Candidates(p, ids, slots);
    PartialAreVacant(p, group, ids, a);
    PartialAreVacant(p, group, ids, b);
    assert FreeOk(p, b.parent) && BlockOk(Block(p, b.parent)) && FreeOk(p, a.parent) && BlockOk(Block(p, a.parent));
    if k < |vacant| {
      PlanOrderVacant(p, group, slots, ids, n, k, a);
    } else {
      PlanOrderFresh(p, group, slots, ids, n, k, a);
    }
  }

  lemma UsedFirst(p: Pool, ids: seq<nat>, x: nat, y: nat)
    requires SortedIds(p, ids) && x < |ids| && y < |ids| && (ids[x] == ids[y] || Before(p, ids[x], ids[y]))
    ensures x <= y
  {
    assert x <= y || Before(p, ids[y], ids[x]);
  }

  lemma PlanOrderVacant(p: Pool, group: Group, slots: nat, ids: seq<nat>, n: nat, k: nat, a: Location)
    requires Inv(p) && PartialIds(p, group, ids) && k < |VacantIn(p, ids)| && k < n <= |Candidates(p, ids, slots)|
    ensures var b := VacantIn(p, ids)[k];
            && GroupVacant(p, group, b) && HasParent(p, b.parent) && b.parent !in p.free
            && (GroupVacant(p, group, a)
                && (if a.parent == b.parent then a.slot < b.slot else Before(p, a.parent, b.parent))
                ==> a in Candidates(p, ids, slots)[..n][..k])
  {
    var vacant := VacantIn(p, ids);
    var b := vacant[k];
    assert b in vacant;
    PartialAreVacant(p, group, ids, a);
    PartialAreVacant(p, group, ids, b);
    VacantInHas(p, ids, a);
    VacantInHas(p, ids, b);
    assert FreeOk(p, b.parent) && BlockOk(Block(p, b.parent));
    if GroupVacant(p, group, a) && (if a.parent == b.parent then a.slot < b.slot else Before(p, a.parent, b.parent)) {
      SortedIdsDistinct(p, ids);
      var x :| 0 <= x < |ids| && ids[x] == a.parent;
      var y :| 0 <= y < |ids| && ids[y] == b.parent;
      UsedFirst(p, ids, x, y);
      VacantInOrder(p, ids, k, a, x, y);
      assert Candidates(p, ids, slots)[..n][..k] == vacant[..k];
    }
  }

  lemma PlanOrderFresh(p: Pool, group: Group, slots: nat, ids: seq<nat>, n: nat, k: nat, a: Location)
    requires Inv(p) && PartialIds(p, group, ids)
    requires |VacantIn(p, ids)| <= k < n <= |Candidates(p, ids, slots)|
    ensures var b := Candidates(p, ids, slots)[k];
            && b.parent in p.free && HasParent(p, b.parent) && Block(p, b.parent).boundGroup.None?
            && (GroupVacant(p, group, a) ==> a in Candidates(p, ids, slots)[..n][..k])
            && (forall x, y :: 0 <= x <= y < |p.free| && p.free[x] == a.parent && p.free[y] == b.parent ==>
                  (a.slot < slots && (x == y ==> a.slot < b.slot) ==> a in Candidates(p, ids, slots)[..n][..k]))
  {
    var vacant, unbound := VacantIn(p, ids), FreshSlots(p.free, slots);
    var j, b := k - |vacant|, Candidates(p, ids, slots)[k];
    assert b == unbound[j] && b in unbound;
    FreshSlotsHas(p.free, slots, b);
    assert FreeOk(p, b.parent) && BlockOk(Block(p, b.parent));
    assert Candidates(p, ids, slots)[..n][..k] == vacant + unbound[..j];
    PartialAreVacant(p, group, ids, a);
    forall x, y | 0 <= x <= y < |p.free| && p.free[x] == a.parent && p.free[y] == b.parent && a.slot < slots
                  && (x == y ==> a.slot < b.slot)
      ensures a in unbound[..j]
    {
      FreshInOrder(p.free, slots, j, a, x, y);
    }
  }

  // ----- committing a whole plan

  /** Every location passes the assertions of `occupy` when the list is committed in order. */
  predicate Commits(p: Pool, group: Group, slots: nat, locs: seq<Location>)
    decreases |locs|
  {
    locs == [] ||
    (CanOccupy(p, group, slots, locs[0]) && Commits(Occupied(p, group, slots, locs[0]), group, slots, locs[1..]))
  }

  function Committed(p: Pool, group: Group, slots: nat, locs: seq<Location>): Pool
    requires Commits(p, group, slots, locs)
    decreases |locs|
  {
    if locs == [] then p else Committed(Occupied(p, group, slots, locs[0]), group, slots, locs[1..])
  }

  /** A plan of any length commits, and leaves the remaining candidates for the next one. */
  lemma {:induction false} PlanCommits(p: Pool, group: Group, slots: nat, ids: seq<nat>, n: nat)
    returns (next: seq<nat>)
    requires Inv(p) && PackedAs(p, group, slots) && PartialIds(p, group, ids) && slots > 0
    requires n <= |Candidates(p, ids, slots)|
    ensures Commits(p, group, slots, Candidates(p, ids, slots)[..n])
    ensures var q := Committed(p, group, slots, Candidates(p, ids, slots)[..n]);
            && Inv(q) && PackedAs(q, group, slots) && PartialIds(q, group, next)
            && Candidates(q, next, slots) == Candidates(p, ids, slots)[n..]
    decreases n
  {
    var c := Candidates(p, ids, slots);
    if n == 0 {
      next := ids;
    } else {
      next := CommitHead(p, group, slots, ids);
      OccupyKeepsInv(p, group, slots, c[0]);
      OccupyKeepsPacking(p, group, slots, c[0], group, slots);
      assert c[..n][1..] == c[1..][..n - 1] && c[1..][n - 1..] == c[n..] && c[..n][0] == c[0];
      next := PlanCommits(Occupied(p, group, slots, c[0]), group, slots, next, n - 1);
    }
  }

  /** Asking for `m` and then `n` blocks gives the same slots as asking for `m + n` at once. */
  lemma PlansCompose(p: Pool, group: Group, slots: nat, m: nat, n: nat)
    requires Inv(p) && PackedAs(p, group, slots) && slots > 0
    requires m + n <= Available(p, group, slots)
    ensures Commits(p, group, slots, PlanOf(p, group, slots, m))
    ensures PlanOf(p, group, slots, m + n) ==
            PlanOf(p, group, slots, m) +
            PlanOf(Committed(p, group, slots, PlanOf(p, group, slots, m)), group, slots, n)
  {
    var ids := PartialOrder(p, group);
    PartialOrderIs(p, group);
    CandidatesAre(p, group, slots, ids);
    var next := PlanCommits(p, group, slots, ids, m);
    var q := Committed(p, group, slots, PlanOf(p, group, slots, m));
    PartialOrderIs(q, group);
    PartialIdsUnique(q, group, next, PartialOrder(q, group));
    SplitPrefix(Candidates(p, ids, slots), m, n);
  }

  lemma SplitPrefix(c: seq<Location>, m: nat, n: nat)
    requires m + n <= |c|
    ensures c[..m + n] == c[..m] + c[m..][..n]
  {
  }

  // ----- binding as few parents as possible

  /** The free parents that a set of locations would newly bind. */
  ghost function NewParents(p: Pool, locs: seq<Location>): set<nat> {
    set loc | loc in locs && loc.parent in p.free :: loc.parent
  }

  lemma CeilAtMost(n: nat, e: nat, slots: nat)
    requires slots > 0 && n <= e * slots
    ensures DivCeil(n, slots) <= e
  {
    DivCeilCovers(n, slots);
    if n > 0 {
      LessFromMul(DivCeil(n, slots) - 1, e, slots);
    } else {
      SmallDivCeil(n, slots);
    }
  }

  /** The first `n` fresh slots use the first ceil(n / slots) free parents and no others. */
  lemma {:induction false} FreshPrefixParents(ids: seq<nat>, slots: nat, n: nat)
    requires slots > 0 && Distinct(ids) && n <= |FreshSlots(ids, slots)|
    ensures DivCeil(n, slots) <= |ids|
    ensures forall loc :: loc in FreshSlots(ids, slots)[..n] ==> loc.parent in ids[..DivCeil(n, slots)]
    decreases |ids|
  {
    hide DivCeil;
    if ids == [] || n == 0 {
      SmallDivCeil(0, slots);
    } else {
      CeilStep(n, slots);
      var row, rest := VacantSlots(ids[0], Vacant(slots), 0), FreshSlots(ids[1..], slots);
      VacantSlotsDistinct(ids[0], Vacant(slots), 0);
      assert Vacant(slots)[0..] == Vacant(slots);
      CountVacant(slots);
      forall loc | loc in row
        ensures loc.parent == ids[0]
      {
        VacantSlotsAre(ids[0], Vacant(slots), 0, loc);
      }
      if n <= slots {
        assert (row + rest)[..n] == row[..n];
      } else {
        FreshPrefixParents(ids[1..], slots, n - slots);
        assert (row + rest)[..n] == row + rest[..n - slots];
        assert ids[..DivCeil(n, slots)] == [ids[0]] + ids[1..][..DivCeil(n - slots, slots)];
      }
    }
  }

  /** Any choice of distinct slots is covered by the vacant ones and the parents it newly binds. */
  lemma ChoiceIsCovered(p: Pool, group: Group, slots: nat, locs: seq<Location>)
    requires Distinct(locs)
    requires forall loc :: loc in locs ==> GroupVacant(p, group, loc) || FreshSlot(p, slots, loc)
    ensures |locs| <= |VacantSet(p, group)| + |NewParents(p, locs)| * slots
  {
    var bound := SlotsOf(NewParents(p, locs), slots);
    forall loc | loc in ToSet(locs)
      ensures loc in VacantSet(p, group) + bound
    {
      VacantSetHas(p, group, loc);
    }
    ToSetSize(locs);
    SubsetSize(ToSet(locs), VacantSet(p, group) + bound);
    SlotsOfSize(NewParents(p, locs), slots);
  }

  ghost function SlotsOf(ids: set<nat>, slots: nat): set<Location> {
    set id: nat, slot: nat {:trigger Location(id, slot)} | id in ids && slot < slots :: Location(id, slot)
  }

  lemma {:induction false} SlotsOfSize(ids: set<nat>, slots: nat)
    ensures |SlotsOf(ids, slots)| == |ids| * slots
  {
    if ids == {} {
      assert SlotsOf(ids, slots) == {};
    } else {
      var id :| id in ids;
      SlotsOfSize(ids - {id}, slots);
      SlotsOfOne(ids, id, slots);
      Distribute(|ids - {id}|, 1, slots);
    }
  }

  /** One parent contributes `slots` slots of its own. */
  lemma SlotsOfOne(ids: set<nat>, id: nat, slots: nat)
    requires id in ids
    ensures |SlotsOf(ids, slots)| == |SlotsOf(ids - {id}, slots)| + slots
  {
    var rest, row := SlotsOf(ids - {id}, slots), VacantSlots(id, Vacant(slots), 0);
    VacantSlotsDistinct(id, Vacant(slots), 0);
    assert Vacant(slots)[0..] == Vacant(slots);
    CountVacant(slots);
    ToSetSize(row);
    hide VacantSlots, Distinct, CountTrue;
    forall loc
      ensures loc in SlotsOf(ids, slots) <==> loc in rest || loc in ToSet(row)
      ensures loc in rest ==> loc !in ToSet(row)
    {
      VacantSlotsAre(id, Vacant(slots), 0, loc);
    }
    assert SlotsOf(ids, slots) == rest + ToSet(row);
  }

  /**
   A plan binds the minimum number of new parents: no choice of as many distinct slots that the group
   could be given touches fewer free parents.
   */
  lemma PlanBindsFewest(p: Pool, group: Group, slots: nat, n: nat, choice: seq<Location>)
    requires Inv(p) && slots > 0 && n <= Available(p, group, slots)
    requires Distinct(choice) && |choice| == n
    requires forall loc :: loc in choice ==> GroupVacant(p, group, loc) || FreshSlot(p, slots, loc)
    ensures |NewParents(p, PlanOf(p, group, slots, n))| <= |NewParents(p, choice)|
  {
    var ids := PartialOrder(p, group);
    PartialOrderIs(p, group);
    CandidatesAre(p, group, slots, ids);
    var vacant, plan := VacantIn(p, ids), PlanOf(p, group, slots, n);
    if n <= |vacant| {
      forall loc | loc in plan
        ensures loc.parent !in p.free
      {
        assert loc in vacant;
        PartialAreVacant(p, group, ids, loc);
        assert FreeOk(p, loc.parent) && BlockOk(Block(p, loc.parent));
      }
      assert NewParents(p, plan) == {};
    } else {
      var m := n - |vacant|;
      FreshPrefixParents(p.free, slots, m);
      assert plan == vacant + FreshSlots(p.free, slots)[..m];
      var first := p.free[..DivCeil(m, slots)];
      forall id | id in NewParents(p, plan)
        ensures id in ToSet(first)
      {
        var loc :| loc in plan && loc.parent in p.free && loc.parent == id;
        PartialAreVacant(p, group, ids, loc);
        assert FreeOk(p, loc.parent) && BlockOk(Block(p, loc.parent));
      }
      SubsetSize(NewParents(p, plan), ToSet(first));
      ToSetSize(first);
      ChoiceIsCovered(p, group, slots, choice);
      CeilAtMost(m, |NewParents(p, choice)|, slots);
    }
  }
}
