/**
 LCM block pool (kv_block_pool.rs): parents bind to one group, hold several child slots, and return to a
 FIFO free queue when their last child is released.

 `Pool` is the abstract value of a pool; the class `BlockPool` updates it in place. Parent ids are 1-based.
 */
module KvBlockPool {
  import opened Collections

  type Group = nat

  datatype Location = Location(parent: nat, slot: nat)

  datatype LcmBlock = LcmBlock(boundGroup: Option<Group>, occupancy: seq<bool>, occupiedCount: nat)

  datatype Pool = Pool(blocks: seq<LcmBlock>, free: seq<nat>)

  const EMPTY_BLOCK := LcmBlock(None, [], 0)

  function CountTrue(s: seq<bool>): nat {
    if s == [] then 0 else (if s[0] then 1 else 0) + CountTrue(s[1..])
  }

  // ----- the pool invariant

  predicate HasParent(p: Pool, id: nat) {
    1 <= id <= |p.blocks|
  }

  function Block(p: Pool, id: nat): LcmBlock {
    if HasParent(p, id) then p.blocks[id - 1] else EMPTY_BLOCK
  }

  /** Counts equal set bits; a parent is bound iff occupied, and an empty one keeps no slots. */
  ghost predicate BlockOk(b: LcmBlock) {
    && b.occupiedCount == CountTrue(b.occupancy)
    && (b.boundGroup.None? <==> b.occupiedCount == 0)
    && (b.occupiedCount == 0 ==> b.occupancy == [])
  }

  /** The free queue holds exactly the empty parents. */
  ghost predicate FreeOk(p: Pool, id: nat) {
    id in p.free <==> HasParent(p, id) && Block(p, id).occupiedCount == 0
  }

  ghost predicate Inv(p: Pool) {
    && Distinct(p.free)
    && (forall id :: BlockOk(Block(p, id)))
    && (forall id :: FreeOk(p, id))
  }

  /** Every parent bound to `group` has `slots` child slots. */
  ghost predicate PackedAs(p: Pool, group: Group, slots: nat) {
    forall id :: Block(p, id).boundGroup == Some(group) ==> |Block(p, id).occupancy| == slots
  }

  predicate IsOccupied(p: Pool, loc: Location) {
    loc.slot < |Block(p, loc.parent).occupancy| && Block(p, loc.parent).occupancy[loc.slot]
  }

  // ----- committing and releasing one slot

  /** What `occupy` asserts about the location it is given. */
  predicate CanOccupy(p: Pool, group: Group, slots: nat, loc: Location) {
    var b := Block(p, loc.parent);
    && HasParent(p, loc.parent)
    && loc.slot < slots
    && if b.occupiedCount == 0 then
         p.free != [] && p.free[0] == loc.parent && b.occupancy == []
       else
         b.boundGroup == Some(group) && |b.occupancy| == slots && !b.occupancy[loc.slot]
  }

  function Vacant(slots: nat): seq<bool> {
    seq(slots, _ => false)
  }

  function Occupied(p: Pool, group: Group, slots: nat, loc: Location): Pool
    requires CanOccupy(p, group, slots, loc)
  {
    var b := Block(p, loc.parent);
    if b.occupiedCount == 0 then
      Pool(p.blocks[loc.parent - 1 := LcmBlock(Some(group), Vacant(slots)[loc.slot := true], 1)], p.free[1..])
    else
      Pool(p.blocks[loc.parent - 1 := LcmBlock(Some(group), b.occupancy[loc.slot := true], b.occupiedCount + 1)],
           p.free)
  }

  function Released(p: Pool, loc: Location): Pool
    requires IsOccupied(p, loc)
  {
    var b := Block(p, loc.parent);
    if b.occupiedCount <= 1 then
      Pool(p.blocks[loc.parent - 1 := EMPTY_BLOCK], p.free + [loc.parent])
    else
      Pool(p.blocks[loc.parent - 1 := LcmBlock(b.boundGroup, b.occupancy[loc.slot := false], b.occupiedCount - 1)],
           p.free)
  }

  lemma {:induction false} CountSet(s: seq<bool>, i: nat)
    requires i < |s|
    ensures s[i] ==> CountTrue(s) > 0 && CountTrue(s[i := false]) == CountTrue(s) - 1
    ensures !s[i] ==> CountTrue(s) < |s| && CountTrue(s[i := true]) == CountTrue(s) + 1
  {
    CountAtMost(s[1..]);
    if i > 0 {
      CountSet(s[1..], i - 1);
      assert s[i := true][1..] == s[1..][i - 1 := true];
      assert s[i := false][1..] == s[1..][i - 1 := false];
    } else {
      assert s[0 := true][1..] == s[1..] && s[0 := false][1..] == s[1..];
    }
  }

  lemma {:induction false} CountAtMost(s: seq<bool>)
    ensures CountTrue(s) <= |s|
  {
    if s != [] {
      CountAtMost(s[1..]);
    }
  }

  lemma {:induction false} CountVacant(slots: nat)
    ensures CountTrue(Vacant(slots)) == 0
  {
    if slots > 0 {
      assert Vacant(slots)[1..] == Vacant(slots - 1);
      CountVacant(slots - 1);
    }
  }

  lemma {:induction false} CountZero(s: seq<bool>)
    requires CountTrue(s) == 0
    ensures forall i :: 0 <= i < |s| ==> !s[i]
  {
    if s != [] {
      CountZero(s[1..]);
    }
  }

  lemma OccupyKeepsInv(p: Pool, group: Group, slots: nat, loc: Location)
    requires Inv(p) && CanOccupy(p, group, slots, loc)
    ensures Inv(Occupied(p, group, slots, loc))
  {
    var q, b := Occupied(p, group, slots, loc), Block(p, loc.parent);
    assert FreeOk(p, loc.parent) && BlockOk(b);
    if b.occupiedCount == 0 {
      CountVacant(slots);
      CountSet(Vacant(slots), loc.slot);
      assert p.free == [loc.parent] + q.free;
    } else {
      CountSet(b.occupancy, loc.slot);
    }
    forall id
      ensures BlockOk(Block(q, id)) && FreeOk(q, id)
    {
      assert BlockOk(Block(p, id)) && FreeOk(p, id);
      assert id != loc.parent ==> Block(q, id) == Block(p, id);
    }
  }

  lemma OccupyKeepsPacking(p: Pool, group: Group, slots: nat, loc: Location, other: Group, otherSlots: nat)
    requires Inv(p) && CanOccupy(p, group, slots, loc) && PackedAs(p, other, otherSlots)
    requires other == group ==> otherSlots == slots
    ensures PackedAs(Occupied(p, group, slots, loc), other, otherSlots)
  {
    var q := Occupied(p, group, slots, loc);
    forall id | Block(q, id).boundGroup == Some(other)
      ensures |Block(q, id).occupancy| == otherSlots
    {
      assert id != loc.parent ==> Block(q, id) == Block(p, id);
    }
  }

  lemma ReleaseKeepsInv(p: Pool, loc: Location)
    requires Inv(p) && IsOccupied(p, loc)
    ensures Block(p, loc.parent).occupiedCount > 0
    ensures Inv(Released(p, loc))
  {
    var q, b := Released(p, loc), Block(p, loc.parent);
    assert FreeOk(p, loc.parent) && BlockOk(b);
    CountSet(b.occupancy, loc.slot);
    forall id
      ensures BlockOk(Block(q, id)) && FreeOk(q, id)
    {
      assert BlockOk(Block(p, id)) && FreeOk(p, id);
      assert id != loc.parent ==> Block(q, id) == Block(p, id);
    }
  }

  lemma ReleaseClears(p: Pool, loc: Location, other: Location)
    requires Inv(p) && IsOccupied(p, loc)
    ensures IsOccupied(Released(p, loc), other) <==> IsOccupied(p, other) && other != loc
  {
    var q, b := Released(p, loc), Block(p, loc.parent);
    assert BlockOk(b);
    CountSet(b.occupancy, loc.slot);
    assert other.parent != loc.parent ==> Block(q, other.parent) == Block(p, other.parent);
    if b.occupiedCount == 1 && other.parent == loc.parent {
      CountZero(b.occupancy[loc.slot := false]);
      assert other.slot < |b.occupancy| ==> !b.occupancy[loc.slot := false][other.slot];
    }
  }

  lemma ReleaseKeepsPacking(p: Pool, loc: Location, group: Group, slots: nat)
    requires Inv(p) && IsOccupied(p, loc) && PackedAs(p, group, slots)
    ensures PackedAs(Released(p, loc), group, slots)
  {
    var q := Released(p, loc);
    forall id | Block(q, id).boundGroup == Some(group)
      ensures |Block(q, id).occupancy| == slots
    {
      assert id != loc.parent ==> Block(q, id) == Block(p, id);
    }
  }

  /** The free queue never outgrows the pool, so the push in `release` is always within bounds. */
  lemma FreeQueueFits(p: Pool, loc: Location)
    requires Inv(p) && IsOccupied(p, loc)
    ensures |p.free| < |p.blocks|
  {
    var ids := Ids(|p.blocks|);
    forall id | id in ToSet(p.free)
      ensures id in ToSet(ids) - {loc.parent}
    {
      assert FreeOk(p, id) && BlockOk(Block(p, id));
      assert ids[id - 1] == id;
    }
    assert ids[loc.parent - 1] == loc.parent;
    ToSetSize(p.free);
    ToSetSize(ids);
    SubsetSize(ToSet(p.free), ToSet(ids) - {loc.parent});
  }

  /** A release empties one slot. */
  lemma ReleasedSlot(p: Pool, loc: Location, o: Location)
    requires Inv(p) && IsOccupied(p, loc)
    ensures IsOccupied(Released(p, loc), o) <==> o != loc && IsOccupied(p, o)
  {
    var b := Block(p, loc.parent);
    assert BlockOk(b);
    CountSet(b.occupancy, loc.slot);
    if o.parent == loc.parent && o != loc && IsOccupied(p, o) {
      CountSet(b.occupancy[loc.slot := false], o.slot);
    }
  }

  function Ids(n: nat): seq<nat> {
    seq(n, i => i + 1)
  }

  // ----- the candidate list that a plan is a prefix of

  /** A parent of the group with vacant slots left. */
  predicate IsPartial(p: Pool, group: Group, id: nat) {
    && HasParent(p, id)
    && Block(p, id).boundGroup == Some(group)
    && Block(p, id).occupiedCount < |Block(p, id).occupancy|
  }

  /** The order in which partially filled parents are used: most occupied first, then lowest id. */
  predicate Before(p: Pool, a: nat, b: nat) {
    || Block(p, a).occupiedCount > Block(p, b).occupiedCount
    || (Block(p, a).occupiedCount == Block(p, b).occupiedCount && a < b)
  }

  ghost predicate SortedIds(p: Pool, ids: seq<nat>) {
    forall i, j :: 0 <= i < j < |ids| ==> Before(p, ids[i], ids[j])
  }

  ghost predicate ListsPartial(p: Pool, group: Group, ids: seq<nat>, id: nat) {
    id in ids <==> IsPartial(p, group, id)
  }

  /** `ids` are the partially filled parents of the group, in order of use. */
  ghost predicate PartialIds(p: Pool, group: Group, ids: seq<nat>) {
    && SortedIds(p, ids)
    && forall id :: ListsPartial(p, group, ids, id)
  }

  /** The vacant slots of one parent from slot `from` on, in order. */
  function VacantSlots(id: nat, occupancy: seq<bool>, from: nat): seq<Location>
    decreases |occupancy| - from
  {
    if from >= |occupancy| then []
    else (if occupancy[from] then [] else [Location(id, from)]) + VacantSlots(id, occupancy, from + 1)
  }

  function VacantIn(p: Pool, ids: seq<nat>): seq<Location> {
    if ids == [] then [] else VacantSlots(ids[0], Block(p, ids[0]).occupancy, 0) + VacantIn(p, ids[1..])
  }

  /** All slots of a run of free parents. */
  function FreshSlots(ids: seq<nat>, slots: nat): seq<Location> {
    if ids == [] then [] else VacantSlots(ids[0], Vacant(slots), 0) + FreshSlots(ids[1..], slots)
  }

  /** Everything the group could still be given, in the order in which plans hand it out. */
  function Candidates(p: Pool, ids: seq<nat>, slots: nat): seq<Location> {
    VacantIn(p, ids) + FreshSlots(p.free, slots)
  }

  /** Two sorted lists of the same parents are equal. */
  lemma {:induction false} SortedIdsUnique(p: Pool, a: seq<nat>, b: seq<nat>)
    requires SortedIds(p, a) && SortedIds(p, b)
    requires forall id :: id in a <==> id in b
    ensures a == b
  {
    if a == [] || b == [] {
      SomeMember(a);
      SomeMember(b);
    } else {
      assert a[0] in b && b[0] in a;
      assert a[0] == b[0];
      forall id
        ensures id in a[1..] <==> id in b[1..]
      {
        assert id in a <==> id in b;
        assert a == [a[0]] + a[1..] && b == [b[0]] + b[1..];
      }
      SortedIdsUnique(p, a[1..], b[1..]);
    }
  }

  lemma SomeMember(s: seq<nat>)
    ensures s != [] ==> s[0] in s
  {
  }

  lemma PartialIdsUnique(p: Pool, group: Group, a: seq<nat>, b: seq<nat>)
    requires PartialIds(p, group, a) && PartialIds(p, group, b)
    ensures a == b
  {
    forall id
      ensures id in a <==> id in b
    {
      assert ListsPartial(p, group, a, id) && ListsPartial(p, group, b, id);
    }
    SortedIdsUnique(p, a, b);
  }

  lemma {:induction false} VacantSlotsAre(id: nat, occupancy: seq<bool>, from: nat, loc: Location)
    requires from <= |occupancy|
    ensures loc in VacantSlots(id, occupancy, from) <==>
              loc.parent == id && from <= loc.slot < |occupancy| && !occupancy[loc.slot]
    decreases |occupancy| - from
  {
    if from < |occupancy| {
      VacantSlotsAre(id, occupancy, from + 1, loc);
    }
  }

  lemma {:induction false} VacantSlotsDistinct(id: nat, occupancy: seq<bool>, from: nat)
    requires from <= |occupancy|
    ensures Distinct(VacantSlots(id, occupancy, from))
    ensures |VacantSlots(id, occupancy, from)| == |occupancy| - from - CountTrue(occupancy[from..])
    decreases |occupancy| - from
  {
    if from < |occupancy| {
      VacantSlotsDistinct(id, occupancy, from + 1);
      VacantSlotsAre(id, occupancy, from + 1, Location(id, from));
      assert occupancy[from..][1..] == occupancy[from + 1..];
    }
  }

  /** Filling the first vacant slot removes exactly the head of the list. */
  lemma {:induction false} FillFirst(id: nat, occupancy: seq<bool>, from: nat)
    requires from <= |occupancy| && VacantSlots(id, occupancy, from) != []
    ensures var slot := VacantSlots(id, occupancy, from)[0].slot;
            && VacantSlots(id, occupancy, from)[0].parent == id
            && from <= slot < |occupancy| && !occupancy[slot]
            && VacantSlots(id, occupancy[slot := true], from) == VacantSlots(id, occupancy, from)[1..]
    decreases |occupancy| - from
  {
    if occupancy[from] {
      FillFirst(id, occupancy, from + 1);
    } else {
      var filled := occupancy[from := true];
      SameAbove(id, occupancy, filled, from + 1);
    }
  }

  lemma {:induction false} SameAbove(id: nat, a: seq<bool>, b: seq<bool>, from: nat)
    requires |a| == |b| && forall i :: from <= i < |a| ==> a[i] == b[i]
    ensures VacantSlots(id, a, from) == VacantSlots(id, b, from)
    decreases |a| - from
  {
    if from < |a| {
      SameAbove(id, a, b, from + 1);
      assert a[from] == b[from];
      var rest := VacantSlots(id, a, from + 1);
      assert VacantSlots(id, a, from) == (if a[from] then [] else [Location(id, from)]) + rest;
      assert VacantSlots(id, b, from) == (if a[from] then [] else [Location(id, from)]) + rest;
    }
  }

  lemma {:induction false} VacantInSame(p: Pool, q: Pool, ids: seq<nat>)
    requires forall id :: id in ids ==> Block(p, id).occupancy == Block(q, id).occupancy
    ensures VacantIn(p, ids) == VacantIn(q, ids)
  {
    if ids != [] {
      assert ids[0] in ids;
      VacantInSame(p, q, ids[1..]);
    }
  }

  // ----- committing a plan: the head of the candidates can be occupied, and the tail remains

  lemma HeadOfPartial(p: Pool, group: Group, slots: nat, ids: seq<nat>)
    requires Inv(p) && PackedAs(p, group, slots) && PartialIds(p, group, ids) && ids != []
    ensures VacantSlots(ids[0], Block(p, ids[0]).occupancy, 0) != []
    ensures var loc := VacantSlots(ids[0], Block(p, ids[0]).occupancy, 0)[0];
            loc.parent == ids[0] && CanOccupy(p, group, slots, loc)
  {
    var b := Block(p, ids[0]);
    assert ListsPartial(p, group, ids, ids[0]) && BlockOk(b);
    VacantSlotsDistinct(ids[0], b.occupancy, 0);
    assert b.occupancy[0..] == b.occupancy;
    FillFirst(ids[0], b.occupancy, 0);
  }

  /** Occupying the head of the first partial parent: it stays first, or drops out when it is full. */
  lemma PartialAfterOccupy(p: Pool, group: Group, slots: nat, ids: seq<nat>, loc: Location)
    requires Inv(p) && PackedAs(p, group, slots) && PartialIds(p, group, ids) && ids != []
    requires loc.parent == ids[0] && CanOccupy(p, group, slots, loc)
    ensures var b := Block(p, ids[0]);
            PartialIds(Occupied(p, group, slots, loc), group,
                       if b.occupiedCount + 1 < |b.occupancy| then ids else ids[1..])
  {
    var q, b := Occupied(p, group, slots, loc), Block(p, ids[0]);
    var next := if b.occupiedCount + 1 < |b.occupancy| then ids else ids[1..];
    assert ListsPartial(p, group, ids, ids[0]) && BlockOk(b);
    SortedAfterOccupy(p, group, slots, ids, loc);
    hide Inv, PackedAs, SortedIds, CanOccupy, Occupied, BlockOk;
    forall id
      ensures ListsPartial(q, group, next, id)
    {
      ListedAfterOccupy(p, group, slots, ids, loc, id);
    }
  }

  lemma ListedAfterOccupy(p: Pool, group: Group, slots: nat, ids: seq<nat>, loc: Location, id: nat)
    requires Inv(p) && PackedAs(p, group, slots) && PartialIds(p, group, ids) && ids != []
    requires loc.parent == ids[0] && CanOccupy(p, group, slots, loc)
    ensures var b := Block(p, ids[0]);
            ListsPartial(Occupied(p, group, slots, loc), group,
                         if b.occupiedCount + 1 < |b.occupancy| then ids else ids[1..], id)
  {
    var q := Occupied(p, group, slots, loc);
    assert ListsPartial(p, group, ids, ids[0]) && BlockOk(Block(p, ids[0]));
    assert ListsPartial(p, group, ids, id);
    FirstIsNotRepeated(p, ids, id);
    assert ids == [ids[0]] + ids[1..];
    hide Inv, PartialIds, PackedAs, SortedIds;
    if id != ids[0] {
      assert Block(q, id) == Block(p, id);
    }
  }

  lemma FirstIsNotRepeated(p: Pool, ids: seq<nat>, id: nat)
    requires SortedIds(p, ids) && ids != []
    ensures id in ids[1..] ==> id != ids[0]
  {
    if id in ids[1..] {
      var i :| 0 <= i < |ids[1..]| && ids[1..][i] == id;
      assert Before(p, ids[0], ids[i + 1]);
    }
  }

  /** The order of use stays when the first parent fills up further. */
  lemma SortedAfterOccupy(p: Pool, group: Group, slots: nat, ids: seq<nat>, loc: Location)
    requires SortedIds(p, ids) && ids != [] && IsPartial(p, group, ids[0]) && BlockOk(Block(p, ids[0]))
    requires loc.parent == ids[0] && CanOccupy(p, group, slots, loc)
    ensures SortedIds(Occupied(p, group, slots, loc), ids) && SortedIds(Occupied(p, group, slots, loc), ids[1..])
  {
    var q := Occupied(p, group, slots, loc);
    forall i, j | 0 <= i < j < |ids|
      ensures Before(q, ids[i], ids[j])
    {
      assert Before(p, ids[i], ids[j]) && Before(p, ids[0], ids[j]);
      assert i > 0 ==> Before(p, ids[0], ids[i]);
    }
  }

  /** The first slot of the first free parent makes it the group's only partial parent, if it has more slots. */
  lemma FreshAfterOccupy(p: Pool, group: Group, slots: nat, loc: Location)
    requires Inv(p) && PackedAs(p, group, slots) && PartialIds(p, group, []) && slots > 0
    requires p.free != [] && loc == Location(p.free[0], 0) && CanOccupy(p, group, slots, loc)
    requires Block(p, loc.parent).occupiedCount == 0
    ensures PartialIds(Occupied(p, group, slots, loc), group, if slots > 1 then [loc.parent] else [])
  {
    var q := Occupied(p, group, slots, loc);
    var next := if slots > 1 then [loc.parent] else [];
    forall id
      ensures ListsPartial(q, group, next, id)
    {
      assert ListsPartial(p, group, [], id);
      assert id != loc.parent ==> Block(q, id) == Block(p, id);
    }
  }

  /**
   The heart of plan/commit agreement: the first candidate passes every assertion of `occupy`, and after the
   commit the candidates are exactly the remaining ones.
   */
  lemma CommitHead(p: Pool, group: Group, slots: nat, ids: seq<nat>) returns (next: seq<nat>)
    requires Inv(p) && PackedAs(p, group, slots) && PartialIds(p, group, ids) && slots > 0
    requires Candidates(p, ids, slots) != []
    ensures CanOccupy(p, group, slots, Candidates(p, ids, slots)[0])
    ensures var q := Occupied(p, group, slots, Candidates(p, ids, slots)[0]);
            PartialIds(q, group, next) && Candidates(q, next, slots) == Candidates(p, ids, slots)[1..]
  {
    if ids != [] {
      next := CommitPartial(p, group, slots, ids);
    } else {
      next := CommitFresh(p, group, slots);
    }
  }

  lemma CommitPartial(p: Pool, group: Group, slots: nat, ids: seq<nat>) returns (next: seq<nat>)
    requires Inv(p) && PackedAs(p, group, slots) && PartialIds(p, group, ids) && ids != []
    ensures Candidates(p, ids, slots) != [] && CanOccupy(p, group, slots, Candidates(p, ids, slots)[0])
    ensures var q := Occupied(p, group, slots, Candidates(p, ids, slots)[0]);
            PartialIds(q, group, next) && Candidates(q, next, slots) == Candidates(p, ids, slots)[1..]
  {
    var b := Block(p, ids[0]);
    HeadOfPartial(p, group, slots, ids);
    var row := VacantSlots(ids[0], b.occupancy, 0);
    HeadAndTail(row, VacantIn(p, ids[1..]), FreshSlots(p.free, slots));
    PartialAfterOccupy(p, group, slots, ids, row[0]);
    VacantAfterOccupy(p, group, slots, ids, row[0]);
    next := if b.occupiedCount + 1 < |b.occupancy| then ids else ids[1..];
  }

  lemma HeadAndTail(row: seq<Location>, mid: seq<Location>, end: seq<Location>)
    requires row != []
    ensures ((row + mid) + end)[0] == row[0]
    ensures ((row + mid) + end)[1..] == (row[1..] + mid) + end
  {
  }

  lemma VacantAfterOccupy(p: Pool, group: Group, slots: nat, ids: seq<nat>, loc: Location)
    requires Inv(p) && PackedAs(p, group, slots) && PartialIds(p, group, ids) && ids != []
    requires var row := VacantSlots(ids[0], Block(p, ids[0]).occupancy, 0);
             row != [] && loc == row[0] && loc.parent == ids[0] && CanOccupy(p, group, slots, loc)
    ensures var q, b := Occupied(p, group, slots, loc), Block(p, ids[0]);
            VacantIn(q, if b.occupiedCount + 1 < |b.occupancy| then ids else ids[1..]) ==
            VacantSlots(ids[0], b.occupancy, 0)[1..] + VacantIn(p, ids[1..])
  {
    var q, b := Occupied(p, group, slots, loc), Block(p, ids[0]);
    assert ListsPartial(p, group, ids, ids[0]) && BlockOk(b);
    RowAfterFill(ids[0], b.occupancy, loc);
    OthersSame(p, q, ids);
    VacantInSame(p, q, ids[1..]);
    assert Block(q, ids[0]).occupancy == b.occupancy[loc.slot := true];
  }

  lemma OthersSame(p: Pool, q: Pool, ids: seq<nat>)
    requires ids != [] && SortedIds(p, ids)
    requires forall id :: id != ids[0] ==> Block(p, id) == Block(q, id)
    ensures forall id :: id in ids[1..] ==> Block(p, id) == Block(q, id)
  {
    forall id | id in ids[1..]
      ensures id != ids[0]
    {
      var i :| 0 < i < |ids| && ids[i] == id;
      assert Before(p, ids[0], ids[i]);
    }
  }

  /** After the first vacant slot is filled the row loses its head; a full row is empty. */
  lemma RowAfterFill(id: nat, occupancy: seq<bool>, loc: Location)
    requires var row := VacantSlots(id, occupancy, 0); row != [] && loc == row[0]
    ensures loc.slot < |occupancy|
    ensures VacantSlots(id, occupancy[loc.slot := true], 0) == VacantSlots(id, occupancy, 0)[1..]
    ensures CountTrue(occupancy) + 1 >= |occupancy| ==> VacantSlots(id, occupancy, 0)[1..] == []
  {
    FillFirst(id, occupancy, 0);
    VacantSlotsDistinct(id, occupancy, 0);
    assert occupancy[0..] == occupancy;
  }

  lemma CommitFresh(p: Pool, group: Group, slots: nat) returns (next: seq<nat>)
    requires Inv(p) && PackedAs(p, group, slots) && PartialIds(p, group, []) && slots > 0
    requires p.free != []
    ensures Candidates(p, [], slots) != [] && CanOccupy(p, group, slots, Candidates(p, [], slots)[0])
    ensures var q := Occupied(p, group, slots, Candidates(p, [], slots)[0]);
            PartialIds(q, group, next) && Candidates(q, next, slots) == Candidates(p, [], slots)[1..]
  {
    var id := p.free[0];
    var loc, rest := Location(id, 0), FreshSlots(p.free[1..], slots);
    assert FreeOk(p, id) && BlockOk(Block(p, id));
    FreshCandidates(p, slots);
    FreshAfterOccupy(p, group, slots, loc);
    var q := Occupied(p, group, slots, loc);
    assert q.free == p.free[1..] && Block(q, id).occupancy == Vacant(slots)[0 := true];
    hide Inv, PackedAs, PartialIds, VacantSlots, FreshSlots, VacantIn;
    next := if slots > 1 then [id] else [];
    FreshRowLeft(q, id, slots);
  }

  /** With no partial parent the candidates start with the slots of the first free one. */
  lemma FreshCandidates(p: Pool, slots: nat)
    requires p.free != [] && slots > 0
    ensures var row, rest := VacantSlots(p.free[0], Vacant(slots), 0), FreshSlots(p.free[1..], slots);
            && row != [] && row[0] == Location(p.free[0], 0)
            && Candidates(p, [], slots) == row + rest && Candidates(p, [], slots)[1..] == row[1..] + rest
  {
    var row, rest := VacantSlots(p.free[0], Vacant(slots), 0), FreshSlots(p.free[1..], slots);
    assert Vacant(slots)[0] == false && row[0] == Location(p.free[0], 0);
    assert VacantIn(p, []) == [] && FreshSlots(p.free, slots) == row + rest;
    HeadAndTail([] + row, [], rest);
  }

  lemma FreshRowLeft(q: Pool, id: nat, slots: nat)
    requires slots > 0 && Block(q, id).occupancy == Vacant(slots)[0 := true]
    ensures VacantIn(q, if slots > 1 then [id] else []) == VacantSlots(id, Vacant(slots), 0)[1..]
  {
    RowAfterFill(id, Vacant(slots), Location(id, 0));
    CountVacant(slots);
    assert slots > 1 ==> [id][1..] == [] && VacantIn(q, []) == [];
  }
}
