/**
 Reference-counted ownership of pool slots (kv_block_pool.rs): `CacheBlockRef` handles share a `CacheBlock`,
 and dropping the last handle returns the slot. Handles are created, cloned, reset and dropped explicitly.
 */
module KvBlockRefs {
  import opened Collections
  import opened KvBlockPool
  import opened KvBlockPlan
  import opened KvBlockHandles

  type BlockId = nat
  type HandleId = nat

  /** One live `CacheBlock` and the number of handles that share it. */
  datatype Control = Control(location: Location, useCount: nat)

  /** The packing of each group is fixed; a handle is null or refers to a control block. */
  datatype World = World(pool: Pool, packing: Group -> nat, controls: map<BlockId, Control>,
                         handles: map<HandleId, Option<BlockId>>, nextId: nat)

  datatype Op = Acquire(group: Group, num: nat) | Clone(handle: HandleId) | Reset(handle: HandleId)
              | Drop(handle: HandleId)

  ghost function Holders(handles: map<HandleId, Option<BlockId>>, b: BlockId): set<HandleId> {
    set h | h in handles && handles[h] == Some(b)
  }

  /** The use count is the number of handles on the block, and a block without handles is gone. */
  ghost predicate CountOk(w: World, b: BlockId) {
    b in w.controls ==> b < w.nextId && w.controls[b].useCount == |Holders(w.handles, b)| > 0
  }

  ghost predicate HandleOk(w: World, h: HandleId) {
    h in w.handles ==> h < w.nextId && (w.handles[h].Some? ==> w.handles[h].value in w.controls)
  }

  predicate Owns(w: World, b: BlockId, loc: Location) {
    b in w.controls && w.controls[b].location == loc
  }

  /** Live blocks hold occupied slots, no slot is held twice, and no occupied slot is lost. */
  ghost predicate SlotOk(w: World, loc: Location) {
    && (IsOccupied(w.pool, loc) <==> exists b :: Owns(w, b, loc))
    && forall a, b :: Owns(w, a, loc) && Owns(w, b, loc) ==> a == b
  }

  ghost predicate PackingOk(w: World, group: Group) {
    w.packing(group) > 0 && PackedAs(w.pool, group, w.packing(group))
  }

  ghost predicate WorldInv(w: World) {
    && Inv(w.pool)
    && (forall group :: PackingOk(w, group))
    && (forall b :: CountOk(w, b))
    && (forall h :: HandleOk(w, h))
    && (forall loc :: SlotOk(w, loc))
  }

  function NewWorld(parents: nat, packing: Group -> nat): World {
    World(EmptyPool(parents), packing, map[], map[], 0)
  }

  lemma NewWorldInv(parents: nat, packing: Group -> nat)
    requires forall group :: packing(group) > 0
    ensures WorldInv(NewWorld(parents, packing))
  {
    EmptyPoolInv(parents);
    var w := NewWorld(parents, packing);
    forall group
      ensures PackingOk(w, group)
    {
    }
    forall loc
      ensures SlotOk(w, loc)
    {
    }
  }

  // ----- acquiring

  /** One committed location, owned by a fresh control block with a single handle. */
  function Issued(w: World, group: Group, loc: Location): World
    requires CanOccupy(w.pool, group, w.packing(group), loc)
  {
    w.(pool := Occupied(w.pool, group, w.packing(group), loc),
       controls := w.controls[w.nextId := Control(loc, 1)],
       handles := w.handles[w.nextId := Some(w.nextId)],
       nextId := w.nextId + 1)
  }

  lemma IssueKeepsInv(w: World, group: Group, loc: Location)
    requires WorldInv(w) && CanOccupy(w.pool, group, w.packing(group), loc)
    ensures WorldInv(Issued(w, group, loc))
  {
    var v, id := Issued(w, group, loc), w.nextId;
    OccupyKeepsInv(w.pool, group, w.packing(group), loc);
    NoHolders(w, id);
    forall g
      ensures PackingOk(v, g)
    {
      assert PackingOk(w, g) && PackingOk(w, group);
      OccupyKeepsPacking(w.pool, group, w.packing(group), loc, g, w.packing(g));
    }
    forall b
      ensures CountOk(v, b)
    {
      assert CountOk(w, b) && HandleOk(w, id);
      HoldersAdd(w.handles, id, Some(id), b);
    }
    forall h
      ensures HandleOk(v, h)
    {
      assert HandleOk(w, h);
    }
    forall other
      ensures SlotOk(v, other)
    {
      assert SlotOk(w, other) && SlotOk(w, loc);
      OwnersAdd(w, v, id, loc, other);
    }
  }

  /** A fresh id is on no handle. */
  lemma NoHolders(w: World, id: BlockId)
    requires WorldInv(w) && id >= w.nextId
    ensures Holders(w.handles, id) == {} && id !in w.controls
  {
    assert CountOk(w, id);
    forall h: HandleId
      ensures h !in Holders(w.handles, id)
    {
      assert HandleOk(w, h);
    }
  }

  lemma HoldersAdd(handles: map<HandleId, Option<BlockId>>, h: HandleId, target: Option<BlockId>, b: BlockId)
    requires h !in handles
    ensures |Holders(handles[h := target], b)| == |Holders(handles, b)| + if target == Some(b) then 1 else 0
  {
    if target == Some(b) {
      assert Holders(handles[h := target], b) == Holders(handles, b) + {h};
    } else {
      assert Holders(handles[h := target], b) == Holders(handles, b);
    }
  }

  lemma OwnersAdd(w: World, v: World, id: BlockId, loc: Location, other: Location)
    requires id !in w.controls && v.controls.Keys == w.controls.Keys + {id} && v.controls[id].location == loc
    requires forall b :: b in w.controls ==> v.controls[b].location == w.controls[b].location
    ensures forall b :: Owns(v, b, other) <==> Owns(w, b, other) || (b == id && other == loc)
    ensures (exists b :: Owns(v, b, other)) <==> (exists b :: Owns(w, b, other)) || other == loc
  {
    assert Owns(v, id, loc);
    forall b | Owns(w, b, other)
      ensures Owns(v, b, other)
    {
    }
  }

  function IssuedAll(w: World, group: Group, locs: seq<Location>): World
    requires Commits(w.pool, group, w.packing(group), locs)
    decreases |locs|
  {
    if locs == [] then w else IssuedAll(Issued(w, group, locs[0]), group, locs[1..])
  }

  lemma {:induction false} IssueAllKeepsInv(w: World, group: Group, locs: seq<Location>)
    requires WorldInv(w) && Commits(w.pool, group, w.packing(group), locs)
    ensures WorldInv(IssuedAll(w, group, locs))
    ensures IssuedAll(w, group, locs).pool == Committed(w.pool, group, w.packing(group), locs)
    ensures |IssuedAll(w, group, locs).controls| == |w.controls| + |locs|
    decreases |locs|
  {
    if locs != [] {
      IssueKeepsInv(w, group, locs[0]);
      NoHolders(w, w.nextId);
      assert Issued(w, group, locs[0]).controls.Keys == w.controls.Keys + {w.nextId};
      IssueAllKeepsInv(Issued(w, group, locs[0]), group, locs[1..]);
    }
  }

  // ----- sharing and giving back

  function Cloned(w: World, h: HandleId): World
    requires h in w.handles && (w.handles[h].Some? ==> w.handles[h].value in w.controls)
  {
    var target := w.handles[h];
    var more := w.(handles := w.handles[w.nextId := target], nextId := w.nextId + 1);
    if target.None? then more else
      var c := w.controls[target.value];
      more.(controls := w.controls[target.value := c.(useCount := c.useCount + 1)])
  }

  lemma CloneKeepsInv(w: World, h: HandleId)
    requires WorldInv(w) && h in w.handles
    ensures HandleOk(w, h) && WorldInv(Cloned(w, h))
  {
    assert HandleOk(w, h);
    var v := Cloned(w, h);
    assert HandleOk(w, w.nextId);
    forall b
      ensures CountOk(v, b)
    {
      assert CountOk(w, b);
      HoldersAdd(w.handles, w.nextId, w.handles[h], b);
    }
    forall x
      ensures HandleOk(v, x)
    {
      assert HandleOk(w, x);
    }
    SameOwners(w, v);
  }

  /** Locations stay with their blocks, so pool and ownership still agree. */
  lemma SameOwners(w: World, v: World)
    requires WorldInv(w) && v.pool == w.pool && v.packing == w.packing
    requires v.controls.Keys == w.controls.Keys
    requires forall b :: b in w.controls ==> v.controls[b].location == w.controls[b].location
    ensures (forall group :: PackingOk(v, group)) && (forall loc :: SlotOk(v, loc))
  {
    forall group
      ensures PackingOk(v, group)
    {
      assert PackingOk(w, group);
    }
    forall loc
      ensures SlotOk(v, loc)
    {
      assert SlotOk(w, loc);
      forall b
        ensures Owns(v, b, loc) <==> Owns(w, b, loc)
      {
      }
    }
  }

  /** The handle `h` lets go of its block and is removed, or becomes null when `kept`. */
  function Detached(w: World, h: HandleId, kept: bool): map<HandleId, Option<BlockId>>
    requires h in w.handles
  {
    if kept then w.handles[h := None] else w.handles - {h}
  }

  /** Dropping or resetting a handle; with the last one the block is dropped and its slot released. */
  function LetGo(w: World, h: HandleId, kept: bool): World
    requires WorldInv(w) && h in w.handles
  {
    var fewer := w.(handles := Detached(w, h, kept));
    if w.handles[h].None? then fewer else
      var b := w.handles[h].value;
      LiveBlockOccupied(w, h);
      var c := w.controls[b];
      if c.useCount == 1 then
        fewer.(controls := w.controls - {b}, pool := Released(w.pool, c.location))
      else
        fewer.(controls := w.controls[b := c.(useCount := c.useCount - 1)])
  }

  /** Every non-null handle refers to a live block with an occupied slot: `release` cannot fail. */
  lemma LiveBlockOccupied(w: World, h: HandleId)
    requires WorldInv(w) && h in w.handles && w.handles[h].Some?
    ensures w.handles[h].value in w.controls && w.controls[w.handles[h].value].useCount > 0
    ensures IsOccupied(w.pool, w.controls[w.handles[h].value].location)
  {
    var b := w.handles[h].value;
    assert HandleOk(w, h) && CountOk(w, b);
    assert SlotOk(w, w.controls[b].location);
    assert Owns(w, b, w.controls[b].location);
  }

  lemma HoldersDetach(w: World, h: HandleId, kept: bool, b: BlockId)
    requires h in w.handles
    ensures |Holders(Detached(w, h, kept), b)| == |Holders(w.handles, b)| - if w.handles[h] == Some(b) then 1 else 0
  {
    if w.handles[h] == Some(b) {
      assert Holders(w.handles, b) == Holders(Detached(w, h, kept), b) + {h};
    } else {
      assert Holders(w.handles, b) == Holders(Detached(w, h, kept), b);
    }
  }

  lemma LetGoKeepsInv(w: World, h: HandleId, kept: bool)
    requires WorldInv(w) && h in w.handles
    ensures WorldInv(LetGo(w, h, kept))
  {
    var v := LetGo(w, h, kept);
    if w.handles[h].Some? {
      LiveBlockOccupied(w, h);
    }
    forall b
      ensures CountOk(v, b)
    {
      assert CountOk(w, b);
      HoldersDetach(w, h, kept, b);
    }
    LetGoKeepsHandles(w, h, kept);
    if w.handles[h].Some? && w.controls[w.handles[h].value].useCount == 1 {
      LastHandleReleases(w, h, kept);
    } else {
      SameOwners(w, v);
    }
  }

  lemma LetGoKeepsHandles(w: World, h: HandleId, kept: bool)
    requires WorldInv(w) && h in w.handles
    ensures forall x :: HandleOk(LetGo(w, h, kept), x)
  {
    forall x
      ensures HandleOk(LetGo(w, h, kept), x)
    {
      assert HandleOk(w, x);
      if x != h && w.handles[h].Some? && x in w.handles && w.handles[x] == w.handles[h] {
        var b := w.handles[h].value;
        assert HandleOk(w, h) && CountOk(w, b);
        assert {h, x} <= Holders(w.handles, b);
        SubsetSize({h, x}, Holders(w.handles, b));
      }
    }
  }

  lemma LastHandleReleases(w: World, h: HandleId, kept: bool)
    requires WorldInv(w) && h in w.handles && w.handles[h].Some? && HandleOk(w, h)
    requires w.handles[h].value in w.controls && w.controls[w.handles[h].value].useCount == 1
    ensures Inv(LetGo(w, h, kept).pool)
    ensures forall group :: PackingOk(LetGo(w, h, kept), group)
    ensures forall loc :: SlotOk(LetGo(w, h, kept), loc)
  {
    LiveBlockOccupied(w, h);
    var v, b := LetGo(w, h, kept), w.handles[h].value;
    var freed := w.controls[b].location;
    ReleaseKeepsInv(w.pool, freed);
    forall group
      ensures PackingOk(v, group)
    {
      assert PackingOk(w, group);
      ReleaseKeepsPacking(w.pool, freed, group, w.packing(group));
    }
    forall loc
      ensures SlotOk(v, loc)
    {
      assert SlotOk(w, loc);
      ReleaseClears(w.pool, freed, loc);
      OwnersDrop(w, v, b, loc);
    }
  }

  lemma OwnersDrop(w: World, v: World, b: BlockId, loc: Location)
    requires SlotOk(w, loc) && b in w.controls && v.controls == w.controls - {b}
    ensures forall x :: Owns(v, x, loc) <==> Owns(w, x, loc) && x != b
    ensures (exists x :: Owns(v, x, loc)) <==> (exists x :: Owns(w, x, loc)) && loc != w.controls[b].location
  {
    assert Owns(w, b, w.controls[b].location);
    forall x | Owns(w, x, loc) && x != b
      ensures Owns(v, x, loc)
    {
    }
  }

  // ----- whole runs

  /** One operation. Safe code can only name handles that exist; on any other name nothing happens. */
  function Step(w: World, op: Op): World
    requires WorldInv(w)
  {
    match op
    case Acquire(group, num) =>
      assert PackingOk(w, group);
      PlanFits(w.pool, group, w.packing(group), num);
      IssuedAll(w, group, PlanOf(w.pool, group, w.packing(group), num))
    case Clone(h) =>
      if h in w.handles then assert HandleOk(w, h); Cloned(w, h) else w
    case Reset(h) => if h in w.handles then LetGo(w, h, true) else w
    case Drop(h) => if h in w.handles then LetGo(w, h, false) else w
  }

  lemma StepKeepsInv(w: World, op: Op)
    requires WorldInv(w)
    ensures WorldInv(Step(w, op))
  {
    match op
    case Acquire(group, num) =>
      assert PackingOk(w, group);
      PlanFits(w.pool, group, w.packing(group), num);
      IssueAllKeepsInv(w, group, PlanOf(w.pool, group, w.packing(group), num));
    case Clone(h) =>
      if h in w.handles {
        CloneKeepsInv(w, h);
      }
    case Reset(h) =>
      if h in w.handles {
        LetGoKeepsInv(w, h, true);
      }
    case Drop(h) =>
      if h in w.handles {
        LetGoKeepsInv(w, h, false);
      }
  }

  /** Every run from an empty pool keeps the whole invariant. */
  function Run(parents: nat, packing: Group -> nat, ops: seq<Op>): (w: World)
    requires forall group :: packing(group) > 0
    ensures WorldInv(w)
    decreases |ops|
  {
    if ops == [] then
      NewWorldInv(parents, packing);
      NewWorld(parents, packing)
    else
      var w := Run(parents, packing, ops[..|ops| - 1]);
      StepKeepsInv(w, ops[|ops| - 1]);
      Step(w, ops[|ops| - 1])
  }

  /** Two different live blocks never share a slot. */
  lemma LiveBlocksAreDisjoint(w: World, a: BlockId, b: BlockId)
    requires WorldInv(w) && a in w.controls && b in w.controls && a != b
    ensures w.controls[a].location != w.controls[b].location
  {
    var loc := w.controls[a].location;
    assert SlotOk(w, loc);
    assert Owns(w, a, loc);
    assert Owns(w, b, w.controls[b].location);
  }

  /** With no handle left the pool is empty again: nothing leaks. */
  lemma NoHandlesNoSlots(w: World, loc: Location)
    requires WorldInv(w) && forall h :: h in w.handles ==> w.handles[h].None?
    ensures !IsOccupied(w.pool, loc)
    ensures HasParent(w.pool, loc.parent) ==> loc.parent in w.pool.free
  {
    forall b
      ensures b !in w.controls
    {
      assert CountOk(w, b);
      assert Holders(w.handles, b) == {};
    }
    assert SlotOk(w, loc);
    var block := Block(w.pool, loc.parent);
    assert FreeOk(w.pool, loc.parent) && BlockOk(block);
    forall i | 0 <= i < |block.occupancy|
      ensures !block.occupancy[i]
    {
      assert SlotOk(w, Location(loc.parent, i));
    }
    CountNone(block.occupancy);
  }

  lemma {:induction false} CountNone(s: seq<bool>)
    requires forall i :: 0 <= i < |s| ==> !s[i]
    ensures CountTrue(s) == 0
  {
    if s != [] {
      CountNone(s[1..]);
    }
  }
}
