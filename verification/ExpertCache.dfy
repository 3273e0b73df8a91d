/**
 LRU residency of MoE experts (moe_backend.rs): a slot map, a recency queue and the step planners.

 `Lru` is the abstract value of a cache; the class updates it in place. Expert ids are compared only for
 equality, so they are naturals here.
 */
module ExpertCache {
  import opened Arithmetic
  import opened Collections

  type ExpertId = nat

  datatype Placement = Gpu(slot: nat) | Cpu
  datatype Fetch = Fetch(id: ExpertId, slot: nat)
  datatype StepPlan = StepPlan(placements: seq<Placement>, fetches: seq<Fetch>, evictions: seq<ExpertId>)
  datatype PutResult = PutResult(slot: nat, evicted: Option<ExpertId>, wasResident: bool)

  /** Slot of each resident expert, and the residents, most recently used first. */
  datatype Lru = Lru(capacity: nat, slots: map<ExpertId, nat>, recency: seq<ExpertId>)

  ghost predicate ValidLru(c: Lru) {
    && Distinct(c.recency)
    && Lists(c.recency, c.slots)
    && SlotsFit(c.slots, c.capacity)
    && Injective(c.slots)
  }

  ghost predicate Lists(recency: seq<ExpertId>, slots: map<ExpertId, nat>) {
    forall id :: Listed(recency, slots, id)
  }

  ghost predicate Listed(recency: seq<ExpertId>, slots: map<ExpertId, nat>, id: ExpertId) {
    id in recency <==> id in slots
  }

  ghost predicate SlotsFit(slots: map<ExpertId, nat>, capacity: nat) {
    forall id :: id in slots ==> slots[id] < capacity
  }

  ghost predicate Injective(slots: map<ExpertId, nat>) {
    forall a, b :: Apart(slots, a, b)
  }

  /** Two residents do not share a slot. */
  ghost predicate Apart(slots: map<ExpertId, nat>, a: ExpertId, b: ExpertId) {
    a in slots && b in slots && slots[a] == slots[b] ==> a == b
  }

  /** A valid cache never holds more experts than it has slots. */
  lemma ResidentsFit(c: Lru)
    requires ValidLru(c)
    ensures |c.recency| == |c.slots| <= c.capacity
  {
    forall id: ExpertId
      ensures id in ToSet(c.recency) <==> id in c.slots
    {
      assert Listed(c.recency, c.slots, id);
    }
    assert ToSet(c.recency) == c.slots.Keys;
    ToSetSize(c.recency);
    InjectiveSize(c.slots);
    BoundedSetSize(c.slots.Values, c.capacity);
  }

  lemma {:induction false} InjectiveSize(m: map<ExpertId, nat>)
    requires Injective(m)
    ensures |m.Values| == |m|
    decreases |m|
  {
    if m.Keys == {} {
      assert m.Values == {};
    } else {
      var k :| k in m;
      var rest := m - {k};
      assert m.Keys == rest.Keys + {k};
      DropResident(m, k);
      InjectiveSize(rest);
      forall v | v in m.Values
        ensures v in rest.Values + {m[k]}
      {
        var x :| x in m && m[x] == v;
        assert x != k ==> x in rest && rest[x] == v;
      }
      assert m.Values == rest.Values + {m[k]};
    }
  }

  lemma AddResident(slots: map<ExpertId, nat>, id: ExpertId, slot: nat)
    requires Injective(slots) && id !in slots && slot !in slots.Values
    ensures Injective(slots[id := slot])
  {
    var more := slots[id := slot];
    forall a, b
      ensures Apart(more, a, b)
    {
      assert Apart(slots, a, b);
      assert a in slots ==> slots[a] in slots.Values;
      assert b in slots ==> slots[b] in slots.Values;
    }
  }

  lemma DropResident(slots: map<ExpertId, nat>, id: ExpertId)
    requires Injective(slots) && id in slots
    ensures Injective(slots - {id}) && slots[id] !in (slots - {id}).Values
    ensures |slots - {id}| == |slots| - 1
  {
    assert slots.Keys == (slots - {id}).Keys + {id};
    var fewer := slots - {id};
    forall a, b
      ensures Apart(fewer, a, b)
    {
      assert Apart(slots, a, b);
    }
    forall a | a in slots - {id}
      ensures slots[a] != slots[id]
    {
      assert Apart(slots, a, id);
    }
  }

  /** Recency after using `id`: it moves, or is added, to the front. */
  function Touched(recency: seq<ExpertId>, id: ExpertId): seq<ExpertId> {
    [id] + Remove(recency, id)
  }

  lemma TouchedDistinct(recency: seq<ExpertId>, id: ExpertId)
    requires Distinct(recency)
    ensures Distinct(Touched(recency, id))
    ensures forall x :: x in Touched(recency, id) <==> x == id || x in recency
  {
    RemoveDistinct(recency, id);
    assert forall x :: x in Touched(recency, id) <==> x == id || x in Remove(recency, id);
  }

  /** The lowest slot index, from `from` on, that is not in use. */
  function LowestFree(used: set<nat>, from: nat): (slot: nat)
    ensures from <= slot <= from + |used| && slot !in used
    ensures forall k :: from <= k < slot ==> k in used
    decreases |used|
  {
    if from !in used then from else
      var slot := LowestFree(used - {from}, from + 1);
      LowestFreeSkips(used, from, slot);
      slot
  }

  lemma LowestFreeSkips(used: set<nat>, from: nat, slot: nat)
    requires from in used
    requires forall k :: from + 1 <= k < slot ==> k in used - {from}
    ensures forall k :: from <= k < slot ==> k in used
  {
    forall k | from <= k < slot
      ensures k in used
    {
      assert k == from || k in used - {from};
    }
  }

  /** The cache after `put(id)`: a resident is touched, a newcomer takes a free slot or the coldest one's. */
  function PutOf(c: Lru, id: ExpertId): Lru
    requires ValidLru(c) && c.capacity > 0
  {
    if id in c.slots then
      c.(recency := Touched(c.recency, id))
    else if |c.slots| >= c.capacity then
      ResidentsFit(c);
      var last := |c.recency| - 1;
      var victim := c.recency[last];
      assert Listed(c.recency, c.slots, victim);
      c.(slots := (c.slots - {victim})[id := c.slots[victim]], recency := [id] + c.recency[..last])
    else
      c.(slots := c.slots[id := LowestFree(c.slots.Values, 0)], recency := [id] + c.recency)
  }

  lemma PutKeepsValid(c: Lru, id: ExpertId)
    requires ValidLru(c) && c.capacity > 0
    ensures ValidLru(PutOf(c, id)) && id in PutOf(c, id).slots
  {
    ResidentsFit(c);
    if id in c.slots {
      TouchedKeepsValid(c, id);
    } else if |c.slots| >= c.capacity {
      var last := |c.recency| - 1;
      ReplacedKeepsValid(c, last, id);
      assert c.recency[..last] + c.recency[last + 1..] == c.recency[..last];
    } else {
      NewcomerKeepsValid(c, id, LowestFree(c.slots.Values, 0));
      InjectiveSize(c.slots);
    }
  }

  lemma TouchedKeepsValid(c: Lru, id: ExpertId)
    requires ValidLru(c) && id in c.slots
    ensures ValidLru(c.(recency := Touched(c.recency, id)))
  {
    TouchedDistinct(c.recency, id);
    forall x
      ensures Listed(Touched(c.recency, id), c.slots, x)
    {
      assert Listed(c.recency, c.slots, x);
    }
  }

  lemma NewcomerKeepsValid(c: Lru, id: ExpertId, slot: nat)
    requires ValidLru(c) && id !in c.slots && slot !in c.slots.Values && slot < c.capacity
    ensures ValidLru(Lru(c.capacity, c.slots[id := slot], [id] + c.recency))
  {
    AddResident(c.slots, id, slot);
    assert Listed(c.recency, c.slots, id);
    var recency, slots := [id] + c.recency, c.slots[id := slot];
    forall x
      ensures Listed(recency, slots, x)
    {
      assert Listed(c.recency, c.slots, x);
    }
  }

  /** Dropping the resident at position `i` of the queue. */
  lemma DroppedKeepsValid(c: Lru, i: nat)
    requires ValidLru(c) && i < |c.recency|
    ensures var id, rest := c.recency[i], c.recency[..i] + c.recency[i + 1..];
            && id in c.slots && rest == Remove(c.recency, id)
            && ValidLru(Lru(c.capacity, c.slots - {id}, rest))
            && c.slots[id] !in (c.slots - {id}).Values
            && |c.slots - {id}| == |c.slots| - 1
  {
    var id := c.recency[i];
    assert Listed(c.recency, c.slots, id);
    RemoveAt(c.recency, id, i);
    RemoveDistinct(c.recency, id);
    DropResident(c.slots, id);
    var rest, slots := Remove(c.recency, id), c.slots - {id};
    forall x
      ensures Listed(rest, slots, x)
    {
      assert Listed(c.recency, c.slots, x);
    }
  }

  /** The newcomer takes over the slot of the resident at position `i`. */
  lemma ReplacedKeepsValid(c: Lru, i: nat, id: ExpertId)
    requires ValidLru(c) && i < |c.recency| && id !in c.slots
    ensures var victim, rest := c.recency[i], c.recency[..i] + c.recency[i + 1..];
            && victim in c.slots
            && ValidLru(Lru(c.capacity, (c.slots - {victim})[id := c.slots[victim]], [id] + rest))
  {
    DroppedKeepsValid(c, i);
    var victim, rest := c.recency[i], c.recency[..i] + c.recency[i + 1..];
    NewcomerKeepsValid(Lru(c.capacity, c.slots - {victim}, rest), id, c.slots[victim]);
  }

  class LruExpertCache {
    const capacity: nat
    var slots: map<ExpertId, nat>
    var recency: seq<ExpertId>

    ghost function View(): Lru
      reads this
    {
      Lru(capacity, slots, recency)
    }

    ghost predicate Valid()
      reads this
    {
      ValidLru(View())
    }

    constructor (capacity: nat)
      ensures View() == Lru(capacity, map[], []) && Valid()
    {
      this.capacity := capacity;
      slots := map[];
      recency := [];
    }

    method Get(id: ExpertId) returns (slot: Option<nat>)
      requires Valid()
      modifies this
      ensures Valid()
      ensures slot == if id in old(slots) then Some(old(slots)[id]) else None
      ensures slots == old(slots)
      ensures recency == if id in old(slots) then Touched(old(recency), id) else old(recency)
    {
      if id !in slots {
        return None;
      }
      slot := Some(slots[id]);
      TouchedKeepsValid(View(), id);
      Touch(id);
    }

    method Put(id: ExpertId) returns (put: PutResult)
      requires Valid() && capacity > 0
      modifies this
      ensures Valid() && View() == PutOf(old(View()), id)
      ensures id in slots && put.slot == slots[id] < capacity
      ensures put.wasResident <==> id in old(slots)
      ensures put.evicted.Some? <==> id !in old(slots) && |old(slots)| >= capacity
      ensures put.evicted.Some? ==>
                && old(recency) != [] && put.evicted.value == old(recency)[|old(recency)| - 1]
                && put.evicted.value in old(slots) && put.slot == old(slots)[put.evicted.value]
      ensures !put.wasResident && put.evicted.None? ==>
                put.slot !in old(slots).Values && forall k: nat :: k < put.slot ==> k in old(slots).Values
      ensures !put.wasResident && put.evicted.None? ==> recency == [id] + old(recency)
    {
      PutKeepsValid(View(), id);
      ResidentsFit(View());
      if id in slots {
        Touch(id);
        put := PutResult(slots[id], None, true);
        return;
      }
      var evicted: Option<ExpertId>, slot: nat := None, 0;
      if |slots| >= capacity {
        var victim, victimSlot := EvictLru();
        evicted, slot := Some(victim), victimSlot;
      } else {
        slot := FreeSlot();
      }
      slots := slots[id := slot];
      recency := [id] + recency;
      put := PutResult(slot, evicted, false);
    }

    /** Scans for the lowest slot index that no resident uses. */
    method FreeSlot() returns (slot: nat)
      ensures slot == LowestFree(slots.Values, 0)
    {
      slot := 0;
      while slot in slots.Values
        invariant slot <= LowestFree(slots.Values, 0)
        decreases LowestFree(slots.Values, 0) - slot
      {
        slot := slot + 1;
      }
    }

    method Touch(id: ExpertId)
      modifies `recency
      ensures recency == Touched(old(recency), id)
    {
      var pos := 0;
      while pos < |recency| && recency[pos] != id
        invariant pos <= |recency| && id !in recency[..pos]
      {
        pos := pos + 1;
      }
      if pos < |recency| {
        RemoveAt(recency, id, pos);
        recency := recency[..pos] + recency[pos + 1..];
      } else {
        assert recency[..pos] == recency;
        RemoveNothing(recency, id);
      }
      recency := [id] + recency;
    }

    method EvictLru() returns (id: ExpertId, slot: nat)
      requires Valid() && recency != []
      modifies this
      ensures id in old(slots) && id == old(recency)[|old(recency)| - 1] && slot == old(slots)[id]
      ensures recency == old(recency)[..|old(recency)| - 1] && slots == old(slots) - {id}
    {
      id := recency[|recency| - 1];
      assert Listed(recency, slots, id);
      recency := recency[..|recency| - 1];
      slot := slots[id];
      slots := slots - {id};
    }

    /** Evicts the coldest resident outside `routed`, if there is one. */
    method EvictLruNotIn(routed: set<ExpertId>) returns (victim: Option<(ExpertId, nat)>)
      requires Valid()
      modifies this
      ensures Valid()
      ensures victim.None? ==> View() == old(View()) && slots.Keys <= routed
      ensures victim.Some? ==>
                && var (id, slot) := victim.value;
                && id !in routed && id in old(slots) && slot == old(slots)[id]
                && slots == old(slots) - {id} && slot !in slots.Values && slot < capacity
                && recency == Remove(old(recency), id)
                && Outside(old(recency), routed) == Outside(recency, routed) + [id]
    {
      var i := |recency|;
      while i > 0 && recency[i - 1] in routed
        invariant 0 <= i <= |recency|
        invariant forall k :: i <= k < |recency| ==> recency[k] in routed
      {
        i := i - 1;
      }
      if i == 0 {
        NothingOutside(View(), routed);
        return None;
      }
      var id := recency[i - 1];
      DroppedKeepsValid(View(), i - 1);
      OutsideDrops(recency, routed, i - 1);
      recency := recency[..i - 1] + recency[i..];
      var slot := slots[id];
      slots := slots - {id};
      return Some((id, slot));
    }

    /**
     One step without eviction: residents stay, misses fill free slots, the rest goes to the CPU. The routed
     experts get every slot that the residents outside the step leave them.
     */
    method PlanStep(routed: seq<ExpertId>) returns (plan: StepPlan)
      requires Valid()
      modifies this
      ensures Valid() && plan.evictions == []
      ensures PlanSoFar(old(View()), View(), routed, plan)
      ensures |GpuExperts(routed, plan.placements)| ==
                Min(|ToSet(routed)|, capacity - |old(slots).Keys - ToSet(routed)|)
      ensures recency == Recent(OnGpu(routed, plan.placements)) + Outside(old(recency), ToSet(routed))
      ensures plan.fetches == FetchesOf(old(slots), routed, plan.placements)
    {
      hide PlacedFree, PlanSoFar, CpuMeansFull, UsedInOrder, Outside, Recent, OnGpu, FetchesOf, Touched, ValidLru,
           UsedOn;
      ghost var routedSet := ToSet(routed);
      plan := StepPlan([], [], []);
      ghost var before := View();
      NothingPlanned(View(), routedSet);
      assert routed[..0] == [];
      for i := 0 to |routed|
        invariant Valid() && plan.evictions == []
        invariant FreeSoFar(before, View(), routedSet, routed[..i], plan)
      {
        ghost var was, planned := View(), plan;
        var placement, fetched := PlaceInFreeSlot(routed[i]);
        plan := StepPlan(plan.placements + [placement], plan.fetches + fetched, []);
        assert routed[..i + 1] == routed[..i] + [routed[i]];
        FreeSlotExtendsPlan(before, was, View(), routedSet, routed[..i], routed[i], planned, placement, fetched);
      }
      assert routed[..|routed|] == routed;
      FreeResult(before, View(), routed, plan);
    }

    /** One expert of PlanStep: a hit, a free slot, or the CPU. */
    method PlaceInFreeSlot(id: ExpertId) returns (placement: Placement, fetched: seq<Fetch>)
      requires Valid()
      modifies this
      ensures Valid() && PlacedFree(old(View()), View(), id, placement, fetched)
      ensures recency == UsedOn(old(recency), id, placement, None)
    {
      ResidentsFit(View());
      NotListed(View(), id);
      var hit := Get(id);
      if hit.Some? {
        return Gpu(hit.value), [];
      } else if |slots| < capacity {
        PutKeepsValid(View(), id);
        var put := Put(id);
        return Gpu(put.slot), [Fetch(id, put.slot)];
      } else {
        return Cpu, [];
      }
    }

    /**
     One step with cross-step LRU eviction. It is sound (no routed expert is evicted, every GPU placement still
     holds when the step ends) and optimal (as many distinct experts on the GPU as the slots allow), and it evicts
     the coldest experts outside the step, coldest first.
     */
    method PlanLru(routed: seq<ExpertId>) returns (plan: StepPlan)
      requires Valid()
      modifies this
      ensures Valid()
      ensures PlacementsHold(View(), routed, plan.placements)
      ensures FetchesExplain(old(View()), View(), routed, plan)
      ensures |GpuExperts(routed, plan.placements)| == Min(capacity, |ToSet(routed)|)
      ensures forall id :: id in plan.evictions ==> id !in routed
      ensures Outside(old(recency), ToSet(routed)) == Outside(recency, ToSet(routed)) + Reversed(plan.evictions)
      ensures recency == Recent(OnGpu(routed, plan.placements)) + Outside(recency, ToSet(routed))
      ensures plan.fetches == FetchesOf(old(slots), routed, plan.placements)
    {
      hide Placed, LruSoFar, Outside, Recent, OnGpu, FetchesOf, Touched, ValidLru, UsedOn;
      var routedSet := ToSet(routed);
      plan := StepPlan([], [], []);
      ghost var before := View();
      NothingPlanned(View(), routedSet);
      assert routed[..0] == [];
      for i := 0 to |routed|
        invariant Valid()
        invariant LruSoFar(before, View(), routedSet, routed[..i], plan)
      {
        ghost var was, planned := View(), plan;
        var placement, fetched, evicted := PlaceEvicting(routed[i], routedSet);
        plan := StepPlan(plan.placements + [placement], plan.fetches + fetched, plan.evictions + ToSeq(evicted));
        assert routed[..i + 1] == routed[..i] + [routed[i]];
        LruExtendsPlan(before, was, View(), routedSet, routed[..i], routed[i], planned, placement, fetched, evicted);
      }
      assert routed[..|routed|] == routed;
      LruResult(before, View(), routed, plan);
    }

    /** One expert of PlanLru: a hit, a free slot, the slot of the coldest expert outside the step, or the CPU. */
    method PlaceEvicting(id: ExpertId, routed: set<ExpertId>)
      returns (placement: Placement, fetched: seq<Fetch>, evicted: Option<ExpertId>)
      requires Valid() && id in routed
      modifies this
      ensures Valid() && Placed(old(View()), View(), id, placement, fetched, evicted)
      ensures evicted.Some? ==> evicted.value !in routed
      ensures placement == Cpu ==> |slots| == capacity && slots.Keys <= routed
      ensures |old(slots)| == capacity && old(slots).Keys <= routed ==> slots == old(slots)
      ensures Outside(old(recency), routed) == Outside(recency, routed) + ToSeq(evicted)
      ensures recency == UsedOn(old(recency), id, placement, evicted)
    {
      ResidentsFit(View());
      NotListed(View(), id);
      TouchedOutside(recency, routed, id);
      var hit := Get(id);
      if hit.Some? {
        return Gpu(hit.value), [], None;
      } else if |slots| < capacity {
        PutKeepsValid(View(), id);
        var put := Put(id);
        return Gpu(put.slot), [Fetch(id, put.slot)], None;
      } else {
        var victim := EvictLruNotIn(routed);
        if victim.Some? {
          var (coldest, slot) := victim.value;
          TouchedOutside(recency, routed, id);
          NotListed(View(), id);
          NewcomerKeepsValid(View(), id, slot);
          slots := slots[id := slot];
          recency := [id] + recency;
          return Gpu(slot), [Fetch(id, slot)], Some(coldest);
        } else {
          return Cpu, [], None;
        }
      }
    }
  }

  /** The queue after placing one expert: it is at the front if it is on the GPU, behind it a victim is missing. */
  function UsedOn(recency: seq<ExpertId>, id: ExpertId, placement: Placement, evicted: Option<ExpertId>)
    : seq<ExpertId>
  {
    var rest := if evicted.Some? then Remove(recency, evicted.value) else recency;
    if placement.Gpu? then Touched(rest, id) else rest
  }

  lemma NotListed(c: Lru, id: ExpertId)
    requires ValidLru(c)
    ensures id !in c.slots ==> id !in c.recency && Touched(c.recency, id) == [id] + c.recency
  {
    assert Listed(c.recency, c.slots, id);
    if id !in c.slots {
      RemoveNothing(c.recency, id);
    }
  }

  /** The routed experts placed on the GPU, in order. */
  function OnGpu(routed: seq<ExpertId>, placements: seq<Placement>): seq<ExpertId>
    requires |placements| == |routed|
  {
    if routed == [] then [] else
      var last := |routed| - 1;
      OnGpu(routed[..last], placements[..last]) + if placements[last].Gpu? then [routed[last]] else []
  }

  /** One fetch for every expert on the GPU that was not resident, where it is first routed, in order. */
  function FetchesOf(slots: map<ExpertId, nat>, routed: seq<ExpertId>, placements: seq<Placement>): seq<Fetch>
    requires |placements| == |routed|
  {
    if routed == [] then [] else
      var last := |routed| - 1;
      var id, placement := routed[last], placements[last];
      FetchesOf(slots, routed[..last], placements[..last])
      + if placement.Gpu? && id !in slots && id !in routed[..last] then [Fetch(id, placement.slot)] else []
  }

  /** The queue starts with the experts used so far, the last one first; fetched are those that were not resident. */
  ghost predicate UsedInOrder(before: Lru, now: Lru, routed: seq<ExpertId>, plan: StepPlan) {
    && |plan.placements| == |routed|
    && Recent(OnGpu(routed, plan.placements)) <= now.recency
    && plan.fetches == FetchesOf(before.slots, routed, plan.placements)
  }

  /** Placing one more expert moves it to the front. */
  lemma UseExtendsOrder(before: Lru, was: Lru, now: Lru, routed: seq<ExpertId>, id: ExpertId, plan: StepPlan,
                        placement: Placement, fetched: seq<Fetch>, evicted: Option<ExpertId>)
    requires ValidLru(was) && PlanSoFar(before, was, routed, plan) && UsedInOrder(before, was, routed, plan)
    requires Placed(was, now, id, placement, fetched, evicted)
    requires now.recency == UsedOn(was.recency, id, placement, evicted)
    requires evicted.Some? ==> evicted.value !in routed
    requires id !in plan.evictions && (Cpu in plan.placements ==> now.slots == was.slots)
    ensures UsedInOrder(before, now, routed + [id],
                        StepPlan(plan.placements + [placement], plan.fetches + fetched,
                                 plan.evictions + ToSeq(evicted)))
  {
    var longer, placements := routed + [id], plan.placements + [placement];
    assert longer[..|routed|] == routed && placements[..|routed|] == plan.placements;
    var used := OnGpu(routed, plan.placements);
    if evicted.Some? {
      OnGpuIsRouted(routed, plan.placements);
      RecentIsByLastUse(used);
      RemoveBehind(Recent(used), was.recency, evicted.value);
    }
    var rest := if evicted.Some? then Remove(was.recency, evicted.value) else was.recency;
    if placement.Gpu? {
      TouchKeepsFront(Recent(used), rest, id);
      assert (used + [id])[..|used|] == used;
      FirstUse(before, was, routed, id, plan);
    } else {
      assert used + [] == used;
    }
  }

  /** A miss is an expert that was not resident and has not been routed before. */
  lemma FirstUse(before: Lru, was: Lru, routed: seq<ExpertId>, id: ExpertId, plan: StepPlan)
    requires PlanSoFar(before, was, routed, plan) && id !in plan.evictions
    requires Cpu in plan.placements ==> id in was.slots
    ensures id !in was.slots <==> id !in before.slots && id !in routed
  {
    if id in routed {
      var i :| 0 <= i < |routed| && routed[i] == id;
      assert plan.placements[i] in plan.placements;
    }
    if id in was.slots && id !in before.slots {
      assert Fetch(id, was.slots[id]) in plan.fetches;
    }
  }

  lemma {:induction false} OnGpuIsRouted(routed: seq<ExpertId>, placements: seq<Placement>)
    requires |placements| == |routed|
    ensures forall id :: id in OnGpu(routed, placements) ==> id in routed
    ensures forall i :: 0 <= i < |routed| && placements[i].Gpu? ==> routed[i] in OnGpu(routed, placements)
  {
    if routed != [] {
      var last := |routed| - 1;
      OnGpuIsRouted(routed[..last], placements[..last]);
      forall i | 0 <= i < last && placements[i].Gpu?
        ensures routed[i] in OnGpu(routed, placements)
      {
        assert routed[..last][i] == routed[i] && placements[..last][i] == placements[i];
      }
    }
  }

  /** Removing something behind the front of a queue leaves the front alone. */
  lemma {:induction false} RemoveBehind(front: seq<ExpertId>, recency: seq<ExpertId>, id: ExpertId)
    requires front <= recency && id !in front
    ensures front <= Remove(recency, id)
  {
    if front != [] {
      RemoveBehind(front[1..], recency[1..], id);
    }
  }

  /** Using an expert is using it in the front as well. */
  lemma TouchKeepsFront(front: seq<ExpertId>, recency: seq<ExpertId>, id: ExpertId)
    requires front <= recency
    ensures Touched(front, id) <= Touched(recency, id)
  {
    if id in front {
      RemoveInside(recency, |front|, id);
      assert First(recency, |front|) == front;
    } else {
      RemoveBehind(front, recency, id);
      RemoveNothing(front, id);
    }
  }

  /** The routed residents are those on the GPU. */
  lemma RoutedResidents(c: Lru, routed: seq<ExpertId>, placements: seq<Placement>)
    requires ValidLru(c) && PlacementsHold(c, routed, placements)
    ensures forall id :: id in c.recency && id in routed ==> id in Recent(OnGpu(routed, placements))
    ensures forall id :: id in Recent(OnGpu(routed, placements)) ==> id in routed
  {
    var used := OnGpu(routed, placements);
    OnGpuIsRouted(routed, placements);
    RecentIsByLastUse(used);
    forall id | id in c.recency && id in routed
      ensures id in used
    {
      assert Listed(c.recency, c.slots, id);
      var i :| 0 <= i < |routed| && routed[i] == id;
      assert placements[i].Gpu?;
    }
  }

  /** In the end the queue is the routed residents by last use, and behind them the others. */
  lemma UsedThenOthers(c: Lru, routed: seq<ExpertId>, placements: seq<Placement>)
    requires ValidLru(c) && PlacementsHold(c, routed, placements)
    requires Recent(OnGpu(routed, placements)) <= c.recency
    ensures c.recency == Recent(OnGpu(routed, placements)) + Outside(c.recency, ToSet(routed))
  {
    RoutedResidents(c, routed, placements);
    SplitQueue(Recent(OnGpu(routed, placements)), c.recency, ToSet(routed));
  }

  lemma SplitQueue(front: seq<ExpertId>, recency: seq<ExpertId>, routed: set<ExpertId>)
    requires Distinct(recency) && front <= recency
    requires forall id :: id in recency && id in routed ==> id in front
    requires forall id :: id in front ==> id in routed
    ensures recency == front + Outside(recency, routed)
  {
    hide Outside;
    var back := recency[|front|..];
    forall k | 0 <= k < |back|
      ensures back[k] !in routed
    {
      NotInFront(front, recency, |front| + k);
    }
    assert recency == front + back;
    OutsideConcat(front, back, routed);
    OutsideNothing(front, routed);
    OutsideAll(back, routed);
  }

  lemma NotInFront(front: seq<ExpertId>, recency: seq<ExpertId>, i: nat)
    requires Distinct(recency) && front <= recency && |front| <= i < |recency|
    ensures recency[i] !in front
  {
    forall j | 0 <= j < |front|
      ensures front[j] != recency[i]
    {
      assert recency[j] == front[j];
    }
  }

  lemma {:induction false} OutsideAll(s: seq<ExpertId>, routed: set<ExpertId>)
    requires forall k :: 0 <= k < |s| ==> s[k] !in routed
    ensures Outside(s, routed) == s
  {
    if s != [] {
      OutsideAll(s[1..], routed);
    }
  }

  /** `Outside` keeps exactly the others, in their order. */
  lemma {:induction false} OutsideKeepsOrder(s: seq<ExpertId>, routed: set<ExpertId>, i: nat, j: nat)
    returns (k: nat, l: nat)
    requires i < j < |Outside(s, routed)|
    ensures k < l < |s| && s[k] == Outside(s, routed)[i] && s[l] == Outside(s, routed)[j]
    ensures s[k] !in routed && s[l] !in routed
  {
    if s[0] in routed {
      k, l := OutsideKeepsOrder(s[1..], routed, i, j);
      k, l := k + 1, l + 1;
    } else if i > 0 {
      k, l := OutsideKeepsOrder(s[1..], routed, i - 1, j - 1);
      k, l := k + 1, l + 1;
    } else {
      k := 0;
      l := OutsideAt(s[1..], routed, j - 1);
      l := l + 1;
    }
  }

  lemma {:induction false} OutsideAt(s: seq<ExpertId>, routed: set<ExpertId>, j: nat) returns (l: nat)
    requires j < |Outside(s, routed)|
    ensures l < |s| && s[l] == Outside(s, routed)[j] && s[l] !in routed
  {
    if s[0] in routed {
      l := OutsideAt(s[1..], routed, j);
      l := l + 1;
    } else if j > 0 {
      l := OutsideAt(s[1..], routed, j - 1);
      l := l + 1;
    } else {
      l := 0;
    }
  }

  /** The residents outside `routed`, most recently used first. */
  function Outside(recency: seq<ExpertId>, routed: set<ExpertId>): (r: seq<ExpertId>) {
    if recency == [] then []
    else (if recency[0] in routed then [] else [recency[0]]) + Outside(recency[1..], routed)
  }

  function Reversed(s: seq<ExpertId>): (r: seq<ExpertId>) {
    if s == [] then [] else [s[|s| - 1]] + Reversed(s[..|s| - 1])
  }

  lemma {:induction false} OutsideConcat(s: seq<ExpertId>, t: seq<ExpertId>, routed: set<ExpertId>)
    ensures Outside(s + t, routed) == Outside(s, routed) + Outside(t, routed)
  {
    if s == [] {
      assert s + t == t;
    } else {
      assert (s + t)[1..] == s[1..] + t;
      OutsideConcat(s[1..], t, routed);
    }
  }

  lemma {:induction false} OutsideNothing(s: seq<ExpertId>, routed: set<ExpertId>)
    requires forall k :: 0 <= k < |s| ==> s[k] in routed
    ensures Outside(s, routed) == []
  {
    if s != [] {
      OutsideNothing(s[1..], routed);
    }
  }

  /** Using a routed expert leaves the order of the others alone. */
  lemma {:induction false} TouchedOutside(recency: seq<ExpertId>, routed: set<ExpertId>, id: ExpertId)
    requires id in routed
    ensures Outside(Touched(recency, id), routed) == Outside(recency, routed)
    ensures Outside([id] + recency, routed) == Outside(recency, routed)
  {
    assert ([id] + recency)[1..] == recency;
    assert Touched(recency, id)[1..] == Remove(recency, id);
    if recency != [] && recency[0] != id {
      TouchedOutside(recency[1..], routed, id);
      assert Touched(recency[1..], id)[1..] == Remove(recency[1..], id);
      assert Remove(recency, id)[1..] == Remove(recency[1..], id);
    }
  }

  /** Dropping the last resident outside `routed` drops the last entry of `Outside`. */
  lemma OutsideDrops(recency: seq<ExpertId>, routed: set<ExpertId>, i: nat)
    requires i < |recency| && recency[i] !in routed
    requires forall k :: i < k < |recency| ==> recency[k] in routed
    ensures Outside(recency, routed) == Outside(recency[..i] + recency[i + 1..], routed) + [recency[i]]
  {
    var id, front, back := recency[i], recency[..i], recency[i + 1..];
    assert recency == front + ([id] + back);
    OutsideConcat(front, [id] + back, routed);
    OutsideConcat([id], back, routed);
    OutsideConcat(front, back, routed);
    OutsideNothing(back, routed);
  }

  lemma NothingOutside(c: Lru, routed: set<ExpertId>)
    requires ValidLru(c) && forall k :: 0 <= k < |c.recency| ==> c.recency[k] in routed
    ensures c.slots.Keys <= routed
  {
    forall id | id in c.slots
      ensures id in routed
    {
      assert Listed(c.recency, c.slots, id);
    }
  }

  /** Every placement agrees with the cache: `Gpu(slot)` is the expert's slot, `Cpu` means not resident. */
  ghost predicate PlacementsHold(c: Lru, routed: seq<ExpertId>, placements: seq<Placement>) {
    && |placements| == |routed|
    && forall i :: 0 <= i < |routed| ==>
         match placements[i]
         case Gpu(slot) => routed[i] in c.slots && c.slots[routed[i]] == slot
         case Cpu => routed[i] !in c.slots
  }

  /**
   The plan accounts for the change of residents: evicted ones are gone, fetched ones are new, were routed
   and sit in their announced slots, and everyone else has kept its slot.
   */
  ghost predicate FetchesExplain(before: Lru, after: Lru, routed: seq<ExpertId>, plan: StepPlan) {
    && after.capacity == before.capacity
    && (forall f :: f in plan.fetches ==>
          f.id in routed && f.id !in before.slots && f.id in after.slots && after.slots[f.id] == f.slot)
    && (forall id :: id in plan.evictions ==> id in before.slots && id !in after.slots)
    && (forall id :: id in before.slots && id !in plan.evictions ==>
          id in after.slots && after.slots[id] == before.slots[id])
    && (forall id :: id in after.slots && id !in before.slots ==> Fetch(id, after.slots[id]) in plan.fetches)
  }

  /** The distinct experts that the step runs on the GPU. */
  ghost function GpuExperts(routed: seq<ExpertId>, placements: seq<Placement>): set<ExpertId>
    requires |placements| == |routed|
  {
    set i | 0 <= i < |routed| && placements[i].Gpu? :: routed[i]
  }

  /** What is known of a step half way through its routed list. */
  ghost predicate PlanSoFar(before: Lru, now: Lru, routed: seq<ExpertId>, plan: StepPlan) {
    && PlacementsHold(now, routed, plan.placements)
    && FetchesExplain(before, now, routed, plan)
  }

  ghost predicate CpuMeansFull(now: Lru, plan: StepPlan) {
    Cpu in plan.placements ==> |now.slots| == now.capacity
  }

  /** What eviction has done so far: only the coldest experts outside the step are gone, coldest first. */
  ghost predicate EvictsOutside(before: Lru, now: Lru, routed: set<ExpertId>, plan: StepPlan) {
    && (Cpu in plan.placements ==> |now.slots| == now.capacity && now.slots.Keys <= routed)
    && (forall id :: id in plan.evictions ==> id !in routed)
    && Outside(before.recency, routed) == Outside(now.recency, routed) + Reversed(plan.evictions)
  }

  /** The effect of placing one expert: at most one eviction, and a fetch exactly on a placed miss. */
  ghost predicate Placed(was: Lru, now: Lru, id: ExpertId, placement: Placement, fetched: seq<Fetch>,
                         evicted: Option<ExpertId>)
  {
    && now.capacity == was.capacity
    && (evicted.Some? ==> evicted.value in was.slots && evicted.value != id)
    && match placement
       case Gpu(slot) =>
         && now.slots == (if evicted.Some? then was.slots - {evicted.value} else was.slots)[id := slot]
         && (id in was.slots ==> evicted.None? && fetched == [] && was.slots[id] == slot)
         && (id !in was.slots ==> fetched == [Fetch(id, slot)])
       case Cpu =>
         now.slots == was.slots && id !in was.slots && evicted.None? && fetched == []
  }

  /** Placing without eviction: only a full cache sends an expert to the CPU, and it stays as it is. */
  ghost predicate PlacedFree(was: Lru, now: Lru, id: ExpertId, placement: Placement, fetched: seq<Fetch>) {
    && Placed(was, now, id, placement, fetched, None)
    && (placement == Cpu ==> |now.slots| == now.capacity)
    && (|was.slots| == was.capacity ==> now.slots == was.slots)
  }

  function ToSeq(o: Option<ExpertId>): seq<ExpertId> {
    if o.Some? then [o.value] else []
  }

  lemma PlacementExtendsPlan(before: Lru, was: Lru, now: Lru, routed: seq<ExpertId>, id: ExpertId, plan: StepPlan,
                             placement: Placement, fetched: seq<Fetch>, evicted: Option<ExpertId>)
    requires PlanSoFar(before, was, routed, plan)
    requires Placed(was, now, id, placement, fetched, evicted)
    requires evicted.Some? ==> evicted.value !in routed
    requires id !in plan.evictions
    requires Cpu in plan.placements ==> now.slots == was.slots
    ensures PlanSoFar(before, now, routed + [id],
                      StepPlan(plan.placements + [placement], plan.fetches + fetched, plan.evictions + ToSeq(evicted)))
  {
    var placements := plan.placements + [placement];
    forall i | 0 <= i < |routed| + 1
      ensures match placements[i]
              case Gpu(slot) => (routed + [id])[i] in now.slots && now.slots[(routed + [id])[i]] == slot
              case Cpu => (routed + [id])[i] !in now.slots
    {
      if i < |routed| {
        assert placements[i] == plan.placements[i];
        assert routed[i] in routed;
      }
    }
  }

  /** What PlanStep has done so far. */
  ghost predicate FreeSoFar(before: Lru, now: Lru, routedSet: set<ExpertId>, done: seq<ExpertId>, plan: StepPlan) {
    && PlanSoFar(before, now, done, plan) && CpuMeansFull(now, plan) && UsedInOrder(before, now, done, plan)
    && Outside(now.recency, routedSet) == Outside(before.recency, routedSet)
  }

  /** What PlanLru has done so far. */
  ghost predicate LruSoFar(before: Lru, now: Lru, routedSet: set<ExpertId>, done: seq<ExpertId>, plan: StepPlan) {
    && PlanSoFar(before, now, done, plan) && EvictsOutside(before, now, routedSet, plan)
    && UsedInOrder(before, now, done, plan)
  }

  lemma NothingPlanned(c: Lru, routedSet: set<ExpertId>)
    ensures FreeSoFar(c, c, routedSet, [], StepPlan([], [], [])) && LruSoFar(c, c, routedSet, [], StepPlan([], [], []))
  {
  }

  lemma FreeSlotExtendsPlan(before: Lru, was: Lru, now: Lru, routedSet: set<ExpertId>, done: seq<ExpertId>,
                            id: ExpertId, plan: StepPlan, placement: Placement, fetched: seq<Fetch>)
    requires ValidLru(was) && FreeSoFar(before, was, routedSet, done, plan) && plan.evictions == [] && id in routedSet
    requires PlacedFree(was, now, id, placement, fetched) && now.recency == UsedOn(was.recency, id, placement, None)
    ensures FreeSoFar(before, now, routedSet, done + [id],
                      StepPlan(plan.placements + [placement], plan.fetches + fetched, []))
  {
    hide PlanSoFar, UsedInOrder, Placed, Outside, Touched, ValidLru;
    assert plan.evictions + ToSeq(None) == [];
    UseExtendsOrder(before, was, now, done, id, plan, placement, fetched, None);
    PlacementExtendsPlan(before, was, now, done, id, plan, placement, fetched, None);
    TouchedOutside(was.recency, routedSet, id);
    SameCapacity(was, now, id, placement, fetched, None);
  }

  lemma SameCapacity(was: Lru, now: Lru, id: ExpertId, placement: Placement, fetched: seq<Fetch>,
                     evicted: Option<ExpertId>)
    requires Placed(was, now, id, placement, fetched, evicted)
    ensures now.capacity == was.capacity
  {
  }

  lemma LruExtendsPlan(before: Lru, was: Lru, now: Lru, routedSet: set<ExpertId>, done: seq<ExpertId>, id: ExpertId,
                       plan: StepPlan, placement: Placement, fetched: seq<Fetch>, evicted: Option<ExpertId>)
    requires ValidLru(was) && LruSoFar(before, was, routedSet, done, plan) && id in routedSet
    requires forall x :: x in done ==> x in routedSet
    requires Placed(was, now, id, placement, fetched, evicted)
    requires now.recency == UsedOn(was.recency, id, placement, evicted)
    requires evicted.Some? ==> evicted.value !in routedSet
    requires placement == Cpu ==> |now.slots| == now.capacity && now.slots.Keys <= routedSet
    requires |was.slots| == was.capacity && was.slots.Keys <= routedSet ==> now.slots == was.slots
    requires Outside(was.recency, routedSet) == Outside(now.recency, routedSet) + ToSeq(evicted)
    ensures LruSoFar(before, now, routedSet, done + [id],
                     StepPlan(plan.placements + [placement], plan.fetches + fetched, plan.evictions + ToSeq(evicted)))
  {
    hide PlanSoFar, UsedInOrder, Placed, Outside, Touched, ValidLru, UsedOn;
    SameCapacity(was, now, id, placement, fetched, evicted);
    StaysFull(before, was, routedSet, done, plan);
    UseExtendsOrder(before, was, now, done, id, plan, placement, fetched, evicted);
    PlacementExtendsPlan(before, was, now, done, id, plan, placement, fetched, evicted);
    EvictionExtendsPlan(before, was, now, routedSet, plan, placement, fetched, evicted);
  }

  lemma StaysFull(before: Lru, was: Lru, routedSet: set<ExpertId>, done: seq<ExpertId>, plan: StepPlan)
    requires EvictsOutside(before, was, routedSet, plan)
    ensures Cpu in plan.placements ==> |was.slots| == was.capacity && was.slots.Keys <= routedSet
    ensures forall x :: x in plan.evictions ==> x !in routedSet
  {
  }

  /** What the whole of PlanStep has done. */
  lemma FreeResult(before: Lru, now: Lru, routed: seq<ExpertId>, plan: StepPlan)
    requires ValidLru(before) && ValidLru(now) && FreeSoFar(before, now, ToSet(routed), routed, plan)
    requires plan.evictions == []
    ensures PlanSoFar(before, now, routed, plan)
    ensures |GpuExperts(routed, plan.placements)| ==
              Min(|ToSet(routed)|, now.capacity - |before.slots.Keys - ToSet(routed)|)
    ensures now.recency == Recent(OnGpu(routed, plan.placements)) + Outside(before.recency, ToSet(routed))
    ensures plan.fetches == FetchesOf(before.slots, routed, plan.placements)
  {
    CountStep(before, now, routed, plan);
    UsedThenOthers(now, routed, plan.placements);
  }

  /** What the whole of PlanLru has done. */
  lemma LruResult(before: Lru, now: Lru, routed: seq<ExpertId>, plan: StepPlan)
    requires ValidLru(now) && LruSoFar(before, now, ToSet(routed), routed, plan)
    ensures PlacementsHold(now, routed, plan.placements) && FetchesExplain(before, now, routed, plan)
    ensures |GpuExperts(routed, plan.placements)| == Min(now.capacity, |ToSet(routed)|)
    ensures forall id :: id in plan.evictions ==> id !in routed
    ensures Outside(before.recency, ToSet(routed)) == Outside(now.recency, ToSet(routed)) + Reversed(plan.evictions)
    ensures now.recency == Recent(OnGpu(routed, plan.placements)) + Outside(now.recency, ToSet(routed))
    ensures plan.fetches == FetchesOf(before.slots, routed, plan.placements)
  {
    CountLru(now, routed, plan);
    UsedThenOthers(now, routed, plan.placements);
  }

  lemma EvictionExtendsPlan(before: Lru, was: Lru, now: Lru, routed: set<ExpertId>, plan: StepPlan,
                            placement: Placement, fetched: seq<Fetch>, evicted: Option<ExpertId>)
    requires EvictsOutside(before, was, routed, plan) && now.capacity == was.capacity
    requires evicted.Some? ==> evicted.value !in routed
    requires placement == Cpu ==> |now.slots| == now.capacity && now.slots.Keys <= routed
    requires |was.slots| == was.capacity && was.slots.Keys <= routed ==> now.slots == was.slots
    requires Outside(was.recency, routed) == Outside(now.recency, routed) + ToSeq(evicted)
    ensures EvictsOutside(before, now, routed,
                          StepPlan(plan.placements + [placement], plan.fetches + fetched,
                                   plan.evictions + ToSeq(evicted)))
  {
    ReversedExtends(plan.evictions, ToSeq(evicted));
    var o, t, r := Outside(now.recency, routed), ToSeq(evicted), Reversed(plan.evictions);
    assert (o + t) + r == o + (t + r);
  }

  lemma ReversedExtends(s: seq<ExpertId>, t: seq<ExpertId>)
    requires |t| <= 1
    ensures Reversed(s + t) == t + Reversed(s)
  {
    if t == [] {
      assert s + t == s && t + Reversed(s) == Reversed(s);
    } else {
      assert (s + t)[..|s|] == s;
    }
  }

  lemma GpuExpertsAre(c: Lru, routed: seq<ExpertId>, placements: seq<Placement>)
    requires PlacementsHold(c, routed, placements)
    ensures GpuExperts(routed, placements) == ToSet(routed) * c.slots.Keys
    ensures Cpu !in placements ==> ToSet(routed) <= c.slots.Keys
  {
    forall id | id in ToSet(routed) * c.slots.Keys
      ensures id in GpuExperts(routed, placements)
    {
      var i :| 0 <= i < |routed| && routed[i] == id;
      assert placements[i].Gpu?;
    }
    if Cpu !in placements {
      forall id | id in ToSet(routed)
        ensures id in c.slots
      {
        var i :| 0 <= i < |routed| && routed[i] == id;
        assert placements[i] in placements;
      }
    }
  }

  lemma CountLru(c: Lru, routed: seq<ExpertId>, plan: StepPlan)
    requires ValidLru(c) && PlacementsHold(c, routed, plan.placements)
    requires Cpu in plan.placements ==> |c.slots| == c.capacity && c.slots.Keys <= ToSet(routed)
    ensures |GpuExperts(routed, plan.placements)| == Min(c.capacity, |ToSet(routed)|)
  {
    var r := ToSet(routed);
    GpuExpertsAre(c, routed, plan.placements);
    ResidentsFit(c);
    if Cpu in plan.placements {
      assert r * c.slots.Keys == c.slots.Keys;
      SubsetSize(c.slots.Keys, r);
    } else {
      assert r * c.slots.Keys == r;
      SubsetSize(r, c.slots.Keys);
    }
  }

  lemma CountStep(before: Lru, after: Lru, routed: seq<ExpertId>, plan: StepPlan)
    requires ValidLru(before) && ValidLru(after) && PlacementsHold(after, routed, plan.placements)
    requires FetchesExplain(before, after, routed, plan) && plan.evictions == []
    requires Cpu in plan.placements ==> |after.slots| == after.capacity
    ensures |GpuExperts(routed, plan.placements)| ==
              Min(|ToSet(routed)|, after.capacity - |before.slots.Keys - ToSet(routed)|)
  {
    var r, b, a := ToSet(routed), before.slots.Keys, after.slots.Keys;
    GpuExpertsAre(after, routed, plan.placements);
    ResidentsFit(after);
    CountGrown(b, a, r, after.capacity, Cpu in plan.placements);
  }

  lemma CountGrown(b: set<ExpertId>, a: set<ExpertId>, r: set<ExpertId>, capacity: nat, full: bool)
    requires b <= a <= (b - r) + r * a && |a| <= capacity
    requires if full then |a| == capacity else r <= a
    ensures |r * a| == Min(|r|, capacity - |b - r|)
  {
    SplitSize(a, b - r, r * a);
    if full {
      SubsetSize(r * a, r);
    } else {
      assert r * a == r;
    }
  }

  lemma SplitSize(a: set<ExpertId>, b: set<ExpertId>, c: set<ExpertId>)
    requires b <= a && c <= a && a <= b + c && b !! c
    ensures |a| == |b| + |c|
  {
    assert a == b + c;
  }

  /** No assignment of slots to routed experts serves more of them: PlanLru is optimal. */
  lemma NoPlacementServesMore(capacity: nat, routed: seq<ExpertId>, gpu: map<ExpertId, nat>)
    requires forall id :: id in gpu ==> id in routed && gpu[id] < capacity
    requires Injective(gpu)
    ensures |gpu| <= Min(capacity, |ToSet(routed)|)
  {
    SubsetSize(gpu.Keys, ToSet(routed));
    InjectiveSize(gpu);
    BoundedSetSize(gpu.Values, capacity);
  }

  /** The cache after a trace of puts, starting empty. */
  function RunPuts(capacity: nat, trace: seq<ExpertId>): (c: Lru)
    requires capacity > 0
    ensures ValidLru(c) && c.capacity == capacity
  {
    if trace == [] then
      assert ToSet<ExpertId>([]) == {};
      Lru(capacity, map[], [])
    else
      var was := RunPuts(capacity, trace[..|trace| - 1]);
      PutKeepsValid(was, trace[|trace| - 1]);
      PutOf(was, trace[|trace| - 1])
  }

  /** The distinct ids of a trace, most recently used first: an LRU stack without a bound. */
  function Recent(trace: seq<ExpertId>): seq<ExpertId> {
    if trace == [] then [] else Touched(Recent(trace[..|trace| - 1]), trace[|trace| - 1])
  }

  /** Position of the last use of `id`, or -1. */
  function LastUse(trace: seq<ExpertId>, id: ExpertId): (i: int)
    ensures -1 <= i < |trace|
    ensures i == -1 <==> id !in trace
    ensures i >= 0 ==> trace[i] == id && id !in trace[i + 1..]
  {
    if trace == [] then -1 else
      var last := |trace| - 1;
      assert trace == trace[..last] + [trace[last]];
      if trace[last] == id then last else
        var i := LastUse(trace[..last], id);
        assert i >= 0 ==> trace[i + 1..] == trace[..last][i + 1..] + [trace[last]];
        i
  }

  function First(s: seq<ExpertId>, n: nat): seq<ExpertId> {
    if n <= |s| then s[..n] else s
  }

  ghost predicate ByLastUse(s: seq<ExpertId>, trace: seq<ExpertId>) {
    forall i, j :: 0 <= i < j < |s| ==> LastUse(trace, s[i]) > LastUse(trace, s[j])
  }

  /** `Recent` is what it says: every id of the trace once, by decreasing time of last use. */
  lemma {:induction false} RecentIsByLastUse(trace: seq<ExpertId>)
    ensures Distinct(Recent(trace)) && ByLastUse(Recent(trace), trace)
    ensures forall id :: id in Recent(trace) <==> id in trace
  {
    if trace != [] {
      var last, front := |trace| - 1, trace[..|trace| - 1];
      var id, stack := trace[last], Recent(front);
      RecentIsByLastUse(front);
      TouchedDistinct(stack, id);
      RemoveDistinct(stack, id);
      assert trace == front + [id];
      TouchedByLastUse(front, stack, id);
    }
  }

  lemma TouchedByLastUse(trace: seq<ExpertId>, stack: seq<ExpertId>, id: ExpertId)
    requires Distinct(stack) && ByLastUse(stack, trace)
    ensures ByLastUse(Touched(stack, id), trace + [id])
  {
    var touched := Touched(stack, id);
    forall i, j | 0 <= i < j < |touched|
      ensures LastUse(trace + [id], touched[i]) > LastUse(trace + [id], touched[j])
    {
      TouchedPair(trace, stack, id, i, j);
    }
  }

  lemma TouchedPair(trace: seq<ExpertId>, stack: seq<ExpertId>, id: ExpertId, i: nat, j: nat)
    requires Distinct(stack) && ByLastUse(stack, trace) && i < j < |Touched(stack, id)|
    ensures LastUse(trace + [id], Touched(stack, id)[i]) > LastUse(trace + [id], Touched(stack, id)[j])
  {
    var k, l := TouchedKeepsOrder(stack, id, i, j);
  }

  /** Behind the touched id, the others keep their order. */
  lemma TouchedKeepsOrder(stack: seq<ExpertId>, id: ExpertId, i: nat, j: nat) returns (k: nat, l: nat)
    requires Distinct(stack) && i < j < |Touched(stack, id)|
    ensures Touched(stack, id)[j] != id && (i == 0 <==> Touched(stack, id)[i] == id)
    ensures i > 0 ==> k < l < |stack| && stack[k] == Touched(stack, id)[i] && stack[l] == Touched(stack, id)[j]
  {
    var rest := Remove(stack, id);
    RemoveDistinct(stack, id);
    assert Touched(stack, id)[j] == rest[j - 1] && rest[j - 1] in rest;
    if i > 0 {
      assert Touched(stack, id)[i] == rest[i - 1] && rest[i - 1] in rest;
      k, l := RemoveKeepsOrder(stack, id, i - 1, j - 1);
    } else {
      k, l := 0, 0;
    }
  }

  /** Removing an element keeps the relative order of the others. */
  lemma RemoveKeepsOrder(s: seq<ExpertId>, x: ExpertId, i: nat, j: nat) returns (k: nat, l: nat)
    requires Distinct(s) && i < j < |Remove(s, x)|
    ensures k < l < |s| && s[k] == Remove(s, x)[i] && s[l] == Remove(s, x)[j]
  {
    if x in s {
      var at :| 0 <= at < |s| && s[at] == x;
      RemoveAt(s, x, at);
      k, l := if i < at then i else i + 1, if j < at then j else j + 1;
    } else {
      RemoveNothing(s, x);
      k, l := i, j;
    }
  }

  /** The LRU stack property: the recency queue is the first `capacity` entries of the unbounded stack. */
  lemma {:induction false} StackProperty(capacity: nat, trace: seq<ExpertId>)
    requires capacity > 0
    ensures RunPuts(capacity, trace).recency == First(Recent(trace), capacity)
  {
    if trace != [] {
      var front, id := trace[..|trace| - 1], trace[|trace| - 1];
      StackProperty(capacity, front);
      RecentIsByLastUse(front);
      StackStep(RunPuts(capacity, front), Recent(front), id);
    }
  }

  /** The residents are exactly the `capacity` most recently used distinct experts. */
  lemma ResidentsAreMostRecent(capacity: nat, trace: seq<ExpertId>, id: ExpertId)
    requires capacity > 0
    ensures id in RunPuts(capacity, trace).slots <==> id in First(Recent(trace), capacity)
  {
    StackProperty(capacity, trace);
    var c := RunPuts(capacity, trace);
    assert Listed(c.recency, c.slots, id);
  }

  lemma StackStep(c: Lru, stack: seq<ExpertId>, id: ExpertId)
    requires ValidLru(c) && c.capacity > 0 && Distinct(stack) && c.recency == First(stack, c.capacity)
    ensures PutOf(c, id).recency == First(Touched(stack, id), c.capacity)
  {
    ResidentsFit(c);
    assert Listed(c.recency, c.slots, id);
    if id in c.recency {
      TouchInside(stack, c.capacity, id);
    } else if |c.recency| == c.capacity {
      TouchBeyond(stack, c.capacity, id);
    } else {
      RemoveNothing(stack, id);
    }
  }

  lemma TouchInside(stack: seq<ExpertId>, n: nat, id: ExpertId)
    requires id in First(stack, n)
    ensures Touched(First(stack, n), id) == First(Touched(stack, id), n)
  {
    RemoveInside(stack, n, id);
  }

  lemma {:induction false} RemoveInside(s: seq<ExpertId>, n: nat, x: ExpertId)
    requires x in First(s, n)
    ensures n > 0 && Remove(First(s, n), x) == First(Remove(s, x), n - 1)
  {
    assert First(s, n)[1..] == First(s[1..], n - 1);
    if s[0] != x {
      RemoveInside(s[1..], n - 1, x);
    }
  }

  lemma TouchBeyond(stack: seq<ExpertId>, n: nat, id: ExpertId)
    requires Distinct(stack) && 0 < n <= |stack| && id !in First(stack, n)
    ensures [id] + First(stack, n)[..n - 1] == First(Touched(stack, id), n)
  {
    if id in stack {
      var at :| 0 <= at < |stack| && stack[at] == id;
      assert First(stack, n) == stack[..n];
      RemoveAt(stack, id, at);
    } else {
      RemoveNothing(stack, id);
    }
  }

  /** Inclusion: on the same trace a smaller cache never holds an expert that a larger one does not. */
  lemma SmallerIsIncluded(small: nat, large: nat, trace: seq<ExpertId>)
    requires 0 < small <= large
    ensures RunPuts(small, trace).slots.Keys <= RunPuts(large, trace).slots.Keys
    ensures RunPuts(small, trace).recency <= RunPuts(large, trace).recency
  {
    StackProperty(small, trace);
    StackProperty(large, trace);
    forall id | id in RunPuts(small, trace).slots
      ensures id in RunPuts(large, trace).slots
    {
      ResidentsAreMostRecent(small, trace, id);
      ResidentsAreMostRecent(large, trace, id);
    }
  }
}
