/**
 The continuous-batching engine object (continuous.rs): dense slots over the batched model, with chunked
 prefill, decode, retirement and compaction. Every method refines the operation of the same name of the
 specification, so what is proved about whole runs there holds of this object.
 */
module Continuous {
  import opened Arithmetic
  import opened Collections
  import opened Tokens
  import opened Batched
  import opened EngineSpec
  import opened EngineRows
  import opened Retirement
  import opened EngineRuns
  import opened EngineCompletion
  import opened EngineAdmission

  datatype AddResult = Admitted(id: SeqId) | EmptyPrompt | PromptTooLong | AtCapacity

  /** A step returns the new tokens, fails when the batched model rejects the batch, or panics. */
  datatype StepResult = Returned(tokens: seq<(SeqId, Token)>) | BatchRejected | Panicked

  /** Where the rows of a slot are in the batch. */
  datatype PlanEntry = PlanEntry(start: nat, count: nat, wasPrefill: bool)

  /** Active slots are exactly the first ones. */
  predicate Dense(seqs: seq<Option<SeqState>>, active: nat) {
    && active <= |seqs|
    && (forall i :: 0 <= i < active ==> seqs[i].Some?)
    && (forall i :: active <= i < |seqs| ==> seqs[i].None?)
  }

  function States(seqs: seq<Option<SeqState>>, active: nat): (states: seq<SeqState>)
    requires Dense(seqs, active)
    ensures |states| == active
  {
    seq(active, i requires 0 <= i < active => seqs[i].value)
  }

  // ----- planning the rows

  ghost predicate PlanOk(lim: Limits, states: seq<SeqState>, takes: seq<nat>, plan: seq<PlanEntry>, n: nat)
    requires Granted(lim, states, takes) && n <= |states|
  {
    && |plan| == n
    && forall i :: 0 <= i < n ==> EntryOk(lim, states, takes, plan[i], i)
  }

  /** The batch and the plan of the first `n` slots. */
  ghost predicate Planned(lim: Limits, states: seq<SeqState>, takes: seq<nat>, rows: seq<Row>, plan: seq<PlanEntry>,
                          n: nat)
    requires Granted(lim, states, takes) && n <= |states|
  {
    rows == AllRows(lim, states, takes, n) && PlanOk(lim, states, takes, plan, n)
  }

  ghost predicate EntryOk(lim: Limits, states: seq<SeqState>, takes: seq<nat>, entry: PlanEntry, i: nat)
    requires Granted(lim, states, takes) && i < |states|
  {
    && entry.count == takes[i] && entry.start == |AllRows(lim, states, takes, i)|
    && (entry.count > 0 ==> (entry.wasPrefill <==> Prefilling(LiveOf(states[i]))))
  }

  /** Every row is sampled with the counts and the parameters of its own sequence. */
  predicate InputsOk(states: seq<SeqState>, rows: seq<Row>, counts: seq<map<Token, nat>>, params: seq<Params>) {
    && |counts| == |rows| == |params|
    && forall r :: 0 <= r < |rows| ==> InputOk(states, rows[r], counts[r], params[r])
  }

  predicate InputOk(states: seq<SeqState>, row: Row, counts: map<Token, nat>, params: Params) {
    row.slot < |states| && counts == states[row.slot].counts && params == states[row.slot].params
  }

  /** A sequence that still reads its prompt: its next rows come from the pending tokens. */
  lemma PendingRows(lim: Limits, s: SeqState)
    requires SeqOk(lim, s)
    ensures s.pending != [] <==> Prefilling(LiveOf(s))
    ensures s.pending != [] ==> s.counts == map[] && |s.pending| == |PromptOf(s)| - s.len
    ensures forall j :: 0 <= j < |s.pending| ==> s.len + j < |s.allTokens| && s.pending[j] == s.allTokens[s.len + j]
  {
  }

  /** A sequence that decodes: its next row is the token sampled last. */
  lemma DecodeRow(lim: Limits, s: SeqState)
    requires SeqOk(lim, s) && s.pending == []
    ensures s.firstDecode.Some? && s.len + 1 == |s.allTokens| && s.allTokens[s.len] == s.firstDecode.value
  {
  }

  method PushPrompt(ghost lim: Limits, s: SeqState, slot: nat, take: nat, ghost states: seq<SeqState>,
                    rows: seq<Row>, counts: seq<map<Token, nat>>, params: seq<Params>)
    returns (rows': seq<Row>, counts': seq<map<Token, nat>>, params': seq<Params>)
    requires SeqOk(lim, s) && slot < |states| && states[slot] == s && take <= |s.pending|
    requires InputsOk(states, rows, counts, params)
    ensures s.len + take <= |s.allTokens| && rows' == rows + Block(s, slot, take)
    ensures InputsOk(states, rows', counts', params')
  {
    PendingRows(lim, s);
    rows', counts', params' := rows, counts, params;
    for j := 0 to take
      invariant rows' == rows + Block(s, slot, take)[..j]
      invariant InputsOk(states, rows', counts', params')
    {
      rows' := rows' + [Row(s.pending[j], s.len + j, slot)];
      counts' := counts' + [map[]];
      params' := params' + [s.params];
    }
  }

  /** The row budget that is left when the first `i` slots have had their grants. */
  function BudgetLeft(lim: Limits, lives: seq<Live>, budget: nat, i: nat): nat
    requires i <= |lives|
  {
    if i == 0 then budget else
      var left := BudgetLeft(lim, lives, budget, i - 1);
      left - TakeOf(lim, lives[i - 1], left)
  }

  lemma {:induction false} BudgetLeftOfRest(lim: Limits, lives: seq<Live>, budget: nat, i: nat)
    requires i < |lives|
    ensures BudgetLeft(lim, lives, budget, i + 1) ==
            BudgetLeft(lim, lives[1..], budget - TakeOf(lim, lives[0], budget), i)
  {
    if i > 0 {
      BudgetLeftOfRest(lim, lives, budget, i - 1);
    } else {
      assert BudgetLeft(lim, lives, budget, 0) == budget;
    }
  }

  lemma {:induction false} NextTake(lim: Limits, lives: seq<Live>, budget: nat, i: nat)
    requires i < |lives|
    ensures Takes(lim, lives, budget)[i] == TakeOf(lim, lives[i], BudgetLeft(lim, lives, budget, i))
  {
    if i > 0 {
      BudgetLeftOfRest(lim, lives, budget, i - 1);
      NextTake(lim, lives[1..], budget - TakeOf(lim, lives[0], budget), i - 1);
    }
  }

  lemma PlanExtends(lim: Limits, states: seq<SeqState>, takes: seq<nat>, rows: seq<Row>, plan: seq<PlanEntry>, i: nat,
                    rows': seq<Row>, entry: PlanEntry)
    requires Granted(lim, states, takes) && i < |states| && Planned(lim, states, takes, rows, plan, i)
    requires entry.start == |rows| && entry.count == takes[i] && states[i].len + entry.count <= |states[i].allTokens|
    requires entry.count > 0 ==> (entry.wasPrefill <==> Prefilling(LiveOf(states[i])))
    requires rows' == rows + Block(states[i], i, entry.count)
    ensures Planned(lim, states, takes, rows', plan + [entry], i + 1)
  {
  }

  /** The rows of one slot: prompt tokens up to the budget, or the token sampled last, or none. */
  method RowsOfSlot(lim: Limits, s: SeqState, slot: nat, budget: nat, ghost states: seq<SeqState>,
                    rows: seq<Row>, counts: seq<map<Token, nat>>, params: seq<Params>)
    returns (rows': seq<Row>, counts': seq<map<Token, nat>>, params': seq<Params>, entry: PlanEntry)
    requires SeqOk(lim, s) && slot < |states| && states[slot] == s
    requires InputsOk(states, rows, counts, params)
    ensures entry.start == |rows| && entry.count == TakeOf(lim, LiveOf(s), budget)
    ensures entry.count > 0 ==> (entry.wasPrefill <==> Prefilling(LiveOf(s)))
    ensures s.len + entry.count <= |s.allTokens| && rows' == rows + Block(s, slot, entry.count)
    ensures InputsOk(states, rows', counts', params')
  {
    rows', counts', params', entry := rows, counts, params, PlanEntry(|rows|, 0, false);
    PendingRows(lim, s);
    if budget == 0 {
      return;
    }
    if s.pending != [] {
      var take := Min(|s.pending|, budget);
      if lim.gdn {
        take := Min(take, GDN_CHUNK_MAX);
      }
      rows', counts', params' := PushPrompt(lim, s, slot, take, states, rows, counts, params);
      entry := PlanEntry(|rows'| - take, take, true);
    } else if s.len < lim.maxSeqLen {
      DecodeRow(lim, s);
      rows' := rows + [Row(s.firstDecode.value, s.len, slot)];
      counts' := counts + [s.counts];
      params' := params + [s.params];
      entry := PlanEntry(|rows'| - 1, 1, false);
    }
  }

  /** Builds the batch of the step: the blocks that the row budget grants, in slot order. */
  method BuildRows(lim: Limits, states: seq<SeqState>)
    returns (rows: seq<Row>, counts: seq<map<Token, nat>>, params: seq<Params>, plan: seq<PlanEntry>)
    requires StatesOk(lim, states)
    ensures var takes := Takes(lim, LivesOf(states), lim.prefillRows);
            && Granted(lim, states, takes)
            && Planned(lim, states, takes, rows, plan, |states|)
            && InputsOk(states, rows, counts, params)
  {
    hide SeqOk, Takes, TakeGranted, InputOk;
    ghost var lives := LivesOf(states);
    ghost var takes := Takes(lim, lives, lim.prefillRows);
    GrantsFit(lim, states, lim.prefillRows);
    rows, counts, params, plan := [], [], [], [];
    var budget: nat := lim.prefillRows;
    for i := 0 to |states|
      invariant budget == BudgetLeft(lim, lives, lim.prefillRows, i)
      invariant Planned(lim, states, takes, rows, plan, i)
      invariant InputsOk(states, rows, counts, params)
    {
      assert SeqOk(lim, states[i]) && lives[i] == LiveOf(states[i]);
      NextTake(lim, lives, lim.prefillRows, i);
      ghost var before := rows;
      var entry;
      rows, counts, params, entry := RowsOfSlot(lim, states[i], i, budget, states, rows, counts, params);
      PlanExtends(lim, states, takes, before, plan, i, rows, entry);
      plan := plan + [entry];
      budget := budget - entry.count;
    }
  }

  // ----- the samples

  /** All rows of the batch are sampled from the streams of their slots, with their counts and parameters. */
  ghost predicate SamplesOk(lim: Limits, states: seq<SeqState>, batch: nat, rows: seq<Row>,
                            counts: seq<map<Token, nat>>, params: seq<Params>, sampled: seq<Token>)
  {
    && InputsOk(states, rows, counts, params) && |sampled| == |rows|
    && forall r :: 0 <= r < |rows| ==>
         SampledAlone(lim.model, rows[r], StreamsOf(states, batch), lim.maxSeqLen, counts[r], params[r], sampled[r])
  }

  /** The row at the end of a sequence is sampled exactly as that sequence alone would be. */
  lemma SampleAtEnd(lim: Limits, states: seq<SeqState>, batch: nat, rows: seq<Row>, counts: seq<map<Token, nat>>,
                    params: seq<Params>, sampled: seq<Token>, i: nat, r: nat)
    requires SamplesOk(lim, states, batch, rows, counts, params, sampled)
    requires i < |states| <= batch && SeqOk(lim, states[i])
    requires r < |rows| && rows[r].slot == i && rows[r].pos + 1 == |states[i].allTokens|
    ensures sampled[r] == NextToken(lim.model, LiveOf(states[i]).req, states[i].generated)
  {
    assert InputOk(states, rows[r], counts[r], params[r]);
    SampleOfLast(lim, states[i], StreamsOf(states, batch), rows[r], sampled[r]);
  }

  lemma SampleOfLast(lim: Limits, s: SeqState, streams: seq<seq<Token>>, row: Row, token: Token)
    requires SeqOk(lim, s) && row.pos + 1 == |s.allTokens| && row.slot < |streams| && streams[row.slot] == s.allTokens
    requires SampledAlone(lim.model, row, streams, lim.maxSeqLen, s.counts, s.params, token)
    ensures token == NextToken(lim.model, LiveOf(s).req, s.generated)
  {
    assert s.allTokens[..row.pos + 1] == s.allTokens;
  }

  lemma SampleForSlot(lim: Limits, states: seq<SeqState>, takes: seq<nat>, batch: nat, rows: seq<Row>,
                      counts: seq<map<Token, nat>>, params: seq<Params>, sampled: seq<Token>, i: nat, last: int)
    requires Granted(lim, states, takes) && i < |states| <= batch && SeqOk(lim, states[i]) && takes[i] > 0
    requires rows == AllRows(lim, states, takes, |states|)
    requires SamplesOk(lim, states, batch, rows, counts, params, sampled)
    requires last == |AllRows(lim, states, takes, i)| + takes[i] - 1
    ensures TakeGranted(lim, states[i], takes[i]) && 0 <= last < |sampled|
    ensures Emits(LiveOf(states[i]), takes[i]) ==>
              sampled[last] == NextToken(lim.model, LiveOf(states[i]).req, states[i].generated)
  {
    LastRow(lim, states, takes, i, rows, last);
    assert TakeGranted(lim, states[i], takes[i]);
    if Emits(LiveOf(states[i]), takes[i]) {
      EmitsAtEnd(lim, states[i], takes[i]);
      SampleAtEnd(lim, states, batch, rows, counts, params, sampled, i, last);
    }
  }

  /** A slot after its samples: as the specification advances it, its stream only longer. */
  ghost predicate AbsorbedOk(lim: Limits, was: SeqState, now: SeqState, live: Live) {
    SeqOk(lim, now) && LiveOf(now) == live && was.allTokens <= now.allTokens
  }

  /** The slots below `n` have their samples, the others are still as before. */
  ghost predicate AbsorbedUpTo(lim: Limits, states: seq<SeqState>, seqs: seq<Option<SeqState>>, after: seq<Live>,
                               n: nat)
  {
    && |after| == |states| && n <= |states| && Dense(seqs, |states|)
    && (forall k :: 0 <= k < n ==> AbsorbedOk(lim, states[k], seqs[k].value, after[k]))
    && (forall k :: n <= k < |states| ==> seqs[k].value == states[k])
  }

  /** The sequence `after` is `before` advanced by `take` rows. */
  predicate AdvancedAt(lim: Limits, before: Live, take: nat, after: Live) {
    before.req.prompt != [] && after == Advance(lim, before, take)
  }

  /** The finished slots and the outputs of the first `n` slots have been collected. */
  ghost predicate Collected(before: seq<Live>, takes: seq<nat>, after: seq<Live>, n: nat, done: seq<nat>,
                            outputs: seq<(SeqId, Token)>)
    requires Emitting(before, takes, after) && n <= |before|
  {
    && done == RuleSlots(before, takes, after, n)
    && Outputs(before, takes, after) == outputs + Outputs(before[n..], takes[n..], after[n..])
  }

  lemma CollectedNext(before: seq<Live>, takes: seq<nat>, after: seq<Live>, i: nat, done: seq<nat>,
                      outputs: seq<(SeqId, Token)>)
    requires Emitting(before, takes, after) && i < |before| && Collected(before, takes, after, i, done, outputs)
    ensures EmitsOk(before[i], takes[i], after[i])
    ensures Collected(before, takes, after, i + 1,
                      if DoneByRule(before[i], takes[i], after[i]) then done + [i] else done,
                      if Emits(before[i], takes[i])
                      then outputs + [(after[i].id, after[i].generated[|after[i].generated| - 1])] else outputs)
  {
  }

  lemma CollectedAll(before: seq<Live>, takes: seq<nat>, after: seq<Live>, done: seq<nat>,
                     outputs: seq<(SeqId, Token)>)
    requires Emitting(before, takes, after) && Collected(before, takes, after, |before|, done, outputs)
    ensures done == RuleSlots(before, takes, after, |before|) && outputs == Outputs(before, takes, after)
  {
  }

  lemma CollectedNone(before: seq<Live>, takes: seq<nat>, after: seq<Live>)
    requires Emitting(before, takes, after)
    ensures Collected(before, takes, after, 0, [], [])
  {
  }

  /** One slot's share of the samples; a slot without rows is left alone. */
  method AbsorbSlot(ghost lim: Limits, s: SeqState, entry: PlanEntry, sampled: seq<Token>,
                    ghost states: seq<SeqState>, ghost takes: seq<nat>, ghost batch: nat, ghost rows: seq<Row>,
                    ghost counts: seq<map<Token, nat>>, ghost params: seq<Params>, ghost i: nat, ghost after: Live)
    returns (t: SeqState, emitted: bool, stops: bool)
    requires Granted(lim, states, takes) && i < |states| <= batch && SeqOk(lim, s) && s == states[i]
    requires rows == AllRows(lim, states, takes, |states|)
    requires EntryOk(lim, states, takes, entry, i)
    requires SamplesOk(lim, states, batch, rows, counts, params, sampled)
    requires AdvancedAt(lim, LiveOf(s), takes[i], after)
    ensures AbsorbedOk(lim, s, t, after) && t.id == after.id && t.generated == after.generated
    ensures emitted <==> Emits(LiveOf(s), takes[i])
    ensures emitted ==> t.generated != []
    ensures stops <==> DoneByRule(LiveOf(s), takes[i], after)
  {
    if entry.count == 0 {
      return s, false, false;
    }
    var last := entry.start + entry.count - 1;
    SampleForSlot(lim, states, takes, batch, rows, counts, params, sampled, i, last);
    t, emitted, stops := Absorb(lim, s, entry.count, entry.wasPrefill, sampled[last]);
  }

  /** Hands the samples to the slots, collecting the outputs and the slots that a finish rule stops. */
  method AbsorbAll(ghost lim: Limits, seqs: seq<Option<SeqState>>, active: nat, plan: seq<PlanEntry>,
                   sampled: seq<Token>, ghost takes: seq<nat>, ghost rows: seq<Row>, ghost counts: seq<map<Token, nat>>,
                   ghost params: seq<Params>, ghost after: seq<Live>)
    returns (next: seq<Option<SeqState>>, done: seq<nat>, outputs: seq<(SeqId, Token)>)
    requires Dense(seqs, active) && StatesOk(lim, States(seqs, active)) && Granted(lim, States(seqs, active), takes)
    requires Emitting(LivesOf(States(seqs, active)), takes, after)
    requires forall i :: 0 <= i < active ==> AdvancedAt(lim, LiveOf(seqs[i].value), takes[i], after[i])
    requires Planned(lim, States(seqs, active), takes, rows, plan, active)
    requires SamplesOk(lim, States(seqs, active), |seqs|, rows, counts, params, sampled)
    ensures |next| == |seqs| && AbsorbedUpTo(lim, States(seqs, active), next, after, active)
    ensures done == RuleSlots(LivesOf(States(seqs, active)), takes, after, active)
    ensures outputs == Outputs(LivesOf(States(seqs, active)), takes, after)
  {
    hide SeqOk, AdvancedAt, AllRows, Collected, SamplesOk;
    ghost var states := States(seqs, active);
    ghost var lives := LivesOf(states);
    CollectedNone(lives, takes, after);
    next, done, outputs := seqs, [], [];
    for i := 0 to active
      invariant |next| == |seqs| && AbsorbedUpTo(lim, states, next, after, i)
      invariant Collected(lives, takes, after, i, done, outputs)
    {
      CollectedNext(lives, takes, after, i, done, outputs);
      assert lives[i] == LiveOf(states[i]) && SeqOk(lim, states[i]) && EntryOk(lim, states, takes, plan[i], i);
      var t, emitted, stops := AbsorbSlot(lim, next[i].value, plan[i], sampled, states, takes, |seqs|, rows, counts,
                                          params, i, after[i]);
      next := next[i := Some(t)];
      if emitted {
        outputs := outputs + [(t.id, t.generated[|t.generated| - 1])];
      }
      if stops {
        done := done + [i];
      }
    }
    CollectedAll(lives, takes, after, done, outputs);
  }

  /** The context is full: nothing left to prefill, and no position left to decode into. */
  method IsLimited(lim: Limits, s: SeqState) returns (limited: bool)
    requires SeqOk(lim, s)
    ensures limited <==> AtLimit(lim, LiveOf(s))
  {
    PendingRows(lim, s);
    limited := s.pending == [] && s.len >= lim.maxSeqLen;
  }

  lemma LimitNext(lim: Limits, lives: seq<Live>, done: seq<nat>, i: nat)
    requires i < |lives|
    ensures var all := done + LimitSlots(lim, lives, done, i);
            && (i in all <==> i in done)
            && done + LimitSlots(lim, lives, done, i + 1) ==
               if AtLimit(lim, lives[i]) && i !in all then all + [i] else all
  {
    LimitSlotsAre(lim, lives, done, i);
    var slots := LimitSlots(lim, lives, done, i);
    assert (done + slots) + [i] == done + (slots + [i]) && slots + [] == slots;
  }

  /** The second pass over the slots: those at the context limit that no rule has listed. */
  method LimitPass(lim: Limits, seqs: seq<Option<SeqState>>, active: nat, done: seq<nat>) returns (all: seq<nat>)
    requires Dense(seqs, active) && StatesOk(lim, States(seqs, active))
    ensures all == done + LimitSlots(lim, LivesOf(States(seqs, active)), done, active)
  {
    hide SeqOk, AtLimit;
    ghost var lives := LivesOf(States(seqs, active));
    all := done;
    for i := 0 to active
      invariant all == done + LimitSlots(lim, lives, done, i)
    {
      var s := seqs[i].value;
      assert SeqOk(lim, States(seqs, active)[i]) && lives[i] == LiveOf(s);
      LimitNext(lim, lives, done, i);
      var limited := IsLimited(lim, s);
      if limited && i !in all {
        all := all + [i];
      }
    }
  }

  // ----- the cache

  /** The cache also holds the rows of the step. */
  ghost predicate KvAdvanced(m: Model, cache: Cache, states: seq<SeqState>, takes: seq<nat>)
    requires |takes| == |states|
  {
    forall i: nat :: i < |states| ==> SlotHeld(m, cache, i, states[i].allTokens, states[i].len + takes[i])
  }

  lemma KvIsAdvanced(lim: Limits, cache: Cache, states: seq<SeqState>, takes: seq<nat>, batch: nat)
    requires StatesOk(lim, states) && Granted(lim, states, takes) && |states| <= batch && |cache.kv| == |cache.rec|
    requires var rows := AllRows(lim, states, takes, |states|);
             CacheHeld(lim.model, cache, StreamsOf(states, batch), rows, |rows|, BasesOf(states, batch))
    ensures KvAdvanced(lim.model, cache, states, takes)
  {
    hide SlotHeld, CacheHeld, AllRows;
    forall i: nat | i < |states|
      ensures SlotHeld(lim.model, cache, i, states[i].allTokens, states[i].len + takes[i])
    {
      assert SeqOk(lim, states[i]) && LiveOk(lim, LiveOf(states[i]));
      HeldAfter(lim, cache, states, takes, batch, i);
    }
  }

  /** Compaction up to slot `i`: the slots above `slot` have moved down by one. */
  predicate Moved(was: seq<Option<SeqState>>, now: seq<Option<SeqState>>, slot: nat, i: nat) {
    && |now| == |was| && slot < i <= |was|
    && (forall k :: 0 <= k < slot ==> now[k] == was[k])
    && (forall k :: slot <= k < i - 1 ==> now[k] == was[k + 1])
    && (forall k :: i <= k < |was| ==> now[k] == was[k])
  }

  /** And so have their cache prefixes. */
  ghost predicate KvMoved(m: Model, cache: Cache, states: seq<SeqState>, slot: nat, i: nat) {
    forall k: nat :: k < |states| ==> MovedAt(m, cache, states, slot, i, k)
  }

  ghost predicate MovedAt(m: Model, cache: Cache, states: seq<SeqState>, slot: nat, i: nat, k: nat)
    requires k < |states|
  {
    && (k < slot || k >= i ==> SlotHeld(m, cache, k, states[k].allTokens, states[k].len))
    && (slot < k < i ==> SlotHeld(m, cache, k - 1, states[k].allTokens, states[k].len))
  }

  lemma KvMovedNext(m: Model, was: Cache, now: Cache, states: seq<SeqState>, slot: nat, i: nat)
    requires slot < i < |states| && KvMoved(m, was, states, slot, i)
    requires SlotCopied(m, was, now, i, i - 1, states[i].len)
    ensures KvMoved(m, now, states, slot, i + 1)
  {
    hide SlotCopied, SlotHeld;
    var next := i + 1;
    forall k: nat | k < |states|
      ensures MovedAt(m, now, states, slot, next, k)
    {
      assert MovedAt(m, was, states, slot, i, k);
      var at := if slot < k < i then k - 1 else k;
      if k != slot {
        HeldAfterCopy(m, was, now, i, i - 1, states[i].len, at, states[k].allTokens, states[k].len);
      }
    }
  }

  /** After the compaction the slots are the old ones without the finished one. */
  lemma CompactedIsSound(lim: Limits, m: Model, cache: Cache, was: seq<Option<SeqState>>, now: seq<Option<SeqState>>,
                         active: nat, slot: nat)
    requires Dense(was, active) && slot < active && Moved(was, now, slot, active)
    requires StatesOk(lim, States(was, active)) && KvMoved(m, cache, States(was, active), slot, active)
    ensures var next := now[active - 1 := None];
            && Dense(next, active - 1)
            && States(next, active - 1) == Without(States(was, active), slot)
            && StatesOk(lim, States(next, active - 1))
            && KvOk(m, cache, States(next, active - 1))
            && LivesOf(States(next, active - 1)) == Without(LivesOf(States(was, active)), slot)
  {
    var states, next := States(was, active), now[active - 1 := None];
    var after := States(next, active - 1);
    assert after == Without(states, slot);
    forall k: nat | k < active - 1
      ensures SlotHeld(m, cache, k, after[k].allTokens, after[k].len) && SeqOk(lim, after[k])
    {
      var from: nat := if k < slot then k else k + 1;
      assert after[k] == states[from] && MovedAt(m, cache, states, slot, active, from) && SeqOk(lim, states[from]);
    }
  }

  /** After the forward pass and the samples, every slot's prefix still belongs to its own sequence. */
  lemma AbsorbedIsSound(lim: Limits, m: Model, cache: Cache, states: seq<SeqState>, takes: seq<nat>,
                        next: seq<Option<SeqState>>, after: seq<Live>)
    requires |takes| == |states| && KvAdvanced(m, cache, states, takes)
    requires AbsorbedUpTo(lim, states, next, after, |states|)
    requires forall i :: 0 <= i < |states| ==> after[i].len == states[i].len + takes[i]
    ensures StatesOk(lim, States(next, |states|)) && LivesOf(States(next, |states|)) == after
    ensures KvOk(m, cache, States(next, |states|))
  {
    var now := States(next, |states|);
    forall i: nat | i < |now|
      ensures SlotHeld(m, cache, i, now[i].allTokens, now[i].len)
    {
      assert LivesOf(now)[i] == after[i];
      assert SlotHeld(m, cache, i, states[i].allTokens, states[i].len + takes[i]);
      HeldOfLonger(m, cache, i, states[i].allTokens, now[i].allTokens, now[i].len);
    }
  }

  /** The batch of a step passes every check of the batched model. */
  lemma BatchIsAccepted(model: BatchedModel, lim: Limits, states: seq<SeqState>, takes: seq<nat>)
    requires Granted(lim, states, takes) && |states| <= model.batch
    requires lim.maxSeqLen == model.maxSeqLen && lim.gdn == model.gdn
    ensures model.Accepts(AllRows(lim, states, takes, |states|))
  {
    var rows := AllRows(lim, states, takes, |states|);
    forall r: nat | r < |rows|
      ensures rows[r].pos < model.maxSeqLen && rows[r].slot < model.batch
    {
      RowsAre(lim, states, takes, |states|, r);
      assert RowOf(states, takes, rows[r], |states|);
      assert TakeGranted(lim, states[rows[r].slot], takes[rows[r].slot]);
    }
    if lim.gdn {
      RowsAreRuns(lim, states, takes, |states|);
    }
  }

  /** The output record of a finishing sequence. */
  method RecordOf(s: SeqState) returns (f: Finished)
    ensures f == FinishOf(LiveOf(s))
  {
    var ends := HasStop(s.generated, s.stops);
    var stopped := (s.generated != [] && s.eos == Some(s.generated[|s.generated| - 1])) || ends;
    f := Finished(s.id, s.generated, stopped);
  }

  lemma LenFits(lim: Limits, s: SeqState)
    requires SeqOk(lim, s)
    ensures s.len <= lim.maxSeqLen
  {
  }

  lemma RetireNext(active: seq<Live>, finished: seq<Finished>, done: seq<nat>, k: nat)
    requires k < |done|
    ensures Retire(active, finished, done[..k + 1]) ==
            if done[k] >= |active| then None
            else Retire(Without(active, done[k]), finished + [FinishOf(active[done[k]])], done[..k])
  {
    assert done[..k + 1][..k] == done[..k];
  }

  lemma StepOfNone(lim: Limits, e: Engine)
    requires e.active == []
    ensures StepEngine(lim, e) == Some(e) && StepOutputs(lim, e) == []
  {
  }

  lemma {:induction false} SlotIs(active: seq<Live>, id: SeqId, i: nat)
    requires i <= |active| && (forall k :: 0 <= k < i ==> active[k].id != id) && (i < |active| ==> active[i].id == id)
    ensures SlotOf(active, id) == i
  {
    if i > 0 {
      SlotIs(active[1..], id, i - 1);
    }
  }

  /** What a step grants, and what it leaves, in terms of the slots. */
  lemma StepGrants(lim: Limits, e: Engine, states: seq<SeqState>)
    requires StatesOk(lim, states) && e.active == LivesOf(states) && AllOk(lim, e.active)
    ensures var takes, after := Takes(lim, e.active, lim.prefillRows), AfterTakes(lim, e);
            && Emitting(e.active, takes, after)
            && forall i :: 0 <= i < |states| ==>
                 AdvancedAt(lim, e.active[i], takes[i], after[i]) && after[i].len == states[i].len + takes[i]
  {
  }

  /** The operations lead the specification to this state. */
  ghost predicate Reached(lim: Limits, history: seq<Op>, e: Engine) {
    Run(lim, history).Some? && Run(lim, history).value.engine == e
  }

  lemma ReachedStep(lim: Limits, history: seq<Op>, e: Engine)
    requires Reached(lim, history, e) && AllOk(lim, e.active)
    ensures StepEngine(lim, e).Some? ==> Reached(lim, history + [Op.Step], StepEngine(lim, e).value)
    ensures StepEngine(lim, e).None? ==> Run(lim, history + [Op.Step]).None?
  {
  }

  lemma ReachedCancel(lim: Limits, history: seq<Op>, e: Engine, id: SeqId)
    requires Reached(lim, history, e)
    ensures var i := SlotOf(e.active, id);
            Reached(lim, history + [Op.Cancel(id)], if i < |e.active| then FinishEngine(e, i) else e)
  {
  }

  lemma PanicIsDisorderly(lim: Limits, ops: seq<Op>)
    requires Run(lim, ops).None?
    ensures !Orderly(lim, ops)
  {
    if Orderly(lim, ops) {
      OrderlyRunsAreExact(lim, ops);
    }
  }

  /** Requests that fit the context never make a step panic. */
  lemma FittingStepReturns(lim: Limits, history: seq<Op>, e: Engine)
    requires Reached(lim, history, e) && AllOk(lim, e.active) && AdmissionsFit(lim, history)
    ensures StepEngine(lim, e).Some?
  {
    hide Run, StepEngine, Orderly;
    ReachedStep(lim, history, e);
    FittingRunsAreOrderly(lim, history + [Op.Step]);
    OrderlyRunsAreExact(lim, history + [Op.Step]);
  }

  /**
   What the engine may report for an id: the first tokens that its request generates alone, as the steps returned
   them. After an orderly run, and in particular when every request fits the context, that is all of them once the
   sequence is not live, unless it was cancelled.
   */
  ghost predicate IsResult(lim: Limits, ops: seq<Op>, id: SeqId, g: seq<Token>)
    requires Run(lim, ops).Some?
  {
    var t := Run(lim, ops).value;
    if id !in t.requests then g == [] else
      && t.requests[id].prompt != []
      && g == Greedy(lim.model, t.requests[id], |g|)
      && g == TokensOf(t.emitted, id)
      && (Orderly(lim, ops) || AdmissionsFit(lim, ops) ==>
            && g <= Solo(lim, t.requests[id], 1)
            && (!IsLive(t.engine.active, id) && id !in t.cancelled ==> g == Solo(lim, t.requests[id], 1)))
  }

  lemma OrderlyIfFitting(lim: Limits, ops: seq<Op>)
    ensures AdmissionsFit(lim, ops) ==> Orderly(lim, ops)
  {
    if AdmissionsFit(lim, ops) {
      FittingRunsAreOrderly(lim, ops);
    }
  }

  lemma FinishedResult(lim: Limits, ops: seq<Op>, k: nat)
    requires Run(lim, ops).Some? && k < |Run(lim, ops).value.engine.finished|
    ensures var f := Run(lim, ops).value.engine.finished[k]; IsResult(lim, ops, f.id, f.generated)
  {
    var t := Run(lim, ops).value;
    assert FinishedInv(lim, t, t.engine.finished[k]);
    if Orderly(lim, ops) || AdmissionsFit(lim, ops) {
      OrderlyIfFitting(lim, ops);
      FinishedIsSolo(lim, ops, k);
    }
  }

  lemma LiveResult(lim: Limits, ops: seq<Op>, i: nat)
    requires Run(lim, ops).Some? && i < |Run(lim, ops).value.engine.active|
    ensures var s := Run(lim, ops).value.engine.active[i]; IsResult(lim, ops, s.id, s.generated)
  {
    var t := Run(lim, ops).value;
    assert LiveInv(lim, t, t.engine.active[i]) && IsLive(t.engine.active, t.engine.active[i].id);
    if Orderly(lim, ops) || AdmissionsFit(lim, ops) {
      OrderlyIfFitting(lim, ops);
      FinishedIsSolo(lim, ops, i);
    }
  }

  lemma NoResult(lim: Limits, ops: seq<Op>, id: SeqId)
    requires Run(lim, ops).Some?
    requires var e := Run(lim, ops).value.engine;
             && (forall k :: 0 <= k < |e.finished| ==> e.finished[k].id != id)
             && SlotOf(e.active, id) == |e.active|
    ensures IsResult(lim, ops, id, [])
  {
    var t := Run(lim, ops).value;
    assert IdOk(t, id);
    if id in AllIds(t.engine) {
      var j :| 0 <= j < |AllIds(t.engine)| && AllIds(t.engine)[j] == id;
      assert j < |t.engine.active|;
      SlotFound(t.engine.active, id, j);
    }
  }

  lemma {:induction false} SlotFound(active: seq<Live>, id: SeqId, j: nat)
    requires j < |active| && active[j].id == id
    ensures SlotOf(active, id) < |active|
  {
    if j > 0 {
      SlotFound(active[1..], id, j - 1);
    }
  }

  /** Steps admit nothing. */
  lemma StepsSnoc(lim: Limits, history: seq<Op>, n: nat)
    ensures (history + Steps(n)) + [Op.Step] == history + Steps(n + 1)
    ensures AdmissionsFit(lim, history) ==> AdmissionsFit(lim, history + Steps(n))
  {
  }

  // ----- the engine object

  class ContinuousModel {
    const model: BatchedModel
    const prefillRows: nat
    var seqs: seq<Option<SeqState>>
    var active: nat
    var finished: seq<Finished>
    var nextId: SeqId
    /** The operations so far. */
    ghost var history: seq<Op>

    function Lim(): Limits
      reads this
    {
      Limits(model.m, |seqs|, prefillRows, model.maxSeqLen, model.gdn)
    }

    ghost predicate SlotsOk()
      reads this
    {
      Dense(seqs, active) && StatesOk(Lim(), States(seqs, active))
    }

    /** The state that the specification sees. */
    ghost function Abs(): (e: Engine)
      requires SlotsOk()
      reads this
      ensures AllOk(Lim(), e.active)
    {
      Engine(LivesOf(States(seqs, active)), finished, nextId)
    }

    /** The slots are sound, and the cache prefix of every slot belongs to its own sequence. */
    ghost predicate Sound()
      reads this, model
    {
      && SlotsOk()
      && model.Valid() && model.batch == |seqs| && model.rowCapacity == prefillRows && |seqs| <= prefillRows
      && KvOk(model.m, model.cache, States(seqs, active))
    }

    /** Sound, and in the state that the specification reaches by the same operations. */
    ghost predicate Valid()
      reads this, model
    {
      Sound() && Reached(Lim(), history, Abs())
    }

    /** An engine over a fresh batched model; the row budget is never below the number of slots. */
    constructor (m: Model, capacity: nat, rows: nat, maxSeqLen: nat, gdn: bool, memory: Cache)
      requires Shaped(memory, m.layers, capacity, maxSeqLen)
      requires !gdn ==> forall l :: 0 <= l < m.layers ==> !m.recurrent(l)
      ensures Valid() && fresh(model) && history == []
      ensures Lim() == Limits(m, capacity, if rows > capacity then rows else capacity, maxSeqLen, gdn)
    {
      var budget := if rows > capacity then rows else capacity;
      var batched := new BatchedModel(m, capacity, budget, maxSeqLen, gdn, memory);
      model, prefillRows := batched, budget;
      seqs, active, finished, nextId := seq(capacity, _ => None), 0, [], 1;
      history := [];
      new;
      assert LivesOf(States(seqs, active)) == [];
    }

    /** Admits a sequence into the next free slot, or reports why not; then nothing changes. */
    method Add(prompt: seq<Token>, maxNew: nat, eos: Option<Token>, stops: seq<seq<Token>>, params: Params)
      returns (r: AddResult)
      requires Valid()
      modifies this, model`cache
      ensures Valid() && Lim() == old(Lim())
      ensures history == old(history) + [Op.Add(Request(prompt, maxNew, eos, stops, params))]
      ensures r.Admitted? <==> Admits(Lim(), old(Abs()), Request(prompt, maxNew, eos, stops, params))
      ensures r.Admitted? ==> r.id == old(nextId)
      ensures r.EmptyPrompt? ==> prompt == []
      ensures r.PromptTooLong? ==> |prompt| > model.maxSeqLen
      ensures r.AtCapacity? ==> active == |seqs|
      ensures Abs() == if r.Admitted? then AddEngine(old(Abs()), Request(prompt, maxNew, eos, stops, params))
                       else old(Abs())
    {
      hide SeqOk, SlotHeld, KvOk, StatesOk;
      ghost var lim, req := Lim(), Request(prompt, maxNew, eos, stops, params);
      history := history + [Op.Add(req)];
      if prompt == [] {
        return EmptyPrompt;
      }
      if |prompt| > model.maxSeqLen {
        return PromptTooLong;
      }
      if active >= |seqs| {
        return AtCapacity;
      }
      ghost var was := States(seqs, active);
      var id, slot := nextId, active;
      nextId := nextId + 1;
      ghost var cache := model.cache;
      model.ClearGdnSlot(slot);
      var s := SeqState(id, prompt, [], prompt, maxNew, eos, stops, params, map[], 0, None);
      seqs := seqs[slot := Some(s)];
      active := active + 1;
      AddedIsSound(lim, model.m, cache, model.cache, was, s, req);
      assert States(seqs, active) == was + [s];
      assert LivesOf(was + [s]) == LivesOf(was) + [Live(id, req, 0, [])];
      r := Admitted(id);
    }

    /** The batched forward; an empty batch is skipped. The batch is never rejected. */
    method Forward(rows: seq<Row>, counts: seq<map<Token, nat>>, params: seq<Params>, ghost takes: seq<nat>)
      returns (rejected: bool, sampled: seq<Token>)
      requires Sound() && Granted(Lim(), States(seqs, active), takes)
      requires rows == AllRows(Lim(), States(seqs, active), takes, active) && |rows| <= prefillRows
      requires InputsOk(States(seqs, active), rows, counts, params)
      modifies model`cache
      ensures model.Valid() && !rejected
      ensures SamplesOk(Lim(), States(seqs, active), |seqs|, rows, counts, params, sampled)
      ensures KvAdvanced(model.m, model.cache, States(seqs, active), takes)
    {
      hide SeqOk, SlotHeld, KvOk, CacheHeld, BatchFits, StartsAtBases, AllRows, Granted;
      ghost var lim, states := Lim(), States(seqs, active);
      ghost var streams, bases := StreamsOf(states, |seqs|), BasesOf(states, |seqs|);
      HeldBefore(model.m, model.cache, states, |seqs|, rows);
      sampled := [];
      if rows != [] {
        BatchIsAccepted(model, lim, states, takes);
        BatchIsComplete(lim, states, takes, |seqs|);
        RowsStartAtBases(lim, states, takes, |seqs|);
        var out := model.DecodeStepExplicit(rows, counts, params, streams, bases);
        if out.Rejected? {
          return true, [];
        }
        sampled := out.tokens;
      }
      rejected := false;
      KvIsAdvanced(lim, model.cache, states, takes, |seqs|);
    }

    /** Records the output of a sequence and moves the higher slots down, with their cache. */
    method Finish(slot: nat)
      requires Sound() && slot < active
      modifies this`seqs, this`active, this`finished, model`cache
      ensures Sound() && |seqs| == |old(seqs)| && Abs() == FinishEngine(old(Abs()), slot)
    {
      hide SeqOk, SlotHeld, KvMoved, KvOk, StatesOk;
      ghost var lim, was := Lim(), seqs;
      var record := RecordOf(seqs[slot].value);
      finished := finished + [record];
      Compact(slot);
      CompactedIsSound(lim, model.m, model.cache, was, seqs, active, slot);
      ghost var next, fewer := seqs[active - 1 := None], active - 1;
      seqs := seqs[active - 1 := None];
      active := active - 1;
      assert States(seqs, active) == States(next, fewer);
    }

    method Compact(slot: nat)
      requires Sound() && slot < active
      modifies this`seqs, model`cache
      ensures model.Valid() && Moved(old(seqs), seqs, slot, active)
      ensures KvMoved(model.m, model.cache, States(old(seqs), active), slot, active)
    {
      hide SeqOk, SlotHeld;
      ghost var was, states, first := seqs, States(seqs, active), slot + 1;
      forall k: nat | k < |states|
        ensures MovedAt(model.m, model.cache, states, slot, first, k)
      {
        assert SlotHeld(model.m, model.cache, k, states[k].allTokens, states[k].len);
      }
      for i := slot + 1 to active
        invariant model.Valid() && Moved(was, seqs, slot, i)
        invariant KvMoved(model.m, model.cache, states, slot, i)
      {
        assert seqs[i].value == states[i];
        LenFits(Lim(), states[i]);
        ghost var cache := model.cache;
        model.CopySeqKv(i, i - 1, seqs[i].value.len);
        model.CopyGdnSlot(i, i - 1);
        KvMovedNext(model.m, cache, model.cache, states, slot, i);
        seqs := seqs[i - 1 := seqs[i]][i := None];
      }
    }

    /** Retires the listed slots from the last to the first; panics when a position is out of range. */
    method RetireAll(done: seq<nat>) returns (panicked: bool)
      requires Sound()
      modifies this`seqs, this`active, this`finished, model`cache
      ensures |seqs| == |old(seqs)|
      ensures panicked <==> Retire(old(Abs()).active, old(finished), done).None?
      ensures !panicked ==> Sound() && Some((Abs().active, finished)) == Retire(old(Abs()).active, old(finished), done)
    {
      ghost var result := Retire(Abs().active, finished, done);
      assert done[..|done|] == done;
      var k: nat := |done|;
      while k > 0
        invariant k <= |done| && Sound() && |seqs| == |old(seqs)|
        invariant Retire(Abs().active, finished, done[..k]) == result
      {
        k := k - 1;
        RetireNext(Abs().active, finished, done, k);
        if done[k] >= active {
          return true;
        }
        Finish(done[k]);
      }
      panicked := false;
    }

    /**
     One step: build the batch, run it, hand out the samples, retire what is done. It refines the step of the
     specification, panics exactly when that does, and its batch is never rejected.
     */
    method Step() returns (r: StepResult)
      requires Valid()
      modifies this, model`cache
      ensures |seqs| == |old(seqs)| && history == old(history) + [Op.Step] && !r.BatchRejected?
      ensures r.Panicked? <==> StepEngine(old(Lim()), old(Abs())).None?
      ensures r.Panicked? ==> Run(Lim(), history).None?
      ensures AdmissionsFit(old(Lim()), old(history)) ==> r.Returned?
      ensures r.Returned? ==>
                && Valid()
                && Abs() == StepEngine(Lim(), old(Abs())).value
                && r.tokens == StepOutputs(Lim(), old(Abs()))
    {
      hide SeqOk, SlotHeld, Run, KvOk, StepEngine, StepOutputs, AdmissionsFit;
      ReachedStep(Lim(), history, Abs());
      if AdmissionsFit(Lim(), history) {
        FittingStepReturns(Lim(), history, Abs());
      }
      r := StepSlots();
      history := history + [Op.Step];
    }

    method StepSlots() returns (r: StepResult)
      requires Sound()
      modifies this`seqs, this`active, this`finished, model`cache
      ensures |seqs| == |old(seqs)| && !r.BatchRejected?
      ensures r.Panicked? <==> StepEngine(old(Lim()), old(Abs())).None?
      ensures r.Returned? ==>
                && Sound() && Abs() == StepEngine(Lim(), old(Abs())).value
                && r.tokens == StepOutputs(Lim(), old(Abs()))
    {
      hide SeqOk, SlotHeld;
      if active == 0 {
        StepOfNone(Lim(), Abs());
        return Returned([]);
      }
      var rejected, done, outputs := AdvanceSlots();
      if rejected {
        return BatchRejected;
      }
      var panicked := RetireAll(done);
      r := if panicked then Panicked else Returned(outputs);
    }

    /** The step up to retirement: every slot advances by its grant, and the done list is complete. */
    method AdvanceSlots() returns (rejected: bool, done: seq<nat>, outputs: seq<(SeqId, Token)>)
      requires Sound()
      modifies this`seqs, model`cache
      ensures !rejected && Sound() && |seqs| == |old(seqs)|
      ensures Abs() == old(Abs()).(active := AfterTakes(Lim(), old(Abs())))
      ensures done == StepDone(Lim(), old(Abs())) && outputs == StepOutputs(Lim(), old(Abs()))
    {
      hide SeqOk, SlotHeld, Takes, AllRows;
      var lim := Lim();
      ghost var states, lives := States(seqs, active), Abs().active;
      ghost var takes, after := Takes(lim, lives, prefillRows), AfterTakes(lim, Abs());
      RowsFitBudget(lim, states, prefillRows);
      StepGrants(lim, Abs(), states);
      var rows, counts, params, plan := BuildRows(lim, States(seqs, active));
      var sampled;
      rejected, sampled := Forward(rows, counts, params, takes);
      if rejected {
        return;
      }
      var next;
      next, done, outputs := AbsorbAll(lim, seqs, active, plan, sampled, takes, rows, counts, params, after);
      AbsorbedIsSound(lim, model.m, model.cache, states, takes, next, after);
      seqs := next;
      done := LimitPass(lim, seqs, active, done);
    }

    /** Force-finishes a live sequence; unknown and finished ids are left alone. */
    method Cancel(id: SeqId) returns (found: bool)
      requires Valid()
      modifies this, model`cache
      ensures Valid() && |seqs| == |old(seqs)| && history == old(history) + [Op.Cancel(id)]
      ensures var e := old(Abs());
              var i := SlotOf(e.active, id);
              && (found <==> i < |e.active|)
              && Abs() == if i < |e.active| then FinishEngine(e, i) else e
    {
      hide SeqOk, SlotHeld, Run;
      ReachedCancel(Lim(), history, Abs(), id);
      history := history + [Op.Cancel(id)];
      var i := FindSlot(id);
      found := i < active;
      if found {
        Finish(i);
      }
    }

    method FindSlot(id: SeqId) returns (i: nat)
      requires SlotsOk()
      ensures i == SlotOf(Abs().active, id)
    {
      ghost var lives := Abs().active;
      i := 0;
      while i < active && seqs[i].value.id != id
        invariant i <= active && forall k :: 0 <= k < i ==> lives[k].id != id
      {
        i := i + 1;
      }
      SlotIs(lives, id, i);
    }

    /**
     Steps until nothing is active, as the callers of the engine do. It always ends; without a panic everything
     is finished. A panic means that some step was not orderly, so there is none when every request fits the context.
     */
    method Drain() returns (ok: bool)
      requires Valid()
      modifies this, model`cache
      ensures |seqs| == |old(seqs)|
      ensures exists n: nat :: history == old(history) + Steps(n)
      ensures ok ==> Valid() && active == 0
      ensures !ok ==> Run(Lim(), history).None? && !Orderly(Lim(), history)
      ensures AdmissionsFit(Lim(), old(history)) ==> ok
    {
      hide Run, Orderly, StepEngine, StepOutputs, SeqOk, SlotHeld, KvOk;
      ghost var n: nat := 0;
      assert history + Steps(0) == history;
      while active > 0
        invariant Valid() && |seqs| == |old(seqs)| && history == old(history) + Steps(n) && Lim() == old(Lim())
        decreases Work(Lim(), Abs().active)
      {
        StepMakesProgress(Lim(), Abs());
        StepsSnoc(Lim(), old(history), n);
        n := n + 1;
        var r := Step();
        if r.Panicked? {
          PanicIsDisorderly(Lim(), history);
          return false;
        }
      }
      ok := true;
    }

    /**
     The tokens of a sequence: whatever ran beside it, exactly what its request generates alone, token by token,
     and exactly what the steps have returned for it. Unknown ids have none.
     */
    method Generated(id: SeqId) returns (g: seq<Token>)
      requires Valid()
      ensures IsResult(Lim(), history, id, g)
    {
      hide SeqOk, SlotHeld, Run, IsResult;
      ghost var t := Run(Lim(), history).value;
      for k := 0 to |finished|
        invariant forall j :: 0 <= j < k ==> finished[j].id != id
      {
        if finished[k].id == id {
          FinishedResult(Lim(), history, k);
          return finished[k].generated;
        }
      }
      var i := FindSlot(id);
      if i < active {
        LiveResult(Lim(), history, i);
        return seqs[i].value.generated;
      }
      NoResult(Lim(), history, id);
      g := [];
    }
  }

  lemma AddedIsSound(lim: Limits, m: Model, before: Cache, cache: Cache, was: seq<SeqState>, s: SeqState, req: Request)
    requires StatesOk(lim, was) && KvOk(m, before, was) && SlotCleared(m, before, cache, |was|)
    requires 0 < |req.prompt| <= lim.maxSeqLen
    requires s == SeqState(s.id, req.prompt, [], req.prompt, req.maxNew, req.eos, req.stops, req.params, map[], 0, None)
    ensures StatesOk(lim, was + [s]) && KvOk(m, cache, was + [s]) && LiveOf(s) == Live(s.id, req, 0, [])
  {
    hide SlotHeld, SlotCleared;
    var states := was + [s];
    forall i: nat | i < |states|
      ensures SlotHeld(m, cache, i, states[i].allTokens, states[i].len)
    {
      HeldAfterClear(m, before, cache, |was|, i, states[i].allTokens, states[i].len);
      assert i < |was| ==> SlotHeld(m, before, i, was[i].allTokens, was[i].len);
    }
  }
}
