/**
 The rows of one engine step (continuous.rs, `step`): the per-sequence state that the engine keeps, the batch
 built from it, and why the batched model accepts that batch and finds every context complete.
 */
module EngineRows {
  import opened Collections
  import opened Tokens
  import opened Batched
  import opened EngineSpec

  /** Per-sequence state: `pending` is the unread prompt, `allTokens` the prompt and the generated tokens. */
  datatype SeqState = SeqState(id: SeqId, pending: seq<Token>, generated: seq<Token>, allTokens: seq<Token>,
                               maxNew: nat, eos: Option<Token>, stops: seq<seq<Token>>, params: Params,
                               counts: map<Token, nat>, len: nat, firstDecode: Option<Token>)

  function PromptOf(s: SeqState): seq<Token> {
    if |s.generated| <= |s.allTokens| then s.allTokens[..|s.allTokens| - |s.generated|] else []
  }

  /** The sequence as the specification sees it. */
  function LiveOf(s: SeqState): Live {
    Live(s.id, Request(PromptOf(s), s.maxNew, s.eos, s.stops, s.params), s.len, s.generated)
  }

  function LivesOf(states: seq<SeqState>): (lives: seq<Live>)
    ensures |lives| == |states|
  {
    seq(|states|, i requires 0 <= i < |states| => LiveOf(states[i]))
  }

  /** The redundant fields agree with the tokens. */
  ghost predicate SeqOk(lim: Limits, s: SeqState) {
    && LiveOk(lim, LiveOf(s))
    && s.allTokens == PromptOf(s) + s.generated
    && s.pending == (if s.len <= |PromptOf(s)| then PromptOf(s)[s.len..] else [])
    && s.counts == CountsOf(s.generated)
    && (s.generated != [] ==> s.firstDecode == Some(s.generated[|s.generated| - 1]))
  }

  ghost predicate StatesOk(lim: Limits, states: seq<SeqState>) {
    forall i :: 0 <= i < |states| ==> SeqOk(lim, states[i])
  }

  /** What a grant of rows to a sequence never exceeds. */
  predicate TakeGranted(lim: Limits, s: SeqState, take: nat) {
    && s.len + take <= |s.allTokens| && s.len + take <= lim.maxSeqLen
    && (if Prefilling(LiveOf(s)) then s.len + take <= |PromptOf(s)| else take <= 1)
    && (lim.gdn ==> take <= GDN_CHUNK_MAX)
  }

  ghost predicate Granted(lim: Limits, states: seq<SeqState>, takes: seq<nat>) {
    && |takes| == |states|
    && forall i :: 0 <= i < |states| ==> TakeGranted(lim, states[i], takes[i])
  }

  lemma GrantsFit(lim: Limits, states: seq<SeqState>, budget: nat)
    requires StatesOk(lim, states)
    ensures Granted(lim, states, Takes(lim, LivesOf(states), budget))
  {
    hide Takes, TakeOf, SeqOk, TakeGranted;
    var takes := Takes(lim, LivesOf(states), budget);
    forall i | 0 <= i < |states|
      ensures TakeGranted(lim, states[i], takes[i])
    {
      TakesAt(lim, LivesOf(states), budget, i);
      var b: nat :| b <= budget && takes[i] == TakeOf(lim, LivesOf(states)[i], b);
      GrantFits(lim, states[i], b);
    }
  }

  lemma GrantFits(lim: Limits, s: SeqState, budget: nat)
    requires SeqOk(lim, s)
    ensures TakeGranted(lim, s, TakeOf(lim, LiveOf(s), budget))
  {
  }

  // ----- the batch

  /** The next `take` tokens of a sequence, at their positions in its slot. */
  function Block(s: SeqState, slot: nat, take: nat): (rows: seq<Row>)
    requires s.len + take <= |s.allTokens|
    ensures |rows| == take
  {
    seq(take, j requires 0 <= j < take => Row(s.allTokens[s.len + j], s.len + j, slot))
  }

  /** The blocks of the first `n` slots, in slot order. */
  ghost function AllRows(lim: Limits, states: seq<SeqState>, takes: seq<nat>, n: nat): seq<Row>
    requires Granted(lim, states, takes) && n <= |states|
  {
    if n == 0 then [] else
      assert TakeGranted(lim, states[n - 1], takes[n - 1]);
      AllRows(lim, states, takes, n - 1) + Block(states[n - 1], n - 1, takes[n - 1])
  }

  /** One more slot is one more block. */
  lemma AllRowsNext(lim: Limits, states: seq<SeqState>, takes: seq<nat>, n: nat)
    requires Granted(lim, states, takes) && 0 < n <= |states|
    ensures TakeGranted(lim, states[n - 1], takes[n - 1])
    ensures AllRows(lim, states, takes, n) ==
            AllRows(lim, states, takes, n - 1) + Block(states[n - 1], n - 1, takes[n - 1])
  {
    assert TakeGranted(lim, states[n - 1], takes[n - 1]);
  }

  /** Where the block of slot `i` is in the batch. */
  lemma {:induction false} BlockAt(lim: Limits, states: seq<SeqState>, takes: seq<nat>, i: nat, n: nat)
    requires Granted(lim, states, takes) && i < n <= |states|
    ensures TakeGranted(lim, states[i], takes[i])
    ensures var start := |AllRows(lim, states, takes, i)|;
            && start + takes[i] <= |AllRows(lim, states, takes, n)|
            && AllRows(lim, states, takes, n)[start..start + takes[i]] == Block(states[i], i, takes[i])
  {
    assert TakeGranted(lim, states[i], takes[i]);
    AllRowsNext(lim, states, takes, n);
    if i < n - 1 {
      hide Granted, AllRows, Block;
      BlockAt(lim, states, takes, i, n - 1);
      var start := |AllRows(lim, states, takes, i)|;
      SliceOfPrefix(AllRows(lim, states, takes, n - 1), Block(states[n - 1], n - 1, takes[n - 1]), start,
                    start + takes[i]);
    }
  }

  lemma SliceOfPrefix<T>(a: seq<T>, b: seq<T>, from: nat, to: nat)
    requires from <= to <= |a|
    ensures (a + b)[from..to] == a[from..to]
  {
  }

  lemma SliceAt<T>(s: seq<T>, start: nat, n: nat, j: nat)
    requires start + n <= |s| && j < n
    ensures s[start..start + n][j] == s[start + j]
  {
  }

  lemma RowAt(lim: Limits, states: seq<SeqState>, takes: seq<nat>, i: nat, n: nat, j: nat)
    requires Granted(lim, states, takes) && i < n <= |states| && j < takes[i]
    ensures var r := |AllRows(lim, states, takes, i)| + j;
            && r < |AllRows(lim, states, takes, n)| && states[i].len + j < |states[i].allTokens|
            && AllRows(lim, states, takes, n)[r] == Row(states[i].allTokens[states[i].len + j], states[i].len + j, i)
  {
    BlockAt(lim, states, takes, i, n);
    SliceAt(AllRows(lim, states, takes, n), |AllRows(lim, states, takes, i)|, takes[i], j);
  }

  lemma LastRow(lim: Limits, states: seq<SeqState>, takes: seq<nat>, i: nat, rows: seq<Row>, last: int)
    requires Granted(lim, states, takes) && i < |states| && takes[i] > 0
    requires rows == AllRows(lim, states, takes, |states|)
    requires last == |AllRows(lim, states, takes, i)| + takes[i] - 1
    ensures 0 <= last < |rows| && rows[last].slot == i && rows[last].pos + 1 == states[i].len + takes[i]
  {
    var j: nat := takes[i] - 1;
    RowAt(lim, states, takes, i, |states|, j);
    assert last == |AllRows(lim, states, takes, i)| + j;
  }

  /** The row is one of the granted ones of a slot below `n`. */
  predicate RowOf(states: seq<SeqState>, takes: seq<nat>, row: Row, n: nat)
    requires |takes| == |states| && n <= |states|
  {
    && row.slot < n
    && states[row.slot].len <= row.pos < states[row.slot].len + takes[row.slot]
    && row.pos < |states[row.slot].allTokens| && row.token == states[row.slot].allTokens[row.pos]
  }

  lemma {:induction false} RowsAre(lim: Limits, states: seq<SeqState>, takes: seq<nat>, n: nat, r: nat)
    requires Granted(lim, states, takes) && n <= |states| && r < |AllRows(lim, states, takes, n)|
    ensures RowOf(states, takes, AllRows(lim, states, takes, n)[r], n)
  {
    assert TakeGranted(lim, states[n - 1], takes[n - 1]);
    if r < |AllRows(lim, states, takes, n - 1)| {
      RowsAre(lim, states, takes, n - 1, r);
    }
  }

  lemma {:induction false} RowCount(lim: Limits, states: seq<SeqState>, takes: seq<nat>, n: nat)
    requires Granted(lim, states, takes) && n <= |states|
    ensures |AllRows(lim, states, takes, n)| == Sum(takes[..n])
  {
    if n > 0 {
      assert TakeGranted(lim, states[n - 1], takes[n - 1]);
      RowCount(lim, states, takes, n - 1);
      assert takes[..n] == takes[..n - 1] + [takes[n - 1]];
      SumSnoc(takes[..n - 1], takes[n - 1]);
    }
  }

  /** The batch never has more rows than the budget of the step. */
  lemma RowsFitBudget(lim: Limits, states: seq<SeqState>, budget: nat)
    requires StatesOk(lim, states)
    ensures var takes := Takes(lim, LivesOf(states), budget);
            Granted(lim, states, takes) && |AllRows(lim, states, takes, |states|)| <= budget
  {
    var takes := Takes(lim, LivesOf(states), budget);
    GrantsFit(lim, states, budget);
    RowCount(lim, states, takes, |states|);
    assert takes[..|states|] == takes;
    TakesFitBudget(lim, LivesOf(states), budget);
  }

  /** No row before the block of slot `n` is of that slot. */
  lemma RowsBelow(lim: Limits, states: seq<SeqState>, takes: seq<nat>, n: nat, rows: seq<Row>)
    requires Granted(lim, states, takes) && n <= |states|
    requires AllRows(lim, states, takes, n) <= rows
    ensures var k := |AllRows(lim, states, takes, n)|;
            rows[..k] == AllRows(lim, states, takes, n) && !SlotSeen(rows, k, n)
  {
    var before := AllRows(lim, states, takes, n);
    forall r: nat | r < |before|
      ensures rows[r].slot != n
    {
      RowsAre(lim, states, takes, n, r);
      assert rows[r] == before[r];
    }
  }

  /** For recurrent models the blocks are chunk runs: one per slot, consecutive, within the cap. */
  lemma {:induction false} RowsAreRuns(lim: Limits, states: seq<SeqState>, takes: seq<nat>, n: nat)
    requires Granted(lim, states, takes) && n <= |states| && lim.gdn
    ensures RunsOk(AllRows(lim, states, takes, n))
  {
    if n > 0 {
      RowsAreRuns(lim, states, takes, n - 1);
      var before, rows := AllRows(lim, states, takes, n - 1), AllRows(lim, states, takes, n);
      assert TakeGranted(lim, states[n - 1], takes[n - 1]);
      assert rows == before + Block(states[n - 1], n - 1, takes[n - 1]);
      if takes[n - 1] == 0 {
        assert rows == before;
      } else {
        RowsBelow(lim, states, takes, n - 1, rows);
        assert rows[..|rows|] == rows;
        RunAppends(rows, |before|, |rows|);
      }
    }
  }

  // ----- streams, and what the cache holds

  function StreamsOf(states: seq<SeqState>, batch: nat): seq<seq<Token>> {
    seq(batch, i requires 0 <= i => if i < |states| then states[i].allTokens else [])
  }

  function BasesOf(states: seq<SeqState>, batch: nat): seq<nat> {
    seq(batch, i requires 0 <= i => if i < |states| then states[i].len else 0)
  }

  /**
   A slot holds the first `len` tokens of its stream, in every layer: the key/values of these positions, or the
   recurrent state after them.
   */
  ghost predicate SlotHeld(m: Model, cache: Cache, slot: nat, stream: seq<Token>, len: nat) {
    && |cache.kv| == |cache.rec|
    && forall l: nat :: l < |cache.kv| ==> LayerOfSlot(m, cache, l, slot, stream, len)
  }

  ghost predicate LayerOfSlot(m: Model, cache: Cache, l: nat, slot: nat, stream: seq<Token>, len: nat) {
    && l < |cache.kv| && l < |cache.rec|
    && if m.recurrent(l) then StateIs(m, l, cache.rec[l], slot, stream, len)
       else forall pos: nat :: pos < len ==> PosHeld(m, cache.kv[l], l, slot, stream, pos)
  }

  predicate PosHeld(m: Model, layer: seq<seq<Kv>>, l: nat, slot: nat, stream: seq<Token>, pos: nat) {
    slot < |layer| && Holds(m, l, layer[slot], stream, pos)
  }

  /** Every slot's prefix belongs to its own sequence. */
  ghost predicate KvOk(m: Model, cache: Cache, states: seq<SeqState>) {
    forall i: nat :: i < |states| ==> SlotHeld(m, cache, i, states[i].allTokens, states[i].len)
  }

  lemma HeldBefore(m: Model, cache: Cache, states: seq<SeqState>, batch: nat, rows: seq<Row>)
    requires KvOk(m, cache, states) && |states| <= batch
    ensures CacheHeld(m, cache, StreamsOf(states, batch), rows, 0, BasesOf(states, batch))
  {
    var streams, bases := StreamsOf(states, batch), BasesOf(states, batch);
    forall l: nat | l < |cache.kv| && l < |cache.rec|
      ensures LayerOk(m, l, cache, streams, rows, 0, bases)
    {
      LayerHeldBefore(m, cache, states, batch, rows, l);
    }
  }

  lemma LayerHeldBefore(m: Model, cache: Cache, states: seq<SeqState>, batch: nat, rows: seq<Row>, l: nat)
    requires KvOk(m, cache, states) && |states| <= batch && l < |cache.kv| && l < |cache.rec|
    ensures LayerOk(m, l, cache, StreamsOf(states, batch), rows, 0, BasesOf(states, batch))
  {
    var streams, bases := StreamsOf(states, batch), BasesOf(states, batch);
    forall i: nat | i < |states|
      ensures LayerOfSlot(m, cache, l, i, states[i].allTokens, states[i].len)
    {
      assert SlotHeld(m, cache, i, states[i].allTokens, states[i].len);
    }
    hide RecAt;
    if m.recurrent(l) {
      forall s: nat | s < |streams| && streams[s] != []
        ensures RecHeldAt(m, l, cache.rec[l], streams, rows, 0, bases, s)
      {
        assert LayerOfSlot(m, cache, l, s, states[s].allTokens, states[s].len);
      }
    } else {
      forall s: nat, pos: nat
        ensures HeldIfCovered(m, l, cache.kv[l], streams, rows, 0, bases, s, pos)
      {
        if s < |states| && pos < states[s].len {
          assert LayerOfSlot(m, cache, l, s, states[s].allTokens, states[s].len);
          assert PosHeld(m, cache.kv[l], l, s, states[s].allTokens, pos);
        }
      }
    }
  }

  /** A granted position is stored by one of the rows. */
  lemma GrantedIsCovered(lim: Limits, states: seq<SeqState>, takes: seq<nat>, batch: nat, i: nat, pos: nat)
    requires Granted(lim, states, takes) && i < |states| <= batch && pos < states[i].len + takes[i]
    ensures var rows := AllRows(lim, states, takes, |states|);
            Covered(rows, |rows|, BasesOf(states, batch), i, pos)
  {
    var rows := AllRows(lim, states, takes, |states|);
    if pos >= states[i].len {
      RowAt(lim, states, takes, i, |states|, pos - states[i].len);
    }
  }

  /** The batch is made of parts of the streams, and every row can see its whole context. */
  lemma BatchIsComplete(lim: Limits, states: seq<SeqState>, takes: seq<nat>, batch: nat)
    requires Granted(lim, states, takes) && |states| <= batch
    ensures BatchFits(AllRows(lim, states, takes, |states|), StreamsOf(states, batch), BasesOf(states, batch),
                      lim.maxSeqLen)
  {
    var rows := AllRows(lim, states, takes, |states|);
    forall r: nat | r < |rows|
      ensures RowFits(StreamsOf(states, batch), rows[r], lim.maxSeqLen)
      ensures forall pos :: 0 <= pos <= rows[r].pos ==>
                Covered(rows, |rows|, BasesOf(states, batch), rows[r].slot, pos)
    {
      RowsAre(lim, states, takes, |states|, r);
      var row := rows[r];
      assert RowOf(states, takes, row, |states|) && TakeGranted(lim, states[row.slot], takes[row.slot]);
      forall pos | 0 <= pos <= row.pos
        ensures Covered(rows, |rows|, BasesOf(states, batch), row.slot, pos)
      {
        GrantedIsCovered(lim, states, takes, batch, row.slot, pos);
      }
    }
  }

  /** The rows of every slot are as many as granted. */
  lemma {:induction false} RowsOfSlotCounted(lim: Limits, states: seq<SeqState>, takes: seq<nat>, n: nat, i: nat)
    requires Granted(lim, states, takes) && n <= |states|
    ensures var rows := AllRows(lim, states, takes, n);
            CountIn(rows, |rows|, i) == if i < n then takes[i] else 0
  {
    hide AllRows, CountIn, Block, TakeGranted;
    if n == 0 {
      NoRowsCounted(lim, states, takes, i);
    } else {
      RowsOfSlotCounted(lim, states, takes, n - 1, i);
      AllRowsNext(lim, states, takes, n);
      CountUpToRow(lim, states, takes, n, takes[n - 1], |AllRows(lim, states, takes, n)|, i);
    }
  }

  lemma NoRowsCounted(lim: Limits, states: seq<SeqState>, takes: seq<nat>, i: nat)
    requires Granted(lim, states, takes)
    ensures CountIn(AllRows(lim, states, takes, 0), |AllRows(lim, states, takes, 0)|, i) == 0
  {
  }

  /** Up to row `r`: the rows of the first blocks, and `j` of the last one. */
  lemma CountUpToRow(lim: Limits, states: seq<SeqState>, takes: seq<nat>, n: nat, j: nat, r: nat, i: nat)
    requires Granted(lim, states, takes) && 0 < n <= |states| && j <= takes[n - 1]
    requires r == |AllRows(lim, states, takes, n - 1)| + j
    ensures var rows, before := AllRows(lim, states, takes, n), AllRows(lim, states, takes, n - 1);
            r <= |rows| && CountIn(rows, r, i) == CountIn(before, |before|, i) + if i == n - 1 then j else 0
  {
    AllRowsNext(lim, states, takes, n);
    CountAfter(AllRows(lim, states, takes, n - 1), states[n - 1], n - 1, takes[n - 1], j, r, i);
  }

  lemma CountAfter(before: seq<Row>, s: SeqState, slot: nat, take: nat, j: nat, r: nat, i: nat)
    requires s.len + take <= |s.allTokens| && j <= take && r == |before| + j
    ensures var rows := before + Block(s, slot, take);
            r <= |rows| && CountIn(rows, r, i) == CountIn(before, |before|, i) + if i == slot then j else 0
  {
    hide Block;
    CountInConcat(before, Block(s, slot, take), j, i);
    CountInBlock(s, slot, take, j, i);
  }

  lemma {:induction false} CountInConcat(a: seq<Row>, b: seq<Row>, n: nat, slot: nat)
    requires n <= |b|
    ensures CountIn(a + b, |a| + n, slot) == CountIn(a, |a|, slot) + CountIn(b, n, slot)
  {
    if n > 0 {
      CountInConcat(a, b, n - 1, slot);
    } else {
      CountInPrefix(a, a + b, |a|, slot);
    }
  }

  lemma {:induction false} CountInPrefix(a: seq<Row>, longer: seq<Row>, n: nat, slot: nat)
    requires a <= longer && n <= |a|
    ensures CountIn(longer, n, slot) == CountIn(a, n, slot)
  {
    if n > 0 {
      CountInPrefix(a, longer, n - 1, slot);
    }
  }

  lemma {:induction false} CountInBlock(s: SeqState, slot: nat, take: nat, n: nat, i: nat)
    requires s.len + take <= |s.allTokens| && n <= take
    ensures CountIn(Block(s, slot, take), n, i) == if i == slot then n else 0
  {
    if n > 0 {
      CountInBlock(s, slot, take, n - 1, i);
    }
  }

  predicate TakenUp(states: seq<SeqState>, rows: seq<Row>, r: nat) {
    && r < |rows| && rows[r].slot < |states|
    && rows[r].pos == states[rows[r].slot].len + CountIn(rows, r, rows[r].slot)
  }

  /** Every row of a slot is where the cached prefix and the rows before it end, in every model. */
  lemma {:induction false} RowsAreInOrder(lim: Limits, states: seq<SeqState>, takes: seq<nat>, n: nat, r: nat)
    requires Granted(lim, states, takes) && n <= |states| && r < |AllRows(lim, states, takes, n)|
    ensures TakenUp(states, AllRows(lim, states, takes, n), r)
  {
    AllRowsNext(lim, states, takes, n);
    hide *;
    var before, block := AllRows(lim, states, takes, n - 1), Block(states[n - 1], n - 1, takes[n - 1]);
    if r < |before| {
      RowsAreInOrder(lim, states, takes, n - 1, r);
      InOrderBefore(states, before, block, r);
    } else {
      InOrderInLast(lim, states, takes, n, r - |before|, r);
    }
  }

  lemma InOrderInLast(lim: Limits, states: seq<SeqState>, takes: seq<nat>, n: nat, j: nat, r: nat)
    requires Granted(lim, states, takes) && 0 < n <= |states| && j < takes[n - 1]
    requires r == |AllRows(lim, states, takes, n - 1)| + j
    ensures TakenUp(states, AllRows(lim, states, takes, n), r)
  {
    hide AllRows, Granted, TakeGranted, CountIn, Block;
    RowsOfSlotCounted(lim, states, takes, n - 1, n - 1);
    CountUpToRow(lim, states, takes, n, j, r, n - 1);
    RowAt(lim, states, takes, n - 1, n, j);
  }

  lemma InOrderBefore(states: seq<SeqState>, before: seq<Row>, block: seq<Row>, r: nat)
    requires TakenUp(states, before, r)
    ensures TakenUp(states, before + block, r)
  {
    CountInPrefix(before, before + block, r, before[r].slot);
  }

  lemma RowsStartAtBases(lim: Limits, states: seq<SeqState>, takes: seq<nat>, batch: nat)
    requires Granted(lim, states, takes) && |states| <= batch
    ensures StartsAtBases(AllRows(lim, states, takes, |states|), BasesOf(states, batch))
  {
    var rows, bases := AllRows(lim, states, takes, |states|), BasesOf(states, batch);
    forall r: nat | r < |rows|
      ensures StartsAtBase(rows, bases, r)
    {
      RowsAre(lim, states, takes, |states|, r);
      var i := rows[r].slot;
      if rows[r].pos > states[i].len {
        EarlierRow(lim, states, takes, |states|, r);
      }
    }
  }

  /** Before a row past the start of its block there is another one of the same slot. */
  lemma {:induction false} EarlierRow(lim: Limits, states: seq<SeqState>, takes: seq<nat>, n: nat, r: nat)
    requires Granted(lim, states, takes) && n <= |states| && r < |AllRows(lim, states, takes, n)|
    requires var row := AllRows(lim, states, takes, n)[r]; row.slot < |states| && row.pos > states[row.slot].len
    ensures var rows := AllRows(lim, states, takes, n); SlotSeen(rows, r, rows[r].slot)
  {
    assert TakeGranted(lim, states[n - 1], takes[n - 1]);
    var before, rows := AllRows(lim, states, takes, n - 1), AllRows(lim, states, takes, n);
    if r < |before| {
      EarlierRow(lim, states, takes, n - 1, r);
      var k :| 0 <= k < r && before[k].slot == before[r].slot;
      assert rows[k].slot == rows[r].slot;
    } else {
      assert rows[r - 1].slot == rows[r].slot;
    }
  }

  /** After the forward pass every slot holds its stream up to and including the granted rows. */
  lemma HeldAfter(lim: Limits, cache: Cache, states: seq<SeqState>, takes: seq<nat>, batch: nat, i: nat)
    requires Granted(lim, states, takes) && i < |states| <= batch && |cache.kv| == |cache.rec|
    requires states[i].allTokens != []
    requires var rows := AllRows(lim, states, takes, |states|);
             CacheHeld(lim.model, cache, StreamsOf(states, batch), rows, |rows|, BasesOf(states, batch))
    ensures SlotHeld(lim.model, cache, i, states[i].allTokens, states[i].len + takes[i])
  {
    var end := states[i].len + takes[i];
    forall l: nat | l < |cache.kv|
      ensures LayerOfSlot(lim.model, cache, l, i, states[i].allTokens, end)
    {
      LayerHeldAfter(lim, cache, states, takes, batch, i, l);
    }
  }

  lemma LayerHeldAfter(lim: Limits, cache: Cache, states: seq<SeqState>, takes: seq<nat>, batch: nat, i: nat, l: nat)
    requires Granted(lim, states, takes) && i < |states| <= batch && l < |cache.kv| == |cache.rec|
    requires states[i].allTokens != []
    requires var rows := AllRows(lim, states, takes, |states|);
             LayerOk(lim.model, l, cache, StreamsOf(states, batch), rows, |rows|, BasesOf(states, batch))
    ensures LayerOfSlot(lim.model, cache, l, i, states[i].allTokens, states[i].len + takes[i])
  {
    hide RecAt, KvAt, AllRows, TakeGranted;
    var m, rows, streams, bases :=
      lim.model, AllRows(lim, states, takes, |states|), StreamsOf(states, batch), BasesOf(states, batch);
    if m.recurrent(l) {
      assert RecHeldAt(m, l, cache.rec[l], streams, rows, |rows|, bases, i);
      RowsOfSlotCounted(lim, states, takes, |states|, i);
    } else {
      forall pos: nat | pos < states[i].len + takes[i]
        ensures PosHeld(m, cache.kv[l], l, i, states[i].allTokens, pos)
      {
        GrantedIsCovered(lim, states, takes, batch, i, pos);
        assert HeldIfCovered(m, l, cache.kv[l], streams, rows, |rows|, bases, i, pos);
      }
    }
  }

  /** What is held of a stream is held of its extensions. */
  lemma HeldOfLonger(m: Model, cache: Cache, slot: nat, stream: seq<Token>, longer: seq<Token>, len: nat)
    requires SlotHeld(m, cache, slot, stream, len) && stream <= longer
    ensures SlotHeld(m, cache, slot, longer, len)
  {
    forall l: nat | l < |cache.kv|
      ensures LayerOfSlot(m, cache, l, slot, longer, len)
    {
      assert LayerOfSlot(m, cache, l, slot, stream, len);
      if m.recurrent(l) {
        assert longer[..len] == stream[..len];
      } else {
        forall pos: nat | pos < len
          ensures PosHeld(m, cache.kv[l], l, slot, longer, pos)
        {
          assert PosHeld(m, cache.kv[l], l, slot, stream, pos);
          assert longer[..pos + 1] == stream[..pos + 1];
        }
      }
    }
  }

  /** Key/values and recurrent state of slot `from` have been copied to slot `to`, in every layer. */
  ghost predicate SlotCopied(m: Model, was: Cache, now: Cache, from: nat, to: nat, len: nat) {
    && |was.kv| == |now.kv| == |was.rec| == |now.rec|
    && (forall l :: 0 <= l < |was.kv| ==> LayerCopied(was.kv[l], now.kv[l], from, to, len))
    && (forall l :: 0 <= l < |was.rec| ==> RecCopied(m, l, was.rec[l], now.rec[l], from, to))
  }

  /** Compaction moves what is held, and leaves the other slots alone. */
  lemma HeldAfterCopy(m: Model, was: Cache, now: Cache, from: nat, to: nat, len: nat, slot: nat, stream: seq<Token>,
                      held: nat)
    requires SlotCopied(m, was, now, from, to, len) && SlotHeld(m, was, slot, stream, held)
    ensures slot != to ==> SlotHeld(m, now, slot, stream, held)
    ensures slot == from && held <= len ==> SlotHeld(m, now, to, stream, held)
  {
    hide RecAt;
    forall l: nat | l < |was.kv|
      ensures slot != to ==> LayerOfSlot(m, now, l, slot, stream, held)
      ensures slot == from && held <= len ==> LayerOfSlot(m, now, l, to, stream, held)
    {
      assert LayerOfSlot(m, was, l, slot, stream, held);
      assert LayerCopied(was.kv[l], now.kv[l], from, to, len) && RecCopied(m, l, was.rec[l], now.rec[l], from, to);
      if !m.recurrent(l) {
        forall pos: nat | pos < held
          ensures slot != to ==> PosHeld(m, now.kv[l], l, slot, stream, pos)
          ensures slot == from && held <= len ==> PosHeld(m, now.kv[l], l, to, stream, pos)
        {
          assert PosHeld(m, was.kv[l], l, slot, stream, pos);
        }
      }
    }
  }

  /** The recurrent state of the slot has been reset, in every layer. */
  ghost predicate SlotCleared(m: Model, was: Cache, now: Cache, slot: nat) {
    && now.kv == was.kv && |was.kv| == |was.rec| == |now.rec|
    && forall l :: 0 <= l < |was.rec| ==> RecCleared(m, l, was.rec[l], now.rec[l], slot)
  }

  /** A cleared slot is ready for a new sequence, and the other slots still hold theirs. */
  lemma HeldAfterClear(m: Model, was: Cache, now: Cache, cleared: nat, slot: nat, stream: seq<Token>, held: nat)
    requires SlotCleared(m, was, now, cleared)
    ensures slot != cleared && SlotHeld(m, was, slot, stream, held) ==> SlotHeld(m, now, slot, stream, held)
    ensures SlotHeld(m, now, cleared, stream, 0)
  {
    forall l: nat | l < |was.kv|
      ensures slot != cleared && SlotHeld(m, was, slot, stream, held) ==> LayerOfSlot(m, now, l, slot, stream, held)
      ensures LayerOfSlot(m, now, l, cleared, stream, 0)
    {
      assert RecCleared(m, l, was.rec[l], now.rec[l], cleared);
      assert KvStream(m, l, stream[..0]) == [];
      assert slot != cleared && SlotHeld(m, was, slot, stream, held) ==> LayerOfSlot(m, was, l, slot, stream, held);
    }
  }

  // ----- absorbing a sampled token

  function Push(s: SeqState, out: Token): SeqState {
    s.(generated := s.generated + [out], allTokens := s.allTokens + [out], counts := CountMore(s.counts, out),
       firstDecode := Some(out))
  }

  lemma PushKeepsPrompt(s: SeqState, t: SeqState, out: Token)
    requires s.allTokens == PromptOf(s) + s.generated
    requires t.generated == s.generated + [out] && t.allTokens == s.allTokens + [out]
    ensures PromptOf(t) == PromptOf(s) && t.allTokens == PromptOf(t) + t.generated
  {
    var n := |s.allTokens| - |s.generated|;
    assert |t.allTokens| - |t.generated| == n;
    assert t.allTokens[..n] == s.allTokens[..n];
  }

  lemma CountsSnoc(generated: seq<Token>, out: Token)
    ensures CountsOf(generated + [out]) == CountMore(CountsOf(generated), out)
  {
    assert (generated + [out])[..|generated|] == generated;
  }

  lemma PushIsAdvance(lim: Limits, s: SeqState, take: nat, out: Token)
    requires SeqOk(lim, s) && TakeGranted(lim, s, take) && Emits(LiveOf(s), take)
    requires out == NextToken(lim.model, LiveOf(s).req, s.generated)
    ensures var t := Push(s.(len := s.len + take, pending := []), out);
            SeqOk(lim, t) && LiveOf(t) == Advance(lim, LiveOf(s), take)
  {
    var t := Push(s.(len := s.len + take, pending := []), out);
    PushKeepsPrompt(s, t, out);
    CountsSnoc(s.generated, out);
    EmitsAtEnd(lim, s, take);
    assert LiveOf(t) == Advance(lim, LiveOf(s), take);
    AdvancedIsOk(lim, LiveOf(s), take);
    NothingPending(PromptOf(t), t.len);
  }

  lemma NothingPending(prompt: seq<Token>, len: nat)
    requires len >= |prompt|
    ensures (if len <= |prompt| then prompt[len..] else []) == []
  {
  }

  lemma AdvancedIsOk(lim: Limits, s: Live, take: nat)
    requires LiveOk(lim, s) && Emits(s, take)
    requires s.len + take == |s.req.prompt| + |s.generated| && s.len + take <= lim.maxSeqLen
    ensures LiveOk(lim, Advance(lim, s, take))
  {
    var r := Advance(lim, s, take);
    assert |r.generated| == |s.generated| + 1;
  }

  lemma EmitsAtEnd(lim: Limits, s: SeqState, take: nat)
    requires SeqOk(lim, s) && TakeGranted(lim, s, take) && Emits(LiveOf(s), take)
    ensures s.len + take == |s.allTokens|
  {
  }

  /** Rows inside the prompt only move the read position. */
  lemma ReadIsAdvance(lim: Limits, s: SeqState, take: nat)
    requires SeqOk(lim, s) && TakeGranted(lim, s, take) && take > 0 && Prefilling(LiveOf(s))
    ensures take <= |s.pending|
    ensures Emits(LiveOf(s), take) <==> take == |s.pending|
    ensures take < |s.pending| ==>
              var t := s.(len := s.len + take, pending := s.pending[take..]);
              SeqOk(lim, t) && LiveOf(t) == Advance(lim, LiveOf(s), take)
  {
    var t := s.(len := s.len + take);
    assert PromptOf(t) == PromptOf(s);
    if take < |s.pending| {
      assert s.pending[take..] == PromptOf(s)[s.len + take..];
    }
  }

  method PopFront(pending: seq<Token>, count: nat) returns (rest: seq<Token>)
    requires count <= |pending|
    ensures rest == pending[count..]
  {
    rest := pending;
    for k := 0 to count
      invariant rest == pending[k..]
    {
      rest := rest[1..];
    }
  }

  method HasStop(generated: seq<Token>, stops: seq<seq<Token>>) returns (ends: bool)
    ensures ends <==> EndsWithStop(generated, stops)
  {
    for i := 0 to |stops|
      invariant forall k :: 0 <= k < i ==> !(stops[k] != [] && EndsWith(generated, stops[k]))
    {
      if stops[i] != [] && |generated| >= |stops[i]| && generated[|generated| - |stops[i]|..] == stops[i] {
        return true;
      }
    }
    ends := false;
  }

  /** Takes the samples of one sequence's rows: exactly one step of that sequence alone. */
  method Absorb(ghost lim: Limits, s: SeqState, count: nat, wasPrefill: bool, last: Token)
    returns (t: SeqState, emitted: bool, done: bool)
    requires SeqOk(lim, s) && TakeGranted(lim, s, count) && count > 0
    requires wasPrefill <==> Prefilling(LiveOf(s))
    requires Emits(LiveOf(s), count) ==> last == NextToken(lim.model, LiveOf(s).req, s.generated)
    ensures SeqOk(lim, t) && LiveOf(t) == Advance(lim, LiveOf(s), count) && s.allTokens <= t.allTokens
    ensures emitted <==> Emits(LiveOf(s), count)
    ensures done <==> DoneByRule(LiveOf(s), count, LiveOf(t))
    ensures emitted ==> t.generated != [] && t.generated[|t.generated| - 1] == last
  {
    hide NextToken, CountsOf, RuleStops;
    if wasPrefill {
      ReadIsAdvance(lim, s, count);
      var pending := PopFront(s.pending, count);
      t := s.(pending := pending, len := s.len + count);
      if pending != [] {
        return t, false, false;
      }
    } else {
      t := s.(len := s.len + 1);
    }
    assert t == s.(len := s.len + count, pending := []);
    t, done := Accept(lim, s, t, count, last);
    emitted := true;
  }

  /** Appends the new token and evaluates the finish rules. */
  method Accept(ghost lim: Limits, ghost was: SeqState, s: SeqState, ghost take: nat, out: Token)
    returns (t: SeqState, done: bool)
    requires SeqOk(lim, was) && TakeGranted(lim, was, take) && Emits(LiveOf(was), take)
    requires s == was.(len := was.len + take, pending := [])
    requires out == NextToken(lim.model, LiveOf(was).req, was.generated)
    ensures t == Push(s, out) && SeqOk(lim, t) && LiveOf(t) == Advance(lim, LiveOf(was), take)
    ensures done <==> DoneByRule(LiveOf(was), take, LiveOf(t))
  {
    PushIsAdvance(lim, was, take, out);
    t := Push(s, out);
    var stop := HasStop(t.generated, t.stops);
    done := t.eos == Some(out) || stop || |t.generated| >= t.maxNew;
  }
}
