/**
 The batched forward pass (batched.rs), host side, over an uninterpreted transformer.

 `Model` fixes what one layer does to one row. The reference is the plain causal transformer without a
 cache: the hidden state of a token depends on the tokens up to it. The batched pass works layer by layer. In an
 attention layer every row stores its key/value at its own position, then attends over positions `0..=pos` of its
 slot; in a recurrent layer every row in turn updates the one state of its slot and reads it.
 */
module Batched {
  import opened Tokens

  type Hidden(==, !new)
  type Kv(==, !new)
  type Rec(==, !new)
  type Params(==, !new)

  /**
   Layer count, which layers are recurrent, embedding, key/value projection, attention over a context, the recurrence
   with its initial state and its readout, and the greedy sampler. Attention and readout include the feed-forward part.
   */
  datatype Model = Model(
    layers: nat,
    recurrent: nat -> bool,
    embed: (Token, nat) -> Hidden,
    keyValue: (nat, nat, Hidden) -> Kv,
    attend: (nat, Hidden, seq<Kv>) -> Hidden,
    initial: nat -> Rec,
    update: (nat, Rec, Kv) -> Rec,
    readout: (nat, Hidden, Rec) -> Hidden,
    sample: (Hidden, map<Token, nat>, Params) -> Token)

  const GDN_CHUNK_MAX: nat := 12

  // ----- the reference: one sequence, no cache

  /** Hidden state of the last token of `stream` on entry to layer `l`. */
  function HiddenAt(m: Model, l: nat, stream: seq<Token>): Hidden
    requires stream != []
    decreases l, 0
  {
    if l == 0 then m.embed(stream[|stream| - 1], |stream| - 1)
    else if m.recurrent(l - 1) then
      m.readout(l - 1, HiddenAt(m, l - 1, stream), RecOf(m, l - 1, KvStream(m, l - 1, stream)))
    else m.attend(l - 1, HiddenAt(m, l - 1, stream), KvStream(m, l - 1, stream))
  }

  /** The state of the recurrence after these inputs. */
  function RecOf(m: Model, l: nat, kvs: seq<Kv>): Rec {
    if kvs == [] then m.initial(l) else m.update(l, RecOf(m, l, kvs[..|kvs| - 1]), kvs[|kvs| - 1])
  }

  function KvAt(m: Model, l: nat, stream: seq<Token>): Kv
    requires stream != []
    decreases l, 1
  {
    m.keyValue(l, |stream| - 1, HiddenAt(m, l, stream))
  }

  /** Key/values of all positions of `stream` in layer `l`. */
  function KvStream(m: Model, l: nat, stream: seq<Token>): (kvs: seq<Kv>)
    ensures |kvs| == |stream|
    decreases l, 2
  {
    seq(|stream|, p requires 0 <= p < |stream| => KvAt(m, l, stream[..p + 1]))
  }

  /** State of the recurrence of layer `l` after the first `n` tokens of `stream`. */
  function RecAt(m: Model, l: nat, stream: seq<Token>, n: nat): Rec
    requires n <= |stream|
  {
    RecOf(m, l, KvStream(m, l, stream[..n]))
  }

  // ----- the caches

  /** Key/values `kv[l][slot][pos]`, and recurrent states `rec[l][slot]`. */
  datatype Cache = Cache(kv: seq<seq<seq<Kv>>>, rec: seq<seq<Rec>>)

  predicate Shaped(cache: Cache, layers: nat, slots: nat, positions: nat) {
    && |cache.kv| == layers && |cache.rec| == layers
    && (forall l :: 0 <= l < layers ==> LayerShaped(cache.kv[l], slots, positions))
    && (forall l :: 0 <= l < layers ==> |cache.rec[l]| == slots)
  }

  predicate LayerShaped(layer: seq<seq<Kv>>, slots: nat, positions: nat) {
    && |layer| == slots
    && forall s :: 0 <= s < slots ==> |layer[s]| == positions
  }

  /** Position `pos` of a slot's row holds what the stream has there. */
  predicate Holds(m: Model, l: nat, row: seq<Kv>, stream: seq<Token>, pos: nat) {
    pos < |row| && pos < |stream| && row[pos] == KvAt(m, l, stream[..pos + 1])
  }

  /** One row of a batched step: a token at a position of a slot. */
  datatype Row = Row(token: Token, pos: nat, slot: nat)

  /** The row is the next part of its slot's stream. */
  predicate RowFits(streams: seq<seq<Token>>, row: Row, positions: nat) {
    && row.slot < |streams|
    && row.pos < |streams[row.slot]| && row.pos < positions
    && row.token == streams[row.slot][row.pos]
  }

  /** A position of a slot is in the cache already, or one of the first `n` rows stores it. */
  predicate Covered(rows: seq<Row>, n: nat, bases: seq<nat>, slot: nat, pos: nat)
    requires n <= |rows|
  {
    (slot < |bases| && pos < bases[slot]) || exists r :: 0 <= r < n && rows[r].slot == slot && rows[r].pos == pos
  }

  /** Every row can see its whole context: cached positions and rows of the same batch. */
  ghost predicate BatchFits(rows: seq<Row>, streams: seq<seq<Token>>, bases: seq<nat>, positions: nat) {
    && |bases| == |streams|
    && (forall r :: 0 <= r < |rows| ==> RowFits(streams, rows[r], positions))
    && (forall r, pos :: 0 <= r < |rows| && 0 <= pos <= rows[r].pos ==>
          Covered(rows, |rows|, bases, rows[r].slot, pos))
  }

  /** What is known of one layer of the cache when the first `n` rows have been stored. */
  ghost predicate LayerHeld(m: Model, l: nat, layer: seq<seq<Kv>>, streams: seq<seq<Token>>, rows: seq<Row>, n: nat,
                            bases: seq<nat>)
    requires n <= |rows|
  {
    forall s: nat, pos: nat :: HeldIfCovered(m, l, layer, streams, rows, n, bases, s, pos)
  }

  ghost predicate HeldIfCovered(m: Model, l: nat, layer: seq<seq<Kv>>, streams: seq<seq<Token>>, rows: seq<Row>,
                                n: nat, bases: seq<nat>, s: nat, pos: nat)
    requires n <= |rows|
  {
    s < |streams| && Covered(rows, n, bases, s, pos) ==> s < |layer| && Holds(m, l, layer[s], streams[s], pos)
  }

  // ----- what is known of a recurrent layer

  /** How many of the first `n` rows are of the slot. */
  function CountIn(rows: seq<Row>, n: nat, slot: nat): nat
    requires n <= |rows|
  {
    if n == 0 then 0 else CountIn(rows, n - 1, slot) + if rows[n - 1].slot == slot then 1 else 0
  }

  /** Every row takes up the recurrence of its slot where the previous one left it. */
  ghost predicate InOrder(rows: seq<Row>, bases: seq<nat>) {
    forall r :: 0 <= r < |rows| ==> TakesUp(rows, bases, r)
  }

  predicate TakesUp(rows: seq<Row>, bases: seq<nat>, r: nat)
    requires r < |rows|
  {
    rows[r].slot < |bases| && rows[r].pos == bases[rows[r].slot] + CountIn(rows, r, rows[r].slot)
  }

  /** After the first `n` rows every slot in use has the state of its own stream. */
  ghost predicate RecHeld(m: Model, l: nat, recs: seq<Rec>, streams: seq<seq<Token>>, rows: seq<Row>, n: nat,
                          bases: seq<nat>)
    requires n <= |rows|
  {
    forall s: nat :: s < |streams| && streams[s] != [] ==> RecHeldAt(m, l, recs, streams, rows, n, bases, s)
  }

  ghost predicate RecHeldAt(m: Model, l: nat, recs: seq<Rec>, streams: seq<seq<Token>>, rows: seq<Row>, n: nat,
                            bases: seq<nat>, s: nat)
    requires n <= |rows| && s < |streams|
  {
    s < |bases| && StateIs(m, l, recs, s, streams[s], bases[s] + CountIn(rows, n, s))
  }

  /** The slot has the state after the first `len` tokens of the stream. */
  predicate StateIs(m: Model, l: nat, recs: seq<Rec>, slot: nat, stream: seq<Token>, len: nat) {
    slot < |recs| && len <= |stream| && recs[slot] == RecAt(m, l, stream, len)
  }

  ghost predicate HiddensAre(m: Model, l: nat, hiddens: seq<Hidden>, rows: seq<Row>, streams: seq<seq<Token>>,
                             positions: nat)
  {
    && |hiddens| == |rows|
    && forall r :: 0 <= r < |rows| ==> HiddenIs(m, l, hiddens[r], rows[r], streams, positions)
  }

  predicate HiddenIs(m: Model, l: nat, h: Hidden, row: Row, streams: seq<seq<Token>>, positions: nat) {
    RowFits(streams, row, positions) && h == HiddenAt(m, l, streams[row.slot][..row.pos + 1])
  }

  // ----- the batched pass

  /** First half of a layer: every row stores its key/value at its own position. */
  method StoreRows(m: Model, l: nat, layer: seq<seq<Kv>>, hiddens: seq<Hidden>, rows: seq<Row>,
                   ghost streams: seq<seq<Token>>, ghost bases: seq<nat>, positions: nat)
    returns (next: seq<seq<Kv>>)
    requires LayerShaped(layer, |streams|, positions) && |bases| == |streams|
    requires HiddensAre(m, l, hiddens, rows, streams, positions)
    requires LayerHeld(m, l, layer, streams, rows, 0, bases)
    ensures LayerShaped(next, |streams|, positions)
    ensures LayerHeld(m, l, next, streams, rows, |rows|, bases)
  {
    next := layer;
    for r := 0 to |rows|
      invariant LayerShaped(next, |streams|, positions)
      invariant LayerHeld(m, l, next, streams, rows, r, bases)
    {
      var row := rows[r];
      assert HiddenIs(m, l, hiddens[r], row, streams, positions);
      ghost var was := next;
      next := next[row.slot := next[row.slot][row.pos := m.keyValue(l, row.pos, hiddens[r])]];
      StoredRowHeld(m, l, was, next, streams, rows, r, bases);
    }
  }

  lemma StoredRowHeld(m: Model, l: nat, was: seq<seq<Kv>>, next: seq<seq<Kv>>, streams: seq<seq<Token>>,
                      rows: seq<Row>, r: nat, bases: seq<nat>)
    requires r < |rows| && LayerHeld(m, l, was, streams, rows, r, bases)
    requires var row := rows[r];
             && row.slot < |was| && row.slot < |streams| && row.pos < |was[row.slot]| && row.pos < |streams[row.slot]|
             && next == was[row.slot := was[row.slot][row.pos := KvAt(m, l, streams[row.slot][..row.pos + 1])]]
    ensures LayerHeld(m, l, next, streams, rows, r + 1, bases)
  {
    var n := r + 1;
    forall s: nat, pos: nat
      ensures HeldIfCovered(m, l, next, streams, rows, n, bases, s, pos)
    {
      assert HeldIfCovered(m, l, was, streams, rows, r, bases, s, pos);
    }
  }

  /** Second half of a layer: every row attends over the positions up to its own. */
  method AttendRows(m: Model, l: nat, layer: seq<seq<Kv>>, hiddens: seq<Hidden>, rows: seq<Row>,
                    ghost streams: seq<seq<Token>>, ghost bases: seq<nat>, positions: nat)
    returns (next: seq<Hidden>)
    requires LayerShaped(layer, |streams|, positions)
    requires BatchFits(rows, streams, bases, positions) && !m.recurrent(l)
    requires HiddensAre(m, l, hiddens, rows, streams, positions)
    requires LayerHeld(m, l, layer, streams, rows, |rows|, bases)
    ensures HiddensAre(m, l + 1, next, rows, streams, positions)
  {
    next := [];
    for r := 0 to |rows|
      invariant |next| == r
      invariant forall k :: 0 <= k < r ==> HiddenIs(m, l + 1, next[k], rows[k], streams, positions)
    {
      var row := rows[r];
      assert RowFits(streams, row, positions) && HiddenIs(m, l, hiddens[r], row, streams, positions);
      ContextIsStream(m, l, layer, streams, rows, r, bases, positions);
      next := next + [m.attend(l, hiddens[r], layer[row.slot][..row.pos + 1])];
    }
  }

  /** The context that a row reads from the cache is the key/value stream of its own sequence. */
  lemma ContextIsStream(m: Model, l: nat, layer: seq<seq<Kv>>, streams: seq<seq<Token>>, rows: seq<Row>, r: nat,
                        bases: seq<nat>, positions: nat)
    requires r < |rows| && LayerShaped(layer, |streams|, positions)
    requires BatchFits(rows, streams, bases, positions)
    requires LayerHeld(m, l, layer, streams, rows, |rows|, bases)
    ensures RowFits(streams, rows[r], positions)
    ensures layer[rows[r].slot][..rows[r].pos + 1] == KvStream(m, l, streams[rows[r].slot][..rows[r].pos + 1])
  {
    var row := rows[r];
    assert RowFits(streams, row, positions);
    var stream := streams[row.slot][..row.pos + 1];
    forall pos | 0 <= pos <= row.pos
      ensures layer[row.slot][pos] == KvStream(m, l, stream)[pos]
    {
      assert Covered(rows, |rows|, bases, row.slot, pos);
      assert HeldIfCovered(m, l, layer, streams, rows, |rows|, bases, row.slot, pos);
      assert Holds(m, l, layer[row.slot], streams[row.slot], pos);
      assert stream[..pos + 1] == streams[row.slot][..pos + 1];
    }
  }

  /** A recurrent layer: every row in turn updates the state of its slot and reads it. */
  method RecurRows(m: Model, l: nat, recs: seq<Rec>, hiddens: seq<Hidden>, rows: seq<Row>,
                   ghost streams: seq<seq<Token>>, ghost bases: seq<nat>, ghost positions: nat)
    returns (after: seq<Rec>, next: seq<Hidden>)
    requires m.recurrent(l) && |recs| == |streams| && InOrder(rows, bases)
    requires HiddensAre(m, l, hiddens, rows, streams, positions)
    requires RecHeld(m, l, recs, streams, rows, 0, bases)
    ensures |after| == |recs| && RecHeld(m, l, after, streams, rows, |rows|, bases)
    ensures HiddensAre(m, l + 1, next, rows, streams, positions)
  {
    hide RecAt, KvAt, HiddenAt;
    after, next := recs, [];
    for r := 0 to |rows|
      invariant |after| == |recs| && |next| == r
      invariant RecHeld(m, l, after, streams, rows, r, bases)
      invariant forall k :: 0 <= k < r ==> HiddenIs(m, l + 1, next[k], rows[k], streams, positions)
    {
      var row := rows[r];
      assert HiddenIs(m, l, hiddens[r], row, streams, positions) && TakesUp(rows, bases, r);
      assert RecHeldAt(m, l, after, streams, rows, r, bases, row.slot);
      ghost var was := after;
      var state := m.update(l, after[row.slot], m.keyValue(l, row.pos, hiddens[r]));
      RowRecurs(m, l, after[row.slot], hiddens[r], row, streams, positions);
      after := after[row.slot := state];
      next := next + [m.readout(l, hiddens[r], state)];
      RecHeldNext(m, l, was, after, streams, rows, r, bases);
    }
  }

  /** The update of a row gives the state and the readout of its stream alone. */
  lemma RowRecurs(m: Model, l: nat, state: Rec, h: Hidden, row: Row, streams: seq<seq<Token>>, positions: nat)
    requires m.recurrent(l) && HiddenIs(m, l, h, row, streams, positions)
    requires state == RecAt(m, l, streams[row.slot], row.pos)
    ensures var next := m.update(l, state, m.keyValue(l, row.pos, h));
            && next == RecAt(m, l, streams[row.slot], row.pos + 1)
            && HiddenIs(m, l + 1, m.readout(l, h, next), row, streams, positions)
  {
    RecAtNext(m, l, streams[row.slot], row.pos);
  }

  /** One more token is one more update. */
  lemma RecAtNext(m: Model, l: nat, stream: seq<Token>, n: nat)
    requires n < |stream|
    ensures RecAt(m, l, stream, n + 1) == m.update(l, RecAt(m, l, stream, n), KvAt(m, l, stream[..n + 1]))
  {
    var longer := KvStream(m, l, stream[..n + 1]);
    var shorter := KvStream(m, l, stream[..n]);
    forall p | 0 <= p < n
      ensures longer[p] == shorter[p]
    {
      assert stream[..n + 1][..p + 1] == stream[..n][..p + 1];
    }
    assert longer[..n] == shorter;
    assert stream[..n + 1][..n + 1] == stream[..n + 1];
  }

  lemma RecHeldNext(m: Model, l: nat, was: seq<Rec>, now: seq<Rec>, streams: seq<seq<Token>>, rows: seq<Row>, r: nat,
                    bases: seq<nat>)
    requires r < |rows| && RecHeld(m, l, was, streams, rows, r, bases) && TakesUp(rows, bases, r)
    requires rows[r].slot < |was| && rows[r].slot < |streams| && rows[r].pos < |streams[rows[r].slot]|
    requires now == was[rows[r].slot := RecAt(m, l, streams[rows[r].slot], rows[r].pos + 1)]
    ensures RecHeld(m, l, now, streams, rows, r + 1, bases)
  {
    forall s: nat | s < |streams| && streams[s] != []
      ensures RecHeldAt(m, l, now, streams, rows, r + 1, bases, s)
    {
      assert RecHeldAt(m, l, was, streams, rows, r, bases, s);
    }
  }

  /** What is known of one layer when the first `n` rows have gone through it. */
  ghost predicate LayerOk(m: Model, l: nat, cache: Cache, streams: seq<seq<Token>>, rows: seq<Row>, n: nat,
                          bases: seq<nat>)
    requires n <= |rows| && l < |cache.kv| && l < |cache.rec|
  {
    if m.recurrent(l) then RecHeld(m, l, cache.rec[l], streams, rows, n, bases)
    else LayerHeld(m, l, cache.kv[l], streams, rows, n, bases)
  }

  /** What is known of the whole cache when the first `n` rows have gone through every layer. */
  ghost predicate CacheHeld(m: Model, cache: Cache, streams: seq<seq<Token>>, rows: seq<Row>, n: nat, bases: seq<nat>)
    requires n <= |rows|
  {
    forall l :: 0 <= l < |cache.kv| && l < |cache.rec| ==> LayerOk(m, l, cache, streams, rows, n, bases)
  }

  // ----- the chunk runs of models with recurrent layers

  datatype GdnRun = GdnRun(start: nat, count: nat, pos: nat, slot: nat)

  /** Rows of one slot stand together, at consecutive positions, and are at most GDN_CHUNK_MAX. */
  ghost predicate RunsOk(rows: seq<Row>) {
    && Contiguous(rows)
    && (forall i :: 0 < i < |rows| ==> StepsByOne(rows, i))
    && (forall i :: 0 <= i < |rows| - GDN_CHUNK_MAX ==> EndsInTime(rows, i))
  }

  ghost predicate Contiguous(rows: seq<Row>) {
    forall i, j :: 0 <= i < j < |rows| && rows[i].slot == rows[j].slot ==> rows[j - 1].slot == rows[j].slot
  }

  predicate StepsByOne(rows: seq<Row>, i: nat)
    requires 0 < i < |rows|
  {
    rows[i].slot == rows[i - 1].slot ==> rows[i].pos == rows[i - 1].pos + 1
  }

  predicate EndsInTime(rows: seq<Row>, i: nat)
    requires i + GDN_CHUNK_MAX < |rows|
  {
    rows[i].slot != rows[i + GDN_CHUNK_MAX].slot
  }

  /** The run is one block of rows of its slot, at consecutive positions, within the chunk cap. */
  ghost predicate RunFits(rows: seq<Row>, run: GdnRun) {
    && 1 <= run.count <= GDN_CHUNK_MAX && run.start + run.count <= |rows|
    && forall k :: run.start <= k < run.start + run.count ==>
         rows[k].slot == run.slot && rows[k].pos == run.pos + (k - run.start)
  }

  /** The runs split the first `n` rows into consecutive blocks. */
  ghost predicate Partition(rows: seq<Row>, runs: seq<GdnRun>, n: nat) {
    && (forall k :: 0 <= k < |runs| ==> RunFits(rows, runs[k]))
    && (forall k :: 0 <= k < |runs| ==> runs[k].start == if k == 0 then 0 else runs[k - 1].start + runs[k - 1].count)
    && n == (if runs == [] then 0 else runs[|runs| - 1].start + runs[|runs| - 1].count)
  }

  /** No slot has two runs. */
  ghost predicate OneRunPerSlot(runs: seq<GdnRun>) {
    forall j, k :: 0 <= j < k < |runs| ==> runs[j].slot != runs[k].slot
  }

  ghost predicate SlotSeen(rows: seq<Row>, n: nat, slot: nat)
    requires n <= |rows|
  {
    exists r :: 0 <= r < n && rows[r].slot == slot
  }

  /**
   Accepts a batch if and only if every slot's rows form one chunk, and then returns the partition of the rows
   into chunks, one per slot.
   */
  method BuildGdnRuns(rows: seq<Row>, batch: nat) returns (ok: bool, runs: seq<GdnRun>)
    requires forall r :: 0 <= r < |rows| ==> rows[r].slot < batch
    ensures ok <==> RunsOk(rows)
    ensures ok ==> Partition(rows, runs, |rows|) && OneRunPerSlot(runs)
  {
    runs := [];
    var seen := seq(batch, _ => false);
    var i := 0;
    while i < |rows|
      invariant i <= |rows| && |seen| == batch
      invariant SeenSoFar(rows, i, seen)
      invariant 0 < i < |rows| ==> rows[i].slot != rows[i - 1].slot
      invariant RunsOk(rows[..i])
      invariant RunsSoFar(rows, runs, i)
    {
      var s := rows[i].slot;
      if seen[s] {
        return false, [];
      }
      var j, steps := ScanRun(rows, i);
      if !steps {
        return false, [];
      }
      if j - i > GDN_CHUNK_MAX {
        assert !EndsInTime(rows, i);
        return false, [];
      }
      RunAppends(rows, i, j);
      RunExtends(rows, runs, i, j);
      seen := seen[s := true];
      runs := runs + [GdnRun(i, j - i, rows[i].pos, s)];
      i := j;
    }
    assert rows[..|rows|] == rows;
    ok := true;
  }

  ghost predicate SeenSoFar(rows: seq<Row>, n: nat, seen: seq<bool>)
    requires n <= |rows|
  {
    forall s :: 0 <= s < |seen| ==> (seen[s] <==> SlotSeen(rows, n, s))
  }

  ghost predicate RunsSoFar(rows: seq<Row>, runs: seq<GdnRun>, n: nat)
    requires n <= |rows|
  {
    && Partition(rows, runs, n) && OneRunPerSlot(runs)
    && forall k :: 0 <= k < |runs| ==> SlotSeen(rows, n, runs[k].slot)
  }

  lemma RunExtends(rows: seq<Row>, runs: seq<GdnRun>, i: nat, j: nat)
    requires i < j <= |rows| && j - i <= GDN_CHUNK_MAX && RunsSoFar(rows, runs, i)
    requires !SlotSeen(rows, i, rows[i].slot)
    requires forall k :: i <= k < j ==> rows[k].slot == rows[i].slot && rows[k].pos == rows[i].pos + (k - i)
    ensures RunsSoFar(rows, runs + [GdnRun(i, j - i, rows[i].pos, rows[i].slot)], j)
  {
  }

  /** Scans the block of rows of one slot; stops when the positions do not step by one. */
  method ScanRun(rows: seq<Row>, i: nat) returns (j: nat, steps: bool)
    requires i < |rows|
    ensures i < j <= |rows|
    ensures forall k :: i <= k < j ==> rows[k].slot == rows[i].slot
    ensures steps ==> j < |rows| ==> rows[j].slot != rows[i].slot
    ensures steps ==> forall k :: i <= k < j ==> rows[k].pos == rows[i].pos + (k - i)
    ensures !steps ==> j < |rows| && !StepsByOne(rows, j)
  {
    j := i + 1;
    while j < |rows| && rows[j].slot == rows[i].slot
      invariant i < j <= |rows|
      invariant forall k :: i <= k < j ==> rows[k].slot == rows[i].slot && rows[k].pos == rows[i].pos + (k - i)
    {
      if rows[j].pos != rows[j - 1].pos + 1 {
        return j, false;
      }
      j := j + 1;
    }
    steps := true;
  }

  lemma RunAppends(rows: seq<Row>, i: nat, j: nat)
    requires i < j <= |rows| && j - i <= GDN_CHUNK_MAX && RunsOk(rows[..i])
    requires !SlotSeen(rows, i, rows[i].slot)
    requires forall k :: i <= k < j ==> rows[k].slot == rows[i].slot && rows[k].pos == rows[i].pos + (k - i)
    ensures RunsOk(rows[..j])
  {
    var before, after := rows[..i], rows[..j];
    forall k | 0 < k < j
      ensures StepsByOne(after, k)
    {
      assert k < i ==> StepsByOne(before, k);
    }
    forall k | 0 <= k < j - GDN_CHUNK_MAX
      ensures EndsInTime(after, k)
    {
      assert k + GDN_CHUNK_MAX < i ==> EndsInTime(before, k);
    }
  }

  /** The rows of every slot start where its cached prefix ends. */
  ghost predicate StartsAtBases(rows: seq<Row>, bases: seq<nat>) {
    forall r :: 0 <= r < |rows| ==> StartsAtBase(rows, bases, r)
  }

  ghost predicate StartsAtBase(rows: seq<Row>, bases: seq<nat>, r: nat)
    requires r < |rows|
  {
    rows[r].slot < |bases| && (!SlotSeen(rows, r, rows[r].slot) ==> rows[r].pos == bases[rows[r].slot])
  }

  /** This is what the check of the chunk runs is for: accepted rows take up the recurrence in order. */
  lemma RunsAreInOrder(rows: seq<Row>, bases: seq<nat>)
    requires RunsOk(rows) && StartsAtBases(rows, bases)
    ensures InOrder(rows, bases)
  {
    forall r: nat | r < |rows|
      ensures TakesUp(rows, bases, r)
    {
      RunTakesUp(rows, bases, r);
    }
  }

  lemma {:induction false} RunTakesUp(rows: seq<Row>, bases: seq<nat>, r: nat)
    requires RunsOk(rows) && StartsAtBases(rows, bases) && r < |rows|
    ensures TakesUp(rows, bases, r)
  {
    assert StartsAtBase(rows, bases, r);
    if r > 0 && rows[r - 1].slot == rows[r].slot {
      RunTakesUp(rows, bases, r - 1);
      assert StepsByOne(rows, r);
    } else {
      assert !SlotSeen(rows, r, rows[r].slot);
      NoneSeenNoneCounted(rows, r, rows[r].slot);
    }
  }

  lemma {:induction false} NoneSeenNoneCounted(rows: seq<Row>, n: nat, slot: nat)
    requires n <= |rows|
    ensures SlotSeen(rows, n, slot) <==> CountIn(rows, n, slot) > 0
  {
    if n > 0 {
      NoneSeenNoneCounted(rows, n - 1, slot);
      if SlotSeen(rows, n, slot) {
        var r :| 0 <= r < n && rows[r].slot == slot;
        assert r < n - 1 ==> SlotSeen(rows, n - 1, slot);
      }
    }
  }

  // ----- the model object

  datatype StepOutput = Rejected | Sampled(tokens: seq<Token>)

  /** A row is sampled as its sequence alone would be: from its own stream, counts and parameters. */
  predicate SampledAlone(m: Model, row: Row, streams: seq<seq<Token>>, positions: nat, counts: map<Token, nat>,
                         params: Params, token: Token)
  {
    && RowFits(streams, row, positions)
    && token == m.sample(HiddenAt(m, m.layers, streams[row.slot][..row.pos + 1]), counts, params)
  }

  /** The cache after the first `len` positions of slot `from` have been copied to slot `to`. */
  predicate LayerCopied(was: seq<seq<Kv>>, now: seq<seq<Kv>>, from: nat, to: nat, len: nat) {
    && |now| == |was| && from < |was| && to < |was|
    && (forall s :: 0 <= s < |was| && s != to ==> now[s] == was[s])
    && len <= |was[from]| && len <= |was[to]|
    && now[to] == was[from][..len] + was[to][len..]
  }

  /** The recurrent state of slot `from` copied to slot `to`. */
  predicate RecCopied(m: Model, l: nat, was: seq<Rec>, now: seq<Rec>, from: nat, to: nat) {
    from < |was| && to < |was| && now == if m.recurrent(l) then was[to := was[from]] else was
  }

  /** The recurrent state of a slot reset to the initial one. */
  predicate RecCleared(m: Model, l: nat, was: seq<Rec>, now: seq<Rec>, slot: nat) {
    slot < |was| && now == if m.recurrent(l) then was[slot := m.initial(l)] else was
  }

  class BatchedModel {
    const m: Model
    const batch: nat
    const rowCapacity: nat
    const maxSeqLen: nat
    const gdn: bool
    var cache: Cache

    ghost predicate Valid()
      reads this
    {
      && Shaped(cache, m.layers, batch, maxSeqLen)
      && (!gdn ==> forall l :: 0 <= l < m.layers ==> !m.recurrent(l))
    }

    /** The cache memory starts with arbitrary content; recurrent layers are declared by `gdn`. */
    constructor (m: Model, batch: nat, rowCapacity: nat, maxSeqLen: nat, gdn: bool, memory: Cache)
      requires Shaped(memory, m.layers, batch, maxSeqLen)
      requires !gdn ==> forall l :: 0 <= l < m.layers ==> !m.recurrent(l)
      ensures Valid() && this.m == m && this.batch == batch && this.rowCapacity == rowCapacity
      ensures this.maxSeqLen == maxSeqLen && this.gdn == gdn && cache == memory
    {
      this.m, this.batch, this.rowCapacity, this.maxSeqLen, this.gdn := m, batch, rowCapacity, maxSeqLen, gdn;
      cache := memory;
    }

    /** The checks on an explicit batch: positions, slots, and for recurrent models the chunk runs. */
    ghost predicate Accepts(rows: seq<Row>) {
      && (forall r :: 0 <= r < |rows| ==> rows[r].pos < maxSeqLen && rows[r].slot < batch)
      && (gdn ==> RunsOk(rows))
    }

    method CheckRows(rows: seq<Row>) returns (ok: bool)
      ensures ok <==> Accepts(rows)
    {
      for r := 0 to |rows|
        invariant forall k :: 0 <= k < r ==> rows[k].pos < maxSeqLen
      {
        if rows[r].pos >= maxSeqLen {
          return false;
        }
      }
      for r := 0 to |rows|
        invariant forall k :: 0 <= k < r ==> rows[k].slot < batch
      {
        if rows[r].slot >= batch {
          return false;
        }
      }
      ok := true;
      if gdn {
        var runs;
        ok, runs := BuildGdnRuns(rows, batch);
      }
    }

    /**
     One batched step. A batch that fails a check is rejected and nothing is written; an accepted one samples
     every row exactly as its own sequence alone would, and leaves every stored position correct.
     */
    method DecodeStepExplicit(rows: seq<Row>, counts: seq<map<Token, nat>>, params: seq<Params>,
                              ghost streams: seq<seq<Token>>, ghost bases: seq<nat>)
      returns (out: StepOutput)
      requires Valid() && |rows| <= rowCapacity && |counts| == |rows| == |params|
      requires |streams| == |bases| == batch
      requires Accepts(rows) ==> BatchFits(rows, streams, bases, maxSeqLen)
      requires gdn ==> StartsAtBases(rows, bases)
      requires CacheHeld(m, cache, streams, rows, 0, bases)
      modifies this`cache
      ensures Valid()
      ensures out.Sampled? <==> Accepts(rows)
      ensures out.Rejected? ==> cache == old(cache)
      ensures out.Sampled? ==>
                && |out.tokens| == |rows|
                && CacheHeld(m, cache, streams, rows, |rows|, bases)
                && forall r :: 0 <= r < |rows| ==>
                     SampledAlone(m, rows[r], streams, maxSeqLen, counts[r], params[r], out.tokens[r])
    {
      var ok := CheckRows(rows);
      if !ok {
        return Rejected;
      }
      if gdn {
        RunsAreInOrder(rows, bases);
      }
      var hiddens := RunLayers(rows, streams, bases);
      var tokens := [];
      for r := 0 to |rows|
        invariant |tokens| == r
        invariant forall k :: 0 <= k < r ==>
                    SampledAlone(m, rows[k], streams, maxSeqLen, counts[k], params[k], tokens[k])
      {
        assert HiddenIs(m, m.layers, hiddens[r], rows[r], streams, maxSeqLen);
        tokens := tokens + [m.sample(hiddens[r], counts[r], params[r])];
      }
      out := Sampled(tokens);
    }

    /** All layers in turn, for all rows at once. */
    method RunLayers(rows: seq<Row>, ghost streams: seq<seq<Token>>, ghost bases: seq<nat>)
      returns (hiddens: seq<Hidden>)
      requires Valid() && |streams| == |bases| == batch
      requires BatchFits(rows, streams, bases, maxSeqLen) && (gdn ==> InOrder(rows, bases))
      requires CacheHeld(m, cache, streams, rows, 0, bases)
      modifies this`cache
      ensures Valid() && CacheHeld(m, cache, streams, rows, |rows|, bases)
      ensures HiddensAre(m, m.layers, hiddens, rows, streams, maxSeqLen)
    {
      hide InOrder, RecHeld, LayerHeld, HiddensAre;
      hiddens := EmbedRows(m, rows, streams, maxSeqLen);
      for l := 0 to m.layers
        invariant Valid() && HiddensAre(m, l, hiddens, rows, streams, maxSeqLen)
        invariant forall k :: 0 <= k < m.layers ==> LayerUpTo(m, k, cache, streams, rows, l, bases)
      {
        assert LayerUpTo(m, l, cache, streams, rows, l, bases);
        ghost var was := cache;
        if m.recurrent(l) {
          var states;
          states, hiddens := RecurRows(m, l, cache.rec[l], hiddens, rows, streams, bases, maxSeqLen);
          cache := cache.(rec := cache.rec[l := states]);
        } else {
          var layer := StoreRows(m, l, cache.kv[l], hiddens, rows, streams, bases, maxSeqLen);
          hiddens := AttendRows(m, l, layer, hiddens, rows, streams, bases, maxSeqLen);
          cache := cache.(kv := cache.kv[l := layer]);
        }
        OtherLayersOk(m, l, l + 1, was, cache, streams, rows, bases);
      }
      forall l | 0 <= l < m.layers
        ensures LayerOk(m, l, cache, streams, rows, |rows|, bases)
      {
        assert LayerUpTo(m, l, cache, streams, rows, m.layers, bases);
      }
    }

    /** Compaction: moves the first `len` positions of slot `from` to slot `to`, in every layer. */
    method CopySeqKv(from: nat, to: nat, len: nat)
      requires Valid() && from < batch && to < batch && len <= maxSeqLen
      modifies this`cache
      ensures Valid() && cache.rec == old(cache).rec && |cache.kv| == |old(cache).kv|
      ensures forall l :: 0 <= l < |cache.kv| ==> LayerCopied(old(cache).kv[l], cache.kv[l], from, to, len)
    {
      ghost var was := cache;
      for l := 0 to |cache.kv|
        invariant Valid() && cache.rec == was.rec && |cache.kv| == |was.kv|
        invariant forall k :: 0 <= k < l ==> LayerCopied(was.kv[k], cache.kv[k], from, to, len)
        invariant forall k :: l <= k < |cache.kv| ==> cache.kv[k] == was.kv[k]
      {
        assert LayerShaped(cache.kv[l], batch, maxSeqLen);
        var layer := cache.kv[l];
        cache := cache.(kv := cache.kv[l := layer[to := layer[from][..len] + layer[to][len..]]]);
      }
    }

    /** Compaction: moves the recurrent state of slot `from` to slot `to`, in every recurrent layer. */
    method CopyGdnSlot(from: nat, to: nat)
      requires Valid() && from < batch && to < batch
      modifies this`cache
      ensures Valid() && cache.kv == old(cache).kv && |cache.rec| == |old(cache).rec|
      ensures forall l :: 0 <= l < |cache.rec| ==> RecCopied(m, l, old(cache).rec[l], cache.rec[l], from, to)
    {
      if !gdn {
        return;
      }
      ghost var was := cache;
      for l := 0 to m.layers
        invariant Valid() && cache.kv == was.kv && |cache.rec| == |was.rec|
        invariant forall k :: 0 <= k < l ==> RecCopied(m, k, was.rec[k], cache.rec[k], from, to)
        invariant forall k :: l <= k < |cache.rec| ==> cache.rec[k] == was.rec[k]
      {
        if m.recurrent(l) {
          cache := cache.(rec := cache.rec[l := cache.rec[l][to := cache.rec[l][from]]]);
        }
      }
    }

    /** Admission: the recurrent state of a slot goes back to that before the first token. */
    method ClearGdnSlot(slot: nat)
      requires Valid() && slot < batch
      modifies this`cache
      ensures Valid() && cache.kv == old(cache).kv && |cache.rec| == |old(cache).rec|
      ensures forall l :: 0 <= l < |cache.rec| ==> RecCleared(m, l, old(cache).rec[l], cache.rec[l], slot)
    {
      if !gdn {
        return;
      }
      ghost var was := cache;
      for l := 0 to m.layers
        invariant Valid() && cache.kv == was.kv && |cache.rec| == |was.rec|
        invariant forall k :: 0 <= k < l ==> RecCleared(m, k, was.rec[k], cache.rec[k], slot)
        invariant forall k :: l <= k < |cache.rec| ==> cache.rec[k] == was.rec[k]
      {
        if m.recurrent(l) {
          cache := cache.(rec := cache.rec[l := cache.rec[l][slot := m.initial(l)]]);
        }
      }
    }
  }

  /** What is known of layer `k` when the layers below `l` are done. */
  ghost predicate LayerUpTo(m: Model, k: nat, cache: Cache, streams: seq<seq<Token>>, rows: seq<Row>, l: nat,
                            bases: seq<nat>)
    requires k < |cache.kv| && k < |cache.rec|
  {
    LayerOk(m, k, cache, streams, rows, if k < l then |rows| else 0, bases)
  }

  /** Layer `l` is done; what is known of the others stays. */
  lemma OtherLayersOk(m: Model, l: nat, next: nat, was: Cache, now: Cache, streams: seq<seq<Token>>, rows: seq<Row>,
                      bases: seq<nat>)
    requires next == l + 1
    requires |was.kv| == |was.rec| == |now.kv| == |now.rec| == m.layers && l < m.layers
    requires forall k :: 0 <= k < m.layers && k != l ==> now.kv[k] == was.kv[k] && now.rec[k] == was.rec[k]
    requires forall k :: 0 <= k < m.layers ==> LayerUpTo(m, k, was, streams, rows, l, bases)
    requires LayerOk(m, l, now, streams, rows, |rows|, bases)
    ensures forall k :: 0 <= k < m.layers ==> LayerUpTo(m, k, now, streams, rows, next, bases)
  {
    hide RecHeld, LayerHeld;
    forall k | 0 <= k < m.layers
      ensures LayerUpTo(m, k, now, streams, rows, next, bases)
    {
      assert LayerUpTo(m, k, was, streams, rows, l, bases);
    }
  }

  method EmbedRows(m: Model, rows: seq<Row>, ghost streams: seq<seq<Token>>, positions: nat)
    returns (hiddens: seq<Hidden>)
    requires forall r :: 0 <= r < |rows| ==> RowFits(streams, rows[r], positions)
    ensures HiddensAre(m, 0, hiddens, rows, streams, positions)
  {
    hiddens := [];
    for r := 0 to |rows|
      invariant |hiddens| == r
      invariant forall k :: 0 <= k < r ==> HiddenIs(m, 0, hiddens[k], rows[k], streams, positions)
    {
      assert RowFits(streams, rows[r], positions);
      hiddens := hiddens + [m.embed(rows[r].token, rows[r].pos)];
    }
  }
}
