/**
 The forward pass in paged key/value mode (batched.rs) on top of the paged bookkeeping (continuous.rs
 `PagedEngineState`): one object that holds the block tables and the pages of every layer. Whatever its methods have
 admitted, shared, registered, retired and evicted, every row is sampled exactly as its sequence alone would be.
 */
module PagedModel {
  import opened Arithmetic
  import opened Collections
  import opened Tokens
  import opened Batched
  import opened PagedOwnership
  import opened PagedKv
  import opened PagedEngine
  import opened PagedContents
  import E = EngineRows
  import S = EngineSpec

  // ----- a batch over the live sequences

  function StreamsOf(seqs: seq<Seq>): (streams: seq<seq<Token>>)
    ensures |streams| == |seqs|
  {
    seq(|seqs|, s requires 0 <= s < |seqs| => seqs[s].stream)
  }

  function LensOf(seqs: seq<Seq>): (lens: seq<nat>)
    ensures |lens| == |seqs|
  {
    seq(|seqs|, s requires 0 <= s < |seqs| => seqs[s].len)
  }

  /** Every row is the next token of its sequence: where its stored prefix, and the rows before it, end. */
  ghost predicate RowsOk(seqs: seq<Seq>, rows: seq<Row>, positions: nat) {
    && InOrder(rows, LensOf(seqs))
    && forall r :: 0 <= r < |rows| ==> RowFits(StreamsOf(seqs), rows[r], positions)
  }

  /** The sequences when the first `n` rows are stored. */
  function After(seqs: seq<Seq>, rows: seq<Row>, n: nat): (after: seq<Seq>)
    requires n <= |rows|
    ensures |after| == |seqs| && StreamsOf(after) == StreamsOf(seqs)
  {
    seq(|seqs|, s requires 0 <= s < |seqs| => seqs[s].(len := seqs[s].len + CountIn(rows, n, s)))
  }

  lemma AfterNone(seqs: seq<Seq>, rows: seq<Row>)
    ensures After(seqs, rows, 0) == seqs
  {
  }

  /** The world of one layer when its first `n` rows are stored. */
  function LayerWorld(g: Pages, mem: Memory, seqs: seq<Seq>, rows: seq<Row>, n: nat): World
    requires n <= |rows|
  {
    World(g, mem, After(seqs, rows, n))
  }

  lemma RowCanBeStored(c: Setting, w: World, seqs: seq<Seq>, rows: seq<Row>, r: nat, positions: nat)
    requires ContentOk(c, w) && r < |rows| && RowsOk(seqs, rows, positions) && w.seqs == After(seqs, rows, r)
    requires forall s :: 0 <= s < |w.g.tables| ==> positions <= |w.g.tables[s]| * c.perPage
    ensures CanStore(c, w, rows[r].slot, rows[r].pos) && rows[r].pos == w.seqs[rows[r].slot].len
  {
    hide ContentOk;
    assert TakesUp(rows, LensOf(seqs), r) && RowFits(StreamsOf(seqs), rows[r], positions);
    SameTables(c, w);
  }

  lemma SameTables(c: Setting, w: World)
    requires ContentOk(c, w)
    ensures |w.seqs| == |w.g.tables|
  {
  }

  /** Storing the next row is one step of the world. */
  lemma StoredIsNext(c: Setting, w: World, seqs: seq<Seq>, rows: seq<Row>, r: nat)
    requires ContentOk(c, w) && r < |rows| && w.seqs == After(seqs, rows, r)
    requires CanStore(c, w, rows[r].slot, rows[r].pos) && rows[r].pos == w.seqs[rows[r].slot].len
    ensures Stored(c, w, rows[r].slot, rows[r].pos).seqs == After(seqs, rows, r + 1)
  {
    hide ContentOk;
  }

  /** A live sequence as the engine keeps it. */
  ghost predicate SameSeq(x: E.SeqState, y: Seq) {
    y == Seq(x.allTokens, x.len)
  }

  /** The batch of an engine step is such a batch, and afterwards every sequence has stored what it was granted. */
  lemma EngineBatchIsOk(lim: S.Limits, states: seq<E.SeqState>, takes: seq<nat>, seqs: seq<Seq>, positions: nat)
    requires E.Granted(lim, states, takes) && |seqs| == |states| && lim.maxSeqLen <= positions
    requires forall i :: 0 <= i < |states| ==> SameSeq(states[i], seqs[i])
    ensures var rows := E.AllRows(lim, states, takes, |states|);
            && RowsOk(seqs, rows, positions)
            && forall i :: 0 <= i < |seqs| ==> After(seqs, rows, |rows|)[i].len == states[i].len + takes[i]
  {
    var rows := E.AllRows(lim, states, takes, |states|);
    hide E.AllRows;
    forall r | 0 <= r < |rows|
      ensures TakesUp(rows, LensOf(seqs), r) && RowFits(StreamsOf(seqs), rows[r], positions)
    {
      E.RowsAreInOrder(lim, states, takes, |states|, r);
      E.RowsAre(lim, states, takes, |states|, r);
      var i := rows[r].slot;
      assert E.TakenUp(states, rows, r) && SameSeq(states[i], seqs[i]) && E.TakeGranted(lim, states[i], takes[i]);
      assert E.RowOf(states, takes, rows[r], |states|);
    }
    forall i | 0 <= i < |seqs|
      ensures After(seqs, rows, |rows|)[i].len == states[i].len + takes[i]
    {
      E.RowsOfSlotCounted(lim, states, takes, |states|, i);
      assert SameSeq(states[i], seqs[i]);
    }
  }

  /** First half of a layer: every row stores its key/value through its block table. */
  method StorePagedRows(m: Model, l: nat, perPage: nat, mem: Memory, tables: seq<seq<Page>>, hiddens: seq<Hidden>,
                   rows: seq<Row>, positions: nat, ghost c: Setting, ghost g: Pages, ghost seqs: seq<Seq>)
    returns (next: Memory)
    requires c.m == m && c.l == l && c.perPage == perPage && g.tables == tables
    requires ContentOk(c, World(g, mem, seqs)) && RowsOk(seqs, rows, positions)
    requires forall s :: 0 <= s < |tables| ==> positions <= |tables[s]| * perPage
    requires HiddensAre(m, l, hiddens, rows, StreamsOf(seqs), positions)
    ensures |next| == |mem| && ContentOk(c, LayerWorld(g, next, seqs, rows, |rows|))
  {
    hide ContentOk, InOrder, HiddenAt;
    AfterNone(seqs, rows);
    next := mem;
    for r := 0 to |rows|
      invariant |next| == |mem| && ContentOk(c, LayerWorld(g, next, seqs, rows, r))
    {
      var row := rows[r];
      ghost var w := LayerWorld(g, next, seqs, rows, r);
      assert HiddenIs(m, l, hiddens[r], row, StreamsOf(seqs), positions);
      RowCanBeStored(c, w, seqs, rows, r, positions);
      PositionIsMapped(c, w, row.slot, row.pos);
      StoreKeepsContent(c, w, row.slot, row.pos);
      StoredIsNext(c, w, seqs, rows, r);
      var page, offset := tables[row.slot][row.pos / perPage], row.pos % perPage;
      next := next[page := next[page][offset := m.keyValue(l, row.pos, hiddens[r])]];
      assert Stored(c, w, row.slot, row.pos) == LayerWorld(g, next, seqs, rows, r + 1);
    }
  }

  lemma {:induction false} CountGrows(rows: seq<Row>, i: nat, j: nat, slot: nat)
    requires i <= j <= |rows|
    ensures CountIn(rows, i, slot) <= CountIn(rows, j, slot)
  {
    if i < j {
      CountGrows(rows, i, j - 1, slot);
    }
  }

  /** The whole context of a row is stored. */
  lemma ContextIsStored(seqs: seq<Seq>, rows: seq<Row>, r: nat, positions: nat)
    requires r < |rows| && RowsOk(seqs, rows, positions)
    ensures rows[r].slot < |seqs| && rows[r].pos + 1 <= After(seqs, rows, |rows|)[rows[r].slot].len
  {
    assert TakesUp(rows, LensOf(seqs), r);
    CountGrows(rows, r + 1, |rows|, rows[r].slot);
  }

  /** Second half of a layer: every row attends over the positions up to its own, read through its block table. */
  method AttendPagedRows(m: Model, l: nat, perPage: nat, mem: Memory, tables: seq<seq<Page>>, hiddens: seq<Hidden>,
                    rows: seq<Row>, positions: nat, ghost c: Setting, ghost g: Pages, ghost seqs: seq<Seq>)
    returns (next: seq<Hidden>)
    requires c.m == m && c.l == l && c.perPage == perPage && g.tables == tables && !m.recurrent(l)
    requires RowsOk(seqs, rows, positions) && ContentOk(c, LayerWorld(g, mem, seqs, rows, |rows|))
    requires HiddensAre(m, l, hiddens, rows, StreamsOf(seqs), positions)
    ensures HiddensAre(m, l + 1, next, rows, StreamsOf(seqs), positions)
  {
    ghost var w := LayerWorld(g, mem, seqs, rows, |rows|);
    SameTables(c, w);
    hide ContentOk, InOrder;
    next := [];
    for r := 0 to |rows|
      invariant |next| == r
      invariant forall k :: 0 <= k < r ==> HiddenIs(m, l + 1, next[k], rows[k], StreamsOf(seqs), positions)
    {
      var row := rows[r];
      assert HiddenIs(m, l, hiddens[r], row, StreamsOf(seqs), positions);
      ContextIsStored(seqs, rows, r, positions);
      ContextIsOwnStream(c, w, row.slot, row.pos + 1);
      var context := ReadContext(perPage, mem, tables[row.slot], row.pos + 1, c);
      next := next + [m.attend(l, hiddens[r], context)];
    }
  }

  /** Reads the first `n` positions through a block table. */
  method ReadContext(perPage: nat, mem: Memory, table: seq<Page>, n: nat, ghost c: Setting) returns (context: seq<Kv>)
    requires c.perPage == perPage > 0 && forall pos: nat :: pos < n ==> Mapped(c, mem, table, pos)
    ensures context == Context(c, mem, table, n)
  {
    context := [];
    for pos := 0 to n
      invariant |context| == pos && forall k :: 0 <= k < pos ==> context[k] == Context(c, mem, table, n)[k]
    {
      assert Mapped(c, mem, table, pos);
      context := context + [mem[table[pos / perPage]][pos % perPage]];
    }
  }

  lemma FullPagesHaveEntries(pages: PagedEngineState)
    requires pages.Valid()
    ensures |pages.entries| == |pages.tables|
    ensures forall s :: 0 <= s < |pages.tables| ==> pages.entries[s].full <= |pages.tables[s]|
  {
  }

  /** All pages in use are pages of the pool. */
  lemma PoolPages(pages: PagedEngineState)
    requires pages.Valid()
    ensures forall p :: p in pages.owned ==> p < pages.numPages
  {
  }

  /** What is known of the pages of one layer. */
  ghost predicate LayerHolds(c: Setting, g: Pages, mem: Memory, numPages: nat, seqs: seq<Seq>) {
    !c.m.recurrent(c.l) && |mem| == numPages && ContentOk(c, World(g, mem, seqs))
  }

  lemma RowsFit(seqs: seq<Seq>, rows: seq<Row>, positions: nat)
    requires RowsOk(seqs, rows, positions)
    ensures forall r :: 0 <= r < |rows| ==> RowFits(StreamsOf(seqs), rows[r], positions)
  {
  }

  // ----- the object

  class PagedBatchedModel {
    const m: Model
    const pages: PagedEngineState
    /** The token prefix that a content hash stands for. */
    ghost const means: Hash -> seq<Token>
    /** The pages of every layer. */
    var mem: seq<Memory>
    ghost var seqs: seq<Seq>

    ghost function SettingOf(l: nat): Setting {
      Setting(m, l, pages.tokensPerPage, means)
    }

    function Positions(): nat {
      pages.maxPages * pages.tokensPerPage
    }

    ghost predicate Valid()
      reads this, pages
    {
      && pages.Valid() && |mem| == m.layers && |seqs| == |pages.tables|
      && forall l :: 0 <= l < |mem| ==> LayerHolds(SettingOf(l), pages.G(), mem[l], pages.numPages, seqs)
    }

    /** The page memory starts with arbitrary content. Paged mode has no recurrent layers. */
    constructor (m: Model, capacity: nat, maxSeqLen: nat, tokensPerPage: nat, blank: Kv,
                 ghost means: Hash -> seq<Token>)
      requires tokensPerPage > 0 && forall l :: 0 <= l < m.layers ==> !m.recurrent(l)
      ensures Valid() && seqs == [] && this.m == m && this.means == means && fresh(pages)
      ensures pages.capacity == capacity && pages.tokensPerPage == tokensPerPage
      ensures pages.maxPages == maxSeqLen / tokensPerPage
    {
      this.m, this.means, seqs := m, means, [];
      var p := new PagedEngineState(capacity, maxSeqLen, tokensPerPage);
      pages := p;
      mem := seq(m.layers, _ => seq(p.numPages, _ => seq(tokensPerPage, _ => blank)));
      new;
      assert pages.G().tables == [];
    }

    /** Admission: the tokens that it reports as covered are stored already. */
    method Admit(prompt: seq<Token>, chain: seq<Hash>) returns (reused: nat)
      requires Valid() && |pages.tables| < pages.capacity && 0 < |prompt| <= Positions()
      requires |chain| == DivCeil(|prompt|, pages.tokensPerPage)
      requires ChainOk(SettingOf(0), Entry(chain, |prompt| / pages.tokensPerPage), prompt)
      modifies pages, this`seqs
      ensures Valid() && seqs == old(seqs) + [Seq(prompt, reused)] && reused < |prompt|
    {
      hide ContentOk, ChainOk, AdmittedAs, Owned, AllocOk, LayerHolds;
      ghost var was, e, before := pages.G(), Entry(chain, |prompt| / pages.tokensPerPage), seqs;
      var r := pages.Admit(|prompt|, chain);
      reused := r.reusedTokens;
      seqs := seqs + [Seq(prompt, reused)];
      forall l | 0 <= l < |mem|
        ensures LayerHolds(SettingOf(l), pages.G(), mem[l], pages.numPages, seqs)
      {
        ChainOfAnyLayer(SettingOf(0), SettingOf(l), e, prompt);
        LayerAdmits(SettingOf(l), was, pages, mem[l], before, e, prompt, reused);
      }
    }

    /** All layers in turn, for all rows at once, through the block tables. */
    method RunLayers(rows: seq<Row>) returns (hiddens: seq<Hidden>)
      requires Valid() && RowsOk(seqs, rows, Positions())
      modifies this`mem, this`seqs
      ensures Valid() && seqs == After(old(seqs), rows, |rows|)
      ensures HiddensAre(m, m.layers, hiddens, rows, StreamsOf(old(seqs)), Positions())
    {
      hide ContentOk, RowsOk, HiddensAre, InOrder, After;
      ghost var was, g := seqs, pages.G();
      RowsFit(was, rows, Positions());
      hiddens := EmbedRows(m, rows, StreamsOf(was), Positions());
      for l := 0 to m.layers
        invariant |mem| == m.layers && pages.G() == g
        invariant HiddensAre(m, l, hiddens, rows, StreamsOf(was), Positions())
        invariant forall k :: 0 <= k < l ==>
                    LayerHolds(SettingOf(k), g, mem[k], pages.numPages, After(was, rows, |rows|))
        invariant forall k :: l <= k < m.layers ==> LayerHolds(SettingOf(k), g, mem[k], pages.numPages, was)
      {
        assert LayerHolds(SettingOf(l), g, mem[l], pages.numPages, was);
        ghost var c := SettingOf(l);
        var layer :=
          StorePagedRows(m, l, pages.tokensPerPage, mem[l], pages.tables, hiddens, rows, Positions(), c, g, was);
        hiddens :=
          AttendPagedRows(m, l, pages.tokensPerPage, layer, pages.tables, hiddens, rows, Positions(), c, g, was);
        mem := mem[l := layer];
      }
      seqs := After(was, rows, |rows|);
    }

    /** One batched step: every row is sampled exactly as its own sequence alone would be. */
    method DecodeStep(rows: seq<Row>, counts: seq<map<Token, nat>>, params: seq<Params>)
      returns (tokens: seq<Token>)
      requires Valid() && RowsOk(seqs, rows, Positions()) && |counts| == |rows| == |params|
      modifies this`mem, this`seqs
      ensures Valid() && seqs == After(old(seqs), rows, |rows|) && |tokens| == |rows|
      ensures forall r :: 0 <= r < |rows| ==>
                SampledAlone(m, rows[r], StreamsOf(old(seqs)), Positions(), counts[r], params[r], tokens[r])
    {
      ghost var streams := StreamsOf(seqs);
      var hiddens := RunLayers(rows);
      tokens := [];
      for r := 0 to |rows|
        invariant |tokens| == r
        invariant forall k :: 0 <= k < r ==>
                    SampledAlone(m, rows[k], streams, Positions(), counts[k], params[k], tokens[k])
      {
        assert HiddenIs(m, m.layers, hiddens[r], rows[r], streams, Positions());
        tokens := tokens + [m.sample(hiddens[r], counts[r], params[r])];
      }
    }

    /** The sequence of slot `s` takes a sampled token. */
    ghost method Push(s: nat, token: Token)
      requires Valid() && s < |seqs|
      modifies this`seqs
      ensures Valid() && seqs == old(seqs)[s := old(seqs)[s].(stream := old(seqs)[s].stream + [token])]
    {
      hide ContentOk;
      var before := seqs;
      seqs := seqs[s := seqs[s].(stream := seqs[s].stream + [token])];
      forall l | 0 <= l < |mem|
        ensures LayerHolds(SettingOf(l), pages.G(), mem[l], pages.numPages, seqs)
      {
        var w := World(pages.G(), mem[l], before);
        assert LayerHolds(SettingOf(l), pages.G(), mem[l], pages.numPages, before);
        PushKeepsContent(SettingOf(l), w, s, token);
      }
    }

    /** The prompt is stored: its full pages are registered for others. */
    method Materialize(s: nat)
      requires Valid() && s < |seqs| && pages.entries[s].full * pages.tokensPerPage <= seqs[s].len
      modifies pages
      ensures Valid()
      ensures forall i: nat :: i < pages.entries[s].full ==> pages.entries[s].chain[i] in pages.cache
    {
      hide ContentOk, Owned, AllocOk, LayerHolds;
      ghost var was := pages.G();
      FullPagesHaveEntries(pages);
      pages.Materialize(s);
      forall l | 0 <= l < |mem|
        ensures LayerHolds(SettingOf(l), pages.G(), mem[l], pages.numPages, seqs)
      {
        LayerMaterializes(SettingOf(l), was, pages, mem[l], seqs, s);
      }
    }

    /** A sequence is finished; what it registered stays for reuse. */
    method Finish(s: nat)
      requires Valid() && s < |seqs|
      modifies pages, this`seqs
      ensures Valid() && seqs == Without(old(seqs), s)
      ensures |Finished(old(pages.G()), s).retired| <= 4 * pages.capacity ==> pages.G() == Finished(old(pages.G()), s)
    {
      hide ContentOk, Owned, AllocOk, LayerHolds, Evicts;
      ghost var was, before := pages.G(), seqs;
      FullPagesHaveEntries(pages);
      pages.Finish(s);
      ghost var freed: nat :| Evicts(Finished(was, s), pages.G(), freed);
      seqs := Without(seqs, s);
      forall l | 0 <= l < |mem|
        ensures LayerHolds(SettingOf(l), pages.G(), mem[l], pages.numPages, seqs)
      {
        LayerRetires(SettingOf(l), was, pages, mem[l], before, s, freed);
      }
      TablesRetire(was, pages.G(), s, freed);
    }
  }

  lemma ChainOfAnyLayer(c: Setting, d: Setting, e: Entry, prompt: seq<Token>)
    requires ChainOk(c, e, prompt) && c.perPage == d.perPage && c.means == d.means
    ensures ChainOk(d, e, prompt)
  {
    forall i: nat | i < e.full
      ensures NamesPrefix(d, e, prompt, i)
    {
      assert NamesPrefix(c, e, prompt, i);
    }
  }

  lemma LayerAdmits(c: Setting, was: Pages, pages: PagedEngineState, mem: Memory, seqs: seq<Seq>, e: Entry,
                    prompt: seq<Token>, reused: nat)
    requires LayerHolds(c, was, mem, pages.numPages, seqs) && pages.Valid() && prompt != []
    requires e.full == |prompt| / c.perPage && ChainOk(c, e, prompt)
    requires AdmittedAs(was, pages.G(), e, |prompt|, c.perPage, pages.maxPages, pages.numPages, reused)
    ensures LayerHolds(c, pages.G(), mem, pages.numPages, seqs + [Seq(prompt, reused)])
  {
    hide AdmittedAs, Owned;
    PoolPages(pages);
    AdmissionKeepsContent(c, World(was, mem, seqs), pages.G(), e, prompt, pages.maxPages, pages.numPages, reused);
  }

  lemma LayerMaterializes(c: Setting, was: Pages, pages: PagedEngineState, mem: Memory, seqs: seq<Seq>, s: nat)
    requires LayerHolds(c, was, mem, pages.numPages, seqs) && pages.Valid() && s < |seqs|
    requires pages.G() == was.(cache := pages.cache)
    requires was.entries[s].full <= |was.tables[s]| && was.entries[s].full * c.perPage <= seqs[s].len
    requires forall h :: h in was.cache ==> h in pages.cache && pages.cache[h] == was.cache[h]
    requires forall h :: h in pages.cache && h !in was.cache ==>
               exists i: nat :: && i < was.entries[s].full && was.entries[s].chain[i] == h
                                && pages.cache[h] == was.tables[s][i]
    ensures LayerHolds(c, pages.G(), mem, pages.numPages, seqs)
  {
    hide Owned, AllocOk, SeqOk, ChainOk, RegisteredOk;
    MaterializeKeepsContent(c, World(was, mem, seqs), pages.G(), s);
  }

  lemma LayerRetires(c: Setting, was: Pages, pages: PagedEngineState, mem: Memory, seqs: seq<Seq>, s: nat, freed: nat)
    requires LayerHolds(c, was, mem, pages.numPages, seqs) && pages.Valid() && s < |seqs|
    requires Evicts(Finished(was, s), pages.G(), freed)
    ensures LayerHolds(c, pages.G(), mem, pages.numPages, Without(seqs, s))
  {
    hide Owned, AllocOk, SeqOk, ChainOk, RegisteredOk, Evicts;
    RetirementKeepsContent(c, World(was, mem, seqs), s, pages.G(), freed);
  }

  lemma TablesRetire(was: Pages, now: Pages, s: nat, freed: nat)
    requires s < |was.tables| == |was.entries| && Evicts(Finished(was, s), now, freed)
    ensures |now.tables| == |was.tables| - 1
  {
  }
}
