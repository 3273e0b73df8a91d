/**
 What the pages of the paged key/value mode hold (continuous.rs, paged_kv.rs, prefix_cache.rs): isolation through block
 tables. Pages are shared and even written while they are shared, and still every sequence reads exactly the
 key/value stream of its own tokens.

 A chained content hash names the tokens up to the end of its page; that two prefixes with the same hash are equal is
 an assumption here, stated by `means`.
 */
module PagedContents {
  import opened Arithmetic
  import opened Collections
  import opened Tokens
  import opened Batched
  import opened PagedOwnership
  import opened PagedKv

  /** The pages of one attention layer, `mem[page][offset]`. */
  type Memory = seq<seq<Kv>>

  /** A live sequence: its tokens so far, and how many of them have been stored. */
  datatype Seq = Seq(stream: seq<Token>, len: nat)

  /** The layer, the page size, and the token prefix that a hash stands for. */
  datatype Setting = Setting(m: Model, l: nat, perPage: nat, means: Hash -> seq<Token>)

  datatype World = World(g: Pages, mem: Memory, seqs: seq<Seq>)

  function PageOf(c: Setting, pos: nat): nat
    requires c.perPage > 0
  {
    pos / c.perPage
  }

  function OffsetOf(c: Setting, pos: nat): (r: nat)
    requires c.perPage > 0
    ensures r < c.perPage
  {
    pos % c.perPage
  }

  lemma Split(c: Setting, pos: nat)
    requires c.perPage > 0
    ensures pos == PageOf(c, pos) * c.perPage + OffsetOf(c, pos)
  {
  }

  predicate MemoryOk(c: Setting, mem: Memory) {
    forall p :: 0 <= p < |mem| ==> |mem[p]| == c.perPage
  }

  /** The table has a page of the pool for the position. */
  predicate Mapped(c: Setting, mem: Memory, table: seq<Page>, pos: nat)
    requires c.perPage > 0
  {
    PageOf(c, pos) < |table| && table[PageOf(c, pos)] < |mem| && |mem[table[PageOf(c, pos)]]| == c.perPage
  }

  /** The stored value at a position of a table. */
  predicate HoldsAt(c: Setting, mem: Memory, table: seq<Page>, stream: seq<Token>, pos: nat)
    requires c.perPage > 0
  {
    && Mapped(c, mem, table, pos)
    && pos < |stream| && mem[table[PageOf(c, pos)]][OffsetOf(c, pos)] == KvAt(c.m, c.l, stream[..pos + 1])
  }

  /** Every stored position of the sequence can be read through its table. */
  ghost predicate SeqOk(c: Setting, mem: Memory, table: seq<Page>, s: Seq)
    requires c.perPage > 0
  {
    s.len <= |s.stream| && forall pos: nat :: pos < s.len ==> HoldsAt(c, mem, table, s.stream, pos)
  }

  /** The full-page hashes of the entry stand for the prefixes of the sequence. */
  ghost predicate ChainOk(c: Setting, e: Entry, stream: seq<Token>) {
    e.full <= |e.chain| && forall i: nat :: i < e.full ==> NamesPrefix(c, e, stream, i)
  }

  predicate NamesPrefix(c: Setting, e: Entry, stream: seq<Token>, i: nat) {
    i < |e.chain| && (i + 1) * c.perPage <= |stream| && c.means(e.chain[i]) == stream[..(i + 1) * c.perPage]
  }

  /** A registered page holds the key/values of the last page of the prefix that its hash stands for. */
  ghost predicate RegisteredOk(c: Setting, g: Pages, mem: Memory, h: Hash) {
    h in g.cache ==>
      && g.cache[h] < |mem| && |mem[g.cache[h]]| == c.perPage <= |c.means(h)|
      && forall k: nat :: k < c.perPage ==> RegisteredAt(c, mem[g.cache[h]], h, k)
  }

  predicate RegisteredAt(c: Setting, page: seq<Kv>, h: Hash, k: nat) {
    && k < |page| && c.perPage <= |c.means(h)| && k < c.perPage
    && page[k] == KvAt(c.m, c.l, c.means(h)[..|c.means(h)| - c.perPage + k + 1])
  }

  /** Every page in use is a page of the pool. */
  predicate InPool(g: Pages, mem: Memory) {
    forall p :: p in g.owned ==> p < |mem|
  }

  ghost predicate ContentOk(c: Setting, w: World) {
    && c.perPage > 0 && Owned(w.g) && InPool(w.g, w.mem) && MemoryOk(c, w.mem)
    && |w.seqs| == |w.g.tables| == |w.g.entries|
    && (forall s :: 0 <= s < |w.seqs| ==> ChainOk(c, w.g.entries[s], w.seqs[s].stream))
    && (forall s :: 0 <= s < |w.seqs| ==> SeqOk(c, w.mem, w.g.tables[s], w.seqs[s]))
    && (forall h: Hash :: RegisteredOk(c, w.g, w.mem, h))
  }

  /** A table maps every position that its length covers. */
  lemma PositionIsMapped(c: Setting, w: World, s: nat, pos: nat)
    requires ContentOk(c, w) && s < |w.seqs| && pos < |w.g.tables[s]| * c.perPage
    ensures Mapped(c, w.mem, w.g.tables[s], pos)
  {
    hide SeqOk, ChainOk, RegisteredOk;
    Split(c, pos);
    LessFromMul(PageOf(c, pos), |w.g.tables[s]|, c.perPage);
    assert EntryOk(w.g, s, PageOf(c, pos));
  }

  // ----- reading

  /** The context that a row reads through the block table. */
  function Context(c: Setting, mem: Memory, table: seq<Page>, n: nat): seq<Kv>
    requires c.perPage > 0
    requires forall pos: nat :: pos < n ==> Mapped(c, mem, table, pos)
  {
    seq(n, pos requires 0 <= pos < n && Mapped(c, mem, table, pos) => mem[table[PageOf(c, pos)]][OffsetOf(c, pos)])
  }

  /** It is the key/value stream of the row's own sequence, whatever else is in the pool. */
  lemma ContextIsOwnStream(c: Setting, w: World, s: nat, n: nat)
    requires ContentOk(c, w) && s < |w.seqs| && n <= w.seqs[s].len
    ensures forall pos: nat :: pos < n ==> Mapped(c, w.mem, w.g.tables[s], pos)
    ensures Context(c, w.mem, w.g.tables[s], n) == KvStream(c.m, c.l, w.seqs[s].stream[..n])
  {
    var table, stream := w.g.tables[s], w.seqs[s].stream;
    assert SeqOk(c, w.mem, table, w.seqs[s]);
    forall pos: nat | pos < n
      ensures Mapped(c, w.mem, table, pos)
    {
      assert HoldsAt(c, w.mem, table, stream, pos);
    }
    forall pos | 0 <= pos < n
      ensures Context(c, w.mem, table, n)[pos] == KvStream(c.m, c.l, stream[..n])[pos]
    {
      assert HoldsAt(c, w.mem, table, stream, pos);
      assert stream[..n][..pos + 1] == stream[..pos + 1];
    }
  }

  // ----- storing a row

  /** The sequence has a token for the position, everything before it is stored, and its table covers it. */
  predicate CanStore(c: Setting, w: World, s: nat, pos: nat) {
    && s < |w.seqs| && s < |w.g.tables| && pos <= w.seqs[s].len && pos < |w.seqs[s].stream|
    && pos < |w.g.tables[s]| * c.perPage
  }

  /** The row of sequence `s` at position `pos` has been stored. */
  function Stored(c: Setting, w: World, s: nat, pos: nat): World
    requires ContentOk(c, w) && CanStore(c, w, s, pos)
  {
    PositionIsMapped(c, w, s, pos);
    var page, k, x := w.g.tables[s][PageOf(c, pos)], OffsetOf(c, pos), w.seqs[s];
    var value := KvAt(c.m, c.l, x.stream[..pos + 1]);
    w.(mem := w.mem[page := w.mem[page][k := value]],
       seqs := w.seqs[s := x.(len := if pos == x.len then pos + 1 else x.len)])
  }

  /** Two positions that lie in the same place of the pool are the same position of the same prefix. */
  lemma SamePlaceSamePrefix(c: Setting, w: World, s: nat, pos: nat, t: nat, q: nat)
    requires ContentOk(c, w) && s < |w.seqs| && t < |w.seqs|
    requires pos < |w.seqs[s].stream| && q < |w.seqs[t].stream|
    requires PageOf(c, pos) < |w.g.tables[s]| && PageOf(c, q) < |w.g.tables[t]|
    requires w.g.tables[s][PageOf(c, pos)] == w.g.tables[t][PageOf(c, q)] && OffsetOf(c, pos) == OffsetOf(c, q)
    ensures s != t || pos != q ==> pos == q && w.seqs[s].stream[..pos + 1] == w.seqs[t].stream[..q + 1]
  {
    var i, j := PageOf(c, pos), PageOf(c, q);
    Split(c, pos);
    Split(c, q);
    if s != t || i != j {
      SharedPagesAgree(w.g, s, i, t, j);
      assert NamesPrefix(c, w.g.entries[s], w.seqs[s].stream, i) && NamesPrefix(c, w.g.entries[t], w.seqs[t].stream, j);
      SamePrefix(c, w.seqs[s].stream, w.seqs[t].stream, i, j, pos);
    }
  }

  lemma SamePrefix(c: Setting, a: seq<Token>, b: seq<Token>, i: nat, j: nat, pos: nat)
    requires c.perPage > 0 && (i + 1) * c.perPage <= |a| && (j + 1) * c.perPage <= |b|
    requires a[..(i + 1) * c.perPage] == b[..(j + 1) * c.perPage] && PageOf(c, pos) == i
    ensures i == j && pos < (i + 1) * c.perPage && a[..pos + 1] == b[..pos + 1]
  {
    Distribute(i, 1, c.perPage);
    Split(c, pos);
    AtMostFromMul(i + 1, j + 1, c.perPage);
    AtMostFromMul(j + 1, i + 1, c.perPage);
    var n := (i + 1) * c.perPage;
    assert a[..pos + 1] == a[..n][..pos + 1] && b[..pos + 1] == b[..n][..pos + 1];
  }

  /** A registered page that a sequence writes is the registered page of the sequence's own prefix. */
  lemma RegisteredIsOwnPrefix(c: Setting, w: World, s: nat, pos: nat, h: Hash)
    requires ContentOk(c, w) && s < |w.seqs| && pos < |w.seqs[s].stream| && PageOf(c, pos) < |w.g.tables[s]|
    requires h in w.g.cache && w.g.cache[h] == w.g.tables[s][PageOf(c, pos)]
    ensures |c.means(h)| - c.perPage + OffsetOf(c, pos) == pos
    ensures pos < |c.means(h)| <= |w.seqs[s].stream| && c.means(h)[..pos + 1] == w.seqs[s].stream[..pos + 1]
  {
    var i, e := PageOf(c, pos), w.g.entries[s];
    assert EntryOk(w.g, s, i) && HashOk(w.g, h) && HashOk(w.g, e.chain[i]);
    assert ChainOk(c, e, w.seqs[s].stream) && NamesPrefix(c, e, w.seqs[s].stream, i);
    Split(c, pos);
    Distribute(i, 1, c.perPage);
  }

  /**
   Storing a row keeps every sequence's content, also where the page is shared: a row that is prefilled again in a
   shared page writes the value that the page already holds for all of its holders.
   */
  lemma StoreKeepsContent(c: Setting, w: World, s: nat, pos: nat)
    requires ContentOk(c, w) && CanStore(c, w, s, pos)
    ensures ContentOk(c, Stored(c, w, s, pos))
  {
    hide KvAt, Owned;
    PositionIsMapped(c, w, s, pos);
    var v := Stored(c, w, s, pos);
    forall t | 0 <= t < |v.seqs|
      ensures SeqOk(c, v.mem, v.g.tables[t], v.seqs[t])
    {
      assert SeqOk(c, w.mem, w.g.tables[t], w.seqs[t]);
      forall q: nat | q < v.seqs[t].len
        ensures HoldsAt(c, v.mem, v.g.tables[t], v.seqs[t].stream, q)
      {
        StoreKeepsPosition(c, w, s, pos, t, q);
      }
    }
    forall h: Hash
      ensures RegisteredOk(c, v.g, v.mem, h)
    {
      StoreKeepsRegistered(c, w, s, pos, h);
    }
    forall t | 0 <= t < |v.seqs|
      ensures ChainOk(c, v.g.entries[t], v.seqs[t].stream)
    {
      assert ChainOk(c, w.g.entries[t], w.seqs[t].stream);
    }
  }

  lemma StoreKeepsPosition(c: Setting, w: World, s: nat, pos: nat, t: nat, q: nat)
    requires ContentOk(c, w) && CanStore(c, w, s, pos)
    requires t < |w.seqs| && q < Stored(c, w, s, pos).seqs[t].len
    ensures HoldsAt(c, Stored(c, w, s, pos).mem, w.g.tables[t], w.seqs[t].stream, q)
  {
    hide KvAt, Owned, ChainOk;
    PositionIsMapped(c, w, s, pos);
    if t != s || q != pos {
      assert SeqOk(c, w.mem, w.g.tables[t], w.seqs[t]);
      assert HoldsAt(c, w.mem, w.g.tables[t], w.seqs[t].stream, q);
      if w.g.tables[s][PageOf(c, pos)] == w.g.tables[t][PageOf(c, q)] && OffsetOf(c, pos) == OffsetOf(c, q) {
        SamePlaceSamePrefix(c, w, s, pos, t, q);
      }
    }
  }

  lemma StoreKeepsRegistered(c: Setting, w: World, s: nat, pos: nat, h: Hash)
    requires ContentOk(c, w) && CanStore(c, w, s, pos)
    ensures RegisteredOk(c, w.g, Stored(c, w, s, pos).mem, h)
  {
    hide KvAt, Owned, ChainOk, SeqOk;
    PositionIsMapped(c, w, s, pos);
    assert RegisteredOk(c, w.g, w.mem, h);
    var v := Stored(c, w, s, pos);
    if h in w.g.cache {
      if w.g.cache[h] == w.g.tables[s][PageOf(c, pos)] {
        RegisteredIsOwnPrefix(c, w, s, pos, h);
      }
      forall k: nat | k < c.perPage
        ensures RegisteredAt(c, v.mem[w.g.cache[h]], h, k)
      {
        assert RegisteredAt(c, w.mem[w.g.cache[h]], h, k);
      }
    }
  }

  // ----- the other steps of the engine

  /** What a sequence holds does not depend on the sequences beside it, nor on tokens that are appended to it. */
  lemma SeqOkOfLonger(c: Setting, mem: Memory, table: seq<Page>, s: Seq, t: Seq)
    requires c.perPage > 0 && SeqOk(c, mem, table, s) && s.stream <= t.stream && t.len == s.len
    ensures SeqOk(c, mem, table, t)
  {
    forall pos: nat | pos < t.len
      ensures HoldsAt(c, mem, table, t.stream, pos)
    {
      assert HoldsAt(c, mem, table, s.stream, pos);
      assert t.stream[..pos + 1] == s.stream[..pos + 1];
    }
  }

  lemma ChainOkOfLonger(c: Setting, e: Entry, stream: seq<Token>, longer: seq<Token>)
    requires ChainOk(c, e, stream) && stream <= longer
    ensures ChainOk(c, e, longer)
  {
    forall i: nat | i < e.full
      ensures NamesPrefix(c, e, longer, i)
    {
      assert NamesPrefix(c, e, stream, i);
      assert longer[..(i + 1) * c.perPage] == stream[..(i + 1) * c.perPage];
    }
  }

  /** A sequence has generated a token. */
  function Pushed(w: World, s: nat, x: Token): World
    requires s < |w.seqs|
  {
    w.(seqs := w.seqs[s := w.seqs[s].(stream := w.seqs[s].stream + [x])])
  }

  lemma PushKeepsContent(c: Setting, w: World, s: nat, x: Token)
    requires ContentOk(c, w) && s < |w.seqs|
    ensures ContentOk(c, Pushed(w, s, x))
  {
    hide SeqOk, ChainOk, Owned;
    var v := Pushed(w, s, x);
    forall t | 0 <= t < |v.seqs|
      ensures SeqOk(c, v.mem, v.g.tables[t], v.seqs[t]) && ChainOk(c, v.g.entries[t], v.seqs[t].stream)
    {
      assert SeqOk(c, w.mem, w.g.tables[t], w.seqs[t]) && ChainOk(c, w.g.entries[t], w.seqs[t].stream);
      SeqOkOfLonger(c, w.mem, w.g.tables[t], w.seqs[t], v.seqs[t]);
      ChainOkOfLonger(c, w.g.entries[t], w.seqs[t].stream, v.seqs[t].stream);
    }
    assert forall h: Hash :: RegisteredOk(c, w.g, w.mem, h) ==> RegisteredOk(c, v.g, v.mem, h);
  }

  /** A request has been admitted with the leading `reused` pages of its table aliased. */
  function AdmittedWorld(w: World, e: Entry, table: seq<Page>, reused: nat, x: Seq): World
    requires reused <= |table|
  {
    World(Installed(w.g, e, table, reused), w.mem, w.seqs + [x])
  }

  /** The aliased pages already hold what prefilling the covered tokens would have stored. */
  lemma AliasedPagesHold(c: Setting, w: World, e: Entry, table: seq<Page>, reused: nat, x: Seq, pos: nat)
    requires ContentOk(c, w) && PlanOk(w.g, e, table, reused) && ChainOk(c, e, x.stream)
    requires pos < x.len <= reused * c.perPage && x.len <= |x.stream|
    ensures HoldsAt(c, w.mem, table, x.stream, pos)
  {
    hide KvAt, Owned, SeqOk;
    var i, k := PageOf(c, pos), OffsetOf(c, pos);
    Split(c, pos);
    LessFromMul(i, reused, c.perPage);
    Distribute(i, 1, c.perPage);
    assert Resolves(w.g.cache, table, e, i) && NamesPrefix(c, e, x.stream, i);
    assert RegisteredOk(c, w.g, w.mem, e.chain[i]) && RegisteredAt(c, w.mem[table[i]], e.chain[i], k);
    assert x.stream[..(i + 1) * c.perPage][..pos + 1] == x.stream[..pos + 1];
  }

  lemma AdmitKeepsContent(c: Setting, w: World, e: Entry, table: seq<Page>, reused: nat, x: Seq)
    requires ContentOk(c, w) && PlanOk(w.g, e, table, reused) && ChainOk(c, e, x.stream)
    requires x.len <= reused * c.perPage && x.len <= |x.stream| && InPool(Installed(w.g, e, table, reused), w.mem)
    ensures ContentOk(c, AdmittedWorld(w, e, table, reused, x))
  {
    hide ChainOk, Owned, HoldsAt;
    var v := AdmittedWorld(w, e, table, reused, x);
    InstallKeepsOwned(w.g, e, table, reused);
    forall t | 0 <= t < |v.seqs|
      ensures SeqOk(c, v.mem, v.g.tables[t], v.seqs[t]) && ChainOk(c, v.g.entries[t], v.seqs[t].stream)
    {
      if t < |w.seqs| {
        assert SeqOk(c, w.mem, w.g.tables[t], w.seqs[t]) && ChainOk(c, w.g.entries[t], w.seqs[t].stream);
      } else {
        forall pos: nat | pos < x.len
          ensures HoldsAt(c, v.mem, table, x.stream, pos)
        {
          AliasedPagesHold(c, w, e, table, reused, x, pos);
        }
      }
    }
    assert forall h: Hash :: RegisteredOk(c, w.g, w.mem, h) ==> RegisteredOk(c, v.g, v.mem, h);
  }

  /** A full page that has been stored is registered. */
  lemma RegisterKeepsContent(c: Setting, w: World, s: nat, i: nat)
    requires ContentOk(c, w) && s < |w.seqs| && i < |w.g.tables[s]| && i < w.g.entries[s].full
    requires (i + 1) * c.perPage <= w.seqs[s].len
    ensures ContentOk(c, w.(g := RegisterOne(w.g, s, i)))
  {
    hide Owned, KvAt;
    var v := w.(g := RegisterOne(w.g, s, i));
    RegisterKeepsOwned(w.g, s, i);
    assert ChainOk(c, w.g.entries[s], w.seqs[s].stream);
    forall h: Hash
      ensures RegisteredOk(c, v.g, v.mem, h)
    {
      assert RegisteredOk(c, w.g, w.mem, h);
      if h in v.g.cache && h !in w.g.cache {
        StoredPageIsRegistered(c, w, s, i);
      }
    }
    assert forall t :: 0 <= t < |w.seqs| ==> ChainOk(c, w.g.entries[t], w.seqs[t].stream);
    assert forall t :: 0 <= t < |w.seqs| ==> SeqOk(c, w.mem, w.g.tables[t], w.seqs[t]);
  }

  lemma StoredPageIsRegistered(c: Setting, w: World, s: nat, i: nat)
    requires ContentOk(c, w) && s < |w.seqs| && i < |w.g.tables[s]| && i < w.g.entries[s].full
    requires (i + 1) * c.perPage <= w.seqs[s].len
    ensures var h, p := w.g.entries[s].chain[i], w.g.tables[s][i];
            && p < |w.mem| && |w.mem[p]| == c.perPage <= |c.means(h)|
            && forall k: nat :: k < c.perPage ==> RegisteredAt(c, w.mem[p], h, k)
  {
    hide Owned, KvAt;
    var e, x, table := w.g.entries[s], w.seqs[s], w.g.tables[s];
    assert ChainOk(c, e, x.stream) && NamesPrefix(c, e, x.stream, i) && SeqOk(c, w.mem, table, x);
    Distribute(i, 1, c.perPage);
    FieldsUnique(c.perPage, i * c.perPage, i, 0);
    assert HoldsAt(c, w.mem, table, x.stream, i * c.perPage);
    forall k: nat | k < c.perPage
      ensures RegisteredAt(c, w.mem[table[i]], e.chain[i], k)
    {
      var pos := i * c.perPage + k;
      FieldsUnique(c.perPage, pos, i, k);
      assert HoldsAt(c, w.mem, table, x.stream, pos);
      assert x.stream[..(i + 1) * c.perPage][..pos + 1] == x.stream[..pos + 1];
    }
  }

  /** Retiring a sequence takes nothing from the others. */
  function FinishedWorld(w: World, s: nat): World
    requires s < |w.seqs| == |w.g.tables| == |w.g.entries|
  {
    World(Finished(w.g, s), w.mem, Without(w.seqs, s))
  }

  lemma FinishKeepsContent(c: Setting, w: World, s: nat)
    requires ContentOk(c, w) && s < |w.seqs|
    ensures ContentOk(c, FinishedWorld(w, s))
  {
    hide Owned, SeqOk, ChainOk;
    var v := FinishedWorld(w, s);
    FinishKeepsOwned(w.g, s);
    forall t: nat | t < |v.seqs|
      ensures SeqOk(c, v.mem, v.g.tables[t], v.seqs[t]) && ChainOk(c, v.g.entries[t], v.seqs[t].stream)
    {
      var from := if t < s then t else t + 1;
      assert SeqOk(c, w.mem, w.g.tables[from], w.seqs[from]) && ChainOk(c, w.g.entries[from], w.seqs[from].stream);
    }
    assert forall h: Hash :: RegisteredOk(c, w.g, w.mem, h) ==> RegisteredOk(c, v.g, v.mem, h);
  }

  /** Evictions only unregister pages. */
  lemma EvictKeepsContent(c: Setting, w: World, after: Pages, freed: nat)
    requires ContentOk(c, w) && Evicts(w.g, after, freed) && Owned(after)
    ensures ContentOk(c, w.(g := after))
  {
    hide Owned, SeqOk, ChainOk;
    forall h: Hash
      ensures RegisteredOk(c, after, w.mem, h)
    {
      assert RegisteredOk(c, w.g, w.mem, h);
    }
    assert forall t :: 0 <= t < |w.seqs| ==> ChainOk(c, w.g.entries[t], w.seqs[t].stream);
    assert forall t :: 0 <= t < |w.seqs| ==> SeqOk(c, w.mem, w.g.tables[t], w.seqs[t]);
  }

  // ----- what the bookkeeping object does, in these terms

  /** Admission hands out only tokens whose key/values the aliased pages hold. */
  lemma AdmissionKeepsContent(c: Setting, w: World, now: Pages, e: Entry, prompt: seq<Token>, maxPages: nat,
                              numPages: nat, reusedTokens: nat)
    requires ContentOk(c, w) && prompt != [] && e.full == |prompt| / c.perPage && ChainOk(c, e, prompt)
    requires AdmittedAs(w.g, now, e, |prompt|, c.perPage, maxPages, numPages, reusedTokens) && InPool(now, w.mem)
    ensures ContentOk(c, World(now, w.mem, w.seqs + [Seq(prompt, reusedTokens)]))
  {
    hide Evicts, Owned, ChainOk, SeqOk, RegisteredOk, EvictsForRoom;
    var before: Pages, freed: nat, table: seq<Page>, reused: nat :|
      && Evicts(w.g, before, freed) && Owned(before) && PlanOk(before, e, table, reused)
      && now == Installed(before, e, table, reused)
      && reusedTokens == CoveredTokens(reused, |prompt|, c.perPage);
    EvictKeepsContent(c, w, before, freed);
    CoveredIsWithin(c, before, e, table, reused, |prompt|);
    AdmitKeepsContent(c, w.(g := before), e, table, reused, Seq(prompt, reusedTokens));
  }

  lemma CoveredIsWithin(c: Setting, g: Pages, e: Entry, table: seq<Page>, reused: nat, n: nat)
    requires c.perPage > 0 && n > 0 && e.full == n / c.perPage && PlanOk(g, e, table, reused)
    ensures CoveredTokens(reused, n, c.perPage) <= reused * c.perPage && CoveredTokens(reused, n, c.perPage) <= n
  {
    MulMono(reused, n / c.perPage, c.perPage);
    Split(c, n);
  }

  /** Registering the full pages of a prompt, once it is stored. */
  lemma MaterializeKeepsContent(c: Setting, w: World, after: Pages, s: nat)
    requires ContentOk(c, w) && s < |w.seqs| && after == w.g.(cache := after.cache) && Owned(after)
    requires w.g.entries[s].full <= |w.g.tables[s]| && w.g.entries[s].full * c.perPage <= w.seqs[s].len
    requires forall h :: h in w.g.cache ==> h in after.cache && after.cache[h] == w.g.cache[h]
    requires forall h :: h in after.cache && h !in w.g.cache ==>
               exists i: nat :: && i < w.g.entries[s].full && w.g.entries[s].chain[i] == h
                                && after.cache[h] == w.g.tables[s][i]
    ensures ContentOk(c, w.(g := after))
  {
    hide Owned, KvAt;
    forall h: Hash
      ensures RegisteredOk(c, after, w.mem, h)
    {
      assert RegisteredOk(c, w.g, w.mem, h);
      if h in after.cache && h !in w.g.cache {
        var i: nat :| i < w.g.entries[s].full && w.g.entries[s].chain[i] == h && after.cache[h] == w.g.tables[s][i];
        MulMono(i + 1, w.g.entries[s].full, c.perPage);
        StoredPageIsRegistered(c, w, s, i);
      }
    }
    assert forall t :: 0 <= t < |w.seqs| ==> ChainOk(c, w.g.entries[t], w.seqs[t].stream);
    assert forall t :: 0 <= t < |w.seqs| ==> SeqOk(c, w.mem, w.g.tables[t], w.seqs[t]);
  }

  /** Retirement and the evictions after it. */
  lemma RetirementKeepsContent(c: Setting, w: World, s: nat, after: Pages, freed: nat)
    requires ContentOk(c, w) && s < |w.seqs| && Owned(after)
    requires Evicts(Finished(w.g, s), after, freed)
    ensures ContentOk(c, World(after, w.mem, Without(w.seqs, s)))
  {
    hide Owned, Evicts, ChainOk, SeqOk, RegisteredOk;
    FinishKeepsContent(c, w, s);
    EvictKeepsContent(c, FinishedWorld(w, s), after, freed);
  }

  // ----- whole runs

  datatype Event =
    | Admit(e: Entry, table: seq<Page>, reused: nat, x: Seq)
    | Store(s: nat, pos: nat)
    | Push(s: nat, token: Token)
    | Register(s: nat, i: nat)
    | Finish(s: nat)
    | Evict(after: Pages, freed: nat)

  /** What holds when the engine takes the step; that its object guarantees it is proved of `PagedModel`. */
  ghost predicate Enabled(c: Setting, w: World, event: Event)
    requires ContentOk(c, w)
  {
    match event
    case Admit(e, table, reused, x) =>
      && PlanOk(w.g, e, table, reused) && ChainOk(c, e, x.stream)
      && x.len <= reused * c.perPage && x.len <= |x.stream| && InPool(Installed(w.g, e, table, reused), w.mem)
    case Store(s, pos) => CanStore(c, w, s, pos)
    case Push(s, token) => s < |w.seqs|
    case Register(s, i) =>
      && s < |w.seqs| && i < |w.g.tables[s]| && i < w.g.entries[s].full && (i + 1) * c.perPage <= w.seqs[s].len
    case Finish(s) => s < |w.seqs|
    case Evict(after, freed) => Evicts(w.g, after, freed) && Owned(after)
  }

  ghost function Apply(c: Setting, w: World, event: Event): (v: World)
    requires ContentOk(c, w) && Enabled(c, w, event)
    ensures ContentOk(c, v)
  {
    match event
    case Admit(e, table, reused, x) =>
      AdmitKeepsContent(c, w, e, table, reused, x);
      AdmittedWorld(w, e, table, reused, x)
    case Store(s, pos) =>
      StoreKeepsContent(c, w, s, pos);
      Stored(c, w, s, pos)
    case Push(s, token) =>
      PushKeepsContent(c, w, s, token);
      Pushed(w, s, token)
    case Register(s, i) =>
      RegisterKeepsContent(c, w, s, i);
      w.(g := RegisterOne(w.g, s, i))
    case Finish(s) =>
      FinishKeepsContent(c, w, s);
      FinishedWorld(w, s)
    case Evict(after, freed) =>
      EvictKeepsContent(c, w, after, freed);
      w.(g := after)
  }

  /** `worlds` is a run of enabled events. */
  ghost predicate IsRun(c: Setting, worlds: seq<World>, events: seq<Event>) {
    && |worlds| == |events| + 1
    && forall k :: 0 <= k < |events| ==> IsStep(c, worlds[k], events[k], worlds[k + 1])
  }

  ghost predicate IsStep(c: Setting, w: World, event: Event, v: World) {
    ContentOk(c, w) ==> Enabled(c, w, event) && v == Apply(c, w, event)
  }

  function EmptyWorld(mem: Memory): World {
    World(Pages({}, map[], [], [], []), mem, [])
  }

  /**
   Isolation through block tables, over every run from an empty pool: whatever was admitted, shared, prefilled again,
   retired and evicted, every sequence reads through its table exactly the key/value stream of its own tokens.
   */
  lemma {:induction false} RunIsIsolated(c: Setting, worlds: seq<World>, events: seq<Event>, n: nat, s: nat)
    requires c.perPage > 0 && IsRun(c, worlds, events) && n < |worlds|
    requires MemoryOk(c, worlds[0].mem) && worlds[0] == EmptyWorld(worlds[0].mem)
    ensures ContentOk(c, worlds[n])
    ensures s < |worlds[n].seqs| ==>
              var w, len := worlds[n], worlds[n].seqs[s].len;
              && len <= |w.seqs[s].stream|
              && (forall pos: nat :: pos < len ==> Mapped(c, w.mem, w.g.tables[s], pos))
              && Context(c, w.mem, w.g.tables[s], len) == KvStream(c.m, c.l, w.seqs[s].stream[..len])
  {
    if n == 0 {
      EmptyIsOk(c, worlds[0].mem);
    } else {
      RunIsIsolated(c, worlds, events, n - 1, 0);
      assert IsStep(c, worlds[n - 1], events[n - 1], worlds[n]);
    }
    if s < |worlds[n].seqs| {
      assert SeqOk(c, worlds[n].mem, worlds[n].g.tables[s], worlds[n].seqs[s]);
      ContextIsOwnStream(c, worlds[n], s, worlds[n].seqs[s].len);
    }
  }

  lemma EmptyIsOk(c: Setting, mem: Memory)
    requires c.perPage > 0 && MemoryOk(c, mem)
    ensures ContentOk(c, EmptyWorld(mem))
  {
  }
}
