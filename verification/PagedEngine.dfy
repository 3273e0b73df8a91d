/** The paged bookkeeping object of the engine (continuous.rs, paged_kv.rs), over the pages of PagedOwnership. */
module PagedEngine {
  import opened Arithmetic
  import opened Collections
  import opened PagedOwnership
  import opened PagedKv

  class PagedEngineState {
    const capacity: nat
    const maxPages: nat
    const tokensPerPage: nat
    const numPages: nat
    /** The allocator: recycled pages, the true entries of the allocated bitmap, and the first page never used. */
    var free: seq<Page>
    var owned: set<Page>
    var next: nat
    var cache: map<Hash, Page>
    /** Block tables and registry entries of the active slots. */
    var tables: seq<seq<Page>>
    var entries: seq<Entry>
    var retired: seq<Entry>

    function G(): Pages
      reads this
    {
      Pages(owned, cache, tables, entries, retired)
    }

    ghost predicate Alloc()
      reads this
    {
      AllocOk(free, owned, next, numPages)
    }

    ghost predicate Valid()
      reads this
    {
      && Alloc() && Owned(G()) && tokensPerPage > 0 && numPages == maxPages * capacity
      && |tables| <= capacity && |retired| <= 4 * capacity
      && forall s :: 0 <= s < |tables| ==> |tables[s]| == maxPages && |entries[s].chain| <= maxPages
    }

    /** The pool has room for one full-length table a slot. */
    constructor (capacity: nat, maxSeqLen: nat, tokensPerPage: nat)
      requires tokensPerPage > 0
      ensures Valid() && this.capacity == capacity && this.tokensPerPage == tokensPerPage
      ensures maxPages == maxSeqLen / tokensPerPage && tables == [] && retired == [] && cache == map[]
    {
      this.capacity, this.tokensPerPage := capacity, tokensPerPage;
      maxPages := maxSeqLen / tokensPerPage;
      numPages := (maxSeqLen / tokensPerPage) * capacity;
      free, owned, next := [], {}, 0;
      cache, tables, entries, retired := map[], [], [], [];
    }

    // ----- the page allocator

    /**
     Hands out a page that nobody owns: the one given back last, or else the lowest that was never used. Fails
     exactly when every page of the pool is owned.
     */
    method AllocPage() returns (page: Option<Page>)
      requires Alloc()
      modifies this`free, this`owned, this`next
      ensures Alloc()
      ensures page.None? ==> owned == old(owned) && |owned| == numPages
      ensures page.Some? ==> page.value !in old(owned) && page.value < numPages && owned == old(owned) + {page.value}
      ensures old(free) != [] ==> page.Some? && old(free) == free + [page.value] && next == old(next)
      ensures old(free) == [] && page.Some? ==> page.value == old(next) && next == old(next) + 1 && free == []
    {
      var p;
      if free != [] {
        PopFree(free, owned, next, numPages);
        p := free[|free| - 1];
        free := free[..|free| - 1];
      } else if next < numPages {
        p := next;
        next := next + 1;
      } else {
        AllOwned(owned, next, numPages);
        return None;
      }
      assert p !in owned;
      owned := owned + {p};
      page := Some(p);
    }

    /** Takes a page back. The original panics unless the page is owned. */
    method FreePage(page: Page)
      requires Alloc() && page in owned
      modifies this`free, this`owned
      ensures Alloc() && owned == old(owned) - {page} && free == old(free) + [page]
    {
      owned := owned - {page};
      free := free + [page];
      DistinctSnoc(old(free), page);
    }

    /** Takes back a list of distinct owned pages. */
    method FreePages(pages: seq<Page>)
      requires Alloc() && Distinct(pages) && forall p :: p in pages ==> p in owned
      modifies this`free, this`owned
      ensures Alloc() && owned == old(owned) - ToSet(pages)
    {
      for k := 0 to |pages|
        invariant Alloc() && owned == old(owned) - ToSet(pages[..k])
      {
        assert pages[..k + 1] == pages[..k] + [pages[k]];
        FreePage(pages[k]);
      }
      assert pages[..|pages|] == pages;
    }

    // ----- planning

    /**
     Aliases the leading registered pages of the prompt and allocates the others; only full pages are aliased,
     and only the leading run. Without enough pages it gives everything back.
     */
    method PlanWithChain(e: Entry) returns (plan: Option<Plan>)
      requires Alloc() && e.full <= |e.chain|
      modifies this`free, this`owned, this`next
      ensures Alloc()
      ensures plan.None? ==>
                owned == old(owned) && exists r: nat :: IsLead(cache, e, r) && |owned| + |e.chain| > numPages + r
      ensures plan.Some? ==>
                && |plan.value.table| == |e.chain| && plan.value.reused <= e.full
                && Grown(plan.value.table, plan.value.reused, old(owned), owned)
                && Aliased(cache, plan.value.table, e, plan.value.reused)
                && (plan.value.reused < e.full ==> e.chain[plan.value.reused] !in cache)
    {
      hide AllocOk, Distinct, Resolves;
      ghost var was := owned;
      var table: seq<Page>, reused: nat, allocating := [], 0, false;
      AliasedOnly(table, owned);
      for i := 0 to |e.chain|
        invariant Alloc() && |table| == i && reused <= e.full && Grown(table, reused, was, owned)
        invariant !allocating ==> reused == if i <= e.full then i else e.full
        invariant allocating ==> reused < e.full && e.chain[reused] !in cache
        invariant Aliased(cache, table, e, reused)
      {
        var h := e.chain[i];
        if !allocating && i < e.full && h in cache {
          AliasedMore(cache, table, e, reused, cache[h]);
          AliasedOnly(table + [cache[h]], owned);
          table, reused := table + [cache[h]], reused + 1;
        } else {
          if i < e.full {
            allocating := true;
          }
          ghost var held := owned;
          var page := AllocPage();
          if page.None? {
            GrownSize(table, reused, was, owned);
            AliasedIsLead(cache, table, e, reused);
            FreePages(table[reused..]);
            assert IsLead(cache, e, reused) && |owned| + |e.chain| > numPages + reused;
            return None;
          }
          GrowOne(table, reused, was, held, page.value);
          AliasedMore(cache, table, e, reused, page.value);
          table := table + [page.value];
        }
      }
      plan := Some(Plan(table, reused));
    }

    /** Extends a table to the full length with fresh pages, or gives them back and leaves it as it was. */
    method PadTable(table: seq<Page>) returns (ok: bool, padded: seq<Page>)
      requires Alloc()
      modifies this`free, this`owned, this`next
      ensures Alloc()
      ensures !ok ==> padded == table && owned == old(owned) && |owned| + maxPages > numPages + |table|
      ensures ok ==> |padded| == (if |table| < maxPages then maxPages else |table|) && table <= padded
      ensures ok ==> Grown(padded, |table|, old(owned), owned)
    {
      padded := table;
      while |padded| < maxPages
        invariant Alloc() && table <= padded && Grown(padded, |table|, old(owned), owned)
        invariant |padded| <= (if |table| < maxPages then maxPages else |table|)
      {
        ghost var held := owned;
        var page := AllocPage();
        if page.None? {
          GrownSize(padded, |table|, old(owned), owned);
          FreePages(padded[|table|..]);
          return false, table;
        }
        GrowOne(padded, |table|, old(owned), held, page.value);
        padded := padded + [page.value];
      }
      ok := true;
    }

    // ----- eviction

    method ReferencedPages() returns (pages: set<Page>)
      ensures pages == TablePages(tables)
    {
      pages := {};
      for s := 0 to |tables|
        invariant pages == TablePages(tables[..s])
      {
        pages := pages + ToSet(tables[s]);
        TablePagesSnoc(tables[..s], tables[s]);
        assert tables[..s + 1] == tables[..s] + [tables[s]];
      }
      assert tables[..|tables|] == tables;
    }

    method ClaimedCounts() returns (claimed: map<Hash, nat>)
      ensures CountsOk(claimed, retired, [])
    {
      claimed := map[];
      for k := 0 to |retired|
        invariant CountsOk(claimed, retired[..k], [])
      {
        var hashes := Claims(retired[k]);
        assert hashes[..0] == [];
        for i := 0 to |hashes|
          invariant CountsOk(claimed, retired[..k], hashes[..i])
        {
          var h := hashes[i];
          assert hashes[..i + 1] == hashes[..i] + [h];
          CountUp(claimed, retired[..k], hashes[..i], h);
          claimed := claimed[h := (if h in claimed then claimed[h] else 0) + 1];
        }
        assert hashes[..|hashes|] == hashes && retired[..k + 1] == retired[..k] + [retired[k]];
        CountEntry(claimed, retired[..k], retired[k]);
      }
      assert retired[..|retired|] == retired;
    }

    /** Unregisters a hash and returns its page; false when it is not registered. */
    method EvictPage(h: Hash) returns (evicted: bool)
      requires Alloc() && (h in cache ==> cache[h] in owned)
      modifies this`free, this`owned, this`cache
      ensures Alloc() && evicted == (h in old(cache))
      ensures G() == if evicted then Unmapped(old(G()), h) else old(G())
    {
      evicted := h in cache;
      if evicted {
        var page := cache[h];
        cache := cache - {h};
        FreePage(page);
      }
    }

    /** Drops the oldest retired request and returns the pages that fell free with it. */
    method EvictOldest(referenced: set<Page>, claimed: map<Hash, nat>)
      returns (freed: nat, remaining: map<Hash, nat>)
      requires Alloc() && Owned(G()) && retired != []
      requires referenced == TablePages(tables) && CountsOk(claimed, retired, [])
      modifies this`free, this`owned, this`cache, this`retired
      ensures Alloc() && Owned(G()) && CountsOk(remaining, retired, [])
      ensures retired == old(retired)[1..] && Evicts(old(G()), G(), freed)
    {
      var hashes := Claims(retired[0]);
      RemoveEntry(G());
      CountsOfFirst(claimed, retired);
      DropEvictsNothing(G());
      retired := retired[1..];
      remaining, freed := claimed, 0;
      assert hashes[0..] == hashes;
      for k := 0 to |hashes|
        invariant Alloc() && OwnedBut(G(), hashes[k..]) && CountsOk(remaining, retired, hashes[k..])
        invariant retired == old(retired)[1..] && tables == old(tables) && Evicts(old(G()), G(), freed)
      {
        var h := hashes[k];
        assert hashes[k..] == [h] + hashes[k + 1..];
        CountDown(remaining, retired, h, hashes[k + 1..]);
        remaining := remaining[h := remaining[h] - 1];
        if remaining[h] == 0 && h in cache && cache[h] !in referenced {
          assert HashOkBut(G(), [h] + hashes[k + 1..], h);
          UnmapEvicts(G(), h, [h] + hashes[k + 1..]);
          UnmapKeepsOwned(G(), h, hashes[k + 1..]);
          EvictsTransitive(old(G()), G(), Unmapped(G(), h), freed, 1);
          var evicted := EvictPage(h);
          freed := freed + 1;
        } else {
          SkipKeepsOwned(G(), h, hashes[k + 1..]);
        }
      }
      assert hashes[|hashes|..] == [];
      NothingRests(G());
    }

    /**
     Evicts retired requests, oldest first, until a page returns to the pool; false when none did, and then the
     retired list is empty.
     */
    method EvictOneRetired() returns (some: bool)
      requires Alloc() && Owned(G())
      modifies this`free, this`owned, this`cache, this`retired
      ensures Alloc() && Owned(G())
      ensures exists freed: nat :: Evicts(old(G()), G(), freed) && (some <==> freed > 0)
      ensures EvictsOnce(old(G()), G())
      ensures !some ==> retired == [] && owned == old(owned)
      ensures some || old(retired) != [] ==> |retired| < |old(retired)|
    {
      EvictsNothing(G());
      if retired == [] {
        return false;
      }
      var referenced := ReferencedPages();
      var claimed := ClaimedCounts();
      var freed := 0;
      while retired != []
        invariant Alloc() && Owned(G()) && CountsOk(claimed, retired, []) && tables == old(tables)
        invariant Evicts(old(G()), G(), freed) && freed == 0
        invariant |retired| <= |old(retired)|
        invariant retired == [] ==> EvictsOnce(old(G()), G())
        decreases |retired|
      {
        ghost var before := G();
        var more;
        more, claimed := EvictOldest(referenced, claimed);
        EvictsTransitive(old(G()), before, G(), freed, more);
        freed := freed + more;
        assert Evicts(before, G(), more) && |before.retired| == |retired| + 1;
        if freed > 0 {
          break;
        }
      }
      some := freed > 0;
      SubsetSize(owned, old(owned));
    }

    // ----- admission

    /** The checks of the block-table installation. */
    method TableFits(table: seq<Page>) returns (ok: bool)
      ensures ok <==> 1 <= |table| <= maxPages && forall p :: p in table ==> p < numPages
    {
      if table == [] || |table| > maxPages {
        return false;
      }
      for i := 0 to |table|
        invariant forall k :: 0 <= k < i ==> table[k] < numPages
      {
        if table[i] >= numPages {
          assert table[i] in table;
          return false;
        }
      }
      ok := true;
    }

    /**
     Plans and pads once. On failure everything is given back, and the pool has too few free pages for a full
     table; on success the table is ready to install.
     */
    method PlanAndPad(e: Entry) returns (plan: Option<Plan>)
      requires Alloc() && e.full <= |e.chain| <= maxPages
      modifies this`free, this`owned, this`next
      ensures Alloc()
      ensures plan.None? ==> owned == old(owned) && Short(G(), e, maxPages, numPages)
      ensures plan.Some? ==>
                && PlanOk(old(G()), e, plan.value.table, plan.value.reused)
                && owned == Installed(old(G()), e, plan.value.table, plan.value.reused).owned
                && |plan.value.table| == maxPages
    {
      hide Distinct, Resolves, AllocOk;
      ghost var was := owned;
      plan := PlanWithChain(e);
      if plan.None? {
        return;
      }
      var Plan(table, reused) := plan.value;
      ghost var planned := owned;
      var ok, padded := PadTable(table);
      if !ok {
        GrownSize(table, reused, was, planned);
        AliasedIsLead(cache, table, e, reused);
        FreePages(table[reused..]);
        return None;
      }
      GrownTwice(table, padded, reused, was, planned, owned);
      GrownIsPlan(old(G()), e, table, padded, reused, owned);
      plan := Some(Plan(padded, reused));
    }

    /**
     Admission: plan, evicting cold retired requests while the pool is too full, and install. With a free slot it
     never fails. It returns the prompt tokens that need no prefill: always fewer than the prompt has.
     */
    method Admit(promptLen: nat, chain: seq<Hash>) returns (r: Admission)
      requires Valid() && |tables| < capacity
      requires 0 < promptLen <= maxPages * tokensPerPage
      requires |chain| == (promptLen + tokensPerPage - 1) / tokensPerPage
      modifies this`free, this`owned, this`next, this`cache, this`retired, this`tables, this`entries
      ensures Valid() && r.Admitted? && r.reusedTokens < promptLen
      ensures |tables| == |old(tables)| + 1 && tables[..|old(tables)|] == old(tables)
      ensures entries == old(entries) + [Entry(chain, promptLen / tokensPerPage)]
      ensures AdmittedAs(old(G()), G(), Entry(chain, promptLen / tokensPerPage), promptLen, tokensPerPage, maxPages,
                         numPages, r.reusedTokens)
    {
      hide AllocOk, Evicts, HashOk, EntryOk, SharingOk, PageOk, EvictsForRoom;
      PageCounts(promptLen, tokensPerPage, maxPages);
      var e := Entry(chain, promptLen / tokensPerPage);
      ghost var before, freed;
      var plan;
      plan, before, freed := PlanWithEviction(e);
      if plan.None? {
        return PoolExhausted;
      }
      var Plan(table, reused) := plan.value;
      InstallKeepsOwned(before, e, table, reused);
      OwnedBelow(free, owned, next, numPages);
      assert Installed(before, e, table, reused).tables[|tables|] == table;
      PlanFits(Installed(before, e, table, reused), |tables|, numPages);
      var ok := TableFits(table);
      if !ok {
        return TableRejected;
      }
      tables, entries := tables + [table], entries + [e];
      var reusedTokens := ReusedTokens(reused, promptLen, tokensPerPage);
      assert G() == Installed(before, e, table, reused);
      r := Admitted(reusedTokens);
    }

    /** Plans, evicting the oldest retired requests as long as the pool is too full. */
    method PlanWithEviction(e: Entry) returns (plan: Option<Plan>, ghost before: Pages, ghost freed: nat)
      requires Valid() && |tables| < capacity && e.full <= |e.chain| <= maxPages
      modifies this`free, this`owned, this`next, this`cache, this`retired
      ensures Alloc() && plan.Some? && Owned(before) && Evicts(old(G()), before, freed)
      ensures EvictsForRoom(old(G()), before, e, maxPages, numPages)
      ensures G() == before.(owned := owned) && |retired| <= |old(retired)|
      ensures PlanOk(before, e, plan.value.table, plan.value.reused) && |plan.value.table| == maxPages
      ensures owned == Installed(before, e, plan.value.table, plan.value.reused).owned
    {
      hide AllocOk, Evicts, EvictsOnce, HashOk, EntryOk, SharingOk, PageOk, Short;
      before, freed := G(), 0;
      ghost var was, run := before, [before];
      EvictsNothing(before);
      plan := PlanAndPad(e);
      while plan.None?
        invariant Alloc() && Owned(before) && Evicts(was, before, freed) && G() == before.(owned := owned)
        invariant |retired| <= |old(retired)|
        invariant EvictionRun(run, was, before)
        invariant forall k :: 0 <= k < |run| - 1 ==> Short(run[k], e, maxPages, numPages)
        invariant plan.None? ==> owned == before.owned && Short(before, e, maxPages, numPages)
        invariant plan.Some? ==>
                    && PlanOk(before, e, plan.value.table, plan.value.reused) && |plan.value.table| == maxPages
                    && owned == Installed(before, e, plan.value.table, plan.value.reused).owned
        decreases |retired|
      {
        ShortIsFull(before, e, maxPages, numPages);
        var some := EvictOneRetired();
        ghost var more: nat :| Evicts(before, G(), more) && (some <==> more > 0);
        ghost var now, total := G(), freed + more;
        EvictionRunSnoc(run, was, before, now);
        run := run + [now];
        EvictsTransitive(was, before, now, freed, more);
        before, freed := now, total;
        if !some {
          DrainedHasRoom(before, capacity, maxPages);
          return;
        }
        plan := PlanAndPad(e);
      }
    }

    // ----- registration and retirement

    /** Prefill is complete: registers the full prompt pages; the first writer of a hash wins. */
    method Materialize(s: nat)
      requires Valid() && s < |tables|
      modifies this`cache
      ensures Valid()
      ensures forall h :: h in old(cache) ==> h in cache && cache[h] == old(cache)[h]
      ensures forall i: nat :: i < entries[s].full ==> entries[s].chain[i] in cache
      ensures forall h :: h in cache && h !in old(cache) ==>
                exists i: nat :: i < entries[s].full && entries[s].chain[i] == h && cache[h] == tables[s][i]
    {
      var e := entries[s];
      for i := 0 to e.full
        invariant Valid()
        invariant forall h :: h in old(cache) ==> h in cache && cache[h] == old(cache)[h]
        invariant forall k: nat :: k < i ==> e.chain[k] in cache
        invariant forall h :: h in cache && h !in old(cache) ==>
                    exists k: nat :: k < i && e.chain[k] == h && cache[h] == tables[s][k]
      {
        RegisterKeepsOwned(G(), s, i);
        if e.chain[i] !in cache {
          cache := cache[e.chain[i] := tables[s][i]];
        }
      }
    }

    /** Gives back the pages of a finishing table that do not resolve: pads, partial pages, lost races. */
    method ReturnPages(s: nat)
      requires Alloc() && Owned(G()) && s < |tables|
      modifies this`free, this`owned
      ensures Alloc() && owned == Finished(old(G()), s).owned
    {
      ghost var was := G();
      var table, e := tables[s], entries[s];
      for i := 0 to |table|
        invariant Alloc() && owned == was.owned - ReturnedUpTo(cache, table, e, i)
      {
        var isContent := i < |e.chain|;
        var lostRace := isContent && (e.chain[i] !in cache || cache[e.chain[i]] != table[i]);
        if !isContent || lostRace {
          ReturnedOnce(was, s, i);
          FreePage(table[i]);
        }
      }
      ReturnedAll(was, s);
    }

    /**
     Finishing a slot: its private pages return to the pool, its registered ones stay for reuse, the higher slots
     move down, and the retired list is cut back to its bound.
     */
    method Finish(s: nat)
      requires Valid() && s < |tables|
      modifies this`free, this`owned, this`cache, this`retired, this`tables, this`entries
      ensures Valid()
      ensures exists freed: nat :: Evicts(Finished(old(G()), s), G(), freed)
      ensures |Finished(old(G()), s).retired| <= 4 * capacity ==> G() == Finished(old(G()), s)
      ensures EvictsForBound(Finished(old(G()), s), G(), 4 * capacity)
      ensures tables == old(tables)[..s] + old(tables)[s + 1..] && entries == old(entries)[..s] + old(entries)[s + 1..]
      ensures var e := old(entries)[s];
              |old(retired)| < 4 * capacity ==>
                cache == old(cache) && retired == old(retired) + if e.full > 0 then [e] else []
    {
      hide AllocOk, Evicts, EvictsOnce;
      ghost var was := G();
      FinishKeepsOwned(was, s);
      ReturnPages(s);
      var entry := entries[s];
      MoveDown(s);
      if entry.full > 0 {
        retired := retired + [entry];
      }
      ghost var finished, freed: nat := G(), 0;
      assert finished == Finished(was, s);
      EvictsNothing(finished);
      var some := true;
      ghost var run := [finished];
      while |retired| > 4 * capacity && some
        invariant EvictionRun(run, finished, G())
        invariant forall k :: 0 <= k < |run| - 1 ==> |run[k].retired| > 4 * capacity
        invariant |finished.retired| <= 4 * capacity ==> G() == finished
        invariant Alloc() && Owned(G()) && Evicts(finished, G(), freed)
        invariant tables == finished.tables && entries == finished.entries
        invariant !some ==> retired == []
        decreases |retired|, some
      {
        ghost var before := G();
        some := EvictOneRetired();
        ghost var more: nat :| Evicts(before, G(), more);
        EvictsTransitive(finished, before, G(), freed, more);
        freed := freed + more;
        EvictionRunSnoc(run, finished, before, G());
        run := run + [G()];
      }
    }

    /** Moves the tables and entries above slot `s` down by one. */
    method MoveDown(s: nat)
      requires s < |tables| == |entries|
      modifies this`tables, this`entries
      ensures tables == Without(old(tables), s) && entries == Without(old(entries), s)
    {
      var n := |tables|;
      for i := s + 1 to n
        invariant |tables| == |entries| == n
        invariant forall k :: 0 <= k < s ==> tables[k] == old(tables)[k] && entries[k] == old(entries)[k]
        invariant forall k :: s <= k < i - 1 ==> tables[k] == old(tables)[k + 1] && entries[k] == old(entries)[k + 1]
        invariant forall k :: i <= k < n ==> tables[k] == old(tables)[k] && entries[k] == old(entries)[k]
      {
        tables, entries := tables[i - 1 := tables[i]], entries[i - 1 := entries[i]];
      }
      tables, entries := tables[..n - 1], entries[..n - 1];
    }
  }

  // ----- what is registered is reused

  /** A finishing table gives back at least the pages behind its full prompt pages. */
  lemma FinishMakesRoom(g: Pages, s: nat)
    requires Owned(g) && s < |g.tables| && g.entries[s].full <= |g.tables[s]|
    ensures |Finished(g, s).owned| + |g.tables[s]| <= |g.owned| + g.entries[s].full
  {
    var table, full, kept := g.tables[s], g.entries[s].full, Finished(g, s).owned;
    var back := table[full..];
    forall i: nat | full <= i < |table|
      ensures !Cached(g.cache, table[i]) && table[i] in g.owned && table[i] !in kept
    {
      DecodePagesArePrivate(g, s, i, s, i);
      assert EntryOk(g, s, i);
      assert !Resolves(g.cache, table, g.entries[s], i) by {
        if Resolves(g.cache, table, g.entries[s], i) {
          assert Cached(g.cache, table[i]);
        }
      }
    }
    forall i, j | 0 <= i < j < |back|
      ensures back[i] != back[j]
    {
      DecodePagesArePrivate(g, s, full + i, s, full + j);
    }
    ToSetSize(back);
    assert ToSet(back) !! kept && ToSet(back) + kept <= g.owned;
    SubsetSize(ToSet(back) + kept, g.owned);
  }

  lemma OwnedFits(free: seq<Page>, owned: set<Page>, next: nat, numPages: nat)
    requires AllocOk(free, owned, next, numPages)
    ensures |owned| <= numPages
  {
    BoundedSetSize(owned, numPages);
  }

  /**
   The reuse law: a prompt that is stored and finished, with the retired list within its bound, is admitted again with
   all tokens of its full pages covered, one fewer when they are the whole prompt.
   */
  method FinishAndReadmit(p: PagedEngineState, s: nat, promptLen: nat) returns (r: Admission)
    requires p.Valid() && s < |p.tables| && |p.retired| < 4 * p.capacity
    requires 0 < promptLen <= p.maxPages * p.tokensPerPage
    requires p.entries[s].full == promptLen / p.tokensPerPage
    requires |p.entries[s].chain| == (promptLen + p.tokensPerPage - 1) / p.tokensPerPage
    modifies p
    ensures p.Valid()
    ensures var full := promptLen / p.tokensPerPage;
            r == Admitted(if full * p.tokensPerPage == promptLen then promptLen - 1 else full * p.tokensPerPage)
  {
    var e := p.entries[s];
    hide AllocOk, Owned, EvictsForBound, Finished;
    p.Materialize(s);
    ghost var g := p.G();
    FinishLeaves(p, s);
    p.Finish(s);
    ghost var was := p.G();
    r := p.Admit(promptLen, e.chain);
    RegisteredPromptIsReused(was, p.G(), Entry(e.chain, promptLen / p.tokensPerPage), promptLen, p.tokensPerPage,
                             p.maxPages, p.numPages, r.reusedTokens);
  }

  /** What finishing leaves, within the bound. */
  lemma FinishLeaves(p: PagedEngineState, s: nat)
    requires p.Valid() && s < |p.tables| && |p.retired| < 4 * p.capacity
    ensures |p.entries| == |p.tables| && |Finished(p.G(), s).retired| <= 4 * p.capacity
    ensures Finished(p.G(), s).cache == p.cache && |Finished(p.G(), s).tables| < p.capacity
    ensures p.entries[s].full <= |p.entries[s].chain|
    ensures |Finished(p.G(), s).owned| + p.maxPages <= p.numPages + p.entries[s].full
  {
    OwnedFits(p.free, p.owned, p.next, p.numPages);
    FinishMakesRoom(p.G(), s);
  }

  /** Prompt tokens covered by reused pages; one token is always left for the prefill. */
  method ReusedTokens(reused: nat, promptLen: nat, perPage: nat) returns (tokens: nat)
    requires promptLen > 0 && perPage > 0 && reused <= promptLen / perPage
    ensures tokens == CoveredTokens(reused, promptLen, perPage) && tokens < promptLen
  {
    MulMono(reused, promptLen / perPage, perPage);
    tokens := reused * perPage;
    if tokens == promptLen {
      tokens := tokens - 1;
    }
  }

  // ----- pages under construction

  /** From `n` on the table holds distinct pages that were not owned before and are now. */
  ghost predicate Grown(table: seq<Page>, n: nat, was: set<Page>, now: set<Page>) {
    && n <= |table| && Distinct(table[n..]) && now == was + ToSet(table[n..])
    && forall p :: p in table[n..] ==> p !in was
  }

  /** The first `n` entries are registered pages. */
  ghost predicate Aliased(cache: map<Hash, Page>, table: seq<Page>, e: Entry, n: nat) {
    forall k: nat :: k < n ==> Resolves(cache, table, e, k)
  }

  lemma AliasedMore(cache: map<Hash, Page>, table: seq<Page>, e: Entry, n: nat, page: Page)
    requires n <= |table| && Aliased(cache, table, e, n)
    ensures Aliased(cache, table + [page], e, n)
    ensures n == |table| < |e.chain| && e.chain[n] in cache && cache[e.chain[n]] == page ==>
              Aliased(cache, table + [page], e, n + 1)
  {
    forall k: nat | k < n
      ensures Resolves(cache, table + [page], e, k)
    {
      assert Resolves(cache, table, e, k);
    }
  }

  lemma AliasedIsLead(cache: map<Hash, Page>, table: seq<Page>, e: Entry, n: nat)
    requires Aliased(cache, table, e, n) && n <= e.full <= |e.chain| && (n < e.full ==> e.chain[n] !in cache)
    ensures IsLead(cache, e, n)
  {
    forall i | 0 <= i < n
      ensures e.chain[i] in cache
    {
      assert Resolves(cache, table, e, i);
    }
  }

  lemma ShortIsFull(g: Pages, e: Entry, maxPages: nat, numPages: nat)
    requires Short(g, e, maxPages, numPages)
    ensures |g.owned| + maxPages > numPages
  {
  }

  lemma AliasedOnly(table: seq<Page>, owned: set<Page>)
    ensures Grown(table, |table|, owned, owned)
  {
  }

  lemma PopFree(free: seq<Page>, owned: set<Page>, next: nat, numPages: nat)
    requires AllocOk(free, owned, next, numPages) && free != []
    ensures var n := |free| - 1;
            free[n] < next && free[n] !in owned && AllocOk(free[..n], owned + {free[n]}, next, numPages)
  {
    var n := |free| - 1;
    assert free == free[..n] + [free[n]];
    assert free[n] in free;
    forall p | p in free[..n]
      ensures p in free && p != free[n]
    {
      var i :| 0 <= i < n && free[..n][i] == p;
    }
  }

  lemma GrownSize(table: seq<Page>, n: nat, was: set<Page>, now: set<Page>)
    requires Grown(table, n, was, now)
    ensures |now| == |was| + |table| - n
  {
    ToSetSize(table[n..]);
    assert was !! ToSet(table[n..]);
  }

  lemma GrowOne(table: seq<Page>, n: nat, was: set<Page>, now: set<Page>, page: Page)
    requires Grown(table, n, was, now) && page !in now
    ensures Grown(table + [page], n, was, now + {page})
  {
    assert (table + [page])[n..] == table[n..] + [page];
    DistinctSnoc(table[n..], page);
  }

  lemma GrownTwice(table: seq<Page>, longer: seq<Page>, n: nat, was: set<Page>, mid: set<Page>, now: set<Page>)
    requires Grown(table, n, was, mid) && table <= longer && Grown(longer, |table|, mid, now)
    ensures Grown(longer, n, was, now)
  {
    assert longer[n..] == table[n..] + longer[|table|..];
    assert forall p :: p in longer[|table|..] ==> p !in table[n..];
    DistinctConcat(table[n..], longer[|table|..]);
  }

  lemma GrownIsPlan(g: Pages, e: Entry, table: seq<Page>, longer: seq<Page>, reused: nat, now: set<Page>)
    requires reused <= e.full <= |e.chain| && reused <= |table| && table <= longer
    requires Aliased(g.cache, table, e, reused) && (reused < e.full ==> e.chain[reused] !in g.cache)
    requires Grown(longer, reused, g.owned, now)
    ensures PlanOk(g, e, longer, reused) && Installed(g, e, longer, reused).owned == now
  {
    forall i: nat | i < reused
      ensures Resolves(g.cache, longer, e, i)
    {
      assert Resolves(g.cache, table, e, i);
    }
  }

  /** With a free slot and nothing left to evict, a full table fits into the pool. */
  lemma DrainedHasRoom(g: Pages, capacity: nat, maxPages: nat)
    requires Owned(g) && g.retired == [] && |g.tables| < capacity
    requires forall s :: 0 <= s < |g.tables| ==> |g.tables[s]| <= maxPages
    ensures |g.owned| + maxPages <= maxPages * capacity
  {
    DrainedIsLive(g, maxPages);
    MulMono(|g.tables| + 1, capacity, maxPages);
  }

  lemma OwnedBelow(free: seq<Page>, owned: set<Page>, next: nat, numPages: nat)
    requires AllocOk(free, owned, next, numPages)
    ensures forall p :: p in owned ==> p < numPages
  {
  }

  lemma PlanFits(g: Pages, s: nat, numPages: nat)
    requires Owned(g) && s < |g.tables| && forall p :: p in g.owned ==> p < numPages
    ensures forall p :: p in g.tables[s] ==> p < numPages
  {
    forall i: nat | i < |g.tables[s]|
      ensures g.tables[s][i] in g.owned
    {
      assert EntryOk(g, s, i);
    }
  }

  lemma CountUp(claimed: map<Hash, nat>, retired: seq<Entry>, hashes: seq<Hash>, h: Hash)
    requires CountsOk(claimed, retired, hashes)
    ensures CountsOk(claimed[h := (if h in claimed then claimed[h] else 0) + 1], retired, hashes + [h])
  {
    var more := claimed[h := (if h in claimed then claimed[h] else 0) + 1];
    var longer := hashes + [h];
    forall o: Hash
      ensures CountOk(more, retired, longer, o)
    {
      assert CountOk(claimed, retired, hashes, o);
      OccurrencesSnoc(hashes, h, o);
    }
  }

  lemma CountEntry(claimed: map<Hash, nat>, retired: seq<Entry>, e: Entry)
    requires CountsOk(claimed, retired, Claims(e))
    ensures CountsOk(claimed, retired + [e], [])
  {
    var longer := retired + [e];
    forall o: Hash
      ensures CountOk(claimed, longer, [], o)
    {
      assert CountOk(claimed, retired, Claims(e), o);
      ClaimCountSnoc(retired, e, o);
    }
  }
}
