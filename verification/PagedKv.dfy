/**
 The paged key/value bookkeeping of the engine (continuous.rs `PagedEngineState`, paged_kv.rs `PageAllocator` and
 `GpuPagedTableBuilder`): page pool, content cache, block tables of the active slots and retired requests.
 */
module PagedKv {
  import opened Arithmetic
  import opened Collections
  import opened PagedOwnership

  datatype Admission = Admitted(reusedTokens: nat) | PoolExhausted | TableRejected

  datatype Plan = Plan(table: seq<Page>, reused: nat)

  // ----- what admission does

  /** The tokens of the aliased pages, all but the last when they are the whole prompt. */
  function CoveredTokens(reused: nat, promptLen: nat, perPage: nat): nat
    requires promptLen > 0
  {
    if reused * perPage == promptLen then promptLen - 1 else reused * perPage
  }

  /** `r` is the length of the leading run of registered full pages. */
  ghost predicate IsLead(cache: map<Hash, Page>, e: Entry, r: nat) {
    && r <= e.full <= |e.chain| && (forall i :: 0 <= i < r ==> e.chain[i] in cache)
    && (r < e.full ==> e.chain[r] !in cache)
  }

  /** The pool has too few free pages for what the prompt cannot reuse of a full table. */
  ghost predicate Short(g: Pages, e: Entry, maxPages: nat, numPages: nat) {
    exists r: nat :: IsLead(g.cache, e, r) && |g.owned| + maxPages > numPages + r
  }

  /** Retired requests are evicted for an admission only as long as the pool is short. */
  ghost predicate EvictsForRoom(was: Pages, before: Pages, e: Entry, maxPages: nat, numPages: nat) {
    exists run: seq<Pages> ::
      && EvictionRun(run, was, before)
      && forall k :: 0 <= k < |run| - 1 ==> Short(run[k], e, maxPages, numPages)
  }

  /** The table that admission installs, the evictions before it, and the tokens that need no prefill. */
  ghost predicate AdmittedAs(was: Pages, now: Pages, e: Entry, promptLen: nat, perPage: nat, maxPages: nat,
                             numPages: nat, reusedTokens: nat)
    requires promptLen > 0
  {
    exists before: Pages, freed: nat, table: seq<Page>, reused: nat ::
      && Evicts(was, before, freed) && EvictsForRoom(was, before, e, maxPages, numPages)
      && Owned(before) && PlanOk(before, e, table, reused)
      && now == Installed(before, e, table, reused)
      && reusedTokens == CoveredTokens(reused, promptLen, perPage)
  }

  /**
   With every full page of the prompt registered and room for the rest of its table, admission evicts nothing and
   reports all tokens of the full pages, one fewer when they are the whole prompt.
   */
  lemma RegisteredPromptIsReused(was: Pages, now: Pages, e: Entry, promptLen: nat, perPage: nat, maxPages: nat,
                                 numPages: nat, reusedTokens: nat)
    requires promptLen > 0 && AdmittedAs(was, now, e, promptLen, perPage, maxPages, numPages, reusedTokens)
    requires e.full <= |e.chain| && (forall i :: 0 <= i < e.full ==> e.chain[i] in was.cache)
    requires |was.owned| + maxPages <= numPages + e.full
    ensures reusedTokens == if e.full * perPage == promptLen then promptLen - 1 else e.full * perPage
    ensures now.cache == was.cache && now.retired == was.retired
  {
    RoomIsNotShort(was, e, maxPages, numPages);
    hide Owned, Evicts, EvictsOnce, Short, IsLead, PlanOk;
    var before: Pages, freed: nat, table: seq<Page>, reused: nat :|
      && Evicts(was, before, freed) && EvictsForRoom(was, before, e, maxPages, numPages)
      && Owned(before) && PlanOk(before, e, table, reused)
      && now == Installed(before, e, table, reused)
      && reusedTokens == CoveredTokens(reused, promptLen, perPage);
    var run: seq<Pages> :|
      && EvictionRun(run, was, before)
      && forall k :: 0 <= k < |run| - 1 ==> Short(run[k], e, maxPages, numPages);
    assert |run| == 1;
    PlanReusesAll(was, e, table, reused);
  }

  lemma PlanReusesAll(g: Pages, e: Entry, table: seq<Page>, reused: nat)
    requires PlanOk(g, e, table, reused) && forall i :: 0 <= i < e.full ==> e.chain[i] in g.cache
    ensures reused == e.full
  {
  }

  lemma RoomIsNotShort(g: Pages, e: Entry, maxPages: nat, numPages: nat)
    requires e.full <= |e.chain| && (forall i :: 0 <= i < e.full ==> e.chain[i] in g.cache)
    requires |g.owned| + maxPages <= numPages + e.full
    ensures !Short(g, e, maxPages, numPages)
  {
  }

  // ----- what eviction may do

  /** A hash is unmapped only if no surviving retired request claims it and no live table holds its page. */
  ghost predicate GoneOk(before: Pages, after: Pages, h: Hash) {
    h in before.cache && h !in after.cache ==>
      !Claimed(after.retired, h) && !InTables(after.tables, before.cache[h])
  }

  /** The pages of unmapped hashes return to the pool, one each; nothing else changes hands. */
  ghost predicate PagesReturned(before: Pages, after: Pages, freed: nat) {
    && (forall h :: h in after.cache ==> h in before.cache && after.cache[h] == before.cache[h])
    && after.owned <= before.owned
    && (forall p: Page :: ReturnedOk(before, after, p))
    && |before.owned| == |after.owned| + freed
    && |before.cache| == |after.cache| + freed
  }

  ghost predicate ReturnedOk(before: Pages, after: Pages, p: Page) {
    p in before.owned && p !in after.owned ==> Cached(before.cache, p) && !Cached(after.cache, p)
  }

  predicate SuffixOf(after: seq<Entry>, before: seq<Entry>) {
    |after| <= |before| && after == before[|before| - |after|..]
  }

  /** The effect of evictions: the oldest retired requests are dropped, and only pages that fell free return. */
  ghost predicate Evicts(before: Pages, after: Pages, freed: nat) {
    && after.tables == before.tables && after.entries == before.entries
    && SuffixOf(after.retired, before.retired)
    && (forall h: Hash :: GoneOk(before, after, h))
    && PagesReturned(before, after, freed)
  }

  /**
   One call of the eviction: the oldest retired requests are dropped up to the first one that frees a page, or all of
   them when none does.
   */
  ghost predicate EvictsOnce(before: Pages, after: Pages) {
    if before.retired == [] then after == before
    else exists mid: Pages, freed: nat ::
        && Evicts(before, mid, 0) && Evicts(mid, after, freed) && |mid.retired| == |after.retired| + 1
        && (freed > 0 || after.retired == [])
  }

  /** Consecutive calls of the eviction. */
  ghost predicate EvictionRun(run: seq<Pages>, was: Pages, now: Pages) {
    && run != [] && run[0] == was && run[|run| - 1] == now
    && forall k :: 0 <= k < |run| - 1 ==> EvictsOnce(run[k], run[k + 1])
  }

  /** Retired requests are evicted behind a finish only as long as there are more than `bound` of them. */
  ghost predicate EvictsForBound(was: Pages, now: Pages, bound: nat) {
    exists run: seq<Pages> ::
      EvictionRun(run, was, now) && forall k :: 0 <= k < |run| - 1 ==> |run[k].retired| > bound
  }

  lemma EvictionRunSnoc(run: seq<Pages>, was: Pages, now: Pages, next: Pages)
    requires EvictionRun(run, was, now) && EvictsOnce(now, next)
    ensures EvictionRun(run + [next], was, next)
  {
    hide EvictsOnce;
    var longer := run + [next];
    forall k | 0 <= k < |longer| - 1
      ensures EvictsOnce(longer[k], longer[k + 1])
    {
      assert k < |run| - 1 ==> EvictsOnce(run[k], run[k + 1]);
    }
  }

  /** What is left after evictions is determined: what a surviving retired request claims or a live table holds. */
  lemma EvictedAre(before: Pages, after: Pages, freed: nat, h: Hash)
    requires Evicts(before, after, freed) && Owned(after) && h in before.cache
    ensures h in after.cache <==> Claimed(after.retired, h) || InTables(after.tables, before.cache[h])
  {
    assert GoneOk(before, after, h) && HashOk(after, h);
  }

  lemma ReturnedTransitive(a: Pages, b: Pages, c: Pages, m: nat, n: nat)
    requires PagesReturned(a, b, m) && PagesReturned(b, c, n)
    ensures PagesReturned(a, c, m + n)
  {
    forall p: Page
      ensures ReturnedOk(a, c, p)
    {
      assert ReturnedOk(a, b, p) && ReturnedOk(b, c, p);
    }
  }

  lemma EvictsTransitive(a: Pages, b: Pages, c: Pages, m: nat, n: nat)
    requires Evicts(a, b, m) && Evicts(b, c, n)
    ensures Evicts(a, c, m + n)
  {
    ReturnedTransitive(a, b, c, m, n);
    forall h: Hash
      ensures GoneOk(a, c, h)
    {
      assert GoneOk(a, b, h) && GoneOk(b, c, h);
    }
  }

  lemma EvictsNothing(g: Pages)
    ensures Evicts(g, g, 0)
  {
  }

  lemma DropEvictsNothing(g: Pages)
    requires g.retired != []
    ensures Evicts(g, g.(retired := g.retired[1..]), 0)
  {
  }

  lemma UnmapEvicts(g: Pages, h: Hash, rest: seq<Hash>)
    requires OwnedBut(g, rest) && h in g.cache && !Claimed(g.retired, h) && !InTables(g.tables, g.cache[h])
    ensures Evicts(g, Unmapped(g, h), 1)
  {
    var v := Unmapped(g, h);
    assert HashOkBut(g, rest, h);
    UnmapKeepsCached(g, h, g.cache[h]);
    assert |g.cache.Keys| == |v.cache.Keys| + 1 by {
      assert v.cache.Keys == g.cache.Keys - {h};
    }
  }

  /** The count table: claims of the retired requests and of the hashes still to be looked at. */
  ghost predicate CountOk(claimed: map<Hash, nat>, retired: seq<Entry>, rest: seq<Hash>, h: Hash) {
    (if h in claimed then claimed[h] else 0) == ClaimCount(retired, h) + Occurrences(rest, h)
  }

  ghost predicate CountsOk(claimed: map<Hash, nat>, retired: seq<Entry>, rest: seq<Hash>) {
    forall h: Hash :: CountOk(claimed, retired, rest, h)
  }

  lemma CountsOfFirst(claimed: map<Hash, nat>, retired: seq<Entry>)
    requires retired != [] && CountsOk(claimed, retired, [])
    ensures CountsOk(claimed, retired[1..], Claims(retired[0]))
  {
    var rest := Claims(retired[0]);
    forall h: Hash
      ensures CountOk(claimed, retired[1..], rest, h)
    {
      assert CountOk(claimed, retired, [], h);
    }
  }

  /** Taking one claim off: the hash is counted, and its count tells whether anything else claims it. */
  lemma CountDown(claimed: map<Hash, nat>, retired: seq<Entry>, h: Hash, rest: seq<Hash>)
    requires CountsOk(claimed, retired, [h] + rest)
    ensures h in claimed && claimed[h] > 0
    ensures CountsOk(claimed[h := claimed[h] - 1], retired, rest)
    ensures claimed[h] == 1 <==> !Claimed(retired, h) && h !in rest
  {
    assert ([h] + rest)[1..] == rest;
    assert CountOk(claimed, retired, [h] + rest, h);
    CountIffClaimed(retired, h);
    OccursIffIn(rest, h);
    var fewer := claimed[h := claimed[h] - 1];
    forall o: Hash
      ensures CountOk(fewer, retired, rest, o)
    {
      assert CountOk(claimed, retired, [h] + rest, o);
    }
  }

  lemma {:induction false} OccurrencesSnoc(hashes: seq<Hash>, x: Hash, h: Hash)
    ensures Occurrences(hashes + [x], h) == Occurrences(hashes, h) + if x == h then 1 else 0
  {
    if hashes != [] {
      assert (hashes + [x])[1..] == hashes[1..] + [x];
      OccurrencesSnoc(hashes[1..], x, h);
    }
  }

  lemma {:induction false} ClaimCountSnoc(retired: seq<Entry>, e: Entry, h: Hash)
    ensures ClaimCount(retired + [e], h) == ClaimCount(retired, h) + Occurrences(Claims(e), h)
  {
    if retired == [] {
      assert [e][1..] == [];
      assert [] + [e] == [e];
    } else {
      assert (retired + [e])[1..] == retired[1..] + [e];
      ClaimCountSnoc(retired[1..], e, h);
    }
  }

  // ----- the pages of a finishing table

  /** The pages given back by the first `n` positions. */
  function ReturnedUpTo(cache: map<Hash, Page>, table: seq<Page>, e: Entry, n: nat): set<Page>
    requires n <= |table|
  {
    set i: nat | i < n && !Resolves(cache, table, e, i) :: table[i]
  }

  lemma ReturnedOnce(g: Pages, s: nat, i: nat)
    requires Owned(g) && s < |g.tables| && i < |g.tables[s]|
    requires !Resolves(g.cache, g.tables[s], g.entries[s], i)
    ensures g.tables[s][i] in g.owned
    ensures g.tables[s][i] !in ReturnedUpTo(g.cache, g.tables[s], g.entries[s], i)
  {
    assert EntryOk(g, s, i);
    forall j: nat | j < i
      ensures g.tables[s][j] != g.tables[s][i]
    {
      assert SharingOk(g, s, i, s, j);
    }
  }

  lemma ReturnedAll(g: Pages, s: nat)
    requires s < |g.tables| == |g.entries|
    ensures g.owned - ReturnedUpTo(g.cache, g.tables[s], g.entries[s], |g.tables[s]|) == Finished(g, s).owned
  {
  }

  // ----- the page allocator

  /** Every page handed out so far is either free or owned. */
  ghost predicate AllocOk(free: seq<Page>, owned: set<Page>, next: nat, numPages: nat) {
    && next <= numPages && Distinct(free)
    && (forall p :: p in free ==> p < next && p !in owned)
    && (forall p :: p in owned ==> p < next)
    && (forall p: Page :: p < next ==> p in free || p in owned)
  }

  lemma AllOwned(owned: set<Page>, next: nat, numPages: nat)
    requires AllocOk([], owned, next, numPages) && next == numPages
    ensures |owned| == numPages
  {
    BoundedSetSize(owned, numPages);
    FullSet(owned, numPages);
  }

  lemma {:induction false} FullSet(s: set<Page>, n: nat)
    requires forall p: Page :: p < n ==> p in s
    ensures |s| >= n
  {
    if n > 0 {
      FullSet(s - {n - 1}, n - 1);
    }
  }

  /** The prompt's pages: as many as `n` tokens need, the full ones among them, and never too many. */
  lemma PageCounts(tokens: nat, perPage: nat, maxPages: nat)
    requires 0 < tokens <= maxPages * perPage && perPage > 0
    ensures tokens / perPage <= (tokens + perPage - 1) / perPage <= maxPages
    ensures 1 <= (tokens + perPage - 1) / perPage
  {
    DivCeilCovers(tokens, perPage);
    DivMono(tokens, tokens + perPage - 1, perPage);
    var q := DivCeil(tokens, perPage);
    LessFromMul(q - 1, maxPages, perPage);
    LessFromMul(0, q, perPage);
  }
}
