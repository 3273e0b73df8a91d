/**
 Page ownership of the paged key/value mode (continuous.rs, paged_kv.rs): who may hold a physical page, and why
 admission, registration, retirement and eviction keep that. A page is allocated exactly while the content cache
 or a live block table holds it, and two table entries share a page only through the cache.
 */
module PagedOwnership {
  import opened Arithmetic
  import opened Collections

  type Page = nat
  type Hash(==, !new)

  /** A request's content hashes, one a prompt page; the first `full` belong to full pages. */
  datatype Entry = Entry(chain: seq<Hash>, full: nat)

  /** The hashes that a request may register. */
  function Claims(e: Entry): seq<Hash> {
    if e.full <= |e.chain| then e.chain[..e.full] else e.chain
  }

  predicate Claimed(retired: seq<Entry>, h: Hash) {
    exists k :: 0 <= k < |retired| && h in Claims(retired[k])
  }

  predicate Cached(cache: map<Hash, Page>, p: Page) {
    exists h :: h in cache && cache[h] == p
  }

  predicate InTables(tables: seq<seq<Page>>, p: Page) {
    exists s, i :: 0 <= s < |tables| && 0 <= i < |tables[s]| && tables[s][i] == p
  }

  /** The page at position `i` of a table is the registered page of its content. */
  predicate Resolves(cache: map<Hash, Page>, table: seq<Page>, e: Entry, i: nat) {
    i < |table| && i < |e.chain| && e.chain[i] in cache && cache[e.chain[i]] == table[i]
  }

  // ----- the ownership invariant

  datatype Pages = Pages(owned: set<Page>, cache: map<Hash, Page>, tables: seq<seq<Page>>, entries: seq<Entry>,
                         retired: seq<Entry>)

  /** Registered pages are allocated, and no two hashes share one. */
  ghost predicate HashOk(g: Pages, h: Hash) {
    h in g.cache ==>
      && g.cache[h] in g.owned
      && (forall o :: o in g.cache && g.cache[o] == g.cache[h] ==> o == h)
      && (Claimed(g.retired, h) || InTables(g.tables, g.cache[h]))
  }

  /** A table entry is allocated; if its page is registered, then as that entry's own full-page content. */
  ghost predicate EntryOk(g: Pages, s: nat, i: nat)
    requires |g.entries| == |g.tables|
  {
    s < |g.tables| && i < |g.tables[s]| ==>
      && g.tables[s][i] in g.owned
      && (Cached(g.cache, g.tables[s][i]) ==> i < g.entries[s].full && Resolves(g.cache, g.tables[s], g.entries[s], i))
  }

  /** Two table entries hold the same page only if it is registered. */
  ghost predicate SharingOk(g: Pages, s: nat, i: nat, t: nat, j: nat) {
    s < |g.tables| && i < |g.tables[s]| && t < |g.tables| && j < |g.tables[t]| && g.tables[s][i] == g.tables[t][j] ==>
      (s == t && i == j) || Cached(g.cache, g.tables[s][i])
  }

  /** No page is lost. */
  ghost predicate PageOk(g: Pages, p: Page) {
    p in g.owned ==> Cached(g.cache, p) || InTables(g.tables, p)
  }

  ghost predicate RetiredOk(e: Entry) {
    0 < e.full <= |e.chain|
  }

  ghost predicate Owned(g: Pages) {
    && |g.entries| == |g.tables|
    && (forall h: Hash :: HashOk(g, h))
    && (forall s: nat, i: nat :: EntryOk(g, s, i))
    && (forall s: nat, i: nat, t: nat, j: nat :: SharingOk(g, s, i, t, j))
    && (forall p: Page :: PageOk(g, p))
    && (forall s :: 0 <= s < |g.entries| ==> g.entries[s].full <= |g.entries[s].chain|)
    && (forall k :: 0 <= k < |g.retired| ==> RetiredOk(g.retired[k]))
  }

  // ----- what the invariant means for the requests

  /** Two requests that share a page have it for the same content, and only for a full prompt page. */
  lemma SharedPagesAgree(g: Pages, s: nat, i: nat, t: nat, j: nat)
    requires Owned(g) && s < |g.tables| && i < |g.tables[s]| && t < |g.tables| && j < |g.tables[t]|
    requires g.tables[s][i] == g.tables[t][j] && (s != t || i != j)
    ensures i < g.entries[s].full && j < g.entries[t].full
    ensures g.entries[s].chain[i] == g.entries[t].chain[j]
  {
    assert SharingOk(g, s, i, t, j);
    assert EntryOk(g, s, i) && EntryOk(g, t, j);
    assert HashOk(g, g.entries[s].chain[i]);
  }

  /** The pages that decoding writes, past the full prompt pages, are private and unregistered. */
  lemma DecodePagesArePrivate(g: Pages, s: nat, i: nat, t: nat, j: nat)
    requires Owned(g) && s < |g.tables| && g.entries[s].full <= i < |g.tables[s]|
    ensures !Cached(g.cache, g.tables[s][i])
    ensures t < |g.tables| && j < |g.tables[t]| && g.tables[t][j] == g.tables[s][i] ==> s == t && i == j
  {
    assert EntryOk(g, s, i) && SharingOk(g, s, i, t, j);
  }

  function TablePages(tables: seq<seq<Page>>): (r: set<Page>)
    ensures forall p :: p in r <==> InTables(tables, p)
  {
    set s, i | 0 <= s < |tables| && 0 <= i < |tables[s]| :: tables[s][i]
  }

  lemma TablePagesSnoc(tables: seq<seq<Page>>, table: seq<Page>)
    ensures TablePages(tables + [table]) == TablePages(tables) + ToSet(table)
  {
    forall p: Page
      ensures p in TablePages(tables + [table]) <==> p in TablePages(tables) || p in ToSet(table)
    {
      InTablesMore(tables, table, p);
    }
  }

  /** Live tables cannot hold more pages than they have entries. */
  lemma {:induction false} TablePagesBound(tables: seq<seq<Page>>, len: nat)
    requires forall s :: 0 <= s < |tables| ==> |tables[s]| <= len
    ensures |TablePages(tables)| <= |tables| * len
  {
    if tables == [] {
      assert TablePages(tables) == {};
    } else {
      var n := |tables| - 1;
      var front := tables[..n];
      assert tables == front + [tables[n]];
      TablePagesBound(front, len);
      TablePagesSnoc(front, tables[n]);
      ToSetSize(tables[n]);
      Distribute(n, 1, len);
    }
  }

  /** With nothing left to evict, only live tables hold pages. */
  lemma DrainedIsLive(g: Pages, len: nat)
    requires Owned(g) && g.retired == [] && forall s :: 0 <= s < |g.tables| ==> |g.tables[s]| <= len
    ensures g.owned <= TablePages(g.tables) && |g.owned| <= |g.tables| * len
  {
    forall p | p in g.owned
      ensures InTables(g.tables, p)
    {
      assert PageOk(g, p);
      if Cached(g.cache, p) {
        var h :| h in g.cache && g.cache[h] == p;
        assert HashOk(g, h);
      }
    }
    SubsetSize(g.owned, TablePages(g.tables));
    TablePagesBound(g.tables, len);
  }

  // ----- admission

  /** A plan: the leading run of registered full pages, exactly, then distinct fresh ones. */
  ghost predicate PlanOk(g: Pages, e: Entry, table: seq<Page>, reused: nat) {
    && reused <= |table| && reused <= e.full <= |e.chain|
    && (forall i :: 0 <= i < reused ==> Resolves(g.cache, table, e, i))
    && (reused < e.full ==> e.chain[reused] !in g.cache)
    && Distinct(table[reused..])
    && (forall p :: p in table[reused..] ==> p !in g.owned)
  }

  function Installed(g: Pages, e: Entry, table: seq<Page>, reused: nat): Pages
    requires reused <= |table|
  {
    g.(owned := g.owned + ToSet(table[reused..]), tables := g.tables + [table], entries := g.entries + [e])
  }

  lemma HolderOwns(g: Pages, p: Page)
    requires Owned(g)
    ensures Cached(g.cache, p) || InTables(g.tables, p) ==> p in g.owned
  {
    if Cached(g.cache, p) {
      var h :| h in g.cache && g.cache[h] == p;
      assert HashOk(g, h);
    }
    if InTables(g.tables, p) {
      var s, i :| 0 <= s < |g.tables| && 0 <= i < |g.tables[s]| && g.tables[s][i] == p;
      assert EntryOk(g, s, i);
    }
  }

  lemma FreshIsFree(g: Pages, e: Entry, table: seq<Page>, reused: nat, i: nat)
    requires Owned(g) && PlanOk(g, e, table, reused) && reused <= i < |table|
    ensures table[i] in ToSet(table[reused..]) && table[i] !in g.owned
    ensures !Cached(g.cache, table[i]) && !InTables(g.tables, table[i])
    ensures forall j :: reused <= j < |table| && table[j] == table[i] ==> i == j
  {
    assert table[reused..][i - reused] == table[i];
    HolderOwns(g, table[i]);
    forall j | reused <= j < |table| && table[j] == table[i]
      ensures i == j
    {
      assert table[reused..][j - reused] == table[j];
    }
  }

  lemma InstallKeepsEntry(g: Pages, e: Entry, table: seq<Page>, reused: nat, s: nat, i: nat)
    requires Owned(g) && PlanOk(g, e, table, reused)
    ensures EntryOk(Installed(g, e, table, reused), s, i)
  {
    var v := Installed(g, e, table, reused);
    assert EntryOk(g, s, i);
    if s == |g.tables| && i < |table| {
      if i < reused {
        assert Resolves(g.cache, table, e, i) && HashOk(g, e.chain[i]);
      } else {
        FreshIsFree(g, e, table, reused, i);
      }
    }
  }

  lemma InstallKeepsSharing(g: Pages, e: Entry, table: seq<Page>, reused: nat, s: nat, i: nat, t: nat, j: nat)
    requires Owned(g) && PlanOk(g, e, table, reused)
    ensures SharingOk(Installed(g, e, table, reused), s, i, t, j)
  {
    var v, n := Installed(g, e, table, reused), |g.tables|;
    assert SharingOk(g, s, i, t, j);
    if s == n && i < |table| {
      if i < reused {
        assert Resolves(g.cache, table, e, i);
      } else {
        FreshIsFree(g, e, table, reused, i);
        assert t < n && j < |g.tables[t]| ==> g.tables[t][j] != table[i];
        assert t == n && j < reused ==> Resolves(g.cache, table, e, j);
      }
    }
    if t == n && j < |table| {
      if j < reused {
        assert Resolves(g.cache, table, e, j);
      } else {
        FreshIsFree(g, e, table, reused, j);
        assert s < n && i < |g.tables[s]| ==> g.tables[s][i] != table[j];
      }
    }
  }

  lemma InTablesMore(tables: seq<seq<Page>>, table: seq<Page>, p: Page)
    ensures InTables(tables + [table], p) <==> InTables(tables, p) || p in table
  {
    var more := tables + [table];
    if InTables(tables, p) {
      var s, i :| 0 <= s < |tables| && 0 <= i < |tables[s]| && tables[s][i] == p;
      assert more[s][i] == p;
    }
    if p in table {
      var i :| 0 <= i < |table| && table[i] == p;
      assert more[|tables|][i] == p;
    }
  }

  /** Admitting a planned request keeps the invariant. */
  lemma InstallKeepsOwned(g: Pages, e: Entry, table: seq<Page>, reused: nat)
    requires Owned(g) && PlanOk(g, e, table, reused)
    ensures Owned(Installed(g, e, table, reused))
  {
    var v := Installed(g, e, table, reused);
    forall h: Hash
      ensures HashOk(v, h)
    {
      assert HashOk(g, h);
      if h in g.cache {
        InTablesMore(g.tables, table, g.cache[h]);
      }
    }
    forall s: nat, i: nat
      ensures EntryOk(v, s, i)
    {
      InstallKeepsEntry(g, e, table, reused, s, i);
    }
    forall s: nat, i: nat, t: nat, j: nat
      ensures SharingOk(v, s, i, t, j)
    {
      InstallKeepsSharing(g, e, table, reused, s, i, t, j);
    }
    forall p: Page
      ensures PageOk(v, p)
    {
      assert PageOk(g, p);
      InTablesMore(g.tables, table, p);
    }
  }

  // ----- registration

  /** Registering the content of one full page, unless its hash is registered already. */
  function RegisterOne(g: Pages, s: nat, i: nat): Pages
    requires s < |g.tables| == |g.entries| && i < |g.tables[s]| && i < |g.entries[s].chain|
  {
    var h := g.entries[s].chain[i];
    if h in g.cache then g else g.(cache := g.cache[h := g.tables[s][i]])
  }

  lemma CachedMore(cache: map<Hash, Page>, h: Hash, p: Page, q: Page)
    requires h !in cache
    ensures Cached(cache[h := p], q) <==> Cached(cache, q) || q == p
  {
    var more := cache[h := p];
    if Cached(cache, q) {
      var o :| o in cache && cache[o] == q;
      assert more[o] == q;
    }
    assert more[h] == p;
  }

  lemma RegisterKeepsOwned(g: Pages, s: nat, i: nat)
    requires Owned(g) && s < |g.tables| && i < |g.tables[s]| && i < g.entries[s].full
    ensures Owned(RegisterOne(g, s, i))
  {
    var v, h, p := RegisterOne(g, s, i), g.entries[s].chain[i], g.tables[s][i];
    assert EntryOk(g, s, i);
    if h !in g.cache {
      assert !Cached(g.cache, p);
      forall o: Hash
        ensures HashOk(v, o)
      {
        assert HashOk(g, o);
        assert InTables(g.tables, p);
        assert forall x :: x in g.cache ==> Cached(g.cache, g.cache[x]);
      }
      forall t: nat, j: nat
        ensures EntryOk(v, t, j)
      {
        assert EntryOk(g, t, j) && SharingOk(g, s, i, t, j);
        if t < |g.tables| && j < |g.tables[t]| {
          CachedMore(g.cache, h, p, g.tables[t][j]);
        }
      }
      forall a: nat, b: nat, t: nat, j: nat
        ensures SharingOk(v, a, b, t, j)
      {
        assert SharingOk(g, a, b, t, j);
        if a < |g.tables| && b < |g.tables[a]| {
          CachedMore(g.cache, h, p, g.tables[a][b]);
        }
      }
      forall q: Page
        ensures PageOk(v, q)
      {
        assert PageOk(g, q);
        CachedMore(g.cache, h, p, q);
      }
    }
  }

  // ----- retirement

  /** A finishing table gives back the pages that do not resolve: pads, partial pages, lost races. */
  predicate Returned(cache: map<Hash, Page>, table: seq<Page>, e: Entry, p: Page) {
    exists i: nat :: i < |table| && table[i] == p && !Resolves(cache, table, e, i)
  }

  function Finished(g: Pages, s: nat): Pages
    requires s < |g.tables| == |g.entries|
  {
    var e := g.entries[s];
    var kept := (set p | p in g.owned && !Returned(g.cache, g.tables[s], e, p));
    Pages(kept, g.cache, Without(g.tables, s), Without(g.entries, s),
          if e.full > 0 then g.retired + [e] else g.retired)
  }

  /** A page that is given back has no other holder. */
  lemma ReturnedIsPrivate(g: Pages, s: nat, p: Page)
    requires Owned(g) && s < |g.tables| && Returned(g.cache, g.tables[s], g.entries[s], p)
    ensures p in g.owned && !Cached(g.cache, p)
    ensures forall t: nat, j: nat :: t < |g.tables| && j < |g.tables[t]| && g.tables[t][j] == p ==> t == s
  {
    var i: nat :| i < |g.tables[s]| && g.tables[s][i] == p && !Resolves(g.cache, g.tables[s], g.entries[s], i);
    assert EntryOk(g, s, i);
    forall t: nat, j: nat | t < |g.tables| && j < |g.tables[t]| && g.tables[t][j] == p
      ensures t == s
    {
      assert SharingOk(g, s, i, t, j);
    }
  }

  /** A table entry that is kept is registered under one of the hashes that the entry claims. */
  lemma KeptIsClaimed(g: Pages, s: nat, i: nat)
    requires Owned(g) && s < |g.tables| && i < |g.tables[s]| && Cached(g.cache, g.tables[s][i])
    ensures i < g.entries[s].full && g.entries[s].chain[i] in g.cache
    ensures g.cache[g.entries[s].chain[i]] == g.tables[s][i]
    ensures g.entries[s].chain[i] in Claims(g.entries[s])
  {
    assert EntryOk(g, s, i);
    assert Claims(g.entries[s])[i] == g.entries[s].chain[i];
  }

  lemma FinishKeepsHash(g: Pages, s: nat, h: Hash)
    requires Owned(g) && s < |g.tables|
    ensures HashOk(Finished(g, s), h)
  {
    var v, e := Finished(g, s), g.entries[s];
    assert HashOk(g, h);
    if h in g.cache {
      var p := g.cache[h];
      assert Cached(g.cache, p);
      if Returned(g.cache, g.tables[s], e, p) {
        ReturnedIsPrivate(g, s, p);
      }
      if Claimed(g.retired, h) {
        var k :| 0 <= k < |g.retired| && h in Claims(g.retired[k]);
        assert v.retired[k] == g.retired[k];
      } else {
        var t, j :| 0 <= t < |g.tables| && 0 <= j < |g.tables[t]| && g.tables[t][j] == p;
        if t == s {
          KeptIsClaimed(g, s, j);
          assert v.retired[|g.retired|] == e;
        } else {
          assert v.tables[if t < s then t else t - 1] == g.tables[t];
        }
      }
    }
  }

  lemma FinishKeepsPage(g: Pages, s: nat, p: Page)
    requires Owned(g) && s < |g.tables|
    ensures PageOk(Finished(g, s), p)
  {
    var v := Finished(g, s);
    assert PageOk(g, p);
    if p in v.owned && !Cached(g.cache, p) {
      var t, j :| 0 <= t < |g.tables| && 0 <= j < |g.tables[t]| && g.tables[t][j] == p;
      assert v.tables[if t < s then t else t - 1] == g.tables[t];
    }
  }

  /** Retirement keeps the invariant: nothing is lost, and nothing live is given back. */
  lemma FinishKeepsOwned(g: Pages, s: nat)
    requires Owned(g) && s < |g.tables|
    ensures Owned(Finished(g, s))
  {
    var v := Finished(g, s);
    forall h: Hash
      ensures HashOk(v, h)
    {
      FinishKeepsHash(g, s, h);
    }
    forall t: nat, i: nat
      ensures EntryOk(v, t, i)
    {
      var a: nat := if t < s then t else t + 1;
      assert EntryOk(g, a, i);
      if t < |v.tables| && i < |v.tables[t]| {
        assert v.tables[t] == g.tables[a] && v.entries[t] == g.entries[a];
        if Returned(g.cache, g.tables[s], g.entries[s], g.tables[a][i]) {
          ReturnedIsPrivate(g, s, g.tables[a][i]);
        }
      }
    }
    forall t: nat, i: nat, u: nat, j: nat
      ensures SharingOk(v, t, i, u, j)
    {
      var a: nat, b: nat := if t < s then t else t + 1, if u < s then u else u + 1;
      assert SharingOk(g, a, i, b, j);
    }
    forall p: Page
      ensures PageOk(v, p)
    {
      FinishKeepsPage(g, s, p);
    }
  }

  // ----- eviction

  /** How often a hash is claimed in a list of hashes. */
  function Occurrences(hashes: seq<Hash>, h: Hash): nat {
    if hashes == [] then 0 else (if hashes[0] == h then 1 else 0) + Occurrences(hashes[1..], h)
  }

  function ClaimCount(retired: seq<Entry>, h: Hash): nat {
    if retired == [] then 0 else Occurrences(Claims(retired[0]), h) + ClaimCount(retired[1..], h)
  }

  lemma {:induction false} OccursIffIn(hashes: seq<Hash>, h: Hash)
    ensures Occurrences(hashes, h) > 0 <==> h in hashes
  {
    if hashes != [] {
      OccursIffIn(hashes[1..], h);
      assert hashes == [hashes[0]] + hashes[1..];
    }
  }

  lemma {:induction false} CountIffClaimed(retired: seq<Entry>, h: Hash)
    ensures ClaimCount(retired, h) > 0 <==> Claimed(retired, h)
  {
    if retired != [] {
      CountIffClaimed(retired[1..], h);
      OccursIffIn(Claims(retired[0]), h);
      if Claimed(retired, h) {
        var k :| 0 <= k < |retired| && h in Claims(retired[k]);
        assert k > 0 ==> retired[1..][k - 1] == retired[k];
      }
      if Claimed(retired[1..], h) {
        var k :| 0 <= k < |retired[1..]| && h in Claims(retired[1..][k]);
        assert retired[k + 1] == retired[1..][k];
      }
    }
  }

  /** While the hashes `rest` of a removed entry are still to be looked at, they count as claimed. */
  ghost predicate HashOkBut(g: Pages, rest: seq<Hash>, h: Hash) {
    h in g.cache ==>
      && g.cache[h] in g.owned
      && (forall o :: o in g.cache && g.cache[o] == g.cache[h] ==> o == h)
      && (Claimed(g.retired, h) || h in rest || InTables(g.tables, g.cache[h]))
  }

  ghost predicate OwnedBut(g: Pages, rest: seq<Hash>) {
    && |g.entries| == |g.tables|
    && (forall h: Hash :: HashOkBut(g, rest, h))
    && (forall s: nat, i: nat :: EntryOk(g, s, i))
    && (forall s: nat, i: nat, t: nat, j: nat :: SharingOk(g, s, i, t, j))
    && (forall p: Page :: PageOk(g, p))
    && (forall s :: 0 <= s < |g.entries| ==> g.entries[s].full <= |g.entries[s].chain|)
    && (forall k :: 0 <= k < |g.retired| ==> RetiredOk(g.retired[k]))
  }

  lemma RemoveEntry(g: Pages)
    requires Owned(g) && g.retired != []
    ensures OwnedBut(g.(retired := g.retired[1..]), Claims(g.retired[0]))
  {
    var v := g.(retired := g.retired[1..]);
    forall h: Hash
      ensures HashOkBut(v, Claims(g.retired[0]), h)
    {
      assert HashOk(g, h);
      if Claimed(g.retired, h) && h !in Claims(g.retired[0]) {
        var k :| 0 <= k < |g.retired| && h in Claims(g.retired[k]);
        assert g.retired[1..][k - 1] == g.retired[k];
      }
    }
    SameTables(g, v);
  }

  /** Facts about tables and pages do not depend on the retired entries. */
  lemma SameTables(g: Pages, v: Pages)
    requires v.owned == g.owned && v.cache == g.cache && v.tables == g.tables && v.entries == g.entries
    requires |g.entries| == |g.tables|
    ensures (forall s: nat, i: nat :: EntryOk(g, s, i)) ==> forall s: nat, i: nat :: EntryOk(v, s, i)
    ensures (forall s: nat, i: nat, t: nat, j: nat :: SharingOk(g, s, i, t, j)) ==>
              forall s: nat, i: nat, t: nat, j: nat :: SharingOk(v, s, i, t, j)
    ensures (forall p: Page :: PageOk(g, p)) ==> forall p: Page :: PageOk(v, p)
  {
    if forall s: nat, i: nat :: EntryOk(g, s, i) {
      forall s: nat, i: nat
        ensures EntryOk(v, s, i)
      {
        assert EntryOk(g, s, i);
      }
    }
    if forall s: nat, i: nat, t: nat, j: nat :: SharingOk(g, s, i, t, j) {
      forall s: nat, i: nat, t: nat, j: nat
        ensures SharingOk(v, s, i, t, j)
      {
        assert SharingOk(g, s, i, t, j);
      }
    }
    if forall p: Page :: PageOk(g, p) {
      forall p: Page
        ensures PageOk(v, p)
      {
        assert PageOk(g, p);
      }
    }
  }

  lemma NothingRests(g: Pages)
    requires OwnedBut(g, [])
    ensures Owned(g)
  {
    forall h: Hash
      ensures HashOk(g, h)
    {
      assert HashOkBut(g, [], h);
    }
  }

  function Unmapped(g: Pages, h: Hash): Pages
    requires h in g.cache
  {
    g.(owned := g.owned - {g.cache[h]}, cache := g.cache - {h})
  }

  /** A hash that is kept needs no further look: claimed by a later entry, or held by a live table, or unmapped. */
  lemma SkipKeepsOwned(g: Pages, h: Hash, rest: seq<Hash>)
    requires OwnedBut(g, [h] + rest)
    requires h in g.cache ==> Claimed(g.retired, h) || h in rest || InTables(g.tables, g.cache[h])
    ensures OwnedBut(g, rest)
  {
    forall o: Hash
      ensures HashOkBut(g, rest, o)
    {
      assert HashOkBut(g, [h] + rest, o);
    }
  }

  lemma UnmapKeepsCached(g: Pages, h: Hash, p: Page)
    requires h in g.cache && forall o :: o in g.cache && g.cache[o] == g.cache[h] ==> o == h
    ensures Cached((g.cache - {h}), p) <==> Cached(g.cache, p) && p != g.cache[h]
  {
    if Cached(g.cache, p) && p != g.cache[h] {
      var o :| o in g.cache && g.cache[o] == p;
      assert o in g.cache - {h};
    }
  }

  /** Evicting a hash that nothing claims and whose page no live table holds. */
  lemma UnmapKeepsOwned(g: Pages, h: Hash, rest: seq<Hash>)
    requires OwnedBut(g, [h] + rest) && h in g.cache && !InTables(g.tables, g.cache[h])
    ensures OwnedBut(Unmapped(g, h), rest)
  {
    var v, p := Unmapped(g, h), g.cache[h];
    assert HashOkBut(g, [h] + rest, h);
    forall o: Hash
      ensures HashOkBut(v, rest, o)
    {
      assert HashOkBut(g, [h] + rest, o);
    }
    forall s: nat, i: nat
      ensures EntryOk(v, s, i)
    {
      assert EntryOk(g, s, i);
      if s < |g.tables| && i < |g.tables[s]| {
        assert InTables(g.tables, g.tables[s][i]);
        UnmapKeepsCached(g, h, g.tables[s][i]);
      }
    }
    forall s: nat, i: nat, t: nat, j: nat
      ensures SharingOk(v, s, i, t, j)
    {
      assert SharingOk(g, s, i, t, j);
      if s < |g.tables| && i < |g.tables[s]| {
        assert InTables(g.tables, g.tables[s][i]);
        UnmapKeepsCached(g, h, g.tables[s][i]);
      }
    }
    forall q: Page
      ensures PageOk(v, q)
    {
      assert PageOk(g, q);
      UnmapKeepsCached(g, h, q);
    }
  }
}
