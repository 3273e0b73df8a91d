/**
 Retiring finished slots (continuous.rs): the done list is processed from its end, by position at the time,
 while every finish shifts the higher slots down. This retires the listed sequences exactly if the list is
 ascending; the hard-limit pass appends to the list without sorting it.
 */
module Retirement {
  import opened Collections
  import opened EngineSpec

  predicate Ascending(done: seq<nat>) {
    forall i, j :: 0 <= i < j < |done| ==> done[i] < done[j]
  }

  /** The kept and the removed elements when positions are removed from the last of the list to the first. */
  function RemoveAll<T>(s: seq<T>, done: seq<nat>): Option<(seq<T>, seq<T>)>
    decreases |done|
  {
    if done == [] then Some((s, [])) else
      var x := done[|done| - 1];
      if x >= |s| then None else
        match RemoveAll(Without(s, x), done[..|done| - 1])
        case None => None
        case Some((kept, removed)) => Some((kept, [s[x]] + removed))
  }

  function FinishAll(removed: seq<Live>): seq<Finished> {
    seq(|removed|, i requires 0 <= i < |removed| => FinishOf(removed[i]))
  }

  lemma {:induction false} RetireRemoves(active: seq<Live>, finished: seq<Finished>, done: seq<nat>)
    ensures Retire(active, finished, done) ==
            match RemoveAll(active, done)
            case None => None
            case Some((kept, removed)) => Some((kept, finished + FinishAll(removed)))
    decreases |done|
  {
    if done != [] {
      var last := |done| - 1;
      if done[last] < |active| {
        var rest, f := Without(active, done[last]), FinishOf(active[done[last]]);
        RetireRemoves(rest, finished + [f], done[..last]);
        if RemoveAll(rest, done[..last]).Some? {
          var (kept, removed) := RemoveAll(rest, done[..last]).value;
          assert FinishAll([active[done[last]]] + removed) == [f] + FinishAll(removed);
          assert (finished + [f]) + FinishAll(removed) == finished + ([f] + FinishAll(removed));
        }
      }
    } else {
      assert finished + FinishAll([]) == finished;
    }
  }

  function Slots(n: nat): seq<nat> {
    seq(n, i => i)
  }

  /** `removed` holds the elements of `s` at the positions `at`. */
  ghost predicate PickedAt<T>(s: seq<T>, at: seq<nat>, picked: seq<T>) {
    && |picked| == |at|
    && forall k :: 0 <= k < |at| ==> at[k] < |s| && picked[k] == s[at[k]]
  }

  /** The sequences that are retired are the listed ones, each of them once. */
  ghost predicate RetiresExactly(n: nat, done: seq<nat>) {
    var r := RemoveAll(Slots(n), done);
    r.Some? && multiset(r.value.1) == multiset(done)
  }

  // ----- ascending lists retire exactly

  /** The elements of the first `n` positions that are not listed. */
  function Keep<T>(s: seq<T>, done: seq<nat>, n: nat): seq<T>
    requires n <= |s|
  {
    if n == 0 then [] else Keep(s, done, n - 1) + if n - 1 in done then [] else [s[n - 1]]
  }

  function Backwards(done: seq<nat>): seq<nat> {
    if done == [] then [] else [done[|done| - 1]] + Backwards(done[..|done| - 1])
  }

  lemma {:induction false} KeepWithout<T>(s: seq<T>, done: seq<nat>, n: nat)
    requires done != [] && Ascending(done) && done[|done| - 1] < n <= |s|
    ensures Keep(Without(s, done[|done| - 1]), done[..|done| - 1], n - 1) == Keep(s, done, n)
  {
    var last := |done| - 1;
    var x := done[last];
    assert done == done[..last] + [x];
    if n - 1 == x {
      KeepSame(Without(s, x), s, done[..last], done, x);
    } else {
      KeepWithout(s, done, n - 1);
      assert n - 1 !in done;
      assert n - 2 !in done[..last];
    }
  }

  lemma {:induction false} KeepSame<T>(s: seq<T>, t: seq<T>, a: seq<nat>, b: seq<nat>, n: nat)
    requires n <= |s| && n <= |t| && s[..n] == t[..n]
    requires forall i :: 0 <= i < n ==> (i in a <==> i in b)
    ensures Keep(s, a, n) == Keep(t, b, n)
  {
    if n > 0 {
      assert s[..n - 1] == s[..n][..n - 1] && t[..n - 1] == t[..n][..n - 1];
      assert s[n - 1] == s[..n][n - 1] && t[n - 1] == t[..n][n - 1];
      KeepSame(s, t, a, b, n - 1);
    }
  }

  /** An ascending list of valid slots removes exactly the listed positions and keeps the others in order. */
  lemma {:induction false} AscendingRemoves<T>(s: seq<T>, done: seq<nat>)
    requires Ascending(done) && forall i :: 0 <= i < |done| ==> done[i] < |s|
    ensures RemoveAll(s, done).Some?
    ensures RemoveAll(s, done).value.0 == Keep(s, done, |s|)
    ensures PickedAt(s, Backwards(done), RemoveAll(s, done).value.1)
    decreases |done|
  {
    if done == [] {
      KeepAll(s, |s|);
      assert s[..|s|] == s;
    } else {
      var last := |done| - 1;
      AscendingRemoves(Without(s, done[last]), done[..last]);
      KeepWithout(s, done, |s|);
      BackwardsBelow(done[..last], done[last]);
    }
  }

  lemma {:induction false} KeepAll<T>(s: seq<T>, n: nat)
    requires n <= |s|
    ensures Keep(s, [], n) == s[..n]
  {
    if n > 0 {
      KeepAll(s, n - 1);
    }
  }

  lemma {:induction false} BackwardsBelow(done: seq<nat>, bound: nat)
    requires forall i :: 0 <= i < |done| ==> done[i] < bound
    ensures forall i :: 0 <= i < |Backwards(done)| ==> Backwards(done)[i] < bound
  {
    if done != [] {
      BackwardsBelow(done[..|done| - 1], bound);
    }
  }

  lemma {:induction false} BackwardsSame(done: seq<nat>)
    ensures multiset(Backwards(done)) == multiset(done) && |Backwards(done)| == |done|
    ensures Sum(Backwards(done)) == Sum(done)
  {
    if done != [] {
      var last := |done| - 1;
      BackwardsSame(done[..last]);
      assert done == done[..last] + [done[last]];
      SumSnoc(done[..last], done[last]);
    }
  }

  // ----- only ascending lists do

  /** A list of slot numbers after removals: ascending, and never below its positions. */
  predicate Shifted(slots: seq<nat>) {
    && (forall p :: 0 <= p < |slots| ==> slots[p] >= p)
    && Ascending(slots)
  }

  /** Whatever is removed at a position has a slot number at least that position. */
  lemma {:induction false} RemovedAtLeast(slots: seq<nat>, done: seq<nat>)
    requires Shifted(slots) && RemoveAll(slots, done).Some?
    ensures |RemoveAll(slots, done).value.1| == |Backwards(done)| == |done|
    ensures forall k :: 0 <= k < |done| ==> RemoveAll(slots, done).value.1[k] >= Backwards(done)[k]
    decreases |done|
  {
    if done != [] {
      var x := done[|done| - 1];
      RemovedAtLeast(Without(slots, x), done[..|done| - 1]);
    }
  }

  /** If every removal hits the slot number it names, the list was ascending. */
  lemma {:induction false} UnshiftedIsAscending(slots: seq<nat>, done: seq<nat>)
    requires Shifted(slots) && RemoveAll(slots, done).Some?
    requires RemoveAll(slots, done).value.1 == Backwards(done)
    ensures Ascending(done)
    decreases |done|
  {
    if done != [] {
      var last := |done| - 1;
      var x, rest := done[last], Without(slots, done[last]);
      var (kept, removed) := RemoveAll(rest, done[..last]).value;
      assert ([slots[x]] + removed)[1..] == removed && Backwards(done)[1..] == Backwards(done[..last]);
      UnshiftedIsAscending(rest, done[..last]);
      if last > 0 {
        var y := done[last - 1];
        assert done[..last][last - 1] == y;
        assert removed[0] == rest[y] && Backwards(done[..last])[0] == y;
        assert y < x;
      }
      assert forall i :: 0 <= i < last ==> done[..last][i] == done[i];
    }
  }

  lemma {:induction false} SumOfSame(a: seq<nat>, b: seq<nat>)
    requires multiset(a) == multiset(b)
    ensures Sum(a) == Sum(b)
    decreases |a|
  {
    if a == [] {
      assert |multiset(b)| == 0;
    } else {
      var i := Matching(a, b);
      SumOfSame(a[1..], Without(b, i));
      SumMiddle(b, i);
    }
  }

  /** The first element of `a` is somewhere in `b`, and the others match the others. */
  lemma Matching(a: seq<nat>, b: seq<nat>) returns (i: nat)
    requires a != [] && multiset(a) == multiset(b)
    ensures i < |b| && b[i] == a[0] && multiset(a[1..]) == multiset(Without(b, i))
  {
    assert a[0] in multiset(b);
    i :| 0 <= i < |b| && b[i] == a[0];
    assert a == [a[0]] + a[1..];
    assert b == b[..i] + [b[i]] + b[i + 1..];
    assert multiset(Without(b, i)) == multiset(b) - multiset{b[i]};
    assert multiset(a[1..]) == multiset(a) - multiset{a[0]};
  }

  lemma {:induction false} SumMiddle(b: seq<nat>, i: nat)
    requires i < |b|
    ensures Sum(b) == b[i] + Sum(Without(b, i))
  {
    if i == 0 {
      assert b[..0] + b[1..] == b[1..];
    } else {
      SumMiddle(b[1..], i - 1);
      assert (b[..i] + b[i + 1..])[1..] == b[1..][..i - 1] + b[1..][i..];
    }
  }

  lemma {:induction false} EqualSums(a: seq<nat>, b: seq<nat>)
    requires |a| == |b| && (forall k :: 0 <= k < |a| ==> a[k] >= b[k])
    ensures Sum(a) >= Sum(b)
    ensures Sum(a) == Sum(b) ==> a == b
  {
    if a != [] {
      EqualSums(a[1..], b[1..]);
      assert a == [a[0]] + a[1..] && b == [b[0]] + b[1..];
    }
  }

  /**
   Retiring in reverse list order is exact if and only if the list is ascending. Otherwise a finish has
   shifted a listed sequence away before its turn: another one is finished in its place, or the engine panics.
   */
  lemma RetirementIsExactIffAscending(n: nat, done: seq<nat>)
    requires forall i :: 0 <= i < |done| ==> done[i] < n
    ensures RetiresExactly(n, done) <==> Ascending(done)
  {
    var r := RemoveAll(Slots(n), done);
    BackwardsSame(done);
    if Ascending(done) {
      AscendingRemoves(Slots(n), done);
      BackwardsBelow(done, n);
      assert r.value.1 == Backwards(done);
    }
    if RetiresExactly(n, done) {
      RemovedAtLeast(Slots(n), done);
      SumOfSame(r.value.1, done);
      EqualSums(r.value.1, Backwards(done));
      UnshiftedIsAscending(Slots(n), done);
    }
  }

  // ----- when the done list of a step is ascending

  /** No sequence at the context limit sits below one that a finish rule stops in the same step. */
  ghost predicate LimitsAboveStops(lim: Limits, before: seq<Live>, takes: seq<nat>, after: seq<Live>)
    requires |takes| == |before| == |after|
  {
    forall i, j :: 0 <= i < |after| && 0 <= j < |after| ==> LimitAbove(lim, before, takes, after, i, j)
  }

  predicate LimitAbove(lim: Limits, before: seq<Live>, takes: seq<nat>, after: seq<Live>, i: nat, j: nat)
    requires |takes| == |before| == |after| && i < |after| && j < |after|
  {
    && AtLimit(lim, after[i]) && !DoneByRule(before[i], takes[i], after[i])
    && DoneByRule(before[j], takes[j], after[j])
    ==> j < i
  }

  lemma {:induction false} RuleSlotsAre(before: seq<Live>, takes: seq<nat>, after: seq<Live>, n: nat)
    requires |takes| == |before| == |after| && n <= |before|
    ensures Ascending(RuleSlots(before, takes, after, n))
    ensures forall i: nat :: i in RuleSlots(before, takes, after, n) <==>
                               i < n && DoneByRule(before[i], takes[i], after[i])
  {
    if n > 0 {
      RuleSlotsAre(before, takes, after, n - 1);
      AscendingSnoc(RuleSlots(before, takes, after, n - 1), n - 1);
    }
  }

  lemma {:induction false} LimitSlotsAre(lim: Limits, after: seq<Live>, done: seq<nat>, n: nat)
    requires n <= |after|
    ensures Ascending(LimitSlots(lim, after, done, n))
    ensures forall i: nat :: i in LimitSlots(lim, after, done, n) <==> i < n && AtLimit(lim, after[i]) && i !in done
  {
    if n > 0 {
      LimitSlotsAre(lim, after, done, n - 1);
      AscendingSnoc(LimitSlots(lim, after, done, n - 1), n - 1);
    }
  }

  lemma AscendingSnoc(s: seq<nat>, x: nat)
    requires Ascending(s) && forall y :: y in s ==> y < x
    ensures Ascending(s + [x])
  {
    assert forall i :: 0 <= i < |s| ==> s[i] in s;
  }

  /** The done list holds the slots that a rule finishes and those at the limit, and nothing else. */
  lemma DoneSlotsAre(lim: Limits, before: seq<Live>, takes: seq<nat>, after: seq<Live>)
    requires |takes| == |before| == |after|
    ensures forall i: nat :: i in DoneSlots(lim, before, takes, after) <==>
              i < |after| && (DoneByRule(before[i], takes[i], after[i]) || AtLimit(lim, after[i]))
    ensures forall i :: 0 <= i < |DoneSlots(lim, before, takes, after)| ==>
              DoneSlots(lim, before, takes, after)[i] < |after|
  {
    var rule := RuleSlots(before, takes, after, |before|);
    RuleSlotsAre(before, takes, after, |before|);
    LimitSlotsAre(lim, after, rule, |after|);
    var done := DoneSlots(lim, before, takes, after);
    assert forall i :: 0 <= i < |done| ==> done[i] in done;
  }

  /** The done list is ascending exactly when no limited sequence sits below a stopped one. */
  lemma DoneAscendingIff(lim: Limits, before: seq<Live>, takes: seq<nat>, after: seq<Live>)
    requires |takes| == |before| == |after|
    ensures Ascending(DoneSlots(lim, before, takes, after)) <==> LimitsAboveStops(lim, before, takes, after)
  {
    var rule := RuleSlots(before, takes, after, |before|);
    var limit := LimitSlots(lim, after, rule, |after|);
    RuleSlotsAre(before, takes, after, |before|);
    LimitSlotsAre(lim, after, rule, |after|);
    if Ascending(rule + limit) {
      forall i, j | 0 <= i < |after| && 0 <= j < |after|
        ensures LimitAbove(lim, before, takes, after, i, j)
      {
        if i in limit && j in rule {
          var a :| 0 <= a < |rule| && rule[a] == j;
          var b :| 0 <= b < |limit| && limit[b] == i;
          assert (rule + limit)[a] == j && (rule + limit)[|rule| + b] == i;
        }
      }
    }
    if LimitsAboveStops(lim, before, takes, after) {
      forall a, b | 0 <= a < |rule| && 0 <= b < |limit|
        ensures rule[a] < limit[b]
      {
        assert rule[a] in rule && limit[b] in limit;
        assert LimitAbove(lim, before, takes, after, limit[b], rule[a]);
      }
    }
  }
}
