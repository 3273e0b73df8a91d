/**
 When sequences finish (continuous.rs): under ascending done lists every sequence stops exactly where its
 request alone would, the engine drains, and a step without that condition can finish the wrong sequence or panic.
 */
module EngineCompletion {
  import opened Collections
  import opened Tokens
  import opened Batched
  import opened EngineSpec
  import opened Retirement
  import opened EngineRuns

  // ----- finishing exactly where the request alone stops

  /** No stop condition has held so far. */
  ghost predicate NotDoneBefore(lim: Limits, req: Request, n: nat)
    requires req.prompt != []
  {
    forall k :: 0 < k < n ==> !SoloDone(lim, req, k)
  }

  /** A live sequence has not met a stop condition yet. */
  ghost predicate Unfinished(lim: Limits, s: Live) {
    s.req.prompt != [] && NotDoneBefore(lim, s.req, |s.generated| + 1)
  }

  ghost predicate LiveExact(lim: Limits, t: Trace, s: Live) {
    Unfinished(lim, s) && s.id !in t.cancelled
  }

  /** A finished sequence has met its first stop condition; a cancelled one has met none. */
  ghost predicate Complete(lim: Limits, t: Trace, f: Finished) {
    && f.id in t.requests && t.requests[f.id].prompt != []
    && if f.id in t.cancelled then NotDoneBefore(lim, t.requests[f.id], |f.generated| + 1)
       else |f.generated| > 0 && SoloDone(lim, t.requests[f.id], |f.generated|)
            && NotDoneBefore(lim, t.requests[f.id], |f.generated|)
  }

  ghost predicate ExactInv(lim: Limits, t: Trace) {
    && (forall i :: 0 <= i < |t.engine.active| ==> LiveExact(lim, t, t.engine.active[i]))
    && (forall k :: 0 <= k < |t.engine.finished| ==> Complete(lim, t, t.engine.finished[k]))
    && (forall id :: id in t.cancelled ==> id in t.requests)
  }

  /** The first stop is where the request alone ends. */
  lemma {:induction false} SoloEndsAt(lim: Limits, req: Request, k: nat, n: nat)
    requires req.prompt != [] && 0 < k <= n && SoloDone(lim, req, n) && NotDoneBefore(lim, req, n)
    ensures Solo(lim, req, k) == Greedy(lim.model, req, n)
    decreases n - k
  {
    if k < n {
      SoloEndsAt(lim, req, k + 1, n);
    }
  }

  /** Until then the tokens so far are a prefix of what the request alone generates. */
  lemma {:induction false} SoloExtends(lim: Limits, req: Request, n: nat, k: nat)
    requires req.prompt != [] && k > 0 && NotDoneBefore(lim, req, n + 1)
    ensures Greedy(lim.model, req, n) <= Solo(lim, req, k)
    decreases lim.maxSeqLen - (|req.prompt| + k)
  {
    if SoloDone(lim, req, k) {
      GreedyPrefix(lim.model, req, n, k);
    } else {
      SoloExtends(lim, req, n, k + 1);
    }
  }

  lemma {:induction false} GreedyPrefix(m: Model, req: Request, n: nat, k: nat)
    requires req.prompt != [] && n <= k
    ensures Greedy(m, req, n) <= Greedy(m, req, k)
  {
    if n < k {
      GreedyPrefix(m, req, n, k - 1);
    }
  }

  /** The condition on one step under which retirement is exact. */
  ghost predicate StepIsOrderly(lim: Limits, e: Engine) {
    && AllOk(lim, e.active)
    && LimitsAboveStops(lim, e.active, Takes(lim, e.active, lim.prefillRows), AfterTakes(lim, e))
  }

  /** A step meets that condition exactly if it retires just the sequences that it lists. */
  lemma OrderlyIffExact(lim: Limits, e: Engine)
    requires AllOk(lim, e.active)
    ensures StepIsOrderly(lim, e) <==> RetiresExactly(|e.active|, StepDone(lim, e))
  {
    var takes, after := Takes(lim, e.active, lim.prefillRows), AfterTakes(lim, e);
    DoneSlotsAre(lim, e.active, takes, after);
    DoneAscendingIff(lim, e.active, takes, after);
    RetirementIsExactIffAscending(|e.active|, StepDone(lim, e));
  }

  /** One sequence: after its rows it is done exactly if its request alone stops after so many tokens. */
  lemma AdvanceStops(lim: Limits, was: Live, budget: nat)
    requires LiveOk(lim, was) && Unfinished(lim, was)
    requires was.generated == Greedy(lim.model, was.req, |was.generated|)
    ensures var take := TakeOf(lim, was, budget);
            var s := Advance(lim, was, take);
            && NotDoneBefore(lim, s.req, |s.generated|)
            && (DoneByRule(was, take, s) || AtLimit(lim, s) <==>
                  s.generated != [] && SoloDone(lim, s.req, |s.generated|))
  {
    var take := TakeOf(lim, was, budget);
    var s := Advance(lim, was, take);
    AdvanceKeepsOk(lim, was, budget);
    if Emits(was, take) {
      assert s.generated == Greedy(lim.model, s.req, |s.generated|);
      assert AtLimit(lim, s) <==> ContextFull(lim, s.req, s.generated);
    } else if was.generated != [] {
      var n := |was.generated|;
      assert !SoloDone(lim, was.req, n);
      assert AtLimit(lim, s) <==> ContextFull(lim, s.req, s.generated);
    }
  }

  /** After advancing, a slot is listed as done exactly if its sequence has just met a stop condition. */
  lemma DoneMeansStopped(lim: Limits, t: Trace, i: nat)
    requires TraceInv(lim, t) && ExactInv(lim, t) && i < |t.engine.active| && AllOk(lim, t.engine.active)
    ensures var s := AfterTakes(lim, t.engine)[i];
            && s.req.prompt != [] && NotDoneBefore(lim, s.req, |s.generated|)
            && (i in StepDone(lim, t.engine) <==> s.generated != [] && SoloDone(lim, s.req, |s.generated|))
  {
    var e := t.engine;
    assert LiveInv(lim, t, e.active[i]) && LiveExact(lim, t, e.active[i]);
    TakesAt(lim, e.active, lim.prefillRows, i);
    var b: nat :| b <= lim.prefillRows && Takes(lim, e.active, lim.prefillRows)[i] == TakeOf(lim, e.active[i], b);
    AdvanceStops(lim, e.active[i], b);
    hide TraceInv, ExactInv, NotDoneBefore, SoloDone, DoneByRule, AtLimit;
    DoneSlotsAre(lim, e.active, Takes(lim, e.active, lim.prefillRows), AfterTakes(lim, e));
  }

  lemma {:induction false} KeptAre(s: seq<Live>, done: seq<nat>, n: nat, k: nat) returns (i: nat)
    requires n <= |s| && k < |Keep(s, done, n)|
    ensures i < n && i !in done && Keep(s, done, n)[k] == s[i]
  {
    if k < |Keep(s, done, n - 1)| {
      i := KeptAre(s, done, n - 1, k);
    } else {
      i := n - 1;
    }
  }

  lemma {:induction false} BackwardsAre(done: seq<nat>, k: nat)
    requires k < |Backwards(done)|
    ensures Backwards(done)[k] in done
  {
    if k > 0 {
      BackwardsAre(done[..|done| - 1], k - 1);
    }
  }

  /** `v` is `t` after an orderly step: the slots not listed, in order, and records of the listed ones. */
  ghost predicate RetiredFrom(lim: Limits, t: Trace, v: Trace, removed: seq<Live>)
    requires AllOk(lim, t.engine.active)
  {
    var after, done := AfterTakes(lim, t.engine), StepDone(lim, t.engine);
    && v.requests == t.requests && v.cancelled == t.cancelled
    && v.engine.active == Keep(after, done, |after|)
    && v.engine.finished == t.engine.finished + FinishAll(removed)
    && PickedAt(after, Backwards(done), removed)
  }

  lemma OrderlyStepResult(lim: Limits, t: Trace) returns (removed: seq<Live>)
    requires TraceInv(lim, t) && StepIsOrderly(lim, t.engine)
    ensures RunOp(lim, t, Step).Some? && RetiredFrom(lim, t, RunOp(lim, t, Step).value, removed)
  {
    var e, after, done := t.engine, AfterTakes(lim, t.engine), StepDone(lim, t.engine);
    DoneSlotsAre(lim, e.active, Takes(lim, e.active, lim.prefillRows), after);
    DoneAscendingIff(lim, e.active, Takes(lim, e.active, lim.prefillRows), after);
    AscendingRemoves(after, done);
    RetireRemoves(after, e.finished, done);
    removed := RemoveAll(after, done).value.1;
  }

  lemma KeptIsUnfinished(lim: Limits, t: Trace, i: nat)
    requires TraceInv(lim, t) && ExactInv(lim, t) && AllOk(lim, t.engine.active) && i < |t.engine.active|
    requires i !in StepDone(lim, t.engine)
    ensures LiveExact(lim, t, AfterTakes(lim, t.engine)[i])
  {
    DoneMeansStopped(lim, t, i);
    AdvancedOk(lim, t.engine);
    assert LiveExact(lim, t, t.engine.active[i]);
    var s := AfterTakes(lim, t.engine)[i];
    assert s.generated != [] ==> !SoloDone(lim, s.req, |s.generated|);
  }

  lemma RetiredIsComplete(lim: Limits, t: Trace, i: nat)
    requires TraceInv(lim, t) && ExactInv(lim, t) && AllOk(lim, t.engine.active) && i < |t.engine.active|
    requires i in StepDone(lim, t.engine)
    ensures Complete(lim, t, FinishOf(AfterTakes(lim, t.engine)[i]))
  {
    DoneMeansStopped(lim, t, i);
    AdvancedOk(lim, t.engine);
    assert LiveExact(lim, t, t.engine.active[i]) && LiveInv(lim, t, t.engine.active[i]);
  }

  lemma RetiringIsExact(lim: Limits, t: Trace, v: Trace, removed: seq<Live>)
    requires TraceInv(lim, t) && ExactInv(lim, t) && AllOk(lim, t.engine.active)
    requires RetiredFrom(lim, t, v, removed)
    ensures ExactInv(lim, v)
  {
    var after, done := AfterTakes(lim, t.engine), StepDone(lim, t.engine);
    forall k | 0 <= k < |v.engine.active|
      ensures LiveExact(lim, v, v.engine.active[k])
    {
      var i := KeptAre(after, done, |after|, k);
      KeptIsUnfinished(lim, t, i);
    }
    forall k | 0 <= k < |v.engine.finished|
      ensures Complete(lim, v, v.engine.finished[k])
    {
      FinishedIsComplete(lim, t, v, removed, k);
    }
  }

  lemma FinishedIsComplete(lim: Limits, t: Trace, v: Trace, removed: seq<Live>, k: nat)
    requires TraceInv(lim, t) && ExactInv(lim, t) && AllOk(lim, t.engine.active)
    requires RetiredFrom(lim, t, v, removed) && k < |v.engine.finished|
    ensures Complete(lim, v, v.engine.finished[k])
  {
    hide TraceInv, StepDone, NotDoneBefore, SoloDone;
    var n, done := |t.engine.finished|, StepDone(lim, t.engine);
    if k < n {
      assert Complete(lim, t, t.engine.finished[k]);
    } else {
      BackwardsAre(done, k - n);
      RetiredIsComplete(lim, t, Backwards(done)[k - n]);
    }
  }

  /** An orderly step does not panic, keeps the unfinished sequences and finishes the others. */
  lemma OrderlyStepIsExact(lim: Limits, t: Trace)
    requires TraceInv(lim, t) && ExactInv(lim, t) && StepIsOrderly(lim, t.engine)
    ensures RunOp(lim, t, Step).Some? && ExactInv(lim, RunOp(lim, t, Step).value)
  {
    var removed := OrderlyStepResult(lim, t);
    RetiringIsExact(lim, t, RunOp(lim, t, Step).value, removed);
  }

  lemma AddKeepsExact(lim: Limits, t: Trace, req: Request)
    requires TraceInv(lim, t) && ExactInv(lim, t) && AllOk(lim, t.engine.active)
    ensures ExactInv(lim, RunOp(lim, t, Add(req)).value)
  {
    var v := RunOp(lim, t, Add(req)).value;
    assert IdOk(t, t.engine.nextId);
    forall k | 0 <= k < |v.engine.active|
      ensures LiveExact(lim, v, v.engine.active[k])
    {
      assert k < |t.engine.active| ==> LiveExact(lim, t, t.engine.active[k]);
    }
    forall k | 0 <= k < |v.engine.finished|
      ensures Complete(lim, v, v.engine.finished[k])
    {
      assert Complete(lim, t, t.engine.finished[k]) && FinishedInv(lim, t, t.engine.finished[k]);
      assert IdOk(t, t.engine.finished[k].id);
    }
  }

  lemma CancelKeepsExact(lim: Limits, t: Trace, id: SeqId)
    requires TraceInv(lim, t) && ExactInv(lim, t) && AllOk(lim, t.engine.active)
    ensures ExactInv(lim, RunOp(lim, t, Cancel(id)).value)
  {
    var e, i := t.engine, SlotOf(t.engine.active, id);
    if i < |e.active| {
      var v := RunOp(lim, t, Cancel(id)).value;
      assert v == FinishSlot(t, i).(cancelled := t.cancelled + {id}) && e.active[i].id == id;
      assert LiveInv(lim, t, e.active[i]);
      hide RunOp, SlotOf, TraceInv;
      forall k | 0 <= k < |v.engine.active|
        ensures LiveExact(lim, v, v.engine.active[k])
      {
        OthersStayLive(lim, t, i, id, k);
      }
      forall k | 0 <= k < |v.engine.finished|
        ensures Complete(lim, v, v.engine.finished[k])
      {
        CancelledIsComplete(lim, t, i, id, k);
      }
    }
  }

  /** Cancelling one sequence leaves the other slots unfinished. */
  lemma OthersStayLive(lim: Limits, t: Trace, i: nat, id: SeqId, k: nat)
    requires TraceInv(lim, t) && ExactInv(lim, t) && i < |t.engine.active| && t.engine.active[i].id == id
    requires k < |FinishSlot(t, i).engine.active|
    ensures var v := FinishSlot(t, i).(cancelled := t.cancelled + {id}); LiveExact(lim, v, v.engine.active[k])
  {
    hide Unfinished, LiveInv, FinishedInv, IdOk;
    var j: nat := if k < i then k else k + 1;
    assert FinishSlot(t, i).engine.active[k] == t.engine.active[j] && LiveExact(lim, t, t.engine.active[j]);
    var ids := AllIds(t.engine);
    assert ids[i] == id && ids[j] == t.engine.active[j].id;
  }

  /** The cancelled sequence has met no stop, and the other records stay complete. */
  lemma CancelledIsComplete(lim: Limits, t: Trace, i: nat, id: SeqId, k: nat)
    requires TraceInv(lim, t) && ExactInv(lim, t) && i < |t.engine.active| && t.engine.active[i].id == id
    requires k < |FinishSlot(t, i).engine.finished|
    ensures var v := FinishSlot(t, i).(cancelled := t.cancelled + {id}); Complete(lim, v, v.engine.finished[k])
  {
    hide NotDoneBefore, SoloDone, FinishedInv, IdOk;
    var e := t.engine;
    if k < |e.finished| {
      assert Complete(lim, t, e.finished[k]);
      var ids := AllIds(e);
      assert ids[i] == id && ids[|e.active| + k] == e.finished[k].id;
    } else {
      assert LiveInv(lim, t, e.active[i]) && LiveExact(lim, t, e.active[i]);
    }
  }

  /** Every step of the run met the condition. */
  ghost predicate Orderly(lim: Limits, ops: seq<Op>)
    decreases |ops|
  {
    ops == [] ||
    var front := ops[..|ops| - 1];
    && Orderly(lim, front)
    && (ops[|ops| - 1] == Step && Run(lim, front).Some? ==> StepIsOrderly(lim, Run(lim, front).value.engine))
  }

  lemma {:induction false} OrderlyRunsAreExact(lim: Limits, ops: seq<Op>)
    requires Orderly(lim, ops)
    ensures Run(lim, ops).Some? && ExactInv(lim, Run(lim, ops).value)
    decreases |ops|
  {
    if ops != [] {
      var front, op := ops[..|ops| - 1], ops[|ops| - 1];
      OrderlyRunsAreExact(lim, front);
      var t := Run(lim, front).value;
      OpKeepsInv(lim, t, op);
      match op
      case Add(req) => AddKeepsExact(lim, t, req);
      case Step => OrderlyStepIsExact(lim, t);
      case Cancel(id) => CancelKeepsExact(lim, t, id);
    }
  }

  /**
   An orderly run never panics, every finished sequence that was not cancelled has generated exactly the complete
   output of its request alone, and every other sequence a prefix of it.
   */
  lemma FinishedIsSolo(lim: Limits, ops: seq<Op>, i: nat)
    requires Orderly(lim, ops)
    ensures Run(lim, ops).Some?
    ensures var t := Run(lim, ops).value;
            && (i < |t.engine.active| ==>
                  var s := t.engine.active[i];
                  s.req.prompt != [] && s.generated <= Solo(lim, s.req, 1))
            && (i < |t.engine.finished| ==>
                  var f := t.engine.finished[i];
                  && f.id in t.requests && t.requests[f.id].prompt != []
                  && if f.id in t.cancelled then f.generated <= Solo(lim, t.requests[f.id], 1)
                     else f.generated == Solo(lim, t.requests[f.id], 1))
  {
    OrderlyRunsAreExact(lim, ops);
    var t := Run(lim, ops).value;
    if i < |t.engine.active| {
      var s := t.engine.active[i];
      assert LiveInv(lim, t, s) && LiveExact(lim, t, s);
      SoloExtends(lim, s.req, |s.generated|, 1);
    }
    if i < |t.engine.finished| {
      var f := t.engine.finished[i];
      var req := t.requests[f.id];
      assert FinishedInv(lim, t, f) && Complete(lim, t, f);
      if f.id in t.cancelled {
        SoloExtends(lim, req, |f.generated|, 1);
      } else {
        SoloEndsAt(lim, req, 1, |f.generated|);
      }
    }
  }

  // ----- the finish rules, on the fields of the request

  /** Ending with a sequence is being something followed by it. */
  lemma EndsWithIs(s: seq<Token>, suffix: seq<Token>)
    ensures EndsWith(s, suffix) <==> exists front :: s == front + suffix
  {
    if EndsWith(s, suffix) {
      assert s == s[..|s| - |suffix|] + suffix;
    }
  }

  /** What stopping means. */
  lemma StoppedIs(req: Request, g: seq<Token>)
    ensures Stopped(req, g) <==>
              || (g != [] && req.eos == Some(g[|g| - 1]))
              || exists front, i :: 0 <= i < |req.stops| && req.stops[i] != [] && g == front + req.stops[i]
  {
    forall i | 0 <= i < |req.stops|
      ensures EndsWith(g, req.stops[i]) <==> exists front :: g == front + req.stops[i]
    {
      EndsWithIs(g, req.stops[i]);
    }
  }

  /** As long as no stop condition has held: no end token, no stop sequence, budget and context left. */
  lemma UnfinishedMeans(lim: Limits, req: Request, g: seq<Token>, n: nat)
    requires req.prompt != [] && NotDoneBefore(lim, req, n) && g == Greedy(lim.model, req, |g|) && n <= |g| + 1
    ensures forall j :: 0 <= j < n - 1 ==> req.eos != Some(g[j])
    ensures forall k, front, i :: 0 < k < n && 0 <= i < |req.stops| && req.stops[i] != [] ==>
              g[..k] != front + req.stops[i]
    ensures n > 1 ==> n - 1 < req.maxNew && |req.prompt| + n - 2 < lim.maxSeqLen
  {
    forall j | 0 <= j < n - 1
      ensures req.eos != Some(g[j])
    {
      PrefixGoesOn(lim, req, g, j + 1);
    }
    forall k, front, i | 0 < k < n && 0 <= i < |req.stops| && req.stops[i] != []
      ensures g[..k] != front + req.stops[i]
    {
      PrefixGoesOn(lim, req, g, k);
    }
    if n > 1 {
      PrefixGoesOn(lim, req, g, n - 1);
    }
  }

  lemma PrefixGoesOn(lim: Limits, req: Request, g: seq<Token>, k: nat)
    requires req.prompt != [] && g == Greedy(lim.model, req, |g|) && 0 < k <= |g| && !SoloDone(lim, req, k)
    ensures req.eos != Some(g[k - 1])
    ensures forall front, i :: 0 <= i < |req.stops| && req.stops[i] != [] ==> g[..k] != front + req.stops[i]
    ensures k < req.maxNew && |req.prompt| + k - 1 < lim.maxSeqLen
  {
    GreedyPrefix(lim.model, req, k, |g|);
    assert g[..k] == Greedy(lim.model, req, k);
    StoppedIs(req, g[..k]);
  }

  /**
   Where a sequence ends, in an orderly run, for a record that was not cancelled: not before the first end token or
   the first stop sequence, and there unless the budget or the context is used up; the flag tells which.
   */
  lemma FinishRules(lim: Limits, ops: seq<Op>, k: nat)
    requires Orderly(lim, ops)
    ensures Run(lim, ops).Some?
    ensures var t := Run(lim, ops).value;
            k < |t.engine.finished| && t.engine.finished[k].id !in t.cancelled ==>
              var f := t.engine.finished[k];
              && f.id in t.requests && f.generated != []
              && var req, g := t.requests[f.id], f.generated;
                 && (forall j :: 0 <= j < |g| - 1 ==> req.eos != Some(g[j]))
                 && (forall n, front, i :: 0 < n < |g| && 0 <= i < |req.stops| && req.stops[i] != [] ==>
                       g[..n] != front + req.stops[i])
                 && (|g| > 1 ==> |g| <= req.maxNew && |req.prompt| + |g| - 1 <= lim.maxSeqLen)
                 && (|g| < req.maxNew && |req.prompt| + |g| - 1 < lim.maxSeqLen ==>
                       || req.eos == Some(g[|g| - 1])
                       || exists front, i :: 0 <= i < |req.stops| && req.stops[i] != [] && g == front + req.stops[i])
                 && (f.stopped <==>
                       || req.eos == Some(g[|g| - 1])
                       || exists front, i :: 0 <= i < |req.stops| && req.stops[i] != [] && g == front + req.stops[i])
  {
    OrderlyRunsAreExact(lim, ops);
    var t := Run(lim, ops).value;
    if k < |t.engine.finished| && t.engine.finished[k].id !in t.cancelled {
      var f := t.engine.finished[k];
      assert FinishedInv(lim, t, f) && Complete(lim, t, f);
      var req, g := t.requests[f.id], f.generated;
      UnfinishedMeans(lim, req, g, |g|);
      StoppedIs(req, g);
    }
  }

  /** And as long as a sequence is in a slot, in an orderly run, none of that has happened to it. */
  lemma LiveRules(lim: Limits, ops: seq<Op>, k: nat)
    requires Orderly(lim, ops)
    ensures Run(lim, ops).Some?
    ensures var e := Run(lim, ops).value.engine;
            k < |e.active| && e.active[k].generated != [] ==>
              var req, g := e.active[k].req, e.active[k].generated;
              && (forall j :: 0 <= j < |g| ==> req.eos != Some(g[j]))
              && (forall n, front, i :: 0 < n <= |g| && 0 <= i < |req.stops| && req.stops[i] != [] ==>
                    g[..n] != front + req.stops[i])
              && |g| < req.maxNew && |req.prompt| + |g| - 1 < lim.maxSeqLen
  {
    OrderlyRunsAreExact(lim, ops);
    var t := Run(lim, ops).value;
    if k < |t.engine.active| {
      var s := t.engine.active[k];
      assert LiveInv(lim, t, s) && LiveExact(lim, t, s);
      UnfinishedMeans(lim, s.req, s.generated, |s.generated| + 1);
    }
  }

  // ----- a step that is not orderly

  /** A request of `n` zeros for up to `maxNew` tokens. */
  function Zeros(n: nat, maxNew: nat, params: Params): Request {
    Request(seq(n, _ => 0), maxNew, None, [], params)
  }

  /**
   For any model, with a context of two tokens: the first request fills the context with its prompt and the second
   wants a single token, so both come to an end in the first step. The done list is [1, 0]; slot 0 is retired first,
   the second sequence has then moved to slot 0, and retiring slot 1 panics.
   */
  lemma DisorderlyStepPanics(m: Model, params: Params)
    ensures var lim := Limits(m, 2, 4, 2, false);
            var ops := [Add(Zeros(2, 5, params)), Add(Zeros(1, 1, params))];
            && Run(lim, ops).Some? && Run(lim, ops + [Step]).None?
            && AllOk(lim, Run(lim, ops).value.engine.active)
            && StepDone(lim, Run(lim, ops).value.engine) == [1, 0]
  {
    var lim := Limits(m, 2, 4, 2, false);
    var a, b := Zeros(2, 5, params), Zeros(1, 1, params);
    AddTwo(lim, a, b);
    StepDisorderly(lim, Run(lim, [Add(a), Add(b)]).value.engine, []);
  }

  lemma AddTwo(lim: Limits, a: Request, b: Request)
    requires lim.capacity >= 2 && 0 < |a.prompt| <= lim.maxSeqLen && 0 < |b.prompt| <= lim.maxSeqLen
    ensures Run(lim, [Add(a), Add(b)]).Some?
    ensures Run(lim, [Add(a), Add(b)]).value.engine == Engine([Live(1, a, 0, []), Live(2, b, 0, [])], [], 3)
  {
    var start := Engine([], [], 1);
    assert Run(lim, []).value.engine == start;
    assert [] + [Add(a)] == [Add(a)];
    var one := AddEngine(start, a);
    assert one.active == [Live(1, a, 0, [])];
    assert [Add(a)] + [Add(b)] == [Add(a), Add(b)];
    assert AddEngine(one, b).active == [Live(1, a, 0, []), Live(2, b, 0, [])];
  }

  lemma AddThree(lim: Limits, a: Request, b: Request, c: Request)
    requires lim.capacity >= 3 && 0 < |a.prompt| <= lim.maxSeqLen && 0 < |b.prompt| <= lim.maxSeqLen
    requires 0 < |c.prompt| <= lim.maxSeqLen
    ensures Run(lim, [Add(a), Add(b), Add(c)]).Some?
    ensures Run(lim, [Add(a), Add(b), Add(c)]).value.engine ==
            Engine([Live(1, a, 0, []), Live(2, b, 0, []), Live(3, c, 0, [])], [], 4)
  {
    AddTwo(lim, a, b);
    var two := Run(lim, [Add(a), Add(b)]).value.engine;
    assert [Add(a), Add(b)] + [Add(c)] == [Add(a), Add(b), Add(c)];
    assert AddEngine(two, c).active == [Live(1, a, 0, []), Live(2, b, 0, []), Live(3, c, 0, [])];
  }

  /**
   With a third sequence behind them the wrong one is finished instead: the third sequence, which has met no
   stop condition, is retired, and the second one, which has used up its budget, stays.
   */
  lemma DisorderlyStepFinishesNeighbour(m: Model, params: Params)
    ensures var lim := Limits(m, 3, 4, 2, false);
            var ops := [Add(Zeros(2, 5, params)), Add(Zeros(1, 1, params)), Add(Zeros(1, 5, params)), Step];
            && Run(lim, ops).Some?
            && var t := Run(lim, ops).value;
               && |t.engine.active| == 1 && t.engine.active[0].id == 2
               && SoloDone(lim, t.engine.active[0].req, |t.engine.active[0].generated|)
               && |t.engine.finished| == 2 && t.engine.finished[1].id == 3
               && !SoloDone(lim, Zeros(1, 5, params), |t.engine.finished[1].generated|)
  {
    var lim := Limits(m, 3, 4, 2, false);
    hide Run, RuleSlots, LimitSlots;
    var a, b, c := Zeros(2, 5, params), Zeros(1, 1, params), Zeros(1, 5, params);
    AddThree(lim, a, b, c);
    assert [Add(a), Add(b), Add(c)] + [Step] == [Add(a), Add(b), Add(c), Step];
    var e := Run(lim, [Add(a), Add(b), Add(c)]).value.engine;
    StepDisorderly(lim, e, [Live(3, c, 0, [])]);
    AdvancedOk(lim, e);
  }

  /** The step of the two examples: two sequences come to an end, at most one more is behind them. */
  lemma StepDisorderly(lim: Limits, e: Engine, behind: seq<Live>)
    requires lim.prefillRows == 4 && lim.maxSeqLen == 2 && !lim.gdn && |behind| <= 1
    requires |e.active| == 2 + |behind| && e.active[2..] == behind && AllOk(lim, e.active) && e.finished == []
    requires var p := e.active[0]; p.len == 0 && |p.req.prompt| == 2 && p.req.maxNew == 5 && p.req.eos == None
                                   && p.req.stops == [] && p.generated == []
    requires var q := e.active[1]; q.len == 0 && |q.req.prompt| == 1 && q.req.maxNew == 1 && q.generated == []
    requires behind != [] ==>
               var r := behind[0]; r.len == 0 && |r.req.prompt| == 1 && r.req.maxNew == 5 && r.req.eos == None
                                   && r.req.stops == [] && r.generated == []
    ensures StepDone(lim, e) == [1, 0]
    ensures behind == [] ==> StepEngine(lim, e).None?
    ensures behind != [] ==>
              && StepEngine(lim, e).Some?
              && StepEngine(lim, e).value.active == [AfterTakes(lim, e)[1]]
              && StepEngine(lim, e).value.finished ==
                 [FinishOf(AfterTakes(lim, e)[0]), FinishOf(AfterTakes(lim, e)[2])]
              && |AfterTakes(lim, e)[1].generated| == 1 && |AfterTakes(lim, e)[2].generated| == 1
  {
    TakesDisorderly(lim, e, behind);
    DoneDisorderly(lim, e, behind);
    var after := AfterTakes(lim, e);
    assert [1, 0][..1] == [1] && [1][..0] == [];
    assert |Without(after, 0)| == 1 + |behind|;
    if behind != [] {
      assert after == [after[0], after[1], after[2]];
      assert Without(after, 0) == [after[1], after[2]];
      assert Without([after[1], after[2]], 1) == [after[1]];
    }
  }

  lemma TakesDisorderly(lim: Limits, e: Engine, behind: seq<Live>)
    requires lim.prefillRows == 4 && !lim.gdn && |behind| <= 1
    requires |e.active| == 2 + |behind| && e.active[2..] == behind
    requires e.active[0].len == 0 && |e.active[0].req.prompt| == 2
    requires e.active[1].len == 0 && |e.active[1].req.prompt| == 1
    requires behind != [] ==> behind[0].len == 0 && |behind[0].req.prompt| == 1
    ensures Takes(lim, e.active, 4) == [2, 1] + if behind == [] then [] else [1]
  {
    assert e.active[1..][1..] == behind;
    assert Takes(lim, e.active[1..], 2) == [1] + Takes(lim, behind, 1);
    assert behind != [] ==> behind[1..] == [];
  }

  lemma DoneDisorderly(lim: Limits, e: Engine, behind: seq<Live>)
    requires lim.prefillRows == 4 && lim.maxSeqLen == 2 && |behind| <= 1
    requires |e.active| == 2 + |behind| && e.active[2..] == behind && AllOk(lim, e.active)
    requires Takes(lim, e.active, 4) == [2, 1] + if behind == [] then [] else [1]
    requires var p := e.active[0]; p.len == 0 && |p.req.prompt| == 2 && p.req.maxNew == 5 && p.req.eos == None
                                   && p.req.stops == [] && p.generated == []
    requires var q := e.active[1]; q.len == 0 && |q.req.prompt| == 1 && q.req.maxNew == 1 && q.generated == []
    requires behind != [] ==>
               var r := behind[0]; r.len == 0 && |r.req.prompt| == 1 && r.req.maxNew == 5 && r.req.eos == None
                                   && r.req.stops == [] && r.generated == []
    ensures StepDone(lim, e) == [1, 0]
    ensures |AfterTakes(lim, e)[1].generated| == 1
    ensures behind != [] ==> |AfterTakes(lim, e)[2].generated| == 1
  {
    var takes, after := Takes(lim, e.active, 4), AfterTakes(lim, e);
    assert after[0] == Advance(lim, e.active[0], 2) && after[1] == Advance(lim, e.active[1], 1);
    assert behind != [] ==> e.active[2] == behind[0] && after[2] == Advance(lim, behind[0], 1);
    assert RuleSlots(e.active, takes, after, 0) == [];
    assert RuleSlots(e.active, takes, after, 1) == [];
    assert RuleSlots(e.active, takes, after, 2) == [1];
    assert RuleSlots(e.active, takes, after, |after|) == [1];
    assert LimitSlots(lim, after, [1], 0) == [];
    assert LimitSlots(lim, after, [1], 1) == [0];
    assert LimitSlots(lim, after, [1], 2) == [0];
    assert LimitSlots(lim, after, [1], |after|) == [0];
  }

  // ----- progress

  /** Positions that a sequence may still fill, and one for its retirement. */
  function WorkOf(lim: Limits, s: Live): nat {
    if s.len <= lim.maxSeqLen then lim.maxSeqLen + 1 - s.len else 0
  }

  function Work(lim: Limits, active: seq<Live>): nat {
    if active == [] then 0 else WorkOf(lim, active[0]) + Work(lim, active[1..])
  }

  lemma {:induction false} WorkWithout(lim: Limits, active: seq<Live>, i: nat)
    requires i < |active|
    ensures Work(lim, active) == WorkOf(lim, active[i]) + Work(lim, Without(active, i))
  {
    if i == 0 {
      assert Without(active, 0) == active[1..];
    } else {
      WorkWithout(lim, active[1..], i - 1);
      assert Without(active, i)[1..] == Without(active[1..], i - 1);
    }
  }

  lemma {:induction false} WorkOfLess(lim: Limits, a: seq<Live>, b: seq<Live>)
    requires |a| == |b| && forall i :: 0 <= i < |a| ==> WorkOf(lim, a[i]) <= WorkOf(lim, b[i])
    ensures Work(lim, a) <= Work(lim, b)
    ensures a != [] && WorkOf(lim, a[0]) < WorkOf(lim, b[0]) ==> Work(lim, a) < Work(lim, b)
  {
    if a != [] {
      WorkOfLess(lim, a[1..], b[1..]);
    }
  }

  lemma {:induction false} RetireShrinks(lim: Limits, active: seq<Live>, finished: seq<Finished>, done: seq<nat>)
    requires AllOk(lim, active) && Retire(active, finished, done).Some?
    ensures Work(lim, Retire(active, finished, done).value.0) <= Work(lim, active)
    ensures done != [] ==> Work(lim, Retire(active, finished, done).value.0) < Work(lim, active)
    decreases |done|
  {
    if done != [] {
      var i := done[|done| - 1];
      WorkWithout(lim, active, i);
      assert LiveOk(lim, active[i]);
      RetireShrinks(lim, Without(active, i), finished + [FinishOf(active[i])], done[..|done| - 1]);
    }
  }

  /**
   Progress: slot 0 always advances or is retired, so the work left decreases in every step that does not
   panic, whatever else is in the batch.
   */
  lemma StepMakesProgress(lim: Limits, e: Engine)
    requires AllOk(lim, e.active) && e.active != [] && lim.prefillRows > 0
    ensures StepEngine(lim, e).Some? ==> Work(lim, StepEngine(lim, e).value.active) < Work(lim, e.active)
  {
    var takes, after, done := Takes(lim, e.active, lim.prefillRows), AfterTakes(lim, e), StepDone(lim, e);
    AdvancedOk(lim, e);
    forall i | 0 <= i < |after|
      ensures WorkOf(lim, after[i]) <= WorkOf(lim, e.active[i])
    {
      assert LiveOk(lim, after[i]) && after[i] == Advance(lim, e.active[i], takes[i]);
    }
    WorkOfLess(lim, after, e.active);
    TakesAt(lim, e.active, lim.prefillRows, 0);
    assert LiveOk(lim, e.active[0]) && LiveOk(lim, after[0]);
    assert after[0] == Advance(lim, e.active[0], takes[0]);
    DoneSlotsAre(lim, e.active, takes, after);
    if takes[0] == 0 {
      assert AtLimit(lim, after[0]);
      assert 0 in done;
    }
    if StepEngine(lim, e).Some? {
      RetireShrinks(lim, after, e.finished, done);
    }
  }
}
