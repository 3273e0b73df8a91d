/**
 A condition at admission under which the engine (continuous.rs) retires in order: when the prompt and the budget of
 new tokens of every request fit the context, no run panics and every output is complete. The condition is tight: any
 admitted request that breaks it makes some engine panic.
 */
module EngineAdmission {
  import opened Collections
  import opened Tokens
  import opened Batched
  import opened EngineSpec
  import opened Retirement
  import opened EngineRuns
  import opened EngineCompletion

  /** The prompt and all new tokens but the last fit the context. */
  predicate FitsContext(lim: Limits, req: Request) {
    |req.prompt| + req.maxNew <= lim.maxSeqLen + 1
  }

  ghost predicate AdmissionsFit(lim: Limits, ops: seq<Op>) {
    forall req :: Add(req) in ops ==> FitsContext(lim, req)
  }

  // ----- requests that fit finish by their own rules

  ghost predicate RequestsFit(lim: Limits, t: Trace) {
    forall id :: id in t.requests ==> FitsContext(lim, t.requests[id])
  }

  lemma {:induction false} AdmittedFit(lim: Limits, ops: seq<Op>)
    requires AdmissionsFit(lim, ops) && Run(lim, ops).Some?
    ensures RequestsFit(lim, Run(lim, ops).value)
    decreases |ops|
  {
    if ops != [] {
      var front, op := ops[..|ops| - 1], ops[|ops| - 1];
      assert op in ops;
      AdmittedFit(lim, front);
      TraceAllOk(lim, Run(lim, front).value);
      OpKeepsFit(lim, Run(lim, front).value, op);
    }
  }

  lemma OpKeepsFit(lim: Limits, t: Trace, op: Op)
    requires RequestsFit(lim, t) && AllOk(lim, t.engine.active) && (op.Add? ==> FitsContext(lim, op.req))
    ensures RunOp(lim, t, op).Some? ==> RequestsFit(lim, RunOp(lim, t, op).value)
  {
    hide StepEngine, StepOutputs, SlotOf;
  }

  /** A sequence at the context limit has used up its budget, so a finish rule stops it as well. */
  lemma LimitMeansStopped(lim: Limits, t: Trace, i: nat)
    requires TraceInv(lim, t) && ExactInv(lim, t) && RequestsFit(lim, t) && AllOk(lim, t.engine.active)
    requires i < |t.engine.active| && AtLimit(lim, AfterTakes(lim, t.engine)[i])
    ensures DoneByRule(t.engine.active[i], Takes(lim, t.engine.active, lim.prefillRows)[i],
                       AfterTakes(lim, t.engine)[i])
  {
    var e := t.engine;
    var was, s := e.active[i], AfterTakes(lim, e)[i];
    assert LiveInv(lim, t, was) && LiveExact(lim, t, was);
    AdvancedOk(lim, e);
    assert LiveOk(lim, s);
    assert |s.generated| >= s.req.maxNew;
    assert was.generated != [] ==> !SoloDone(lim, was.req, |was.generated|);
  }

  lemma {:induction false} FittingRunsAreOrderly(lim: Limits, ops: seq<Op>)
    requires AdmissionsFit(lim, ops)
    ensures Orderly(lim, ops)
    decreases |ops|
  {
    if ops != [] {
      var front := ops[..|ops| - 1];
      FittingRunsAreOrderly(lim, front);
      OrderlyRunsAreExact(lim, front);
      AdmittedFit(lim, front);
      var t := Run(lim, front).value;
      TraceAllOk(lim, t);
      FittingStepIsOrderly(lim, t);
    }
  }

  lemma FittingStepIsOrderly(lim: Limits, t: Trace)
    requires TraceInv(lim, t) && ExactInv(lim, t) && RequestsFit(lim, t) && AllOk(lim, t.engine.active)
    ensures StepIsOrderly(lim, t.engine)
  {
    var e := t.engine;
    var takes, after := Takes(lim, e.active, lim.prefillRows), AfterTakes(lim, e);
    forall i, j | 0 <= i < |after| && 0 <= j < |after|
      ensures LimitAbove(lim, e.active, takes, after, i, j)
    {
      if AtLimit(lim, after[i]) {
        LimitMeansStopped(lim, t, i);
      }
    }
  }

  /**
   When every request fits the context, no run panics, and every sequence that finished without being cancelled has
   generated exactly the complete output of its request alone.
   */
  lemma FittingRunsAreComplete(lim: Limits, ops: seq<Op>, id: SeqId)
    requires AdmissionsFit(lim, ops)
    ensures Run(lim, ops).Some?
    ensures var t := Run(lim, ops).value;
            id in t.requests ==>
              && t.requests[id].prompt != []
              && TokensOf(t.emitted, id) <= Solo(lim, t.requests[id], 1)
              && (!IsLive(t.engine.active, id) && id !in t.cancelled ==>
                    TokensOf(t.emitted, id) == Solo(lim, t.requests[id], 1))
  {
    hide Greedy, TokensOf, LiveOk, Solo, SoloDone, NotDoneBefore, Orderly;
    FittingRunsAreOrderly(lim, ops);
    OrderlyRunsAreExact(lim, ops);
    var t := Run(lim, ops).value;
    assert IdOk(t, id);
    if id in t.requests {
      var live, j := PlaceOf(t.engine, id);
      FinishedIsSolo(lim, ops, j);
      if live {
        assert LiveInv(lim, t, t.engine.active[j]) && IsLive(t.engine.active, t.engine.active[j].id);
      } else {
        assert FinishedInv(lim, t, t.engine.finished[j]) && Complete(lim, t, t.engine.finished[j]);
      }
    }
  }

  // ----- the condition is tight

  /** A token that is neither the request's end token nor the last one of any of its stop sequences. */
  ghost predicate Fresh(req: Request, x: Token) {
    req.eos != Some(x) && forall i :: 0 <= i < |req.stops| ==> EndsOtherwise(req.stops[i], x)
  }

  predicate EndsOtherwise(stop: seq<Token>, x: Token) {
    stop != [] ==> stop[|stop| - 1] != x
  }

  function AboveStops(stops: seq<seq<Token>>): Token {
    if stops == [] then 0 else
      var rest, stop := AboveStops(stops[..|stops| - 1]), stops[|stops| - 1];
      if stop != [] && stop[|stop| - 1] >= rest then stop[|stop| - 1] + 1 else rest
  }

  lemma {:induction false} AboveStopsEndsNone(stops: seq<seq<Token>>, x: Token, i: nat)
    requires x >= AboveStops(stops) && i < |stops|
    ensures EndsOtherwise(stops[i], x)
  {
    if i < |stops| - 1 {
      AboveStopsEndsNone(stops[..|stops| - 1], x, i);
    }
  }

  function FreshToken(req: Request): Token {
    var above := AboveStops(req.stops);
    if req.eos.Some? && req.eos.value >= above then req.eos.value + 1 else above
  }

  lemma FreshTokenIsFresh(req: Request)
    ensures Fresh(req, FreshToken(req))
  {
    forall i | 0 <= i < |req.stops|
      ensures EndsOtherwise(req.stops[i], FreshToken(req))
    {
      AboveStopsEndsNone(req.stops, FreshToken(req), i);
    }
  }

  function Repeat(x: Token, n: nat): seq<Token> {
    seq(n, _ => x)
  }

  /** A model that always answers with the token `x`. */
  function Answering(m: Model, x: Token): Model {
    m.(sample := (h, counts, params) => x)
  }

  /** With a fresh token only the budget stops the request. */
  lemma FreshNeverStops(req: Request, x: Token, n: nat)
    requires Fresh(req, x)
    ensures !Stopped(req, Repeat(x, n))
  {
    var g := Repeat(x, n);
    forall i | 0 <= i < |req.stops| && req.stops[i] != []
      ensures !EndsWith(g, req.stops[i])
    {
      var stop := req.stops[i];
      assert EndsOtherwise(stop, x);
      if |stop| <= n {
        assert g[n - |stop|..][|stop| - 1] == x;
      }
    }
  }

  // ----- the request, and one more that uses up its budget in the step that fills the first one's context

  /** New tokens until the request fills its context. */
  function UntilFull(lim: Limits, req: Request): int {
    lim.maxSeqLen + 1 - |req.prompt|
  }

  function Companion(lim: Limits, req: Request): Request
    requires |req.prompt| <= lim.maxSeqLen
  {
    Request([0], UntilFull(lim, req), None, [], req.params)
  }

  /** The two after `k` steps: the first is past its prompt, and both have generated `k` tokens. */
  function TwoAfter(lim: Limits, req: Request, x: Token, k: nat): Engine
    requires 0 < |req.prompt| <= lim.maxSeqLen
  {
    Engine([Live(1, req, if k == 0 then 0 else |req.prompt| + k - 1, Repeat(x, k)),
            Live(2, Companion(lim, req), k, Repeat(x, k))], [], 3)
  }

  /** An admitted request that would outgrow its context, in an engine of two slots that prefills it in one step. */
  ghost predicate Overlong(lim: Limits, req: Request, x: Token) {
    && 0 < |req.prompt| <= lim.maxSeqLen && !FitsContext(lim, req) && Fresh(req, x)
    && lim.capacity == 2 && lim.prefillRows == |req.prompt| + 1 && !lim.gdn
    && lim.model == Answering(lim.model, x)
  }

  lemma TwoTakes(lim: Limits, req: Request, x: Token, k: nat)
    requires Overlong(lim, req, x) && k < UntilFull(lim, req)
    ensures AllOk(lim, TwoAfter(lim, req, x, k).active)
    ensures Takes(lim, TwoAfter(lim, req, x, k).active, lim.prefillRows) == [if k == 0 then |req.prompt| else 1, 1]
  {
    var active := TwoAfter(lim, req, x, k).active;
    assert active[1..] == [active[1]] && active[1..][1..] == [];
    assert Takes(lim, active[1..][1..], 0) == [];
  }

  lemma TwoAdvance(lim: Limits, req: Request, x: Token, k: nat)
    requires Overlong(lim, req, x) && k < UntilFull(lim, req)
    ensures AllOk(lim, TwoAfter(lim, req, x, k).active)
    ensures AfterTakes(lim, TwoAfter(lim, req, x, k)) == TwoAfter(lim, req, x, k + 1).active
  {
    TwoTakes(lim, req, x, k);
    assert Repeat(x, k) + [x] == Repeat(x, k + 1);
    assert AfterTakes(lim, TwoAfter(lim, req, x, k))[0] == TwoAfter(lim, req, x, k + 1).active[0];
    assert AfterTakes(lim, TwoAfter(lim, req, x, k))[1] == TwoAfter(lim, req, x, k + 1).active[1];
  }

  /** Nothing stops before the first request's context is full; then the done list is [1, 0]. */
  lemma TwoDone(lim: Limits, req: Request, x: Token, k: nat)
    requires Overlong(lim, req, x) && k < UntilFull(lim, req)
    ensures AllOk(lim, TwoAfter(lim, req, x, k).active)
    ensures StepDone(lim, TwoAfter(lim, req, x, k)) == if k + 1 < UntilFull(lim, req) then [] else [1, 0]
  {
    TwoTakes(lim, req, x, k);
    TwoAdvance(lim, req, x, k);
    FreshNeverStops(req, x, k + 1);
    var e := TwoAfter(lim, req, x, k);
    var takes, after := Takes(lim, e.active, lim.prefillRows), AfterTakes(lim, e);
    hide Takes, AfterTakes, TwoAfter, Repeat;
    var last := k + 1 == UntilFull(lim, req);
    assert RuleSlots(e.active, takes, after, 1) == [];
    assert RuleSlots(e.active, takes, after, 2) == if last then [1] else [];
    assert LimitSlots(lim, after, if last then [1] else [], 1) == if last then [0] else [];
    assert LimitSlots(lim, after, if last then [1] else [], 2) == if last then [0] else [];
  }

  lemma TwoStep(lim: Limits, req: Request, x: Token, k: nat)
    requires Overlong(lim, req, x) && k < UntilFull(lim, req)
    ensures AllOk(lim, TwoAfter(lim, req, x, k).active)
    ensures StepEngine(lim, TwoAfter(lim, req, x, k)) ==
            if k + 1 < UntilFull(lim, req) then Some(TwoAfter(lim, req, x, k + 1)) else None
  {
    TwoDone(lim, req, x, k);
    TwoAdvance(lim, req, x, k);
    var after := TwoAfter(lim, req, x, k + 1).active;
    assert [1, 0][..1] == [1];
    assert |Without(after, 0)| == 1;
  }

  function TwoOps(lim: Limits, req: Request, k: nat): seq<Op>
    requires |req.prompt| <= lim.maxSeqLen
  {
    [Add(req), Add(Companion(lim, req))] + Steps(k)
  }

  ghost predicate TwoRuns(lim: Limits, req: Request, x: Token, k: nat)
    requires 0 < |req.prompt| <= lim.maxSeqLen
  {
    Run(lim, TwoOps(lim, req, k)).Some? && Run(lim, TwoOps(lim, req, k)).value.engine == TwoAfter(lim, req, x, k)
  }

  lemma {:induction false} TwoRun(lim: Limits, req: Request, x: Token, k: nat)
    requires Overlong(lim, req, x) && k < UntilFull(lim, req)
    ensures TwoRuns(lim, req, x, k)
  {
    hide TwoRuns;
    if k == 0 {
      TwoStart(lim, req, x);
    } else {
      TwoRun(lim, req, x, k - 1);
      TwoNext(lim, req, x, k - 1, k);
    }
  }

  lemma TwoStart(lim: Limits, req: Request, x: Token)
    requires Overlong(lim, req, x)
    ensures TwoRuns(lim, req, x, 0)
  {
    AddTwo(lim, req, Companion(lim, req));
    hide Run;
    assert TwoOps(lim, req, 0) == [Add(req), Add(Companion(lim, req))];
    assert Repeat(x, 0) == [];
  }

  lemma TwoNext(lim: Limits, req: Request, x: Token, k: nat, next: nat)
    requires Overlong(lim, req, x) && next == k + 1 < UntilFull(lim, req) && TwoRuns(lim, req, x, k)
    ensures TwoRuns(lim, req, x, next)
  {
    hide Run, TraceInv, StepEngine, TwoAfter, Companion;
    TwoStep(lim, req, x, k);
    RunStep(lim, TwoOps(lim, req, k));
    assert TwoOps(lim, req, k) + [Step] == TwoOps(lim, req, next);
  }

  /**
   The condition is tight: for every request that is admitted but does not fit the context there are a model and a
   second request with which the engine panics, in the step that fills the context.
   */
  lemma OverlongRequestPanics(m: Model, req: Request, maxSeqLen: nat) returns (lim: Limits, ops: seq<Op>)
    requires 0 < |req.prompt| <= maxSeqLen && |req.prompt| + req.maxNew > maxSeqLen + 1
    ensures lim.maxSeqLen == maxSeqLen && |ops| >= 3 && ops[0] == Add(req)
    ensures Run(lim, ops[..|ops| - 1]).Some? && Run(lim, ops).None?
    ensures forall other :: Add(other) in ops && other != req ==> FitsContext(lim, other)
  {
    hide Run, TraceInv, Greedy, Repeat, Takes, AfterTakes, StepEngine;
    var x := FreshToken(req);
    FreshTokenIsFresh(req);
    lim := Limits(Answering(m, x), 2, |req.prompt| + 1, maxSeqLen, false);
    var n := UntilFull(lim, req);
    var front := TwoOps(lim, req, n - 1);
    ops := front + [Step];
    TwoRun(lim, req, x, n - 1);
    TwoStep(lim, req, x, n - 1);
    RunStep(lim, front);
    AddsAre(req, Companion(lim, req), n - 1, ops);
    assert ops[..|ops| - 1] == front && ops[|ops| - 1] == Step;
  }

  lemma AddsAre(a: Request, b: Request, n: nat, ops: seq<Op>)
    requires ops == ([Add(a), Add(b)] + Steps(n)) + [Step]
    ensures |ops| == n + 3 && ops[0] == Add(a)
    ensures forall req :: Add(req) in ops ==> req == a || req == b
  {
  }
}
