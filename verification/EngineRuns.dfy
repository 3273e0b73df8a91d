/**
 Whole runs of the continuous-batching engine (continuous.rs): batch isolation, streaming, conservation of
 sequences, and progress, over every interleaving of add, step and cancel.
 */
module EngineRuns {
  import opened Collections
  import opened Tokens
  import opened Batched
  import opened EngineSpec

  datatype Op = Add(req: Request) | Step | Cancel(id: SeqId)

  /** The engine, the tokens that its steps have returned, the admitted requests, and the cancelled ids. */
  datatype Trace = Trace(engine: Engine, emitted: seq<(SeqId, Token)>, requests: map<SeqId, Request>,
                         cancelled: set<SeqId>)

  const START := Trace(Engine([], [], 1), [], map[], {})

  function Steps(n: nat): seq<Op> {
    seq(n, _ => Op.Step)
  }

  /** The tokens of one sequence in an output stream. */
  function TokensOf(emitted: seq<(SeqId, Token)>, id: SeqId): seq<Token> {
    if emitted == [] then [] else
      (if emitted[0].0 == id then [emitted[0].1] else []) + TokensOf(emitted[1..], id)
  }

  function LiveIds(active: seq<Live>): seq<SeqId> {
    seq(|active|, i requires 0 <= i < |active| => active[i].id)
  }

  function FinishedIds(finished: seq<Finished>): seq<SeqId> {
    seq(|finished|, i requires 0 <= i < |finished| => finished[i].id)
  }

  function AllIds(e: Engine): seq<SeqId> {
    LiveIds(e.active) + FinishedIds(e.finished)
  }

  ghost predicate IsLive(active: seq<Live>, id: SeqId) {
    exists i :: 0 <= i < |active| && active[i].id == id
  }

  // ----- what every run keeps

  /** A live sequence has generated what its request alone generates, and the steps have returned just that. */
  ghost predicate LiveInv(lim: Limits, t: Trace, s: Live) {
    && LiveOk(lim, s)
    && s.id in t.requests && s.req == t.requests[s.id]
    && s.generated == Greedy(lim.model, s.req, |s.generated|)
    && TokensOf(t.emitted, s.id) == s.generated
  }

  ghost predicate FinishedInv(lim: Limits, t: Trace, f: Finished) {
    && f.id in t.requests && t.requests[f.id].prompt != []
    && f.generated == Greedy(lim.model, t.requests[f.id], |f.generated|)
    && TokensOf(t.emitted, f.id) == f.generated
    && f.stopped == Stopped(t.requests[f.id], f.generated)
  }

  /** Every admitted id, and no other, is in one slot or one finished record. */
  ghost predicate IdOk(t: Trace, id: SeqId) {
    && (id in t.requests <==> id in AllIds(t.engine))
    && (id in t.requests ==> id < t.engine.nextId)
    && (id !in t.requests ==> TokensOf(t.emitted, id) == [])
  }

  ghost predicate TraceInv(lim: Limits, t: Trace) {
    && |t.engine.active| <= lim.capacity
    && (forall i :: 0 <= i < |t.engine.active| ==> LiveInv(lim, t, t.engine.active[i]))
    && (forall k :: 0 <= k < |t.engine.finished| ==> FinishedInv(lim, t, t.engine.finished[k]))
    && Distinct(AllIds(t.engine))
    && (forall id :: IdOk(t, id))
  }

  lemma TraceAllOk(lim: Limits, t: Trace)
    requires TraceInv(lim, t)
    ensures AllOk(lim, t.engine.active) && Distinct(LiveIds(t.engine.active))
  {
    assert forall i :: 0 <= i < |t.engine.active| ==> LiveInv(lim, t, t.engine.active[i]);
    var ids := AllIds(t.engine);
    assert forall i :: 0 <= i < |t.engine.active| ==> ids[i] == t.engine.active[i].id;
  }

  // ----- finishing a slot

  function FinishSlot(t: Trace, i: nat): Trace
    requires i < |t.engine.active|
  {
    t.(engine := FinishEngine(t.engine, i))
  }

  lemma FinishedIdsSnoc(finished: seq<Finished>, f: Finished)
    ensures FinishedIds(finished + [f]) == FinishedIds(finished) + [f.id]
  {
  }

  lemma FinishKeepsIds(e: Engine, i: nat)
    requires i < |e.active| && Distinct(AllIds(e))
    ensures Distinct(AllIds(FinishEngine(e, i)))
    ensures forall id :: id in AllIds(FinishEngine(e, i)) <==> id in AllIds(e)
  {
    var a, f, x := LiveIds(e.active), FinishedIds(e.finished), e.active[i].id;
    FinishedIdsSnoc(e.finished, FinishOf(e.active[i]));
    assert LiveIds(Without(e.active, i)) == a[..i] + a[i + 1..];
    assert AllIds(FinishEngine(e, i)) == (a[..i] + a[i + 1..]) + (f + [x]);
    MoveToEnd(a, f, i);
  }

  lemma MoveToEnd(a: seq<SeqId>, f: seq<SeqId>, i: nat)
    requires i < |a| && Distinct(a + f)
    ensures Distinct((a[..i] + a[i + 1..]) + (f + [a[i]]))
    ensures forall id :: id in (a[..i] + a[i + 1..]) + (f + [a[i]]) <==> id in a + f
  {
    var all, moved := a + f, (a[..i] + a[i + 1..]) + (f + [a[i]]);
    assert forall k :: 0 <= k < |moved| ==>
        moved[k] == all[if k < i then k else if k == |moved| - 1 then i else k + 1];
    assert all[i] == moved[|moved| - 1];
    assert forall k :: 0 <= k < |all| && k != i ==> all[k] == moved[if k < i then k else k - 1];
  }

  lemma FinishKeepsInv(lim: Limits, t: Trace, i: nat)
    requires TraceInv(lim, t) && i < |t.engine.active|
    ensures TraceInv(lim, FinishSlot(t, i))
  {
    var e, v := t.engine, FinishSlot(t, i);
    var s := e.active[i];
    assert LiveInv(lim, t, s);
    FinishKeepsIds(e, i);
    forall k | 0 <= k < |v.engine.active|
      ensures LiveInv(lim, v, v.engine.active[k])
    {
      assert LiveInv(lim, t, e.active[if k < i then k else k + 1]);
    }
    forall k | 0 <= k < |v.engine.finished|
      ensures FinishedInv(lim, v, v.engine.finished[k])
    {
      if k < |e.finished| {
        assert FinishedInv(lim, t, e.finished[k]);
      }
    }
    forall id
      ensures IdOk(v, id)
    {
      assert IdOk(t, id);
    }
  }

  lemma {:induction false} RetireKeepsInv(lim: Limits, t: Trace, done: seq<nat>)
    requires TraceInv(lim, t) && Retire(t.engine.active, t.engine.finished, done).Some?
    ensures var (active, finished) := Retire(t.engine.active, t.engine.finished, done).value;
            TraceInv(lim, t.(engine := t.engine.(active := active, finished := finished)))
    decreases |done|
  {
    if done != [] {
      var i := done[|done| - 1];
      FinishKeepsInv(lim, t, i);
      RetireKeepsInv(lim, FinishSlot(t, i), done[..|done| - 1]);
    }
  }

  // ----- advancing all slots

  lemma {:induction false} TokensOfConcat(a: seq<(SeqId, Token)>, b: seq<(SeqId, Token)>, id: SeqId)
    ensures TokensOf(a + b, id) == TokensOf(a, id) + TokensOf(b, id)
  {
    if a == [] {
      assert a + b == b;
    } else {
      TokensOfConcat(a[1..], b, id);
      assert (a + b)[0] == a[0] && (a + b)[1..] == a[1..] + b;
    }
  }

  ghost predicate Emitting(before: seq<Live>, takes: seq<nat>, after: seq<Live>)
  {
    && |takes| == |before| == |after|
    && forall i :: 0 <= i < |after| ==> EmitsOk(before[i], takes[i], after[i])
  }

  predicate EmitsOk(before: Live, take: nat, after: Live) {
    after.id == before.id && (Emits(before, take) ==> after.generated != [])
  }

  /** What the first slot returns for an id, and what the others do. */
  lemma OutputsSplit(before: seq<Live>, takes: seq<nat>, after: seq<Live>, id: SeqId)
    requires Emitting(before, takes, after) && before != []
    ensures Emitting(before[1..], takes[1..], after[1..])
    ensures var head := if Emits(before[0], takes[0]) && before[0].id == id
                        then [after[0].generated[|after[0].generated| - 1]] else [];
            TokensOf(Outputs(before, takes, after), id) ==
            head + TokensOf(Outputs(before[1..], takes[1..], after[1..]), id)
  {
    assert EmitsOk(before[0], takes[0], after[0]);
    var b, t, a := before[1..], takes[1..], after[1..];
    forall i | 0 <= i < |a|
      ensures EmitsOk(b[i], t[i], a[i])
    {
      assert EmitsOk(before[i + 1], takes[i + 1], after[i + 1]);
    }
    var head :=
      if Emits(before[0], takes[0]) then [(after[0].id, after[0].generated[|after[0].generated| - 1])] else [];
    TokensOfConcat(head, Outputs(before[1..], takes[1..], after[1..]), id);
  }

  lemma {:induction false} NoOutputsFor(before: seq<Live>, takes: seq<nat>, after: seq<Live>, id: SeqId)
    requires Emitting(before, takes, after)
    requires forall i :: 0 <= i < |before| ==> before[i].id != id
    ensures TokensOf(Outputs(before, takes, after), id) == []
  {
    if before != [] {
      OutputsSplit(before, takes, after, id);
      hide Emitting, TokensOf, Outputs;
      NoOutputsFor(before[1..], takes[1..], after[1..], id);
    }
  }

  /** The step returns at most one token for a sequence: its new one. */
  lemma {:induction false} OutputsFor(before: seq<Live>, takes: seq<nat>, after: seq<Live>, i: nat)
    requires Emitting(before, takes, after) && i < |before| && Distinct(LiveIds(before))
    ensures EmitsOk(before[i], takes[i], after[i])
    ensures TokensOf(Outputs(before, takes, after), before[i].id) ==
            if Emits(before[i], takes[i]) then [after[i].generated[|after[i].generated| - 1]] else []
  {
    var id := before[i].id;
    assert EmitsOk(before[i], takes[i], after[i]);
    OutputsSplit(before, takes, after, id);
    RestHasOtherIds(before);
    hide Emitting, TokensOf, Outputs, Distinct, LiveIds;
    if i == 0 {
      NoOutputsFor(before[1..], takes[1..], after[1..], id);
    } else {
      var b, t, a := before[1..], takes[1..], after[1..];
      assert b[i - 1] == before[i] && t[i - 1] == takes[i] && a[i - 1] == after[i];
      OutputsFor(b, t, a, i - 1);
    }
  }

  /** How many of the first `n` slots return a token in the step. */
  function Emitters(before: seq<Live>, takes: seq<nat>, n: nat): nat
    requires |takes| == |before| && n <= |before|
  {
    if n == 0 then 0 else Emitters(before, takes, n - 1) + if Emits(before[n - 1], takes[n - 1]) then 1 else 0
  }

  lemma {:induction false} EmittersSplit(before: seq<Live>, takes: seq<nat>, n: nat)
    requires |takes| == |before| && 0 < n <= |before|
    ensures Emitters(before, takes, n) ==
            (if Emits(before[0], takes[0]) then 1 else 0) + Emitters(before[1..], takes[1..], n - 1)
  {
    if n > 1 {
      EmittersSplit(before, takes, n - 1);
    }
  }

  lemma {:induction false} OutputsInSlotOrder(before: seq<Live>, takes: seq<nat>, after: seq<Live>, i: nat)
    requires Emitting(before, takes, after) && i < |before|
    ensures |Outputs(before, takes, after)| == Emitters(before, takes, |before|)
    ensures Emits(before[i], takes[i]) ==>
              var k := Emitters(before, takes, i);
              && EmitsOk(before[i], takes[i], after[i]) && k < |Outputs(before, takes, after)|
              && Outputs(before, takes, after)[k] == (before[i].id, after[i].generated[|after[i].generated| - 1])
  {
    var b, t, a := before[1..], takes[1..], after[1..];
    OutputsSplit(before, takes, after, before[0].id);
    assert EmitsOk(before[0], takes[0], after[0]) && EmitsOk(before[i], takes[i], after[i]);
    EmittersSplit(before, takes, |before|);
    assert b == [] ==> Outputs(b, t, a) == [] && Emitters(b, t, 0) == 0;
    hide Emitting, TokensOf, Emits;
    if b != [] {
      OutputsInSlotOrder(b, t, a, if i > 0 then i - 1 else 0);
    }
    if i > 0 {
      EmittersSplit(before, takes, i);
      assert b[i - 1] == before[i] && t[i - 1] == takes[i] && a[i - 1] == after[i];
    }
  }

  lemma RestHasOtherIds(before: seq<Live>)
    requires before != [] && Distinct(LiveIds(before))
    ensures Distinct(LiveIds(before[1..]))
    ensures forall k :: 0 <= k < |before[1..]| ==> before[1..][k].id != before[0].id
  {
    var ids, rest := LiveIds(before), before[1..];
    assert LiveIds(rest) == ids[1..];
    forall k | 0 <= k < |rest|
      ensures rest[k].id != before[0].id
    {
      assert ids[k + 1] == rest[k].id && ids[0] == before[0].id;
    }
  }

  /** All slots have advanced and the new tokens are returned; nothing is retired yet. */
  function AdvanceAll(lim: Limits, t: Trace): Trace
    requires AllOk(lim, t.engine.active)
  {
    t.(engine := t.engine.(active := AfterTakes(lim, t.engine)), emitted := t.emitted + StepOutputs(lim, t.engine))
  }

  lemma StepEmitting(lim: Limits, e: Engine)
    requires AllOk(lim, e.active)
    ensures Emitting(e.active, Takes(lim, e.active, lim.prefillRows), AfterTakes(lim, e))
    ensures LiveIds(AfterTakes(lim, e)) == LiveIds(e.active)
  {
    AdvancedOk(lim, e);
    var takes, after := Takes(lim, e.active, lim.prefillRows), AfterTakes(lim, e);
    forall i | 0 <= i < |after|
      ensures EmitsOk(e.active[i], takes[i], after[i])
    {
      assert after[i] == Advance(lim, e.active[i], takes[i]);
    }
  }

  /** A step returns the new token of every sequence that gets one, in slot order, and nothing else. */
  lemma StepReturnsInOrder(lim: Limits, e: Engine, i: nat)
    requires AllOk(lim, e.active) && i < |e.active|
    ensures var s, takes := e.active[i], Takes(lim, e.active, lim.prefillRows);
            && |StepOutputs(lim, e)| == Emitters(e.active, takes, |e.active|)
            && (Emits(s, takes[i]) ==>
                  var k := Emitters(e.active, takes, i);
                  && s.req.prompt != [] && k < |StepOutputs(lim, e)|
                  && StepOutputs(lim, e)[k] == (s.id, NextToken(lim.model, s.req, s.generated)))
  {
    StepEmitting(lim, e);
    AdvancedOk(lim, e);
    var takes, after := Takes(lim, e.active, lim.prefillRows), AfterTakes(lim, e);
    OutputsInSlotOrder(e.active, takes, after, i);
    assert LiveOk(lim, e.active[i]) && after[i] == Advance(lim, e.active[i], takes[i]);
  }

  lemma AdvanceKeepsInv(lim: Limits, t: Trace)
    requires TraceInv(lim, t)
    ensures AllOk(lim, t.engine.active) && TraceInv(lim, AdvanceAll(lim, t))
  {
    TraceAllOk(lim, t);
    StepEmitting(lim, t.engine);
    var v := AdvanceAll(lim, t);
    forall i | 0 <= i < |v.engine.active|
      ensures LiveInv(lim, v, v.engine.active[i])
    {
      AdvanceKeepsLive(lim, t, i);
    }
    forall k | 0 <= k < |v.engine.finished|
      ensures FinishedInv(lim, v, v.engine.finished[k])
    {
      AdvanceKeepsFinished(lim, t, k);
    }
    forall id
      ensures IdOk(v, id)
    {
      AdvanceKeepsId(lim, t, id);
    }
  }

  lemma AdvanceKeepsLive(lim: Limits, t: Trace, i: nat)
    requires TraceInv(lim, t) && AllOk(lim, t.engine.active) && i < |t.engine.active|
    ensures LiveInv(lim, AdvanceAll(lim, t), AfterTakes(lim, t.engine)[i])
  {
    TraceAllOk(lim, t);
    AdvancedOk(lim, t.engine);
    StepEmitting(lim, t.engine);
    var e, takes, after := t.engine, Takes(lim, t.engine.active, lim.prefillRows), AfterTakes(lim, t.engine);
    var s, r := e.active[i], after[i];
    assert LiveInv(lim, t, s);
    assert r == Advance(lim, s, takes[i]);
    OutputsFor(e.active, takes, after, i);
    TokensOfConcat(t.emitted, StepOutputs(lim, e), s.id);
    if !Emits(s, takes[i]) {
      assert s.generated + [] == s.generated;
    }
  }

  lemma AdvanceKeepsFinished(lim: Limits, t: Trace, k: nat)
    requires TraceInv(lim, t) && AllOk(lim, t.engine.active) && k < |t.engine.finished|
    ensures FinishedInv(lim, AdvanceAll(lim, t), t.engine.finished[k])
  {
    StepEmitting(lim, t.engine);
    var e, f := t.engine, t.engine.finished[k];
    assert FinishedInv(lim, t, f);
    var ids := AllIds(e);
    forall i | 0 <= i < |e.active|
      ensures e.active[i].id != f.id
    {
      assert ids[i] == e.active[i].id && ids[|e.active| + k] == f.id;
    }
    NoOutputsFor(e.active, Takes(lim, e.active, lim.prefillRows), AfterTakes(lim, e), f.id);
    TokensOfConcat(t.emitted, StepOutputs(lim, e), f.id);
  }

  lemma AdvanceKeepsId(lim: Limits, t: Trace, id: SeqId)
    requires TraceInv(lim, t) && AllOk(lim, t.engine.active)
    ensures IdOk(AdvanceAll(lim, t), id)
  {
    StepEmitting(lim, t.engine);
    var e := t.engine;
    assert IdOk(t, id);
    if id !in t.requests {
      forall i | 0 <= i < |e.active|
        ensures e.active[i].id != id
      {
        assert AllIds(e)[i] == e.active[i].id;
      }
      NoOutputsFor(e.active, Takes(lim, e.active, lim.prefillRows), AfterTakes(lim, e), id);
      TokensOfConcat(t.emitted, StepOutputs(lim, e), id);
    }
  }

  // ----- one operation

  /** Slot of a live id, or the number of live sequences. */
  function SlotOf(active: seq<Live>, id: SeqId): (i: nat)
    ensures i <= |active| && (i < |active| ==> active[i].id == id)
  {
    if active == [] || active[0].id == id then 0 else 1 + SlotOf(active[1..], id)
  }

  /** The trace after one operation; `None` when a step panics. */
  function RunOp(lim: Limits, t: Trace, op: Op): Option<Trace>
    requires AllOk(lim, t.engine.active)
  {
    match op
    case Add(req) =>
      if Admits(lim, t.engine, req) then
        Some(t.(engine := AddEngine(t.engine, req), requests := t.requests[t.engine.nextId := req]))
      else Some(t)
    case Step =>
      var next := StepEngine(lim, t.engine);
      if next.None? then None
      else Some(t.(engine := next.value, emitted := t.emitted + StepOutputs(lim, t.engine)))
    case Cancel(id) =>
      var i := SlotOf(t.engine.active, id);
      if i < |t.engine.active| then Some(FinishSlot(t, i).(cancelled := t.cancelled + {id})) else Some(t)
  }

  lemma AddKeepsInv(lim: Limits, t: Trace, req: Request)
    requires TraceInv(lim, t) && Admits(lim, t.engine, req)
    ensures AllOk(lim, t.engine.active) && TraceInv(lim, RunOp(lim, t, Add(req)).value)
  {
    TraceAllOk(lim, t);
    var e, v := t.engine, RunOp(lim, t, Add(req)).value;
    assert IdOk(t, e.nextId);
    var a, f := LiveIds(e.active), FinishedIds(e.finished);
    assert LiveIds(v.engine.active) == a + [e.nextId];
    AddInMiddle(a, f, e.nextId);
    forall i | 0 <= i < |v.engine.active|
      ensures LiveInv(lim, v, v.engine.active[i])
    {
      if i < |e.active| {
        assert LiveInv(lim, t, e.active[i]);
        assert AllIds(e)[i] == e.active[i].id;
      }
    }
    forall k | 0 <= k < |v.engine.finished|
      ensures FinishedInv(lim, v, v.engine.finished[k])
    {
      assert FinishedInv(lim, t, e.finished[k]);
      assert AllIds(e)[|e.active| + k] == e.finished[k].id;
    }
    forall id
      ensures IdOk(v, id)
    {
      assert IdOk(t, id);
    }
  }

  lemma AddInMiddle(a: seq<SeqId>, f: seq<SeqId>, x: SeqId)
    requires Distinct(a + f) && x !in a + f
    ensures Distinct((a + [x]) + f)
    ensures forall id :: id in (a + [x]) + f <==> id == x || id in a + f
  {
    var all, more := a + f, (a + [x]) + f;
    assert forall k :: 0 <= k < |all| ==> all[k] in all;
    assert more[|a|] == x;
    assert forall k :: 0 <= k < |more| && k != |a| ==> more[k] == all[if k < |a| then k else k - 1];
    assert forall k :: 0 <= k < |all| ==> all[k] == more[if k < |a| then k else k + 1];
  }

  lemma OpKeepsInv(lim: Limits, t: Trace, op: Op)
    requires TraceInv(lim, t)
    ensures AllOk(lim, t.engine.active)
    ensures RunOp(lim, t, op).Some? ==> TraceInv(lim, RunOp(lim, t, op).value)
  {
    TraceAllOk(lim, t);
    match op
    case Add(req) =>
      if Admits(lim, t.engine, req) {
        AddKeepsInv(lim, t, req);
      }
    case Step =>
      AdvanceKeepsInv(lim, t);
      if StepEngine(lim, t.engine).Some? {
        RetireKeepsInv(lim, AdvanceAll(lim, t), StepDone(lim, t.engine));
      }
    case Cancel(id) =>
      var i := SlotOf(t.engine.active, id);
      if i < |t.engine.active| {
        FinishKeepsInv(lim, t, i);
        CancelledIrrelevant(lim, FinishSlot(t, i), t.cancelled + {id});
      }
  }

  lemma CancelledIrrelevant(lim: Limits, t: Trace, cancelled: set<SeqId>)
    requires TraceInv(lim, t)
    ensures TraceInv(lim, t.(cancelled := cancelled))
  {
    var v := t.(cancelled := cancelled);
    forall i | 0 <= i < |v.engine.active|
      ensures LiveInv(lim, v, v.engine.active[i])
    {
      assert LiveInv(lim, t, t.engine.active[i]);
    }
    forall k | 0 <= k < |v.engine.finished|
      ensures FinishedInv(lim, v, v.engine.finished[k])
    {
      assert FinishedInv(lim, t, t.engine.finished[k]);
    }
    forall id
      ensures IdOk(v, id)
    {
      assert IdOk(t, id);
    }
  }

  /** A run from the empty engine; `None` once a step has panicked. */
  function Run(lim: Limits, ops: seq<Op>): (t: Option<Trace>)
    ensures t.Some? ==> TraceInv(lim, t.value)
    decreases |ops|
  {
    if ops == [] then Some(START) else
      match Run(lim, ops[..|ops| - 1])
      case None => None
      case Some(t) =>
        OpKeepsInv(lim, t, ops[|ops| - 1]);
        RunOp(lim, t, ops[|ops| - 1])
  }

  /** One more step of a run is a step of the engine that it has reached. */
  lemma RunStep(lim: Limits, ops: seq<Op>)
    requires Run(lim, ops).Some?
    ensures AllOk(lim, Run(lim, ops).value.engine.active)
    ensures var next, more := StepEngine(lim, Run(lim, ops).value.engine), Run(lim, ops + [Step]);
            (next.Some? <==> more.Some?) && (next.Some? ==> more.value.engine == next.value)
  {
    hide StepEngine, StepOutputs, TraceInv;
    TraceAllOk(lim, Run(lim, ops).value);
    assert (ops + [Step])[..|ops|] == ops;
  }

  /** The sequence is in a slot or finished, and has generated `g`. */
  ghost predicate Holds(e: Engine, id: SeqId, g: seq<Token>) {
    || (exists i :: 0 <= i < |e.active| && e.active[i].id == id && e.active[i].generated == g)
    || (exists k :: 0 <= k < |e.finished| && e.finished[k].id == id && e.finished[k].generated == g)
  }

  /**
   Batch isolation and streaming, for every interleaving of add, step and cancel that does not panic: whatever
   the neighbours, chunk sizes and compactions, what the steps have returned for an admitted sequence is exactly
   the first tokens that its request generates alone, and what the engine holds for it.
   */
  lemma GeneratedIsSequential(lim: Limits, ops: seq<Op>, id: SeqId)
    requires Run(lim, ops).Some?
    ensures var t := Run(lim, ops).value;
            var g := TokensOf(t.emitted, id);
            && (id !in t.requests ==> g == [])
            && (id in t.requests ==>
                  && t.requests[id].prompt != []
                  && g == Greedy(lim.model, t.requests[id], |g|)
                  && Holds(t.engine, id, g))
  {
    hide Greedy, TokensOf, RunOp;
    var t := Run(lim, ops).value;
    assert IdOk(t, id);
    if id in t.requests {
      var live, j := PlaceOf(t.engine, id);
      if live {
        assert LiveInv(lim, t, t.engine.active[j]);
      } else {
        assert FinishedInv(lim, t, t.engine.finished[j]);
      }
    }
  }

  /** Where an id is. */
  lemma PlaceOf(e: Engine, id: SeqId) returns (live: bool, j: nat)
    requires id in AllIds(e)
    ensures if live then j < |e.active| && e.active[j].id == id
            else j < |e.finished| && e.finished[j].id == id
  {
    var ids := AllIds(e);
    var k :| 0 <= k < |ids| && ids[k] == id;
    live := k < |e.active|;
    j := if live then k else k - |e.active|;
  }
}
