/**
 The continuous-batching scheduler (continuous.rs) without caches and batches: each sequence advances on its
 own, by the number of rows the step grants it. The concrete engine is proved to refine this one, and the
 properties of whole runs are proved about this one.
 */
module EngineSpec {
  import opened Arithmetic
  import opened Collections
  import opened Tokens
  import opened Batched

  type SeqId = nat

  datatype Request = Request(prompt: seq<Token>, maxNew: nat, eos: Option<Token>, stops: seq<seq<Token>>,
                             params: Params)

  /** A sequence in a slot: how many of its tokens are in the cache, and what it has generated. */
  datatype Live = Live(id: SeqId, req: Request, len: nat, generated: seq<Token>)

  datatype Finished = Finished(id: SeqId, generated: seq<Token>, stopped: bool)

  datatype Limits = Limits(model: Model, capacity: nat, prefillRows: nat, maxSeqLen: nat, gdn: bool)

  datatype Engine = Engine(active: seq<Live>, finished: seq<Finished>, nextId: SeqId)

  // ----- the sequence alone

  /** Occurrence counts of the generated tokens. */
  function CountsOf(generated: seq<Token>): map<Token, nat> {
    if generated == [] then map[] else
      var last := |generated| - 1;
      CountMore(CountsOf(generated[..last]), generated[last])
  }

  function CountMore(counts: map<Token, nat>, t: Token): map<Token, nat> {
    counts[t := if t in counts then counts[t] + 1 else 1]
  }

  /** The greedy continuation of a request after `generated`. */
  function NextToken(m: Model, req: Request, generated: seq<Token>): Token
    requires req.prompt != []
  {
    m.sample(HiddenAt(m, m.layers, req.prompt + generated), CountsOf(generated), req.params)
  }

  /** The first `n` tokens that the request generates alone, one token at a time. */
  function Greedy(m: Model, req: Request, n: nat): (g: seq<Token>)
    requires req.prompt != []
    ensures |g| == n
  {
    if n == 0 then [] else
      var g := Greedy(m, req, n - 1);
      g + [NextToken(m, req, g)]
  }

  predicate EndsWithStop(generated: seq<Token>, stops: seq<seq<Token>>) {
    exists i :: 0 <= i < |stops| && stops[i] != [] && EndsWith(generated, stops[i])
  }

  predicate EndsWith(s: seq<Token>, suffix: seq<Token>) {
    |suffix| <= |s| && s[|s| - |suffix|..] == suffix
  }

  /** The end-of-sequence token or a stop sequence. */
  predicate Stopped(req: Request, generated: seq<Token>) {
    || (generated != [] && req.eos == Some(generated[|generated| - 1]))
    || EndsWithStop(generated, req.stops)
  }

  /** A finish rule holds: stopped, or the budget of new tokens is used up. */
  predicate RuleStops(req: Request, generated: seq<Token>) {
    Stopped(req, generated) || |generated| >= req.maxNew
  }

  /** The prompt and all but the last generated token fill the context. */
  predicate ContextFull(lim: Limits, req: Request, generated: seq<Token>) {
    generated != [] && |req.prompt| + |generated| - 1 >= lim.maxSeqLen
  }

  /** Where the request alone stops generating. */
  predicate SoloDone(lim: Limits, req: Request, n: nat)
    requires req.prompt != []
  {
    var g := Greedy(lim.model, req, n);
    RuleStops(req, g) || ContextFull(lim, req, g)
  }

  /** The complete output of the request alone: at least one token, up to the first stop. */
  function Solo(lim: Limits, req: Request, n: nat): seq<Token>
    requires req.prompt != [] && n > 0
    decreases lim.maxSeqLen - (|req.prompt| + n)
  {
    if SoloDone(lim, req, n) then Greedy(lim.model, req, n) else Solo(lim, req, n + 1)
  }

  // ----- one step of one sequence

  predicate Prefilling(s: Live) {
    s.len < |s.req.prompt|
  }

  predicate AtLimit(lim: Limits, s: Live) {
    !Prefilling(s) && s.len >= lim.maxSeqLen
  }

  /** How a sequence in a slot can look: in its prompt, or with all but its last token cached. */
  predicate LiveOk(lim: Limits, s: Live) {
    && s.req.prompt != [] && |s.req.prompt| <= lim.maxSeqLen && s.len <= lim.maxSeqLen
    && if Prefilling(s) then s.generated == []
       else s.generated != [] && s.len == |s.req.prompt| + |s.generated| - 1
  }

  /** Rows granted to a sequence out of the remaining budget. */
  function TakeOf(lim: Limits, s: Live, budget: nat): nat {
    if budget == 0 then 0
    else if Prefilling(s) then
      var rest := Min(|s.req.prompt| - s.len, budget);
      if lim.gdn then Min(rest, GDN_CHUNK_MAX) else rest
    else if s.len >= lim.maxSeqLen then 0
    else 1
  }

  function Takes(lim: Limits, active: seq<Live>, budget: nat): (takes: seq<nat>)
    ensures |takes| == |active|
  {
    if active == [] then [] else
      var take := TakeOf(lim, active[0], budget);
      [take] + Takes(lim, active[1..], budget - take)
  }

  /** The step produces a token: the last prompt row, or a decode row. */
  predicate Emits(s: Live, take: nat) {
    take > 0 && s.len + take >= |s.req.prompt|
  }

  function Advance(lim: Limits, s: Live, take: nat): Live
    requires s.req.prompt != []
  {
    if Emits(s, take) then
      s.(len := s.len + take, generated := s.generated + [NextToken(lim.model, s.req, s.generated)])
    else
      s.(len := s.len + take)
  }

  lemma AdvanceKeepsOk(lim: Limits, s: Live, budget: nat)
    requires LiveOk(lim, s)
    ensures LiveOk(lim, Advance(lim, s, TakeOf(lim, s, budget)))
  {
  }

  // ----- one step of the engine

  ghost predicate AllOk(lim: Limits, active: seq<Live>) {
    forall i :: 0 <= i < |active| ==> LiveOk(lim, active[i])
  }

  function Advanced(lim: Limits, active: seq<Live>, takes: seq<nat>): (r: seq<Live>)
    requires |takes| == |active| && forall i :: 0 <= i < |active| ==> LiveOk(lim, active[i])
    ensures |r| == |active|
  {
    seq(|active|, i requires 0 <= i < |active| && LiveOk(lim, active[i]) => Advance(lim, active[i], takes[i]))
  }

  /** Tokens returned by the step, in slot order. */
  function Outputs(before: seq<Live>, takes: seq<nat>, after: seq<Live>): seq<(SeqId, Token)>
    requires |takes| == |before| == |after|
    requires forall i :: 0 <= i < |after| && Emits(before[i], takes[i]) ==> after[i].generated != []
  {
    if before == [] then [] else
      (if Emits(before[0], takes[0]) then [(after[0].id, after[0].generated[|after[0].generated| - 1])] else [])
      + Outputs(before[1..], takes[1..], after[1..])
  }

  predicate DoneByRule(before: Live, take: nat, after: Live) {
    Emits(before, take) && RuleStops(after.req, after.generated)
  }

  /** Slots below `n` whose new token finishes them, in order. */
  function RuleSlots(before: seq<Live>, takes: seq<nat>, after: seq<Live>, n: nat): seq<nat>
    requires |takes| == |before| == |after| && n <= |before|
  {
    if n == 0 then [] else
      RuleSlots(before, takes, after, n - 1)
      + if DoneByRule(before[n - 1], takes[n - 1], after[n - 1]) then [n - 1] else []
  }

  /** Slots below `n` that are at the context limit and not listed in `done`, in order. */
  function LimitSlots(lim: Limits, after: seq<Live>, done: seq<nat>, n: nat): seq<nat>
    requires n <= |after|
  {
    if n == 0 then [] else
      LimitSlots(lim, after, done, n - 1)
      + if AtLimit(lim, after[n - 1]) && (n - 1) !in done then [n - 1] else []
  }

  function DoneSlots(lim: Limits, before: seq<Live>, takes: seq<nat>, after: seq<Live>): seq<nat>
    requires |takes| == |before| == |after|
  {
    var rule := RuleSlots(before, takes, after, |before|);
    rule + LimitSlots(lim, after, rule, |after|)
  }

  function FinishOf(s: Live): Finished {
    Finished(s.id, s.generated, Stopped(s.req, s.generated))
  }

  /**
   Retires the listed slots from the last to the first, by position at the time; `None` when a position is
   out of range, where the original panics.
   */
  function Retire(active: seq<Live>, finished: seq<Finished>, done: seq<nat>): Option<(seq<Live>, seq<Finished>)>
    decreases |done|
  {
    if done == [] then Some((active, finished)) else
      var last := |done| - 1;
      if done[last] >= |active| then None else
        Retire(Without(active, done[last]), finished + [FinishOf(active[done[last]])], done[..last])
  }

  function AfterTakes(lim: Limits, e: Engine): seq<Live>
    requires forall i :: 0 <= i < |e.active| ==> LiveOk(lim, e.active[i])
  {
    Advanced(lim, e.active, Takes(lim, e.active, lim.prefillRows))
  }

  function StepDone(lim: Limits, e: Engine): seq<nat>
    requires forall i :: 0 <= i < |e.active| ==> LiveOk(lim, e.active[i])
  {
    DoneSlots(lim, e.active, Takes(lim, e.active, lim.prefillRows), AfterTakes(lim, e))
  }

  /** The engine after one step, or `None` when retiring panics. */
  function StepEngine(lim: Limits, e: Engine): Option<Engine>
    requires forall i :: 0 <= i < |e.active| ==> LiveOk(lim, e.active[i])
  {
    match Retire(AfterTakes(lim, e), e.finished, StepDone(lim, e))
    case None => None
    case Some((active, finished)) => Some(e.(active := active, finished := finished))
  }

  function StepOutputs(lim: Limits, e: Engine): seq<(SeqId, Token)>
    requires forall i :: 0 <= i < |e.active| ==> LiveOk(lim, e.active[i])
  {
    Outputs(e.active, Takes(lim, e.active, lim.prefillRows), AfterTakes(lim, e))
  }

  /** A new sequence takes the next free slot. */
  predicate Admits(lim: Limits, e: Engine, req: Request) {
    0 < |req.prompt| <= lim.maxSeqLen && |e.active| < lim.capacity
  }

  function AddEngine(e: Engine, req: Request): Engine {
    e.(active := e.active + [Live(e.nextId, req, 0, [])], nextId := e.nextId + 1)
  }

  /** Finishing the sequence in slot `i`, by cancellation. */
  function FinishEngine(e: Engine, i: nat): Engine
    requires i < |e.active|
  {
    e.(active := Without(e.active, i), finished := e.finished + [FinishOf(e.active[i])])
  }

  // ----- basic facts

  lemma {:induction false} CountsAreMultiset(generated: seq<Token>, t: Token)
    ensures t in CountsOf(generated) <==> t in generated
    ensures t in generated ==> CountsOf(generated)[t] == multiset(generated)[t]
  {
    if generated != [] {
      var last := |generated| - 1;
      CountsAreMultiset(generated[..last], t);
      assert generated == generated[..last] + [generated[last]];
    }
  }

  lemma {:induction false} TakesAt(lim: Limits, active: seq<Live>, budget: nat, i: nat)
    requires i < |active|
    ensures exists b: nat :: b <= budget && Takes(lim, active, budget)[i] == TakeOf(lim, active[i], b)
    ensures i == 0 ==> Takes(lim, active, budget)[0] == TakeOf(lim, active[0], budget)
    decreases |active|
  {
    var take := TakeOf(lim, active[0], budget);
    if i > 0 {
      TakesAt(lim, active[1..], budget - take, i - 1);
    }
  }

  /** The grants of a step never exceed its row budget. */
  lemma {:induction false} TakesFitBudget(lim: Limits, active: seq<Live>, budget: nat)
    ensures Sum(Takes(lim, active, budget)) <= budget
    decreases |active|
  {
    if active != [] {
      var take := TakeOf(lim, active[0], budget);
      TakesFitBudget(lim, active[1..], budget - take);
    }
  }

  /**
   Who gets the rows of a step: slots are served in order, and a sequence gets less than it can use only when the
   budget is used up. It can use the rest of its prompt, in models with recurrent layers at most twelve rows of it,
   and then one row a step until its context is full.
   */
  lemma {:induction false} GrantsAreMaximal(lim: Limits, active: seq<Live>, budget: nat, i: nat)
    requires i < |active|
    ensures var s, takes := active[i], Takes(lim, active, budget);
            && Sum(takes[..i + 1]) <= budget
            && (s.len < |s.req.prompt| ==>
                  && takes[i] <= |s.req.prompt| - s.len && (lim.gdn ==> takes[i] <= 12)
                  && (takes[i] < |s.req.prompt| - s.len && (lim.gdn ==> takes[i] < 12) ==>
                        Sum(takes[..i + 1]) == budget))
            && (s.len >= |s.req.prompt| ==>
                  && takes[i] <= 1 && (s.len >= lim.maxSeqLen ==> takes[i] == 0)
                  && (s.len < lim.maxSeqLen && takes[i] == 0 ==> Sum(takes[..i + 1]) == budget))
    decreases |active|
  {
    var take := TakeOf(lim, active[0], budget);
    var takes, rest := Takes(lim, active, budget), Takes(lim, active[1..], budget - take);
    assert takes[..i + 1] == [take] + rest[..i];
    SumOfFirst(take, rest[..i]);
    if i > 0 {
      GrantsAreMaximal(lim, active[1..], budget - take, i - 1);
      assert rest[..(i - 1) + 1] == rest[..i];
    }
  }

  lemma SumOfFirst(x: nat, rest: seq<nat>)
    ensures Sum([x] + rest) == x + Sum(rest)
  {
    assert ([x] + rest)[1..] == rest;
  }

  lemma AdvancedOk(lim: Limits, e: Engine)
    requires AllOk(lim, e.active)
    ensures AllOk(lim, AfterTakes(lim, e))
    ensures forall i :: 0 <= i < |e.active| ==>
              AfterTakes(lim, e)[i].id == e.active[i].id && AfterTakes(lim, e)[i].req == e.active[i].req
  {
    var takes := Takes(lim, e.active, lim.prefillRows);
    forall i | 0 <= i < |e.active|
      ensures LiveOk(lim, AfterTakes(lim, e)[i])
    {
      TakesAt(lim, e.active, lim.prefillRows, i);
      var b: nat :| b <= lim.prefillRows && takes[i] == TakeOf(lim, e.active[i], b);
      AdvanceKeepsOk(lim, e.active[i], b);
    }
  }
}
