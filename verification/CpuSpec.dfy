/**
 The CPU engine's requests (cpu_engine.rs) against the sequential decode of its tests: prefill the prompt, then
 repeat argmax and one decode step. The reference model is uninterpreted.
 */
module CpuSpec {
  import opened Collections
  import opened Tokens
  import opened RequestFsm

  type ModelState(==, !new)

  /** A logit. Only the order of the numbers matters, so infinities need no cases of their own. */
  datatype Logit = NaN | Num(value: real)

  type Logits = seq<Logit>

  /** The reference model: its fresh state, the forward pass of a prompt, and one decode step. */
  datatype RefModel = RefModel(
    start: ModelState,
    forward: seq<Token> -> (ModelState, Logits),
    decodeStep: (ModelState, Token) -> (ModelState, Logits))

  // ----- greedy choice

  /** The comparison of the original: whether `a` is greater; a NaN is neither greater nor smaller than anything. */
  predicate Greater(a: Logit, b: Logit) {
    a.Num? && b.Num? && a.value > b.value
  }

  /** The index that stays when each logit in turn replaces one that is not greater; 0 for the empty vector. */
  function ArgmaxOf(v: Logits): (best: nat)
    ensures v != [] ==> best < |v|
  {
    if |v| <= 1 then 0 else
      var k := ArgmaxOf(v[..|v| - 1]);
      if Greater(v[k], v[|v| - 1]) then k else |v| - 1
  }

  /** Where the numbers behind the last NaN start. */
  function AfterNaNs(v: Logits): (from: nat)
    ensures from <= |v|
    ensures forall j :: from <= j < |v| ==> v[j].Num?
    ensures from > 0 ==> v[from - 1].NaN?
  {
    if v == [] then 0 else if v[|v| - 1].NaN? then |v| else AfterNaNs(v[..|v| - 1])
  }

  /**
   The greedy choice is the last of the largest logits. A NaN hides everything before it: the choice is among the
   numbers behind the last NaN, and is that NaN if it ends the vector.
   */
  lemma {:induction false} ArgmaxIsLastMaximum(v: Logits)
    requires v != []
    ensures AfterNaNs(v) == |v| ==> ArgmaxOf(v) == |v| - 1
    ensures AfterNaNs(v) < |v| ==>
              && AfterNaNs(v) <= ArgmaxOf(v)
              && (forall j :: AfterNaNs(v) <= j < |v| ==> v[j].value <= v[ArgmaxOf(v)].value)
              && (forall j :: ArgmaxOf(v) < j < |v| ==> v[j].value < v[ArgmaxOf(v)].value)
  {
    if |v| > 1 {
      ArgmaxIsLastMaximum(v[..|v| - 1]);
    }
  }

  method Argmax(v: Logits) returns (best: nat)
    ensures best == ArgmaxOf(v)
  {
    best := 0;
    for i := 0 to |v|
      invariant best == ArgmaxOf(v[..i]) && (i > 0 ==> best < i)
    {
      assert v[..i + 1][..i] == v[..i];
      if i == 0 || !Greater(v[best], v[i]) {
        best := i;
      }
    }
    assert v[..|v|] == v;
  }

  // ----- the sequential decode

  /** A request under way: model state, the logits of the next token, and the tokens decoded. */
  datatype Progress = Progress(state: ModelState, logits: Logits, out: seq<Token>)

  function Advance(m: RefModel, p: Progress): Progress {
    var token := ArgmaxOf(p.logits);
    var next := m.decodeStep(p.state, token);
    Progress(next.0, next.1, p.out + [token])
  }

  /** The request alone after `n` decoded tokens. */
  function Sequential(m: RefModel, prompt: seq<Token>, n: nat): (p: Progress)
    ensures |p.out| == n
  {
    if n == 0 then Progress(m.forward(prompt).0, m.forward(prompt).1, [])
    else Advance(m, Sequential(m, prompt, n - 1))
  }

  // ----- requests in the engine

  datatype Request = Request(prompt: seq<Token>, maxNew: nat)

  datatype Pending = Pending(id: nat, prompt: seq<Token>, maxNew: nat)

  datatype Slot = Slot(id: nat, state: RequestState, prompt: seq<Token>, maxNew: nat, generated: seq<Token>,
                       model: ModelState, nextLogits: Logits, reused: nat, computed: nat)

  datatype FinishedRequest = FinishedRequest(id: nat, generated: seq<Token>, reused: nat, computed: nat,
                                             promptTokens: nat)

  datatype Stats = Stats(requests: nat, steps: nat, promptTotal: nat, reused: nat, computed: nat, decoded: nat)

  /** Admitted and not prefilled. */
  predicate Waiting(s: Slot) {
    s.state == Submitted(s.prompt, 0, s.maxNew) && s.generated == [] && s.prompt != []
  }

  /** Prefilled: exactly where the request alone is after as many tokens. */
  predicate Running(m: RefModel, s: Slot) {
    && s.state == Decoding(s.prompt + s.generated, |s.generated|, 0, s.maxNew)
    && Progress(s.model, s.nextLogits, s.generated) == Sequential(m, s.prompt, |s.generated|)
    && |s.generated| <= s.maxNew
  }

  /** Completed in this step. */
  predicate Completed(m: RefModel, s: Slot) {
    s.state == Finished && s.generated == Sequential(m, s.prompt, s.maxNew).out
  }

  /** Between steps a slot waits for its prefill or has tokens left to decode. */
  predicate SlotOk(m: RefModel, s: Slot) {
    Waiting(s) || (Running(m, s) && |s.generated| < s.maxNew)
  }

  // ----- where the ids are

  function Is(a: nat, b: nat): nat {
    if a == b then 1 else 0
  }

  function InSlot(s: Option<Slot>, id: nat): nat {
    if s.Some? then Is(s.value.id, id) else 0
  }

  function InSlots(slots: seq<Option<Slot>>, id: nat): nat {
    if slots == [] then 0 else InSlots(slots[..|slots| - 1], id) + InSlot(slots[|slots| - 1], id)
  }

  function InPending(pending: seq<Pending>, id: nat): nat {
    if pending == [] then 0 else InPending(pending[..|pending| - 1], id) + Is(pending[|pending| - 1].id, id)
  }

  function InDone(done: seq<FinishedRequest>, id: nat): nat {
    if done == [] then 0 else InDone(done[..|done| - 1], id) + Is(done[|done| - 1].id, id)
  }

  function InFailed(failed: seq<nat>, id: nat): nat {
    if failed == [] then 0 else InFailed(failed[..|failed| - 1], id) + Is(failed[|failed| - 1], id)
  }

  /** Every added request, and no other, is in exactly one place: queued, in a slot, done or failed. */
  ghost predicate IdOk(requests: map<nat, Request>, pending: seq<Pending>, slots: seq<Option<Slot>>,
                       done: seq<FinishedRequest>, failed: seq<nat>, id: nat)
  {
    InPending(pending, id) + InSlots(slots, id) + InDone(done, id) + InFailed(failed, id)
    == if id in requests then 1 else 0
  }

  ghost predicate IdsOk(requests: map<nat, Request>, pending: seq<Pending>, slots: seq<Option<Slot>>,
                        done: seq<FinishedRequest>, failed: seq<nat>)
  {
    forall id: nat :: IdOk(requests, pending, slots, done, failed, id)
  }

  lemma QueueKeepsIds(requests: map<nat, Request>, pending: seq<Pending>, slots: seq<Option<Slot>>,
                      done: seq<FinishedRequest>, failed: seq<nat>, p: Pending)
    requires IdsOk(requests, pending, slots, done, failed) && p.id !in requests
    ensures IdsOk(requests[p.id := Request(p.prompt, p.maxNew)], pending + [p], slots, done, failed)
  {
    var more, longer := requests[p.id := Request(p.prompt, p.maxNew)], pending + [p];
    assert longer[..|pending|] == pending;
    forall id: nat
      ensures IdOk(more, longer, slots, done, failed, id)
    {
      assert IdOk(requests, pending, slots, done, failed, id);
    }
  }

  lemma AdmitKeepsIds(requests: map<nat, Request>, pending: seq<Pending>, slots: seq<Option<Slot>>,
                      done: seq<FinishedRequest>, failed: seq<nat>, i: nat, s: Slot)
    requires IdsOk(requests, pending, slots, done, failed)
    requires i < |slots| && slots[i].None? && pending != [] && s.id == pending[0].id
    ensures IdsOk(requests, pending[1..], slots[i := Some(s)], done, failed)
  {
    var fewer, filled := pending[1..], slots[i := Some(s)];
    forall id: nat
      ensures IdOk(requests, fewer, filled, done, failed, id)
    {
      assert IdOk(requests, pending, slots, done, failed, id);
      InPendingPop(pending, id);
      InSlotsUpdate(slots, i, Some(s), id);
    }
  }

  lemma ReplaceKeepsIds(requests: map<nat, Request>, pending: seq<Pending>, slots: seq<Option<Slot>>,
                        done: seq<FinishedRequest>, failed: seq<nat>, i: nat, t: Slot)
    requires IdsOk(requests, pending, slots, done, failed)
    requires i < |slots| && slots[i].Some? && slots[i].value.id == t.id
    ensures IdsOk(requests, pending, slots[i := Some(t)], done, failed)
  {
    var now := slots[i := Some(t)];
    forall id: nat
      ensures IdOk(requests, pending, now, done, failed, id)
    {
      assert IdOk(requests, pending, slots, done, failed, id);
      InSlotsUpdate(slots, i, Some(t), id);
    }
  }

  lemma FinishKeepsIds(requests: map<nat, Request>, pending: seq<Pending>, slots: seq<Option<Slot>>,
                       done: seq<FinishedRequest>, failed: seq<nat>, i: nat, f: FinishedRequest)
    requires IdsOk(requests, pending, slots, done, failed)
    requires i < |slots| && slots[i].Some? && slots[i].value.id == f.id
    ensures IdsOk(requests, pending, slots[i := None], done + [f], failed)
  {
    var now, longer := slots[i := None], done + [f];
    assert longer[..|done|] == done;
    forall id: nat
      ensures IdOk(requests, pending, now, longer, failed, id)
    {
      assert IdOk(requests, pending, slots, done, failed, id);
      InSlotsUpdate(slots, i, None, id);
    }
  }

  lemma FailKeepsIds(requests: map<nat, Request>, pending: seq<Pending>, slots: seq<Option<Slot>>,
                     done: seq<FinishedRequest>, failed: seq<nat>, i: nat)
    requires IdsOk(requests, pending, slots, done, failed) && i < |slots| && slots[i].Some?
    ensures IdsOk(requests, pending, slots[i := None], done, failed + [slots[i].value.id])
  {
    var now, longer := slots[i := None], failed + [slots[i].value.id];
    assert longer[..|failed|] == failed;
    forall id: nat
      ensures IdOk(requests, pending, now, done, longer, id)
    {
      assert IdOk(requests, pending, slots, done, failed, id);
      InSlotsUpdate(slots, i, None, id);
    }
  }

  lemma {:induction false} InSlotsUpdate(slots: seq<Option<Slot>>, i: nat, s: Option<Slot>, id: nat)
    requires i < |slots|
    ensures InSlots(slots[i := s], id) + InSlot(slots[i], id) == InSlots(slots, id) + InSlot(s, id)
  {
    var n := |slots| - 1;
    if i == n {
      assert slots[i := s][..n] == slots[..n];
    } else {
      InSlotsUpdate(slots[..n], i, s, id);
      assert slots[i := s][..n] == slots[..n][i := s];
    }
  }

  lemma {:induction false} InNoSlot(slots: seq<Option<Slot>>, id: nat)
    requires forall i :: 0 <= i < |slots| ==> slots[i].None?
    ensures InSlots(slots, id) == 0
  {
    if slots != [] {
      InNoSlot(slots[..|slots| - 1], id);
    }
  }

  lemma {:induction false} InPendingPop(pending: seq<Pending>, id: nat)
    requires pending != []
    ensures InPending(pending, id) == Is(pending[0].id, id) + InPending(pending[1..], id)
  {
    var n := |pending| - 1;
    if n > 0 {
      InPendingPop(pending[..n], id);
      assert pending[..n][1..] == pending[1..][..n - 1];
    }
  }

  /** What the statistics must be after these requests. */
  function StatsOf(done: seq<FinishedRequest>, steps: nat): Stats {
    if done == [] then Stats(0, steps, 0, 0, 0, 0) else
      var s, f := StatsOf(done[..|done| - 1], steps), done[|done| - 1];
      Stats(s.requests + 1, steps, s.promptTotal + f.promptTokens, s.reused + f.reused, s.computed + f.computed,
            s.decoded + |f.generated|)
  }

  lemma {:induction false} StatsOfSteps(done: seq<FinishedRequest>, steps: nat, more: nat)
    ensures StatsOf(done, more) == StatsOf(done, steps).(steps := more)
  {
    if done != [] {
      StatsOfSteps(done[..|done| - 1], steps, more);
    }
  }

  // ----- the work left

  function WorkOf(s: Option<Slot>): nat {
    if s.None? then 0
    else if s.value.state.Submitted? then s.value.maxNew + 3
    else if s.value.state.Decoding? && |s.value.generated| <= s.value.maxNew then
      s.value.maxNew - |s.value.generated| + 2
    else 1
  }

  function SlotWork(slots: seq<Option<Slot>>): nat {
    if slots == [] then 0 else SlotWork(slots[..|slots| - 1]) + WorkOf(slots[|slots| - 1])
  }

  lemma {:induction false} SlotWorkUpdate(slots: seq<Option<Slot>>, i: nat, s: Option<Slot>)
    requires i < |slots|
    ensures SlotWork(slots[i := s]) + WorkOf(slots[i]) == SlotWork(slots) + WorkOf(s)
  {
    var n := |slots| - 1;
    if i == n {
      assert slots[i := s][..n] == slots[..n];
    } else {
      SlotWorkUpdate(slots[..n], i, s);
      assert slots[i := s][..n] == slots[..n][i := s];
    }
  }

  function PendingWork(pending: seq<Pending>): nat {
    if pending == [] then 0 else PendingWork(pending[..|pending| - 1]) + pending[|pending| - 1].maxNew + 4
  }

  lemma {:induction false} PendingWorkPop(pending: seq<Pending>)
    requires pending != []
    ensures PendingWork(pending) == pending[0].maxNew + 4 + PendingWork(pending[1..])
  {
    var n := |pending| - 1;
    if n > 0 {
      PendingWorkPop(pending[..n]);
      assert pending[..n][1..] == pending[1..][..n - 1];
    }
  }
}
