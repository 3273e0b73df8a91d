/**
 The CPU continuous-batching engine (cpu_engine.rs). The prefix cache is an environment: it either fails, or
 leaves the model and the logits exactly as a full forward pass of the prompt would.
 */
module CpuEngine {
  import opened Collections
  import opened Tokens
  import opened RequestFsm
  import opened CpuSpec

  datatype AddResult = Queued(id: nat) | EmptyPrompt | QueueFull

  datatype StepResult = Worked | Idle | PrefillFailed(id: nat)

  datatype Served = Hit(reused: nat, computed: nat) | PoolTooSmall

  /** The prefix cache's answer: anything, at any time. */
  method Serve(prompt: seq<Token>) returns (r: Served)
  {
    r := *;
  }

  // ----- one slot

  /** Prefills a slot through the cache; the slot is unchanged when the cache fails. */
  method PrefillSlot(m: RefModel, s: Slot) returns (ok: bool, t: Slot, served: Served)
    requires Waiting(s)
    ensures ok <==> served.Hit?
    ensures ok ==> t.reused == served.reused && t.computed == served.computed
    ensures ok ==> Running(m, t) && t.generated == [] && t.id == s.id && t.prompt == s.prompt && t.maxNew == s.maxNew
    ensures !ok ==> t == s
  {
    served := Serve(s.prompt);
    if served.PoolTooSmall? {
      return false, s, served;
    }
    var prefilled := Apply(SchedulePrefillFirstChunk(|s.prompt|, 0), s.state);
    var decoding := Apply(ScheduleDecode(0), prefilled.value);
    var (state, logits) := m.forward(s.prompt);
    assert s.prompt + [] == s.prompt;
    t := Slot(s.id, decoding.value, s.prompt, s.maxNew, s.generated, state, logits, served.reused, served.computed);
    ok := true;
  }

  /** One more token, unless the budget is used up; nothing else about the request changes. */
  predicate DecodedOnce(s: Slot, t: Slot) {
    && t.id == s.id && t.prompt == s.prompt && t.maxNew == s.maxNew
    && t.reused == s.reused && t.computed == s.computed
    && if |s.generated| >= s.maxNew then t.generated == s.generated
       else s.generated <= t.generated && |t.generated| == |s.generated| + 1
  }

  /** Decodes one token, unless the budget is used up; the lifecycle event is always legal. */
  method DecodeSlot(m: RefModel, s: Slot) returns (t: Slot, finished: bool)
    requires Running(m, s)
    ensures DecodedOnce(s, t)
    ensures finished <==> |s.generated| + 1 >= s.maxNew
    ensures finished ==> Completed(m, t)
    ensures !finished ==> Running(m, t) && |t.generated| == |s.generated| + 1 < s.maxNew
    ensures WorkOf(Some(t)) < WorkOf(Some(s))
  {
    if |s.generated| >= s.maxNew {
      return s.(state := Apply(Succeeded, s.state).value), true;
    }
    var tok := Argmax(s.nextLogits);
    var (model, logits) := m.decodeStep(s.model, tok);
    assert Sequential(m, s.prompt, |s.generated| + 1) == Advance(m, Sequential(m, s.prompt, |s.generated|));
    assert (s.prompt + s.generated) + [tok] == s.prompt + (s.generated + [tok]);
    var extended := Apply(ExtendResult([tok]), s.state).value;
    t := Slot(s.id, extended, s.prompt, s.maxNew, s.generated + [tok], model, logits, s.reused, s.computed);
    finished := |t.generated| >= t.maxNew;
    if finished {
      t := t.(state := Apply(Succeeded, t.state).value);
    }
  }

  // ----- the engine

  /** The slot or record carries the request that was added under its id. */
  predicate Carries(requests: map<nat, Request>, id: nat, prompt: seq<Token>, maxNew: nat) {
    id in requests && requests[id] == Request(prompt, maxNew)
  }

  predicate PendingOk(requests: map<nat, Request>, p: Pending) {
    p.prompt != [] && Carries(requests, p.id, p.prompt, p.maxNew)
  }

  /** A completed record holds exactly the sequential greedy decode of its request. */
  predicate DoneOk(m: RefModel, requests: map<nat, Request>, f: FinishedRequest) {
    && f.id in requests && f.promptTokens == |requests[f.id].prompt|
    && f.generated == Sequential(m, requests[f.id].prompt, requests[f.id].maxNew).out
  }

  datatype Phase = Between | Prefilled | Decoded

  predicate InPhase(m: RefModel, phase: Phase, s: Slot) {
    SlotOk(m, s) || (phase == Prefilled && Running(m, s)) || (phase == Decoded && Completed(m, s))
  }

  predicate SlotFits(m: RefModel, requests: map<nat, Request>, phase: Phase, s: Option<Slot>) {
    s.Some? ==> InPhase(m, phase, s.value) && Carries(requests, s.value.id, s.value.prompt, s.value.maxNew)
  }

  ghost predicate SlotsFit(m: RefModel, requests: map<nat, Request>, phase: Phase, slots: seq<Option<Slot>>) {
    forall i :: 0 <= i < |slots| ==> SlotFits(m, requests, phase, slots[i])
  }

  ghost predicate PendingsOk(requests: map<nat, Request>, pending: seq<Pending>) {
    forall i :: 0 <= i < |pending| ==> PendingOk(requests, pending[i])
  }

  ghost predicate RecordsOk(m: RefModel, requests: map<nat, Request>, done: seq<FinishedRequest>) {
    forall k :: 0 <= k < |done| ==> DoneOk(m, requests, done[k])
  }

  // ----- what the parts of a step do to the slots

  /** How many of the first `n` slots are free. */
  function FreeBefore(slots: seq<Option<Slot>>, n: nat): nat
    requires n <= |slots|
  {
    if n == 0 then 0 else FreeBefore(slots, n - 1) + if slots[n - 1].None? then 1 else 0
  }

  /** The first `n` queued requests are in the first free slots, in order; the other slots are as before. */
  ghost predicate AdmittedInto(m: RefModel, was: seq<Option<Slot>>, queue: seq<Pending>, now: seq<Option<Slot>>,
                               n: nat)
  {
    && |now| == |was| && n <= |queue|
    && forall i :: 0 <= i < |was| ==> AdmittedAt(m, was, queue, now, n, i)
  }

  ghost predicate AdmittedAt(m: RefModel, was: seq<Option<Slot>>, queue: seq<Pending>, now: seq<Option<Slot>>, n: nat,
                             i: nat)
    requires |now| == |was| && n <= |queue| && i < |was|
  {
    if was[i].Some? then now[i] == was[i]
    else if FreeBefore(was, i) >= n then now[i].None?
    else
      var p := queue[FreeBefore(was, i)];
      && now[i].Some? && Waiting(now[i].value) && now[i].value.model == m.start
      && now[i].value.id == p.id && now[i].value.prompt == p.prompt && now[i].value.maxNew == p.maxNew
  }

  /** The slot holds a request whose prompt is not prefilled. */
  predicate Waits(s: Option<Slot>) {
    s.Some? && s.value.state.Submitted?
  }

  /** The waiting slot with the lowest index. */
  predicate FirstWaits(slots: seq<Option<Slot>>, i: nat) {
    i < |slots| && Waits(slots[i]) && forall k :: 0 <= k < i ==> !Waits(slots[k])
  }

  /** Only the first waiting slot is prefilled. */
  ghost predicate PrefilledFrom(m: RefModel, was: seq<Option<Slot>>, now: seq<Option<Slot>>) {
    && |now| == |was|
    && ((forall i :: 0 <= i < |was| ==> !Waits(was[i])) ==> now == was)
    && forall i: nat :: FirstWaits(was, i) ==>
         && now == was[i := now[i]] && now[i].Some? && Running(m, now[i].value) && now[i].value.generated == []
         && now[i].value.id == was[i].value.id && now[i].value.prompt == was[i].value.prompt
         && now[i].value.maxNew == was[i].value.maxNew
  }

  /** Every slot that decodes has one more token, and the others are as before. */
  ghost predicate AllDecoded(was: seq<Option<Slot>>, now: seq<Option<Slot>>) {
    |now| == |was| && forall i :: 0 <= i < |was| ==> SlotDecoded(was[i], now[i])
  }

  predicate SlotDecoded(was: Option<Slot>, now: Option<Slot>) {
    if was.Some? && was.value.state.Decoding? then now.Some? && DecodedOnce(was.value, now.value) else now == was
  }

  /** The records of the listed slots have been added, in order. */
  ghost predicate Recorded(was: seq<FinishedRequest>, now: seq<FinishedRequest>, slots: seq<Option<Slot>>,
                           done: seq<nat>)
  {
    && |now| == |was| + |done| && was <= now
    && forall j :: 0 <= j < |done| ==> RecordAt(now[|was| + j], slots, done[j])
  }

  predicate RecordAt(f: FinishedRequest, slots: seq<Option<Slot>>, i: nat) {
    && i < |slots| && slots[i].Some?
    && f.id == slots[i].value.id && f.generated == slots[i].value.generated
    && f.reused == slots[i].value.reused && f.computed == slots[i].value.computed
    && f.promptTokens == |slots[i].value.prompt|
  }

  /** A step: admission, one prefill, a token for every slot that decodes, and the records of the complete ones. */
  ghost predicate StepIs(m: RefModel, was: seq<Option<Slot>>, queue: seq<Pending>, n: nat, admitted: seq<Option<Slot>>,
                         prefilled: seq<Option<Slot>>, decoded: seq<Option<Slot>>, done: seq<nat>,
                         now: seq<Option<Slot>>)
  {
    && AdmittedInto(m, was, queue, admitted, n) && PrefilledFrom(m, admitted, prefilled)
    && AllDecoded(prefilled, decoded) && DoneListed(m, decoded, done, |decoded|) && Emptied(decoded, now, done)
  }

  class CpuEngine {
    const m: RefModel
    const capacity: nat
    const maxPending: nat
    const maxFinished: nat
    var slots: seq<Option<Slot>>
    var pending: seq<Pending>
    var nextId: nat
    var finished: seq<FinishedRequest>
    var stats: Stats
    /** All requests added, the records drained or dropped, and the requests whose prefill failed. */
    ghost var requests: map<nat, Request>
    ghost var gone: seq<FinishedRequest>
    ghost var failed: seq<nat>

    /** The bookkeeping of requests, with the slots in the given phase of a step. */
    ghost predicate Books(phase: Phase)
      reads this
    {
      && |slots| == capacity > 0
      && SlotsFit(m, requests, phase, slots)
      && PendingsOk(requests, pending)
      && RecordsOk(m, requests, gone + finished)
      && IdsOk(requests, pending, slots, gone + finished, failed)
      && (forall id :: id in requests ==> id < nextId)
      && stats == StatsOf(gone + finished, stats.steps)
      && |pending| <= maxPending && |finished| <= maxFinished
    }

    ghost predicate Valid()
      reads this
    {
      Books(Between)
    }

    function Work(): nat
      reads this
    {
      PendingWork(pending) + SlotWork(slots)
    }

    constructor (m: RefModel, capacity: nat, maxPending: nat, maxFinished: nat)
      requires capacity > 0
      ensures Valid() && this.m == m && this.capacity == capacity
      ensures this.maxPending == maxPending && this.maxFinished == maxFinished && requests == map[] && failed == []
    {
      this.m, this.capacity, this.maxPending, this.maxFinished := m, capacity, maxPending, maxFinished;
      slots := seq(capacity, _ => None);
      pending, nextId, finished, stats := [], 1, [], Stats(0, 0, 0, 0, 0, 0);
      requests, gone, failed := map[], [], [];
      new;
      forall id: nat
        ensures IdOk(requests, pending, slots, gone + finished, failed, id)
      {
        InNoSlot(slots, id);
      }
    }

    /** Queues a request, or reports why not; then nothing changes. */
    method Add(prompt: seq<Token>, maxNew: nat) returns (r: AddResult)
      requires Valid()
      modifies this`pending, this`nextId, this`requests
      ensures Valid()
      ensures r.Queued? <==> prompt != [] && |old(pending)| < maxPending
      ensures r.EmptyPrompt? <==> prompt == []
      ensures r.Queued? ==>
                && r.id !in old(requests) && requests == old(requests)[r.id := Request(prompt, maxNew)]
                && pending == old(pending) + [Pending(r.id, prompt, maxNew)]
      ensures !r.Queued? ==> requests == old(requests) && pending == old(pending)
    {
      if prompt == [] {
        return EmptyPrompt;
      }
      if |pending| >= maxPending {
        return QueueFull;
      }
      var p := Pending(nextId, prompt, maxNew);
      hide IdsOk, SlotsFit, RecordsOk;
      QueueKeepsIds(requests, pending, slots, gone + finished, failed, p);
      requests := requests[p.id := Request(prompt, maxNew)];
      pending := pending + [p];
      nextId := nextId + 1;
      r := Queued(p.id);
    }

    /** Hands over and clears the completed records: each the sequential greedy decode of its request. */
    method DrainFinished() returns (records: seq<FinishedRequest>)
      requires Valid()
      modifies this`finished, this`gone
      ensures Valid() && records == old(finished) && finished == []
      ensures forall f :: f in records ==> DoneOk(m, requests, f)
    {
      assert forall k :: 0 <= k < |finished| ==> finished[k] == (gone + finished)[|gone| + k];
      records := finished;
      gone := gone + finished;
      finished := [];
      assert gone + finished == old(gone) + old(finished);
    }

    method FindFree() returns (i: nat)
      ensures i <= |slots| && (i < |slots| ==> slots[i].None?)
      ensures forall k :: 0 <= k < i ==> slots[k].Some?
    {
      i := 0;
      while i < |slots| && slots[i].Some?
        invariant i <= |slots| && forall k :: 0 <= k < i ==> slots[k].Some?
      {
        i := i + 1;
      }
    }

    /** Admits queued requests, oldest first, into free slots until one of the two runs out. */
    method AdmitPending()
      requires Valid()
      modifies this`slots, this`pending
      ensures Valid() && Work() <= old(Work())
      ensures pending == [] || forall i :: 0 <= i < |slots| ==> slots[i].Some?
      ensures exists n: nat :: AdmittedInto(m, old(slots), old(pending), slots, n) && pending == old(pending)[n..]
    {
      ghost var n := 0;
      ghost var was, queue := slots, pending;
      while pending != []
        invariant Valid() && Work() <= old(Work())
        invariant AdmittedInto(m, was, queue, slots, n)
        invariant 0 <= n <= |old(pending)| && pending == old(pending)[n..]
        decreases |pending|
      {
        var i := FindFree();
        if i == |slots| {
          break;
        }
        var p := pending[0];
        var submitted := Apply(Bootstrapped, Bootstrapping).value;
        var s :=
          Slot(p.id, Submitted(p.prompt, submitted.decoded, p.maxNew), p.prompt, p.maxNew, [], m.start, [], 0, 0);
        AdmitOne(m, was, queue, slots, n, i, s);
        AdmitKeepsIds(requests, pending, slots, gone + finished, failed, i, s);
        PendingWorkPop(pending);
        SlotWorkUpdate(slots, i, Some(s));
        assert PendingOk(requests, p);
        slots := slots[i := Some(s)];
        pending := pending[1..];
        n := n + 1;
      }
    }

    /**
     Prefills the first slot that is not prefilled yet. When the cache fails the request is dropped and its slot
     freed, so it is not tried again.
     */
    method PrefillFirst() returns (failure: Option<nat>)
      requires Valid()
      modifies this`slots, this`failed
      ensures failure.None? ==> Books(Prefilled) && failed == old(failed)
      ensures failure.Some? ==> Valid() && failed == old(failed) + [failure.value] && Work() < old(Work())
      ensures Work() < old(Work()) || slots == old(slots)
      ensures slots == old(slots) ==> forall i :: 0 <= i < |slots| && slots[i].Some? ==> Runs(m, slots[i])
      ensures failure.None? ==> PrefilledFrom(m, old(slots), slots)
      ensures failure.Some? ==> exists i: nat ::
                && FirstWaits(old(slots), i) && slots == old(slots)[i := None]
                && failure.value == old(slots)[i].value.id
    {
      for i := 0 to |slots|
        invariant slots == old(slots) && failed == old(failed)
        invariant forall k :: 0 <= k < i ==> !Waits(slots[k])
        invariant forall k :: 0 <= k < i && slots[k].Some? ==> Runs(m, slots[k])
      {
        assert SlotFits(m, requests, Between, slots[i]);
        if slots[i].Some? && !slots[i].value.state.PrefillDone? && !slots[i].value.state.Decoding? {
          var s := slots[i].value;
          assert FirstWaits(old(slots), i);
          var ok, t, served := PrefillSlot(m, s);
          if ok {
            FirstIsPrefilled(m, old(slots), i, t);
            ReplaceKeepsIds(requests, pending, slots, gone + finished, failed, i, t);
            SlotWorkUpdate(slots, i, Some(t));
            SlotsAdvance(m, requests, Between, Prefilled, slots, i, Some(t));
            slots := slots[i := Some(t)];
            return None;
          }
          FailKeepsIds(requests, pending, slots, gone + finished, failed, i);
          SlotWorkUpdate(slots, i, None);
          SlotsAdvance(m, requests, Between, Between, slots, i, None);
          slots := slots[i := None];
          failed := failed + [s.id];
          return Some(s.id);
        }
      }
      failure := None;
    }

    /** Decodes one token in every prefilled slot, and lists the slots that are complete. */
    method DecodeAll() returns (done: seq<nat>)
      requires Books(Prefilled)
      modifies this`slots
      ensures Books(Decoded) && Work() <= old(Work())
      ensures (exists i :: 0 <= i < |old(slots)| && Runs(m, old(slots)[i])) ==> Work() < old(Work())
      ensures DoneListed(m, slots, done, |slots|) && AllDecoded(old(slots), slots)
    {
      hide AllDecoded, DecodedTo, IdsOk, DoneListed, SlotWork, PendingWork;
      ghost var was := slots;
      done := [];
      DecodedNone(m, requests, was);
      for i := 0 to |slots|
        invariant |slots| == |was| && DecodedTo(m, requests, was, slots, done, i)
        invariant IdsOk(requests, pending, slots, gone + finished, failed)
      {
        DecodedRest(m, requests, was, slots, done, i);
        assert SlotFits(m, requests, Prefilled, was[i]);
        if slots[i].Some? && slots[i].value.state.Decoding? {
          var t, complete := DecodeSlot(m, slots[i].value);
          ReplaceKeepsIds(requests, pending, slots, gone + finished, failed, i, t);
          DecodeNext(m, requests, was, slots, done, i, t, complete);
          slots := slots[i := Some(t)];
          if complete {
            done := done + [i];
          }
        } else {
          DecodeSkip(m, requests, was, slots, done, i);
        }
      }
      DecodedAll(m, requests, was, slots, done);
    }

    /** Moves a completed slot into the records, dropping the oldest ones beyond the bound, and frees the slot. */
    method FinishSlot(i: nat)
      requires Books(Decoded) && i < |slots| && slots[i].Some? && Completed(m, slots[i].value)
      modifies this`slots, this`stats, this`finished, this`gone
      ensures Books(Decoded) && slots == old(slots)[i := None] && Work() < old(Work())
      ensures stats.steps == old(stats).steps && stats.requests == old(stats).requests + 1
      ensures var s := old(slots)[i].value;
              && stats.promptTotal == old(stats).promptTotal + |s.prompt|
              && stats.reused == old(stats).reused + s.reused
              && stats.computed == old(stats).computed + s.computed
              && stats.decoded == old(stats).decoded + |s.generated|
      ensures Recorded(old(gone) + old(finished), gone + finished, old(slots), [i])
      ensures if |old(finished)| < maxFinished then gone == old(gone) else |finished| == maxFinished
    {
      hide IdsOk, SlotsFit, RecordsOk, PendingsOk, SlotWork, StatsOf;
      FitsAt(m, requests, Decoded, slots, i);
      var s := slots[i].value;
      var f := FinishedRequest(s.id, s.generated, s.reused, s.computed, |s.prompt|);
      ghost var was := gone + finished;
      FinishKeepsIds(requests, pending, slots, was, failed, i, f);
      SlotWorkUpdate(slots, i, None);
      SlotsAdvance(m, requests, Decoded, Decoded, slots, i, None);
      RecordsSnoc(m, requests, was, s, f);
      StatsSnoc(was, f, stats.steps);
      slots := slots[i := None];
      stats := Stats(stats.requests + 1, stats.steps, stats.promptTotal + |s.prompt|, stats.reused + s.reused,
                     stats.computed + s.computed, stats.decoded + |s.generated|);
      finished := finished + [f];
      assert gone + finished == was + [f];
      DropOldest();
    }

    /** Drops the oldest records, as many as are beyond the bound. */
    method DropOldest()
      modifies this`finished, this`gone
      ensures gone + finished == old(gone) + old(finished)
      ensures if |old(finished)| <= maxFinished then gone == old(gone) else |finished| == maxFinished
    {
      while |finished| > maxFinished
        invariant gone + finished == old(gone) + old(finished)
        invariant if |old(finished)| <= maxFinished then gone == old(gone) else |finished| >= maxFinished
      {
        gone, finished := gone + [finished[0]], finished[1..];
      }
    }

    /** Finishes the listed slots, in order. */
    method FinishAll(done: seq<nat>)
      requires Books(Decoded) && DoneListed(m, slots, done, |slots|)
      modifies this`slots, this`stats, this`finished, this`gone
      ensures Valid() && Work() <= old(Work()) && stats.steps == old(stats).steps
      ensures Emptied(old(slots), slots, done)
      ensures Recorded(old(gone) + old(finished), gone + finished, old(slots), done)
      ensures gone == old(gone) || |finished| == maxFinished
    {
      hide Books, Completed, Recorded;
      ghost var was, records := slots, gone + finished;
      NothingRecorded(records, was);
      assert done[..0] == [];
      assert Emptied(was, slots, done[..0]);
      for j := 0 to |done|
        invariant Books(Decoded) && Work() <= old(Work()) && stats.steps == old(stats).steps
        invariant Emptied(was, slots, done[..j])
        invariant Recorded(records, gone + finished, was, done[..j])
        invariant gone == old(gone) || |finished| == maxFinished
      {
        ghost var before, soFar := slots, gone + finished;
        FinishSlot(done[j]);
        assert done[..j + 1] == done[..j] + [done[j]];
        RecordedMore(records, soFar, gone + finished, was, before, done[..j], done[j]);
        assert slots[done[j] := was[done[j]]] == before;
      }
      assert done[..|done|] == done;
      AllFinished(was, done);
    }

    lemma AllFinished(was: seq<Option<Slot>>, done: seq<nat>)
      requires Books(Decoded) && DoneListed(m, was, done, |was|) && Emptied(was, slots, done)
      ensures Valid()
    {
      forall i | 0 <= i < |slots|
        ensures SlotFits(m, requests, Between, slots[i])
      {
        assert SlotFits(m, requests, Decoded, slots[i]);
      }
    }

    method IsIdle() returns (idle: bool)
      ensures idle <==> pending == [] && forall i :: 0 <= i < |slots| ==> slots[i].None?
    {
      if pending != [] {
        return false;
      }
      for i := 0 to |slots|
        invariant forall k :: 0 <= k < i ==> slots[k].None?
      {
        if slots[i].Some? {
          return false;
        }
      }
      idle := true;
    }

    /**
     One step: admit, prefill one slot, decode one token in every prefilled slot, finish what is complete. Unless
     the engine is idle the work left decreases, also when the prefill fails.
     */
    method Step() returns (r: StepResult)
      requires Valid()
      modifies this`slots, this`pending, this`stats, this`finished, this`gone, this`failed
      ensures Valid()
      ensures r.Idle? ==> pending == [] && (forall i :: 0 <= i < |slots| ==> slots[i].None?) && stats == old(stats)
      ensures !r.Idle? ==> Work() < old(Work()) && stats.steps == old(stats).steps + 1
      ensures failed == if r.PrefillFailed? then old(failed) + [r.id] else old(failed)
      ensures r.Worked? ==> exists n: nat, admitted: seq<Option<Slot>>, prefilled: seq<Option<Slot>>,
                        decoded: seq<Option<Slot>>, done: seq<nat> ::
                && StepIs(m, old(slots), old(pending), n, admitted, prefilled, decoded, done, slots)
                && pending == old(pending)[n..]
                && Recorded(old(gone) + old(finished), gone + finished, decoded, done)
                && (gone == old(gone) || |finished| == maxFinished)
      ensures r.PrefillFailed? ==> exists n: nat, admitted: seq<Option<Slot>>, i: nat ::
                && AdmittedInto(m, old(slots), old(pending), admitted, n) && pending == old(pending)[n..]
                && FirstWaits(admitted, i) && slots == admitted[i := None] && r.id == admitted[i].value.id
                && gone == old(gone) && finished == old(finished)
    {
      hide PrefilledFrom, AllDecoded, DoneListed, Emptied, Recorded, FirstWaits, AdmittedAt;
      hide IdsOk, SlotsFit, RecordsOk, PendingsOk, StatsOf, SlotWork, PendingWork;
      AdmitPending();
      ghost var n: nat :| AdmittedInto(m, old(slots), old(pending), slots, n) && pending == old(pending)[n..];
      var idle := IsIdle();
      if idle {
        return Idle;
      }
      assert pending != [] ==> slots[0].Some?;
      StatsOfSteps(gone + finished, stats.steps, stats.steps + 1);
      stats := stats.(steps := stats.steps + 1);
      ghost var admitted, work := slots, Work();
      var failure := PrefillFirst();
      if failure.Some? {
        return PrefillFailed(failure.value);
      }
      ghost var prefilled := slots;
      var done := DecodeAll();
      ghost var decoded := slots;
      FinishAll(done);
      r := Worked;
      assert StepIs(m, old(slots), old(pending), n, admitted, prefilled, decoded, done, slots);
    }

    /** Steps until the engine is idle, or a prefill fails. It always ends. */
    method StepUntilDone() returns (failure: Option<nat>)
      requires Valid()
      modifies this`slots, this`pending, this`stats, this`finished, this`gone, this`failed
      ensures Valid()
      ensures failure.None? ==> failed == old(failed)
      ensures failure.Some? ==> failed == old(failed) + [failure.value]
      ensures failure.None? ==> forall id :: id in requests ==>
                InDone(gone + finished, id) + InFailed(failed, id) == 1
    {
      while true
        invariant Valid() && failed == old(failed)
        decreases Work()
      {
        var r := Step();
        match r
        case Worked =>
        case PrefillFailed(id) => return Some(id);
        case Idle =>
          forall id | id in requests
            ensures InDone(gone + finished, id) + InFailed(failed, id) == 1
          {
            assert IdOk(requests, pending, slots, gone + finished, failed, id);
            InNoSlot(slots, id);
          }
          return None;
      }
    }
  }

  /** The next queued request goes into the first free slot. */
  lemma AdmitOne(m: RefModel, was: seq<Option<Slot>>, queue: seq<Pending>, now: seq<Option<Slot>>, n: nat, i: nat,
                 s: Slot)
    requires AdmittedInto(m, was, queue, now, n) && n < |queue| && i < |now| && now[i].None?
    requires forall k :: 0 <= k < i ==> now[k].Some?
    requires Waiting(s) && s.model == m.start
    requires s.id == queue[n].id && s.prompt == queue[n].prompt && s.maxNew == queue[n].maxNew
    ensures AdmittedInto(m, was, queue, now[i := Some(s)], n + 1)
  {
    var next, more := now[i := Some(s)], n + 1;
    assert AdmittedAt(m, was, queue, now, n, i);
    AllFilled(m, was, queue, now, n, i);
    forall k | 0 <= k < |was|
      ensures AdmittedAt(m, was, queue, next, more, k)
    {
      assert AdmittedAt(m, was, queue, now, n, k);
      if k > i {
        FreeGrows(was, i + 1, k);
      } else if k < i {
        FreeGrows(was, k, i);
      }
    }
  }

  /** As long as the slots are filled from the front, no more of them were free than requests admitted. */
  lemma {:induction false} AllFilled(m: RefModel, was: seq<Option<Slot>>, queue: seq<Pending>, now: seq<Option<Slot>>,
                                     n: nat, i: nat)
    requires AdmittedInto(m, was, queue, now, n) && i <= |now|
    requires forall k :: 0 <= k < i ==> now[k].Some?
    ensures FreeBefore(was, i) <= n
  {
    if i > 0 {
      AllFilled(m, was, queue, now, n, i - 1);
      assert AdmittedAt(m, was, queue, now, n, i - 1);
    }
  }

  lemma {:induction false} FreeGrows(slots: seq<Option<Slot>>, i: nat, k: nat)
    requires i <= k <= |slots|
    ensures FreeBefore(slots, i) <= FreeBefore(slots, k)
  {
    if i < k {
      FreeGrows(slots, i, k - 1);
    }
  }

  lemma FirstIsPrefilled(m: RefModel, slots: seq<Option<Slot>>, i: nat, t: Slot)
    requires FirstWaits(slots, i) && Running(m, t) && t.generated == []
    requires t.id == slots[i].value.id && t.prompt == slots[i].value.prompt && t.maxNew == slots[i].value.maxNew
    ensures PrefilledFrom(m, slots, slots[i := Some(t)])
  {
    forall k: nat | FirstWaits(slots, k)
      ensures k == i
    {
      assert Waits(slots[k]) && Waits(slots[i]);
    }
  }

  lemma NothingRecorded(records: seq<FinishedRequest>, slots: seq<Option<Slot>>)
    ensures Recorded(records, records, slots, [])
  {
  }

  /** Finishing one more listed slot, which is still as it was, adds its record. */
  lemma RecordedMore(was: seq<FinishedRequest>, soFar: seq<FinishedRequest>, now: seq<FinishedRequest>,
                     slots: seq<Option<Slot>>, before: seq<Option<Slot>>, done: seq<nat>, i: nat)
    requires Recorded(was, soFar, slots, done) && Recorded(soFar, now, before, [i])
    requires i < |slots| == |before| && before[i] == slots[i]
    ensures Recorded(was, now, slots, done + [i])
  {
    var listed := done + [i];
    forall j | 0 <= j < |listed|
      ensures RecordAt(now[|was| + j], slots, listed[j])
    {
      if j < |done| {
        assert RecordAt(soFar[|was| + j], slots, done[j]);
      } else {
        assert RecordAt(now[|soFar| + 0], before, [i][0]);
      }
    }
  }

  lemma RecordsSnoc(m: RefModel, requests: map<nat, Request>, done: seq<FinishedRequest>, s: Slot, f: FinishedRequest)
    requires RecordsOk(m, requests, done) && Completed(m, s) && Carries(requests, s.id, s.prompt, s.maxNew)
    requires f == FinishedRequest(s.id, s.generated, s.reused, s.computed, |s.prompt|)
    ensures RecordsOk(m, requests, done + [f])
  {
    var more := done + [f];
    forall k | 0 <= k < |more|
      ensures DoneOk(m, requests, more[k])
    {
      assert k < |done| ==> DoneOk(m, requests, done[k]);
    }
  }

  lemma StatsSnoc(done: seq<FinishedRequest>, f: FinishedRequest, steps: nat)
    ensures var s := StatsOf(done, steps);
            StatsOf(done + [f], steps) ==
            Stats(s.requests + 1, steps, s.promptTotal + f.promptTokens, s.reused + f.reused, s.computed + f.computed,
                  s.decoded + |f.generated|)
  {
    assert (done + [f])[..|done|] == done;
  }

  /** The slots after those listed have been emptied. */
  ghost predicate Emptied(was: seq<Option<Slot>>, now: seq<Option<Slot>>, listed: seq<nat>) {
    && |now| == |was|
    && forall i :: 0 <= i < |was| ==> now[i] == if i in listed then None else was[i]
  }

  /** A slot that decodes in this step. */
  predicate Runs(m: RefModel, s: Option<Slot>) {
    s.Some? && Running(m, s.value)
  }

  /** The first `n` slots have decoded, the others have not. */
  ghost predicate DecodedTo(m: RefModel, requests: map<nat, Request>, was: seq<Option<Slot>>, now: seq<Option<Slot>>,
                            done: seq<nat>, n: nat)
  {
    && |now| == |was| && n <= |was|
    && (forall k :: 0 <= k < n ==> SlotFits(m, requests, Decoded, now[k]))
    && (forall k :: n <= k < |was| ==> now[k] == was[k])
    && (forall k :: 0 <= k < n ==> SlotDecoded(was[k], now[k]))
    && DoneListed(m, now, done, n)
    && SlotWork(now) <= SlotWork(was)
    && ((exists k :: 0 <= k < n && Runs(m, was[k])) ==> SlotWork(now) < SlotWork(was))
  }

  lemma DecodedNone(m: RefModel, requests: map<nat, Request>, was: seq<Option<Slot>>)
    ensures DecodedTo(m, requests, was, was, [], 0)
  {
  }

  lemma DecodedRest(m: RefModel, requests: map<nat, Request>, was: seq<Option<Slot>>, now: seq<Option<Slot>>,
                    done: seq<nat>, i: nat)
    requires DecodedTo(m, requests, was, now, done, i) && i < |was|
    ensures now[i] == was[i]
  {
  }

  lemma DecodedAll(m: RefModel, requests: map<nat, Request>, was: seq<Option<Slot>>, now: seq<Option<Slot>>,
                   done: seq<nat>)
    requires DecodedTo(m, requests, was, now, done, |was|)
    ensures |now| == |was| && SlotsFit(m, requests, Decoded, now)
    ensures DoneListed(m, now, done, |now|) && SlotWork(now) <= SlotWork(was) && AllDecoded(was, now)
    ensures (exists k :: 0 <= k < |was| && Runs(m, was[k])) ==> SlotWork(now) < SlotWork(was)
  {
  }

  lemma DecodeSkip(m: RefModel, requests: map<nat, Request>, was: seq<Option<Slot>>, now: seq<Option<Slot>>,
                   done: seq<nat>, i: nat)
    requires DecodedTo(m, requests, was, now, done, i) && i < |was|
    requires SlotFits(m, requests, Prefilled, was[i]) && (was[i].Some? ==> !was[i].value.state.Decoding?)
    ensures DecodedTo(m, requests, was, now, done, i + 1)
  {
    assert now[i] == was[i];
    assert i !in done;
  }

  lemma DecodeNext(m: RefModel, requests: map<nat, Request>, was: seq<Option<Slot>>, now: seq<Option<Slot>>,
                   done: seq<nat>, i: nat, t: Slot, complete: bool)
    requires DecodedTo(m, requests, was, now, done, i) && i < |was|
    requires SlotFits(m, requests, Decoded, Some(t)) && WorkOf(Some(t)) < WorkOf(now[i])
    requires was[i].Some? && was[i].value.state.Decoding? && DecodedOnce(was[i].value, t)
    requires complete <==> Completed(m, t)
    ensures DecodedTo(m, requests, was, now[i := Some(t)], if complete then done + [i] else done, i + 1)
  {
    var next := now[i := Some(t)];
    SlotWorkUpdate(now, i, Some(t));
    forall k | 0 <= k < i + 1
      ensures SlotFits(m, requests, Decoded, next[k])
    {
      assert k < i ==> SlotFits(m, requests, Decoded, now[k]);
    }
  }

  // ----- phases of a step

  lemma SlotsAdvance(m: RefModel, requests: map<nat, Request>, phase: Phase, next: Phase, slots: seq<Option<Slot>>,
                     i: nat, s: Option<Slot>)
    requires i < |slots| && (phase == Between || phase == next)
    requires SlotsFit(m, requests, phase, slots) && SlotFits(m, requests, next, s)
    ensures SlotsFit(m, requests, next, slots[i := s])
  {
    var now := slots[i := s];
    forall k | 0 <= k < |slots|
      ensures SlotFits(m, requests, next, now[k])
    {
      assert SlotFits(m, requests, phase, slots[k]);
    }
  }

  lemma FitsAt(m: RefModel, requests: map<nat, Request>, phase: Phase, slots: seq<Option<Slot>>, i: nat)
    requires SlotsFit(m, requests, phase, slots) && i < |slots|
    ensures SlotFits(m, requests, phase, slots[i])
  {
  }

  /** The list holds, in order, exactly the completed ones of the first `n` slots. */
  predicate DoneListed(m: RefModel, slots: seq<Option<Slot>>, done: seq<nat>, n: nat) {
    && (forall k :: 0 <= k < |done| ==> done[k] < n && done[k] < |slots|)
    && (forall j, k :: 0 <= j < k < |done| ==> done[j] < done[k])
    && (forall i :: 0 <= i < n && i < |slots| && slots[i].Some? ==> (Completed(m, slots[i].value) <==> i in done))
    && (forall k :: 0 <= k < |done| ==> slots[done[k]].Some?)
  }
}
