/** The request-lifecycle state machine (scheduler_fsm.rs); `None` where the original panics. */
module RequestFsm {
  import opened Collections
  import opened Tokens

  datatype RequestState =
    | Bootstrapping
    | Submitted(tokens: seq<Token>, decoded: nat, maxNew: nat)
    | Prefilling(tokens: seq<Token>, prefilled: nat, decoded: nat, reserve: nat, maxNew: nat)
    | PrefillDone(tokens: seq<Token>, decoded: nat, reserve: nat, maxNew: nat)
    | Decoding(tokens: seq<Token>, decoded: nat, reserve: nat, maxNew: nat)
    | Retracted(tokens: seq<Token>, decoded: nat, maxNew: nat)
    | Finished

  datatype FsmEvent =
    | Bootstrapped
    | SchedulePrefillFirstChunk(chunk: nat, reserve: nat)
    | SchedulePrefill(chunk: nat)
    | ScheduleDecode(reserve: nat)
    | Finish
    | Abort
    | Retraction
    | Retract
    | UpdateReserveNumTokens(reserve: nat)
    | ExtendResult(produced: seq<Token>)
    | Succeeded
    | RemotePrefillDone(bootstrapToken: Token)

  function FirstChunk(tokens: seq<Token>, decoded: nat, maxNew: nat, chunk: nat, reserve: nat): RequestState {
    if chunk >= |tokens| then PrefillDone(tokens, decoded, reserve, maxNew)
    else Prefilling(tokens, chunk, decoded, reserve, maxNew)
  }

  function Apply(ev: FsmEvent, s: RequestState): Option<RequestState> {
    match ev
    case Bootstrapped => if s.Bootstrapping? then Some(Submitted([], 0, 0)) else None
    case SchedulePrefillFirstChunk(chunk, reserve) =>
      if s.Submitted? || s.Retracted? then Some(FirstChunk(s.tokens, s.decoded, s.maxNew, chunk, reserve)) else None
    case SchedulePrefill(chunk) =>
      if !s.Prefilling? then None
      else if s.prefilled + chunk >= |s.tokens| then Some(PrefillDone(s.tokens, s.decoded, s.reserve, s.maxNew))
      else Some(Prefilling(s.tokens, s.prefilled + chunk, s.decoded, s.reserve, s.maxNew))
    case ScheduleDecode(reserve) =>
      if s.PrefillDone? || s.Decoding? then Some(Decoding(s.tokens, s.decoded, reserve, s.maxNew)) else None
    case Finish => if s.PrefillDone? || s.Decoding? || s.Retracted? then Some(Finished) else None
    case Abort => Some(Finished)
    case Retraction => if s.Decoding? then Some(Retracted(s.tokens, s.decoded, s.maxNew)) else None
    case Retract => if s.PrefillDone? || s.Decoding? then Some(Submitted(s.tokens, s.decoded, s.maxNew)) else None
    case UpdateReserveNumTokens(reserve) =>
      if s.Decoding? then Some(Decoding(s.tokens, s.decoded, reserve, s.maxNew))
      else if s.Finished? then Some(s) else None
    case ExtendResult(produced) =>
      if s.PrefillDone? then Some(PrefillDone(s.tokens + produced, s.decoded, s.reserve, s.maxNew))
      else if s.Decoding? then
        Some(Decoding(s.tokens + produced, s.decoded + |produced|, s.reserve, s.maxNew))
      else if s.Finished? then Some(s) else None
    case Succeeded => if s.Decoding? then Some(Finished) else None
    case RemotePrefillDone(token) =>
      if s.Prefilling? then Some(PrefillDone(s.tokens + [token], s.decoded, s.reserve, s.maxNew)) else None
  }

  /** A run of events; `None` once one of them is illegal. */
  function Run(s: RequestState, events: seq<FsmEvent>): Option<RequestState>
    decreases |events|
  {
    if events == [] then Some(s) else
      match Apply(events[0], s)
      case None => None
      case Some(t) => Run(t, events[1..])
  }

  /** A state that carries a token stream. */
  predicate Carries(s: RequestState) {
    !s.Bootstrapping? && !s.Finished?
  }

  /** Tokens of the stream that were not counted as decoded: the first ones of a remote or early result. */
  function Uncounted(s: RequestState): int
    requires Carries(s)
  {
    |s.tokens| - s.decoded
  }

  /**
   Over any legal run a request keeps its stream as a prefix and its budget, is never credited with more decoded
   tokens than the stream has grown by, and ends in a state that is final.
   */
  lemma {:induction false} RunsKeepStream(s: RequestState, events: seq<FsmEvent>)
    requires Carries(s) && Run(s, events).Some?
    ensures var t := Run(s, events).value;
            && !t.Bootstrapping?
            && (Carries(t) ==>
                  && s.tokens <= t.tokens && t.maxNew == s.maxNew && t.decoded >= s.decoded
                  && Uncounted(t) >= Uncounted(s))
    decreases |events|
  {
    if events != [] {
      var t := Apply(events[0], s).value;
      if Carries(t) {
        RunsKeepStream(t, events[1..]);
      } else {
        FinishedIsFinal(events[1..]);
      }
    }
  }

  lemma {:induction false} FinishedIsFinal(events: seq<FsmEvent>)
    ensures Run(Finished, events).Some? ==> Run(Finished, events).value == Finished
    decreases |events|
  {
    if events != [] && Apply(events[0], Finished).Some? {
      FinishedIsFinal(events[1..]);
    }
  }

  /** The rest of a chunked prefill, and the step back to decoding. */
  function Chunks(rest: seq<nat>, reserve: nat): seq<FsmEvent> {
    if rest == [] then [ScheduleDecode(reserve)] else [SchedulePrefill(rest[0])] + Chunks(rest[1..], reserve)
  }

  /** The way back to decoding after an eviction, with a new prefill in any chunks. */
  function Resume(retracted: bool, first: nat, rest: seq<nat>, prefillReserve: nat, reserve: nat): seq<FsmEvent> {
    [if retracted then Retraction else Retract, SchedulePrefillFirstChunk(first, prefillReserve)]
    + Chunks(rest, reserve)
  }

  /** The last chunk, and none before it, reaches the end of `need` tokens. */
  predicate Fills(first: nat, rest: seq<nat>, need: nat)
    decreases |rest|
  {
    if first >= need then rest == [] else rest != [] && Fills(rest[0], rest[1..], need - first)
  }

  lemma {:induction false} ChunksResume(s: RequestState, rest: seq<nat>, reserve: nat)
    requires s.Prefilling? && s.prefilled < |s.tokens|
    ensures Run(s, Chunks(rest, reserve)) ==
            if rest != [] && Fills(rest[0], rest[1..], |s.tokens| - s.prefilled)
            then Some(Decoding(s.tokens, s.decoded, reserve, s.maxNew)) else None
    decreases |rest|
  {
    if rest != [] {
      var events := Chunks(rest, reserve);
      assert events[0] == SchedulePrefill(rest[0]) && events[1..] == Chunks(rest[1..], reserve);
      var next := Apply(events[0], s).value;
      if next.Prefilling? {
        ChunksResume(next, rest[1..], reserve);
      } else {
        DoneResumes(next, rest[1..], reserve);
      }
    }
  }

  /** After the whole stream is prefilled, a further chunk is illegal. */
  lemma DoneResumes(s: RequestState, rest: seq<nat>, reserve: nat)
    requires s.PrefillDone?
    ensures Run(s, Chunks(rest, reserve)) ==
            if rest == [] then Some(Decoding(s.tokens, s.decoded, reserve, s.maxNew)) else None
  {
    if rest == [] {
      assert Chunks(rest, reserve)[1..] == [];
    } else {
      assert Chunks(rest, reserve)[0] == SchedulePrefill(rest[0]);
    }
  }

  /**
   An evicted request can be resumed exactly by chunks that end with its whole stream, out of decoding by either
   event and before decoding by `Retract` alone; and then it is as if it had not been evicted: same stream, same
   decoded count, same budget.
   */
  lemma ResumeKeepsBudget(
    s: RequestState, retracted: bool, first: nat, rest: seq<nat>, prefillReserve: nat, reserve: nat
  )
    requires s.PrefillDone? || s.Decoding?
    ensures Run(s, Resume(retracted, first, rest, prefillReserve, reserve)) ==
            if (retracted ==> s.Decoding?) && Fills(first, rest, |s.tokens|)
            then Some(Decoding(s.tokens, s.decoded, reserve, s.maxNew)) else None
  {
    var events := Resume(retracted, first, rest, prefillReserve, reserve);
    if retracted ==> s.Decoding? {
      var back := Apply(events[0], s).value;
      var next := FirstChunk(s.tokens, s.decoded, s.maxNew, first, prefillReserve);
      assert Apply(events[1], back) == Some(next);
      assert events[1..][1..] == Chunks(rest, reserve);
      assert Run(back, events[1..]) == Run(next, events[1..][1..]);
      if next.Prefilling? {
        ChunksResume(next, rest, reserve);
      } else {
        DoneResumes(next, rest, reserve);
      }
    }
  }
}
