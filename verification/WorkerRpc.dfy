/**
 The storage-backed call channel, page half. A call takes the next number through the allocation
 chain, leaves its request and then the sequence in the shared storage, polls for the answer under
 its number and clears its keys. The worker reads forward to the stored sequence and answers under
 the number it read. Any storage call may reject, and a write that rejects may have landed.
 */
module WorkerRpc {
  import opened Wrappers
  import opened SerialQueue

  /** A stored request. `caller` names the call that wrote it. */
  datatype Request = Request(caller: nat, payload: string)

  datatype Answer = Answer(request: Request, text: string)

  datatype Outcome = Answered(answer: Answer) | TimedOut | NotAllocated

  datatype Phase =
    | Queued
    | ReadingSeq
    | WritingRequest(n: nat, landed: bool)
    | WritingSeq(n: nat, landed: bool)
    | Polling
    | ClearingKeys(step: nat, outcome: Outcome)
    | Returned(outcome: Outcome)

  /** `number` is what the allocation gave the call; `requestKept`: clearing its request failed. */
  datatype Call = Call(payload: string, phase: Phase, number: Option<nat>, requestKept: bool)

  /** The one queue allocations wait in. */
  datatype Lane = Allocations

  /** The shared storage. History: `owner`, whose sequence write reached a number; `writer`, whose
      request the page wrote there last; `swept`, the numbers the worker has swept. */
  datatype State = State(
    chain: Chain<Lane>,
    calls: seq<Call>,
    seqKey: nat,
    requests: map<nat, Request>,
    responses: map<nat, Answer>,
    claims: set<nat>,
    handled: set<(nat, Request)>,
    owner: map<nat, nat>,
    writer: map<nat, nat>,
    swept: set<nat>)

  datatype Event =
    | Send(payload: string)
    | AllocationStarts(i: nat)
    | SeqRead(i: nat, ok: bool)
    | RequestLands(i: nat)
    | RequestAnswers(i: nat, ok: bool)
    | SeqLands(i: nat)
    | SeqAnswers(i: nat, ok: bool)
    | PollReads(i: nat)
    | PollEnds(i: nat)
    | KeyCleared(i: nat, took: bool)
    | WorkerReads(n: nat)
    | WorkerClaims(n: nat, request: Request)
    | WorkerAnswers(n: nat, request: Request, text: string)
    | WorkerSweeps(n: nat)

  predicate Known(s: State, i: nat) {
    i < |s.calls| == |s.chain.links|
  }

  predicate Allocating(s: State, i: nat) {
    Known(s, i) && IsRunning(s.chain, i)
  }

  predicate Enabled(s: State, e: Event) {
    match e
    case Send(_) => true
    case AllocationStarts(i) => Known(s, i) && CanStart(s.chain, i) && s.calls[i].phase.Queued?
    case SeqRead(i, _) => Allocating(s, i) && s.calls[i].phase.ReadingSeq?
    case RequestLands(i) => Allocating(s, i) && s.calls[i].phase.WritingRequest? && !s.calls[i].phase.landed
    case RequestAnswers(i, ok) =>
      Allocating(s, i) && s.calls[i].phase.WritingRequest? && (ok ==> s.calls[i].phase.landed)
    case SeqLands(i) => Allocating(s, i) && s.calls[i].phase.WritingSeq? && !s.calls[i].phase.landed
    case SeqAnswers(i, ok) =>
      Allocating(s, i) && s.calls[i].phase.WritingSeq? && (ok ==> s.calls[i].phase.landed)
    case PollReads(i) => Known(s, i) && s.calls[i].phase.Polling? && s.calls[i].number.Some?
    case PollEnds(i) => Known(s, i) && s.calls[i].phase.Polling?
    case KeyCleared(i, _) => Known(s, i) && s.calls[i].phase.ClearingKeys? && s.calls[i].number.Some?
    case WorkerReads(n) => n <= s.seqKey && n in s.requests
    case WorkerClaims(n, request) => (n, request) in s.handled
    case WorkerAnswers(n, request, _) => (n, request) in s.handled
    case WorkerSweeps(n) => n in s.responses
  }

  function Moved(s: State, i: nat, phase: Phase): State
    requires Known(s, i)
  {
    s.(calls := s.calls[i := s.calls[i].(phase := phase)])
  }

  /** The allocation ends: with a number, or with the call rejected and nothing cleared. */
  function Allocated(s: State, i: nat, number: Option<nat>): State
    requires Allocating(s, i)
  {
    s.(chain := Settle(s.chain, i, number.Some?),
       calls := s.calls[i := s.calls[i].(number := number,
                                         phase := if number.Some? then Polling else Returned(NotAllocated))])
  }

  function Step(s: State, e: Event): State
    requires Enabled(s, e)
  {
    match e
    case Send(payload) =>
      s.(chain := SerialQueue.Call(s.chain, Allocations), calls := s.calls + [Call(payload, Queued, None, false)])
    case AllocationStarts(i) => Moved(s, i, ReadingSeq).(chain := Start(s.chain, i))
    case SeqRead(i, ok) =>
      if ok then Moved(s, i, WritingRequest(s.seqKey + 1, false)) else Allocated(s, i, None)
    case RequestLands(i) =>
      var n := s.calls[i].phase.n;
      Moved(s, i, WritingRequest(n, true))
      .(requests := s.requests[n := Request(i, s.calls[i].payload)], writer := s.writer[n := i])
    case RequestAnswers(i, ok) =>
      if ok then Moved(s, i, WritingSeq(s.calls[i].phase.n, false)) else Allocated(s, i, None)
    case SeqLands(i) =>
      var n := s.calls[i].phase.n;
      Moved(s, i, WritingSeq(n, true)).(seqKey := n, owner := s.owner[n := i])
    case SeqAnswers(i, ok) =>
      if ok then Allocated(s, i, Some(s.calls[i].phase.n)) else Allocated(s, i, None)
    case PollReads(i) =>
      var n := s.calls[i].number.value;
      if n in s.responses then Moved(s, i, ClearingKeys(0, Answered(s.responses[n]))) else s
    case PollEnds(i) => Moved(s, i, ClearingKeys(0, TimedOut))
    case KeyCleared(i, took) => Cleared(s, i, took)
    case WorkerReads(n) => s.(handled := s.handled + {(n, s.requests[n])})
    case WorkerClaims(n, _) => s.(claims := s.claims + {n})
    case WorkerAnswers(n, request, text) => s.(responses := s.responses[n := Answer(request, text)])
    case WorkerSweeps(n) => s.(requests := s.requests - {n}, responses := s.responses - {n}, claims := s.claims - {n},
                                  swept := s.swept + {n})
  }

  /** The `finally`: request, response and claim in turn, a failed clear passed over. */
  function Cleared(s: State, i: nat, took: bool): State
    requires Known(s, i) && s.calls[i].phase.ClearingKeys? && s.calls[i].number.Some?
  {
    var n, step, outcome := s.calls[i].number.value, s.calls[i].phase.step, s.calls[i].phase.outcome;
    var t := Moved(s, i, if step < 2 then ClearingKeys(step + 1, outcome) else Returned(outcome));
    if step == 0 then
      if took then t.(requests := s.requests - {n})
      else t.(calls := t.calls[i := t.calls[i].(requestKept := true)])
    else if !took then t
    else if step == 1 then t.(responses := s.responses - {n})
    else t.(claims := s.claims - {n})
  }

  function Run(start: State, events: seq<Event>): State {
    if events == [] then start
    else
      var before := Run(start, events[..|events| - 1]);
      var last := events[|events| - 1];
      if Enabled(before, last) then Step(before, last) else before
  }

  /** A page that opens over a storage whose worker has answered nothing past the sequence. */
  predicate Opens(s: State) {
    && s.chain == Empty() && s.calls == [] && s.owner == map[] && s.writer == map[] && s.swept == {}
    && (forall n | n in s.responses :: n <= s.seqKey)
    && (forall h | h in s.handled :: h.0 <= s.seqKey)
    && (forall n | n in s.requests :: n <= s.seqKey + 1)
  }

  // ----- what every step keeps

  predicate InAllocation(p: Phase) {
    p.ReadingSeq? || p.WritingRequest? || p.WritingSeq?
  }

  ghost predicate HoldsOwn(s: State, n: nat, i: nat) {
    n in s.writer && s.writer[n] == i && n in s.requests && s.requests[n].caller == i
  }

  /** A call's phase agrees with its place in the allocation chain, a number being allocated is the
      one after the stored sequence until it is the sequence, and an answer is the call's own. */
  ghost predicate CallFits(s: State, base: nat, i: nat)
    requires i < |s.calls| == |s.chain.links|
  {
    var c, p, link := s.calls[i], s.calls[i].phase, s.chain.links[i].phase;
    && (p.Queued? <==> link == Waiting)
    && (InAllocation(p) <==> link == Running)
    && (p.Polling? || p.ClearingKeys? ==> c.number.Some?)
    && (c.number.Some? ==> link.Settled?)
    && (p == Returned(NotAllocated) <==> link.Settled? && c.number.None?)
    && (p.ClearingKeys? ==> p.outcome != NotAllocated)
    && (p.WritingRequest? ==> p.n == s.seqKey + 1 && (p.landed ==> HoldsOwn(s, p.n, i)))
    && (p.WritingSeq? && !p.landed ==> p.n == s.seqKey + 1 && HoldsOwn(s, p.n, i))
    && (p.WritingSeq? && p.landed ==> p.n == s.seqKey && Owns(s, p.n, i))
    && (c.number.Some? ==> base < c.number.value <= s.seqKey && Owns(s, c.number.value, i))
    && (p.ClearingKeys? && p.outcome.Answered? ==> p.outcome.answer.request.caller == i)
    && (p.Returned? && p.outcome.Answered? ==> p.outcome.answer.request.caller == i)
  }

  ghost predicate Owns(s: State, n: nat, i: nat) {
    n in s.owner && s.owner[n] == i
  }

  /** The call has taken its request away, or tried to. */
  predicate PastItsRequest(c: Call, n: nat) {
    c.number == Some(n) && (c.phase.Returned? || (c.phase.ClearingKeys? && c.phase.step > 0))
  }

  /** A number up to the sequence was written before the sequence got there, has one owner, and its
      request is the owner's, left behind only when its clear failed. */
  ghost predicate NumberFits(s: State, base: nat, n: nat) {
    && n in s.writer && n in s.owner && s.writer[n] == s.owner[n] < |s.calls|
    && var c := s.calls[s.owner[n]];
    && !c.phase.Queued? && (InAllocation(c.phase) ==> c.phase == WritingSeq(n, true))
    && (n in s.requests ==> s.requests[n].caller == s.owner[n] && (PastItsRequest(c, n) ==> c.requestKept))
  }

  /** Requests reach at most one past the sequence; what the worker has read and answered does not
      pass it and is its owner's; and owners come in the order of their numbers. */
  ghost predicate StorageFits(s: State, base: nat) {
    && base <= s.seqKey
    && (forall n | n in s.owner :: base < n <= s.seqKey)
    && (forall n | n in s.requests :: n <= s.seqKey + 1)
    && (forall h | h in s.handled :: h.0 <= s.seqKey && (h.0 > base ==> Owns(s, h.0, h.1.caller)))
    && (forall n | n in s.responses ::
          n <= s.seqKey && (n > base ==> Owns(s, n, s.responses[n].request.caller)))
    && (forall m, n | m in s.owner && n in s.owner && m < n :: s.owner[m] < s.owner[n])
  }

  ghost predicate Inv(s: State, base: nat) {
    && SerialQueue.Valid(s.chain) && |s.calls| == |s.chain.links|
    && (forall i | 0 <= i < |s.calls| :: CallFits(s, base, i))
    && (forall n | base < n <= s.seqKey :: NumberFits(s, base, n))
    && StorageFits(s, base)
  }

  // ----- one step

  lemma OthersWait(s: State, base: nat, i: nat, j: nat)
    requires Inv(s, base) && Allocating(s, i) && j < |s.calls| && j != i
    ensures if j < i then s.chain.links[j].phase.Settled? else s.chain.links[j].phase == Waiting
    ensures !InAllocation(s.calls[j].phase) && (j > i ==> s.calls[j].phase.Queued?)
  {
    assert s.chain.links[i].key == Allocations == s.chain.links[j].key;
    assert Follows(s.chain.links, j, i) || Follows(s.chain.links, i, j);
    assert CallFits(s, base, j);
  }

  /** A step that moves one call, and writes nothing but the storage keys given, keeps every other
      call and every number. */
  lemma CallsKept(s: State, base: nat, i: nat, t: State)
    requires Inv(s, base) && Known(s, i) && |t.calls| == |t.chain.links| == |s.calls|
    requires forall j | 0 <= j < |s.calls| && j != i :: t.calls[j] == s.calls[j] && t.chain.links[j] == s.chain.links[j]
    requires t.seqKey == s.seqKey && t.owner == s.owner && t.requests == s.requests && t.writer == s.writer
    ensures forall j | 0 <= j < |s.calls| && j != i :: CallFits(t, base, j)
  {
    forall j | 0 <= j < |s.calls| && j != i ensures CallFits(t, base, j) {
      assert CallFits(s, base, j);
    }
  }

  lemma NumbersKept(s: State, base: nat, i: nat, t: State)
    requires Inv(s, base) && Known(s, i) && |t.calls| == |s.calls|
    requires forall j | 0 <= j < |s.calls| && j != i :: t.calls[j] == s.calls[j]
    requires !t.calls[i].phase.Queued?
    requires InAllocation(t.calls[i].phase) ==>
               s.calls[i].phase.Queued? || (InAllocation(s.calls[i].phase) && !s.calls[i].phase.WritingSeq?)
    requires forall n :: PastItsRequest(t.calls[i], n) && !PastItsRequest(s.calls[i], n) ==>
                           t.calls[i].requestKept || n !in t.requests
    requires s.calls[i].requestKept ==> t.calls[i].requestKept
    requires t.seqKey == s.seqKey && t.owner == s.owner && t.writer == s.writer
    requires forall n | n in t.requests :: n in s.requests && t.requests[n] == s.requests[n]
    ensures forall n | base < n <= t.seqKey :: NumberFits(t, base, n)
  {
    forall n | base < n <= t.seqKey ensures NumberFits(t, base, n) {
      assert NumberFits(s, base, n);
    }
  }

  lemma SendKeeps(s: State, base: nat, payload: string)
    requires Inv(s, base)
    ensures Inv(Step(s, Send(payload)), base)
  {
    var t := Step(s, Send(payload));
    CallKeepsValid(s.chain, Allocations);
    forall j | 0 <= j < |t.calls| ensures CallFits(t, base, j) {
      assert j < |s.calls| ==> CallFits(s, base, j);
    }
    forall n | base < n <= t.seqKey ensures NumberFits(t, base, n) {
      assert NumberFits(s, base, n);
    }
  }

  /** The steps that move one call and leave the sequence and every request as they are. */
  lemma MoveKeeps(s: State, base: nat, i: nat, t: State)
    requires Inv(s, base) && Known(s, i)
    requires i < |t.calls| && t == s.(chain := t.chain, calls := s.calls[i := t.calls[i]])
    requires SerialQueue.Valid(t.chain) && i < |t.chain.links| && t.chain.links == s.chain.links[i := t.chain.links[i]]
    requires !t.calls[i].phase.Queued? && t.calls[i].requestKept == s.calls[i].requestKept
    requires InAllocation(t.calls[i].phase) ==>
               s.calls[i].phase.Queued? || (InAllocation(s.calls[i].phase) && !s.calls[i].phase.WritingSeq?)
    requires forall n :: PastItsRequest(t.calls[i], n) ==> PastItsRequest(s.calls[i], n)
    requires CallFits(t, base, i)
    ensures Inv(t, base)
  {
    CallsKept(s, base, i, t);
    NumbersKept(s, base, i, t);
  }

  lemma SettleKeeps(s: State, base: nat, i: nat, number: Option<nat>)
    requires Inv(s, base) && Allocating(s, i)
    requires number.Some? ==> s.calls[i].phase == WritingSeq(number.value, true)
    ensures Inv(Allocated(s, i, number), base)
  {
    AdvanceKeepsValid(s.chain, i, Settled(number.Some?));
    assert CallFits(s, base, i);
    if number.Some? {
      assert NumberFits(s, base, number.value);
    }
    MoveKeeps(s, base, i, Allocated(s, i, number));
  }

  lemma AllocationKeeps(s: State, base: nat, e: Event)
    requires Inv(s, base) && Enabled(s, e)
    requires e.AllocationStarts? || (e.SeqRead? && e.ok) || (e.RequestAnswers? && e.ok)
    ensures Inv(Step(s, e), base)
  {
    if e.AllocationStarts? {
      AdvanceKeepsValid(s.chain, e.i, Running);
    }
    assert CallFits(s, base, e.i);
    MoveKeeps(s, base, e.i, Step(s, e));
  }

  lemma RequestLandsKeeps(s: State, base: nat, i: nat)
    requires Inv(s, base) && Enabled(s, RequestLands(i))
    ensures Inv(Step(s, RequestLands(i)), base)
  {
    var t := Step(s, RequestLands(i));
    assert CallFits(s, base, i);
    forall j | 0 <= j < |t.calls| ensures CallFits(t, base, j) {
      assert CallFits(s, base, j);
      if j != i {
        OthersWait(s, base, i, j);
      }
    }
    forall n | base < n <= t.seqKey ensures NumberFits(t, base, n) {
      assert NumberFits(s, base, n);
    }
  }

  lemma SeqLandsKeeps(s: State, base: nat, i: nat)
    requires Inv(s, base) && Enabled(s, SeqLands(i))
    ensures Inv(Step(s, SeqLands(i)), base)
  {
    var t := Step(s, SeqLands(i));
    assert CallFits(s, base, i);
    forall j | 0 <= j < |t.calls| ensures CallFits(t, base, j) {
      assert CallFits(s, base, j);
      if j != i {
        OthersWait(s, base, i, j);
      }
    }
    forall n | base < n <= t.seqKey ensures NumberFits(t, base, n) {
      assert n <= s.seqKey ==> NumberFits(s, base, n);
    }
    forall n | n in s.owner ensures s.owner[n] < i {
      assert NumberFits(s, base, n);
      if s.owner[n] != i {
        OthersWait(s, base, i, s.owner[n]);
      }
    }
  }

  lemma PollKeeps(s: State, base: nat, e: Event)
    requires Inv(s, base) && Enabled(s, e) && (e.PollReads? || e.PollEnds?)
    ensures Inv(Step(s, e), base)
  {
    assert CallFits(s, base, e.i);
    if Step(s, e) != s {
      MoveKeeps(s, base, e.i, Step(s, e));
    }
  }

  lemma ClearKeepsOwnCall(s: State, base: nat, i: nat, took: bool)
    requires Inv(s, base) && Enabled(s, KeyCleared(i, took))
    ensures CallFits(Cleared(s, i, took), base, i)
  {
    assert CallFits(s, base, i);
  }

  lemma ClearKeepsOtherCall(s: State, base: nat, i: nat, took: bool, j: nat)
    requires Inv(s, base) && Enabled(s, KeyCleared(i, took)) && j < |s.calls| && j != i
    ensures CallFits(Cleared(s, i, took), base, j)
  {
    assert CallFits(s, base, i) && CallFits(s, base, j);
    assert s.calls[i].number.value <= s.seqKey;
  }

  lemma ClearKeepsCalls(s: State, base: nat, i: nat, took: bool)
    requires Inv(s, base) && Enabled(s, KeyCleared(i, took))
    ensures forall j | 0 <= j < |s.calls| :: CallFits(Cleared(s, i, took), base, j)
  {
    forall j | 0 <= j < |s.calls| ensures CallFits(Cleared(s, i, took), base, j) {
      if j == i {
        ClearKeepsOwnCall(s, base, i, took);
      } else {
        ClearKeepsOtherCall(s, base, i, took, j);
      }
    }
  }

  lemma ClearKeepsStorage(s: State, base: nat, i: nat, took: bool)
    requires Inv(s, base) && Enabled(s, KeyCleared(i, took))
    ensures StorageFits(Cleared(s, i, took), base)
  {
    var t := Cleared(s, i, took);
    assert t.owner == s.owner && t.seqKey == s.seqKey && t.handled == s.handled;
    assert forall n | n in t.responses :: n in s.responses && t.responses[n] == s.responses[n];
    assert forall n | n in t.requests :: n in s.requests;
  }

  lemma ClearKeeps(s: State, base: nat, i: nat, took: bool)
    requires Inv(s, base) && Enabled(s, KeyCleared(i, took))
    ensures Inv(Step(s, KeyCleared(i, took)), base)
  {
    ClearKeepsCalls(s, base, i, took);
    ClearKeepsStorage(s, base, i, took);
    NumbersKept(s, base, i, Cleared(s, i, took));
  }

  /** A step of the worker takes no request away from a number past the sequence. */
  lemma WorkerKeepsCalls(s: State, base: nat, e: Event)
    requires Inv(s, base) && Enabled(s, e)
    requires e.WorkerReads? || e.WorkerClaims? || e.WorkerAnswers? || e.WorkerSweeps?
    ensures forall j | 0 <= j < |s.calls| :: CallFits(Step(s, e), base, j)
  {
    forall j | 0 <= j < |s.calls| ensures CallFits(Step(s, e), base, j) {
      assert CallFits(s, base, j);
    }
  }

  lemma WorkerKeepsNumbers(s: State, base: nat, e: Event)
    requires Inv(s, base) && Enabled(s, e)
    requires e.WorkerReads? || e.WorkerClaims? || e.WorkerAnswers? || e.WorkerSweeps?
    ensures forall n | base < n <= s.seqKey :: NumberFits(Step(s, e), base, n)
  {
    forall n | base < n <= s.seqKey ensures NumberFits(Step(s, e), base, n) {
      assert NumberFits(s, base, n);
    }
  }

  lemma WorkerKeepsStorage(s: State, base: nat, e: Event)
    requires Inv(s, base) && Enabled(s, e)
    requires e.WorkerReads? || e.WorkerClaims? || e.WorkerAnswers? || e.WorkerSweeps?
    ensures StorageFits(Step(s, e), base)
  {
    if e.WorkerReads? && e.n > base {
      assert NumberFits(s, base, e.n);
    }
  }

  lemma WorkerKeeps(s: State, base: nat, e: Event)
    requires Inv(s, base) && Enabled(s, e)
    requires e.WorkerReads? || e.WorkerClaims? || e.WorkerAnswers? || e.WorkerSweeps?
    ensures Inv(Step(s, e), base)
  {
    WorkerKeepsCalls(s, base, e);
    WorkerKeepsNumbers(s, base, e);
    WorkerKeepsStorage(s, base, e);
  }

  lemma StepKeepsInv(s: State, base: nat, e: Event)
    requires Inv(s, base) && Enabled(s, e)
    ensures Inv(Step(s, e), base)
  {
    match e
    case Send(payload) => SendKeeps(s, base, payload);
    case AllocationStarts(_) => AllocationKeeps(s, base, e);
    case SeqRead(i, ok) => if ok { AllocationKeeps(s, base, e); } else { SettleKeeps(s, base, i, None); }
    case RequestLands(i) => RequestLandsKeeps(s, base, i);
    case RequestAnswers(i, ok) => if ok { AllocationKeeps(s, base, e); } else { SettleKeeps(s, base, i, None); }
    case SeqLands(i) => SeqLandsKeeps(s, base, i);
    case SeqAnswers(i, ok) => SettleKeeps(s, base, i, if ok then Some(s.calls[i].phase.n) else None);
    case PollReads(_) => PollKeeps(s, base, e);
    case PollEnds(_) => PollKeeps(s, base, e);
    case KeyCleared(i, took) => ClearKeeps(s, base, i, took);
    case _ => WorkerKeeps(s, base, e);
  }

  // ----- whole runs

  lemma {:induction false} RunKeepsInv(start: State, events: seq<Event>)
    requires Opens(start)
    ensures Inv(Run(start, events), start.seqKey)
  {
    if events == [] {
      EmptyIsValid<Lane>();
    } else {
      var before := Run(start, events[..|events| - 1]);
      RunKeepsInv(start, events[..|events| - 1]);
      if Enabled(before, events[|events| - 1]) {
        StepKeepsInv(before, start.seqKey, events[|events| - 1]);
      }
    }
  }

  lemma NumbersRise(s: State, base: nat, i: nat, j: nat)
    requires Inv(s, base) && i < j < |s.calls| && s.calls[i].number.Some? && s.calls[j].number.Some?
    ensures base < s.calls[i].number.value < s.calls[j].number.value <= s.seqKey
  {
    assert CallFits(s, base, i) && CallFits(s, base, j);
  }

  lemma ReturnedFits(s: State, base: nat, i: nat)
    requires Inv(s, base) && i < |s.calls| && s.calls[i].phase.Returned?
    ensures s.calls[i].phase.outcome.Answered? ==> s.calls[i].phase.outcome.answer.request.caller == i
    ensures s.calls[i].number.Some? && s.calls[i].number.value in s.requests ==> s.calls[i].requestKept
  {
    assert CallFits(s, base, i);
    if s.calls[i].number.Some? {
      assert NumberFits(s, base, s.calls[i].number.value);
    }
  }

  // ----- what a request carries

  /** The request holds what its caller was given to send. */
  predicate Carries(s: State, request: Request) {
    request.caller < |s.calls| && request.payload == s.calls[request.caller].payload
  }

  predicate OutcomeCarries(s: State, p: Phase) {
    (p.ClearingKeys? || p.Returned?) && p.outcome.Answered? ==> Carries(s, p.outcome.answer.request)
  }

  /** So does every request the page stored, and past the opening sequence every one the worker read or
      answered, and every answer a call got. */
  ghost predicate Carried(s: State, base: nat) {
    && (forall n | n in s.requests && n in s.writer :: Carries(s, s.requests[n]))
    && (forall h | h in s.handled && h.0 > base :: Carries(s, h.1))
    && (forall n | n in s.responses && n > base :: Carries(s, s.responses[n].request))
    && (forall i | 0 <= i < |s.calls| :: OutcomeCarries(s, s.calls[i].phase))
  }

  predicate Allocates(e: Event) {
    e.AllocationStarts? || e.SeqRead? || e.RequestLands? || e.RequestAnswers? || e.SeqLands? || e.SeqAnswers?
  }

  predicate OfWorker(e: Event) {
    e.WorkerReads? || e.WorkerClaims? || e.WorkerAnswers? || e.WorkerSweeps?
  }

  /** A call as the next state has it: what it was given to send, and an answer only if it had one. */
  predicate CallGoesOn(c: Call, d: Call) {
    && d.payload == c.payload
    && ((d.phase.ClearingKeys? || d.phase.Returned?) && d.phase.outcome.Answered? ==>
          (c.phase.ClearingKeys? || c.phase.Returned?) && c.phase.outcome == d.phase.outcome)
  }

  lemma AllocationGoesOn(s: State, e: Event, j: nat)
    requires Enabled(s, e) && Allocates(e) && j < |s.calls|
    ensures |Step(s, e).calls| == |s.calls| && CallGoesOn(s.calls[j], Step(s, e).calls[j])
  {
    match e
    case AllocationStarts(_) =>
    case SeqRead(_, _) =>
    case RequestLands(_) =>
    case RequestAnswers(_, _) =>
    case SeqLands(_) =>
    case SeqAnswers(_, _) =>
  }

  lemma AllocationStores(s: State, e: Event)
    requires Enabled(s, e) && Allocates(e) && !e.RequestLands?
    ensures var t := Step(s, e);
            t.requests == s.requests && t.writer == s.writer && t.handled == s.handled && t.responses == s.responses
  {
    match e
    case AllocationStarts(_) =>
    case SeqRead(_, _) =>
    case RequestAnswers(_, _) =>
    case SeqLands(_) =>
    case SeqAnswers(_, _) =>
  }

  lemma AllocationKeepsCarried(s: State, base: nat, e: Event)
    requires Carried(s, base) && Enabled(s, e) && Allocates(e)
    ensures Carried(Step(s, e), base)
  {
    var t := Step(s, e);
    forall j | 0 <= j < |s.calls| ensures |t.calls| == |s.calls| && CallGoesOn(s.calls[j], t.calls[j]) {
      AllocationGoesOn(s, e, j);
    }
    if e.RequestLands? {
      LandingCarries(s, e.i);
    } else {
      AllocationStores(s, e);
    }
    GoesOnCarried(s, base, t);
  }

  lemma LandingCarries(s: State, i: nat)
    requires Enabled(s, RequestLands(i))
    ensures var t, n := Step(s, RequestLands(i)), s.calls[i].phase.n;
            && t.requests == s.requests[n := Request(i, s.calls[i].payload)] && t.writer == s.writer[n := i]
            && t.handled == s.handled && t.responses == s.responses
            && |t.calls| == |s.calls| && Carries(t, t.requests[n])
  {
  }

  lemma GoesOnCarried(s: State, base: nat, t: State)
    requires Carried(s, base) && |t.calls| >= |s.calls|
    requires forall j | 0 <= j < |s.calls| :: CallGoesOn(s.calls[j], t.calls[j])
    requires forall j | |s.calls| <= j < |t.calls| :: t.calls[j].phase.Queued?
    requires forall n | n in t.requests && n in t.writer ::
               (n in s.requests && n in s.writer && t.requests[n] == s.requests[n]) || Carries(t, t.requests[n])
    requires t.handled == s.handled
    requires forall n | n in t.responses :: n in s.responses && t.responses[n] == s.responses[n]
    ensures Carried(t, base)
  {
    forall n | n in t.requests && n in t.writer ensures Carries(t, t.requests[n]) {
      assert n in s.requests && n in s.writer && t.requests[n] == s.requests[n] ==> Carries(s, s.requests[n]);
    }
    forall j | 0 <= j < |t.calls| ensures OutcomeCarries(t, t.calls[j].phase) {
      assert j < |s.calls| ==> OutcomeCarries(s, s.calls[j].phase) && CallGoesOn(s.calls[j], t.calls[j]);
    }
  }

  lemma ClearGoesOn(s: State, i: nat, took: bool)
    requires Enabled(s, KeyCleared(i, took))
    ensures var t := Cleared(s, i, took);
            && |t.calls| == |s.calls| && (forall j | 0 <= j < |s.calls| :: CallGoesOn(s.calls[j], t.calls[j]))
            && t.writer == s.writer && t.handled == s.handled
            && (forall n | n in t.requests :: n in s.requests && t.requests[n] == s.requests[n])
            && (forall n | n in t.responses :: n in s.responses && t.responses[n] == s.responses[n])
  {
  }

  lemma PollKeepsCarried(s: State, base: nat, e: Event)
    requires Inv(s, base) && Carried(s, base) && Enabled(s, e) && (e.PollReads? || e.PollEnds?)
    ensures Carried(Step(s, e), base)
  {
    var t := Step(s, e);
    assert CallFits(s, base, e.i);
    forall j | 0 <= j < |s.calls| ensures OutcomeCarries(t, t.calls[j].phase) {
      assert OutcomeCarries(s, s.calls[j].phase);
    }
  }

  lemma WorkerKeepsCarried(s: State, base: nat, e: Event)
    requires Inv(s, base) && Carried(s, base) && Enabled(s, e) && OfWorker(e)
    ensures Carried(Step(s, e), base)
  {
    if e.WorkerReads? && e.n > base {
      assert NumberFits(s, base, e.n);
    }
  }

  lemma StepKeepsCarried(s: State, base: nat, e: Event)
    requires Inv(s, base) && Carried(s, base) && Enabled(s, e)
    ensures Carried(Step(s, e), base)
  {
    match e
    case Send(_) => GoesOnCarried(s, base, Step(s, e));
    case PollReads(_) => PollKeepsCarried(s, base, e);
    case PollEnds(_) => PollKeepsCarried(s, base, e);
    case KeyCleared(i, took) =>
      ClearGoesOn(s, i, took);
      GoesOnCarried(s, base, Cleared(s, i, took));
    case _ =>
      if OfWorker(e) {
        WorkerKeepsCarried(s, base, e);
      } else {
        AllocationKeepsCarried(s, base, e);
      }
  }

  lemma {:induction false} RunKeepsCarried(start: State, events: seq<Event>)
    requires Opens(start)
    ensures Carried(Run(start, events), start.seqKey)
  {
    if events != [] {
      var front, e := events[..|events| - 1], events[|events| - 1];
      RunKeepsCarried(start, front);
      RunKeepsInv(start, front);
      if Enabled(Run(start, front), e) {
        StepKeepsCarried(Run(start, front), start.seqKey, e);
      }
    }
  }

  /** Whatever interleaves and whatever rejects: the numbers given to calls rise in the order of the
      calls, every number the sequence has reached had its request written first, a call answers
      with the answer to its own request, payload and all, and a call that has returned under a number
      has left no request there unless the storage refused to clear it. */
  lemma {:induction false} ChannelIsSafe(start: State, events: seq<Event>)
    requires Opens(start)
    ensures var s := Run(start, events);
            && (forall i, j | 0 <= i < j < |s.calls| && s.calls[i].number.Some? && s.calls[j].number.Some? ::
                  start.seqKey < s.calls[i].number.value < s.calls[j].number.value <= s.seqKey)
            && (forall n | start.seqKey < n <= s.seqKey :: n in s.writer)
            && (forall i | 0 <= i < |s.calls| && s.calls[i].phase.Returned? ::
                  && (s.calls[i].phase.outcome.Answered? ==>
                        s.calls[i].phase.outcome.answer.request == Request(i, s.calls[i].payload))
                  && (s.calls[i].number.Some? && s.calls[i].number.value in s.requests ==> s.calls[i].requestKept))
  {
    var s := Run(start, events);
    RunKeepsInv(start, events);
    RunKeepsCarried(start, events);
    forall i, j | 0 <= i < j < |s.calls| && s.calls[i].number.Some? && s.calls[j].number.Some?
      ensures start.seqKey < s.calls[i].number.value < s.calls[j].number.value <= s.seqKey
    {
      NumbersRise(s, start.seqKey, i, j);
    }
    forall n | start.seqKey < n <= s.seqKey ensures n in s.writer {
      assert NumberFits(s, start.seqKey, n);
    }
    forall i | 0 <= i < |s.calls| && s.calls[i].phase.Returned?
      ensures s.calls[i].phase.outcome.Answered? ==>
                s.calls[i].phase.outcome.answer.request == Request(i, s.calls[i].payload)
      ensures s.calls[i].number.Some? && s.calls[i].number.value in s.requests ==> s.calls[i].requestKept
    {
      ReturnedFits(s, start.seqKey, i);
      assert OutcomeCarries(s, s.calls[i].phase);
    }
  }

  /** What is stored, read and answered past the opening sequence is what the calls were given to send: a
      stored request is that of the call that wrote there last, one the worker read or answered under a
      number is that of the call whose sequence write reached the number. */
  lemma {:induction false} RequestsAreTheCalls(start: State, events: seq<Event>, n: nat)
    requires Opens(start)
    ensures var s := Run(start, events);
            && (n in s.writer && n in s.requests ==>
                  s.writer[n] < |s.calls| && s.requests[n] == Request(s.writer[n], s.calls[s.writer[n]].payload))
            && (n > start.seqKey ==>
                  forall request | (n, request) in s.handled ::
                    n in s.owner && s.owner[n] < |s.calls|
                    && request == Request(s.owner[n], s.calls[s.owner[n]].payload))
            && (n > start.seqKey && n in s.responses ==>
                  n in s.owner && s.owner[n] < |s.calls|
                  && s.responses[n].request == Request(s.owner[n], s.calls[s.owner[n]].payload))
  {
    RunKeepsInv(start, events);
    RunKeepsCarried(start, events);
    RunKeepsRequest(start, events, n);
  }

  // ----- the requests that stay

  /** Where the call whose request was written last under `n` stands: it is still allocating `n`, it has
      `n`, or it was rejected. */
  predicate WriterFits(c: Call, n: nat) {
    || c.phase == WritingRequest(n, true) || c.phase == WritingSeq(n, false) || c.phase == WritingSeq(n, true)
    || c.number == Some(n) || c.phase == Returned(NotAllocated)
  }

  /** What the page wrote under `n` is still there, or the worker swept it, or its call cleared it. */
  ghost predicate RequestFits(s: State, base: nat, n: nat) {
    n in s.writer ==>
      && base < n <= s.seqKey + 1 && s.writer[n] < |s.calls|
      && var c := s.calls[s.writer[n]];
      && WriterFits(c, n)
      && (n in s.requests ==> s.requests[n].caller == s.writer[n])
      && (n in s.requests || n in s.swept || (PastItsRequest(c, n) && !c.requestKept))
  }

  /** A clear is noted as refused only once it was tried. */
  predicate RefusalFits(c: Call) {
    c.requestKept ==> c.number.Some? && PastItsRequest(c, c.number.value)
  }

  lemma AllocationKeepsRefusal(s: State, base: nat, e: Event, i: nat)
    requires Inv(s, base) && Enabled(s, e) && i < |s.calls| && RefusalFits(s.calls[i])
    requires e.AllocationStarts? || e.SeqRead? || e.RequestLands? || e.RequestAnswers? || e.SeqLands? || e.SeqAnswers?
    ensures RefusalFits(Step(s, e).calls[i])
  {
    assert CallFits(s, base, e.i);
  }

  lemma PollKeepsRefusal(s: State, e: Event, i: nat)
    requires Enabled(s, e) && i < |s.calls| && RefusalFits(s.calls[i])
    requires e.PollReads? || e.PollEnds?
    ensures RefusalFits(Step(s, e).calls[i])
  {
  }

  lemma ClearKeepsRefusal(s: State, i: nat, took: bool, j: nat)
    requires Enabled(s, KeyCleared(i, took)) && j < |s.calls| && RefusalFits(s.calls[j])
    ensures RefusalFits(Cleared(s, i, took).calls[j])
  {
  }

  lemma StepKeepsRefusal(s: State, base: nat, e: Event, i: nat)
    requires Inv(s, base) && Enabled(s, e) && i < |s.calls| && RefusalFits(s.calls[i])
    ensures i < |Step(s, e).calls| && RefusalFits(Step(s, e).calls[i])
  {
    match e
    case PollReads(_) => PollKeepsRefusal(s, e, i);
    case PollEnds(_) => PollKeepsRefusal(s, e, i);
    case KeyCleared(k, took) => ClearKeepsRefusal(s, k, took, i);
    case Send(_) =>
    case WorkerReads(_) =>
    case WorkerClaims(_, _) =>
    case WorkerAnswers(_, _, _) =>
    case WorkerSweeps(_) =>
    case _ => AllocationKeepsRefusal(s, base, e, i);
  }

  lemma AllocatedKeepsCount(s: State, i: nat, number: Option<nat>)
    requires Allocating(s, i)
    ensures |Allocated(s, i, number).calls| == |s.calls|
  {
  }

  lemma NewCallsFit(s: State, e: Event)
    requires Enabled(s, e)
    ensures |Step(s, e).calls| == |s.calls| + if e.Send? then 1 else 0
    ensures e.Send? ==> RefusalFits(Step(s, e).calls[|s.calls|])
  {
    match e
    case SeqRead(i, _) => AllocatedKeepsCount(s, i, None);
    case RequestAnswers(i, _) => AllocatedKeepsCount(s, i, None);
    case SeqAnswers(i, ok) => AllocatedKeepsCount(s, i, if ok then Some(s.calls[i].phase.n) else None);
    case KeyCleared(_, _) =>
    case PollReads(_) =>
    case RequestLands(_) =>
    case SeqLands(_) =>
    case Send(_) =>
    case _ =>
  }

  lemma {:induction false} RunKeepsRefusal(start: State, events: seq<Event>, i: nat)
    requires Opens(start) && i < |Run(start, events).calls|
    ensures RefusalFits(Run(start, events).calls[i])
  {
    if events != [] {
      var front, e := events[..|events| - 1], events[|events| - 1];
      var s := Run(start, front);
      RunKeepsInv(start, front);
      if Enabled(s, e) {
        NewCallsFit(s, e);
        if i < |s.calls| {
          RunKeepsRefusal(start, front, i);
          StepKeepsRefusal(s, start.seqKey, e, i);
        }
      } else {
        RunKeepsRefusal(start, front, i);
      }
    }
  }

  lemma AllocationKeepsRequest(s: State, base: nat, e: Event, n: nat)
    requires Inv(s, base) && RequestFits(s, base, n) && Enabled(s, e)
    requires e.AllocationStarts? || e.SeqRead? || e.RequestAnswers? || e.SeqLands? || e.SeqAnswers?
    ensures RequestFits(Step(s, e), base, n)
  {
    assert CallFits(s, base, e.i);
  }

  lemma LandingKeepsRequest(s: State, base: nat, i: nat, n: nat)
    requires Inv(s, base) && RequestFits(s, base, n) && Enabled(s, RequestLands(i))
    ensures RequestFits(Step(s, RequestLands(i)), base, n)
  {
    assert CallFits(s, base, i);
  }

  lemma ClearKeepsRequest(s: State, base: nat, i: nat, took: bool, n: nat)
    requires Inv(s, base) && RequestFits(s, base, n) && Enabled(s, KeyCleared(i, took))
    requires RefusalFits(s.calls[i])
    ensures RequestFits(Cleared(s, i, took), base, n)
  {
    assert CallFits(s, base, i);
    assert NumberFits(s, base, s.calls[i].number.value);
  }

  lemma RestKeepsRequest(s: State, base: nat, e: Event, n: nat)
    requires Inv(s, base) && RequestFits(s, base, n) && Enabled(s, e)
    requires || e.Send? || e.PollReads? || e.PollEnds?
             || e.WorkerReads? || e.WorkerClaims? || e.WorkerAnswers? || e.WorkerSweeps?
    ensures RequestFits(Step(s, e), base, n)
  {
  }

  lemma StepKeepsRequest(s: State, base: nat, e: Event, n: nat)
    requires Inv(s, base) && RequestFits(s, base, n) && Enabled(s, e)
    requires e.KeyCleared? ==> RefusalFits(s.calls[e.i])
    ensures RequestFits(Step(s, e), base, n)
  {
    match e
    case AllocationStarts(_) => AllocationKeepsRequest(s, base, e, n);
    case SeqRead(_, _) => AllocationKeepsRequest(s, base, e, n);
    case RequestLands(i) => LandingKeepsRequest(s, base, i, n);
    case RequestAnswers(_, _) => AllocationKeepsRequest(s, base, e, n);
    case SeqLands(_) => AllocationKeepsRequest(s, base, e, n);
    case SeqAnswers(_, _) => AllocationKeepsRequest(s, base, e, n);
    case KeyCleared(i, took) => ClearKeepsRequest(s, base, i, took, n);
    case _ => RestKeepsRequest(s, base, e, n);
  }

  lemma {:induction false} RunKeepsRequest(start: State, events: seq<Event>, n: nat)
    requires Opens(start)
    ensures RequestFits(Run(start, events), start.seqKey, n)
  {
    if events != [] {
      var front, e := events[..|events| - 1], events[|events| - 1];
      RunKeepsRequest(start, front, n);
      RunKeepsInv(start, front);
      if Enabled(Run(start, front), e) {
        if e.KeyCleared? {
          RunKeepsRefusal(start, front, e.i);
        }
        StepKeepsRequest(Run(start, front), start.seqKey, e, n);
      }
    }
  }

  /** The page wrote call `i`'s request under `n`, and it is still there. */
  predicate Stored(s: State, i: nat, n: nat) {
    n in s.writer && n in s.requests && s.requests[n].caller == i
  }

  predicate ClearRefused(s: State, i: nat, n: nat)
    requires i < |s.calls|
  {
    s.calls[i].number == Some(n) && s.calls[i].requestKept
  }

  predicate SequenceRejected(s: State, i: nat, n: nat)
    requires i < |s.calls|
  {
    s.calls[i].phase == Returned(NotAllocated) && n in s.owner && s.owner[n] == i
  }

  predicate RequestRejected(s: State, i: nat, n: nat)
    requires i < |s.calls|
  {
    s.calls[i].phase == Returned(NotAllocated) && n !in s.owner && n in s.writer && s.writer[n] == i
  }

  lemma StoredFits(s: State, base: nat, i: nat, n: nat)
    requires Inv(s, base) && RequestFits(s, base, n) && i < |s.calls| && s.calls[i].phase.Returned?
    requires RefusalFits(s.calls[i])
    ensures Stored(s, i, n) ==> ClearRefused(s, i, n) || SequenceRejected(s, i, n) || RequestRejected(s, i, n)
    ensures n !in s.swept && (ClearRefused(s, i, n) || SequenceRejected(s, i, n) || RequestRejected(s, i, n)) ==>
              Stored(s, i, n)
  {
    assert CallFits(s, base, i);
    if base < n <= s.seqKey {
      assert NumberFits(s, base, n);
    }
  }

  /** Of a call that has returned, a request is still stored under a number the worker has not swept
      exactly when its clear was refused, or its sequence write landed and was rejected, or the sequence
      never reached the number after its request landed and no later call has written there. A worker
      that sweeps can only take such requests away. */
  lemma {:induction false} RequestStaysIff(start: State, events: seq<Event>, i: nat, n: nat)
    requires Opens(start)
    requires i < |Run(start, events).calls| && Run(start, events).calls[i].phase.Returned?
    ensures var s := Run(start, events);
            && (Stored(s, i, n) ==> ClearRefused(s, i, n) || SequenceRejected(s, i, n) || RequestRejected(s, i, n))
            && (n !in s.swept ==>
                  (Stored(s, i, n) <==> ClearRefused(s, i, n) || SequenceRejected(s, i, n) || RequestRejected(s, i, n)))
  {
    RunKeepsInv(start, events);
    RunKeepsRequest(start, events, n);
    RunKeepsRefusal(start, events, i);
    StoredFits(Run(start, events), start.seqKey, i, n);
  }

  // ----- how a call that got its number goes on

  /** What came to a call since it got its number: the first of an answer read and the end of its polling, and
      whether each clear took. */
  datatype Progress = Progress(decided: Option<Outcome>, cleared: seq<bool>)

  function ProgressAfter(before: Progress, s: State, e: Event, i: nat): Progress
    requires Enabled(s, e)
  {
    match e
    case PollReads(j) =>
      if j == i && s.calls[i].number.value in s.responses
      then before.(decided := Some(Answered(s.responses[s.calls[i].number.value]))) else before
    case PollEnds(j) => if j == i then before.(decided := Some(TimedOut)) else before
    case KeyCleared(j, took) => if j == i then before.(cleared := before.cleared + [took]) else before
    case _ => before
  }

  function ProgressOf(start: State, events: seq<Event>, i: nat): Progress {
    if events == [] then Progress(None, [])
    else
      var front, last := events[..|events| - 1], events[|events| - 1];
      var s := Run(start, front);
      if Enabled(s, last) then ProgressAfter(ProgressOf(start, front, i), s, last, i) else ProgressOf(start, front, i)
  }

  /** It polls until one of the two comes, then clears its three keys one after the other, and then returns
      what it had been decided to. */
  predicate GoesOn(c: Call, p: Progress) {
    if c.number.Some? then
      && c.phase == (if p.decided.None? then Polling
                     else if |p.cleared| < 3 then ClearingKeys(|p.cleared|, p.decided.value)
                     else Returned(p.decided.value))
      && (p.decided.None? ==> p.cleared == [])
      && (c.requestKept <==> p.cleared != [] && !p.cleared[0])
    else p == Progress(None, []) && !c.requestKept
  }

  lemma AllocationStays(s: State, base: nat, e: Event, i: nat, p: Progress)
    requires Inv(s, base) && Enabled(s, e) && Allocates(e) && i < |s.calls| && GoesOn(s.calls[i], p)
    ensures i < |Step(s, e).calls| && GoesOn(Step(s, e).calls[i], p)
  {
    assert CallFits(s, base, e.i);
    AllocationGoesOn(s, e, i);
  }

  lemma PollStays(s: State, base: nat, e: Event, i: nat, p: Progress)
    requires Inv(s, base) && Enabled(s, e) && i < |s.calls| && GoesOn(s.calls[i], p)
    requires e.PollReads? || e.PollEnds?
    ensures i < |Step(s, e).calls| && GoesOn(Step(s, e).calls[i], ProgressAfter(p, s, e, i))
  {
    assert CallFits(s, base, e.i);
  }

  lemma ClearStays(s: State, k: nat, took: bool, i: nat, p: Progress)
    requires Enabled(s, KeyCleared(k, took)) && i < |s.calls| && GoesOn(s.calls[i], p)
    ensures var t := Cleared(s, k, took);
            i < |t.calls| && GoesOn(t.calls[i], ProgressAfter(p, s, KeyCleared(k, took), i))
  {
  }

  lemma StepGoesOn(s: State, base: nat, e: Event, i: nat, p: Progress)
    requires Inv(s, base) && Enabled(s, e) && i < |s.calls| && GoesOn(s.calls[i], p)
    ensures i < |Step(s, e).calls| && GoesOn(Step(s, e).calls[i], ProgressAfter(p, s, e, i))
  {
    match e
    case Send(_) =>
    case PollReads(_) => PollStays(s, base, e, i, p);
    case PollEnds(_) => PollStays(s, base, e, i, p);
    case KeyCleared(k, took) => ClearStays(s, k, took, i, p);
    case _ =>
      if Allocates(e) {
        AllocationStays(s, base, e, i, p);
      }
  }

  /** Nothing comes to a call that was not made. */
  lemma {:induction false} NoProgressYet(start: State, events: seq<Event>, i: nat)
    requires i >= |Run(start, events).calls|
    ensures ProgressOf(start, events, i) == Progress(None, [])
  {
    if events != [] {
      var front, e := events[..|events| - 1], events[|events| - 1];
      if Enabled(Run(start, front), e) {
        CallsGrow(Run(start, front), e);
      }
      NoProgressYet(start, front, i);
    }
  }

  lemma CallsGrow(s: State, e: Event)
    requires Enabled(s, e)
    ensures |Step(s, e).calls| == |s.calls| + if e.Send? then 1 else 0
  {
    NewCallsFit(s, e);
  }

  /** Over every run: a call that got its number polls until an answer is there or its polling ends, whichever
      is first, then clears request, response and claim in turn whatever each clear says, and returns just
      that; and it is noted exactly when the request's clear was refused. */
  lemma {:induction false} CallGoesAsDecided(start: State, events: seq<Event>, i: nat)
    requires Opens(start) && i < |Run(start, events).calls|
    ensures GoesOn(Run(start, events).calls[i], ProgressOf(start, events, i))
  {
    if events != [] {
      var front, e := events[..|events| - 1], events[|events| - 1];
      var s := Run(start, front);
      RunKeepsInv(start, front);
      if Enabled(s, e) {
        CallsGrow(s, e);
        if i < |s.calls| {
          CallGoesAsDecided(start, front, i);
          StepGoesOn(s, start.seqKey, e, i, ProgressOf(start, front, i));
        } else {
          NoProgressYet(start, front, i);
        }
      } else {
        CallGoesAsDecided(start, front, i);
      }
    }
  }

  /** Each clear takes its own key of the call's own number, when it took, and nothing else. */
  lemma ClearTakesItsKey(s: State, i: nat, took: bool)
    requires Enabled(s, KeyCleared(i, took))
    ensures var t, n, step := Step(s, KeyCleared(i, took)), s.calls[i].number.value, s.calls[i].phase.step;
            && t.requests == (if step == 0 && took then s.requests - {n} else s.requests)
            && t.responses == (if step == 1 && took then s.responses - {n} else s.responses)
            && t.claims == (if step >= 2 && took then s.claims - {n} else s.claims)
            && t.seqKey == s.seqKey && t.handled == s.handled
  {
  }

  /** The first call of all has its request stored, and does not know yet. */
  function FirstRequest(): (s: State)
    ensures s == State(Chain([Link(Allocations, None, Running)], map[Allocations := 0]),
                       [Call("buy", WritingRequest(1, true), None, false)],
                       0, map[1 := Request(0, "buy")], map[], {}, {}, map[], map[1 := 0], {})
  {
    var nobody := State(Empty(), [], 0, map[], map[], {}, {}, map[], map[], {});
    Step(Step(Step(Step(nobody, Send("buy")), AllocationStarts(0)), SeqRead(0, true)), RequestLands(0))
  }

  /** The second case is real: the call is rejected, and its request is stored under the sequence, where
      the worker will read it and run it. */
  lemma RejectedSequenceWriteLeavesItsRequest()
    ensures var writing := Step(FirstRequest(), RequestAnswers(0, true));
            var s := Step(Step(writing, SeqLands(0)), SeqAnswers(0, false));
            && s.calls[0].phase == Returned(NotAllocated) && SequenceRejected(s, 0, 1)
            && s.requests == map[1 := Request(0, "buy")] && Enabled(s, WorkerReads(1))
  {
  }

  /** So is the third: the request write is rejected, and the request is stored one past the sequence,
      where the next call to land will write over it. */
  lemma RejectedRequestWriteLeavesItsRequest()
    ensures var s := Step(FirstRequest(), RequestAnswers(0, false));
            && s.calls[0].phase == Returned(NotAllocated) && RequestRejected(s, 0, 1)
            && s.requests == map[1 := Request(0, "buy")] && s.seqKey == 0
  {
  }

  // ----- polling

  const CLAIMED_GRACE_MS: nat := 20_000
  const POLL_MS: nat := 250

  /** What one call's polling meets: when each check is made, when its read of the claim is back,
      and what each read finds. Time never goes back, and a sleep takes its time. */
  datatype Polls = Polls(
    start: int,
    checks: nat -> int,
    afterClaim: nat -> int,
    answers: nat -> Option<Answer>,
    claimed: nat -> bool)

  ghost predicate TimePasses(p: Polls) {
    && p.start <= p.checks(0)
    && (forall k: nat :: p.checks(k) <= p.afterClaim(k) && p.afterClaim(k) + 250 <= p.checks(k + 1))
  }

  /** `k` is the first check past `until`, of those from `from` on. */
  ghost predicate FirstPast(p: Polls, from: nat, until: int, k: nat) {
    from <= k && p.checks(k) > until && forall j | from <= j < k :: p.checks(j) <= until
  }

  /** The call gives up at check `k`: the deadline is past and nobody has claimed it, or the claim
      that was found then has had its grace too. */
  ghost predicate GivesUp(p: Polls, deadlineMs: nat, k: nat) {
    || (FirstPast(p, 0, p.start + deadlineMs, k) && !p.claimed(k))
    || exists e: nat | e < k ::
         && FirstPast(p, 0, p.start + deadlineMs, e) && p.claimed(e)
         && FirstPast(p, e + 1, p.afterClaim(e) + 20_000, k)
  }

  /** Before check `i` the poll has not given up: it waits until its deadline, or until the grace that the
      claim found at check `e` bought. */
  ghost predicate Waits(p: Polls, deadlineMs: nat, extended: bool, until: int, e: nat, i: nat) {
    if extended then
      && e < i && FirstPast(p, 0, p.start + deadlineMs, e) && p.claimed(e)
      && until == p.afterClaim(e) + 20_000
      && (forall j | e < j < i :: p.checks(j) <= until)
    else until == p.start + deadlineMs && forall j | 0 <= j < i :: p.checks(j) <= until
  }

  lemma NoneGivenUp(p: Polls, deadlineMs: nat, extended: bool, until: int, e: nat, i: nat)
    requires Waits(p, deadlineMs, extended, until, e, i)
    ensures forall j: nat | j < i :: !GivesUp(p, deadlineMs, j)
  {
  }

  lemma GivesUpNow(p: Polls, deadlineMs: nat, extended: bool, until: int, e: nat, i: nat)
    requires Waits(p, deadlineMs, extended, until, e, i) && p.checks(i) > until
    requires extended || !p.claimed(i)
    ensures GivesUp(p, deadlineMs, i)
  {
    if extended {
      assert FirstPast(p, e + 1, p.afterClaim(e) + 20_000, i);
    } else {
      assert FirstPast(p, 0, p.start + deadlineMs, i);
    }
  }

  /** The loop of `poll`, its checks counted in `k`. It answers with the first answer its reads find, and
      gives up exactly when the deadline, or the one grace a claim buys, has run out first; it always
      ends. */
  method Poll(p: Polls, deadlineMs: nat) returns (answer: Option<Answer>, k: nat)
    requires TimePasses(p)
    ensures forall j | 0 <= j < k :: p.answers(j) == None
    ensures answer == p.answers(k)
    ensures answer.None? ==> GivesUp(p, deadlineMs, k)
    ensures forall j: nat | j < k :: !GivesUp(p, deadlineMs, j)
  {
    var until := p.start + deadlineMs;
    var extendedForClaim := false;
    ghost var claim: nat := 0;
    answer, k := p.answers(0), 0;
    while answer.None?
      invariant answer == p.answers(k) && forall j | 0 <= j < k :: p.answers(j) == None
      invariant Waits(p, deadlineMs, extendedForClaim, until, claim, k)
      decreases if extendedForClaim then 0 else 1,
                if until + POLL_MS - p.checks(k) > 0 then until + POLL_MS - p.checks(k) else 0
    {
      assert p.afterClaim(k) + POLL_MS <= p.checks(k + 1);
      if p.checks(k) > until {
        if !extendedForClaim && p.claimed(k) {
          extendedForClaim := true;
          until := p.afterClaim(k) + CLAIMED_GRACE_MS;
          claim := k;
        } else {
          NoneGivenUp(p, deadlineMs, extendedForClaim, until, claim, k);
          GivesUpNow(p, deadlineMs, extendedForClaim, until, claim, k);
          return;
        }
      }
      k := k + 1;
      answer := p.answers(k);
    }
    NoneGivenUp(p, deadlineMs, extendedForClaim, until, claim, k);
  }

  // ----- the manager

  /** `createStorageWorkerManager`: the allocation chain, the calls under way and the stored keys. */
  class StorageWorkerManager {
    var promises: seq<Link<Lane>>
    var allocating: map<Lane, nat>
    var calls: seq<Call>
    var seqKey: nat
    var requests: map<nat, Request>
    var responses: map<nat, Answer>
    var claims: set<nat>
    ghost var handled: set<(nat, Request)>
    ghost var owner: map<nat, nat>
    ghost var writer: map<nat, nat>
    ghost var swept: set<nat>

    ghost function Now(): State
      reads this
    {
      State(Chain(promises, allocating), calls, seqKey, requests, responses, claims, handled, owner,
            writer, swept)
    }

    constructor (seqKey: nat, requests: map<nat, Request>, responses: map<nat, Answer>, claims: set<nat>)
      ensures Now() == State(Empty(), [], seqKey, requests, responses, claims, {}, map[], map[], {})
    {
      promises, allocating, calls := [], map[], [];
      this.seqKey, this.requests, this.responses, this.claims := seqKey, requests, responses, claims;
      handled, owner, writer, swept := {}, map[], map[], {};
    }

    method StartSend(payload: string) returns (call: nat)
      modifies this`promises, this`allocating, this`calls
      ensures Now() == Step(old(Now()), Event.Send(payload)) && call == |old(promises)|
    {
      call := |promises|;
      promises := promises + [Link(Allocations, Get(allocating, Allocations), Waiting)];
      allocating := allocating[Allocations := call];
      calls := calls + [Call(payload, Queued, None, false)];
    }

    method StartAllocation(i: nat)
      requires Enabled(Now(), AllocationStarts(i))
      modifies this`promises, this`calls
      ensures Now() == Step(old(Now()), AllocationStarts(i))
    {
      promises := promises[i := promises[i].(phase := Running)];
      MoveTo(i, ReadingSeq);
    }

    method MoveTo(i: nat, phase: Phase)
      requires i < |calls|
      modifies this`calls
      ensures calls == old(calls)[i := old(calls)[i].(phase := phase)]
    {
      calls := calls[i := calls[i].(phase := phase)];
    }

    method EndAllocation(i: nat, number: Option<nat>)
      requires Allocating(Now(), i)
      modifies this`promises, this`calls
      ensures Now() == Allocated(old(Now()), i, number)
    {
      promises := promises[i := promises[i].(phase := Settled(number.Some?))];
      var next := if number.Some? then Polling else Returned(NotAllocated);
      calls := calls[i := calls[i].(number := number, phase := next)];
    }

    method SequenceIsRead(i: nat, ok: bool)
      requires Enabled(Now(), SeqRead(i, ok))
      modifies this`promises, this`calls
      ensures Now() == Step(old(Now()), SeqRead(i, ok))
    {
      if ok {
        MoveTo(i, WritingRequest(seqKey + 1, false));
      } else {
        EndAllocation(i, None);
      }
    }

    /** The storage takes the request; the page does not know yet. */
    method LandRequest(i: nat)
      requires Enabled(Now(), RequestLands(i))
      modifies this`calls, this`requests, this`writer
      ensures Now() == Step(old(Now()), RequestLands(i))
    {
      var n := calls[i].phase.n;
      requests := requests[n := Request(i, calls[i].payload)];
      writer := writer[n := i];
      MoveTo(i, WritingRequest(n, true));
    }

    method RequestIsWritten(i: nat, ok: bool)
      requires Enabled(Now(), RequestAnswers(i, ok))
      modifies this`promises, this`calls
      ensures Now() == Step(old(Now()), RequestAnswers(i, ok))
    {
      if ok {
        MoveTo(i, WritingSeq(calls[i].phase.n, false));
      } else {
        EndAllocation(i, None);
      }
    }

    method LandSequence(i: nat)
      requires Enabled(Now(), SeqLands(i))
      modifies this`calls, this`seqKey, this`owner
      ensures Now() == Step(old(Now()), SeqLands(i))
    {
      seqKey := calls[i].phase.n;
      owner := owner[seqKey := i];
      MoveTo(i, WritingSeq(seqKey, true));
    }

    method SequenceIsWritten(i: nat, ok: bool)
      requires Enabled(Now(), SeqAnswers(i, ok))
      modifies this`promises, this`calls
      ensures Now() == Step(old(Now()), SeqAnswers(i, ok))
    {
      EndAllocation(i, if ok then Some(calls[i].phase.n) else None);
    }

    method ReadAnswer(i: nat)
      requires Enabled(Now(), PollReads(i))
      modifies this`calls
      ensures Now() == Step(old(Now()), PollReads(i))
    {
      var n := calls[i].number.value;
      if n in responses {
        MoveTo(i, ClearingKeys(0, Answered(responses[n])));
      }
    }

    method GiveUp(i: nat)
      requires Enabled(Now(), PollEnds(i))
      modifies this`calls
      ensures Now() == Step(old(Now()), PollEnds(i))
    {
      MoveTo(i, ClearingKeys(0, TimedOut));
    }

    /** One clear of the `finally`; one that fails is passed over. */
    method ClearKey(i: nat, took: bool)
      requires Enabled(Now(), KeyCleared(i, took))
      modifies this`calls, this`requests, this`responses, this`claims
      ensures Now() == Step(old(Now()), KeyCleared(i, took))
    {
      var n, step, outcome := calls[i].number.value, calls[i].phase.step, calls[i].phase.outcome;
      MoveTo(i, if step < 2 then ClearingKeys(step + 1, outcome) else Returned(outcome));
      if step == 0 {
        if took {
          requests := requests - {n};
        } else {
          calls := calls[i := calls[i].(requestKept := true)];
        }
      } else if took && step == 1 {
        responses := responses - {n};
      } else if took {
        claims := claims - {n};
      }
    }
  }
}
