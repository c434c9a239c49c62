/** What the tasks of a key do to what a screen reads of it: that each call's task is run, what a flag and a
    hand-off note, and exactly when a timer, a failure or an index change is there. */
module RequestStoreTasks {
  import opened Wrappers
  import opened RequestRecord
  import opened RequestStore
  import opened RequestStoreSafety
  import opened RequestStoreRuns

  // ----- no call is dropped

  /** The task is at place `p` of the queue and was not started. */
  predicate Waits(s: Slot, task: Task, p: int) {
    0 <= p < |s.queue| && s.queue[p] == task && (p == 0 ==> s.running.Idle?)
  }

  /** The task of a call that changes a record. */
  predicate IsCallOf(a: Action, task: Task) {
    match a
    case ObserveCall(_) => task == ObserveTask
    case FlagCall(_, note) => task == FlagTask(note)
    case HandoffCall(_, handoff) => task == HandoffTask(handoff)
    case RemoveCall(_) => task == RemoveTask
    case CreateCall(_, _) => task == CreateTask
    case _ => false
  }

  predicate StartsAt(run: seq<Store>, moves: seq<Move>, k: Key, task: Task, m: int)
    requires 0 <= m < |run| && m < |moves|
  {
    var queue := SlotAt(run[m], k).queue;
    moves[m].action.HeadStarts? && moves[m].action.key == k && queue != [] && queue[0] == task
  }

  lemma CallWaits(s: Slot, a: Action, task: Task)
    requires IsCallOf(a, task) && (s.entry.Some? || a.CreateCall?) && (s.queue == [] ==> s.running.Idle?)
    ensures Waits(OwnStep(s, a), task, |s.queue|)
  {
  }

  /** A step leaves the queue or adds to its end. */
  predicate Kept(s: Slot, t: Slot, started: bool) {
    s.queue <= t.queue && (t.running.Idle? || !s.running.Idle? || started)
  }

  /** Or it takes the head off. */
  predicate Ends(s: Slot, t: Slot) {
    s.queue != [] && t.queue == s.queue[1..] && t.running.Idle?
  }

  lemma StartMoves(s: Slot, a: Action)
    requires Can(s, a) && a.HeadStarts?
    ensures Kept(s, OwnStep(s, a), true) || Ends(s, OwnStep(s, a))
  {
    match s.queue[0]
    case ObserveTask =>
    case MergeTask(_) =>
    case RemoveTask =>
    case WriteTask =>
    case CreateTask =>
    case FlagTask(_) =>
    case HandoffTask(_) =>
  }

  lemma AnswerMoves(s: Slot, a: Action)
    requires Can(s, a) && (a.HostApplies? || a.HostAnswers? || a.IndexAnswers?)
    ensures Kept(s, OwnStep(s, a), false) || (Ends(s, OwnStep(s, a)) && !s.running.Idle?)
  {
  }

  /** Short of a reload, a step leaves the queue, adds to its end, or takes its head off, and the head of
      an idle queue by starting it alone. */
  lemma QueueMoves(s: Slot, a: Action)
    requires Can(s, a) && !a.Reload?
    ensures || Kept(s, OwnStep(s, a), a.HeadStarts?)
            || (Ends(s, OwnStep(s, a)) && (a.HeadStarts? || !s.running.Idle?))
  {
    match a
    case HeadStarts(_, _) => StartMoves(s, a);
    case HostApplies(_) => AnswerMoves(s, a);
    case HostAnswers(_, _) => AnswerMoves(s, a);
    case IndexAnswers(_) => AnswerMoves(s, a);
    case _ =>
  }

  lemma WaitGoesOn(s: Slot, a: Action, task: Task, p: int)
    requires Can(s, a) && !a.Reload? && Waits(s, task, p) && !(p == 0 && a.HeadStarts?)
    ensures Waits(OwnStep(s, a), task, if |OwnStep(s, a).queue| < |s.queue| then p - 1 else p)
  {
    QueueMoves(s, a);
  }

  /** How many tasks of the key ended in the steps from `i` up to `j`. */
  ghost function Ended(run: seq<Store>, k: Key, i: nat, j: nat): nat
    requires i <= j < |run|
  {
    if i == j then 0
    else Ended(run, k, i, j - 1)
         + if |SlotAt(run[j], k).queue| < |SlotAt(run[j - 1], k).queue| then 1 else 0
  }

  ghost predicate StepWaits(run: seq<Store>, moves: seq<Move>, k: Key, task: Task, i: nat)
    requires i < |run| - 1 == |moves|
  {
    forall p :: Waits(SlotAt(run[i], k), task, p) && !moves[i].action.Reload? ==>
      || (p == 0 && StartsAt(run, moves, k, task, i))
      || Waits(SlotAt(run[i + 1], k), task,
               if |SlotAt(run[i + 1], k).queue| < |SlotAt(run[i], k).queue| then p - 1 else p)
  }

  lemma RunStepWaits(run: seq<Store>, moves: seq<Move>, k: Key, task: Task, i: nat)
    requires IsRun(run, moves) && i < |moves|
    ensures StepWaits(run, moves, k, task, i)
  {
    var s, a := run[i], moves[i].action;
    assert SlotAt(run[i + 1], k) == After(s, a, moves[i].kept, k);
    if ActsOn(a, k) && !a.Reload? {
      EnabledCan(s, a, k);
      forall p | Waits(SlotAt(s, k), task, p) && !(p == 0 && a.HeadStarts?)
        ensures Waits(OwnStep(SlotAt(s, k), a), task,
                      if |OwnStep(SlotAt(s, k), a).queue| < |SlotAt(s, k).queue| then p - 1 else p)
      {
        WaitGoesOn(SlotAt(s, k), a, task, p);
      }
    }
  }

  /** The task starts at `n`, when the `p` tasks that were before it at `i` have ended. */
  ghost predicate StartsInTurn(run: seq<Store>, moves: seq<Move>, k: Key, task: Task, i: nat, p: nat, n: nat)
    requires i <= n < |run| - 1 == |moves|
  {
    StartsAt(run, moves, k, task, n) && Ended(run, k, i, n) == p
  }

  ghost predicate GetsItsTurn(run: seq<Store>, moves: seq<Move>, k: Key, task: Task, i: nat, p: nat, j: nat)
    requires i <= j < |run| == |moves| + 1
  {
    exists n: nat | i <= n < j :: StartsInTurn(run, moves, k, task, i, p, n)
  }

  lemma {:induction false} WaitsUntilStart(
      run: seq<Store>, moves: seq<Move>, k: Key, task: Task, i: nat, p: nat, j: nat)
    requires i <= j < |run| == |moves| + 1 && forall m: nat | m < |moves| :: StepWaits(run, moves, k, task, m)
    requires Waits(SlotAt(run[i], k), task, p) && forall m | i <= m < j :: !moves[m].action.Reload?
    ensures || Waits(SlotAt(run[j], k), task, p - Ended(run, k, i, j))
            || GetsItsTurn(run, moves, k, task, i, p, j)
    decreases j - i
  {
    if i < j {
      WaitsUntilStart(run, moves, k, task, i, p, j - 1);
      assert StepWaits(run, moves, k, task, j - 1);
      if && Waits(SlotAt(run[j - 1], k), task, p - Ended(run, k, i, j - 1))
         && !Waits(SlotAt(run[j], k), task, p - Ended(run, k, i, j))
      {
        assert StartsInTurn(run, moves, k, task, i, p, j - 1);
      }
    }
  }

  lemma StepsWait(run: seq<Store>, moves: seq<Move>, k: Key, task: Task)
    requires IsRun(run, moves)
    ensures forall m: nat | m < |moves| :: StepWaits(run, moves, k, task, m)
  {
    forall m: nat | m < |moves| ensures StepWaits(run, moves, k, task, m) {
      RunStepWaits(run, moves, k, task, m);
    }
  }

  lemma {:induction false} TurnComes(
      run: seq<Store>, moves: seq<Move>, k: Key, task: Task, i: nat, p: nat, j: nat)
    requires i <= j < |run| == |moves| + 1 && forall m: nat | m < |moves| :: StepWaits(run, moves, k, task, m)
    requires Waits(SlotAt(run[i], k), task, p) && forall m | i <= m < j :: !moves[m].action.Reload?
    requires SlotAt(run[j], k).queue == []
    ensures GetsItsTurn(run, moves, k, task, i, p, j)
  {
    WaitsUntilStart(run, moves, k, task, i, p, j);
  }

  lemma CallWaitsInRun(run: seq<Store>, moves: seq<Move>, k: Key, task: Task, m: nat)
    requires IsRun(run, moves) && Inv(run[0]) && m < |moves|
    requires IsCallOf(moves[m].action, task) && ActsOn(moves[m].action, k)
    requires moves[m].action.CreateCall? || SlotAt(run[m], k).entry.Some?
    ensures Waits(SlotAt(run[m + 1], k), task, |SlotAt(run[m], k).queue|)
  {
    InvAlongRun(run, moves, m);
    InvAt(run[m], k);
    assert SlotAt(run[m + 1], k) == After(run[m], moves[m].action, moves[m].kept, k);
    CallWaits(SlotAt(run[m], k), moves[m].action, task);
  }

  /** No call is dropped and none overtakes another: an observation, a flag, a hand-off or a removal of a known
      key, and a create, starts before the key's queue is empty, when exactly the tasks queued at the call
      have ended, whatever else is called, fails or comes late, short of a reload. */
  lemma EveryCallRuns(run: seq<Store>, moves: seq<Move>, k: Key, task: Task, m: nat, j: nat)
    requires IsRun(run, moves) && Inv(run[0]) && m < j < |run|
    requires IsCallOf(moves[m].action, task) && ActsOn(moves[m].action, k)
    requires moves[m].action.CreateCall? || SlotAt(run[m], k).entry.Some?
    requires SlotAt(run[j], k).queue == [] && forall n | m < n < j :: !moves[n].action.Reload?
    ensures GetsItsTurn(run, moves, k, task, m + 1, |SlotAt(run[m], k).queue|, j)
  {
    CallWaitsInRun(run, moves, k, task, m);
    StepsWait(run, moves, k, task);
    TurnComes(run, moves, k, task, m + 1, |SlotAt(run[m], k).queue|, j);
  }

  // ----- what a flag and a hand-off note

  /** A flag's note reaches a top-up's conflict, and a hand-off its record, with the next rev, and nothing else
      of the record changes; a withdrawal, and a key with no record, is left alone. */
  lemma NotesAreKept(s: Slot, reduced: Record, text: string)
    requires s.queue != [] && s.running.Idle? && s.queue[0] in {FlagTask(text), HandoffTask(text)}
    ensures var t := StartHead(s, reduced);
            && t.queue == s.queue[1..] && t.running.Idle? && t.host == s.host
            && (s.entry.None? || s.entry.value.record.durable.kind == Withdrawal ==>
                  t.entry == s.entry && t.coalesced == s.coalesced)
            && (s.entry.Some? && s.entry.value.record.durable.kind == TopUp ==>
                  && t.coalesced && t.entry.Some? && t.entry.value.pendingWrite
                  && var before, now := s.entry.value.record, t.entry.value.record;
                  && now.rev == before.rev + 1
                  && (s.queue[0].FlagTask? ==>
                        now.witnesses.conflict == Some(text) && now.durable == before.durable
                        && now.witnesses.(conflict := None) == before.witnesses.(conflict := None))
                  && (s.queue[0].HandoffTask? ==>
                        now.durable.handoff == Some(text) && now.witnesses == before.witnesses
                        && now.durable.(handoff := None) == before.durable.(handoff := None)))
  {
  }

  // ----- timers, failures and the index, step by step

  /** The steps that set a key's timer: a change that need not be on the host at once, a merge that finds
      memory ahead, an answer that the host has nothing, and a finished record that is pending. */
  predicate SetsTimer(s: Slot, a: Action) {
    && s.entry.Some?
    && match a
       case HeadStarts(_, reduced) =>
         && s.queue != []
         && (if s.queue[0].MergeTask? then s.queue[0].read.rev < s.entry.value.record.rev
             else StartCommits(s, reduced)
                  && !(s.queue[0].ObserveTask? && MustBeStored(s.entry.value.record.durable, reduced.durable)))
       case ReadAnswers(_, result) => result == Answered && s.read == Sampled(None)
       case ReadBegins(_) => Finished(s.entry.value.record.durable) && s.entry.value.pendingWrite
       case _ => false
  }

  /** The steps that take it: it fires, a flush, a change the host must hear of, a removal and a reload. */
  predicate TakesTimer(s: Slot, a: Action) {
    match a
    case TimerFires(_) => true
    case FlushCall => true
    case Reload => true
    case HeadStarts(_, reduced) =>
      && s.queue != []
      && (|| s.queue[0].RemoveTask?
          || (s.queue[0].ObserveTask? && s.entry.Some?
              && MustBeStored(s.entry.value.record.durable, reduced.durable)))
    case _ => false
  }

  lemma ObserveTimer(s: Slot, a: Action)
    requires Can(s, a) && a.HeadStarts? && s.queue[0].ObserveTask?
    ensures OwnStep(s, a).coalesced <==> SetsTimer(s, a) || (s.coalesced && !TakesTimer(s, a))
  {
    if s.entry.Some? {
      CriticalIff(s.entry.value.record.durable, a.reduced.durable);
    }
  }

  lemma StartTimer(s: Slot, a: Action)
    requires Can(s, a) && a.HeadStarts? && !s.queue[0].ObserveTask?
    ensures OwnStep(s, a).coalesced <==> SetsTimer(s, a) || (s.coalesced && !TakesTimer(s, a))
  {
  }

  /** A key has a timer after a step exactly when the step sets one, or it had one that the step does not
      take; and a timer that fires and a flush leave a write queued for it. */
  lemma TimerIff(s: Slot, a: Action)
    requires Can(s, a)
    ensures OwnStep(s, a).coalesced <==> SetsTimer(s, a) || (s.coalesced && !TakesTimer(s, a))
    ensures a.TimerFires? || (a.FlushCall? && s.coalesced) ==> OwnStep(s, a).queue == s.queue + [WriteTask]
  {
    match a
    case HeadStarts(_, _) => if s.queue[0].ObserveTask? { ObserveTimer(s, a); } else { StartTimer(s, a); }
    case _ =>
  }

  predicate StartsMerge(s: Slot, a: Action) {
    a.HeadStarts? && s.queue != [] && s.queue[0].MergeTask?
  }

  /** Of an entry that stays: a failed write is named exactly from its rejection until a write is taken, a merge
      replaces the record, or a reload; a failed read exactly from its rejection until a merge or a reload. An
      unusable answer names nothing. */
  lemma FailuresAreNamed(s: Slot, a: Action)
    requires Can(s, a) && s.entry.Some? && OwnStep(s, a).entry.Some?
    ensures var e, f := s.entry.value, OwnStep(s, a).entry.value;
            && (f.persistError
                <==> (a.HostAnswers? && !a.ok && s.running.Writing?)
                     || (e.persistError && !a.Reload? && !(a.HostAnswers? && a.ok && s.running.Writing?)
                         && !(StartsMerge(s, a) && s.queue[0].read.rev > e.record.rev)))
            && (f.readError
                <==> (a.ReadAnswers? && a.result.Rejected?)
                     || (e.readError && !a.Reload? && !StartsMerge(s, a)))
  {
    match a
    case HeadStarts(_, _) => StartsName(s, a);
    case HostAnswers(_, _) =>
    case ReadAnswers(_, _) =>
    case _ =>
  }

  lemma StartsName(s: Slot, a: Action)
    requires Can(s, a) && s.entry.Some? && a.HeadStarts?
    ensures var e, t := s.entry.value, OwnStep(s, a);
            && t.entry.Some?
            && (t.entry.value.persistError
                <==> e.persistError && !(StartsMerge(s, a) && s.queue[0].read.rev > e.record.rev))
            && (t.entry.value.readError <==> e.readError && !StartsMerge(s, a))
  {
    match s.queue[0]
    case ObserveTask =>
    case MergeTask(_) =>
    case RemoveTask =>
    case WriteTask =>
    case CreateTask =>
    case FlagTask(_) =>
    case HandoffTask(_) =>
  }

  /** A task changes the index exactly after its storage call was answered well: a create after its write, or
      at once when nothing of it is left to write, and a removal after its clear. */
  lemma IndexChangesIff(s: Slot, a: Action, pass: Pass)
    requires SlotInv(s, pass) && Can(s, a) && !s.running.Indexing?
    ensures OwnStep(s, a).running.Indexing?
            <==> || (a.HostAnswers? && a.ok && (s.queue[0].CreateTask? || s.queue[0].RemoveTask?))
                 || (a.HeadStarts? && s.queue[0].CreateTask? && !(s.entry.Some? && s.entry.value.pendingWrite))
  {
    match a
    case HeadStarts(_, _) => StartIndexes(s, a);
    case HostAnswers(_, _) =>
    case _ =>
  }

  lemma StartIndexes(s: Slot, a: Action)
    requires Can(s, a) && a.HeadStarts?
    ensures OwnStep(s, a).running.Indexing?
            <==> s.queue[0].CreateTask? && !(s.entry.Some? && s.entry.value.pendingWrite)
  {
  }
}
