/** No coalescing window sits on the side of money, but for the steps that put one there: exactly when money
    the host has not heard of waits. */
module RequestStoreMoney {
  import opened Wrappers
  import opened RequestRecord
  import opened RequestStore
  import opened RequestStoreSafety
  import opened RequestStoreRuns

  /** Memory knows that money moved, and the host's record does not. */
  predicate MoneyUntold(s: Slot) {
    && s.entry.Some? && s.host.Some?
    && Rank(s.host.value.durable) == 0 && Rank(s.entry.value.record.durable) >= 1
  }

  /** It waits: no write of it is out, none has failed and says so, and the entry is not one that nothing
      has looked at since it was read from the mirror or a removal of it was tried. */
  predicate MoneyWaits(s: Slot) {
    MoneyUntold(s) && !s.running.Writing? && !s.entry.value.persistError && !s.unverified
  }

  /** A change that is not critical, or a reconcile, takes up an entry nothing had looked at, and leaves it
      to the timer. */
  predicate TakesUp(s: Slot, a: Action) {
    && s.unverified && s.entry.Some?
    && match a
       case HeadStarts(_, reduced) =>
         && s.queue != []
         && (if s.queue[0].MergeTask? then s.queue[0].read.rev < s.entry.value.record.rev
             else StartCommits(s, reduced) && !StartIsCritical(s, reduced))
       case ReadAnswers(_, result) => result == Answered && s.read == Sampled(None) && !s.running.Writing?
       case _ => false
  }

  predicate StartIsCritical(s: Slot, reduced: Record)
    requires s.queue != [] && s.entry.Some?
  {
    s.queue[0].ObserveTask? && IsCritical(s.entry.value.record.durable, reduced.durable)
  }

  /** The ways money comes to wait: it is in an entry that is taken up with no failure noted, or in a record
      created over one the host holds, whose write is queued. */
  predicate LeavesMoney(s: Slot, a: Action) {
    && (a.CreateCall? || (TakesUp(s, a) && !s.entry.value.persistError))
    && MoneyUntold(OwnStep(s, a))
  }

  /** The ways it no longer does: a write of it starts, a removal of it is tried, the page reloads, or the
      record is changed into one that says no money moved. */
  predicate TakesMoneyOn(s: Slot, a: Action) {
    match a
    case Reload => true
    case HeadStarts(_, reduced) =>
      && s.queue != [] && s.entry.Some?
      && (|| (WritesHost(s.queue[0]) && s.entry.value.pendingWrite)
          || s.queue[0].RemoveTask?
          || (StartCommits(s, reduced) && s.queue[0].ObserveTask?
              && (IsCritical(s.entry.value.record.durable, reduced.durable) || Rank(reduced.durable) == 0)))
    case _ => false
  }

  /** One step: money waits after it exactly when it did and the step does not take it on, or the step
      leaves it so. */
  ghost predicate Exact(s: Slot, a: Action, t: Slot) {
    MoneyWaits(t) <==> (MoneyWaits(s) && !TakesMoneyOn(s, a)) || LeavesMoney(s, a)
  }

  lemma CommitWaitsIff(s: Slot, next: Record, critical: bool)
    requires s.queue != [] && !s.queue[0].CreateTask? && s.running.Idle? && s.entry.Some?
    ensures MoneyWaits(Commit(s, next, critical))
            <==> !critical && !s.entry.value.persistError && s.host.Some?
                 && Rank(s.host.value.durable) == 0 && Rank(next.durable) >= 1
  {
  }

  lemma ObserveIsExact(s: Slot, a: Action)
    requires Can(s, a) && a.HeadStarts? && s.entry.Some? && s.queue[0].ObserveTask?
    ensures Exact(s, a, OwnStep(s, a))
  {
    if StartCommits(s, a.reduced) {
      var record := s.entry.value.record;
      CommitWaitsIff(s, a.reduced.(rev := record.rev + 1), IsCritical(record.durable, a.reduced.durable));
    }
  }

  lemma NoteIsExact(s: Slot, a: Action)
    requires Can(s, a) && a.HeadStarts? && s.entry.Some? && (s.queue[0].FlagTask? || s.queue[0].HandoffTask?)
    ensures Exact(s, a, OwnStep(s, a))
  {
    var record := s.entry.value.record;
    match s.queue[0]
    case FlagTask(note) => CommitWaitsIff(s, Flagged(record, note), false);
    case HandoffTask(handoff) => CommitWaitsIff(s, HandedOff(record, handoff), false);
  }

  lemma StartIsExact(s: Slot, a: Action, pass: Pass)
    requires SlotInv(s, pass) && Can(s, a) && a.HeadStarts?
    ensures Exact(s, a, OwnStep(s, a))
  {
    match s.queue[0]
    case WriteTask =>
    case CreateTask =>
    case RemoveTask =>
    case MergeTask(read) => assert ReadIsPast(s, read);
    case ObserveTask => if s.entry.Some? { ObserveIsExact(s, a); }
    case _ => if s.entry.Some? { NoteIsExact(s, a); }
  }

  lemma AnswerIsExact(s: Slot, a: Action, pass: Pass)
    requires SlotInv(s, pass) && Can(s, a) && (a.HostApplies? || a.HostAnswers?)
    ensures Exact(s, a, OwnStep(s, a))
  {
  }

  lemma ReadAnswerIsExact(s: Slot, a: Action)
    requires Can(s, a) && a.ReadAnswers?
    ensures Exact(s, a, OwnStep(s, a))
  {
  }

  lemma OwnStepIsExact(s: Slot, a: Action, pass: Pass)
    requires SlotInv(s, pass) && Can(s, a)
    ensures Exact(s, a, OwnStep(s, a))
  {
    match a
    case HeadStarts(_, _) => StartIsExact(s, a, pass);
    case HostApplies(_) => AnswerIsExact(s, a, pass);
    case HostAnswers(_, _) => AnswerIsExact(s, a, pass);
    case ReadAnswers(_, _) => ReadAnswerIsExact(s, a);
    case _ =>
  }

  // ----- whole runs

  ghost predicate LeavesMoneyAt(run: seq<Store>, moves: seq<Move>, k: Key, m: int)
    requires 0 <= m < |run| && m < |moves|
  {
    ActsOn(moves[m].action, k) && LeavesMoney(SlotAt(run[m], k), moves[m].action)
  }

  ghost predicate TakesMoneyOnAt(run: seq<Store>, moves: seq<Move>, k: Key, m: int)
    requires 0 <= m < |run| && m < |moves|
  {
    ActsOn(moves[m].action, k) && TakesMoneyOn(SlotAt(run[m], k), moves[m].action)
  }

  ghost predicate LeftAlone(run: seq<Store>, moves: seq<Move>, k: Key, i: nat, j: nat)
    requires j < |run| == |moves| + 1
  {
    forall m | i <= m < j :: !TakesMoneyOnAt(run, moves, k, m)
  }

  /** A step left the money so, and nothing took it on since. */
  ghost predicate LeftWaiting(run: seq<Store>, moves: seq<Move>, k: Key, j: nat)
    requires j < |run| == |moves| + 1
  {
    exists m: nat | m < j :: LeavesMoneyAt(run, moves, k, m) && LeftAlone(run, moves, k, m + 1, j)
  }

  ghost predicate StepExact(run: seq<Store>, moves: seq<Move>, k: Key, i: nat)
    requires i < |run| - 1 == |moves|
  {
    MoneyWaits(SlotAt(run[i + 1], k))
    <==> (MoneyWaits(SlotAt(run[i], k)) && !TakesMoneyOnAt(run, moves, k, i)) || LeavesMoneyAt(run, moves, k, i)
  }

  lemma RunStepIsExact(run: seq<Store>, moves: seq<Move>, k: Key, i: nat)
    requires IsRun(run, moves) && Inv(run[0]) && i < |moves|
    ensures StepExact(run, moves, k, i)
  {
    var s, a := run[i], moves[i].action;
    InvAlongRun(run, moves, i);
    InvAt(s, k);
    assert SlotAt(run[i + 1], k) == After(s, a, moves[i].kept, k);
    if ActsOn(a, k) {
      EnabledCan(s, a, k);
      OwnStepIsExact(SlotAt(s, k), a, s.pass);
    }
  }

  lemma AloneToTheEnd(run: seq<Store>, moves: seq<Move>, k: Key, i: nat, j: nat)
    requires i < j < |run| == |moves| + 1
    ensures LeftAlone(run, moves, k, i, j)
            <==> LeftAlone(run, moves, k, i, j - 1) && !TakesMoneyOnAt(run, moves, k, j - 1)
  {
  }

  lemma WaitingWasLeft(run: seq<Store>, moves: seq<Move>, k: Key, j: nat)
    requires 0 < j < |run| == |moves| + 1 && LeftWaiting(run, moves, k, j)
    ensures (LeftWaiting(run, moves, k, j - 1) && !TakesMoneyOnAt(run, moves, k, j - 1))
            || LeavesMoneyAt(run, moves, k, j - 1)
  {
    var m: nat :| m < j && LeavesMoneyAt(run, moves, k, m) && LeftAlone(run, moves, k, m + 1, j);
    if m < j - 1 {
      AloneToTheEnd(run, moves, k, m + 1, j);
    }
  }

  lemma WaitingIsLeft(run: seq<Store>, moves: seq<Move>, k: Key, j: nat)
    requires 0 < j < |run| == |moves| + 1
    requires (LeftWaiting(run, moves, k, j - 1) && !TakesMoneyOnAt(run, moves, k, j - 1))
             || LeavesMoneyAt(run, moves, k, j - 1)
    ensures LeftWaiting(run, moves, k, j)
  {
    if LeavesMoneyAt(run, moves, k, j - 1) {
      assert LeftAlone(run, moves, k, j, j);
    } else {
      var m: nat :| m < j - 1 && LeavesMoneyAt(run, moves, k, m) && LeftAlone(run, moves, k, m + 1, j - 1);
      AloneToTheEnd(run, moves, k, m + 1, j);
    }
  }

  lemma {:induction false} StepsAddUp(run: seq<Store>, moves: seq<Move>, k: Key, j: nat)
    requires j < |run| == |moves| + 1 && forall i: nat | i < |moves| :: StepExact(run, moves, k, i)
    ensures MoneyWaits(SlotAt(run[j], k))
            <==> (MoneyWaits(SlotAt(run[0], k)) && LeftAlone(run, moves, k, 0, j)) || LeftWaiting(run, moves, k, j)
  {
    if j > 0 {
      StepsAddUp(run, moves, k, j - 1);
      AloneToTheEnd(run, moves, k, 0, j);
      assert StepExact(run, moves, k, j - 1);
      if LeftWaiting(run, moves, k, j) {
        WaitingWasLeft(run, moves, k, j);
      } else if MoneyWaits(SlotAt(run[j], k)) && !LeftAlone(run, moves, k, 0, j) {
        WaitingIsLeft(run, moves, k, j);
      }
    }
  }

  /** Over any run: money the host has not heard of waits, with no write of it out, failed or unverified,
      exactly when it did at the start, or a step left it so, and no step took it on since. The steps that
      leave it are a change or a reconcile that takes up an unverified entry, and a create over an older
      host record. */
  lemma MoneyWaitsIff(run: seq<Store>, moves: seq<Move>, k: Key, j: nat)
    requires IsRun(run, moves) && Inv(run[0]) && j < |run|
    ensures MoneyWaits(SlotAt(run[j], k))
            <==> (MoneyWaits(SlotAt(run[0], k)) && LeftAlone(run, moves, k, 0, j)) || LeftWaiting(run, moves, k, j)
  {
    forall i: nat | i < |moves| ensures StepExact(run, moves, k, i) {
      RunStepIsExact(run, moves, k, i);
    }
    StepsAddUp(run, moves, k, j);
  }

  /** At a boot no money waits that way. */
  lemma BootWaitsForNothing(host: map<Key, Record>, mirror: map<Key, Record>, k: Key)
    ensures !MoneyWaits(SlotAt(Boot(host, mirror), k))
  {
  }

  /** The first way is real: hydrated from the mirror with a deposit the host has not heard of, a hand-off
      leaves the deposit to the timer. */
  lemma UnverifiedMoneyWaits(s: Slot, handoff: string)
    requires MoneyUntold(s) && s.queue == [HandoffTask(handoff)] && s.running.Idle? && s.unverified
    requires s.entry.value.record.durable.kind == TopUp && !s.entry.value.persistError
    ensures var t := StartHead(s, s.entry.value.record);
            MoneyWaits(t) && t.coalesced && t.queue == []
  {
  }
}
