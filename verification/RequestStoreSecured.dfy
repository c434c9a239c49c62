/** Which records are on their way to the host, through whole runs: what secures a record, what loses
    it, and what is on the host once a key has nothing left to do. */
module RequestStoreSecured {
  import opened Wrappers
  import opened RequestRecord
  import opened RequestStore
  import opened RequestStoreSafety
  import opened RequestStoreRuns

  predicate OnHost(s: Slot) {
    s.entry.Some? && Same(s.host, s.entry.value.record)
  }

  predicate Pending(s: Slot) {
    s.entry.Some? && s.entry.value.pendingWrite
  }

  /** The record is on the host, or it is pending and a write of it lies ahead. */
  predicate Secured(s: Slot) {
    OnHost(s) || (Pending(s) && WriteAhead(s))
  }

  /** A write is queued behind the head. */
  predicate LaterWrite(s: Slot) {
    exists i | 0 < i < |s.queue| :: WritesHost(s.queue[i])
  }

  /** The steps that take the record out of memory: the answer to its clear, and a reload when the mirror
      does not have it. */
  predicate Drops(s: Slot, a: Action) {
    (a.Reload? && s.mirror.None?) || (a.HostAnswers? && a.ok && s.running.Clearing?)
  }

  /** The steps that take the way to the host away, each with when it does: a reload of a record that is
      not there yet, the start of a removal, which takes the timer, the clear landing, and a write the
      host rejects. */
  predicate Loses(s: Slot, a: Action) {
    match a
    case Reload => !OnHost(s)
    case HeadStarts(_, _) =>
      s.queue != [] && s.queue[0].RemoveTask? && !OnHost(s) && !(Pending(s) && LaterWrite(s))
    case HostApplies(_) => s.running.Clearing? && !(Pending(s) && WriteAhead(s))
    case HostAnswers(_, ok) => !ok && s.running.Writing? && !OnHost(s) && !s.coalesced && !LaterWrite(s)
    case _ => false
  }

  /** The steps that put a record on its way: a change of it, the merge of a read, an answer that the
      host has nothing, and a reconcile that finds it finished and pending. */
  predicate Secures(s: Slot, a: Action) {
    match a
    case HeadStarts(_, reduced) => s.queue != [] && (s.queue[0].MergeTask? || StartCommits(s, reduced))
    case ReadAnswers(_, result) => result == Answered && s.read == Sampled(None)
    case ReadBegins(_) => Pending(s) && Finished(s.entry.value.record.durable)
    case _ => false
  }

  // ----- one step

  lemma EnqueueAhead(s: Slot, task: Task)
    ensures WriteAhead(Enqueue(s, task))
            <==> WriteAhead(s) || (WritesHost(task) && (s.queue != [] || !s.running.Indexing?))
  {
    var t := Enqueue(s, task);
    assert t.queue[|s.queue|] == task;
    assert forall i | 0 <= i < |s.queue| :: t.queue[i] == s.queue[i];
  }

  /** A task that ends takes no write away but its own. */
  lemma FinishAhead(s: Slot)
    requires s.queue != [] && !s.running.Writing?
    requires WritesHost(s.queue[0]) ==> s.running.Indexing?
    ensures WriteAhead(Finish(s)) <==> WriteAhead(s)
  {
    var t := Finish(s);
    assert forall i | 0 <= i < |t.queue| :: t.queue[i] == s.queue[i + 1];
    if WriteAhead(s) && !s.coalesced {
      var i :| 0 <= i < |s.queue| && WritesHost(s.queue[i]) && !(i == 0 && s.running.Indexing?);
      assert WritesHost(t.queue[i - 1]);
    }
  }

  ghost predicate Exact(s: Slot, a: Action, t: Slot) {
    t.entry.Some? && (Secured(t) <==> (Secured(s) && !Loses(s, a)) || Secures(s, a))
  }

  lemma WriteStartIsExact(s: Slot, a: Action)
    requires s.entry.Some? && EntryFits(s) && Can(s, a) && a.HeadStarts? && WritesHost(s.queue[0])
    ensures Exact(s, a, StartHead(s, a.reduced))
  {
    assert WriteAhead(s);
  }

  lemma CommitSecures(s: Slot, next: Record, critical: bool)
    requires s.entry.Some? && s.queue != [] && !s.queue[0].CreateTask? && s.running.Idle?
    ensures Secured(Commit(s, next, critical))
  {
  }

  lemma ChangeIsExact(s: Slot, a: Action)
    requires s.entry.Some? && Can(s, a) && a.HeadStarts?
    requires s.queue[0].ObserveTask? || s.queue[0].FlagTask? || s.queue[0].HandoffTask?
    ensures Exact(s, a, StartHead(s, a.reduced))
  {
    var record := s.entry.value.record;
    match s.queue[0]
    case ObserveTask =>
      if WitnessOnly(record, a.reduced) {
        FinishAhead(s.(entry := Some(s.entry.value.(record := a.reduced))));
      } else {
        CommitSecures(s, a.reduced.(rev := record.rev + 1), IsCritical(record.durable, a.reduced.durable));
      }
    case FlagTask(note) =>
      FinishAhead(s);
      CommitSecures(s, Flagged(record, note), false);
    case HandoffTask(handoff) =>
      FinishAhead(s);
      CommitSecures(s, HandedOff(record, handoff), false);
  }

  lemma MergeIsExact(s: Slot, a: Action, pass: Pass)
    requires s.entry.Some? && SlotInv(s, pass) && Can(s, a) && a.HeadStarts? && s.queue[0].MergeTask?
    ensures Exact(s, a, StartHead(s, a.reduced))
  {
    assert ReadIsPast(s, s.queue[0].read);
  }

  /** The start of a removal takes the timer, and nothing else that lies ahead. */
  lemma RemoveStartAhead(s: Slot, reduced: Record)
    requires s.queue != [] && s.queue[0].RemoveTask? && s.running.Idle?
    ensures WriteAhead(StartHead(s, reduced)) <==> LaterWrite(s)
  {
    assert WriteAhead(StartHead(s, reduced)) <==> LaterWrite(StartHead(s, reduced));
  }

  /** What a write that was rejected leaves ahead. */
  lemma RejectedWriteAhead(s: Slot)
    requires s.queue != [] && s.running.Writing? && s.entry.Some?
    ensures WriteAhead(HostAnswered(s, false)) <==> s.coalesced || LaterWrite(s)
  {
    var t := HostAnswered(s, false);
    assert forall i | 0 <= i < |t.queue| :: t.queue[i] == s.queue[i + 1];
    if LaterWrite(s) {
      var i :| 0 < i < |s.queue| && WritesHost(s.queue[i]);
      assert WritesHost(t.queue[i - 1]);
    }
  }

  lemma AnswerIsExact(s: Slot, a: Action, pass: Pass)
    requires s.entry.Some? && SlotInv(s, pass) && Can(s, a) && !Drops(s, a)
    requires a.HostApplies? || a.HostAnswers? || a.IndexAnswers?
    ensures Exact(s, a, OwnStep(s, a))
  {
    if a.IndexAnswers? || s.running.Clearing? {
      FinishAhead(s);
    } else if a.HostAnswers? && !a.ok {
      RejectedWriteAhead(s);
    }
  }

  lemma CallIsExact(s: Slot, a: Action, pass: Pass)
    requires s.entry.Some? && SlotInv(s, pass) && Can(s, a)
    requires a.ObserveCall? || a.FlagCall? || a.HandoffCall? || a.RemoveCall? || a.TimerFires? || a.FlushCall?
    ensures Exact(s, a, OwnStep(s, a))
  {
    match a
    case ObserveCall(_) => EnqueueAhead(s, ObserveTask);
    case FlagCall(_, note) => EnqueueAhead(s, FlagTask(note));
    case HandoffCall(_, handoff) => EnqueueAhead(s, HandoffTask(handoff));
    case RemoveCall(_) => EnqueueAhead(s, RemoveTask);
    case _ => EnqueueAhead(s.(coalesced := false), WriteTask);
  }

  lemma ReadIsExact(s: Slot, a: Action, pass: Pass)
    requires s.entry.Some? && SlotInv(s, pass) && Can(s, a)
    requires a.ReadBegins? || a.ReadSamples? || a.ReadAnswers?
    ensures Exact(s, a, OwnStep(s, a))
  {
    if a.ReadAnswers? && a.result.Answered? && s.read.host.Some? {
      EnqueueAhead(s.(read := NotReading), MergeTask(s.read.host.value));
    }
  }

  lemma ReloadIsExact(s: Slot, a: Action, pass: Pass)
    requires s.entry.Some? && SlotInv(s, pass) && a.Reload? && s.mirror.Some?
    ensures Exact(s, a, OwnStep(s, a))
  {
  }

  /** Of a record that stays in memory: a step leaves it on the host or on its way exactly when it was so
      and the step takes no way away, or the step puts it there. Rejected calls, removals that come to
      nothing and reloads included. */
  lemma OwnStepIsExact(s: Slot, a: Action, pass: Pass)
    requires s.entry.Some? && SlotInv(s, pass) && Can(s, a) && !Drops(s, a)
    ensures Exact(s, a, OwnStep(s, a))
  {
    match a
    case HeadStarts(_, _) =>
      if WritesHost(s.queue[0]) {
        WriteStartIsExact(s, a);
      } else if s.queue[0].MergeTask? {
        MergeIsExact(s, a, pass);
      } else if s.queue[0].RemoveTask? {
        RemoveStartAhead(s, a.reduced);
      } else {
        ChangeIsExact(s, a);
      }
    case HostApplies(_) => AnswerIsExact(s, a, pass);
    case HostAnswers(_, _) => AnswerIsExact(s, a, pass);
    case IndexAnswers(_) => AnswerIsExact(s, a, pass);
    case ReadBegins(_) => ReadIsExact(s, a, pass);
    case ReadSamples(_) => ReadIsExact(s, a, pass);
    case ReadAnswers(_, _) => ReadIsExact(s, a, pass);
    case PassBegins =>
    case ReadsEnd =>
    case PassEnds =>
    case Reload => ReloadIsExact(s, a, pass);
    case _ => CallIsExact(s, a, pass);
  }

  /** A write that is rejected leaves the record secured exactly when the host has it, the rejected call
      having landed, or a timer or a later task holds another write. */
  lemma RejectedWriteSecuresIff(s: Slot, pass: Pass)
    requires SlotInv(s, pass) && s.running.Writing?
    ensures var t := HostAnswered(s, false);
            && t.entry.Some? && t.entry.value.persistError && Pending(t)
            && (WriteAhead(t) <==> s.coalesced || LaterWrite(s))
            && (Secured(t) <==> OnHost(s) || s.coalesced || LaterWrite(s))
  {
    RejectedWriteAhead(s);
  }

  /** A removal whose clear is rejected, from its start: the entry is as it was and the timer gone, so the
      record is secured exactly when the host still has it, or it is pending and a task behind the
      removal writes. */
  lemma RejectedRemovalSecuresIff(s: Slot, reduced: Record, landed: bool)
    requires s.queue != [] && s.queue[0].RemoveTask? && s.running.Idle? && s.entry.Some?
    ensures var started := StartHead(s, reduced);
            var t := HostAnswered(if landed then HostTakes(started) else started, false);
            && t.entry == s.entry && t.host == (if landed then None else s.host) && !t.coalesced
            && (WriteAhead(t) <==> LaterWrite(s))
            && (Secured(t) <==> (OnHost(s) && !landed) || (Pending(s) && LaterWrite(s)))
  {
    RemoveStartAhead(s, reduced);
    var started := StartHead(s, reduced);
    var taken := if landed then HostTakes(started) else started;
    assert WriteAhead(taken) <==> WriteAhead(started);
    FinishAhead(taken);
  }

  // ----- whole runs

  predicate DropsAt(run: seq<Store>, moves: seq<Move>, k: Key, m: int)
    requires 0 <= m < |run| && m < |moves|
  {
    ActsOn(moves[m].action, k) && Drops(SlotAt(run[m], k), moves[m].action)
  }

  predicate LosesAt(run: seq<Store>, moves: seq<Move>, k: Key, m: int)
    requires 0 <= m < |run| && m < |moves|
  {
    ActsOn(moves[m].action, k) && Loses(SlotAt(run[m], k), moves[m].action)
  }

  predicate SecuresAt(run: seq<Store>, moves: seq<Move>, k: Key, m: int)
    requires 0 <= m < |run| && m < |moves|
  {
    ActsOn(moves[m].action, k) && Secures(SlotAt(run[m], k), moves[m].action)
  }

  /** From store `i` to store `j` the record stays in memory. */
  ghost predicate Remains(run: seq<Store>, moves: seq<Move>, k: Key, i: nat, j: nat) {
    && i <= j < |run| == |moves| + 1
    && SlotAt(run[i], k).entry.Some?
    && forall m | i <= m < j :: !DropsAt(run, moves, k, m)
  }

  /** Nothing takes the record's way to the host away. */
  ghost predicate Unlost(run: seq<Store>, moves: seq<Move>, k: Key, i: nat, j: nat)
    requires j < |run| == |moves| + 1
  {
    forall m | i <= m < j :: !LosesAt(run, moves, k, m)
  }

  ghost predicate SecuredBetween(run: seq<Store>, moves: seq<Move>, k: Key, i: nat, j: nat)
    requires j < |run| == |moves| + 1
  {
    exists m | i <= m < j :: SecuresAt(run, moves, k, m)
  }

  /** A step secures the record, and nothing takes that away. */
  ghost predicate SecuredAndKept(run: seq<Store>, moves: seq<Move>, k: Key, i: nat, j: nat)
    requires j < |run| == |moves| + 1
  {
    exists m: nat | i <= m < j :: SecuresAt(run, moves, k, m) && Unlost(run, moves, k, m + 1, j)
  }

  lemma StretchSplits(run: seq<Store>, moves: seq<Move>, k: Key, i: nat, m: nat, j: nat)
    requires i <= m <= j < |run| == |moves| + 1
    ensures Unlost(run, moves, k, i, j) <==> Unlost(run, moves, k, i, m) && Unlost(run, moves, k, m, j)
    ensures SecuredBetween(run, moves, k, i, j)
            <==> SecuredBetween(run, moves, k, i, m) || SecuredBetween(run, moves, k, m, j)
    ensures SecuredAndKept(run, moves, k, i, j)
            <==> SecuredAndKept(run, moves, k, m, j)
                 || (SecuredAndKept(run, moves, k, i, m) && Unlost(run, moves, k, m, j))
  {
    if SecuredBetween(run, moves, k, i, j) {
      var n :| i <= n < j && SecuresAt(run, moves, k, n);
      assert n < m || m <= n;
    }
    KeptSplits(run, moves, k, i, m, j);
  }

  lemma KeptSplits(run: seq<Store>, moves: seq<Move>, k: Key, i: nat, m: nat, j: nat)
    requires i <= m <= j < |run| == |moves| + 1
    ensures SecuredAndKept(run, moves, k, i, j)
            <==> SecuredAndKept(run, moves, k, m, j)
                 || (SecuredAndKept(run, moves, k, i, m) && Unlost(run, moves, k, m, j))
  {
    if SecuredAndKept(run, moves, k, i, j) {
      var n: nat :| i <= n < j && SecuresAt(run, moves, k, n) && Unlost(run, moves, k, n + 1, j);
      if n < m {
        assert Unlost(run, moves, k, n + 1, m);
      }
    }
    if SecuredAndKept(run, moves, k, i, m) && Unlost(run, moves, k, m, j) {
      var n: nat :| i <= n < m && SecuresAt(run, moves, k, n) && Unlost(run, moves, k, n + 1, m);
      assert Unlost(run, moves, k, n + 1, j);
    }
  }

  lemma RunStepIsExact(run: seq<Store>, moves: seq<Move>, k: Key, i: nat)
    requires IsRun(run, moves) && Inv(run[0]) && i < |moves| && SlotAt(run[i], k).entry.Some?
    requires !DropsAt(run, moves, k, i)
    ensures SlotAt(run[i + 1], k).entry.Some?
    ensures Secured(SlotAt(run[i + 1], k))
            <==> (Secured(SlotAt(run[i], k)) && !LosesAt(run, moves, k, i)) || SecuresAt(run, moves, k, i)
  {
    var s, a := run[i], moves[i].action;
    InvAlongRun(run, moves, i);
    InvAt(s, k);
    assert SlotAt(run[i + 1], k) == After(s, a, moves[i].kept, k);
    if ActsOn(a, k) {
      EnabledCan(s, a, k);
      OwnStepIsExact(SlotAt(s, k), a, s.pass);
    }
  }

  /** One step of a run, as far as the record's way to the host goes. */
  ghost predicate StepExact(run: seq<Store>, moves: seq<Move>, k: Key, i: nat)
    requires i < |run| - 1 == |moves|
  {
    SlotAt(run[i], k).entry.Some? && !DropsAt(run, moves, k, i) ==>
      && SlotAt(run[i + 1], k).entry.Some?
      && (Secured(SlotAt(run[i + 1], k))
          <==> (Secured(SlotAt(run[i], k)) && !LosesAt(run, moves, k, i)) || SecuresAt(run, moves, k, i))
  }

  lemma {:induction false} StepsAddUp(run: seq<Store>, moves: seq<Move>, k: Key, i: nat, j: nat)
    requires Remains(run, moves, k, i, j) && forall m: nat | m < |moves| :: StepExact(run, moves, k, m)
    ensures SlotAt(run[j], k).entry.Some?
    ensures Secured(SlotAt(run[j], k))
            <==> (Secured(SlotAt(run[i], k)) && Unlost(run, moves, k, i, j)) || SecuredAndKept(run, moves, k, i, j)
    decreases j - i
  {
    if i < j {
      StepsAddUp(run, moves, k, i, j - 1);
      StretchSplits(run, moves, k, i, j - 1, j);
      LastStep(run, moves, k, j);
      assert StepExact(run, moves, k, j - 1);
    }
  }

  lemma LastStep(run: seq<Store>, moves: seq<Move>, k: Key, j: nat)
    requires 0 < j < |run| == |moves| + 1
    ensures Unlost(run, moves, k, j - 1, j) <==> !LosesAt(run, moves, k, j - 1)
    ensures SecuredBetween(run, moves, k, j - 1, j) <==> SecuresAt(run, moves, k, j - 1)
    ensures SecuredAndKept(run, moves, k, j - 1, j) <==> SecuresAt(run, moves, k, j - 1)
  {
    assert Unlost(run, moves, k, j, j);
  }

  /** Through any stretch of any run in which the record stays in memory, rejections, failed removals and
      reloads included: it ends on the host or on its way there exactly when it was so at the start, or a
      step of the stretch secured it, and nothing took its way away after that. */
  lemma SecuredIff(run: seq<Store>, moves: seq<Move>, k: Key, i: nat, j: nat)
    requires IsRun(run, moves) && Inv(run[0]) && Remains(run, moves, k, i, j)
    ensures SlotAt(run[j], k).entry.Some?
    ensures Secured(SlotAt(run[j], k))
            <==> (Secured(SlotAt(run[i], k)) && Unlost(run, moves, k, i, j)) || SecuredAndKept(run, moves, k, i, j)
  {
    forall m: nat | m < |moves| ensures StepExact(run, moves, k, m) {
      if SlotAt(run[m], k).entry.Some? && !DropsAt(run, moves, k, m) {
        RunStepIsExact(run, moves, k, m);
      }
    }
    StepsAddUp(run, moves, k, i, j);
  }

  /** Nothing is queued, under way or timed for the key. */
  predicate Drained(s: Slot) {
    s.queue == [] && !s.coalesced
  }

  lemma DrainedIsOnHostIff(s: Slot, pass: Pass)
    requires SlotInv(s, pass) && Drained(s) && s.entry.Some?
    ensures OnHost(s) <==> Secured(s)
  {
  }

  /** Once the key has nothing left to do, the host has memory's record exactly when the record was on its
      way at the start of the stretch, or a step of it secured it, and nothing took its way away after
      that. */
  lemma DrainedIsStoredIff(run: seq<Store>, moves: seq<Move>, k: Key, i: nat, j: nat)
    requires IsRun(run, moves) && Inv(run[0]) && Remains(run, moves, k, i, j)
    requires Drained(SlotAt(run[j], k))
    ensures OnHost(SlotAt(run[j], k))
            <==> (Secured(SlotAt(run[i], k)) && Unlost(run, moves, k, i, j)) || SecuredAndKept(run, moves, k, i, j)
  {
    SecuredIff(run, moves, k, i, j);
    InvAlongRun(run, moves, j);
    InvAt(run[j], k);
    DrainedIsOnHostIff(SlotAt(run[j], k), run[j].pass);
  }
}
