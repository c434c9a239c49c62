/** What a reconcile and a flush repair, exactly, and the inputs on which the store's promises fail. */
module RequestStoreRepair {
  import opened Wrappers
  import opened RequestRecord
  import opened RequestStore
  import opened RequestStoreSafety
  import opened RequestStoreRuns
  import opened RequestStoreSecured
  import Tasks = RequestStoreTasks

  /** The gap in the reconcile: a finished record read from the mirror counts as clean and is never
      read from the host again, whatever the host holds. */
  predicate FinishedUnread(s: Slot) {
    && s.entry.Some? && Finished(s.entry.value.record.durable)
    && !s.entry.value.pendingWrite && !Same(s.host, s.entry.value.record)
  }

  // ----- a flush, over runs

  /** A step that secures nothing starts no timer and leaves the record, up to its witness fields. */
  ghost predicate StepSettles(run: seq<Store>, moves: seq<Move>, k: Key, i: nat)
    requires i < |run| - 1 == |moves|
  {
    var s, t := SlotAt(run[i], k), SlotAt(run[i + 1], k);
    s.entry.Some? && !DropsAt(run, moves, k, i) && !SecuresAt(run, moves, k, i) ==>
      && t.entry.Some? && Same(Memory(s), t.entry.value.record)
      && (t.coalesced ==> s.coalesced && !moves[i].action.FlushCall?)
  }

  lemma OwnStepSettles(s: Slot, a: Action, pass: Pass)
    requires s.entry.Some? && SlotInv(s, pass) && Can(s, a) && !Drops(s, a) && !Secures(s, a)
    ensures var t := OwnStep(s, a);
            && t.entry.Some? && Same(Memory(s), t.entry.value.record)
            && (t.coalesced ==> s.coalesced && !a.FlushCall?)
  {
    match a
    case HeadStarts(_, _) => StartSettles(s, a);
    case HostAnswers(_, _) =>
    case ReadAnswers(_, _) =>
    case _ =>
  }

  lemma StartSettles(s: Slot, a: Action)
    requires s.entry.Some? && Can(s, a) && a.HeadStarts? && !Secures(s, a)
    ensures var t := OwnStep(s, a);
            t.entry.Some? && Same(Memory(s), t.entry.value.record) && (t.coalesced ==> s.coalesced)
  {
  }

  lemma RunStepSettles(run: seq<Store>, moves: seq<Move>, k: Key, i: nat)
    requires IsRun(run, moves) && Inv(run[0]) && i < |moves|
    ensures StepSettles(run, moves, k, i)
  {
    var s, a := run[i], moves[i].action;
    InvAlongRun(run, moves, i);
    InvAt(s, k);
    assert SlotAt(run[i + 1], k) == After(s, a, moves[i].kept, k);
    if SlotAt(s, k).entry.Some? && ActsOn(a, k) && !DropsAt(run, moves, k, i) && !SecuresAt(run, moves, k, i) {
      EnabledCan(s, a, k);
      OwnStepSettles(SlotAt(s, k), a, s.pass);
    }
  }

  lemma {:induction false} StretchSettles(run: seq<Store>, moves: seq<Move>, k: Key, i: nat, j: nat)
    requires Remains(run, moves, k, i, j) && !SecuredBetween(run, moves, k, i, j)
    requires forall m: nat | m < |moves| :: StepSettles(run, moves, k, m)
    ensures SlotAt(run[j], k).entry.Some? && Same(Memory(SlotAt(run[i], k)), SlotAt(run[j], k).entry.value.record)
    ensures i < j && moves[i].action.FlushCall? ==> !SlotAt(run[j], k).coalesced
    decreases j - i
  {
    if i < j {
      StretchSplits(run, moves, k, i, j - 1, j);
      StretchSettles(run, moves, k, i, j - 1);
      assert StepSettles(run, moves, k, j - 1);
      LastStep(run, moves, k, j);
    }
  }

  /** A flush anywhere in a run, with nothing changed after it: by the time the key's queue is empty, the
      host has memory's record exactly when at the flush it had it, or a write of it lay ahead, and nothing
      took that away since. A write that failed before has neither. */
  lemma FlushStoresIff(run: seq<Store>, moves: seq<Move>, k: Key, f: nat, j: nat)
    requires IsRun(run, moves) && Inv(run[0])
    requires f < j && Remains(run, moves, k, f, j) && !SecuredBetween(run, moves, k, f, j)
    requires moves[f].action == FlushCall && SlotAt(run[j], k).queue == []
    ensures var s, t := SlotAt(run[f], k), SlotAt(run[j], k);
            && t.entry.Some? && Same(Memory(s), t.entry.value.record)
            && (OnHost(t) <==> Secured(s) && Unlost(run, moves, k, f, j))
  {
    forall m: nat | m < |moves| ensures StepSettles(run, moves, k, m) {
      RunStepSettles(run, moves, k, m);
    }
    StretchSettles(run, moves, k, f, j);
    DrainedIsStoredIff(run, moves, k, f, j);
    NotSecuredNorKept(run, moves, k, f, j);
  }

  lemma NotSecuredNorKept(run: seq<Store>, moves: seq<Move>, k: Key, i: nat, j: nat)
    requires j < |run| == |moves| + 1 && !SecuredBetween(run, moves, k, i, j)
    ensures !SecuredAndKept(run, moves, k, i, j)
  {
  }

  // ----- a reconcile, over runs

  predicate MergeQueued(s: Slot) {
    exists i | 0 <= i < |s.queue| :: s.queue[i].MergeTask?
  }

  lemma MergeStays(s: Slot, a: Action, pass: Pass)
    requires SlotInv(s, pass) && Can(s, a) && !a.Reload? && MergeQueued(s) && !Secures(s, a)
    ensures MergeQueued(OwnStep(s, a))
  {
    var i :| 0 <= i < |s.queue| && s.queue[i].MergeTask?;
    var t := OwnStep(s, a);
    Tasks.QueueMoves(s, a);
    if t.queue == s.queue[1..] {
      assert i > 0 && t.queue[i - 1] == s.queue[i];
    } else {
      assert t.queue[i] == s.queue[i];
    }
  }

  ghost predicate StepMerges(run: seq<Store>, moves: seq<Move>, k: Key, i: nat)
    requires i < |run| - 1 == |moves|
  {
    MergeQueued(SlotAt(run[i], k)) && !moves[i].action.Reload? ==>
      MergeQueued(SlotAt(run[i + 1], k)) || SecuresAt(run, moves, k, i)
  }

  lemma RunStepMerges(run: seq<Store>, moves: seq<Move>, k: Key, i: nat)
    requires IsRun(run, moves) && Inv(run[0]) && i < |moves|
    ensures StepMerges(run, moves, k, i)
  {
    var s, a := run[i], moves[i].action;
    InvAlongRun(run, moves, i);
    InvAt(s, k);
    assert SlotAt(run[i + 1], k) == After(s, a, moves[i].kept, k);
    if MergeQueued(SlotAt(s, k)) && !a.Reload? && !SecuresAt(run, moves, k, i) && ActsOn(a, k) {
      EnabledCan(s, a, k);
      MergeStays(SlotAt(s, k), a, s.pass);
    }
  }

  ghost predicate NoReload(moves: seq<Move>, i: nat, j: nat) {
    j <= |moves| && forall m | i <= m < j :: !moves[m].action.Reload?
  }

  /** A queued merge is run before the queue is without one. */
  lemma {:induction false} MergeIsRun(run: seq<Store>, moves: seq<Move>, k: Key, i: nat, j: nat)
    requires i <= j < |run| == |moves| + 1 && NoReload(moves, i, j)
    requires forall m: nat | m < |moves| :: StepMerges(run, moves, k, m)
    requires MergeQueued(SlotAt(run[i], k))
    ensures MergeQueued(SlotAt(run[j], k)) || SecuredBetween(run, moves, k, i, j)
    decreases j - i
  {
    if i < j {
      StretchSplits(run, moves, k, i, j - 1, j);
      MergeIsRun(run, moves, k, i, j - 1);
      assert StepMerges(run, moves, k, j - 1);
      LastStep(run, moves, k, j);
    }
  }

  /** From the start `b` of a pass' look at the key to the end `e` of the pass' reads: the record was
      finished, or its read was answered. */
  ghost predicate LookedAt(run: seq<Store>, moves: seq<Move>, k: Key, b: nat, e: nat) {
    && b < e < |moves| == |run| - 1 && NoReload(moves, b, e)
    && moves[b].action == ReadBegins(k) && moves[e].action == ReadsEnd
    && SlotAt(run[b], k).entry.Some?
    && (Finished(SlotAt(run[b], k).entry.value.record.durable)
        || exists m | b < m < e :: moves[m].action == ReadAnswers(k, Answered))
  }

  lemma AnswerQueues(run: seq<Store>, moves: seq<Move>, k: Key, m: nat)
    requires IsRun(run, moves) && m < |moves| && moves[m].action == ReadAnswers(k, Answered)
    ensures MergeQueued(SlotAt(run[m + 1], k)) || SecuresAt(run, moves, k, m)
  {
    var s, t := SlotAt(run[m], k), SlotAt(run[m + 1], k);
    assert t == After(run[m], moves[m].action, moves[m].kept, k);
    EnabledCan(run[m], moves[m].action, k);
    if s.read.host.Some? {
      assert t.queue[|s.queue|].MergeTask?;
    }
  }

  lemma AnswerSecures(run: seq<Store>, moves: seq<Move>, k: Key, m: nat, e: nat)
    requires IsRun(run, moves) && Inv(run[0]) && NoReload(moves, m, e)
    requires m < e < |moves| && moves[m].action == ReadAnswers(k, Answered) && moves[e].action == ReadsEnd
    ensures SecuredBetween(run, moves, k, m, e)
  {
    AnswerQueues(run, moves, k, m);
    if MergeQueued(SlotAt(run[m + 1], k)) {
      forall i: nat | i < |moves| ensures StepMerges(run, moves, k, i) {
        RunStepMerges(run, moves, k, i);
      }
      StretchSplits(run, moves, k, m, m + 1, e);
      MergeIsRun(run, moves, k, m + 1, e);
      NoMergeLeft(run[e], moves[e].kept, run[e + 1], k);
    }
  }

  lemma NoMergeLeft(s: Store, kept: set<Key>, t: Store, k: Key)
    requires Next(s, ReadsEnd, kept, t)
    ensures !MergeQueued(SlotAt(s, k))
  {
    assert ReadsDone(SlotAt(s, k));
  }

  /** What a look at the key begins with: it takes nothing away, and a finished record is on its way from
      then on unless it is in the gap. */
  lemma LookBegins(run: seq<Store>, moves: seq<Move>, k: Key, b: nat)
    requires IsRun(run, moves) && Inv(run[0]) && b < |moves|
    requires moves[b].action == ReadBegins(k) && SlotAt(run[b], k).entry.Some?
    ensures var s, t := SlotAt(run[b], k), SlotAt(run[b + 1], k);
            && t.entry.Some?
            && (FinishedUnread(s) ==> !Secured(t))
            && (Finished(s.entry.value.record.durable) && !FinishedUnread(s) ==> Secured(t))
    ensures !LosesAt(run, moves, k, b)
  {
    RunStepIsExact(run, moves, k, b);
  }

  lemma UnlostIsKept(run: seq<Store>, moves: seq<Move>, k: Key, i: nat, j: nat)
    requires j < |run| == |moves| + 1 && SecuredBetween(run, moves, k, i, j) && Unlost(run, moves, k, i, j)
    ensures SecuredAndKept(run, moves, k, i, j)
  {
    var m :| i <= m < j && SecuresAt(run, moves, k, m);
    assert Unlost(run, moves, k, m + 1, j);
  }

  lemma LookSecures(run: seq<Store>, moves: seq<Move>, k: Key, b: nat, e: nat)
    requires IsRun(run, moves) && Inv(run[0]) && LookedAt(run, moves, k, b, e)
    requires !Finished(SlotAt(run[b], k).entry.value.record.durable)
    ensures SecuredBetween(run, moves, k, b + 1, e)
  {
    var m :| b < m < e && moves[m].action == ReadAnswers(k, Answered);
    StretchSplits(run, moves, k, b + 1, m, e);
    AnswerSecures(run, moves, k, m, e);
  }

  /** A pass that looked at a record leaves it on the host or on its way there, in the middle of whatever
      else goes on, exactly when the record was not in the gap and nothing took its way away meanwhile, or
      another step secured it and nothing took that away. */
  lemma ReconcileSecuresIff(run: seq<Store>, moves: seq<Move>, k: Key, b: nat, e: nat)
    requires IsRun(run, moves) && Inv(run[0]) && LookedAt(run, moves, k, b, e) && Remains(run, moves, k, b, e)
    ensures SlotAt(run[e], k).entry.Some?
    ensures Secured(SlotAt(run[e], k))
            <==> (!FinishedUnread(SlotAt(run[b], k)) && Unlost(run, moves, k, b, e))
                 || SecuredAndKept(run, moves, k, b + 1, e)
  {
    LookBegins(run, moves, k, b);
    StretchSplits(run, moves, k, b, b + 1, e);
    LastStep(run, moves, k, b + 1);
    SecuredIff(run, moves, k, b + 1, e);
    if !Finished(SlotAt(run[b], k).entry.value.record.durable) && Unlost(run, moves, k, b, e) {
      LookSecures(run, moves, k, b, e);
      UnlostIsKept(run, moves, k, b + 1, e);
    }
  }

  /** So once the key has nothing left to do after the pass, the host has memory's record under the same
      condition, to the end. */
  lemma ReconciledIsStoredIff(run: seq<Store>, moves: seq<Move>, k: Key, b: nat, e: nat, j: nat)
    requires IsRun(run, moves) && Inv(run[0]) && LookedAt(run, moves, k, b, e)
    requires e <= j && Remains(run, moves, k, b, j) && Drained(SlotAt(run[j], k))
    ensures OnHost(SlotAt(run[j], k))
            <==> (!FinishedUnread(SlotAt(run[b], k)) && Unlost(run, moves, k, b, j))
                 || SecuredAndKept(run, moves, k, b + 1, j)
  {
    StretchSplits(run, moves, k, b, e, j);
    StretchSplits(run, moves, k, b + 1, e, j);
    ReconcileSecuresIff(run, moves, k, b, e);
    DrainedIsStoredIff(run, moves, k, e, j);
  }

  /** With a flush after the pass, and nothing changed after the flush, an empty queue is enough. */
  lemma ReconcileThenFlushStoresIff(run: seq<Store>, moves: seq<Move>, k: Key, b: nat, e: nat, f: nat, j: nat)
    requires IsRun(run, moves) && Inv(run[0]) && LookedAt(run, moves, k, b, e)
    requires e <= f < j && Remains(run, moves, k, b, j) && !SecuredBetween(run, moves, k, f, j)
    requires moves[f].action == FlushCall && SlotAt(run[j], k).queue == []
    ensures OnHost(SlotAt(run[j], k))
            <==> (!FinishedUnread(SlotAt(run[b], k)) && Unlost(run, moves, k, b, j))
                 || SecuredAndKept(run, moves, k, b + 1, j)
  {
    forall m: nat | m < |moves| ensures StepSettles(run, moves, k, m) {
      RunStepSettles(run, moves, k, m);
    }
    SecuredIff(run, moves, k, b, f);
    StretchSettles(run, moves, k, f, j);
    ReconciledIsStoredIff(run, moves, k, b, e, j);
  }

  predicate OnHostOrScheduled(s: Slot) {
    s.entry.Some? && (OnHost(s) || (s.entry.value.pendingWrite && s.coalesced))
  }

  /** One step at a time: when the merge of a read runs, or a read answers that the
      host has nothing, the record is on the host or a write of it is scheduled from then on. */
  lemma ReadStepsSecure(s: Slot, pass: Pass)
    requires SlotInv(s, pass)
    ensures s.queue != [] && s.running.Idle? && s.queue[0].MergeTask? ==>
              var t := StartHead(s, Nothing());
              OnHostOrScheduled(t) && !t.unverified && (s.entry.Some? ==> KeptRecord(s, t))
    ensures s.read == Sampled(None) && s.entry.Some? ==>
              OnHostOrScheduled(ReadAnswered(s, Answered)) && !ReadAnswered(s, Answered).unverified
  {
    if s.queue != [] && s.running.Idle? && s.queue[0].MergeTask? {
      assert ReadIsPast(s, s.queue[0].read);
    }
  }

  /** The merge kept memory's record. */
  predicate KeptRecord(s: Slot, t: Slot) {
    s.entry.Some? && t.entry.Some? && t.entry.value.record == s.entry.value.record
  }

  // ----- a memory that fell behind the host, over runs from any start

  /** A merge at the head of the queue has not started: it ends in the step that starts it. */
  predicate HeadFits(s: Slot) {
    !s.running.Idle? ==> s.queue != [] && !s.queue[0].MergeTask?
  }

  predicate AtLeast(s: Slot, rev: nat) {
    s.entry.Some? && s.entry.value.record.rev >= rev
  }

  predicate MergeQueuedOf(s: Slot, rev: nat) {
    exists i | 0 <= i < |s.queue| :: s.queue[i].MergeTask? && s.queue[i].read.rev == rev
  }

  /** Memory gives the record up. */
  predicate Forgets(s: Slot, a: Action) {
    a.Reload? || (a.HostAnswers? && a.ok && s.running.Clearing?)
  }

  lemma HeadStaysFit(s: Slot, a: Action)
    requires Can(s, a) && HeadFits(s)
    ensures HeadFits(OwnStep(s, a))
  {
  }

  lemma AtLeastStays(s: Slot, a: Action, rev: nat)
    requires Can(s, a) && !Forgets(s, a) && AtLeast(s, rev)
    ensures AtLeast(OwnStep(s, a), rev)
  {
    match a
    case HeadStarts(_, _) => AtLeastStarts(s, a, rev);
    case HostAnswers(_, _) =>
    case ReadAnswers(_, _) =>
    case _ =>
  }

  lemma AtLeastStarts(s: Slot, a: Action, rev: nat)
    requires Can(s, a) && a.HeadStarts? && AtLeast(s, rev)
    ensures AtLeast(StartHead(s, a.reduced), rev)
  {
  }

  lemma MergeReaches(s: Slot, a: Action, rev: nat)
    requires Can(s, a) && !Forgets(s, a) && HeadFits(s) && MergeQueuedOf(s, rev)
    ensures MergeQueuedOf(OwnStep(s, a), rev) || AtLeast(OwnStep(s, a), rev)
  {
    var i :| 0 <= i < |s.queue| && s.queue[i].MergeTask? && s.queue[i].read.rev == rev;
    var t := OwnStep(s, a);
    if |t.queue| >= |s.queue| {
      assert t.queue[i] == s.queue[i];
    } else {
      assert t.queue == s.queue[1..];
      assert i > 0 ==> t.queue[i - 1] == s.queue[i];
    }
  }

  ghost predicate Remembered(run: seq<Store>, moves: seq<Move>, k: Key, i: nat, j: nat) {
    && i <= j < |run| == |moves| + 1
    && forall m | i <= m < j :: !(ActsOn(moves[m].action, k) && Forgets(SlotAt(run[m], k), moves[m].action))
  }

  ghost predicate Reaches(s: Slot, rev: nat) {
    HeadFits(s) && (AtLeast(s, rev) || MergeQueuedOf(s, rev))
  }

  ghost predicate StepReaches(run: seq<Store>, moves: seq<Move>, k: Key, i: nat, rev: nat)
    requires i < |run| - 1 == |moves|
  {
    var s, t, a := SlotAt(run[i], k), SlotAt(run[i + 1], k), moves[i].action;
    (ActsOn(a, k) ==> !Forgets(s, a)) && Reaches(s, rev) ==>
      Reaches(t, rev) && (AtLeast(s, rev) ==> AtLeast(t, rev))
  }

  lemma OwnStepReaches(s: Slot, a: Action, rev: nat)
    requires Can(s, a) && !Forgets(s, a) && Reaches(s, rev)
    ensures Reaches(OwnStep(s, a), rev) && (AtLeast(s, rev) ==> AtLeast(OwnStep(s, a), rev))
  {
    HeadStaysFit(s, a);
    if AtLeast(s, rev) {
      AtLeastStays(s, a, rev);
    } else {
      MergeReaches(s, a, rev);
    }
  }

  lemma RunStepReaches(run: seq<Store>, moves: seq<Move>, k: Key, i: nat, rev: nat)
    requires IsRun(run, moves) && i < |moves|
    ensures StepReaches(run, moves, k, i, rev)
  {
    var s, a := run[i], moves[i].action;
    assert SlotAt(run[i + 1], k) == After(s, a, moves[i].kept, k);
    if ActsOn(a, k) && Reaches(SlotAt(s, k), rev) && !Forgets(SlotAt(s, k), a) {
      EnabledCan(s, a, k);
      OwnStepReaches(SlotAt(s, k), a, rev);
    }
  }

  lemma {:induction false} StepsReach(run: seq<Store>, moves: seq<Move>, k: Key, i: nat, j: nat, rev: nat)
    requires Remembered(run, moves, k, i, j) && Reaches(SlotAt(run[i], k), rev)
    requires forall m: nat | m < |moves| :: StepReaches(run, moves, k, m, rev)
    ensures Reaches(SlotAt(run[j], k), rev)
    ensures AtLeast(SlotAt(run[i], k), rev) ==> AtLeast(SlotAt(run[j], k), rev)
    decreases j - i
  {
    if i < j {
      StepsReach(run, moves, k, i, j - 1, rev);
      assert StepReaches(run, moves, k, j - 1, rev);
    }
  }

  lemma RunReaches(run: seq<Store>, moves: seq<Move>, k: Key, i: nat, j: nat, rev: nat)
    requires IsRun(run, moves) && Remembered(run, moves, k, i, j) && Reaches(SlotAt(run[i], k), rev)
    ensures Reaches(SlotAt(run[j], k), rev)
    ensures AtLeast(SlotAt(run[i], k), rev) ==> AtLeast(SlotAt(run[j], k), rev)
  {
    forall m: nat | m < |moves| ensures StepReaches(run, moves, k, m, rev) {
      RunStepReaches(run, moves, k, m, rev);
    }
    StepsReach(run, moves, k, i, j, rev);
  }

  /** Even a memory that fell behind the host catches up, whatever goes on meanwhile: when the reads of a
      pass end, memory is at or past every record a read of the pass was answered with, and it never
      gives up a newer one of its own for that. */
  lemma ReadTakesTheNewer(run: seq<Store>, moves: seq<Move>, k: Key, m: nat, e: nat, read: Record)
    requires IsRun(run, moves) && m < e < |moves| && Remembered(run, moves, k, m, e)
    requires HeadFits(SlotAt(run[m], k)) && SlotAt(run[m], k).read == Sampled(Some(read))
    requires moves[m].action == ReadAnswers(k, Answered) && moves[e].action == ReadsEnd
    ensures AtLeast(SlotAt(run[e], k), read.rev)
    ensures SlotAt(run[m], k).entry.Some? ==> AtLeast(SlotAt(run[e], k), SlotAt(run[m], k).entry.value.record.rev)
  {
    var s, t := SlotAt(run[m], k), SlotAt(run[m + 1], k);
    assert t == After(run[m], moves[m].action, moves[m].kept, k);
    assert t.queue[|s.queue|] == MergeTask(read);
    RunReaches(run, moves, k, m + 1, e, read.rev);
    assert Next(run[e], ReadsEnd, moves[e].kept, run[e + 1]) && ReadsDone(SlotAt(run[e], k));
    if s.entry.Some? {
      RunReaches(run, moves, k, m, e, s.entry.value.record.rev);
    }
  }

  /** The merge itself, in any slot at all: of two records memory keeps or takes the newer. */
  lemma MergeTakesTheNewer(s: Slot, k: Key, reduced: Record)
    requires Can(s, HeadStarts(k, reduced)) && s.queue[0].MergeTask? && s.entry.Some?
    ensures var t, mine, theirs := StartHead(s, reduced), s.entry.value.record, s.queue[0].read;
            && t.entry.Some? && t.entry.value.record == (if theirs.rev > mine.rev then theirs else mine)
            && (theirs.rev > mine.rev ==> !t.entry.value.pendingWrite)
            && (theirs.rev < mine.rev ==> t.entry.value.pendingWrite && t.coalesced)
  {
  }

  /** Nothing but its own answer moves a write that is out, nor the host under it. */
  ghost predicate WriteIsOut(run: seq<Store>, moves: seq<Move>, k: Key, i: nat, j: nat) {
    && i <= j < |run| == |moves| + 1
    && forall m | i <= m < j ::
         ActsOn(moves[m].action, k) ==>
           !moves[m].action.HostApplies? && !moves[m].action.HostAnswers? && !moves[m].action.Reload?
  }

  ghost predicate StepLeavesWrite(run: seq<Store>, moves: seq<Move>, k: Key, i: nat)
    requires i < |run| - 1 == |moves|
  {
    var s, t, a := SlotAt(run[i], k), SlotAt(run[i + 1], k), moves[i].action;
    s.running.Writing? && (ActsOn(a, k) ==> !a.HostApplies? && !a.HostAnswers? && !a.Reload?) ==>
      t.running == s.running && t.host == s.host
  }

  lemma RunStepLeavesWrite(run: seq<Store>, moves: seq<Move>, k: Key, i: nat)
    requires IsRun(run, moves) && i < |moves|
    ensures StepLeavesWrite(run, moves, k, i)
  {
    var s, a := run[i], moves[i].action;
    assert SlotAt(run[i + 1], k) == After(s, a, moves[i].kept, k);
    if ActsOn(a, k) && SlotAt(s, k).running.Writing? && !a.HostApplies? && !a.HostAnswers? && !a.Reload? {
      EnabledCan(s, a, k);
      OwnStepLeavesWrite(SlotAt(s, k), a);
    }
  }

  lemma OwnStepLeavesWrite(s: Slot, a: Action)
    requires Can(s, a) && s.running.Writing? && !a.HostApplies? && !a.HostAnswers? && !a.Reload?
    ensures OwnStep(s, a).running == s.running && OwnStep(s, a).host == s.host
  {
  }

  lemma {:induction false} StepsLeaveWrite(run: seq<Store>, moves: seq<Move>, k: Key, i: nat, j: nat)
    requires WriteIsOut(run, moves, k, i, j) && SlotAt(run[i], k).running.Writing?
    requires forall m: nat | m < |moves| :: StepLeavesWrite(run, moves, k, m)
    ensures SlotAt(run[j], k).running == SlotAt(run[i], k).running && SlotAt(run[j], k).host == SlotAt(run[i], k).host
    decreases j - i
  {
    if i < j {
      StepsLeaveWrite(run, moves, k, i, j - 1);
      assert StepLeavesWrite(run, moves, k, j - 1);
    }
  }

  lemma CriticalStarts(s: Slot, reduced: Record)
    requires s.queue != [] && s.queue[0].ObserveTask? && s.entry.Some?
    requires reduced.durable != s.entry.value.record.durable
    requires IsCritical(s.entry.value.record.durable, reduced.durable)
    ensures StartHead(s, reduced).running == Writing(reduced.(rev := s.entry.value.record.rev + 1), false)
    ensures StartHead(s, reduced).host == s.host
  {
  }

  lemma CriticalStartsAt(run: seq<Store>, moves: seq<Move>, k: Key, i: nat, reduced: Record)
    requires IsRun(run, moves) && i < |moves| && moves[i].action == HeadStarts(k, reduced)
    requires var s := SlotAt(run[i], k);
             && s.queue != [] && s.queue[0].ObserveTask? && s.entry.Some?
             && reduced.durable != s.entry.value.record.durable
             && IsCritical(s.entry.value.record.durable, reduced.durable)
    ensures var s, t := SlotAt(run[i], k), SlotAt(run[i + 1], k);
            t.running == Writing(reduced.(rev := s.entry.value.record.rev + 1), false) && t.host == s.host
  {
    assert SlotAt(run[i + 1], k) == After(run[i], moves[i].action, moves[i].kept, k);
    CriticalStarts(SlotAt(run[i], k), reduced);
  }

  /** Until that read, a critical change written through moves the host forward exactly when memory
      was not behind it, whatever happens before the host takes the write: `rev` counts from memory's. */
  lemma WriteThroughAdvancesIff(run: seq<Store>, moves: seq<Move>, k: Key, i: nat, j: nat, reduced: Record)
    requires IsRun(run, moves) && i < j < |moves| && WriteIsOut(run, moves, k, i + 1, j)
    requires moves[i].action == HeadStarts(k, reduced) && moves[j].action == HostApplies(k)
    requires var s := SlotAt(run[i], k);
             && s.queue != [] && s.queue[0].ObserveTask? && s.entry.Some? && s.host.Some?
             && reduced.durable != s.entry.value.record.durable
             && IsCritical(s.entry.value.record.durable, reduced.durable)
    ensures var s, t := SlotAt(run[i], k), SlotAt(run[j + 1], k);
            && t.host == Some(reduced.(rev := s.entry.value.record.rev + 1))
            && (t.host.value.rev > s.host.value.rev <==> s.host.value.rev <= s.entry.value.record.rev)
  {
    CriticalStartsAt(run, moves, k, i, reduced);
    forall m: nat | m < |moves| ensures StepLeavesWrite(run, moves, k, m) {
      RunStepLeavesWrite(run, moves, k, m);
    }
    StepsLeaveWrite(run, moves, k, i + 1, j);
    assert SlotAt(run[j + 1], k) == After(run[j], moves[j].action, moves[j].kept, k);
  }

  /** What is being written is memory's record. */
  predicate WriteFits(s: Slot) {
    s.running.Writing? ==> s.entry.Some? && s.entry.value.record == s.running.captured
  }

  /** The host holds nothing that memory has not reached. */
  predicate CaughtUp(s: Slot) {
    s.host.Some? ==> AtLeast(s, s.host.value.rev)
  }

  lemma OwnStepLands(s: Slot, a: Action)
    requires Can(s, a) && !Forgets(s, a) && WriteFits(s)
    ensures WriteFits(OwnStep(s, a))
    ensures a.HostApplies? || CaughtUp(s) ==> CaughtUp(OwnStep(s, a))
    ensures !a.HostApplies? ==> OwnStep(s, a).host == s.host
  {
    if CaughtUp(s) && s.host.Some? {
      AtLeastStays(s, a, s.host.value.rev);
    }
  }

  /** The host takes a call of the key. */
  predicate AppliesAt(moves: seq<Move>, k: Key, m: int)
    requires 0 <= m < |moves|
  {
    moves[m].action == HostApplies(k)
  }

  ghost predicate StepLands(run: seq<Store>, moves: seq<Move>, k: Key, i: nat)
    requires i < |run| - 1 == |moves|
  {
    var s, t, a := SlotAt(run[i], k), SlotAt(run[i + 1], k), moves[i].action;
    (ActsOn(a, k) ==> !Forgets(s, a)) && WriteFits(s) ==>
      && WriteFits(t)
      && (AppliesAt(moves, k, i) || CaughtUp(s) ==> CaughtUp(t))
      && (!AppliesAt(moves, k, i) ==> t.host == s.host)
  }

  lemma RunStepLands(run: seq<Store>, moves: seq<Move>, k: Key, i: nat)
    requires IsRun(run, moves) && i < |moves|
    ensures StepLands(run, moves, k, i)
  {
    var s, a := run[i], moves[i].action;
    assert SlotAt(run[i + 1], k) == After(s, a, moves[i].kept, k);
    if ActsOn(a, k) && WriteFits(SlotAt(s, k)) && !Forgets(SlotAt(s, k), a) {
      EnabledCan(s, a, k);
      OwnStepLands(SlotAt(s, k), a);
    }
  }

  lemma {:induction false} StepsLand(run: seq<Store>, moves: seq<Move>, k: Key, i: nat, j: nat)
    requires Remembered(run, moves, k, i, j) && WriteFits(SlotAt(run[i], k))
    requires forall m: nat | m < |moves| :: StepLands(run, moves, k, m)
    ensures WriteFits(SlotAt(run[j], k))
    ensures if exists m | i <= m < j :: AppliesAt(moves, k, m) then CaughtUp(SlotAt(run[j], k))
            else SlotAt(run[j], k).host == SlotAt(run[i], k).host
    decreases j - i
  {
    if i < j {
      StepsLand(run, moves, k, i, j - 1);
      assert StepLands(run, moves, k, j - 1);
    }
  }

  /** From any start, a memory behind the host included: when the merge of a read takes the host's record
      over, the host has memory's record from then on exactly when it took no call of the key between the
      read and the merge. */
  lemma ReadRepairsIff(run: seq<Store>, moves: seq<Move>, k: Key, p: nat, q: nat, read: Record, reduced: Record)
    requires IsRun(run, moves) && p < q < |moves| && Remembered(run, moves, k, p, q) && WriteFits(SlotAt(run[p], k))
    requires moves[p].action == ReadSamples(k) && SlotAt(run[p], k).host == Some(read)
    requires moves[q].action == HeadStarts(k, reduced) && SlotAt(run[q], k).queue != []
    requires SlotAt(run[q], k).queue[0] == MergeTask(read) && MergeLoads(SlotAt(run[q], k), read)
    ensures SlotAt(run[q + 1], k).entry == Some(Entry(read, false, false, false))
    ensures OnHost(SlotAt(run[q + 1], k)) <==> forall m | p < m < q :: !AppliesAt(moves, k, m)
  {
    forall m: nat | m < |moves| ensures StepLands(run, moves, k, m) {
      RunStepLands(run, moves, k, m);
    }
    StepsLand(run, moves, k, p, p + 1);
    StepsLand(run, moves, k, p + 1, q);
    MergeLoaded(run, moves, k, q, read, reduced);
  }

  lemma MergeLoaded(run: seq<Store>, moves: seq<Move>, k: Key, q: nat, read: Record, reduced: Record)
    requires IsRun(run, moves) && q < |moves| && moves[q].action == HeadStarts(k, reduced)
    requires SlotAt(run[q], k).queue != [] && SlotAt(run[q], k).queue[0] == MergeTask(read)
    requires MergeLoads(SlotAt(run[q], k), read)
    ensures SlotAt(run[q + 1], k).entry == Some(Entry(read, false, false, false))
    ensures SlotAt(run[q + 1], k).host == SlotAt(run[q], k).host
  {
    assert SlotAt(run[q + 1], k) == After(run[q], moves[q].action, moves[q].kept, k);
  }

  // ----- inputs on which a promise fails

  predicate Quiet(s: Slot) {
    s.queue == [] && s.running.Idle? && s.read.NotReading?
  }

  /** One reconcile read of a quiet key that the host answers, with its merge. */
  function ReadPass(s: Slot, k: Key): Slot
    requires Quiet(s)
  {
    var begun := OwnStep(s, ReadBegins(k));
    if begun.read.NotReading? then begun
    else
      var answered := OwnStep(OwnStep(begun, ReadSamples(k)), ReadAnswers(k, Answered));
      if answered.queue == [] then answered
      else OwnStep(answered, HeadStarts(k, answered.queue[0].read))
  }

  /** A task of a quiet key that reaches the host and is answered. */
  function WriteLands(s: Slot, k: Key, reduced: Record, ok: bool): Slot {
    var started := OwnStep(s, HeadStarts(k, reduced));
    if !AwaitsHost(started) then started
    else OwnStep(OwnStep(started, HostApplies(k)), HostAnswers(k, ok))
  }

  /** A flush of a quiet key whose write the host takes. */
  function Flushed(s: Slot, k: Key): Slot {
    var called := OwnStep(s, FlushCall);
    if called.queue == [] then called
    else WriteLands(called, k, if s.entry.Some? then s.entry.value.record else Nothing(), true)
  }

  function Nothing(): Record {
    Record(0, Durable(TopUp, AwaitingDeposit, 0, None, None, None, None, None, None, None, None, ""),
           Witnesses(None, "", None, 0))
  }

  function WaitingRecord(): Record {
    Nothing().(rev := 3)
  }

  function SeenRecord(rev: nat): Record {
    Nothing().(rev := rev, durable := Nothing().durable.(status := DepositSeen))
  }

  function SettledRecord(): Record {
    Nothing().(rev := 7, durable := Nothing().durable.(status := Settled))
  }

  /** A mirror at rev 3, just read, beside what the host holds. */
  function StaleBoot(host: Record): Slot {
    Slot(Some(Entry(WaitingRecord(), false, false, false)), Some(host), Some(WaitingRecord()),
         [], Idle, false, NotReading, true)
  }

  function ReadSampled(s: Slot, k: Key): Slot {
    OwnStep(OwnStep(s, ReadBegins(k)), ReadSamples(k))
  }

  function ReadMerged(s: Slot, k: Key): Slot {
    var record := if s.entry.Some? then s.entry.value.record else Nothing();
    OwnStep(OwnStep(s, ReadAnswers(k, Answered)), HeadStarts(k, record))
  }

  function ChangeLanded(s: Slot, k: Key, reduced: Record): Slot {
    WriteLands(OwnStep(s, ObserveCall(k)), k, reduced, true)
  }

  /** A reconcile's read of an idle key in whose middle a critical change lands. */
  function ReadAround(s: Slot, k: Key, reduced: Record): Slot {
    ReadMerged(ChangeLanded(ReadSampled(s, k), k, reduced), k)
  }

  lemma CriticalChangeLands(s: Slot, k: Key, reduced: Record)
    requires s.queue == [] && s.running.Idle? && s.entry.Some?
    requires reduced.durable != s.entry.value.record.durable
    requires IsCritical(s.entry.value.record.durable, reduced.durable)
    ensures var next := reduced.(rev := s.entry.value.record.rev + 1);
            ChangeLanded(s, k, reduced)
            == s.(entry := Some(Entry(next, false, false, s.entry.value.readError)), host := Some(next),
                  coalesced := false, unverified := false)
  {
    assert OwnStep(s, ObserveCall(k)).queue == [ObserveTask];
    CriticalStarts(OwnStep(s, ObserveCall(k)), reduced);
    assert [ObserveTask][1..] == [];
  }

  lemma AnswerIsMerged(s: Slot, k: Key, read: Record)
    requires s.queue == [] && s.running.Idle? && s.entry.Some? && s.read == Sampled(Some(read))
    requires s.entry.value.record.rev < read.rev
    ensures ReadMerged(s, k)
            == s.(entry := Some(Entry(read, false, false, false)), read := NotReading, unverified := false)
  {
    assert OwnStep(s, ReadAnswers(k, Answered)).queue == [MergeTask(read)];
    assert [MergeTask(read)][1..] == [];
  }

  /** A mirror at rev 3 beside a host at rev 7: the next deposit seen takes the host back to 4. */
  lemma StaleMirrorTakesHostBack()
    ensures ChangeLanded(StaleBoot(SeenRecord(7)), "k", SeenRecord(3)).host == Some(SeenRecord(4))
  {
    CriticalChangeLands(StaleBoot(SeenRecord(7)), "k", SeenRecord(3));
  }

  lemma ReadBeginsAndSamples(s: Slot, k: Key)
    requires s.entry.Some? && !Finished(s.entry.value.record.durable)
    ensures ReadSampled(s, k) == s.(read := Sampled(s.host))
  {
  }

  lemma ReadAroundLeaves(s: Slot, k: Key, read: Record, reduced: Record)
    requires Quiet(s) && s.entry.Some? && s.host == Some(read)
    requires !Finished(s.entry.value.record.durable) && s.entry.value.record.rev + 1 < read.rev
    requires reduced.durable != s.entry.value.record.durable
    requires IsCritical(s.entry.value.record.durable, reduced.durable)
    ensures ReadAround(s, k, reduced)
            == s.(entry := Some(Entry(read, false, false, false)),
                  host := Some(reduced.(rev := s.entry.value.record.rev + 1)), coalesced := false, unverified := false)
  {
    ReadBeginsAndSamples(s, k);
    CriticalChangeLands(s.(read := Sampled(s.host)), k, reduced);
    var next := reduced.(rev := s.entry.value.record.rev + 1);
    var landed := s.(read := Sampled(s.host), entry := Some(Entry(next, false, false, s.entry.value.readError)),
                     host := Some(next), coalesced := false, unverified := false);
    AnswerIsMerged(landed, k, read);
  }

  /** An entry behind a host that has the record finished: a reconcile reads it, a critical change lands
      before the merge, and the merge takes the finished record over. Memory is then clean and finished,
      the host holds the change, of a lower rev, and no later reconcile or flush brings it further. */
  lemma StaleReadLeavesHostBehind(s: Slot, k: Key, read: Record, reduced: Record)
    requires Quiet(s) && s.entry.Some? && s.host == Some(read) && Finished(read.durable)
    requires !Finished(s.entry.value.record.durable) && s.entry.value.record.rev + 1 < read.rev
    requires reduced.durable != s.entry.value.record.durable
    requires IsCritical(s.entry.value.record.durable, reduced.durable)
    ensures var t := ReadAround(s, k, reduced);
            && t.entry == Some(Entry(read, false, false, false))
            && t.host == Some(reduced.(rev := s.entry.value.record.rev + 1))
            && Quiet(t) && !t.coalesced && !t.unverified
            && FinishedUnread(t) && ReadPass(t, k) == t && Flushed(t, k) == t
  {
    ReadAroundLeaves(s, k, read, reduced);
    FinishedUnreadStays(ReadAround(s, k, reduced), k);
  }

  lemma FinishedUnreadStays(s: Slot, k: Key)
    requires FinishedUnread(s) && Quiet(s) && !s.coalesced
    ensures ReadPass(s, k) == s && Flushed(s, k) == s
  {
  }

  /** A mirror at rev 3, a host that has the record settled at rev 7, and a deposit seen in between. */
  lemma StaleReconcileLeavesHostBehind()
    ensures var t := ReadAround(StaleBoot(SettledRecord()), "k", SeenRecord(3));
            t.entry == Some(Entry(SettledRecord(), false, false, false)) && t.host == Some(SeenRecord(4))
  {
    StaleReadLeavesHostBehind(StaleBoot(SettledRecord()), "k", SettledRecord(), SeenRecord(3));
  }

  /** A settled record whose host write was lost with the page, hydrated from the mirror: no
      reconcile and no flush ever brings the host past the older record. */
  lemma FinishedRecordStaysUnwritten()
    ensures var claiming := Nothing().(durable := Nothing().durable.(status := Claiming), rev := 4);
            var settled := Nothing().(durable := Nothing().durable.(status := Settled), rev := 5);
            var s := Slot(Some(Entry(settled, false, false, false)), Some(claiming), Some(settled),
                          [], Idle, false, NotReading, true);
            SlotInv(s, ReadsRun(false)) && Flushed(ReadPass(s, "k"), "k") == s
  {
  }

  /** Removals wait for the reads of a pass because one that does not can be undone: a read that was
      answered before the clear puts the record back, although the host no longer has it. */
  lemma RemovalDuringReadComesBack(s: Slot, k: Key)
    requires s.queue == [] && s.running.Idle? && s.entry.Some? && s.read == Sampled(Some(s.entry.value.record))
    ensures var record, gone := s.entry.value.record, RemovedOf(s, k);
            && gone.entry == None && gone.host == None
            && var back := OwnStep(OwnStep(gone, ReadAnswers(k, Answered)), HeadStarts(k, record));
            back.entry == Some(Entry(record, false, false, false)) && back.host == None
  {
    RemovedIsGone(s, k);
    assert OwnStep(RemovedOf(s, k), ReadAnswers(k, Answered)).queue == [MergeTask(s.entry.value.record)];
  }

  /** A removal of an idle key, taken and answered, with its index change. */
  function RemovedOf(s: Slot, k: Key): Slot {
    var started := OwnStep(OwnStep(s, RemoveCall(k)), HeadStarts(k, Nothing()));
    OwnStep(OwnStep(OwnStep(started, HostApplies(k)), HostAnswers(k, true)), IndexAnswers(k))
  }

  lemma RemovedIsGone(s: Slot, k: Key)
    requires s.queue == [] && s.running.Idle? && s.entry.Some?
    ensures RemovedOf(s, k) == s.(entry := None, host := None, coalesced := false, unverified := false)
  {
    var started := OwnStep(OwnStep(s, RemoveCall(k)), HeadStarts(k, Nothing()));
    assert started == s.(queue := [RemoveTask], coalesced := false, running := Clearing(false), unverified := true);
    assert [RemoveTask][1..] == [];
  }

  /** Of a record that is nowhere any more: the one thing that puts it back, short of a create, is a merge
      that was read before or a mirror that still has it. */
  lemma ComesBackIff(s: Slot, a: Action)
    requires s.entry.None? && s.host.None? && !s.running.Writing? && Can(s, a) && !a.CreateCall?
    ensures OwnStep(s, a).host.None?
    ensures OwnStep(s, a).entry.Some?
            <==> (a.HeadStarts? && s.queue[0].MergeTask?) || (a.Reload? && s.mirror.Some?)
  {
  }

  /** Nothing is left of the record that a step could put back: no copy of it anywhere, no write of it
      out, no merge of it queued and no read of it that found it. */
  predicate Nowhere(s: Slot) {
    && s.entry.None? && s.host.None? && s.mirror.None?
    && !s.running.Writing? && !MergeQueued(s) && !(s.read.Sampled? && s.read.host.Some?)
  }

  lemma OwnStepStaysNowhere(s: Slot, a: Action)
    requires Nowhere(s) && Can(s, a) && !a.CreateCall?
    ensures Nowhere(OwnStep(s, a))
  {
  }

  ghost predicate StepStaysNowhere(run: seq<Store>, moves: seq<Move>, k: Key, i: nat)
    requires i < |run| - 1 == |moves|
  {
    Nowhere(SlotAt(run[i], k)) && !(moves[i].action.CreateCall? && moves[i].action.key == k) ==>
      Nowhere(SlotAt(run[i + 1], k))
  }

  lemma RunStepStaysNowhere(run: seq<Store>, moves: seq<Move>, k: Key, i: nat)
    requires IsRun(run, moves) && i < |moves|
    ensures StepStaysNowhere(run, moves, k, i)
  {
    var s, a := run[i], moves[i].action;
    assert SlotAt(run[i + 1], k) == After(s, a, moves[i].kept, k);
    if ActsOn(a, k) && Nowhere(SlotAt(s, k)) && !a.CreateCall? {
      EnabledCan(s, a, k);
      OwnStepStaysNowhere(SlotAt(s, k), a);
    }
  }

  lemma {:induction false} StepsStayNowhere(run: seq<Store>, moves: seq<Move>, k: Key, i: nat, j: nat)
    requires i <= j < |run| == |moves| + 1 && Nowhere(SlotAt(run[i], k))
    requires forall m | i <= m < j :: !(moves[m].action.CreateCall? && moves[m].action.key == k)
    requires forall m: nat | m < |moves| :: StepStaysNowhere(run, moves, k, m)
    ensures Nowhere(SlotAt(run[j], k))
    decreases j - i
  {
    if i < j {
      StepsStayNowhere(run, moves, k, i, j - 1);
      assert StepStaysNowhere(run, moves, k, j - 1);
    }
  }

  /** Over any run, from any start, whenever it was removed: a record of which nothing is left stays so
      until it is created again. */
  lemma NowhereIsForGood(run: seq<Store>, moves: seq<Move>, k: Key, i: nat, j: nat)
    requires IsRun(run, moves) && i <= j < |run| && Nowhere(SlotAt(run[i], k))
    requires forall m | i <= m < j :: !(moves[m].action.CreateCall? && moves[m].action.key == k)
    ensures Nowhere(SlotAt(run[j], k))
  {
    forall m: nat | m < |moves| ensures StepStaysNowhere(run, moves, k, m) {
      RunStepStaysNowhere(run, moves, k, m);
    }
    StepsStayNowhere(run, moves, k, i, j);
  }

  /** A record created over a host record no one read replaces it, whatever its rev. */
  lemma CreateReplacesHostRecord(s: Slot, record: Record, k: Key)
    requires Quiet(s) && s.entry.None? && s.host.Some?
    ensures var t := WriteLands(OwnStep(s, CreateCall(k, record)), k, record, true);
            t.host == Some(record)
  {
    assert OwnStep(s, CreateCall(k, record)).queue == [CreateTask];
  }
}
