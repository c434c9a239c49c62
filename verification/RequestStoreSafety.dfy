/** What every step of the request store keeps, and what follows for whole runs. */
module RequestStoreSafety {
  import opened Wrappers
  import opened RequestRecord
  import opened RequestStore

  /** `copy` is the record up to its witness fields. */
  predicate Same(copy: Option<Record>, record: Record) {
    copy.Some? && copy.value.rev == record.rev && copy.value.durable == record.durable
  }

  /** A host record a reconcile read: the host has since moved forward only, and not at all while
      memory had nothing under the key. */
  predicate ReadIsPast(s: Slot, read: Record) {
    && s.host.Some? && NotAhead(Some(read), s.host.value)
    && (s.entry.None? ==> s.host == Some(read))
  }

  predicate WritesHost(task: Task) {
    task.WriteTask? || task.CreateTask?
  }

  /** A queued task will take the entry to the host, or is doing so. */
  predicate WriteAhead(s: Slot) {
    || s.coalesced
    || s.running.Writing?
    || (exists i | 0 <= i < |s.queue| :: WritesHost(s.queue[i]) && !(i == 0 && s.running.Indexing?))
  }

  predicate RunningFits(s: Slot) {
    match s.running
    case Idle => true
    case Writing(captured, landed) =>
      && s.queue != [] && (WritesHost(s.queue[0]) || s.queue[0].ObserveTask?)
      && s.entry.Some? && s.entry.value.record == captured && s.entry.value.pendingWrite
      && (landed ==> s.host == Some(captured))
    case Clearing(landed) =>
      && s.queue != [] && s.queue[0].RemoveTask? && s.entry.Some? && s.unverified
      && (landed ==> s.host == None)
    case Indexing => s.queue != [] && (s.queue[0].CreateTask? || s.queue[0].RemoveTask?)
  }

  predicate QueueFits(s: Slot, pass: Pass) {
    && (forall i | 0 <= i < |s.queue| && s.queue[i].MergeTask? ::
          pass.ReadsRun? && ReadIsPast(s, s.queue[i].read))
    && (forall i | 0 <= i < |s.queue| && s.queue[i].RemoveTask? ::
          pass.ActsRun? && (s.entry.Some? || (i == 0 && s.running.Indexing?)))
    && (forall i, j | 0 <= i < j < |s.queue| :: !(s.queue[i].RemoveTask? && s.queue[j].RemoveTask?))
  }

  predicate ReadFits(s: Slot, pass: Pass) {
    && (!s.read.NotReading? ==> pass.ReadsRun?)
    && (s.read.Sampled? && s.read.host.Some? ==> ReadIsPast(s, s.read.host.value))
  }

  predicate MirrorFits(s: Slot, pass: Pass) {
    && (s.mirror.Some? ==> s.entry.Some? && Same(s.mirror, s.entry.value.record))
    && (s.entry.Some? && s.mirror.None? && !Finished(s.entry.value.record.durable) ==>
          pass == ReadsRun(true) && Same(s.host, s.entry.value.record))
  }

  /** The durable core: the host is never ahead of memory and agrees with it at equal revs, a clean
      entry is on the host, and an entry that is not has a write ahead of it or a failure noted. */
  predicate EntryFits(s: Slot) {
    s.entry.Some? ==>
      var e := s.entry.value;
      && NotAhead(s.host, e.record)
      && (!e.pendingWrite && !s.unverified ==> Same(s.host, e.record))
      && (!Same(s.host, e.record) ==> WriteAhead(s) || e.persistError || s.unverified)
  }

  predicate SlotInv(s: Slot, pass: Pass) {
    EntryFits(s) && RunningFits(s) && QueueFits(s, pass) && ReadFits(s, pass) && MirrorFits(s, pass)
  }

  ghost predicate Inv(s: Store) {
    forall k :: SlotInv(SlotAt(s, k), s.pass)
  }

  lemma InvAt(s: Store, k: Key)
    requires Inv(s)
    ensures SlotInv(SlotAt(s, k), s.pass)
  {
  }

  // ----- one slot through one step

  lemma FinishKeepsQueue(s: Slot, pass: Pass)
    requires s.queue != [] && QueueFits(s, pass)
    ensures QueueFits(Finish(s), pass)
    ensures WriteAhead(s) && !s.running.Writing? && (WritesHost(s.queue[0]) ==> s.running.Indexing?) ==>
              WriteAhead(Finish(s))
  {
    var t := Finish(s);
    forall i | 0 <= i < |t.queue| ensures t.queue[i] == s.queue[i + 1] {}
    if i :| 0 < i < |s.queue| && WritesHost(s.queue[i]) {
      assert WritesHost(t.queue[i - 1]);
    }
  }

  lemma FinishKeeps(s: Slot, pass: Pass)
    requires s.queue != [] && QueueFits(s, pass) && ReadFits(s, pass) && MirrorFits(s, pass)
    requires EntryFits(s)
    requires s.entry.Some? && (s.running.Writing? || (WritesHost(s.queue[0]) && !s.running.Indexing?)) ==>
               Same(s.host, s.entry.value.record) || s.entry.value.persistError || s.unverified
    ensures SlotInv(Finish(s), pass)
  {
    FinishKeepsQueue(s, pass);
  }

  lemma WriteHostKeeps(s: Slot, pass: Pass)
    requires s.queue != [] && s.running.Idle? && (WritesHost(s.queue[0]) || s.queue[0].ObserveTask?)
    requires QueueFits(s, pass) && ReadFits(s, pass) && MirrorFits(s, pass)
    requires s.entry.Some? ==>
               var e := s.entry.value;
               && NotAhead(s.host, e.record)
               && (!e.pendingWrite ==> Same(s.host, e.record) || s.unverified)
    ensures SlotInv(WriteHost(s), pass)
  {
    if s.entry.Some? && s.entry.value.pendingWrite {
    } else if s.queue[0].CreateTask? {
    } else {
      FinishKeepsQueue(s, pass);
    }
  }

  lemma CommitKeeps(s: Slot, next: Record, critical: bool, pass: Pass, kept: bool)
    requires SlotInv(s, pass) && s.queue != [] && s.running.Idle? && s.entry.Some?
    requires !WritesHost(s.queue[0]) && (critical ==> s.queue[0].ObserveTask?)
    requires next.rev == s.entry.value.record.rev + 1
    ensures var t := Commit(s, next, critical);
            MirrorKeeps(t, kept) ==> SlotInv(Mirrored(t, kept), pass)
  {
    var t := s.(entry := Some(s.entry.value.(record := next, pendingWrite := true)), unverified := false,
                coalesced := !critical);
    if MirrorKeeps(t, kept) {
      var u := Mirrored(t, kept);
      if critical {
        WriteHostKeeps(u, pass);
      } else {
        FinishKeeps(u, pass);
      }
    }
  }

  lemma MergeKeeps(s: Slot, pass: Pass)
    requires SlotInv(s, pass) && s.queue != [] && s.running.Idle? && s.queue[0].MergeTask?
    ensures SlotInv(Merge(s, s.queue[0].read),
                    if MergeLoads(s, s.queue[0].read) then ReadsRun(true) else pass)
  {
    var read := s.queue[0].read;
    assert pass.ReadsRun? && ReadIsPast(s, read);
    if MergeLoads(s, read) {
      FinishKeeps(s.(entry := Some(Entry(read, false, false, false)), unverified := false), ReadsRun(true));
    } else {
      var current := s.entry.value.(readError := false);
      if read.rev < current.record.rev {
        FinishKeeps(s.(entry := Some(current.(pendingWrite := true)), coalesced := true, unverified := false), pass);
      } else {
        FinishKeeps(s.(entry := Some(current), unverified := false), pass);
      }
    }
  }

  /** A record that was loaded during this pass' reads stays recoverable when another key's load
      marks the pass as changed. */
  lemma PassChangedKeeps(s: Slot, pass: Pass)
    requires SlotInv(s, pass) && pass.ReadsRun?
    ensures SlotInv(s, ReadsRun(true))
  {
  }

  lemma WitnessKeeps(s: Slot, reduced: Record, pass: Pass)
    requires SlotInv(s, pass) && s.queue != [] && s.running.Idle? && s.queue[0].ObserveTask?
    requires s.entry.Some? && WitnessOnly(s.entry.value.record, reduced)
    ensures SlotInv(Finish(s.(entry := Some(s.entry.value.(record := reduced)))), pass)
  {
    FinishKeeps(s.(entry := Some(s.entry.value.(record := reduced))), pass);
  }

  lemma ObserveStartKeeps(s: Slot, reduced: Record, pass: Pass, kept: bool)
    requires SlotInv(s, pass) && s.queue != [] && s.running.Idle? && s.queue[0].ObserveTask?
    requires s.entry.Some? ==> reduced.rev == s.entry.value.record.rev
    ensures !StartCommits(s, reduced) ==> SlotInv(Observe(s, reduced), pass)
    ensures StartCommits(s, reduced) && MirrorKeeps(Observe(s, reduced), kept) ==>
              SlotInv(Mirrored(Observe(s, reduced), kept), pass)
  {
    if s.entry.None? {
      FinishKeeps(s, pass);
    } else if !StartCommits(s, reduced) {
      WitnessKeeps(s, reduced, pass);
    } else {
      var record := s.entry.value.record;
      var next := reduced.(rev := record.rev + 1);
      var critical := IsCritical(record.durable, reduced.durable);
      CommitKeeps(s, next, critical, pass, kept);
      assert Observe(s, reduced) == Commit(s, next, critical);
    }
  }

  lemma NoteStartKeeps(s: Slot, next: Record, pass: Pass, kept: bool)
    requires SlotInv(s, pass) && s.queue != [] && s.running.Idle?
    requires s.queue[0].FlagTask? || s.queue[0].HandoffTask?
    ensures SlotInv(Finish(s), pass)
    ensures s.entry.Some? && next.rev == s.entry.value.record.rev + 1 ==>
              var t := Commit(s, next, false);
              MirrorKeeps(t, kept) ==> SlotInv(Mirrored(t, kept), pass)
  {
    FinishKeeps(s, pass);
    if s.entry.Some? && next.rev == s.entry.value.record.rev + 1 {
      CommitKeeps(s, next, false, pass, kept);
    }
  }

  function PassAfterStart(s: Slot, pass: Pass): Pass
    requires s.queue != []
  {
    if pass.ReadsRun? && s.queue[0].MergeTask? && MergeLoads(s, s.queue[0].read) then ReadsRun(true) else pass
  }

  lemma PlainStartKeeps(s: Slot, reduced: Record, pass: Pass)
    requires SlotInv(s, pass) && s.queue != [] && s.running.Idle?
    requires WritesHost(s.queue[0]) || s.queue[0].MergeTask? || s.queue[0].RemoveTask?
    ensures SlotInv(StartHead(s, reduced), PassAfterStart(s, pass))
  {
    match s.queue[0]
    case WriteTask => WriteHostKeeps(s, pass);
    case CreateTask => WriteHostKeeps(s, pass);
    case MergeTask(_) => MergeKeeps(s, pass);
    case RemoveTask =>
  }

  lemma ChangeStartKeeps(s: Slot, reduced: Record, pass: Pass, kept: bool)
    requires SlotInv(s, pass) && s.queue != [] && s.running.Idle?
    requires s.queue[0].ObserveTask? || s.queue[0].FlagTask? || s.queue[0].HandoffTask?
    requires s.entry.Some? ==> reduced.rev == s.entry.value.record.rev
    ensures var t := StartHead(s, reduced);
            if StartCommits(s, reduced) then MirrorKeeps(t, kept) ==> SlotInv(Mirrored(t, kept), pass)
            else SlotInv(t, pass)
  {
    match s.queue[0]
    case ObserveTask => ObserveStartKeeps(s, reduced, pass, kept);
    case FlagTask(note) =>
      NoteStartKeeps(s, if s.entry.Some? then Flagged(s.entry.value.record, note) else reduced, pass, kept);
    case HandoffTask(handoff) =>
      NoteStartKeeps(s, if s.entry.Some? then HandedOff(s.entry.value.record, handoff) else reduced, pass, kept);
  }

  lemma HeadStartKeeps(s: Slot, reduced: Record, pass: Pass, kept: bool)
    requires SlotInv(s, pass) && s.queue != [] && s.running.Idle?
    requires s.entry.Some? ==> reduced.rev == s.entry.value.record.rev
    ensures var t := StartHead(s, reduced);
            if StartCommits(s, reduced) then MirrorKeeps(t, kept) ==> SlotInv(Mirrored(t, kept), pass)
            else SlotInv(t, PassAfterStart(s, pass))
  {
    if WritesHost(s.queue[0]) || s.queue[0].MergeTask? || s.queue[0].RemoveTask? {
      PlainStartKeeps(s, reduced, pass);
    } else {
      ChangeStartKeeps(s, reduced, pass, kept);
    }
  }

  lemma WriteAnswerKeeps(s: Slot, ok: bool, pass: Pass)
    requires SlotInv(s, pass) && s.running.Writing? && (ok ==> s.running.landed)
    ensures SlotInv(HostAnswered(s, ok), pass)
  {
    var e := s.entry.value;
    if !ok {
      FinishKeeps(s.(entry := Some(e.(persistError := true))), pass);
    } else if !s.queue[0].CreateTask? {
      FinishKeeps(s.(entry := Some(e.(persistError := false, pendingWrite := false)), unverified := false), pass);
    }
  }

  lemma ClearAnswerKeeps(s: Slot, ok: bool, pass: Pass, kept: bool)
    requires SlotInv(s, pass) && s.running.Clearing? && (ok ==> s.running.landed)
    ensures var t := HostAnswered(s, ok);
            SlotInv(if ok then Mirrored(t, kept) else t, pass)
  {
    FinishKeeps(s, pass);
  }

  lemma HostTakesKeeps(s: Slot, pass: Pass)
    requires SlotInv(s, pass) && AwaitsHost(s) && !s.running.landed
    ensures SlotInv(HostTakes(s), pass)
  {
  }

  lemma EnqueueKeeps(s: Slot, task: Task, pass: Pass)
    requires SlotInv(s, pass)
    requires task.MergeTask? ==> pass.ReadsRun? && ReadIsPast(s, task.read)
    requires task.RemoveTask? ==> pass.ActsRun? && s.entry.Some? && RemoveTask !in s.queue
    ensures SlotInv(Enqueue(s, task), pass)
  {
    if i :| 0 <= i < |s.queue| && WritesHost(s.queue[i]) && !(i == 0 && s.running.Indexing?) {
      assert WritesHost(Enqueue(s, task).queue[i]);
    }
  }

  lemma TimerKeeps(s: Slot, pass: Pass)
    requires SlotInv(s, pass)
    ensures SlotInv(Enqueue(s.(coalesced := false), WriteTask), pass)
  {
    var t := Enqueue(s.(coalesced := false), WriteTask);
    assert t.queue[|s.queue|] == WriteTask;
  }

  lemma CallKeeps(s: Slot, a: Action, pass: Pass)
    requires SlotInv(s, pass)
    requires a.ObserveCall? || a.FlagCall? || a.HandoffCall? || a.RemoveCall? || a.TimerFires? || a.FlushCall?
    requires a.RemoveCall? ==> pass.ActsRun? && s.entry.Some? && RemoveTask !in s.queue
    ensures SlotInv(OwnStep(s, a), pass)
  {
    match a
    case ObserveCall(_) => EnqueueKeeps(s, ObserveTask, pass);
    case FlagCall(_, note) => EnqueueKeeps(s, FlagTask(note), pass);
    case HandoffCall(_, handoff) => EnqueueKeeps(s, HandoffTask(handoff), pass);
    case RemoveCall(_) => EnqueueKeeps(s, RemoveTask, pass);
    case TimerFires(_) => TimerKeeps(s, pass);
    case FlushCall => TimerKeeps(s, pass);
  }

  /** A new record keeps the invariant exactly when a host record under its key is not ahead of it, as
      none is when the key is fresh. */
  lemma CreateKeeps(s: Slot, record: Record, pass: Pass, kept: bool)
    requires SlotInv(s, pass) && s.entry.None?
    ensures var t := OwnStep(s, CreateCall("", record));
            MirrorKeeps(t, kept) ==> (SlotInv(Mirrored(t, kept), pass) <==> NotAhead(s.host, record))
  {
    var t := OwnStep(s, CreateCall("", record));
    assert t.queue[|s.queue|] == CreateTask;
  }

  lemma ReadBeginKeeps(s: Slot, pass: Pass)
    requires SlotInv(s, pass) && pass.ReadsRun?
    ensures SlotInv(BeginRead(s), pass)
    ensures s.read.Reading? ==> SlotInv(s.(read := Sampled(s.host)), pass)
  {
  }

  lemma ReadAnswerKeeps(s: Slot, result: ReadResult, pass: Pass)
    requires SlotInv(s, pass) && CanAnswer(s.read, result)
    ensures SlotInv(ReadAnswered(s, result), pass)
  {
    if result.Answered? && s.read.host.Some? {
      EnqueueKeeps(s.(read := NotReading), MergeTask(s.read.host.value), pass);
    }
  }

  /** The mirror can be rewritten at any time. */
  lemma MirrorWriteKeeps(s: Slot, pass: Pass, kept: bool)
    requires SlotInv(s, pass) && MirrorKeeps(s, kept)
    ensures SlotInv(Mirrored(s, kept), pass)
    ensures pass.ReadsRun? && ReadsDone(s) ==> SlotInv(Mirrored(s, kept), ActsRun)
    ensures pass == ReadsRun(false) && ReadsDone(s) ==> SlotInv(s, ActsRun)
  {
  }

  lemma ReloadKeeps(s: Slot, pass: Pass)
    requires SlotInv(s, pass)
    ensures SlotInv(Reloaded(s), NoPass)
  {
  }

  // ----- the whole store

  lemma OwnStepKeeps(s: Store, a: Action, kept: bool, k: Key)
    requires Inv(s) && Enabled(s, a) && Ruled(s, a) && ActsOn(a, k)
    requires WritesMirror(s, a) ==> MirrorKeeps(OwnStep(SlotAt(s, k), a), kept)
    ensures var t := OwnStep(SlotAt(s, k), a);
            SlotInv(if WritesMirror(s, a) then Mirrored(t, kept) else t, PassAfter(s, a))
  {
    var slot := SlotAt(s, k);
    InvAt(s, k);
    match a
    case CreateCall(_, record) => CreateKeeps(slot, record, s.pass, kept);
    case HeadStarts(_, reduced) => HeadStartKeeps(slot, reduced, s.pass, kept);
    case HostApplies(_) => HostTakesKeeps(slot, s.pass);
    case HostAnswers(_, ok) =>
      if slot.running.Writing? {
        WriteAnswerKeeps(slot, ok, s.pass);
      } else {
        ClearAnswerKeeps(slot, ok, s.pass, kept);
      }
    case IndexAnswers(_) => FinishKeeps(slot, s.pass);
    case Reload => ReloadKeeps(slot, s.pass);
    case ReadBegins(_) => ReadBeginKeeps(slot, s.pass);
    case ReadSamples(_) => ReadBeginKeeps(slot, s.pass);
    case ReadAnswers(_, result) => ReadAnswerKeeps(slot, result, s.pass);
    case _ => CallKeeps(slot, a, s.pass);
  }

  lemma OtherKeyKeeps(s: Store, a: Action, kept: bool, k: Key)
    requires Inv(s) && Enabled(s, a) && !ActsOn(a, k)
    requires WritesMirror(s, a) ==> MirrorKeeps(SlotAt(s, k), kept)
    ensures SlotInv(if WritesMirror(s, a) then Mirrored(SlotAt(s, k), kept) else SlotAt(s, k), PassAfter(s, a))
  {
    var slot := SlotAt(s, k);
    InvAt(s, k);
    match a
    case PassBegins =>
    case ReadsEnd =>
      assert ReadsDone(slot);
      MirrorWriteKeeps(slot, s.pass, kept || !s.pass.changed);
    case PassEnds => assert RemoveTask !in slot.queue;
    case HeadStarts(_, _) =>
      if PassAfter(s, a) != s.pass {
        PassChangedKeeps(slot, s.pass);
      } else if WritesMirror(s, a) {
        MirrorWriteKeeps(slot, s.pass, kept);
      }
    case CreateCall(_, _) => MirrorWriteKeeps(slot, s.pass, kept);
    case HostAnswers(_, _) => if WritesMirror(s, a) { MirrorWriteKeeps(slot, s.pass, kept); }
    case _ =>
  }

  /** Every step of every schedule keeps the invariant. */
  lemma NextKeepsInv(s: Store, a: Action, kept: set<Key>, t: Store)
    requires Inv(s) && Next(s, a, kept, t) && Ruled(s, a)
    ensures Inv(t)
  {
    forall k ensures SlotInv(SlotAt(t, k), t.pass) {
      assert SlotAt(t, k) == After(s, a, kept, k);
      assert WritesMirror(s, a) ==> MirrorKeeps(Moved(s, a, k), k in kept);
      if ActsOn(a, k) {
        OwnStepKeeps(s, a, k in kept, k);
      } else {
        OtherKeyKeeps(s, a, k in kept, k);
      }
    }
  }
}
