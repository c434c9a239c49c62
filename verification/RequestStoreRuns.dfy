/** The request store over whole runs: every interleaving of calls, timers, flushes, host answers
    that fail or come late, reconcile passes and reloads. */
module RequestStoreRuns {
  import opened Wrappers
  import opened RequestRecord
  import opened RequestStore
  import opened RequestStoreSafety

  datatype Move = Move(action: Action, kept: set<Key>)

  ghost predicate IsRun(run: seq<Store>, moves: seq<Move>) {
    && |run| == |moves| + 1
    && (forall i | 0 <= i < |moves| ::
          Ruled(run[i], moves[i].action) && Next(run[i], moves[i].action, moves[i].kept, run[i + 1]))
  }

  /** `now` is `before` or a later rev of it. */
  predicate Forward(before: Record, now: Record) {
    before.rev <= now.rev && (before.rev == now.rev ==> before.durable == now.durable)
  }

  predicate ForwardWhileThere(before: Option<Record>, now: Option<Record>) {
    before.Some? && now.Some? ==> Forward(before.value, now.value)
  }

  function Memory(s: Slot): Option<Record> {
    if s.entry.Some? then Some(s.entry.value.record) else None
  }

  // ----- revs

  lemma CommitMoves(s: Slot, next: Record, critical: bool)
    requires s.queue != [] && s.entry.Some?
    ensures Memory(Commit(s, next, critical)) == Some(next) && Commit(s, next, critical).host == s.host
  {
  }

  lemma MergeMovesForward(s: Slot, pass: Pass)
    requires SlotInv(s, pass) && s.queue != [] && s.queue[0].MergeTask?
    ensures ForwardWhileThere(Memory(s), Memory(Merge(s, s.queue[0].read)))
    ensures Merge(s, s.queue[0].read).host == s.host
  {
    assert ReadIsPast(s, s.queue[0].read);
  }

  lemma StartMovesForward(s: Slot, reduced: Record, pass: Pass)
    requires SlotInv(s, pass) && s.queue != [] && s.running.Idle?
    requires s.entry.Some? ==> reduced.rev == s.entry.value.record.rev
    ensures ForwardWhileThere(Memory(s), Memory(StartHead(s, reduced)))
    ensures StartHead(s, reduced).host == s.host
  {
    match s.queue[0]
    case WriteTask =>
    case CreateTask =>
    case RemoveTask =>
    case MergeTask(_) => MergeMovesForward(s, pass);
    case ObserveTask => ObserveMovesForward(s, reduced);
    case FlagTask(note) => if StartCommits(s, reduced) { CommitMoves(s, Flagged(s.entry.value.record, note), false); }
    case HandoffTask(handoff) =>
      if StartCommits(s, reduced) { CommitMoves(s, HandedOff(s.entry.value.record, handoff), false); }
  }

  lemma ObserveMovesForward(s: Slot, reduced: Record)
    requires s.queue != [] && (s.entry.Some? ==> reduced.rev == s.entry.value.record.rev)
    ensures ForwardWhileThere(Memory(s), Memory(Observe(s, reduced)))
    ensures Observe(s, reduced).host == s.host
  {
    if s.entry.Some? {
      var record := s.entry.value.record;
      CommitMoves(s, reduced.(rev := record.rev + 1), IsCritical(record.durable, reduced.durable));
    }
  }

  lemma AnswerMovesForward(s: Slot, ok: bool, pass: Pass)
    requires SlotInv(s, pass) && AwaitsHost(s)
    ensures ForwardWhileThere(Memory(s), Memory(HostAnswered(s, ok)))
    ensures ForwardWhileThere(s.host, HostTakes(s).host)
    ensures HostAnswered(s, ok).host == s.host
    ensures HostTakes(s).entry == s.entry
  {
  }

  lemma ReadAndReloadMoveForward(s: Slot, result: ReadResult, pass: Pass)
    requires SlotInv(s, pass)
    ensures ForwardWhileThere(Memory(s), Memory(BeginRead(s))) && BeginRead(s).host == s.host
    ensures CanAnswer(s.read, result) ==>
              ForwardWhileThere(Memory(s), Memory(ReadAnswered(s, result)))
              && ReadAnswered(s, result).host == s.host
    ensures ForwardWhileThere(Memory(s), Memory(Reloaded(s))) && Reloaded(s).host == s.host
  {
  }

  lemma OwnStepMovesForward(s: Store, a: Action, k: Key)
    requires Inv(s) && Enabled(s, a) && ActsOn(a, k)
    ensures ForwardWhileThere(Memory(SlotAt(s, k)), Memory(OwnStep(SlotAt(s, k), a)))
    ensures ForwardWhileThere(SlotAt(s, k).host, OwnStep(SlotAt(s, k), a).host)
  {
    var slot := SlotAt(s, k);
    InvAt(s, k);
    match a
    case HeadStarts(_, reduced) => StartMovesForward(slot, reduced, s.pass);
    case HostApplies(_) => AnswerMovesForward(slot, false, s.pass);
    case HostAnswers(_, ok) => AnswerMovesForward(slot, ok, s.pass);
    case ReadBegins(_) => ReadAndReloadMoveForward(slot, Rejected, s.pass);
    case ReadAnswers(_, result) => ReadAndReloadMoveForward(slot, result, s.pass);
    case Reload => ReadAndReloadMoveForward(slot, Rejected, s.pass);
    case _ =>
  }

  /** One step never takes a record back, neither in memory nor on the host. */
  lemma NextMovesForward(s: Store, a: Action, kept: set<Key>, t: Store, k: Key)
    requires Inv(s) && Next(s, a, kept, t)
    ensures ForwardWhileThere(Memory(SlotAt(s, k)), Memory(SlotAt(t, k)))
    ensures ForwardWhileThere(SlotAt(s, k).host, SlotAt(t, k).host)
  {
    AfterKeeps(s, a, kept, k);
    if ActsOn(a, k) {
      OwnStepMovesForward(s, a, k);
    }
  }

  /** Writing the mirror changes nothing else. */
  lemma AfterKeeps(s: Store, a: Action, kept: set<Key>, k: Key)
    ensures After(s, a, kept, k).entry == Moved(s, a, k).entry
    ensures After(s, a, kept, k).host == Moved(s, a, k).host
  {
  }

  lemma {:induction false} InvAlongRun(run: seq<Store>, moves: seq<Move>, i: nat)
    requires IsRun(run, moves) && Inv(run[0]) && i < |run|
    ensures Inv(run[i])
  {
    if i > 0 {
      InvAlongRun(run, moves, i - 1);
      NextKeepsInv(run[i - 1], moves[i - 1].action, moves[i - 1].kept, run[i]);
    }
  }

  /** In every reachable state the host is not ahead of memory, equal revs are equal records up to
      the witness fields, a clean entry is on the host, and an entry that is not on the host has a
      write ahead of it, or its failure noted, or waits for a reconcile to look at it. */
  lemma ReachableStoresAgree(run: seq<Store>, moves: seq<Move>, i: nat, k: Key)
    requires IsRun(run, moves) && Inv(run[0]) && i < |run|
    requires k in run[i].entries
    ensures var slot := SlotAt(run[i], k);
            var e := slot.entry.value;
            && (slot.host.Some? ==> slot.host.value.rev <= e.record.rev)
            && (slot.host.Some? && slot.host.value.rev == e.record.rev ==>
                  slot.host.value.durable == e.record.durable)
            && (!e.pendingWrite && !slot.unverified ==>
                  slot.host.Some? && slot.host.value.rev == e.record.rev)
            && (!Same(slot.host, e.record) ==> WriteAhead(slot) || e.persistError || slot.unverified)
  {
    InvAlongRun(run, moves, i);
    InvAt(run[i], k);
  }

  /** As long as a record stays in memory its rev never falls there, and as long as it stays on the
      host its rev never falls there, through any run. */
  lemma {:induction false} RevsNeverFall(run: seq<Store>, moves: seq<Move>, k: Key, i: nat, j: nat)
    requires IsRun(run, moves) && Inv(run[0]) && i <= j < |run|
    ensures (forall m | i <= m <= j :: k in run[m].entries) ==>
              Forward(run[i].entries[k].record, run[j].entries[k].record)
    ensures (forall m | i <= m <= j :: k in run[m].host) ==>
              Forward(run[i].host[k], run[j].host[k])
    decreases j - i
  {
    if i < j {
      RevsNeverFall(run, moves, k, i, j - 1);
      InvAlongRun(run, moves, j - 1);
      NextMovesForward(run[j - 1], moves[j - 1].action, moves[j - 1].kept, run[j], k);
      assert Memory(SlotAt(run[j], k)).Some? <==> k in run[j].entries;
      assert Memory(SlotAt(run[j - 1], k)).Some? <==> k in run[j - 1].entries;
    }
  }

  // ----- boot

  /** Memory as `hydrateFromMirror` leaves it before anything else has run. */
  function Boot(host: map<Key, Record>, mirror: map<Key, Record>): Store {
    Store(map k | k in mirror :: Entry(mirror[k], false, false, false), host, mirror,
          map[], map[], {}, map[], mirror.Keys, NoPass)
  }

  /** A reload is a boot over what the page left behind. */
  lemma ReloadIsBoot(s: Store, kept: set<Key>, t: Store)
    ensures Next(s, Reload, kept, t)
            <==> t.pass == NoPass && forall k :: SlotAt(t, k) == SlotAt(Boot(s.host, s.mirror), k)
  {
    forall k ensures SlotAt(Boot(s.host, s.mirror), k) == After(s, Reload, kept, k) {
    }
  }

  /** The store starts out safe exactly when no mirrored record is behind its host copy. */
  lemma BootIsSafeIff(host: map<Key, Record>, mirror: map<Key, Record>)
    ensures Inv(Boot(host, mirror)) <==> forall k | k in mirror :: NotAhead(Get(host, k), mirror[k])
  {
    var s := Boot(host, mirror);
    forall k | k in mirror ensures SlotInv(SlotAt(s, k), NoPass) <==> NotAhead(Get(host, k), mirror[k]) {
    }
    forall k | k !in mirror ensures SlotInv(SlotAt(s, k), NoPass) {
    }
    if Inv(s) {
      forall k | k in mirror ensures NotAhead(Get(host, k), mirror[k]) {
        InvAt(s, k);
      }
    }
  }

  // ----- critical observations

  lemma OwnStepKeepsWriting(s: Slot, a: Action)
    requires s.running.Writing? && s.queue != []
    requires !a.HeadStarts? && !a.HostAnswers? && !a.IndexAnswers? && !a.Reload?
    ensures OwnStep(s, a).running.Writing? && OwnStep(s, a).running.captured == s.running.captured
  {
  }

  /** One step of a run that is neither a reload nor an answer for the key leaves its write out. */
  ghost predicate StepKeepsWriting(run: seq<Store>, moves: seq<Move>, k: Key, i: nat)
    requires i < |run| - 1 == |moves|
  {
    var s, t, a := SlotAt(run[i], k), SlotAt(run[i + 1], k), moves[i].action;
    s.running.Writing? && !a.Reload? && !(a.HostAnswers? && a.key == k) ==>
      t.running.Writing? && t.running.captured == s.running.captured
  }

  lemma WriteGoesOn(run: seq<Store>, moves: seq<Move>, k: Key, i: nat)
    requires IsRun(run, moves) && Inv(run[0]) && i < |moves|
    ensures StepKeepsWriting(run, moves, k, i)
  {
    var s, a := run[i], moves[i].action;
    InvAlongRun(run, moves, i);
    InvAt(s, k);
    assert SlotAt(run[i + 1], k) == After(s, a, moves[i].kept, k);
    if ActsOn(a, k) && SlotAt(s, k).running.Writing? && !a.Reload? && !a.HostAnswers? {
      OwnStepKeepsWriting(SlotAt(s, k), a);
    }
  }

  lemma {:induction false} WriteGoesOnAlongRun(run: seq<Store>, moves: seq<Move>, k: Key, i: nat, j: nat)
    requires i <= j < |run| == |moves| + 1 && forall m: nat | m < |moves| :: StepKeepsWriting(run, moves, k, m)
    requires SlotAt(run[i], k).running.Writing?
    requires forall m | i <= m < j ::
               !moves[m].action.Reload? && !(moves[m].action.HostAnswers? && moves[m].action.key == k)
    ensures SlotAt(run[j], k).running.Writing?
    ensures SlotAt(run[j], k).running.captured == SlotAt(run[i], k).running.captured
    decreases j - i
  {
    if i < j {
      WriteGoesOnAlongRun(run, moves, k, i, j - 1);
      assert StepKeepsWriting(run, moves, k, j - 1);
    }
  }

  /** An observation of a change the host must hear of starts its host write at once, of the next rev,
      whatever timer was pending. */
  lemma CriticalChangeStartsWrite(s: Store, kept: set<Key>, t: Store, k: Key, reduced: Record)
    requires Inv(s) && Next(s, HeadStarts(k, reduced), kept, t)
    requires SlotAt(s, k).queue[0].ObserveTask? && k in s.entries
    requires MustBeStored(s.entries[k].record.durable, reduced.durable)
    ensures SlotAt(t, k).running == Writing(reduced.(rev := s.entries[k].record.rev + 1), false)
    ensures !SlotAt(t, k).coalesced
  {
    CriticalIff(s.entries[k].record.durable, reduced.durable);
    assert SlotAt(t, k) == After(s, HeadStarts(k, reduced), kept, k);
  }

  lemma OtherChangeEnds(s: Slot, reduced: Record)
    requires s.queue != [] && s.queue[0].ObserveTask? && s.running.Idle? && s.entry.Some?
    requires reduced.rev == s.entry.value.record.rev && !MustBeStored(s.entry.value.record.durable, reduced.durable)
    ensures var now := StartHead(s, reduced);
            && now.queue == s.queue[1..] && now.running.Idle? && now.host == s.host
            && now.entry.Some?
            && if reduced.durable == s.entry.value.record.durable
               then now.entry == Some(s.entry.value.(record := reduced)) && now.coalesced == s.coalesced
               else && now.entry.value.record == reduced.(rev := s.entry.value.record.rev + 1)
                    && now.entry.value.pendingWrite && now.coalesced
  {
    CriticalIff(s.entry.value.record.durable, reduced.durable);
  }

  /** Any other change goes to the timer alone: the task ends at once with nothing written, the next rev
      pending. One of the witness fields alone does not even take a rev. */
  lemma OtherChangeWaits(s: Store, kept: set<Key>, t: Store, k: Key, reduced: Record)
    requires Inv(s) && Next(s, HeadStarts(k, reduced), kept, t)
    requires SlotAt(s, k).queue[0].ObserveTask? && k in s.entries
    requires !MustBeStored(s.entries[k].record.durable, reduced.durable)
    ensures var was, now := SlotAt(s, k), SlotAt(t, k);
            && now.queue == was.queue[1..] && now.running.Idle? && now.host == was.host
            && now.entry.Some?
            && if reduced.durable == s.entries[k].record.durable
               then now.entry == Some(was.entry.value.(record := reduced)) && now.coalesced == was.coalesced
               else && now.entry.value.record == reduced.(rev := s.entries[k].record.rev + 1)
                    && now.entry.value.pendingWrite && now.coalesced
  {
    OtherChangeEnds(SlotAt(s, k), reduced);
    assert SlotAt(t, k) == After(s, HeadStarts(k, reduced), kept, k);
  }

  lemma WriteResolves(s: Store, ok: bool, kept: set<Key>, t: Store, k: Key)
    requires Inv(s) && Next(s, HostAnswers(k, ok), kept, t) && SlotAt(s, k).running.Writing?
    ensures var last := SlotAt(t, k);
            var written := SlotAt(s, k).running.captured;
            && last.entry.Some? && last.entry.value.record == written
            && (if ok then last.host == Some(written) && !last.entry.value.pendingWrite
                else last.entry.value.pendingWrite && last.entry.value.persistError)
  {
    InvAt(s, k);
    assert SlotAt(t, k) == After(s, HostAnswers(k, ok), kept, k);
  }

  /** When an observation of a change the host must hear of resolves, the host holds that change, or
      the entry is pending and carries the failure. Anything may happen on any key in between. */
  lemma CriticalObservationIsDurable(run: seq<Store>, moves: seq<Move>, k: Key, reduced: Record, ok: bool)
    requires IsRun(run, moves) && Inv(run[0]) && |moves| >= 2
    requires moves[0].action == HeadStarts(k, reduced)
    requires SlotAt(run[0], k).queue != [] && SlotAt(run[0], k).queue[0].ObserveTask? && k in run[0].entries
    requires MustBeStored(run[0].entries[k].record.durable, reduced.durable)
    requires moves[|moves| - 1].action == HostAnswers(k, ok)
    requires forall m | 0 < m < |moves| - 1 ::
               !moves[m].action.Reload? && !(moves[m].action.HostAnswers? && moves[m].action.key == k)
    ensures var last := SlotAt(run[|run| - 1], k);
            var next := reduced.(rev := run[0].entries[k].record.rev + 1);
            && last.entry.Some? && last.entry.value.record == next
            && (if ok then last.host == Some(next) && !last.entry.value.pendingWrite
                else last.entry.value.pendingWrite && last.entry.value.persistError)
  {
    var n := |moves|;
    CriticalChangeStartsWrite(run[0], moves[0].kept, run[1], k, reduced);
    forall m: nat | m < |moves| ensures StepKeepsWriting(run, moves, k, m) {
      WriteGoesOn(run, moves, k, m);
    }
    WriteGoesOnAlongRun(run, moves, k, 1, n - 1);
    InvAlongRun(run, moves, n - 1);
    WriteResolves(run[n - 1], ok, moves[n - 1].kept, run[n], k);
  }

  // ----- removal

  ghost predicate Gone(s: Store, k: Key) {
    k !in s.entries && k !in s.host
  }

  /** A removal whose clear the host answered leaves nothing of the record anywhere. */
  lemma RemovalCompletes(s: Store, kept: set<Key>, t: Store, k: Key)
    requires Inv(s) && Next(s, HostAnswers(k, true), kept, t) && SlotAt(s, k).running.Clearing?
    ensures Gone(t, k) && k !in t.mirror
  {
    InvAt(s, k);
    assert SlotAt(t, k) == After(s, HostAnswers(k, true), kept, k);
    assert SlotAt(t, k).entry == None && SlotAt(t, k).host == None;
  }

  lemma OwnStepStaysGone(s: Slot, a: Action, pass: Pass)
    requires SlotInv(s, pass) && s.entry.None? && s.host.None? && !a.CreateCall?
    requires a.HeadStarts? ==> s.running.Idle?
    ensures OwnStep(s, a).entry.None? && OwnStep(s, a).host.None?
  {
    assert s.queue != [] ==> !s.queue[0].MergeTask?;
  }

  lemma GoneStaysGone(s: Store, move: Move, t: Store, k: Key)
    requires Inv(s) && Next(s, move.action, move.kept, t) && Gone(s, k)
    requires !(move.action.CreateCall? && move.action.key == k)
    ensures Gone(t, k)
  {
    InvAt(s, k);
    assert SlotAt(t, k) == After(s, move.action, move.kept, k);
    if ActsOn(move.action, k) {
      OwnStepStaysGone(SlotAt(s, k), move.action, s.pass);
    }
    assert SlotAt(t, k).entry == None && SlotAt(t, k).host == None;
  }

  /** Once removed, a record is put back by no queued task, timer, flush, late read or reload, and
      no write of it is ever sent again: only a new `create` brings it back. */
  lemma {:induction false} RemovedStaysRemoved(run: seq<Store>, moves: seq<Move>, k: Key, i: nat)
    requires IsRun(run, moves) && Inv(run[0]) && i < |run| && Gone(run[0], k)
    requires forall m | 0 <= m < i :: !(moves[m].action.CreateCall? && moves[m].action.key == k)
    ensures Gone(run[i], k) && k !in run[i].mirror
    ensures !SlotAt(run[i], k).running.Writing?
  {
    InvAlongRun(run, moves, i);
    InvAt(run[i], k);
    if i > 0 {
      RemovedStaysRemoved(run, moves, k, i - 1);
      InvAlongRun(run, moves, i - 1);
      GoneStaysGone(run[i - 1], moves[i - 1], run[i], k);
    }
    assert SlotAt(run[i], k).entry == None;
    assert SlotAt(run[i], k).mirror == None;
  }

  // ----- reload

  /** A reload brings back every record it finds in the mirror at the rev it had, and any other
      record it forgets is finished or on the host. What is then nowhere is exactly a finished
      record that the mirror had no room for and whose host write had not landed. */
  lemma ReloadLosesOnly(s: Store, kept: set<Key>, t: Store, k: Key)
    requires Inv(s) && Next(s, Reload, kept, t) && k in s.entries
    ensures var record := s.entries[k].record;
            && (k in s.mirror ==> k in t.entries && Same(Some(t.entries[k].record), record))
            && (k !in s.mirror ==> k !in t.entries && (Finished(record.durable) || Same(Get(t.host, k), record)))
            && (k !in t.entries && !Same(Get(t.host, k), record)
                <==> k !in s.mirror && Finished(record.durable) && !Same(Get(s.host, k), record))
  {
    InvAt(s, k);
    assert SlotAt(t, k) == After(s, Reload, kept, k);
    assert Get(t.entries, k) == SlotAt(t, k).entry && Get(t.host, k) == SlotAt(t, k).host;
    assert Get(s.mirror, k) == SlotAt(s, k).mirror;
  }
}
