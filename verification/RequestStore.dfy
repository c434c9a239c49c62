/**
 The request store as a system of steps. A step is the code between two awaits: a call from the
 page, a timer, the start of a queued task, or the host taking or answering a storage call. Every
 record lives in memory (`entries`), in the synchronous mirror and on the host, and the three are
 followed here together, key by key.
 */
module RequestStore {
  import opened Wrappers
  import opened RequestRecord

  type Key = string

  datatype Entry = Entry(record: Record, pendingWrite: bool, persistError: bool, readError: bool)

  datatype Task =
    | WriteTask
    | CreateTask
    | ObserveTask
    | FlagTask(note: string)
    | HandoffTask(handoff: string)
    | RemoveTask
    | MergeTask(read: Record)

  /** What the task at the head of a key's queue awaits. `landed`: the host has taken the call. */
  datatype Running =
    | Idle
    | Writing(captured: Record, landed: bool)
    | Clearing(landed: bool)
    | Indexing

  /** A reconcile's read of one key: not out, out, or answered with what the host held then. */
  datatype Read = NotReading | Reading | Sampled(host: Option<Record>)

  /** Everything about one key. `unverified` is history, not a field of the page: the entry was
      read from the mirror, or a removal was tried on it, and nothing has vouched for its host copy
      since. */
  datatype Slot = Slot(
    entry: Option<Entry>,
    host: Option<Record>,
    mirror: Option<Record>,
    queue: seq<Task>,
    running: Running,
    coalesced: bool,
    read: Read,
    unverified: bool)

  /** A reconcile pass reads the records first and acts on them after. */
  datatype Pass = NoPass | ReadsRun(changed: bool) | ActsRun

  datatype Store = Store(
    entries: map<Key, Entry>,
    host: map<Key, Record>,
    mirror: map<Key, Record>,
    queues: map<Key, seq<Task>>,
    running: map<Key, Running>,
    coalesced: set<Key>,
    reading: map<Key, Read>,
    unverified: set<Key>,
    pass: Pass)

  function GetOr<V>(m: map<Key, V>, k: Key, default: V): V {
    if k in m then m[k] else default
  }

  function SlotAt(s: Store, k: Key): Slot {
    Slot(
      Get(s.entries, k), Get(s.host, k), Get(s.mirror, k), GetOr(s.queues, k, []),
      GetOr(s.running, k, Idle), k in s.coalesced, GetOr(s.reading, k, NotReading), k in s.unverified)
  }

  // ----- what a step does to its key

  function Enqueue(s: Slot, task: Task): Slot {
    s.(queue := s.queue + [task])
  }

  function Finish(s: Slot): Slot
    requires s.queue != []
  {
    s.(queue := s.queue[1..], running := Idle)
  }

  /** The queued task goes on after its `writeHost` answered true. */
  function Written(s: Slot): Slot
    requires s.queue != []
  {
    if s.queue[0].CreateTask? then s.(running := Indexing) else Finish(s)
  }

  /** `writeHost` up to its first await. */
  function WriteHost(s: Slot): Slot
    requires s.queue != []
  {
    if s.entry.Some? && s.entry.value.pendingWrite
    then s.(running := Writing(s.entry.value.record, false))
    else Written(s)
  }

  function Commit(s: Slot, next: Record, critical: bool): Slot
    requires s.queue != [] && s.entry.Some?
  {
    var t := s.(entry := Some(s.entry.value.(record := next, pendingWrite := true)), unverified := false);
    if critical then WriteHost(t.(coalesced := false)) else Finish(t.(coalesced := true))
  }

  function Observe(s: Slot, reduced: Record): Slot
    requires s.queue != []
  {
    if s.entry.None? then Finish(s)
    else
      var record := s.entry.value.record;
      if WitnessOnly(record, reduced) then Finish(s.(entry := Some(s.entry.value.(record := reduced))))
      else Commit(s, reduced.(rev := record.rev + 1), IsCritical(record.durable, reduced.durable))
  }

  function Flagged(record: Record, note: string): Record {
    record.(rev := record.rev + 1, witnesses := record.witnesses.(conflict := Some(note)))
  }

  function HandedOff(record: Record, handoff: string): Record {
    record.(rev := record.rev + 1, durable := record.durable.(handoff := Some(handoff)))
  }

  /** The merge of a host record a reconcile read, inside the key's queue. */
  function Merge(s: Slot, read: Record): Slot
    requires s.queue != []
  {
    if MergeLoads(s, read) then
      Finish(s.(entry := Some(Entry(read, false, false, false)), unverified := false))
    else
      var current := s.entry.value.(readError := false);
      if read.rev < current.record.rev then
        Finish(s.(entry := Some(current.(pendingWrite := true)), coalesced := true, unverified := false))
      else
        Finish(s.(entry := Some(current), unverified := false))
  }

  predicate MergeLoads(s: Slot, read: Record) {
    s.entry.None? || read.rev > s.entry.value.record.rev
  }

  /** The start of the task at the head of the queue, up to its first await. */
  function StartHead(s: Slot, reduced: Record): Slot
    requires s.queue != []
  {
    match s.queue[0]
    case WriteTask => WriteHost(s)
    case CreateTask => WriteHost(s)
    case ObserveTask => Observe(s, reduced)
    case FlagTask(note) =>
      if s.entry.Some? && s.entry.value.record.durable.kind == TopUp
      then Commit(s, Flagged(s.entry.value.record, note), false) else Finish(s)
    case HandoffTask(handoff) =>
      if s.entry.Some? && s.entry.value.record.durable.kind == TopUp
      then Commit(s, HandedOff(s.entry.value.record, handoff), false) else Finish(s)
    case RemoveTask => s.(coalesced := false, running := Clearing(false), unverified := true)
    case MergeTask(read) => Merge(s, read)
  }

  /** The start of the head changes a record, so it writes the mirror. */
  predicate StartCommits(s: Slot, reduced: Record)
    requires s.queue != []
  {
    && s.entry.Some?
    && match s.queue[0]
       case ObserveTask => !WitnessOnly(s.entry.value.record, reduced)
       case FlagTask(_) => s.entry.value.record.durable.kind == TopUp
       case HandoffTask(_) => s.entry.value.record.durable.kind == TopUp
       case _ => false
  }

  function HostTakes(s: Slot): Slot
    requires AwaitsHost(s)
  {
    match s.running
    case Writing(captured, _) => s.(host := Some(captured), running := Writing(captured, true))
    case Clearing(_) => s.(host := None, running := Clearing(true))
  }

  predicate AwaitsHost(s: Slot) {
    s.queue != [] && (s.running.Writing? || s.running.Clearing?)
  }

  /** The rest of `writeHost` or of `remove` once the host answered. A change that landed during
      the write would keep its own pending write. */
  function HostAnswered(s: Slot, ok: bool): Slot
    requires AwaitsHost(s)
  {
    match s.running
    case Writing(captured, _) =>
      if s.entry.None? then (if ok then Written(s) else Finish(s))
      else if ok then
        var e := s.entry.value.(persistError := false);
        Written(s.(entry := Some(if e.record == captured then e.(pendingWrite := false) else e),
                   unverified := s.unverified && e.record != captured))
      else Finish(s.(entry := Some(s.entry.value.(persistError := true))))
    case Clearing(_) =>
      if ok then s.(entry := None, running := Indexing, unverified := false) else Finish(s)
  }

  function BeginRead(s: Slot): Slot {
    if s.entry.Some? && Finished(s.entry.value.record.durable)
    then s.(coalesced := s.coalesced || s.entry.value.pendingWrite)
    else s.(read := Reading)
  }

  datatype ReadResult = Rejected | Unusable | Answered

  function ReadAnswered(s: Slot, result: ReadResult): Slot
    requires result != Rejected ==> s.read.Sampled?
  {
    var t := s.(read := NotReading);
    match result
    case Rejected =>
      if s.entry.None? then t else t.(entry := Some(s.entry.value.(readError := true)))
    case Unusable => t
    case Answered =>
      match s.read.host
      case Some(read) => Enqueue(t, MergeTask(read))
      case None =>
        if s.entry.None? then t
        else t.(entry := Some(s.entry.value.(pendingWrite := true)), coalesced := true, unverified := false)
  }

  function Reloaded(s: Slot): Slot {
    Slot(
      if s.mirror.Some? then Some(Entry(s.mirror.value, false, false, false)) else None,
      s.host, s.mirror, [], Idle, false, NotReading, s.mirror.Some?)
  }

  // ----- the steps of the store

  datatype Action =
    | CreateCall(key: Key, record: Record)
    | ObserveCall(key: Key)
    | FlagCall(key: Key, note: string)
    | HandoffCall(key: Key, handoff: string)
    | RemoveCall(key: Key)
    | TimerFires(key: Key)
    | FlushCall
    | HeadStarts(key: Key, reduced: Record)
    | HostApplies(key: Key)
    | HostAnswers(key: Key, ok: bool)
    | IndexAnswers(key: Key)
    | PassBegins
    | ReadBegins(key: Key)
    | ReadSamples(key: Key)
    | ReadAnswers(key: Key, result: ReadResult)
    | ReadsEnd
    | PassEnds
    | Reload

  /** When a step can happen. A create of a key that memory has throws instead; a pass waits for its
      reads before it acts and for its removals before it ends. */
  ghost predicate Enabled(s: Store, a: Action) {
    match a
    case CreateCall(key, _) => key !in s.entries
    case TimerFires(key) => key in s.coalesced
    case HeadStarts(key, reduced) =>
      var slot := SlotAt(s, key);
      && slot.queue != [] && slot.running.Idle?
      && (slot.entry.Some? ==> reduced.rev == slot.entry.value.record.rev)
    case HostApplies(key) =>
      AwaitsHost(SlotAt(s, key)) && !SlotAt(s, key).running.landed
    case HostAnswers(key, ok) =>
      AwaitsHost(SlotAt(s, key)) && (ok ==> SlotAt(s, key).running.landed)
    case IndexAnswers(key) => SlotAt(s, key).running.Indexing? && SlotAt(s, key).queue != []
    case PassBegins => s.pass.NoPass?
    case ReadBegins(key) => s.pass.ReadsRun? && SlotAt(s, key).read.NotReading?
    case ReadSamples(key) => SlotAt(s, key).read.Reading?
    case ReadAnswers(key, result) => CanAnswer(SlotAt(s, key).read, result)
    case ReadsEnd => s.pass.ReadsRun? && forall k :: ReadsDone(SlotAt(s, k))
    case PassEnds => s.pass.ActsRun? && forall k :: RemoveTask !in SlotAt(s, k).queue
    case _ => true
  }

  /** `copy` is not ahead of the record, and at the record's own rev it is that record. */
  predicate NotAhead(copy: Option<Record>, record: Record) {
    copy.Some? ==>
      copy.value.rev <= record.rev && (copy.value.rev == record.rev ==> copy.value.durable == record.durable)
  }

  /** The page's own rules on top of that: a created record is not behind what the host holds under its
      key, which for a fresh key is nothing; and only a pass that is past its reads removes, each record
      once. */
  predicate Ruled(s: Store, a: Action) {
    match a
    case CreateCall(key, record) => NotAhead(Get(s.host, key), record)
    case RemoveCall(key) => s.pass.ActsRun? && key in s.entries && RemoveTask !in GetOr(s.queues, key, [])
    case _ => true
  }

  /** What `Enabled` says of the step's own key. */
  predicate Can(s: Slot, a: Action) {
    match a
    case CreateCall(_, _) => s.entry.None?
    case TimerFires(_) => s.coalesced
    case HeadStarts(_, reduced) =>
      s.queue != [] && s.running.Idle? && (s.entry.Some? ==> reduced.rev == s.entry.value.record.rev)
    case HostApplies(_) => AwaitsHost(s) && !s.running.landed
    case HostAnswers(_, ok) => AwaitsHost(s) && (ok ==> s.running.landed)
    case IndexAnswers(_) => s.running.Indexing? && s.queue != []
    case ReadBegins(_) => s.read.NotReading?
    case ReadSamples(_) => s.read.Reading?
    case ReadAnswers(_, result) => CanAnswer(s.read, result)
    case _ => true
  }

  lemma EnabledCan(s: Store, a: Action, k: Key)
    requires Enabled(s, a) && ActsOn(a, k)
    ensures Can(SlotAt(s, k), a)
  {
  }

  predicate CanAnswer(read: Read, result: ReadResult) {
    match result
    case Rejected => !read.NotReading?
    case Unusable => read.Sampled? && read.host.Some?
    case Answered => read.Sampled?
  }

  ghost predicate ReadsDone(s: Slot) {
    s.read.NotReading? && forall i | 0 <= i < |s.queue| :: !s.queue[i].MergeTask?
  }

  function OwnStep(s: Slot, a: Action): Slot {
    match a
    case CreateCall(_, record) =>
      Enqueue(s.(entry := Some(Entry(record, true, false, false)), unverified := false), CreateTask)
    case ObserveCall(_) => if s.entry.None? then s else Enqueue(s, ObserveTask)
    case FlagCall(_, note) => if s.entry.None? then s else Enqueue(s, FlagTask(note))
    case HandoffCall(_, handoff) => if s.entry.None? then s else Enqueue(s, HandoffTask(handoff))
    case RemoveCall(_) => Enqueue(s, RemoveTask)
    case TimerFires(_) => Enqueue(s.(coalesced := false), WriteTask)
    case FlushCall => if s.coalesced then Enqueue(s.(coalesced := false), WriteTask) else s
    case HeadStarts(_, reduced) => if s.queue == [] then s else StartHead(s, reduced)
    case HostApplies(_) => if AwaitsHost(s) then HostTakes(s) else s
    case HostAnswers(_, ok) => if AwaitsHost(s) then HostAnswered(s, ok) else s
    case IndexAnswers(_) => if s.queue == [] then s else Finish(s)
    case ReadBegins(_) => BeginRead(s)
    case ReadSamples(_) => s.(read := Sampled(s.host))
    case ReadAnswers(_, result) => if result != Rejected && !s.read.Sampled? then s else ReadAnswered(s, result)
    case Reload => Reloaded(s)
    case PassBegins => s
    case ReadsEnd => s
    case PassEnds => s
  }

  predicate ActsOn(a: Action, k: Key) {
    a.FlushCall? || a.Reload? || (!a.PassBegins? && !a.ReadsEnd? && !a.PassEnds? && a.key == k)
  }

  function PassAfter(s: Store, a: Action): Pass {
    match a
    case PassBegins => ReadsRun(false)
    case ReadsEnd => ActsRun
    case PassEnds => NoPass
    case Reload => NoPass
    case HeadStarts(key, _) =>
      var slot := SlotAt(s, key);
      if s.pass.ReadsRun? && slot.queue != [] && slot.queue[0].MergeTask? && MergeLoads(slot, slot.queue[0].read)
      then ReadsRun(true) else s.pass
    case _ => s.pass
  }

  predicate WritesMirror(s: Store, a: Action) {
    match a
    case CreateCall(_, _) => true
    case HeadStarts(key, reduced) =>
      SlotAt(s, key).queue != [] && StartCommits(SlotAt(s, key), reduced)
    case HostAnswers(key, ok) => ok && SlotAt(s, key).running.Clearing?
    case ReadsEnd => s.pass.ReadsRun? && s.pass.changed
    case _ => false
  }

  function Moved(s: Store, a: Action, k: Key): Slot {
    if ActsOn(a, k) then OwnStep(SlotAt(s, k), a) else SlotAt(s, k)
  }

  /** The mirror rewritten with the keys of `kept`. */
  function Mirrored(s: Slot, kept: bool): Slot {
    s.(mirror := if s.entry.Some? && kept then Some(s.entry.value.record) else None)
  }

  /** `writeMirror` keeps every unfinished record, and of the finished ones as many as fit. */
  predicate MirrorKeeps(s: Slot, kept: bool) {
    s.entry.Some? && !Finished(s.entry.value.record.durable) ==> kept
  }

  function After(s: Store, a: Action, kept: set<Key>, k: Key): Slot {
    if WritesMirror(s, a) then Mirrored(Moved(s, a, k), k in kept) else Moved(s, a, k)
  }

  ghost predicate Next(s: Store, a: Action, kept: set<Key>, t: Store) {
    && Enabled(s, a)
    && t.pass == PassAfter(s, a)
    && (forall k :: SlotAt(t, k) == After(s, a, kept, k))
    && (forall k :: WritesMirror(s, a) ==> MirrorKeeps(Moved(s, a, k), k in kept))
  }
}
