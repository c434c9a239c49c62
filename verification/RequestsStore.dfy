/** The store's closure: its fields, updated in place, each method one step of the request store. */
module RequestsStore {
  import opened Wrappers
  import opened RequestRecord
  import opened RequestStore
  import opened RequestStoreSafety
  import opened RequestStoreRuns
  import RequestIndex
  import Mirror

  /** Memory's records in the order it lists them. */
  function ItemsOf(order: seq<Key>, entries: map<Key, Entry>): seq<Mirror.Item>
    requires forall k | k in order :: k in entries
  {
    seq(|order|, i requires 0 <= i < |order| && order[i] in entries
        => Mirror.Item(order[i], entries[order[i]].record))
  }

  lemma ItemsHold(order: seq<Key>, entries: map<Key, Entry>)
    requires forall k :: k in entries <==> k in order
    requires forall i, j | 0 <= i < j < |order| :: order[i] != order[j]
    ensures Covers(Mirror.Written(ItemsOf(order, entries)), entries)
  {
    var all := ItemsOf(order, entries);
    forall k | k in entries ensures Mirror.Item(k, entries[k].record) in all {
      var i :| 0 <= i < |order| && order[i] == k;
      assert all[i] == Mirror.Item(k, entries[k].record);
    }
    assert Mirror.Distinct(all);
    Mirror.WrittenHolds(all);
    var written := Mirror.Written(all);
    forall k | k in written ensures k in entries && written[k] == entries[k].record {
      var item :| item in all && item.key == k;
    }
    forall k | k in entries && !Finished(entries[k].record.durable) ensures k in written {
      assert Mirror.Item(k, entries[k].record) in all;
    }
  }

  /** What hydration leaves under one key. */
  function HydratedAt(entries: map<Key, Entry>, mirror: map<Key, Record>, k: Key): Option<Entry> {
    if k in entries then Some(entries[k])
    else if k in mirror && RequestIndex.ParseRefKey(k).Some? then Some(Entry(mirror[k], false, false, false))
    else None
  }

  lemma HydratedIsAtEach(entries: map<Key, Entry>, mirror: map<Key, Record>, after: map<Key, Entry>)
    requires forall k :: Get(after, k) == HydratedAt(entries, mirror, k)
    ensures after == Mirror.Hydrated(entries, mirror)
  {
    var hydrated := Mirror.Hydrated(entries, mirror);
    forall k ensures Get(hydrated, k) == HydratedAt(entries, mirror, k) {
    }
    forall k ensures k in after <==> k in hydrated {
      assert Get(after, k) == Get(hydrated, k);
    }
    forall k | k in after ensures after[k] == hydrated[k] {
      assert Get(after, k) == Get(hydrated, k);
    }
  }

  /** The mirror holds memory's own records, and every unfinished one. */
  ghost predicate Covers(mirror: map<Key, Record>, entries: map<Key, Entry>) {
    && (forall k | k in mirror :: k in entries && mirror[k] == entries[k].record)
    && (forall k | k in entries && !Finished(entries[k].record.durable) :: k in mirror)
  }

  /** From `s` to `t`, key `key` became `moved` and no other key changed. */
  ghost predicate Only(s: Store, t: Store, key: Key, moved: Slot) {
    && SlotAt(t, key) == moved
    && forall k | k != key :: SlotAt(t, k) == SlotAt(s, k)
  }

  /** The same, and the mirror was rewritten. */
  ghost predicate OnlyMirrored(s: Store, t: Store, key: Key, moved: Slot, kept: set<Key>) {
    && SlotAt(t, key) == Mirrored(moved, key in kept)
    && MirrorKeeps(moved, key in kept)
    && forall k | k != key ::
         SlotAt(t, k) == Mirrored(SlotAt(s, k), k in kept) && MirrorKeeps(SlotAt(s, k), k in kept)
  }

  lemma MirrorFollows(s: Store, t: Store, key: Key, moved: Slot)
    requires Covers(t.mirror, t.entries)
    requires Only(s, t.(mirror := s.mirror), key, moved)
    ensures OnlyMirrored(s, t, key, moved, t.mirror.Keys)
  {
    var unwritten := t.(mirror := s.mirror);
    forall k
      ensures SlotAt(t, k) == Mirrored(SlotAt(unwritten, k), k in t.mirror)
      ensures MirrorKeeps(SlotAt(unwritten, k), k in t.mirror)
    {
    }
  }

  lemma OnlyThenOnly(s: Store, t: Store, u: Store, key: Key, moved: Slot, again: Slot)
    requires Only(s, t, key, moved) && Only(t, u, key, again)
    ensures Only(s, u, key, again)
  {
  }

  /** After the mirror was written, a change that leaves the entry alone leaves the mirror right. */
  lemma MirroredThenOnly(s: Store, t: Store, u: Store, key: Key, moved: Slot, again: Slot, kept: set<Key>)
    requires OnlyMirrored(s, t, key, moved, kept) && again.entry == moved.entry
    requires Only(t, u, key, Mirrored(again, key in kept))
    ensures OnlyMirrored(s, u, key, again, kept)
  {
  }

  lemma CommitMirrors(s: Slot, next: Record, critical: bool, kept: bool)
    requires s.queue != [] && s.entry.Some?
    ensures var t := Mirrored(Replaced(s, next), kept).(coalesced := !critical);
            Mirrored(Commit(s, next, critical), kept) == if critical then WriteHost(t) else Finish(t)
    ensures Commit(s, next, critical).entry == Replaced(s, next).entry
  {
  }

  function Added(s: Slot, record: Record): Slot {
    s.(entry := Some(Entry(record, true, false, false)), unverified := false)
  }

  function Replaced(s: Slot, next: Record): Slot
    requires s.entry.Some?
  {
    s.(entry := Some(s.entry.value.(record := next, pendingWrite := true)), unverified := false)
  }

  /** A merge up to the end of its task. */
  function Merged(s: Slot, read: Record): Slot {
    if MergeLoads(s, read) then s.(entry := Some(Entry(read, false, false, false)), unverified := false)
    else
      var current := s.entry.value.(readError := false);
      if read.rev < current.record.rev
      then s.(entry := Some(current.(pendingWrite := true)), coalesced := true, unverified := false)
      else s.(entry := Some(current), unverified := false)
  }

  lemma MergeEnds(s: Slot, read: Record)
    requires s.queue != []
    ensures Merge(s, read) == Finish(Merged(s, read))
  {
  }

  lemma TookOnly(s: Store, a: Action, kept: set<Key>, t: Store)
    requires Enabled(s, a) && t.pass == PassAfter(s, a)
    requires !a.FlushCall? && !a.Reload? && !a.PassBegins? && !a.ReadsEnd? && !a.PassEnds?
    requires var moved := OwnStep(SlotAt(s, a.key), a);
             if WritesMirror(s, a) then OnlyMirrored(s, t, a.key, moved, kept) else Only(s, t, a.key, moved)
    ensures Next(s, a, kept, t)
  {
  }

  /** The task at the head of `key` was started. */
  ghost predicate HeadStarted(s: Store, t: Store, key: Key, reduced: Record, kept: set<Key>) {
    var was := SlotAt(s, key);
    && was.queue != []
    && if StartCommits(was, reduced) then OnlyMirrored(s, t, key, StartHead(was, reduced), kept)
       else Only(s, t, key, StartHead(was, reduced))
  }

  /** An observation of a change the host must hear of has its write out. */
  lemma ObserveWrites(s: Store, t: Store, key: Key, reduced: Record, kept: set<Key>)
    requires HeadStarted(s, t, key, reduced, kept) && SlotAt(s, key).queue[0].ObserveTask?
    ensures key in s.entries && MustBeStored(s.entries[key].record.durable, reduced.durable) ==>
              && SlotAt(t, key).running == Writing(reduced.(rev := s.entries[key].record.rev + 1), false)
              && key !in t.coalesced
  {
    if key in s.entries {
      CriticalIff(s.entries[key].record.durable, reduced.durable);
      assert SlotAt(t, key).coalesced == (key in t.coalesced);
    }
  }

  lemma HeadTook(s: Store, t: Store, key: Key, reduced: Record, kept: set<Key>)
    requires Enabled(s, HeadStarts(key, reduced)) && t.pass == PassAfter(s, HeadStarts(key, reduced))
    requires HeadStarted(s, t, key, reduced, kept)
    ensures Next(s, HeadStarts(key, reduced), kept, t)
  {
    assert OwnStep(SlotAt(s, key), HeadStarts(key, reduced)) == StartHead(SlotAt(s, key), reduced);
    TookOnly(s, HeadStarts(key, reduced), kept, t);
  }

  lemma ReadsEnded(s: Store, mirrored: Store, t: Store)
    requires Enabled(s, ReadsEnd) && t == mirrored.(pass := ActsRun)
    requires if s.pass.changed then OnlyMirrored(s, mirrored, "", SlotAt(s, ""), t.mirror.Keys) else mirrored == s
    ensures Next(s, ReadsEnd, t.mirror.Keys, t)
  {
    forall k
      ensures SlotAt(t, k) == After(s, ReadsEnd, t.mirror.Keys, k)
      ensures WritesMirror(s, ReadsEnd) ==> MirrorKeeps(Moved(s, ReadsEnd, k), k in t.mirror.Keys)
    {
      assert SlotAt(t, k) == SlotAt(mirrored, k);
    }
  }

  lemma ReadTook(s: Store, taken: Store, t: Store, key: Key, result: ReadResult, kept: set<Key>)
    requires Enabled(s, ReadAnswers(key, result)) && taken == s.(reading := s.reading[key := NotReading])
    requires t.pass == s.pass && Only(taken, t, key, ReadAnswered(SlotAt(s, key), result))
    ensures Next(s, ReadAnswers(key, result), kept, t)
  {
    assert Only(s, taken, key, SlotAt(s, key).(read := NotReading));
    OnlyThenOnly(s, taken, t, key, SlotAt(taken, key), ReadAnswered(SlotAt(s, key), result));
    TookOnly(s, ReadAnswers(key, result), kept, t);
  }

  /** What of a mirror hydration can read: the records under keys of requests. */
  function Readable(mirror: map<Key, Record>): map<Key, Record> {
    map k | k in mirror && RequestIndex.ParseRefKey(k).Some? :: mirror[k]
  }

  /** A fresh closure over the host and the mirror, hydrated: what a reload starts from. A key of the
      mirror that is not one of a request is skipped. */
  method OpenPage(host: map<Key, Record>, mirror: map<Key, Record>) returns (store: RequestsStore)
    ensures fresh(store) && store.OrderFits()
    ensures store.Now() == Boot(host, Readable(mirror)).(mirror := mirror)
    ensures store.Valid()
            <==> forall k | k in mirror :: RequestIndex.ParseRefKey(k).Some? && NotAhead(Get(host, k), mirror[k])
  {
    store := new RequestsStore(host, mirror);
    store.HydrateFromMirror();
    assert store.entries == Boot(host, Readable(mirror)).entries;
    assert store.unverified == Readable(mirror).Keys;
    HydratedIsSafeIff(host, mirror);
  }

  /** Hydration leaves a safe store exactly when it read the whole mirror and none of it is behind the
      host: a record it skipped is in the mirror and not in memory. */
  lemma HydratedIsSafeIff(host: map<Key, Record>, mirror: map<Key, Record>)
    ensures Inv(Boot(host, Readable(mirror)).(mirror := mirror))
            <==> forall k | k in mirror :: RequestIndex.ParseRefKey(k).Some? && NotAhead(Get(host, k), mirror[k])
  {
    var s := Boot(host, Readable(mirror)).(mirror := mirror);
    if forall k | k in mirror :: RequestIndex.ParseRefKey(k).Some? {
      assert Readable(mirror) == mirror;
      BootIsSafeIff(host, mirror);
    } else {
      var k :| k in mirror && RequestIndex.ParseRefKey(k).None?;
      assert !SlotInv(SlotAt(s, k), s.pass);
    }
  }

  class RequestsStore {
    var entries: map<Key, Entry>
    /** The order memory lists its keys in. */
    var order: seq<Key>
    var queues: map<Key, seq<Task>>
    var running: map<Key, Running>
    var coalesced: set<Key>
    var reading: map<Key, Read>
    var pass: Pass
    /** Outside the page: the Web Storage mirror, and the host's store of records. */
    var mirror: map<Key, Record>
    var host: map<Key, Record>
    ghost var unverified: set<Key>

    ghost function Now(): Store
      reads this
    {
      Store(entries, host, mirror, queues, running, coalesced, reading, unverified, pass)
    }

    ghost predicate OrderFits()
      reads this`entries, this`order
    {
      && (forall k :: k in entries <==> k in order)
      && (forall i, j | 0 <= i < j < |order| :: order[i] != order[j])
    }

    ghost predicate Valid()
      reads this
    {
      OrderFits() && Inv(Now())
    }

    function Items(): seq<Mirror.Item>
      reads this`entries, this`order
      requires forall k | k in order :: k in entries
    {
      ItemsOf(order, entries)
    }

    constructor (host: map<Key, Record>, mirror: map<Key, Record>)
      ensures entries == map[] && order == [] && this.host == host && this.mirror == mirror
      ensures unverified == {} && queues == map[] && running == map[]
      ensures coalesced == {} && reading == map[] && pass == NoPass
    {
      entries, order, queues, running, coalesced, reading := map[], [], map[], map[], {}, map[];
      pass, this.mirror, this.host, unverified := NoPass, mirror, host, {};
    }

    /** Reads the mirror into memory; an entry already there is left alone. */
    method HydrateFromMirror()
      requires OrderFits()
      modifies this`entries, this`order, this`unverified
      ensures OrderFits() && entries == Mirror.Hydrated(old(entries), mirror)
      ensures forall k :: k in unverified <==> k in old(unverified) || (k in entries && k !in old(entries))
    {
      var left := mirror.Keys;
      while left != {}
        invariant OrderFits() && left <= mirror.Keys
        invariant forall k ::
                    Get(entries, k) == if k in left then Get(old(entries), k) else HydratedAt(old(entries), mirror, k)
        invariant forall k :: k in unverified <==> k in old(unverified) || (k in entries && k !in old(entries))
        decreases left
      {
        var key :| key in left;
        HydrateOne(key);
        left := left - {key};
      }
      HydratedIsAtEach(old(entries), mirror, entries);
    }

    method HydrateOne(key: Key)
      requires OrderFits() && key in mirror
      modifies this`entries, this`order, this`unverified
      ensures OrderFits()
      ensures if key !in old(entries) && RequestIndex.ParseRefKey(key).Some?
              then entries == old(entries)[key := Entry(mirror[key], false, false, false)]
                   && unverified == old(unverified) + {key}
              else entries == old(entries) && unverified == old(unverified)
    {
      if key !in entries && RequestIndex.ParseRefKey(key).Some? {
        SetEntry(key, Entry(mirror[key], false, false, false));
        unverified := unverified + {key};
      }
    }

    // ----- the pieces a step is made of

    function QueueOf(key: Key): seq<Task>
      reads this`queues
    {
      GetOr(queues, key, [])
    }

    method SetEntry(key: Key, entry: Entry)
      requires OrderFits()
      modifies this`entries, this`order
      ensures OrderFits() && entries == old(entries)[key := entry]
    {
      if key !in entries {
        order := order + [key];
      }
      entries := entries[key := entry];
    }

    method DropEntry(key: Key)
      requires OrderFits()
      modifies this`entries, this`order
      ensures OrderFits() && entries == old(entries) - {key}
    {
      if i :| 0 <= i < |order| && order[i] == key {
        order := order[..i] + order[i + 1..];
        assert forall k :: k in old(order) && k != key <==> k in order;
      }
      entries := entries - {key};
    }

    method PushTask(key: Key, task: Task)
      modifies this`queues
      ensures Only(old(Now()), Now(), key, Enqueue(SlotAt(old(Now()), key), task))
    {
      queues := queues[key := QueueOf(key) + [task]];
    }

    method FinishTask(key: Key)
      requires QueueOf(key) != []
      modifies this`queues, this`running
      ensures Only(old(Now()), Now(), key, Finish(SlotAt(old(Now()), key)))
    {
      queues := queues[key := queues[key][1..]];
      running := running[key := Idle];
    }

    /** The task goes on after its host write answered, or needed no write. */
    method WriteDone(key: Key)
      requires QueueOf(key) != []
      modifies this`queues, this`running
      ensures Only(old(Now()), Now(), key, Written(SlotAt(old(Now()), key)))
    {
      if queues[key][0].CreateTask? {
        running := running[key := Indexing];
      } else {
        FinishTask(key);
      }
    }

    method BeginWriteHost(key: Key)
      requires QueueOf(key) != []
      modifies this`queues, this`running
      ensures Only(old(Now()), Now(), key, WriteHost(SlotAt(old(Now()), key)))
    {
      if key !in entries || !entries[key].pendingWrite {
        WriteDone(key);
      } else {
        running := running[key := Writing(entries[key].record, false)];
      }
    }

    method KeptRecords() returns (kept: map<Key, Record>)
      requires OrderFits()
      ensures kept == Mirror.Written(Items()) && Covers(kept, entries)
    {
      kept := Mirror.WriteMirror(Items());
      ItemsHold(order, entries);
    }

    method WriteMirror()
      requires OrderFits()
      modifies this`mirror
      ensures Covers(mirror, entries)
    {
      mirror := KeptRecords();
    }

    /** The record of one key and the mirror, as far as `commit` replaces them at once. */
    method Replace(key: Key, next: Record)
      requires OrderFits() && key in entries
      modifies this`entries, this`order, this`mirror, this`unverified
      ensures OrderFits() && key in entries
      ensures OnlyMirrored(old(Now()), Now(), key, Replaced(SlotAt(old(Now()), key), next), mirror.Keys)
    {
      SetEntry(key, entries[key].(record := next, pendingWrite := true));
      unverified := unverified - {key};
      WriteMirror();
      MirrorFollows(old(Now()), Now(), key, Replaced(SlotAt(old(Now()), key), next));
    }

    method CommitChange(key: Key, next: Record, critical: bool)
      requires OrderFits() && key in entries && QueueOf(key) != []
      modifies this`entries, this`order, this`mirror, this`queues, this`running, this`coalesced, this`unverified
      ensures OrderFits()
      ensures OnlyMirrored(old(Now()), Now(), key, Commit(SlotAt(old(Now()), key), next, critical), mirror.Keys)
    {
      Replace(key, next);
      ghost var replaced := Now();
      coalesced := if critical then coalesced - {key} else coalesced + {key};
      ghost var timed := Now();
      if critical {
        BeginWriteHost(key);
      } else {
        FinishTask(key);
      }
      CommitMirrors(SlotAt(old(Now()), key), next, critical, key in mirror.Keys);
      MirroredThenOnly(old(Now()), replaced, Now(), key, Replaced(SlotAt(old(Now()), key), next),
                       Commit(SlotAt(old(Now()), key), next, critical), mirror.Keys);
    }

    // ----- the steps

    /** The step that brought the store from `before` to where it is now is `a`. */
    ghost predicate Took(before: Store, a: Action)
      reads this
    {
      OrderFits() && Next(before, a, mirror.Keys, Now())
    }

    /** Every step below that follows the page's rules keeps the store's invariant. */
    twostate lemma TookKeepsValid(a: Action)
      requires old(Valid()) && Took(old(Now()), a) && Ruled(old(Now()), a)
      ensures Valid()
    {
      NextKeepsInv(old(Now()), a, mirror.Keys, Now());
    }

    method Create(key: Key, record: Record) returns (ok: bool)
      requires OrderFits()
      modifies this`entries, this`order, this`mirror, this`queues, this`unverified
      ensures ok == (key !in old(entries))
      ensures OrderFits() && if ok then Took(old(Now()), CreateCall(key, record)) else Now() == old(Now())
    {
      if key in entries {
        return false;
      }
      Add(key, record);
      ghost var added := Now();
      PushTask(key, CreateTask);
      MirroredThenOnly(old(Now()), added, Now(), key, Added(SlotAt(old(Now()), key), record),
                       Enqueue(Added(SlotAt(old(Now()), key), record), CreateTask), mirror.Keys);
      TookOnly(old(Now()), CreateCall(key, record), mirror.Keys, Now());
      ok := true;
    }

    method Add(key: Key, record: Record)
      requires OrderFits() && key !in entries
      modifies this`entries, this`order, this`mirror, this`unverified
      ensures OrderFits()
      ensures OnlyMirrored(old(Now()), Now(), key, Added(SlotAt(old(Now()), key), record), mirror.Keys)
    {
      SetEntry(key, Entry(record, true, false, false));
      unverified := unverified - {key};
      WriteMirror();
      MirrorFollows(old(Now()), Now(), key, Added(SlotAt(old(Now()), key), record));
    }

    /** An observation, a flag or a hand-off of a key with no record is dropped at once. */
    method Observe(key: Key)
      requires OrderFits()
      modifies this`queues
      ensures Took(old(Now()), ObserveCall(key))
    {
      if key in entries {
        PushTask(key, ObserveTask);
      }
      TookOnly(old(Now()), ObserveCall(key), mirror.Keys, Now());
    }

    method Flag(key: Key, note: string)
      requires OrderFits()
      modifies this`queues
      ensures Took(old(Now()), FlagCall(key, note))
    {
      if key in entries {
        PushTask(key, FlagTask(note));
      }
      TookOnly(old(Now()), FlagCall(key, note), mirror.Keys, Now());
    }

    method SetHandoff(key: Key, handoff: string)
      requires OrderFits()
      modifies this`queues
      ensures Took(old(Now()), HandoffCall(key, handoff))
    {
      if key in entries {
        PushTask(key, HandoffTask(handoff));
      }
      TookOnly(old(Now()), HandoffCall(key, handoff), mirror.Keys, Now());
    }

    method Remove(key: Key)
      requires OrderFits()
      modifies this`queues
      ensures Took(old(Now()), RemoveCall(key))
    {
      PushTask(key, RemoveTask);
      TookOnly(old(Now()), RemoveCall(key), mirror.Keys, Now());
    }

    method TimerFires(key: Key)
      requires OrderFits() && key in coalesced
      modifies this`queues, this`coalesced
      ensures Took(old(Now()), RequestStore.TimerFires(key))
    {
      coalesced := coalesced - {key};
      PushTask(key, WriteTask);
      TookOnly(old(Now()), RequestStore.TimerFires(key), mirror.Keys, Now());
    }

    method Flush()
      requires OrderFits()
      modifies this`queues, this`coalesced
      ensures Took(old(Now()), FlushCall)
    {
      var keys := coalesced;
      coalesced := {};
      ghost var cancelled := Now();
      var left := keys;
      while left != {}
        invariant left <= keys
        invariant Now() == cancelled.(queues := queues)
        invariant forall k :: SlotAt(Now(), k)
                              == if k in keys && k !in left then Enqueue(SlotAt(cancelled, k), WriteTask)
                                                  else SlotAt(cancelled, k)
        decreases |left|
      {
        var key :| key in left;
        PushTask(key, WriteTask);
        left := left - {key};
      }
    }

    method RunObserve(key: Key, reduced: Record)
      requires OrderFits() && QueueOf(key) != [] && QueueOf(key)[0].ObserveTask?
      modifies this`entries, this`order, this`mirror, this`queues, this`running, this`coalesced, this`unverified
      ensures OrderFits() && HeadStarted(old(Now()), Now(), key, reduced, mirror.Keys)
      ensures key in old(entries) && MustBeStored(old(entries[key].record.durable), reduced.durable) ==>
                var next := reduced.(rev := old(entries[key].record.rev) + 1);
                SlotAt(Now(), key).running == Writing(next, false) && key !in coalesced
    {
      ghost var before := Now();
      TakeReduced(key, reduced);
      ObserveWrites(before, Now(), key, reduced, mirror.Keys);
    }

    /** What is done with what the reducer made of the record. */
    method TakeReduced(key: Key, reduced: Record)
      requires OrderFits() && QueueOf(key) != [] && QueueOf(key)[0].ObserveTask?
      modifies this`entries, this`order, this`mirror, this`queues, this`running, this`coalesced, this`unverified
      ensures OrderFits() && HeadStarted(old(Now()), Now(), key, reduced, mirror.Keys)
    {
      if key !in entries {
        FinishTask(key);
      } else if WitnessOnly(entries[key].record, reduced) {
        SetEntry(key, entries[key].(record := reduced));
        FinishTask(key);
      } else {
        var record := entries[key].record;
        CommitChange(key, reduced.(rev := record.rev + 1), IsCritical(record.durable, reduced.durable));
      }
    }

    method RunMerge(key: Key, read: Record)
      requires OrderFits() && QueueOf(key) != []
      modifies this`entries, this`order, this`queues, this`running, this`coalesced, this`unverified, this`pass
      ensures OrderFits()
      ensures Only(old(Now()), Now(), key, Merge(SlotAt(old(Now()), key), read))
      ensures pass
              == if old(pass).ReadsRun? && MergeLoads(SlotAt(old(Now()), key), read) then ReadsRun(true) else old(pass)
    {
      PatchMerged(key, read);
      ghost var merged := Now();
      FinishTask(key);
      MergeEnds(SlotAt(old(Now()), key), read);
      OnlyThenOnly(old(Now()), merged, Now(), key, SlotAt(merged, key), Merge(SlotAt(old(Now()), key), read));
    }

    method PatchMerged(key: Key, read: Record)
      requires OrderFits()
      modifies this`entries, this`order, this`coalesced, this`unverified, this`pass
      ensures OrderFits() && Only(old(Now()), Now(), key, Merged(SlotAt(old(Now()), key), read))
      ensures pass
              == if old(pass).ReadsRun? && MergeLoads(SlotAt(old(Now()), key), read) then ReadsRun(true) else old(pass)
    {
      if key !in entries || read.rev > entries[key].record.rev {
        SetEntry(key, Entry(read, false, false, false));
        pass := if pass.ReadsRun? then ReadsRun(true) else pass;
      } else if read.rev < entries[key].record.rev {
        SetEntry(key, entries[key].(readError := false, pendingWrite := true));
        coalesced := coalesced + {key};
      } else {
        SetEntry(key, entries[key].(readError := false));
      }
      unverified := unverified - {key};
    }

    /** A flag or a hand-off: for a top-up only. */
    method RunNote(key: Key, ghost reduced: Record)
      requires OrderFits() && QueueOf(key) != [] && (QueueOf(key)[0].FlagTask? || QueueOf(key)[0].HandoffTask?)
      modifies this`entries, this`order, this`mirror, this`queues, this`running, this`coalesced, this`unverified
      ensures OrderFits()
      ensures HeadStarted(old(Now()), Now(), key, reduced, mirror.Keys)
    {
      if key !in entries || entries[key].record.durable.kind != TopUp {
        FinishTask(key);
      } else if queues[key][0].FlagTask? {
        CommitChange(key, Flagged(entries[key].record, queues[key][0].note), false);
      } else {
        CommitChange(key, HandedOff(entries[key].record, queues[key][0].handoff), false);
      }
    }

    /** The start of the task at the head of a key's queue; `reduced` is what the reducer makes of
        the record, for an observation. */
    method RunHead(key: Key, reduced: Record)
      requires OrderFits() && Enabled(Now(), HeadStarts(key, reduced))
      modifies this
      ensures Took(old(Now()), HeadStarts(key, reduced)) && host == old(host)
    {
      match queues[key][0] {
        case WriteTask => RunWrite(key, reduced);
        case CreateTask => RunWrite(key, reduced);
        case ObserveTask => RunObserve(key, reduced);
        case FlagTask(_) => RunNote(key, reduced);
        case HandoffTask(_) => RunNote(key, reduced);
        case MergeTask(read) => RunMerge(key, read);
        case RemoveTask => RunRemove(key, reduced);
      }
      HeadTook(old(Now()), Now(), key, reduced, mirror.Keys);
    }

    method RunWrite(key: Key, ghost reduced: Record)
      requires OrderFits() && QueueOf(key) != [] && WritesHost(QueueOf(key)[0])
      modifies this`queues, this`running
      ensures HeadStarted(old(Now()), Now(), key, reduced, mirror.Keys)
    {
      BeginWriteHost(key);
    }

    method RunRemove(key: Key, ghost reduced: Record)
      requires OrderFits() && QueueOf(key) != [] && QueueOf(key)[0].RemoveTask?
      modifies this`coalesced, this`running, this`unverified
      ensures HeadStarted(old(Now()), Now(), key, reduced, mirror.Keys)
    {
      coalesced := coalesced - {key};
      running := running[key := Clearing(false)];
      unverified := unverified + {key};
    }

    /** The host takes the write or the clear that is out; the answer may still be lost. */
    method HostApplies(key: Key)
      requires OrderFits() && Enabled(Now(), RequestStore.HostApplies(key))
      modifies this`host, this`running
      ensures Took(old(Now()), RequestStore.HostApplies(key))
    {
      match running[key] {
        case Writing(captured, _) =>
          host := host[key := captured];
          running := running[key := Writing(captured, true)];
        case Clearing(_) =>
          host := host - {key};
          running := running[key := Clearing(true)];
      }
      TookOnly(old(Now()), RequestStore.HostApplies(key), mirror.Keys, Now());
    }

    /** The rest of `writeHost` once its write answered. */
    method WriteAnswers(key: Key, ok: bool)
      requires OrderFits() && Enabled(Now(), HostAnswers(key, ok)) && SlotAt(Now(), key).running.Writing?
      modifies this`entries, this`order, this`queues, this`running, this`unverified
      ensures Took(old(Now()), HostAnswers(key, ok))
    {
      ghost var patched := PatchAnswered(key, ok);
      if ok {
        WriteDone(key);
      } else {
        FinishTask(key);
      }
      OnlyThenOnly(old(Now()), patched, Now(), key, SlotAt(patched, key), HostAnswered(SlotAt(old(Now()), key), ok));
      TookOnly(old(Now()), HostAnswers(key, ok), mirror.Keys, Now());
    }

    method PatchAnswered(key: Key, ok: bool) returns (ghost patched: Store)
      requires OrderFits() && SlotAt(Now(), key).running.Writing? && QueueOf(key) != []
      modifies this`entries, this`order, this`unverified
      ensures OrderFits() && patched == Now()
      ensures Only(old(Now()), Now(), key, SlotAt(Now(), key))
      ensures HostAnswered(SlotAt(old(Now()), key), ok)
              == if ok then Written(SlotAt(Now(), key)) else Finish(SlotAt(Now(), key))
    {
      var captured := running[key].captured;
      if key in entries {
        if !ok {
          SetEntry(key, entries[key].(persistError := true));
        } else {
          var written := entries[key].(persistError := false);
          if written.record == captured {
            written := written.(pendingWrite := false);
            unverified := unverified - {key};
          }
          SetEntry(key, written);
        }
      }
      patched := Now();
    }

    /** The rest of `remove` once its clear answered, up to the index change. */
    method ClearAnswers(key: Key, ok: bool)
      requires OrderFits() && Enabled(Now(), HostAnswers(key, ok)) && SlotAt(Now(), key).running.Clearing?
      modifies this`entries, this`order, this`queues, this`running, this`unverified, this`mirror
      ensures Took(old(Now()), HostAnswers(key, ok))
    {
      if ok {
        DropCleared(key);
      } else {
        FinishTask(key);
      }
      TookOnly(old(Now()), HostAnswers(key, ok), mirror.Keys, Now());
    }

    method DropCleared(key: Key)
      requires OrderFits()
      modifies this`entries, this`order, this`running, this`unverified, this`mirror
      ensures OrderFits()
      ensures var was := SlotAt(old(Now()), key);
              OnlyMirrored(old(Now()), Now(), key,
                           was.(entry := None, running := Indexing, unverified := false), mirror.Keys)
    {
      DropEntry(key);
      unverified := unverified - {key};
      running := running[key := Indexing];
      WriteMirror();
      MirrorFollows(old(Now()), Now(), key,
                    SlotAt(old(Now()), key).(entry := None, running := Indexing, unverified := false));
    }

    method IndexAnswers(key: Key)
      requires OrderFits() && Enabled(Now(), RequestStore.IndexAnswers(key))
      modifies this`queues, this`running
      ensures Took(old(Now()), RequestStore.IndexAnswers(key))
    {
      FinishTask(key);
      TookOnly(old(Now()), RequestStore.IndexAnswers(key), mirror.Keys, Now());
    }

    // ----- a reconcile pass

    method BeginPass()
      requires OrderFits() && Enabled(Now(), PassBegins)
      modifies this`pass
      ensures Took(old(Now()), PassBegins)
    {
      pass := ReadsRun(false);
    }

    method BeginReadOne(key: Key)
      requires OrderFits() && Enabled(Now(), ReadBegins(key))
      modifies this`reading, this`coalesced
      ensures Took(old(Now()), ReadBegins(key))
    {
      if key in entries && Finished(entries[key].record.durable) {
        if entries[key].pendingWrite {
          coalesced := coalesced + {key};
        }
      } else {
        reading := reading[key := Reading];
      }
      TookOnly(old(Now()), ReadBegins(key), mirror.Keys, Now());
    }

    method HostIsRead(key: Key)
      requires OrderFits() && Enabled(Now(), ReadSamples(key))
      modifies this`reading
      ensures Took(old(Now()), ReadSamples(key))
    {
      reading := reading[key := Sampled(Get(host, key))];
      TookOnly(old(Now()), ReadSamples(key), mirror.Keys, Now());
    }

    method ReadOneAnswers(key: Key, result: ReadResult)
      requires OrderFits() && Enabled(Now(), ReadAnswers(key, result))
      modifies this`entries, this`order, this`reading, this`queues, this`coalesced, this`unverified
      ensures Took(old(Now()), ReadAnswers(key, result))
    {
      var read := reading[key];
      reading := reading[key := NotReading];
      ghost var taken := Now();
      if result.Rejected? {
        NoteReadError(key);
      } else if result.Answered? {
        if read.host.Some? {
          PushTask(key, MergeTask(read.host.value));
        } else if key in entries {
          WriteBack(key);
        }
      }
      ReadTook(old(Now()), taken, Now(), key, result, mirror.Keys);
    }

    method NoteReadError(key: Key)
      requires OrderFits()
      modifies this`entries, this`order
      ensures OrderFits()
      ensures var was := SlotAt(old(Now()), key);
              Only(old(Now()), Now(), key,
                   if was.entry.None? then was else was.(entry := Some(was.entry.value.(readError := true))))
    {
      if key in entries {
        SetEntry(key, entries[key].(readError := true));
      }
    }

    /** The host lost the record, or never got it: memory's copy is to be written back. */
    method WriteBack(key: Key)
      requires OrderFits() && key in entries
      modifies this`entries, this`order, this`coalesced, this`unverified
      ensures OrderFits()
      ensures var was := SlotAt(old(Now()), key);
              Only(old(Now()), Now(), key,
                   was.(entry := Some(was.entry.value.(pendingWrite := true)), coalesced := true, unverified := false))
    {
      SetEntry(key, entries[key].(pendingWrite := true));
      coalesced := coalesced + {key};
      unverified := unverified - {key};
    }

    method EndReads()
      requires OrderFits() && Enabled(Now(), ReadsEnd)
      modifies this`pass, this`mirror
      ensures Took(old(Now()), ReadsEnd)
    {
      if pass.changed {
        WriteMirror();
        MirrorFollows(old(Now()), Now(), "", SlotAt(old(Now()), ""));
      }
      ghost var mirrored := Now();
      pass := ActsRun;
      ReadsEnded(old(Now()), mirrored, Now());
    }

    method EndPass()
      requires OrderFits() && Enabled(Now(), PassEnds)
      modifies this`pass
      ensures Took(old(Now()), PassEnds)
    {
      pass := NoPass;
    }
  }
}
