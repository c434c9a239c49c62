/** The stored index of open requests under its changes: creates and reconciles add refs, removals drop
    one, each behind the lock of the others as an update of one stored record. Any of them may fail. */
module IndexChanges {
  import opened Wrappers
  import opened RequestIndex
  import opened RecordMutation
  import opened StableSort

  /** The one key the index is stored under. */
  datatype IndexKey = IndexKey

  datatype Change = Add(refs: seq<Ref>) | Drop(ref: Ref)

  function Without(refs: seq<Ref>, ref: Ref): seq<Ref> {
    if refs == [] then []
    else
      var front, last := Without(refs[..|refs| - 1], ref), refs[|refs| - 1];
      if last == ref then front else front + [last]
  }

  function Changed(change: Change, current: seq<Ref>): seq<Ref> {
    match change
    case Add(refs) => current + refs
    case Drop(ref) => Without(current, ref)
  }

  function Held(stored: Option<Stored>): Stored {
    if stored.Some? then stored.value else Absent
  }

  /** What `mutateIndex` does behind its lock: read, change, write. */
  function UpdateOf(change: Change): Updater<Stored> {
    (current: Option<Stored>) => Update.Put(Serialized(Changed(change, Parsed(Held(current)))))
  }

  // ----- one change

  /** The ref listed under a key: the first one. */
  function Find(refs: seq<Ref>, key: string): Option<Ref> {
    if refs == [] then None
    else
      var front, last := Find(refs[..|refs| - 1], key), refs[|refs| - 1];
      if front.Some? then front else if RefKey(last) == key then Some(last) else None
  }

  function Readable(ref: Option<Ref>): Option<Ref> {
    if ref.Some? && ref.value.tradeN >= 1 then ref else None
  }

  /** What a change makes of the ref listed under a key: an add lists its first ref of the key where none
      was listed, and a drop takes the very ref it names away. */
  function Moved(change: Change, listed: Option<Ref>, key: string): Option<Ref> {
    match change
    case Add(refs) => if listed.Some? then listed else Readable(Find(refs, key))
    case Drop(ref) => if listed == Some(ref) then None else listed
  }

  lemma {:induction false} FindMeans(refs: seq<Ref>, key: string)
    ensures Find(refs, key).Some? ==> Find(refs, key).value in refs && RefKey(Find(refs, key).value) == key
    ensures Find(refs, key).None? <==> key !in Keys(refs)
  {
    if refs != [] {
      var front, last := refs[..|refs| - 1], refs[|refs| - 1];
      FindMeans(front, key);
      KeysOfAppend(front, last);
      assert refs == front + [last];
    }
  }

  /** Under distinct keys a ref is found exactly when it is listed. */
  lemma {:induction false} FindDistinct(refs: seq<Ref>, key: string, ref: Ref)
    requires DistinctKeys(refs)
    ensures Find(refs, key) == Some(ref) <==> ref in refs && RefKey(ref) == key
  {
    FindMeans(refs, key);
    if ref in refs && RefKey(ref) == key {
      var i :| 0 <= i < |refs| && refs[i] == ref;
      assert RefKey(refs[i]) in Keys(refs);
      var j :| 0 <= j < |refs| && refs[j] == Find(refs, key).value;
      assert i == j;
    }
  }

  lemma {:induction false} FindInBoth(a: seq<Ref>, b: seq<Ref>, key: string)
    ensures Find(a + b, key) == if Find(a, key).Some? then Find(a, key) else Find(b, key)
  {
    if b == [] {
      assert a + b == a;
    } else {
      FindInBoth(a, b[..|b| - 1], key);
      assert (a + b)[..|a + b| - 1] == a + b[..|b| - 1];
    }
  }

  lemma {:induction false} FindUnique(refs: seq<Ref>, key: string)
    ensures Find(Unique(refs), key) == Find(refs, key)
  {
    if refs != [] {
      var front, last := refs[..|refs| - 1], refs[|refs| - 1];
      FindUnique(front, key);
      FindMeans(front, RefKey(last));
      FindInBoth(Unique(front), [last], key);
    }
  }

  lemma {:induction false} WithoutMembers(refs: seq<Ref>, ref: Ref, other: Ref)
    ensures other in Without(refs, ref) <==> other in refs && other != ref
  {
    if refs != [] {
      WithoutMembers(refs[..|refs| - 1], ref, other);
      assert refs == refs[..|refs| - 1] + [refs[|refs| - 1]];
    }
  }

  lemma {:induction false} WithoutIsDistinct(refs: seq<Ref>, ref: Ref)
    requires DistinctKeys(refs)
    ensures DistinctKeys(Without(refs, ref))
  {
    if refs != [] {
      var front, last := refs[..|refs| - 1], refs[|refs| - 1];
      WithoutIsDistinct(front, ref);
      forall i | 0 <= i < |Without(front, ref)| ensures RefKey(Without(front, ref)[i]) != RefKey(last) {
        WithoutMembers(front, ref, Without(front, ref)[i]);
        var j :| 0 <= j < |front| && front[j] == Without(front, ref)[i];
        assert RefKey(refs[j]) != RefKey(refs[|refs| - 1]);
      }
    }
  }

  /** What is read back of a stored list lists a key as the list did, if its number is positive. */
  lemma {:induction false} StoredFinds(refs: seq<Ref>, key: string)
    ensures Find(Parsed(Serialized(refs)), key) == Readable(Find(refs, key))
  {
    var sorted := NewestFirst(Unique(refs));
    StoredReadsAs(refs);
    SortedUnique(refs);
    FindUnique(refs, key);
    FindMeans(Positive(sorted), key);
    FindMeans(Unique(refs), key);
    UniqueIsDistinct(refs);
    SameRefs(refs);
    if Find(Positive(sorted), key).Some? {
      var ref := Find(Positive(sorted), key).value;
      PositiveMembers(sorted, ref);
      FindDistinct(Unique(refs), key, ref);
    } else if Find(refs, key).Some? {
      var ref := Find(refs, key).value;
      PositiveMembers(sorted, ref);
      FindDistinct(Positive(sorted), key, ref);
    }
  }

  lemma {:induction false} SameRefs(refs: seq<Ref>)
    ensures forall ref :: ref in NewestFirst(Unique(refs)) <==> ref in Unique(refs)
  {
    var unique, sorted := Unique(refs), NewestFirst(Unique(refs));
    SortFits(unique, (ref: Ref) => ref.tradeN);
    forall ref ensures ref in sorted <==> ref in unique {
      assert ref in multiset(sorted) <==> ref in multiset(unique);
    }
  }

  lemma ParsedFits(stored: Stored)
    ensures DistinctKeys(Parsed(stored)) && forall ref | ref in Parsed(stored) :: ref.tradeN >= 1
  {
    if stored.Array? {
      var refs := AllRecognized(stored.items);
      SortedUnique(refs);
      RecognizedArePositive(stored.items);
    }
  }

  lemma {:induction false} RecognizedArePositive(items: seq<Item>)
    ensures forall ref | ref in AllRecognized(items) :: ref.tradeN >= 1
  {
    if items != [] {
      RecognizedArePositive(items[..|items| - 1]);
    }
  }

  /** One change, read, made and written back: the index lists each key as `Moved` says, and no key's
      listing depends on another's. */
  lemma {:induction false} ChangeMoves(change: Change, stored: Option<Stored>, key: string)
    ensures var update := UpdateOf(change)(stored);
            && update.Put?
            && Find(Parsed(update.value), key) == Moved(change, Find(Parsed(Held(stored)), key), key)
  {
    var current := Parsed(Held(stored));
    ParsedFits(Held(stored));
    StoredFinds(Changed(change, current), key);
    FindMeans(current, key);
    match change
    case Add(refs) => FindInBoth(current, refs, key);
    case Drop(ref) => DropFinds(current, ref, key);
  }

  lemma {:induction false} DropFinds(refs: seq<Ref>, ref: Ref, key: string)
    requires DistinctKeys(refs)
    ensures Find(Without(refs, ref), key) == if Find(refs, key) == Some(ref) then None else Find(refs, key)
  {
    WithoutIsDistinct(refs, ref);
    FindMeans(Without(refs, ref), key);
    FindMeans(refs, key);
    if Find(Without(refs, ref), key).Some? {
      var found := Find(Without(refs, ref), key).value;
      WithoutMembers(refs, ref, found);
      FindDistinct(refs, key, found);
    } else if Find(refs, key).Some? {
      var found := Find(refs, key).value;
      WithoutMembers(refs, ref, found);
      FindDistinct(Without(refs, ref), key, found);
    }
  }

  // ----- whole runs

  /** The tail of the index lock is never taken away, so nothing runs `finally`. */
  datatype IndexEvent =
    | ChangeMade(change: Change)
    | ChangeStarts(i: nat)
    | IndexRead(i: nat, ok: bool)
    | IndexChanged(i: nat)
    | IndexWritten(i: nat, ok: bool, applied: bool)

  function EventOf(e: IndexEvent): Event<IndexKey, Stored> {
    match e
    case ChangeMade(change) => CallMade(IndexKey, UpdateOf(change))
    case ChangeStarts(i) => TaskStarts(i)
    case IndexRead(i, ok) => ReadAnswers(i, ok)
    case IndexChanged(i) => UpdateAnswers(i)
    case IndexWritten(i, ok, applied) => StoreAnswers(i, ok, applied)
  }

  function EventsOf(events: seq<IndexEvent>): (all: seq<Event<IndexKey, Stored>>)
    ensures |all| == |events|
  {
    if events == [] then [] else EventsOf(events[..|events| - 1]) + [EventOf(events[|events| - 1])]
  }

  /** The changes of a run in call order. */
  function ChangesOf(events: seq<IndexEvent>): seq<Change> {
    if events == [] then []
    else
      var front, last := ChangesOf(events[..|events| - 1]), events[|events| - 1];
      if last.ChangeMade? then front + [last.change] else front
  }

  function IndexRun(initial: map<IndexKey, Stored>, events: seq<IndexEvent>): State<IndexKey, Stored> {
    Run(Fresh(initial), EventsOf(events))
  }

  ghost predicate Makes(s: State<IndexKey, Stored>, changes: seq<Change>) {
    && |changes| == |s.updates| == |s.outcomes| == |s.chain.links|
    && forall i | 0 <= i < |changes| :: s.updates[i] == UpdateOf(changes[i])
  }

  lemma {:induction false} RunMakes(initial: map<IndexKey, Stored>, events: seq<IndexEvent>)
    ensures Makes(IndexRun(initial, events), ChangesOf(events))
  {
    if events != [] {
      var front, last := events[..|events| - 1], events[|events| - 1];
      RunMakes(initial, front);
      assert EventsOf(events)[..|events| - 1] == EventsOf(front);
      var s := IndexRun(initial, front);
      if Enabled(s, EventOf(last)) {
        StepMakes(s, ChangesOf(front), last);
      }
    }
  }

  lemma StepMakes(s: State<IndexKey, Stored>, changes: seq<Change>, e: IndexEvent)
    requires Makes(s, changes) && Enabled(s, EventOf(e))
    ensures Makes(Step(s, EventOf(e)), if e.ChangeMade? then changes + [e.change] else changes)
  {
  }

  /** What the first `n` changes leave listed under a key, made one after the other in call order, leaving
      out those that took no effect. */
  function Listing(
      changes: seq<Change>, outcomes: seq<Outcome<Stored>>, initial: Option<Ref>, key: string, n: nat): Option<Ref>
    requires n <= |changes| == |outcomes|
  {
    if n == 0 then initial
    else
      var before := Listing(changes, outcomes, initial, key, n - 1);
      if TookEffect(outcomes[n - 1]) then Moved(changes[n - 1], before, key) else before
  }

  lemma {:induction false} AppliedMoves(change: Change, before: Option<Stored>, key: string)
    ensures Find(Parsed(Held(Apply(UpdateOf(change), before))), key)
            == Moved(change, Find(Parsed(Held(before)), key), key)
  {
    ChangeMoves(change, before, key);
  }

  lemma ReplaySteps(s: State<IndexKey, Stored>, initial: map<IndexKey, Stored>, change: Change, n: nat)
    requires 0 < n <= |s.chain.links| == |s.updates| == |s.outcomes| && s.updates[n - 1] == UpdateOf(change)
    ensures var before := Replay(s, initial, IndexKey, n - 1);
            Replay(s, initial, IndexKey, n)
            == if TookEffect(s.outcomes[n - 1]) then Apply(UpdateOf(change), before) else before
  {
    assert s.chain.links[n - 1].key == IndexKey;
  }

  /** Listed under `key` after the first `n` changes of the sequential run. */
  ghost function ListedAfter(
      s: State<IndexKey, Stored>, initial: map<IndexKey, Stored>, key: string, n: nat): Option<Ref>
    requires n <= |s.chain.links| == |s.updates| == |s.outcomes|
  {
    Find(Parsed(Held(Replay(s, initial, IndexKey, n))), key)
  }

  lemma StepLists(
      s: State<IndexKey, Stored>, initial: map<IndexKey, Stored>, changes: seq<Change>, key: string, n: nat)
    requires Makes(s, changes) && n < |changes|
    ensures var before := ListedAfter(s, initial, key, n);
            ListedAfter(s, initial, key, n + 1)
            == if TookEffect(s.outcomes[n]) then Moved(changes[n], before, key) else before
  {
    ReplaySteps(s, initial, changes[n], n + 1);
    AppliedMoves(changes[n], Replay(s, initial, IndexKey, n), key);
  }

  /** `found` is what is listed under `key` before and after each of the changes. */
  ghost predicate Follows(
      changes: seq<Change>, outcomes: seq<Outcome<Stored>>, found: nat -> Option<Ref>, key: string)
  {
    && |changes| == |outcomes|
    && forall m: nat | m < |changes| ::
         found(m + 1) == if TookEffect(outcomes[m]) then Moved(changes[m], found(m), key) else found(m)
  }

  lemma {:induction false} ListingAlong(
      changes: seq<Change>, outcomes: seq<Outcome<Stored>>, found: nat -> Option<Ref>, key: string, n: nat)
    requires Follows(changes, outcomes, found, key) && n <= |changes|
    ensures found(n) == Listing(changes, outcomes, found(0), key, n)
  {
    if n > 0 {
      ListingAlong(changes, outcomes, found, key, n - 1);
      assert found(n - 1 + 1)
        == if TookEffect(outcomes[n - 1]) then Moved(changes[n - 1], found(n - 1), key) else found(n - 1);
    }
  }

  lemma {:induction false} ReplayFollows(
      s: State<IndexKey, Stored>, initial: map<IndexKey, Stored>, changes: seq<Change>, key: string,
      found: nat -> Option<Ref>)
    requires Makes(s, changes)
    requires forall m: nat | m <= |changes| :: found(m) == ListedAfter(s, initial, key, m)
    ensures Follows(changes, s.outcomes, found, key)
  {
    forall m: nat | m < |changes|
      ensures found(m + 1) == if TookEffect(s.outcomes[m]) then Moved(changes[m], found(m), key) else found(m)
    {
      StepLists(s, initial, changes, key, m);
      assert found(m) == ListedAfter(s, initial, key, m) && found(m + 1) == ListedAfter(s, initial, key, m + 1);
    }
  }

  lemma {:induction false} ReplayLists(
      s: State<IndexKey, Stored>, initial: map<IndexKey, Stored>, changes: seq<Change>, key: string)
    requires Makes(s, changes)
    ensures ListedAfter(s, initial, key, |changes|)
            == Listing(changes, s.outcomes, ListedAfter(s, initial, key, 0), key, |changes|)
  {
    var found := (m: nat) => if m <= |changes| then ListedAfter(s, initial, key, m) else None;
    ReplayFollows(s, initial, changes, key, found);
    ListingAlong(changes, s.outcomes, found, key, |changes|);
  }

  /** However the changes of creates, removals and reconciles overlap, and whichever of them fail: the stored
      index lists under every key what the changes that took effect leave there, one after the other in
      call order. */
  lemma {:induction false} IndexIsItsChanges(initial: map<IndexKey, Stored>, events: seq<IndexEvent>, key: string)
    ensures var s, changes := IndexRun(initial, events), ChangesOf(events);
            && |s.outcomes| == |changes|
            && Find(Parsed(Held(Get(s.store, IndexKey))), key)
               == Listing(changes, s.outcomes, Find(Parsed(Held(Get(initial, IndexKey))), key), key, |changes|)
  {
    RunMakes(initial, events);
    AnyScheduleIsSequential(initial, EventsOf(events));
    ReplayLists(IndexRun(initial, events), initial, ChangesOf(events), key);
  }

  /** As `requestRefOf` builds refs: an empty source is left out. */
  predicate Plain(ref: Ref) {
    ref.sourceId != Some("")
  }

  predicate PlainChange(change: Change) {
    match change
    case Add(refs) => forall ref | ref in refs :: Plain(ref)
    case Drop(ref) => Plain(ref)
  }

  predicate Adds(changes: seq<Change>, outcomes: seq<Outcome<Stored>>, ref: Ref, i: nat)
    requires i < |changes| == |outcomes|
  {
    TookEffect(outcomes[i]) && changes[i].Add? && ref in changes[i].refs
  }

  ghost predicate Undropped(changes: seq<Change>, outcomes: seq<Outcome<Stored>>, ref: Ref, i: nat, n: nat)
    requires n <= |changes| == |outcomes|
  {
    forall m | i <= m < n :: !(TookEffect(outcomes[m]) && changes[m] == Drop(ref))
  }

  ghost predicate AddedAndKept(changes: seq<Change>, outcomes: seq<Outcome<Stored>>, ref: Ref, n: nat)
    requires n <= |changes| == |outcomes|
  {
    exists i: nat | i < n :: Adds(changes, outcomes, ref, i) && Undropped(changes, outcomes, ref, i + 1, n)
  }

  lemma PlainKeyIsOne(a: Ref, b: Ref)
    requires Plain(a) && Plain(b)
    ensures RefKey(a) == RefKey(b) <==> a == b
  {
    KeysAreInjective(a, b);
  }

  lemma MovedPlain(change: Change, listed: Option<Ref>, ref: Ref)
    requires PlainChange(change) && Plain(ref) && ref.tradeN >= 1 && listed in {None, Some(ref)}
    ensures Moved(change, listed, RefKey(ref))
            == match change
               case Add(refs) => if ref in refs then Some(ref) else listed
               case Drop(other) => if other == ref then None else listed
  {
    if change.Add? {
      FindMeans(change.refs, RefKey(ref));
      if Find(change.refs, RefKey(ref)).Some? {
        PlainKeyIsOne(Find(change.refs, RefKey(ref)).value, ref);
      }
      if ref in change.refs {
        var i :| 0 <= i < |change.refs| && change.refs[i] == ref;
        assert RefKey(change.refs[i]) in Keys(change.refs);
      }
    }
  }

  lemma AddedAndKeptMore(changes: seq<Change>, outcomes: seq<Outcome<Stored>>, ref: Ref, n: nat)
    requires n < |changes| == |outcomes|
    ensures AddedAndKept(changes, outcomes, ref, n + 1)
            <==> Adds(changes, outcomes, ref, n)
                 || (AddedAndKept(changes, outcomes, ref, n) && Undropped(changes, outcomes, ref, n, n + 1))
  {
    assert Undropped(changes, outcomes, ref, n + 1, n + 1);
    if AddedAndKept(changes, outcomes, ref, n + 1) {
      var i: nat :| i < n + 1 && Adds(changes, outcomes, ref, i) && Undropped(changes, outcomes, ref, i + 1, n + 1);
      assert i < n ==> Undropped(changes, outcomes, ref, i + 1, n);
    }
    if AddedAndKept(changes, outcomes, ref, n) && Undropped(changes, outcomes, ref, n, n + 1) {
      var i: nat :| i < n && Adds(changes, outcomes, ref, i) && Undropped(changes, outcomes, ref, i + 1, n);
      assert Undropped(changes, outcomes, ref, i + 1, n + 1);
    }
  }

  lemma {:induction false} ListingIff(
      changes: seq<Change>, outcomes: seq<Outcome<Stored>>, initial: Option<Ref>, ref: Ref, n: nat)
    requires n <= |changes| == |outcomes| && Plain(ref) && ref.tradeN >= 1 && initial in {None, Some(ref)}
    requires forall i | 0 <= i < |changes| :: PlainChange(changes[i])
    ensures Listing(changes, outcomes, initial, RefKey(ref), n) in {None, Some(ref)}
    ensures Listing(changes, outcomes, initial, RefKey(ref), n) == Some(ref)
            <==> AddedAndKept(changes, outcomes, ref, n)
                 || (initial == Some(ref) && Undropped(changes, outcomes, ref, 0, n))
  {
    if n > 0 {
      ListingIff(changes, outcomes, initial, ref, n - 1);
      AddedAndKeptMore(changes, outcomes, ref, n - 1);
      MovedPlain(changes[n - 1], Listing(changes, outcomes, initial, RefKey(ref), n - 1), ref);
    }
  }

  /** So a request is in the stored index exactly when a change that took effect added it, or it was there
      at the start, and no change that took effect dropped it since. */
  lemma {:induction false} ListedIff(initial: map<IndexKey, Stored>, events: seq<IndexEvent>, ref: Ref)
    requires Plain(ref) && ref.tradeN >= 1
    requires forall i | 0 <= i < |ChangesOf(events)| :: PlainChange(ChangesOf(events)[i])
    requires forall other | other in Parsed(Held(Get(initial, IndexKey))) :: Plain(other)
    ensures |IndexRun(initial, events).outcomes| == |ChangesOf(events)|
    ensures var changes, outcomes := ChangesOf(events), IndexRun(initial, events).outcomes;
            ref in Parsed(Held(Get(IndexRun(initial, events).store, IndexKey)))
            <==> AddedAndKept(changes, outcomes, ref, |changes|)
                 || (ref in Parsed(Held(Get(initial, IndexKey))) && Undropped(changes, outcomes, ref, 0, |changes|))
  {
    var first, last := Held(Get(initial, IndexKey)), Held(Get(IndexRun(initial, events).store, IndexKey));
    IndexIsItsChanges(initial, events, RefKey(ref));
    ParsedFits(first);
    ParsedFits(last);
    FindDistinct(Parsed(first), RefKey(ref), ref);
    FindDistinct(Parsed(last), RefKey(ref), ref);
    FindMeans(Parsed(first), RefKey(ref));
    var listed := Find(Parsed(first), RefKey(ref));
    if listed.Some? {
      PlainKeyIsOne(listed.value, ref);
    }
    ListingIff(ChangesOf(events), IndexRun(initial, events).outcomes, listed, ref, |ChangesOf(events)|);
  }
}
