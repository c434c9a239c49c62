/**
 The serial record mutator: per key, each update reads the stored record, decides on it, and
 writes or clears it, behind the key's promise chain. Storage calls and updates are asynchronous,
 so tasks of different keys interleave freely, and each of them may fail.
 */
module RecordMutation {
  import opened Wrappers
  import opened SerialQueue

  /** What an update answers for the current record: it throws, or gives `undefined`, `null`, or
      the next record. */
  datatype Update<+V> = Throw | Keep | Erase | Put(value: V)

  /** Where a started task stands: its read, its update or its write is awaited. */
  datatype Work<+V> = Reading | Updating(current: Option<V>) | Storing(current: Option<V>, next: Option<V>)

  /** How a call ended. A storage call that rejected may have taken effect all the same. */
  datatype Outcome<+V> = Open | Rejected(applied: bool) | Resolved(value: Option<V>)

  type Updater<!V> = Option<V> -> Update<V>

  datatype State<K, !V> = State(
    chain: Chain<K>,
    updates: seq<Updater<V>>,
    work: map<nat, Work<V>>,
    outcomes: seq<Outcome<V>>,
    store: map<K, V>)

  function Apply<V>(update: Updater<V>, current: Option<V>): Option<V> {
    match update(current)
    case Put(value) => Some(value)
    case Erase => None
    case Keep => current
    case Throw => current
  }

  function Put<K, V>(store: map<K, V>, key: K, next: Option<V>): map<K, V> {
    match next
    case Some(value) => store[key := value]
    case None => store - {key}
  }

  predicate TookEffect<V>(outcome: Outcome<V>) {
    outcome.Resolved? || (outcome.Rejected? && outcome.applied)
  }

  // ----- the steps between two awaits

  function Called<K, V>(s: State<K, V>, key: K, update: Updater<V>): State<K, V> {
    s.(chain := Call(s.chain, key), updates := s.updates + [update], outcomes := s.outcomes + [Open])
  }

  function Started<K, V>(s: State<K, V>, i: nat): State<K, V>
    requires CanStart(s.chain, i)
  {
    s.(chain := Start(s.chain, i), work := s.work[i := Reading])
  }

  predicate Awaits<K, V>(s: State<K, V>, i: nat) {
    && IsRunning(s.chain, i) && i in s.work
    && |s.updates| == |s.outcomes| == |s.chain.links|
  }

  /** The task settles, with what its promise answers and what the store holds by then. */
  function Ended<K, V>(s: State<K, V>, i: nat, outcome: Outcome<V>, store: map<K, V>): State<K, V>
    requires Awaits(s, i)
  {
    State(Settle(s.chain, i, outcome.Resolved?), s.updates, s.work - {i}, s.outcomes[i := outcome], store)
  }

  function ReadAnswered<K, V>(s: State<K, V>, i: nat, ok: bool): State<K, V>
    requires Awaits(s, i) && s.work[i] == Reading
  {
    if ok then s.(work := s.work[i := Updating(Get(s.store, s.chain.links[i].key))])
    else Ended(s, i, Rejected(false), s.store)
  }

  function UpdateAnswered<K, V>(s: State<K, V>, i: nat): State<K, V>
    requires Awaits(s, i) && s.work[i].Updating?
  {
    var current := s.work[i].current;
    match s.updates[i](current)
    case Throw => Ended(s, i, Rejected(false), s.store)
    case Keep => Ended(s, i, Resolved(current), s.store)
    case Erase => s.(work := s.work[i := Storing(current, None)])
    case Put(value) => s.(work := s.work[i := Storing(current, Some(value))])
  }

  function StoreAnswered<K, V>(s: State<K, V>, i: nat, ok: bool, applied: bool): State<K, V>
    requires Awaits(s, i) && s.work[i].Storing?
  {
    var next := s.work[i].next;
    var stored := Put(s.store, s.chain.links[i].key, next);
    if ok then Ended(s, i, Resolved(next), stored)
    else Ended(s, i, Rejected(applied), if applied then stored else s.store)
  }

  function Cleaned<K, V>(s: State<K, V>, i: nat): State<K, V>
    requires IsSettled(s.chain, i)
  {
    s.(chain := Cleanup(s.chain, i))
  }

  // ----- the sequential reading of a run

  /** The value the first `n` calls leave under `key` when they are applied one after the other in
      call order, leaving out those that took no effect. */
  ghost function Replay<K, V>(s: State<K, V>, initial: map<K, V>, key: K, n: nat): Option<V>
    requires n <= |s.chain.links| == |s.updates| == |s.outcomes|
  {
    if n == 0 then Get(initial, key)
    else
      var before := Replay(s, initial, key, n - 1);
      if s.chain.links[n - 1].key == key && TookEffect(s.outcomes[n - 1])
      then Apply(s.updates[n - 1], before)
      else before
  }

  /** A started task read what its key holds now, and is about to store what its update said. */
  ghost predicate WorkIsCurrent<K, V>(s: State<K, V>, i: nat)
    requires Awaits(s, i)
  {
    var held := Get(s.store, s.chain.links[i].key);
    match s.work[i]
    case Reading => true
    case Updating(current) => current == held
    case Storing(current, next) =>
      && current == held
      && next == Apply(s.updates[i], current)
  }

  ghost predicate TasksValid<K(!new), V>(s: State<K, V>) {
    && SerialQueue.Valid(s.chain)
    && |s.updates| == |s.outcomes| == |s.chain.links|
    && (forall i | 0 <= i < |s.chain.links| :: IsSettled(s.chain, i) <==> s.outcomes[i] != Open)
    && (forall i: nat :: IsRunning(s.chain, i) <==> i in s.work)
    && (forall i | IsRunning(s.chain, i) :: WorkIsCurrent(s, i))
  }

  /** The store is what the sequential run leaves, and each promise answered what that run had
      under its key just after it. */
  ghost predicate Refines<K(!new), V>(s: State<K, V>, initial: map<K, V>)
    requires |s.updates| == |s.outcomes| == |s.chain.links|
  {
    && (forall key :: Get(s.store, key) == Replay(s, initial, key, |s.chain.links|))
    && (forall i | 0 <= i < |s.chain.links| && s.outcomes[i].Resolved? ::
          s.outcomes[i].value == Replay(s, initial, s.chain.links[i].key, i + 1))
  }

  ghost predicate Refinement<K(!new), V>(s: State<K, V>, initial: map<K, V>) {
    TasksValid(s) && Refines(s, initial)
  }

  lemma {:induction false} ReplayDependsOnPrefix<K, V>(
      s: State<K, V>, t: State<K, V>, initial: map<K, V>, key: K, n: nat)
    requires n <= |s.chain.links| == |s.updates| == |s.outcomes|
    requires n <= |t.chain.links| == |t.updates| == |t.outcomes|
    requires t.updates[..n] == s.updates[..n]
    requires forall j | 0 <= j < n :: t.chain.links[j].key == s.chain.links[j].key
    requires forall j | 0 <= j < n && s.chain.links[j].key == key :: t.outcomes[j] == s.outcomes[j]
    ensures Replay(t, initial, key, n) == Replay(s, initial, key, n)
  {
    if n > 0 {
      assert t.updates[n - 1] == t.updates[..n][n - 1] == s.updates[..n][n - 1];
      assert t.updates[..n - 1] == t.updates[..n][..n - 1] == s.updates[..n - 1];
      ReplayDependsOnPrefix(s, t, initial, key, n - 1);
    }
  }

  lemma {:induction false} ReplaySkipsOpen<K, V>(
      s: State<K, V>, initial: map<K, V>, key: K, from: nat, n: nat)
    requires from <= n <= |s.chain.links| == |s.updates| == |s.outcomes|
    requires forall j | from <= j < n && s.chain.links[j].key == key :: !TookEffect(s.outcomes[j])
    ensures Replay(s, initial, key, n) == Replay(s, initial, key, from)
  {
    if from < n {
      ReplaySkipsOpen(s, initial, key, from, n - 1);
    }
  }

  /** Before task `i` settles, the store holds exactly what the calls before it left. */
  lemma {:induction false} RunningSeesAllBefore<K(!new), V>(s: State<K, V>, initial: map<K, V>, i: nat)
    requires Refinement(s, initial) && IsRunning(s.chain, i)
    ensures Get(s.store, s.chain.links[i].key) == Replay(s, initial, s.chain.links[i].key, i)
    ensures forall j | i <= j < |s.chain.links| && s.chain.links[j].key == s.chain.links[i].key ::
              s.outcomes[j] == Open
  {
    var key := s.chain.links[i].key;
    forall j | i <= j < |s.chain.links| && s.chain.links[j].key == key
      ensures s.outcomes[j] == Open
    {
      assert j > i ==> Follows(s.chain.links, i, j);
      assert !IsSettled(s.chain, j);
    }
    ReplaySkipsOpen(s, initial, key, i, |s.chain.links|);
  }

  lemma {:induction false} CallLeavesReplay<K(!new), V>(
      s: State<K, V>, initial: map<K, V>, key: K, update: Updater<V>, k: K, m: nat)
    requires |s.updates| == |s.outcomes| == |s.chain.links| && m <= |s.chain.links|
    ensures Replay(Called(s, key, update), initial, k, m) == Replay(s, initial, k, m)
  {
    ReplayDependsOnPrefix(s, Called(s, key, update), initial, k, m);
  }

  lemma CallKeepsTasks<K(!new), V>(s: State<K, V>, key: K, update: Updater<V>)
    requires TasksValid(s)
    ensures TasksValid(Called(s, key, update))
  {
    var t, n := Called(s, key, update), |s.chain.links|;
    CallKeepsValid(s.chain, key);
    forall i: nat ensures IsRunning(t.chain, i) == IsRunning(s.chain, i) {}
    forall i | 0 <= i <= n ensures IsSettled(t.chain, i) == (i < n && IsSettled(s.chain, i)) {}
    forall i | IsRunning(t.chain, i) ensures WorkIsCurrent(t, i) {
      assert WorkIsCurrent(s, i);
    }
  }

  lemma CallKeepsRefinement<K(!new), V>(s: State<K, V>, initial: map<K, V>, key: K, update: Updater<V>)
    requires Refinement(s, initial)
    ensures Refinement(Called(s, key, update), initial)
  {
    var t, n := Called(s, key, update), |s.chain.links|;
    CallKeepsTasks(s, key, update);
    forall k ensures Replay(t, initial, k, n + 1) == Get(t.store, k) {
      CallLeavesReplay(s, initial, key, update, k, n);
    }
    forall i | 0 <= i <= n && t.outcomes[i].Resolved?
      ensures t.outcomes[i].value == Replay(t, initial, t.chain.links[i].key, i + 1)
    {
      CallLeavesReplay(s, initial, key, update, s.chain.links[i].key, i + 1);
    }
  }

  /** A step that settles nothing leaves the sequential run alone. */
  lemma SameHistoryRefines<K(!new), V>(s: State<K, V>, t: State<K, V>, initial: map<K, V>)
    requires |s.updates| == |s.outcomes| == |s.chain.links| == |t.chain.links|
    requires t.updates == s.updates && t.outcomes == s.outcomes && t.store == s.store
    requires forall j | 0 <= j < |s.chain.links| :: t.chain.links[j].key == s.chain.links[j].key
    requires Refines(s, initial)
    ensures Refines(t, initial)
  {
    forall k, m: nat | m <= |s.chain.links| ensures Replay(t, initial, k, m) == Replay(s, initial, k, m) {
      ReplayDependsOnPrefix(s, t, initial, k, m);
    }
  }

  lemma EndKeepsTasks<K(!new), V>(
      s: State<K, V>, i: nat, outcome: Outcome<V>, store: map<K, V>)
    requires TasksValid(s) && IsRunning(s.chain, i) && outcome != Open
    requires forall k | k != s.chain.links[i].key :: Get(store, k) == Get(s.store, k)
    ensures TasksValid(Ended(s, i, outcome, store))
  {
    var t := Ended(s, i, outcome, store);
    AdvanceKeepsValid(s.chain, i, Settled(outcome.Resolved?));
    forall j: nat ensures IsRunning(t.chain, j) == (IsRunning(s.chain, j) && j != i) {}
    forall j: nat | IsRunning(t.chain, j) ensures WorkIsCurrent(t, j) {
      if t.chain.links[j].key == s.chain.links[i].key {
        OneRunningPerKey(s.chain, i, j);
      }
      assert WorkIsCurrent(s, j);
    }
  }

  /** Settling a task leaves the sequential run of its key before it, and of every other key, alone. */
  lemma {:induction false} EndLeavesReplay<K(!new), V>(
      s: State<K, V>, initial: map<K, V>, i: nat, outcome: Outcome<V>, store: map<K, V>, k: K, m: nat)
    requires TasksValid(s) && IsRunning(s.chain, i) && m <= |s.chain.links|
    requires m <= i || k != s.chain.links[i].key
    ensures Replay(Ended(s, i, outcome, store), initial, k, m) == Replay(s, initial, k, m)
  {
    ReplayDependsOnPrefix(s, Ended(s, i, outcome, store), initial, k, m);
  }

  /** From it on, its key holds what its task left. */
  lemma {:induction false} EndIsNext<K(!new), V>(
      s: State<K, V>, initial: map<K, V>, i: nat, outcome: Outcome<V>, store: map<K, V>)
    requires Refinement(s, initial) && IsRunning(s.chain, i)
    requires var held := Get(s.store, s.chain.links[i].key);
             Get(store, s.chain.links[i].key)
             == if TookEffect(outcome) then Apply(s.updates[i], held) else held
    ensures var t, key := Ended(s, i, outcome, store), s.chain.links[i].key;
            && Replay(t, initial, key, i + 1) == Get(store, key)
            && Replay(t, initial, key, |s.chain.links|) == Get(store, key)
  {
    var t, key := Ended(s, i, outcome, store), s.chain.links[i].key;
    RunningSeesAllBefore(s, initial, i);
    EndLeavesReplay(s, initial, i, outcome, store, key, i);
    assert Replay(t, initial, key, i + 1) == Get(store, key);
    ReplaySkipsOpen(t, initial, key, i + 1, |s.chain.links|);
  }

  /** Settling a task is the next step of the sequential run of its key, and no step of another. */
  lemma EndKeepsRefinement<K(!new), V>(
      s: State<K, V>, initial: map<K, V>, i: nat, outcome: Outcome<V>, store: map<K, V>)
    requires Refinement(s, initial) && IsRunning(s.chain, i) && outcome != Open
    requires forall k | k != s.chain.links[i].key :: Get(store, k) == Get(s.store, k)
    requires var held := Get(s.store, s.chain.links[i].key);
             Get(store, s.chain.links[i].key)
             == if TookEffect(outcome) then Apply(s.updates[i], held) else held
    requires outcome.Resolved? ==> outcome.value == Get(store, s.chain.links[i].key)
    ensures Refinement(Ended(s, i, outcome, store), initial)
  {
    var t, n, key := Ended(s, i, outcome, store), |s.chain.links|, s.chain.links[i].key;
    EndKeepsTasks(s, i, outcome, store);
    EndIsNext(s, initial, i, outcome, store);
    RunningSeesAllBefore(s, initial, i);
    forall k ensures Get(t.store, k) == Replay(t, initial, k, n) {
      if k != key {
        EndLeavesReplay(s, initial, i, outcome, store, k, n);
      }
    }
    forall j | 0 <= j < n && t.outcomes[j].Resolved?
      ensures t.outcomes[j].value == Replay(t, initial, t.chain.links[j].key, j + 1)
    {
      if j != i {
        EndLeavesReplay(s, initial, i, outcome, store, s.chain.links[j].key, j + 1);
      }
    }
  }

  lemma WorkKeepsRefinement<K(!new), V>(s: State<K, V>, initial: map<K, V>, i: nat, work: Work<V>)
    requires Refinement(s, initial) && IsRunning(s.chain, i)
    requires WorkIsCurrent(s.(work := s.work[i := work]), i)
    ensures Refinement(s.(work := s.work[i := work]), initial)
  {
    var t := s.(work := s.work[i := work]);
    forall j: nat | IsRunning(t.chain, j) ensures WorkIsCurrent(t, j) {
      assert WorkIsCurrent(s, j);
    }
    SameHistoryRefines(s, t, initial);
  }

  lemma StartKeepsRefinement<K(!new), V>(s: State<K, V>, initial: map<K, V>, i: nat)
    requires Refinement(s, initial) && CanStart(s.chain, i)
    ensures Refinement(Started(s, i), initial)
  {
    var t := Started(s, i);
    AdvanceKeepsValid(s.chain, i, Running);
    forall j: nat ensures IsRunning(t.chain, j) == (IsRunning(s.chain, j) || j == i) {}
    forall j: nat | IsRunning(t.chain, j) ensures WorkIsCurrent(t, j) {
      assert j != i ==> WorkIsCurrent(s, j);
    }
    SameHistoryRefines(s, t, initial);
  }

  lemma CleanupKeepsRefinement<K(!new), V>(s: State<K, V>, initial: map<K, V>, i: nat)
    requires Refinement(s, initial) && IsSettled(s.chain, i)
    ensures Refinement(Cleaned(s, i), initial)
  {
    var t := Cleaned(s, i);
    CleanupKeepsValid(s.chain, i);
    forall j: nat ensures IsRunning(t.chain, j) == IsRunning(s.chain, j) {}
    forall j: nat | IsRunning(t.chain, j) ensures WorkIsCurrent(t, j) {
      assert WorkIsCurrent(s, j);
    }
    SameHistoryRefines(s, t, initial);
  }

  // ----- whole runs

  datatype Event<K, !V> =
    | CallMade(key: K, update: Updater<V>)
    | TaskStarts(i: nat)
    | ReadAnswers(i: nat, ok: bool)
    | UpdateAnswers(i: nat)
    | StoreAnswers(i: nat, ok: bool, applied: bool)
    | FinallyRuns(i: nat)

  predicate Enabled<K, V>(s: State<K, V>, e: Event<K, V>) {
    match e
    case CallMade(_, _) => true
    case TaskStarts(i) => CanStart(s.chain, i)
    case ReadAnswers(i, _) => Awaits(s, i) && s.work[i] == Reading
    case UpdateAnswers(i) => Awaits(s, i) && s.work[i].Updating?
    case StoreAnswers(i, _, _) => Awaits(s, i) && s.work[i].Storing?
    case FinallyRuns(i) => IsSettled(s.chain, i)
  }

  function Step<K, V>(s: State<K, V>, e: Event<K, V>): State<K, V>
    requires Enabled(s, e)
  {
    match e
    case CallMade(key, update) => Called(s, key, update)
    case TaskStarts(i) => Started(s, i)
    case ReadAnswers(i, ok) => ReadAnswered(s, i, ok)
    case UpdateAnswers(i) => UpdateAnswered(s, i)
    case StoreAnswers(i, ok, applied) => StoreAnswered(s, i, ok, applied)
    case FinallyRuns(i) => Cleaned(s, i)
  }

  /** Any schedule: events that cannot happen yet are passed over. */
  function Run<K, V>(s: State<K, V>, events: seq<Event<K, V>>): State<K, V> {
    if events == [] then s
    else
      var before := Run(s, events[..|events| - 1]);
      var last := events[|events| - 1];
      if Enabled(before, last) then Step(before, last) else before
  }

  function Fresh<K, V>(store: map<K, V>): State<K, V> {
    State(Empty(), [], map[], [], store)
  }

  lemma StepKeepsRefinement<K(!new), V>(s: State<K, V>, initial: map<K, V>, e: Event<K, V>)
    requires Refinement(s, initial) && Enabled(s, e)
    ensures Refinement(Step(s, e), initial)
  {
    match e
    case CallMade(key, update) => CallKeepsRefinement(s, initial, key, update);
    case TaskStarts(i) => StartKeepsRefinement(s, initial, i);
    case FinallyRuns(i) => CleanupKeepsRefinement(s, initial, i);
    case ReadAnswers(i, ok) =>
      assert WorkIsCurrent(s, i);
      if ok {
        WorkKeepsRefinement(s, initial, i, Updating(Get(s.store, s.chain.links[i].key)));
      } else {
        EndKeepsRefinement(s, initial, i, Rejected(false), s.store);
      }
    case UpdateAnswers(i) =>
      assert WorkIsCurrent(s, i);
      var current := s.work[i].current;
      match s.updates[i](current) {
        case Throw => EndKeepsRefinement(s, initial, i, Rejected(false), s.store);
        case Keep => EndKeepsRefinement(s, initial, i, Resolved(current), s.store);
        case Erase => WorkKeepsRefinement(s, initial, i, Storing(current, None));
        case Put(value) => WorkKeepsRefinement(s, initial, i, Storing(current, Some(value)));
      }
    case StoreAnswers(i, ok, applied) =>
      assert WorkIsCurrent(s, i);
      var stored := Put(s.store, s.chain.links[i].key, s.work[i].next);
      if ok {
        EndKeepsRefinement(s, initial, i, Resolved(s.work[i].next), stored);
      } else {
        EndKeepsRefinement(s, initial, i, Rejected(applied), if applied then stored else s.store);
      }
  }

  /** Whatever the schedule, whatever fails: the store is the updates that took effect, applied one
      by one in call order, and every promise that resolved answered its own place in that order. */
  lemma {:induction false} AnyScheduleIsSequential<K(!new), V>(
      initial: map<K, V>, events: seq<Event<K, V>>)
    ensures Refinement(Run(Fresh(initial), events), initial)
  {
    if events == [] {
      EmptyIsValid<K>();
    } else {
      var front := events[..|events| - 1];
      AnyScheduleIsSequential(initial, front);
      var before := Run(Fresh(initial), front);
      if Enabled(before, events[|events| - 1]) {
        StepKeepsRefinement(before, initial, events[|events| - 1]);
      }
    }
  }

  // ----- what is pending

  /** The last call of a key. */
  function LastOf<K(==)>(links: seq<Link<K>>, key: K): Option<nat> {
    if links == [] then None
    else if links[|links| - 1].key == key then Some(|links| - 1)
    else LastOf(links[..|links| - 1], key)
  }

  /** The run came to `e` when it could happen. */
  ghost predicate Happens<K(!new), V>(initial: map<K, V>, events: seq<Event<K, V>>, e: Event<K, V>) {
    exists m | 0 <= m < |events| :: events[m] == e && Enabled(Run(Fresh(initial), events[..m]), e)
  }

  ghost predicate PendingFits<K(!new), V>(initial: map<K, V>, events: seq<Event<K, V>>, key: K) {
    var c := Run(Fresh(initial), events).chain;
    Get(c.tails, key)
    == match LastOf(c.links, key)
       case None => None
       case Some(last) => if Happens(initial, events, FinallyRuns(last)) then None else Some(last)
  }

  lemma {:induction false} LastOfKeys<K>(a: seq<Link<K>>, b: seq<Link<K>>, key: K)
    requires |a| == |b| && forall i | 0 <= i < |a| :: a[i].key == b[i].key
    ensures LastOf(a, key) == LastOf(b, key)
  {
    if a != [] {
      LastOfKeys(a[..|a| - 1], b[..|b| - 1], key);
    }
  }

  lemma {:induction false} LastOfIs<K>(links: seq<Link<K>>, key: K)
    ensures match LastOf(links, key)
            case None => forall i | 0 <= i < |links| :: links[i].key != key
            case Some(last) => last < |links| && links[last].key == key
  {
    if links != [] {
      LastOfIs(links[..|links| - 1], key);
    }
  }

  lemma {:induction false} FinallyRanOnCalls<K(!new), V>(initial: map<K, V>, events: seq<Event<K, V>>, i: nat)
    requires Happens(initial, events, FinallyRuns(i))
    ensures i < |Run(Fresh(initial), events).chain.links|
  {
    var front, e := events[..|events| - 1], events[|events| - 1];
    HappensLast(initial, events, FinallyRuns(i));
    if Happens(initial, front, FinallyRuns(i)) {
      FinallyRanOnCalls(initial, front, i);
      AnyScheduleIsSequential(initial, front);
      if Enabled(Run(Fresh(initial), front), e) {
        StepShape(Run(Fresh(initial), front), e);
      }
    }
  }

  /** Over every run: under each key `pending` holds the last call made of it, until that call's `finally` has
      run, and nothing from then on. */
  lemma {:induction false} PendingIsLast<K(!new), V>(initial: map<K, V>, events: seq<Event<K, V>>, key: K)
    ensures PendingFits(initial, events, key)
  {
    if events != [] {
      var front, e := events[..|events| - 1], events[|events| - 1];
      var s := Run(Fresh(initial), front);
      PendingIsLast(initial, front, key);
      if Enabled(s, e) {
        PendingMoves(initial, events, key);
      } else {
        forall i: nat ensures Happens(initial, events, FinallyRuns(i)) <==> Happens(initial, front, FinallyRuns(i)) {
          HappensLast(initial, events, FinallyRuns(i));
        }
      }
    }
  }

  lemma PendingMoves<K(!new), V>(initial: map<K, V>, events: seq<Event<K, V>>, key: K)
    requires events != [] && Enabled(Run(Fresh(initial), events[..|events| - 1]), events[|events| - 1])
    requires PendingFits(initial, events[..|events| - 1], key)
    ensures PendingFits(initial, events, key)
  {
    var front, e := events[..|events| - 1], events[|events| - 1];
    var s := Run(Fresh(initial), front);
    AnyScheduleIsSequential(initial, front);
    forall i: nat
      ensures Happens(initial, events, FinallyRuns(i))
              <==> Happens(initial, front, FinallyRuns(i)) || e == FinallyRuns(i)
    {
      HappensLast(initial, events, FinallyRuns(i));
    }
    LastOfIs(s.chain.links, key);
    TailsMove(s, e, key);
    if e.CallMade? && e.key == key && Happens(initial, front, FinallyRuns(|s.chain.links|)) {
      FinallyRanOnCalls(initial, front, |s.chain.links|);
    }
  }

  lemma TailsMove<K(!new), V>(s: State<K, V>, e: Event<K, V>, key: K)
    requires Sized(s) && Enabled(s, e)
    ensures var c, d := s.chain, Step(s, e).chain;
            && (e.CallMade? && e.key == key ==>
                  LastOf(d.links, key) == Some(|c.links|) && Get(d.tails, key) == Some(|c.links|))
            && (!(e.CallMade? && e.key == key) ==> LastOf(d.links, key) == LastOf(c.links, key))
            && (!(e.CallMade? && e.key == key) && !e.FinallyRuns? ==> Get(d.tails, key) == Get(c.tails, key))
            && (e.FinallyRuns? ==>
                  Get(d.tails, key) == if Get(c.tails, key) == Some(e.i) && c.links[e.i].key == key then None
                                       else Get(c.tails, key))
  {
    var c, d := s.chain, Step(s, e).chain;
    if e.CallMade? {
      assert d.links[..|d.links| - 1] == c.links;
    } else {
      StepShape(s, e);
      LastOfKeys(c.links, d.links, key);
    }
  }

  // ----- how each call ends

  /** What was answered to one call: its read, well or not; its update; its storage call, well or not, and
      whether a call that was refused landed all the same. */
  datatype Trace = Trace(read: bool, unread: bool, updated: bool, stored: bool, refused: bool, landed: bool)

  ghost function TraceOf<K(!new), V>(initial: map<K, V>, events: seq<Event<K, V>>, i: nat): Trace {
    Trace(
      Happens(initial, events, ReadAnswers(i, true)),
      Happens(initial, events, ReadAnswers(i, false)),
      Happens(initial, events, UpdateAnswers(i)),
      Happens(initial, events, StoreAnswers(i, true, true)) || Happens(initial, events, StoreAnswers(i, true, false)),
      Happens(initial, events, StoreAnswers(i, false, true)) || Happens(initial, events, StoreAnswers(i, false, false)),
      Happens(initial, events, StoreAnswers(i, false, true)))
  }

  /** What a call answers, from the value before it in call order: a read that fails and an update that
      throws reject it, no next record keeps the value, and a write or a clear resolves it when the
      storage took it and rejects it when it refused. */
  function Ends<V>(update: Updater<V>, before: Option<V>, trace: Trace): Outcome<V> {
    if trace.unread then Rejected(false)
    else if !trace.updated then Open
    else match update(before)
         case Throw => Rejected(false)
         case Keep => Resolved(before)
         case Erase => StoreEnds(None, trace)
         case Put(value) => StoreEnds(Some(value), trace)
  }

  function StoreEnds<V>(next: Option<V>, trace: Trace): Outcome<V> {
    if trace.stored then Resolved(next) else if trace.refused then Rejected(trace.landed) else Open
  }

  function Traced<K, V>(trace: Trace, e: Event<K, V>, i: nat): Trace {
    match e
    case ReadAnswers(j, ok) =>
      trace.(read := trace.read || (j == i && ok), unread := trace.unread || (j == i && !ok))
    case UpdateAnswers(j) => trace.(updated := trace.updated || j == i)
    case StoreAnswers(j, ok, applied) =>
      trace.(stored := trace.stored || (j == i && ok), refused := trace.refused || (j == i && !ok),
             landed := trace.landed || (j == i && !ok && applied))
    case _ => trace
  }

  lemma HappensLast<K(!new), V>(initial: map<K, V>, events: seq<Event<K, V>>, e: Event<K, V>)
    requires events != []
    ensures var front, last := events[..|events| - 1], events[|events| - 1];
            Happens(initial, events, e)
            <==> Happens(initial, front, e) || (last == e && Enabled(Run(Fresh(initial), front), e))
  {
    var front := events[..|events| - 1];
    assert forall m | 0 <= m < |front| :: events[..m] == front[..m];
  }

  lemma TraceGrows<K(!new), V>(initial: map<K, V>, events: seq<Event<K, V>>, i: nat)
    requires events != []
    ensures var front, last := events[..|events| - 1], events[|events| - 1];
            TraceOf(initial, events, i)
            == if Enabled(Run(Fresh(initial), front), last) then Traced(TraceOf(initial, front, i), last, i)
               else TraceOf(initial, front, i)
  {
    var front, last := events[..|events| - 1], events[|events| - 1];
    var before, after := TraceOf(initial, front, i), TraceOf(initial, events, i);
    var on := Enabled(Run(Fresh(initial), front), last);
    HappensLast(initial, events, ReadAnswers(i, true));
    HappensLast(initial, events, ReadAnswers(i, false));
    HappensLast(initial, events, UpdateAnswers(i));
    assert after.read == (before.read || (on && last == ReadAnswers(i, true)));
    assert after.unread == (before.unread || (on && last == ReadAnswers(i, false)));
    assert after.updated == (before.updated || (on && last == UpdateAnswers(i)));
    StoreGrows(initial, events, i);
    TracedMeans(before, last, i);
  }

  lemma StoreGrows<K(!new), V>(initial: map<K, V>, events: seq<Event<K, V>>, i: nat)
    requires events != []
    ensures var front, last := events[..|events| - 1], events[|events| - 1];
            var before, after := TraceOf(initial, front, i), TraceOf(initial, events, i);
            var on := Enabled(Run(Fresh(initial), front), last);
            && after.stored
               == (before.stored
                   || (on && (last == StoreAnswers(i, true, true) || last == StoreAnswers(i, true, false))))
            && after.refused
               == (before.refused
                   || (on && (last == StoreAnswers(i, false, true) || last == StoreAnswers(i, false, false))))
            && after.landed == (before.landed || (on && last == StoreAnswers(i, false, true)))
  {
    HappensLast(initial, events, StoreAnswers(i, true, true));
    HappensLast(initial, events, StoreAnswers(i, true, false));
    HappensLast(initial, events, StoreAnswers(i, false, true));
    HappensLast(initial, events, StoreAnswers(i, false, false));
  }

  lemma TracedMeans<K, V>(before: Trace, e: Event<K, V>, i: nat)
    ensures var after := Traced(before, e, i);
            && after.read == (before.read || e == ReadAnswers(i, true))
            && after.unread == (before.unread || e == ReadAnswers(i, false))
            && after.updated == (before.updated || e == UpdateAnswers(i))
            && after.stored == (before.stored || e == StoreAnswers(i, true, true) || e == StoreAnswers(i, true, false))
            && after.refused
               == (before.refused || e == StoreAnswers(i, false, true) || e == StoreAnswers(i, false, false))
            && after.landed == (before.landed || e == StoreAnswers(i, false, true))
  {
  }

  predicate Sized<K, V>(s: State<K, V>) {
    |s.updates| == |s.outcomes| == |s.chain.links|
  }

  /** What a call awaits is what was not answered yet. */
  predicate AwaitsRest<K, V>(s: State<K, V>, i: nat, trace: Trace) {
    if i in s.work then
      match s.work[i]
      case Reading => !trace.read && !trace.updated
      case Updating(_) => trace.read && !trace.updated
      case Storing(_, _) => trace.read && trace.updated
    else (trace.read || trace.updated ==> i < |s.outcomes| && s.outcomes[i] != Open)
  }

  ghost predicate TraceFits<K(!new), V>(s: State<K, V>, initial: map<K, V>, i: nat, trace: Trace)
    requires Sized(s)
  {
    && AwaitsRest(s, i, trace)
    && (if i < |s.outcomes| && s.outcomes[i] != Open then
          s.outcomes[i] == Ends(s.updates[i], Replay(s, initial, s.chain.links[i].key, i), trace)
        else
          && !trace.unread && !trace.stored && !trace.refused && !trace.landed
          && (i in s.work && s.work[i].Storing? && i < |s.outcomes| ==>
                s.updates[i](s.work[i].current).Erase? || s.updates[i](s.work[i].current).Put?))
  }

  /** A step adds calls at the end, and settles none but a running one. */
  lemma StepShape<K, V>(s: State<K, V>, e: Event<K, V>)
    requires Sized(s) && Enabled(s, e)
    ensures var t := Step(s, e);
            && Sized(t) && |t.chain.links| == |s.chain.links| + (if e.CallMade? then 1 else 0)
            && t.updates[..|s.updates|] == s.updates
            && (forall j | 0 <= j < |s.chain.links| :: t.chain.links[j].key == s.chain.links[j].key)
            && (forall j | 0 <= j < |s.chain.links| && !IsRunning(s.chain, j) :: t.outcomes[j] == s.outcomes[j])
  {
  }

  /** Every earlier call of the key of a call that is no longer waiting is settled. */
  lemma EarlierIsSettled<K(!new), V>(s: State<K, V>, i: nat, j: nat)
    requires TasksValid(s) && j < i < |s.chain.links| && s.chain.links[i].phase != Waiting
    requires s.chain.links[j].key == s.chain.links[i].key
    ensures !IsRunning(s.chain, j)
  {
    assert Follows(s.chain.links, j, i);
  }

  /** A step changes nothing before a call that is no longer waiting. */
  lemma {:induction false} BeforeStands<K(!new), V>(s: State<K, V>, initial: map<K, V>, e: Event<K, V>, i: nat)
    requires TasksValid(s) && Enabled(s, e)
    requires i < |s.chain.links| && s.chain.links[i].phase != Waiting
    ensures Sized(Step(s, e)) && i < |Step(s, e).chain.links| && Step(s, e).updates[i] == s.updates[i]
    ensures Step(s, e).chain.links[i].key == s.chain.links[i].key
    ensures Replay(Step(s, e), initial, s.chain.links[i].key, i) == Replay(s, initial, s.chain.links[i].key, i)
  {
    StepShape(s, e);
    var t, key := Step(s, e), s.chain.links[i].key;
    forall j | 0 <= j < i && s.chain.links[j].key == key ensures t.outcomes[j] == s.outcomes[j] {
      EarlierIsSettled(s, i, j);
    }
    assert t.updates[..i] == t.updates[..|s.updates|][..i];
    assert t.updates[i] == t.updates[..|s.updates|][i];
    ReplayDependsOnPrefix(s, t, initial, key, i);
  }

  lemma EndedFits<K(!new), V>(s: State<K, V>, initial: map<K, V>, e: Event<K, V>, i: nat, trace: Trace)
    requires Refinement(s, initial) && Enabled(s, e) && i < |s.outcomes| && s.outcomes[i] != Open
    requires TraceFits(s, initial, i, trace)
    ensures Sized(Step(s, e)) && TraceFits(Step(s, e), initial, i, Traced(trace, e, i))
  {
    BeforeStands(s, initial, e, i);
  }

  lemma OwnStepFits<K(!new), V>(s: State<K, V>, initial: map<K, V>, e: Event<K, V>, i: nat, trace: Trace)
    requires Refinement(s, initial) && Enabled(s, e) && i < |s.outcomes| && s.outcomes[i] == Open
    requires e.ReadAnswers? || e.UpdateAnswers? || e.StoreAnswers?
    requires e.i == i && TraceFits(s, initial, i, trace)
    ensures Sized(Step(s, e)) && TraceFits(Step(s, e), initial, i, Traced(trace, e, i))
  {
    BeforeStands(s, initial, e, i);
    RunningSeesAllBefore(s, initial, i);
    assert WorkIsCurrent(s, i);
  }

  /** A step that is not of the call leaves its work where it was. */
  lemma OtherWork<K, V>(s: State<K, V>, e: Event<K, V>, i: nat)
    requires Sized(s) && Enabled(s, e)
    requires e.CallMade? || e.TaskStarts? || e.FinallyRuns? || e.i != i
    ensures !(e.TaskStarts? && e.i == i) ==> (i in Step(s, e).work <==> i in s.work)
    ensures i in s.work && i in Step(s, e).work && !(e.TaskStarts? && e.i == i) ==> Step(s, e).work[i] == s.work[i]
    ensures i < |s.outcomes| ==> Step(s, e).outcomes[i] == s.outcomes[i] && Step(s, e).updates[i] == s.updates[i]
    ensures |s.outcomes| <= i < |Step(s, e).outcomes| ==> Step(s, e).outcomes[i] == Open
  {
  }

  lemma OtherStepFits<K(!new), V>(s: State<K, V>, initial: map<K, V>, e: Event<K, V>, i: nat, trace: Trace)
    requires TasksValid(s) && Enabled(s, e) && (i < |s.outcomes| ==> s.outcomes[i] == Open)
    requires e.CallMade? || e.TaskStarts? || e.FinallyRuns? || e.i != i
    requires TraceFits(s, initial, i, trace)
    ensures Sized(Step(s, e)) && TraceFits(Step(s, e), initial, i, Traced(trace, e, i))
  {
    StepShape(s, e);
    OtherWork(s, e, i);
    assert i in s.work <==> IsRunning(s.chain, i);
    if e.TaskStarts? && e.i == i {
      assert !IsRunning(s.chain, i) && Step(s, e).work[i] == Reading;
    }
  }

  lemma {:induction false} RunTraces<K(!new), V>(initial: map<K, V>, events: seq<Event<K, V>>, i: nat)
    ensures Refinement(Run(Fresh(initial), events), initial)
    ensures TraceFits(Run(Fresh(initial), events), initial, i, TraceOf(initial, events, i))
  {
    AnyScheduleIsSequential(initial, events);
    if events != [] {
      var front, e := events[..|events| - 1], events[|events| - 1];
      RunTraces(initial, front, i);
      TraceGrows(initial, events, i);
      var s, trace := Run(Fresh(initial), front), TraceOf(initial, front, i);
      if Enabled(s, e) {
        if i < |s.outcomes| && s.outcomes[i] != Open {
          EndedFits(s, initial, e, i, trace);
        } else if (e.ReadAnswers? || e.UpdateAnswers? || e.StoreAnswers?) && e.i == i {
          OwnStepFits(s, initial, e, i, trace);
        } else {
          OtherStepFits(s, initial, e, i, trace);
        }
      }
    }
  }

  /** Over every run and of every call: it is settled, and how, exactly as what was answered to it says of the
      value before it in call order; and a task that is under way awaits what was not answered yet. */
  lemma {:induction false} EachCallEnds<K(!new), V>(initial: map<K, V>, events: seq<Event<K, V>>, i: nat)
    requires i < |Run(Fresh(initial), events).outcomes|
    ensures Refinement(Run(Fresh(initial), events), initial)
    ensures var s, trace := Run(Fresh(initial), events), TraceOf(initial, events, i);
            && s.outcomes[i] == Ends(s.updates[i], Replay(s, initial, s.chain.links[i].key, i), trace)
            && AwaitsRest(s, i, trace)
  {
    RunTraces(initial, events, i);
    var s, trace := Run(Fresh(initial), events), TraceOf(initial, events, i);
    if s.outcomes[i] == Open && trace.updated {
      assert IsRunning(s.chain, i) && WorkIsCurrent(s, i);
      RunningSeesAllBefore(s, initial, i);
    }
  }

  /** The mutator's closure: its `pending` map, and beside it what the runtime keeps for it, the
      promises and the store the tasks work on. */
  class SerialRecordMutator<K(==,!new), V> {
    var pending: map<K, nat>
    var promises: seq<Link<K>>
    var updates: seq<Updater<V>>
    var work: map<nat, Work<V>>
    var outcomes: seq<Outcome<V>>
    var store: map<K, V>
    ghost var initial: map<K, V>

    function Now(): State<K, V>
      reads this
    {
      State(Chain(promises, pending), updates, work, outcomes, store)
    }

    ghost predicate Valid()
      reads this
    {
      Refinement(Now(), initial)
    }

    constructor (store: map<K, V>)
      ensures Valid() && Now() == Fresh(store) && initial == store
    {
      pending, promises, updates, work, outcomes := map[], [], [], map[], [];
      this.store := store;
      initial := store;
      new;
      AnyScheduleIsSequential(store, []);
    }

    method Mutate(key: K, update: Updater<V>) returns (mutation: nat)
      requires Valid()
      modifies this
      ensures Valid() && initial == old(initial)
      ensures mutation == |old(promises)| && Now() == Step(old(Now()), CallMade(key, update))
    {
      StepKeepsRefinement(Now(), initial, CallMade(key, update));
      var previous := Get(pending, key);
      mutation := |promises|;
      promises := promises + [Link(key, previous, Waiting)];
      updates, outcomes := updates + [update], outcomes + [Open];
      pending := pending[key := mutation];
    }

    method StartTask(i: nat)
      requires Valid() && Enabled(Now(), TaskStarts(i))
      modifies this`promises, this`work
      ensures Valid() && Now() == Step(old(Now()), TaskStarts(i))
    {
      StepKeepsRefinement(Now(), initial, TaskStarts(i));
      promises := promises[i := promises[i].(phase := Running)];
      work := work[i := Reading];
    }

    method AnswerRead(i: nat, ok: bool)
      requires Valid() && Enabled(Now(), ReadAnswers(i, ok))
      modifies this`promises, this`work, this`outcomes
      ensures Valid() && Now() == Step(old(Now()), ReadAnswers(i, ok))
    {
      StepKeepsRefinement(Now(), initial, ReadAnswers(i, ok));
      if ok {
        work := work[i := Updating(Get(store, promises[i].key))];
      } else {
        EndTask(i, Rejected(false));
      }
    }

    method AnswerUpdate(i: nat)
      requires Valid() && Enabled(Now(), UpdateAnswers(i))
      modifies this`promises, this`work, this`outcomes
      ensures Valid() && Now() == Step(old(Now()), UpdateAnswers(i))
    {
      StepKeepsRefinement(Now(), initial, UpdateAnswers(i));
      Decide(i);
    }

    method Decide(i: nat)
      requires Awaits(Now(), i) && work[i].Updating?
      modifies this`promises, this`work, this`outcomes
      ensures Now() == UpdateAnswered(old(Now()), i)
    {
      var current := work[i].current;
      match updates[i](current) {
        case Throw => EndTask(i, Rejected(false));
        case Keep => EndTask(i, Resolved(current));
        case Erase => work := work[i := Storing(current, None)];
        case Put(value) => work := work[i := Storing(current, Some(value))];
      }
    }

    method AnswerStore(i: nat, ok: bool, applied: bool)
      requires Valid() && Enabled(Now(), StoreAnswers(i, ok, applied))
      modifies this`promises, this`work, this`outcomes, this`store
      ensures Valid() && Now() == Step(old(Now()), StoreAnswers(i, ok, applied))
    {
      StepKeepsRefinement(Now(), initial, StoreAnswers(i, ok, applied));
      var next := work[i].next;
      if ok || applied {
        store := match next { case Some(value) => store[promises[i].key := value]
                              case None => store - {promises[i].key} };
      }
      EndTask(i, if ok then Resolved(next) else Rejected(applied));
    }

    method Finally(i: nat)
      requires Valid() && Enabled(Now(), FinallyRuns(i))
      modifies this`pending
      ensures Valid() && Now() == Step(old(Now()), FinallyRuns(i))
    {
      StepKeepsRefinement(Now(), initial, FinallyRuns(i));
      if promises[i].key in pending && pending[promises[i].key] == i {
        pending := pending - {promises[i].key};
      }
    }

    method EndTask(i: nat, outcome: Outcome<V>)
      requires Awaits(Now(), i)
      modifies this`promises, this`work, this`outcomes
      ensures Now() == Ended(old(Now()), i, outcome, store)
    {
      promises := promises[i := promises[i].(phase := Settled(outcome.Resolved?))];
      work := work - {i};
      outcomes := outcomes[i := outcome];
    }
  }
}
