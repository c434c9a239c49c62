/**
 The purse reading behind the withdrawal gate. Each refresh starts a chain of reads under its own
 epoch; a chain that fails retries behind a timer, and a retry that comes due in a hidden tab is held
 until the tab is seen again. The screen is taken from its mount on.
 */
module PurseBalance {
  import opened Wrappers

  const RETRY_DELAYS_MS: seq<nat> := [2_000, 5_000, 15_000]
  const RETRY_STEADY_MS: nat := 30_000

  datatype Purse = Unknown | NoPurse | Known(balance: nat)

  /** `asked`, history: how many refreshes had said the purse was drawn on when the read began. */
  datatype Read = Read(run: nat, attempt: nat, asked: nat)

  /** History, in the order they were asked for, of the refreshes that said the purse was drawn on: how
      many there were, the last one that was heeded, the last one that was dropped because the reading
      was off, and how many there had been when the read began that the purse shown came from. */
  datatype Spends = Spends(asked: nat, heeded: nat, dropped: nat, shown: nat)

  /** What a read brings: a balance, a host without payments, or an error. */
  datatype Brought = Balance(balance: nat) | NoPayments | Threw

  datatype Timeout = Timeout(retry: Read, delay: nat)

  /** `reading` and `pending` are the reads and timeouts that are out. History: `due`, whether the
      last chain has neither landed nor been called off; `readIn`, the epoch the purse shown was read
      in; `spentIn`, the epoch of the last refresh that said the purse was drawn on, or of the last
      time the reading was turned off. */
  datatype State = State(
    hosted: bool,
    enabled: bool,
    watched: bool,
    mounted: bool,
    hidden: bool,
    purse: Purse,
    failed: bool,
    epoch: nat,
    retryTimer: Option<nat>,
    heldRetry: Option<Read>,
    reading: seq<Read>,
    pending: map<nat, Timeout>,
    handles: nat,
    due: bool,
    readIn: nat,
    spentIn: nat,
    spends: Spends)

  datatype Event =
    | Refresh(spent: bool)
    | EnabledTurns(on: bool)
    | WatchRuns
    | VisibilityChanges(hidden: bool)
    | Fires(handle: nat)
    | ReadEnds(r: nat, brought: Brought)
    | Unmounts

  function Resting(hosted: bool): Purse {
    if hosted then Unknown else NoPurse
  }

  function DelayAfter(attempt: nat): nat {
    if attempt < |RETRY_DELAYS_MS| then RETRY_DELAYS_MS[attempt] else RETRY_STEADY_MS
  }

  function RetryCancelled(s: State): State {
    s.(pending := if s.retryTimer.Some? then s.pending - {s.retryTimer.value} else s.pending,
       retryTimer := None,
       heldRetry := None)
  }

  /** `read` up to its first await. Outside a host it is over at once. */
  function Reading(s: State, read: Read): State {
    if s.hosted then s.(reading := s.reading + [read.(asked := s.spends.asked)])
    else s.(purse := NoPurse, failed := false, due := false)
  }

  function Asked(spends: Spends, enabled: bool): Spends {
    var n := spends.asked + 1;
    if enabled then spends.(asked := n, heeded := n) else spends.(asked := n, dropped := n)
  }

  function Refreshed(s: State, spent: bool): State {
    var spends := if spent then Asked(s.spends, s.enabled) else s.spends;
    if !s.enabled then s.(spends := spends)
    else
      var t := RetryCancelled(s);
      Reading(t.(purse := if spent && t.purse.Known? then Unknown else t.purse,
                 epoch := t.epoch + 1,
                 due := true,
                 spentIn := if spent then t.epoch + 1 else t.spentIn,
                 spends := spends),
              Read(t.epoch + 1, 0, 0))
  }

  function TurnedOff(s: State): State {
    RetryCancelled(s).(epoch := s.epoch + 1, purse := Resting(s.hosted), failed := false,
                       due := false, spentIn := s.epoch + 1)
  }

  function Landed(s: State, purse: Purse, read: Read): State {
    s.(purse := purse, failed := false, due := false, readIn := s.epoch, spends := s.spends.(shown := read.asked))
  }

  function Retried(s: State, read: Read): State {
    s.(purse := if s.purse.Known? then s.purse else Unknown,
       failed := s.failed || (!s.purse.Known? && read.attempt >= |RETRY_DELAYS_MS|),
       retryTimer := Some(s.handles),
       pending := s.pending[s.handles := Timeout(read.(attempt := read.attempt + 1), DelayAfter(read.attempt))],
       handles := s.handles + 1)
  }

  function Ended(s: State, read: Read, brought: Brought): State {
    if read.run != s.epoch then s
    else match brought
         case Balance(b) => Landed(s, Known(b), read)
         case NoPayments => Landed(s, NoPurse, read)
         case Threw => Retried(s, read)
  }

  function FiredOf(s: State, handle: nat): State
    requires handle in s.pending
  {
    var retry, t := s.pending[handle].retry, s.(pending := s.pending - {handle}, retryTimer := None);
    if s.hidden then t.(heldRetry := Some(retry)) else Reading(t, retry)
  }

  function Seen(s: State): State {
    if s.hidden || s.heldRetry.None? then s else Reading(s.(heldRetry := None), s.heldRetry.value)
  }

  function Without<T>(xs: seq<T>, k: nat): seq<T>
    requires k < |xs|
  {
    xs[..k] + xs[k + 1..]
  }

  predicate Enabled(s: State, e: Event) {
    match e
    case Fires(handle) => handle in s.pending
    case ReadEnds(r, _) => r < |s.reading|
    case _ => true
  }

  function Step(s: State, e: Event): State
    requires Enabled(s, e)
  {
    match e
    case Refresh(spent) => Refreshed(s, spent)
    case EnabledTurns(on) => s.(enabled := on)
    case WatchRuns =>
      if !s.mounted || s.watched == s.enabled then s
      else if s.enabled then Refreshed(s.(watched := true), false)
      else TurnedOff(s.(watched := false))
    case VisibilityChanges(hidden) => if s.mounted then Seen(s.(hidden := hidden)) else s.(hidden := hidden)
    case Fires(handle) => FiredOf(s, handle)
    case ReadEnds(r, brought) => Ended(s.(reading := Without(s.reading, r)), s.reading[r], brought)
    case Unmounts => RetryCancelled(s).(epoch := s.epoch + 1, mounted := false, due := false)
  }

  function Fresh(hosted: bool, enabled: bool, hidden: bool): State {
    State(hosted, enabled, enabled, true, hidden, Resting(hosted), false, 0, None, None, [], map[], 0, false, 0, 0,
          Spends(0, 0, 0, 0))
  }

  function Mounted(hosted: bool, enabled: bool, hidden: bool): State {
    Refreshed(Fresh(hosted, enabled, hidden), false)
  }

  function Run(start: State, events: seq<Event>): State {
    if events == [] then start
    else
      var before := Run(start, events[..|events| - 1]);
      var last := events[|events| - 1];
      if Enabled(before, last) then Step(before, last) else before
  }

  // ----- what every step keeps

  /** How many of the reads that are out belong to `run`. */
  function ReadsOf(reading: seq<Read>, run: nat): nat {
    if reading == [] then 0
    else ReadsOf(reading[..|reading| - 1], run) + if reading[|reading| - 1].run == run then 1 else 0
  }

  /** Everything that can still move the current chain on. */
  function Alive(s: State): nat {
    ReadsOf(s.reading, s.epoch) + |s.pending| + if s.heldRetry.Some? then 1 else 0
  }

  ghost predicate RetriesFit(s: State) {
    && (forall r | r in s.reading :: r.run <= s.epoch)
    && (forall h | h in s.pending :: s.retryTimer == Some(h) && h < s.handles && s.pending[h].retry.run == s.epoch)
    && (forall h | h in s.pending ::
          s.pending[h].retry.attempt > 0 && s.pending[h].delay == DelayAfter(s.pending[h].retry.attempt - 1))
    && (s.heldRetry.Some? ==> s.heldRetry.value.run == s.epoch && (s.mounted ==> s.hidden))
    && Alive(s) == (if s.due then 1 else 0)
  }

  predicate PurseFits(s: State) {
    && (s.failed ==> s.purse == Unknown)
    && (s.purse.Known? ==> s.spentIn <= s.readIn)
    && s.readIn <= s.epoch && s.spentIn <= s.epoch
    && (!s.hosted ==> !s.due && s.purse == NoPurse)
    && (s.hosted && s.mounted && s.watched && s.purse == Unknown ==> s.due)
  }

  /** Past the quick retries a purse that is not known is named as failed. */
  predicate Named(s: State, retry: Read) {
    retry.run == s.epoch && retry.attempt > |RETRY_DELAYS_MS| ==> s.failed || s.purse.Known?
  }

  ghost predicate FailureFits(s: State) {
    && (forall r | r in s.reading :: Named(s, r))
    && (forall h | h in s.pending :: Named(s, s.pending[h].retry))
    && (s.heldRetry.Some? ==> Named(s, s.heldRetry.value))
  }

  /** A heeded refresh orphans every read that began before it. */
  ghost predicate SpendsFit(s: State) {
    && s.spends.asked == (if s.spends.dropped > s.spends.heeded then s.spends.dropped else s.spends.heeded)
    && (forall r | r in s.reading :: r.run == s.epoch ==> s.spends.heeded <= r.asked <= s.spends.asked)
    && (s.purse.Known? ==> s.spends.heeded <= s.spends.shown <= s.spends.asked)
  }

  ghost predicate Fits(s: State) {
    RetriesFit(s) && PurseFits(s) && FailureFits(s) && SpendsFit(s)
  }

  lemma {:induction false} NoReadsOf(reading: seq<Read>, run: nat)
    requires forall r | r in reading :: r.run < run
    ensures ReadsOf(reading, run) == 0
  {
    if reading != [] {
      NoReadsOf(reading[..|reading| - 1], run);
    }
  }

  lemma {:induction false} ReadsOfMore(reading: seq<Read>, read: Read, run: nat)
    ensures ReadsOf(reading + [read], run) == ReadsOf(reading, run) + if read.run == run then 1 else 0
  {
    assert (reading + [read])[..|reading|] == reading;
  }

  lemma {:induction false} ReadsOfWithout(reading: seq<Read>, k: nat, run: nat)
    requires k < |reading|
    ensures ReadsOf(reading, run) == ReadsOf(Without(reading, k), run) + if reading[k].run == run then 1 else 0
  {
    var last := |reading| - 1;
    if k == last {
      assert Without(reading, k) == reading[..last];
    } else {
      ReadsOfWithout(reading[..last], k, run);
      assert Without(reading, k) == Without(reading[..last], k) + [reading[last]];
      ReadsOfMore(Without(reading[..last], k), reading[last], run);
    }
  }

  lemma CancelledIsClear(s: State)
    requires RetriesFit(s)
    ensures RetryCancelled(s).pending == map[]
  {
  }

  /** A new epoch has no reads yet. */
  lemma NewEpochIsFree(s: State)
    requires RetriesFit(s)
    ensures ReadsOf(s.reading, s.epoch + 1) == 0
  {
    NoReadsOf(s.reading, s.epoch + 1);
  }

  // A refresh.

  lemma RefreshKeepsRetries(s: State, spent: bool)
    requires s.enabled && RetriesFit(s)
    ensures RetriesFit(Refreshed(s, spent))
  {
    NewEpochIsFree(s);
    CancelledIsClear(s);
    var read := Read(s.epoch + 1, 0, Refreshed(s, spent).spends.asked);
    ReadsOfMore(s.reading, read, s.epoch + 1);
  }

  lemma RefreshKeepsPurse(s: State, spent: bool)
    requires s.enabled && PurseFits(s.(watched := false))
    ensures PurseFits(Refreshed(s, spent))
  {
  }

  lemma RefreshKeepsReads(s: State, spent: bool)
    requires s.enabled && RetriesFit(s) && SpendsFit(s)
    ensures FailureFits(Refreshed(s, spent)) && SpendsFit(Refreshed(s, spent))
  {
    CancelledIsClear(s);
  }

  lemma RefreshKeepsFits(s: State, spent: bool)
    requires s.enabled && RetriesFit(s) && PurseFits(s.(watched := false)) && SpendsFit(s)
    ensures Fits(Refreshed(s, spent))
  {
    RefreshKeepsRetries(s, spent);
    RefreshKeepsPurse(s, spent);
    RefreshKeepsReads(s, spent);
  }

  // Calling everything off.

  lemma OffKeepsRetries(s: State)
    requires RetriesFit(s)
    ensures RetriesFit(TurnedOff(s)) && RetriesFit(Step(s, Unmounts))
  {
    CancelledIsClear(s);
    NewEpochIsFree(s);
  }

  lemma OffKeepsReads(s: State)
    requires RetriesFit(s) && SpendsFit(s)
    ensures FailureFits(TurnedOff(s)) && SpendsFit(TurnedOff(s))
    ensures FailureFits(Step(s, Unmounts)) && SpendsFit(Step(s, Unmounts))
  {
    CancelledIsClear(s);
  }

  lemma OffKeepsFits(s: State)
    requires Fits(s)
    ensures !s.watched ==> Fits(TurnedOff(s))
    ensures Fits(Step(s, Unmounts))
  {
    OffKeepsRetries(s);
    OffKeepsReads(s);
  }

  // A retry that comes due, or is released.

  lemma FireKeepsRetries(s: State, handle: nat)
    requires RetriesFit(s) && handle in s.pending
    ensures RetriesFit(FiredOf(s, handle))
  {
    assert s.pending.Keys == {handle};
    assert s.pending - {handle} == map[];
    assert |s.pending| == |s.pending.Keys| == 1;
    ReadsOfMore(s.reading, s.pending[handle].retry.(asked := s.spends.asked), s.epoch);
  }

  lemma FireKeepsReads(s: State, handle: nat)
    requires RetriesFit(s) && PurseFits(s) && FailureFits(s) && SpendsFit(s) && handle in s.pending
    ensures PurseFits(FiredOf(s, handle)) && FailureFits(FiredOf(s, handle)) && SpendsFit(FiredOf(s, handle))
  {
    assert Named(s, s.pending[handle].retry);
  }

  lemma SeenKeepsRetries(s: State)
    requires RetriesFit(s.(hidden := true)) && s.mounted
    ensures RetriesFit(Seen(s))
  {
    if s.heldRetry.Some? {
      ReadsOfMore(s.reading, s.heldRetry.value.(asked := s.spends.asked), s.epoch);
    }
  }

  lemma SeenKeepsReads(s: State)
    requires PurseFits(s) && FailureFits(s) && SpendsFit(s)
    ensures PurseFits(Seen(s)) && FailureFits(Seen(s)) && SpendsFit(Seen(s))
  {
  }

  // The end of a read.

  lemma LoneRead(s: State, r: nat)
    requires RetriesFit(s) && r < |s.reading| && s.reading[r].run == s.epoch
    ensures s.due && s.pending == map[] && s.heldRetry.None? && ReadsOf(Without(s.reading, r), s.epoch) == 0
  {
    ReadsOfWithout(s.reading, r, s.epoch);
  }

  lemma WithoutIsIn(reading: seq<Read>, r: nat)
    requires r < |reading|
    ensures forall read | read in Without(reading, r) :: read in reading
  {
  }

  /** The read is out of the way, and its chain has nothing going. */
  ghost predicate Between(t: State, read: Read) {
    && read.run == t.epoch && t.due && t.pending == map[] && t.heldRetry.None?
    && ReadsOf(t.reading, t.epoch) == 0
    && (forall r | r in t.reading :: r.run < t.epoch)
    && PurseFits(t) && Named(t, read)
    && t.spends.heeded <= read.asked <= t.spends.asked && SpendsFit(t)
  }

  lemma OneTimer(handle: nat, timeout: Timeout)
    ensures |map[handle := timeout]| == 1
  {
    assert map[handle := timeout].Keys == {handle};
  }

  lemma RetryFits(t: State, read: Read)
    requires Between(t, read)
    ensures Fits(Retried(t, read))
  {
    OneTimer(t.handles, Timeout(read.(attempt := read.attempt + 1), DelayAfter(read.attempt)));
  }

  lemma LandingFits(t: State, read: Read, purse: Purse)
    requires Between(t, read) && purse != Unknown && (purse.Known? ==> t.hosted)
    ensures Fits(Landed(t, purse, read))
  {
  }

  lemma OldReadEnds(s: State, r: nat)
    requires Fits(s) && r < |s.reading| && s.reading[r].run != s.epoch
    ensures Fits(s.(reading := Without(s.reading, r)))
  {
    ReadsOfWithout(s.reading, r, s.epoch);
    WithoutIsIn(s.reading, r);
  }

  lemma CurrentReadIsOut(s: State, r: nat)
    requires Fits(s) && r < |s.reading| && s.reading[r].run == s.epoch
    ensures Between(s.(reading := Without(s.reading, r)), s.reading[r])
  {
    LoneRead(s, r);
    WithoutIsIn(s.reading, r);
    forall read | read in Without(s.reading, r) ensures read.run < s.epoch {
      OthersAreOlder(Without(s.reading, r), s.epoch, read);
    }
  }

  lemma ReadEndKeepsFits(s: State, r: nat, brought: Brought)
    requires Fits(s) && r < |s.reading|
    ensures Fits(Step(s, ReadEnds(r, brought)))
  {
    var t, read := s.(reading := Without(s.reading, r)), s.reading[r];
    if read.run != s.epoch {
      OldReadEnds(s, r);
    } else {
      CurrentReadIsOut(s, r);
      match brought
      case Balance(balance) => LandingFits(t, read, Known(balance));
      case NoPayments => LandingFits(t, read, NoPurse);
      case Threw => RetryFits(t, read);
    }
  }

  lemma {:induction false} OthersAreOlder(reading: seq<Read>, run: nat, read: Read)
    requires ReadsOf(reading, run) == 0 && read in reading
    ensures read.run != run
  {
    if reading[|reading| - 1] != read {
      assert reading == reading[..|reading| - 1] + [reading[|reading| - 1]];
      OthersAreOlder(reading[..|reading| - 1], run, read);
    }
  }

  lemma WatchKeepsFits(s: State)
    requires Fits(s)
    ensures Fits(Step(s, WatchRuns))
  {
    if s.mounted && s.watched != s.enabled {
      if s.enabled {
        RefreshKeepsFits(s.(watched := true), false);
      } else {
        OffKeepsFits(s.(watched := false));
      }
    }
  }

  lemma VisibilityKeepsFits(s: State, hidden: bool)
    requires Fits(s)
    ensures Fits(Step(s, VisibilityChanges(hidden)))
  {
    if s.mounted {
      SeenKeepsRetries(s.(hidden := hidden));
      SeenKeepsReads(s.(hidden := hidden));
    }
  }

  lemma DroppedKeepsFits(s: State, spent: bool)
    requires Fits(s) && !s.enabled
    ensures Fits(Refreshed(s, spent))
  {
  }

  lemma StepKeepsFits(s: State, e: Event)
    requires Fits(s) && Enabled(s, e)
    ensures Fits(Step(s, e))
  {
    match e
    case Refresh(spent) => if s.enabled { RefreshKeepsFits(s, spent); } else { DroppedKeepsFits(s, spent); }
    case EnabledTurns(_) =>
    case WatchRuns => WatchKeepsFits(s);
    case VisibilityChanges(hidden) => VisibilityKeepsFits(s, hidden);
    case Fires(handle) =>
      FireKeepsRetries(s, handle);
      FireKeepsReads(s, handle);
    case ReadEnds(r, brought) => ReadEndKeepsFits(s, r, brought);
    case Unmounts => OffKeepsFits(s);
  }

  lemma MountedFits(hosted: bool, enabled: bool, hidden: bool)
    ensures Fits(Mounted(hosted, enabled, hidden))
  {
    var s := Fresh(hosted, enabled, hidden);
    assert RetriesFit(s) && SpendsFit(s);
    if enabled {
      RefreshKeepsFits(s, false);
    }
  }

  lemma {:induction false} RunFits(start: State, events: seq<Event>)
    requires Fits(start)
    ensures Fits(Run(start, events))
  {
    if events != [] {
      RunFits(start, events[..|events| - 1]);
      var before := Run(start, events[..|events| - 1]);
      if Enabled(before, events[|events| - 1]) {
        StepKeepsFits(before, events[|events| - 1]);
      }
    }
  }

  /** The balance on the screen was read before a refresh that said it was drawn on. */
  predicate Stale(s: State) {
    s.purse.Known? && s.spends.shown < s.spends.asked
  }

  /** Whatever the screen, the tab, the timers and the host do: the current chain has one thing going
      while it is due and nothing otherwise; a screen that reads a host's purse and does not know it
      has a chain due, and in a tab that is seen that is a read or a timer; a failure is named only
      while the purse is unknown; a balance on the screen was read by a chain no older than the last
      time the reading was off and the last heeded refresh that said it was drawn on; and it was read
      before some such refresh exactly when it was read before one that was dropped. */
  lemma {:induction false} GateIsReadAndNeverStale(hosted: bool, enabled: bool, hidden: bool, events: seq<Event>)
    ensures var s := Run(Mounted(hosted, enabled, hidden), events);
            && Alive(s) == (if s.due then 1 else 0)
            && (s.hosted && s.mounted && s.watched && s.purse == Unknown ==> s.due)
            && (s.due && s.mounted && !s.hidden ==> ReadsOf(s.reading, s.epoch) + |s.pending| == 1)
            && (s.failed ==> s.purse == Unknown)
            && (s.purse.Known? ==> s.spentIn <= s.readIn && (Stale(s) <==> s.spends.shown < s.spends.dropped))
            && (forall h | h in s.pending ::
                  s.pending[h].retry.attempt > 0 && s.pending[h].delay == DelayAfter(s.pending[h].retry.attempt - 1))
  {
    MountedFits(hosted, enabled, hidden);
    RunFits(Mounted(hosted, enabled, hidden), events);
  }

  /** A read of an older epoch changes nothing at all. */
  lemma OldReadChangesNothing(s: State, r: nat, brought: Brought)
    requires r < |s.reading| && s.reading[r].run != s.epoch
    ensures Step(s, ReadEnds(r, brought)) == s.(reading := Without(s.reading, r))
  {
  }

  /** A balance is given up for `unknown` only by a refresh that says it was drawn on, or by turning the
      reading off. */
  lemma BalanceStands(s: State, e: Event)
    requires Fits(s) && Enabled(s, e)
    ensures s.purse.Known? && Step(s, e).purse == Unknown ==>
              (s.enabled && e == Refresh(true)) || (e == WatchRuns && s.mounted && s.watched && !s.enabled)
  {
    match e
    case Refresh(_) =>
    case WatchRuns =>
    case ReadEnds(_, _) =>
    case _ =>
  }

  /** How the current chain's read ends: an answer is shown and ends the chain; an error leaves a known
      balance, and otherwise the failure is named from the last quick retry on, and the chain goes on
      behind one timer. */
  lemma CurrentReadEnds(s: State, r: nat, brought: Brought)
    requires Fits(s) && r < |s.reading| && s.reading[r].run == s.epoch
    ensures var t, attempt := Step(s, ReadEnds(r, brought)), s.reading[r].attempt;
            && s.due && ReadsOf(t.reading, t.epoch) == 0
            && (brought.Balance? ==> t.purse == Known(brought.balance) && !t.failed && Alive(t) == 0)
            && (brought.NoPayments? ==> t.purse == NoPurse && !t.failed && Alive(t) == 0)
            && (brought.Threw? ==>
                  && t.purse == (if s.purse.Known? then s.purse else Unknown)
                  && (t.failed <==> !s.purse.Known? && (s.failed || attempt == |RETRY_DELAYS_MS|))
                  && |t.pending| == 1 && t.retryTimer.Some? && t.retryTimer.value in t.pending
                  && t.pending[t.retryTimer.value]
                     == Timeout(s.reading[r].(attempt := attempt + 1), DelayAfter(attempt)))
  {
    LoneRead(s, r);
    StepKeepsFits(s, ReadEnds(r, brought));
    OneTimer(s.handles, Timeout(s.reading[r].(attempt := s.reading[r].attempt + 1), DelayAfter(s.reading[r].attempt)));
    assert Named(s, s.reading[r]);
  }

  /** A refresh that says a shown balance was drawn on leaves it standing exactly when it finds the
      reading off, and the balance is then stale. */
  lemma SpentRefreshIsLostIff(s: State)
    requires Fits(s) && s.purse.Known?
    ensures var t := Step(s, Refresh(true));
            && (t.purse == s.purse <==> !s.enabled)
            && (t.purse != s.purse ==> t.purse == Unknown)
            && (Stale(t) <==> !s.enabled)
  {
  }

  /** Such a refresh at event `m` of a run finds the reading off. */
  predicate DropsAt(start: State, events: seq<Event>, m: nat)
    requires m < |events|
  {
    events[m] == Refresh(true) && !Run(start, events[..m]).enabled
  }

  lemma StepDrops(s: State, e: Event)
    requires Enabled(s, e)
    ensures Step(s, e).spends.dropped > 0 <==> s.spends.dropped > 0 || (e == Refresh(true) && !s.enabled)
  {
    match e
    case Refresh(spent) => RefreshDrops(s, spent);
    case WatchRuns => RefreshDrops(s.(watched := true), false);
    case Fires(_) =>
    case ReadEnds(_, _) =>
    case _ =>
  }

  lemma RefreshDrops(s: State, spent: bool)
    ensures Refreshed(s, spent).spends == if spent then Asked(s.spends, s.enabled) else s.spends
  {
  }

  lemma {:induction false} DroppedIff(start: State, events: seq<Event>)
    requires start.spends.dropped == 0
    ensures Run(start, events).spends.dropped > 0 <==> exists m: nat | m < |events| :: DropsAt(start, events, m)
  {
    if events != [] {
      var front := events[..|events| - 1];
      DroppedIff(start, front);
      if Enabled(Run(start, front), events[|front|]) {
        StepDrops(Run(start, front), events[|front|]);
      }
      forall m: nat | m < |front| ensures DropsAt(start, events, m) <==> DropsAt(start, front, m) {
        assert events[..m] == front[..m];
      }
      assert DropsAt(start, events, |front|) <==> events[|front|] == Refresh(true) && !Run(start, front).enabled;
      assert Run(start, events).spends.dropped > 0
        <==> Run(start, front).spends.dropped > 0 || DropsAt(start, events, |front|);
    }
  }

  /** Over any run: a screen whose refreshes of that kind all find the reading on never shows a stale
      balance. */
  lemma {:induction false} NeverStaleUnlessDropped(hosted: bool, enabled: bool, hidden: bool, events: seq<Event>)
    ensures var start := Mounted(hosted, enabled, hidden);
            Stale(Run(start, events)) ==> exists m: nat | m < |events| :: DropsAt(start, events, m)
  {
    GateIsReadAndNeverStale(hosted, enabled, hidden, events);
    DroppedIff(Mounted(hosted, enabled, hidden), events);
  }

  /** And one that does not may: when the reading is on again before the watcher has run, the balance
      stands, and nothing is under way to replace it. */
  lemma SpentRefreshLostInABlink(balance: nat)
    ensures var known := Step(Mounted(true, true, false), ReadEnds(0, Balance(balance)));
            var off := Step(Step(known, EnabledTurns(false)), Refresh(true));
            var s := Step(Step(off, EnabledTurns(true)), WatchRuns);
            s.purse == Known(balance) && Stale(s) && !s.due && s.watched == s.enabled
  {
  }

  // ----- the composable

  class UsePurseBalance {
    const hosted: bool
    var enabled: bool
    var watched: bool
    var mounted: bool
    var hidden: bool
    var purse: Purse
    var failed: bool
    var epoch: nat
    var retryTimer: Option<nat>
    var heldRetry: Option<Read>
    var reading: seq<Read>
    var pending: map<nat, Timeout>
    var handles: nat
    var spends: Spends
    ghost var due: bool
    ghost var readIn: nat
    ghost var spentIn: nat

    ghost function Now(): State
      reads this
    {
      State(hosted, enabled, watched, mounted, hidden, purse, failed, epoch, retryTimer, heldRetry,
            reading, pending, handles, due, readIn, spentIn, spends)
    }

    constructor OnMounted(hosted: bool, enabled: bool, hidden: bool)
      ensures Now() == Mounted(hosted, enabled, hidden)
    {
      this.hosted, this.enabled, watched, mounted, this.hidden := hosted, enabled, enabled, true, hidden;
      purse, failed, epoch := Resting(hosted), false, 0;
      retryTimer, heldRetry, reading, pending, handles := None, None, [], map[], 0;
      due, readIn, spentIn, spends := false, 0, 0, Spends(0, 0, 0, 0);
      new;
      RefreshNow(false);
    }

    method CancelRetry()
      modifies this
      ensures Now() == RetryCancelled(old(Now()))
    {
      if retryTimer.Some? {
        pending := pending - {retryTimer.value};
      }
      retryTimer := None;
      heldRetry := None;
    }

    method StartRead(run: nat, attempt: nat)
      modifies this
      ensures Now() == Reading(old(Now()), Read(run, attempt, 0))
    {
      if !hosted {
        purse := NoPurse;
        failed := false;
        due := false;
        return;
      }
      reading := reading + [Read(run, attempt, spends.asked)];
    }

    method RefreshNow(spent: bool)
      modifies this
      ensures Now() == Refreshed(old(Now()), spent)
    {
      if spent {
        spends := Asked(spends, enabled);
      }
      if !enabled { return; }
      CancelRetry();
      BeginChain(spent);
    }

    method BeginChain(spent: bool)
      modifies this
      ensures var s := old(Now());
              Now() == Reading(s.(purse := if spent && s.purse.Known? then Unknown else s.purse, epoch := s.epoch + 1,
                                  due := true, spentIn := if spent then s.epoch + 1 else s.spentIn),
                               Read(s.epoch + 1, 0, 0))
    {
      if spent && purse.Known? {
        purse := Unknown;
      }
      epoch := epoch + 1;
      due := true;
      spentIn := if spent then epoch else spentIn;
      StartRead(epoch, 0);
    }

    method TurnEnabled(on: bool)
      modifies this
      ensures Now() == Step(old(Now()), EnabledTurns(on))
    {
      enabled := on;
    }

    method Watch()
      modifies this
      ensures Now() == Step(old(Now()), WatchRuns)
    {
      if !mounted || watched == enabled { return; }
      watched := enabled;
      if enabled {
        RefreshNow(false);
        return;
      }
      TurnOff();
    }

    method TurnOff()
      modifies this
      ensures Now() == TurnedOff(old(Now()))
    {
      CancelRetry();
      epoch := epoch + 1;
      purse := Resting(hosted);
      failed := false;
      due, spentIn := false, epoch;
    }

    method ReleaseHeldRetry()
      modifies this
      ensures Now() == Seen(old(Now()))
    {
      if hidden || heldRetry.None? { return; }
      var retry := heldRetry.value;
      heldRetry := None;
      StartRead(retry.run, retry.attempt);
    }

    method ChangeVisibility(hidden: bool)
      modifies this
      ensures Now() == Step(old(Now()), VisibilityChanges(hidden))
    {
      this.hidden := hidden;
      if mounted {
        ReleaseHeldRetry();
      }
    }

    method TimerFires(handle: nat)
      requires handle in pending
      modifies this
      ensures Now() == Step(old(Now()), Fires(handle))
    {
      var retry := pending[handle].retry;
      pending := pending - {handle};
      retryTimer := None;
      if hidden {
        heldRetry := Some(retry);
        return;
      }
      StartRead(retry.run, retry.attempt);
    }

    method EndRead(r: nat, brought: Brought)
      requires r < |reading|
      modifies this
      ensures Now() == Step(old(Now()), ReadEnds(r, brought))
    {
      var read := reading[r];
      reading := Without(reading, r);
      if read.run != epoch { return; }
      match brought
      case Balance(balance) => Land(Known(balance), read);
      case NoPayments => Land(NoPurse, read);
      case Threw => Retry(read);
    }

    method Land(next: Purse, read: Read)
      modifies this
      ensures Now() == Landed(old(Now()), next, read)
    {
      purse := next;
      failed := false;
      due, readIn, spends := false, epoch, spends.(shown := read.asked);
    }

    method Retry(read: Read)
      modifies this
      ensures Now() == Retried(old(Now()), read)
    {
      if !purse.Known? {
        purse := Unknown;
        if read.attempt >= |RETRY_DELAYS_MS| && !failed {
          failed := true;
        }
      }
      retryTimer := Some(handles);
      pending := pending[handles := Timeout(read.(attempt := read.attempt + 1), DelayAfter(read.attempt))];
      handles := handles + 1;
    }

    method Unmount()
      modifies this
      ensures Now() == Step(old(Now()), Unmounts)
    {
      CancelRetry();
      epoch := epoch + 1;
      mounted := false;
      due := false;
    }
  }
}
