/**
 The number each request of a source takes: the stored counter, moved past every number that has left
 a trace. The counter is advanced once the request has started, and that write may be lost.
 */
module TradeNumbers {
  import opened Wrappers

  const TRADE_NUMBER_SEARCH_LIMIT: nat := 100

  /** What asking for the trace of one number gives. */
  datatype Probe = Free | Traced | Broke

  /** A write that rejects may have landed. */
  datatype Write = Done | Lost | LandedAndThrew

  datatype Refusal = NoFreeNumber | TraceUnreadable | WriteRefused

  function Lands(stored: Option<int>, write: Write, n: nat): Option<int> {
    if write == Lost then stored else Some(n)
  }

  /** A counter that is missing or malformed means 1. */
  function Counter(stored: Option<int>): (n: nat)
    ensures n >= 1
  {
    if stored.Some? && stored.value >= 1 then stored.value else 1
  }

  function Look(trace: nat -> Probe, from: nat, left: nat): Result<nat, Refusal>
    decreases left
  {
    if left == 0 then Err(NoFreeNumber)
    else match trace(from)
         case Free => Ok(from)
         case Broke => Err(TraceUnreadable)
         case Traced => Look(trace, from + 1, left - 1)
  }

  predicate TracedUpTo(trace: nat -> Probe, from: nat, to: nat) {
    forall k | from <= k < to :: trace(k) == Traced
  }

  /** The search finds the least number at or above the counter that is free, refuses exactly when all
      that it may ask about are taken, and fails exactly when an answer before that does. */
  lemma {:induction false} LookMeans(trace: nat -> Probe, from: nat, left: nat, n: nat)
    ensures Look(trace, from, left) == Ok(n) <==>
              from <= n < from + left && trace(n) == Free && TracedUpTo(trace, from, n)
    ensures Look(trace, from, left) == Err(NoFreeNumber) <==> TracedUpTo(trace, from, from + left)
    ensures Look(trace, from, left) == Err(TraceUnreadable) <==>
              exists k: nat | from <= k < from + left :: trace(k) == Broke && TracedUpTo(trace, from, k)
    decreases left
  {
    if left > 0 && trace(from) == Traced {
      LookMeans(trace, from + 1, left - 1, n);
      assert forall k: nat | k > from :: TracedUpTo(trace, from, k) <==> TracedUpTo(trace, from + 1, k);
    } else if left > 0 && trace(from) == Broke {
      assert TracedUpTo(trace, from, from);
    }
  }

  /** The counter a search starts from: a read that fails is a counter that is missing. */
  function Start(stored: Option<int>, counted: bool): nat {
    Counter(if counted then stored else None)
  }

  /** `nextFreeTradeNumber`: what it leaves stored, and what it gives. `counted`: the counter was read. */
  function NextFree(stored: Option<int>, counted: bool, trace: nat -> Probe, write: Write)
    : (Option<int>, Result<nat, Refusal>)
  {
    var counter := Start(stored, counted);
    match Look(trace, counter, TRADE_NUMBER_SEARCH_LIMIT)
    case Err(e) => (stored, Err(e))
    case Ok(n) =>
      if n == counter then (stored, Ok(n))
      else (Lands(stored, write, n), if write == Done then Ok(n) else Err(WriteRefused))
  }

  class TradeCounterKey {
    var stored: Option<int>

    constructor (stored: Option<int>)
      ensures this.stored == stored
    {
      this.stored := stored;
    }

    method NextFreeTradeNumber(counted: bool, trace: nat -> Probe, write: Write) returns (r: Result<nat, Refusal>)
      modifies this
      ensures (stored, r) == NextFree(old(stored), counted, trace, write)
    {
      var counter := Start(stored, counted);
      var n := counter;
      while trace(n) == Traced
        invariant counter <= n < counter + TRADE_NUMBER_SEARCH_LIMIT
        invariant Look(trace, counter, TRADE_NUMBER_SEARCH_LIMIT)
                  == Look(trace, n, counter + TRADE_NUMBER_SEARCH_LIMIT - n)
        decreases counter + TRADE_NUMBER_SEARCH_LIMIT - n
      {
        n := n + 1;
        if n - counter >= TRADE_NUMBER_SEARCH_LIMIT {
          return Err(NoFreeNumber);
        }
      }
      if trace(n) == Broke {
        return Err(TraceUnreadable);
      }
      if n != counter {
        stored := Lands(stored, write, n);
        if write != Done {
          return Err(WriteRefused);
        }
      }
      r := Ok(n);
    }

    /** A failed advance is only warned about. */
    method AdvanceTrade(n: nat, write: Write)
      modifies this
      ensures stored == Lands(old(stored), write, n + 1)
    {
      stored := Lands(stored, write, n + 1);
    }
  }

  // ----- whole runs

  /** `traced`: the numbers a record or a worker job knows. `quoted`: the number handed to the request
      being prepared. `advancing`: a request has started under it and its advance is not written yet.
      `taken`, a history, lists the numbers requests have started under. */
  datatype State = State(
    stored: Option<int>,
    traced: set<nat>,
    quoted: Option<nat>,
    advancing: Option<nat>,
    taken: seq<nat>)

  /** A quote may fail to read the counter, or the traces of the numbers in `unread`. */
  datatype Event =
    | Quote(counted: bool, unread: set<nat>, write: Write)
    | Starts
    | Advances(write: Write)
    | TraceAppears(n: nat)
    | TraceDrops(n: nat)

  predicate Enabled(s: State, e: Event) {
    && (e.Starts? ==> s.quoted.Some?)
    && (e.Advances? ==> s.advancing.Some?)
  }

  function TraceOf(traced: set<nat>, unread: set<nat>): nat -> Probe {
    n => if n in unread then Broke else if n in traced then Traced else Free
  }

  function Step(s: State, e: Event): State
    requires Enabled(s, e)
  {
    match e
    case Quote(counted, unread, write) =>
      var (stored, r) := NextFree(s.stored, counted, TraceOf(s.traced, unread), write);
      s.(stored := stored, quoted := if r.Ok? then Some(r.value) else None)
    case Starts =>
      var n := s.quoted.value;
      s.(traced := s.traced + {n}, quoted := None, advancing := Some(n), taken := s.taken + [n])
    case Advances(write) => s.(stored := Lands(s.stored, write, s.advancing.value + 1), advancing := None)
    case TraceAppears(n) => s.(traced := s.traced + {n})
    case TraceDrops(n) => s.(traced := s.traced - {n})
  }

  function Run(stored: Option<int>, traced: set<nat>, events: seq<Event>): State {
    if events == [] then State(stored, traced, None, None, [])
    else
      var before := Run(stored, traced, events[..|events| - 1]);
      var last := events[|events| - 1];
      if Enabled(before, last) then Step(before, last) else before
  }

  /** Starts do not overlap, the counter is read, and no trace goes that the counter has not passed. */
  predicate Careful(s: State, e: Event) {
    && (e.Quote? ==> s.advancing.None? && e.counted)
    && (e.TraceDrops? ==> e.n < Counter(s.stored))
  }

  predicate CarefulRun(stored: Option<int>, traced: set<nat>, events: seq<Event>) {
    events == []
    || (var before := events[..|events| - 1];
        CarefulRun(stored, traced, before) && Careful(Run(stored, traced, before), events[|events| - 1]))
  }

  ghost predicate Fits(s: State) {
    && (forall t | t in s.taken :: t < Counter(s.stored) || (t == Counter(s.stored) && t in s.traced))
    && (forall i, j | 0 <= i < j < |s.taken| :: s.taken[i] < s.taken[j])
    && (s.quoted.Some? ==> s.quoted.value == Counter(s.stored) && s.quoted.value !in s.taken && s.advancing.None?)
    && (s.advancing.Some? ==> s.advancing.value == Counter(s.stored))
  }

  lemma QuoteGives(s: State, e: Event)
    requires e.Quote?
    ensures var t, from := Step(s, e), Start(s.stored, e.counted);
            && (e.counted ==> Counter(t.stored) >= Counter(s.stored))
            && (t.quoted.Some? ==>
                  && t.quoted.value !in s.traced && from <= t.quoted.value
                  && TracedUpTo(TraceOf(s.traced, e.unread), from, t.quoted.value)
                  && (e.counted ==> t.quoted.value == Counter(t.stored)))
  {
    var trace, from := TraceOf(s.traced, e.unread), Start(s.stored, e.counted);
    var r := Look(trace, from, TRADE_NUMBER_SEARCH_LIMIT);
    if r.Ok? {
      LookMeans(trace, from, TRADE_NUMBER_SEARCH_LIMIT, r.value);
    }
  }

  lemma StepKeepsFits(s: State, e: Event)
    requires Fits(s) && Enabled(s, e) && Careful(s, e)
    ensures Fits(Step(s, e)) && Counter(Step(s, e).stored) >= Counter(s.stored)
  {
    if e.Quote? {
      QuoteGives(s, e);
    } else if e.Starts? {
      assert forall i | 0 <= i < |s.taken| :: s.taken[i] in s.taken;
    }
  }

  lemma {:induction false} RunFits(stored: Option<int>, traced: set<nat>, events: seq<Event>)
    requires CarefulRun(stored, traced, events)
    ensures Fits(Run(stored, traced, events))
  {
    if events != [] {
      var before := events[..|events| - 1];
      RunFits(stored, traced, before);
      if Enabled(Run(stored, traced, before), events[|events| - 1]) {
        StepKeepsFits(Run(stored, traced, before), events[|events| - 1]);
      }
    }
  }

  lemma {:induction false} CounterRises(stored: Option<int>, traced: set<nat>, events: seq<Event>, k: nat)
    requires CarefulRun(stored, traced, events) && k <= |events|
    ensures Counter(Run(stored, traced, events[..k]).stored) <= Counter(Run(stored, traced, events).stored)
    decreases |events|
  {
    if k == |events| {
      assert events[..k] == events;
    } else {
      var before := events[..|events| - 1];
      CounterRises(stored, traced, before, k);
      assert before[..k] == events[..k];
      RunFits(stored, traced, before);
      var s, e := Run(stored, traced, before), events[|events| - 1];
      if Enabled(s, e) {
        StepKeepsFits(s, e);
      }
    }
  }

  /** Whichever advances are lost: requests start under numbers that rise, so no number is ever taken
      twice; the number being handed out has no request under it; and the counter never moves back. */
  lemma {:induction false} NumbersAreTakenOnce(stored: Option<int>, traced: set<nat>, events: seq<Event>, k: nat)
    requires CarefulRun(stored, traced, events) && k <= |events|
    ensures var s := Run(stored, traced, events);
            && (forall i, j | 0 <= i < j < |s.taken| :: s.taken[i] < s.taken[j])
            && (s.quoted.Some? ==> s.quoted.value !in s.taken)
            && Counter(Run(stored, traced, events[..k]).stored) <= Counter(s.stored)
  {
    RunFits(stored, traced, events);
    CounterRises(stored, traced, events, k);
  }

  lemma TracedMeans(traced: set<nat>, unread: set<nat>, from: nat, to: nat)
    ensures TracedUpTo(TraceOf(traced, unread), from, to)
            <==> forall k: nat | from <= k < to :: k in traced && k !in unread
  {
    var trace := TraceOf(traced, unread);
    if TracedUpTo(trace, from, to) {
      forall k: nat | from <= k < to ensures k in traced && k !in unread {
        assert trace(k) == Traced;
      }
    }
  }

  /** Event `m` leaves a trace of `n`: one appears, or a request starts under it. None is dropped after. */
  ghost predicate TraceStands(stored: Option<int>, traced: set<nat>, events: seq<Event>, m: nat, n: nat)
    requires m < |events|
  {
    && (events[m] == TraceAppears(n) || (events[m].Starts? && Run(stored, traced, events[..m]).quoted == Some(n)))
    && Undropped(events[m + 1..], n)
  }

  predicate Undropped(events: seq<Event>, n: nat) {
    TraceDrops(n) !in events
  }

  lemma LastDropsOrNot(events: seq<Event>, n: nat)
    requires events != []
    ensures Undropped(events, n)
            <==> Undropped(events[..|events| - 1], n) && events[|events| - 1] != TraceDrops(n)
  {
    assert events == events[..|events| - 1] + [events[|events| - 1]];
  }

  lemma {:induction false} TraceStandsOn(
      stored: Option<int>, traced: set<nat>, events: seq<Event>, m: nat, n: nat)
    requires m + 1 < |events|
    ensures TraceStands(stored, traced, events, m, n)
            <==> TraceStands(stored, traced, events[..|events| - 1], m, n)
                 && events[|events| - 1] != TraceDrops(n)
  {
    var front := events[..|events| - 1];
    assert events[..m] == front[..m];
    assert events[m + 1..][..|events[m + 1..]| - 1] == front[m + 1..];
    LastDropsOrNot(events[m + 1..], n);
  }

  /** Over any run: a number has a trace exactly when one appeared, a request started under it, or it was
      there at the start, and it was not dropped since. */
  lemma {:induction false} TracedIff(stored: Option<int>, traced: set<nat>, events: seq<Event>, n: nat)
    ensures n in Run(stored, traced, events).traced
            <==> (n in traced && Undropped(events, n))
                 || exists m: nat | m < |events| :: TraceStands(stored, traced, events, m, n)
  {
    if events != [] {
      var front, last := events[..|events| - 1], events[|events| - 1];
      TracedIff(stored, traced, front, n);
      LastDropsOrNot(events, n);
      forall m: nat | m < |front|
        ensures TraceStands(stored, traced, events, m, n)
                <==> TraceStands(stored, traced, front, m, n) && last != TraceDrops(n)
      {
        TraceStandsOn(stored, traced, events, m, n);
      }
      assert TraceStands(stored, traced, events, |front|, n)
        <==> last == TraceAppears(n) || (last.Starts? && Run(stored, traced, front).quoted == Some(n));
    }
  }

  /** The quote can hand out `n` although a request has started under it: the number's trace is gone, the
      search gets to it from where it starts, and the counter need not move or its write is done. */
  predicate Reopens(s: State, e: Event, n: nat) {
    && e.Quote? && n in s.taken && n !in s.traced && n !in e.unread
    && var from := Start(s.stored, e.counted);
    && from <= n < from + 100
    && (forall k: nat | from <= k < n :: k in s.traced && k !in e.unread)
    && (n == from || e.write == Done)
  }

  /** In any state at all, these are exactly the quotes that hand out a taken number. */
  lemma QuoteRepeatsIff(s: State, e: Event, n: nat)
    requires e.Quote?
    ensures Step(s, e).quoted == Some(n) && n in s.taken <==> Reopens(s, e, n)
  {
    var trace, from := TraceOf(s.traced, e.unread), Start(s.stored, e.counted);
    LookMeans(trace, from, TRADE_NUMBER_SEARCH_LIMIT, n);
    TracedMeans(s.traced, e.unread, from, n);
  }

  predicate Repeats(taken: seq<nat>) {
    exists i, j | 0 <= i < j < |taken| :: taken[i] == taken[j]
  }

  lemma RepeatGrows(taken: seq<nat>, n: nat)
    ensures Repeats(taken + [n]) <==> Repeats(taken) || n in taken
  {
    var more := taken + [n];
    assert forall i | 0 <= i < |taken| :: more[i] == taken[i];
    assert more[|taken|] == n;
    if n in taken {
      var i :| 0 <= i < |taken| && taken[i] == n;
      assert more[i] == more[|taken|];
    }
    if i, j :| 0 <= i < j < |taken| && taken[i] == taken[j] {
      assert more[i] == more[j];
    }
  }

  /** Quote `q` of the run reopened `n`, and no quote or start came after it before event `m`. */
  predicate HoldsReopened(stored: Option<int>, traced: set<nat>, events: seq<Event>, q: nat, m: nat, n: nat)
    requires m <= |events|
  {
    && q < m && Reopens(Run(stored, traced, events[..q]), events[q], n)
    && forall i | q < i < m :: !events[i].Quote? && !events[i].Starts?
  }

  ghost predicate HandsOutTaken(stored: Option<int>, traced: set<nat>, events: seq<Event>, m: nat, n: nat)
    requires m <= |events|
  {
    exists q: nat :: HoldsReopened(stored, traced, events, q, m, n)
  }

  lemma HoldsInFront(stored: Option<int>, traced: set<nat>, events: seq<Event>, m: nat, n: nat)
    requires events != [] && m < |events|
    ensures HandsOutTaken(stored, traced, events, m, n)
            <==> HandsOutTaken(stored, traced, events[..|events| - 1], m, n)
  {
    var front := events[..|events| - 1];
    forall q: nat
      ensures HoldsReopened(stored, traced, events, q, m, n) <==> HoldsReopened(stored, traced, front, q, m, n)
    {
      if q < m {
        assert events[..q] == front[..q];
      }
    }
  }

  /** Over any run, careful or not: the number a request is being prepared under is taken exactly when some
      quote reopened it and no quote or start came since. */
  lemma {:induction false} QuotedIsTakenIff(stored: Option<int>, traced: set<nat>, events: seq<Event>, n: nat)
    ensures var s := Run(stored, traced, events);
            s.quoted == Some(n) && n in s.taken <==> HandsOutTaken(stored, traced, events, |events|, n)
  {
    if events != [] {
      var front, last := events[..|events| - 1], events[|events| - 1];
      var s := Run(stored, traced, front);
      QuotedIsTakenIff(stored, traced, front, n);
      HoldsInFront(stored, traced, events, |front|, n);
      if last.Quote? {
        QuoteRepeatsIff(s, last, n);
        assert HoldsReopened(stored, traced, events, |front|, |events|, n) <==> Reopens(s, last, n);
      } else if !last.Starts? {
        HoldsOn(stored, traced, events, n);
      }
    }
  }

  lemma HoldsOn(stored: Option<int>, traced: set<nat>, events: seq<Event>, n: nat)
    requires events != [] && !events[|events| - 1].Quote? && !events[|events| - 1].Starts?
    ensures HandsOutTaken(stored, traced, events, |events|, n)
            <==> HandsOutTaken(stored, traced, events, |events| - 1, n)
  {
    var m := |events| - 1;
    if q: nat :| HoldsReopened(stored, traced, events, q, |events|, n) {
      assert q != m;
      assert HoldsReopened(stored, traced, events, q, m, n);
    }
    if q: nat :| HoldsReopened(stored, traced, events, q, m, n) {
      assert HoldsReopened(stored, traced, events, q, |events|, n);
    }
  }

  /** Event `m` starts a request under `n`, which a quote before it reopened. */
  ghost predicate RestartsAt(stored: Option<int>, traced: set<nat>, events: seq<Event>, m: nat, n: nat)
    requires m < |events|
  {
    events[m].Starts? && HandsOutTaken(stored, traced, events, m, n)
  }

  /** Over any run, careful or not: a number is taken twice exactly when some quote reopened a taken one and
      the next quote or start after it is a start. */
  lemma {:induction false} TakenTwiceIff(stored: Option<int>, traced: set<nat>, events: seq<Event>)
    ensures Repeats(Run(stored, traced, events).taken)
            <==> exists m: nat, n: nat | m < |events| :: RestartsAt(stored, traced, events, m, n)
  {
    if events != [] {
      var front, last := events[..|events| - 1], events[|events| - 1];
      var s := Run(stored, traced, front);
      TakenTwiceIff(stored, traced, front);
      forall m: nat, n: nat | m < |front|
        ensures RestartsAt(stored, traced, events, m, n) <==> RestartsAt(stored, traced, front, m, n)
      {
        HoldsInFront(stored, traced, events, m, n);
      }
      LastRestarts(stored, traced, events);
    }
  }

  lemma {:induction false} LastRestarts(stored: Option<int>, traced: set<nat>, events: seq<Event>)
    requires events != []
    ensures var last, s := |events| - 1, Run(stored, traced, events[..|events| - 1]);
            Repeats(Run(stored, traced, events).taken)
            <==> Repeats(s.taken) || exists n: nat :: RestartsAt(stored, traced, events, last, n)
  {
    var last, s := |events| - 1, Run(stored, traced, events[..|events| - 1]);
    forall n: nat
      ensures RestartsAt(stored, traced, events, last, n)
              <==> events[last].Starts? && s.quoted == Some(n) && n in s.taken
    {
      QuotedIsTakenIff(stored, traced, events[..last], n);
      HoldsInFront(stored, traced, events, last, n);
    }
    if events[last].Starts? && s.quoted.Some? {
      RepeatGrows(s.taken, s.quoted.value);
      assert RestartsAt(stored, traced, events, last, s.quoted.value) <==> s.quoted.value in s.taken;
    }
  }

  /** A quote that could not read the counter took it for 1, and wrote a lower one. */
  predicate QuotesBelow(s: State, e: Event) {
    && e.Quote? && !e.counted && e.write != Lost
    && var r := Look(TraceOf(s.traced, e.unread), 1, TRADE_NUMBER_SEARCH_LIMIT);
    r.Ok? && 1 < r.value < Counter(s.stored)
  }

  /** In any state at all, the steps that move the counter back are an advance that lands after the counter
      has passed it, which takes a quote between a start and its advance, and a quote that could not
      read the counter. */
  lemma CounterFallsIff(s: State, e: Event)
    requires Enabled(s, e)
    ensures Counter(Step(s, e).stored) < Counter(s.stored) <==>
              (e.Advances? && e.write != Lost && s.advancing.value + 1 < Counter(s.stored)) || QuotesBelow(s, e)
  {
    if e.Quote? {
      QuoteGives(s, e);
      var r := Look(TraceOf(s.traced, e.unread), Start(s.stored, e.counted), TRADE_NUMBER_SEARCH_LIMIT);
      if r.Ok? {
        LookMeans(TraceOf(s.traced, e.unread), Start(s.stored, e.counted), TRADE_NUMBER_SEARCH_LIMIT, r.value);
      }
    }
  }

  lemma FirstQuote(s: State, n: nat)
    requires n !in s.traced && Counter(s.stored) <= n < Counter(s.stored) + TRADE_NUMBER_SEARCH_LIMIT
    requires forall k: nat | Counter(s.stored) <= k < n :: k in s.traced
    ensures Step(s, Quote(true, {}, Done))
            == s.(stored := if n == Counter(s.stored) then s.stored else Some(n), quoted := Some(n))
  {
    LookMeans(TraceOf(s.traced, {}), Counter(s.stored), TRADE_NUMBER_SEARCH_LIMIT, n);
  }

  /** Both conditions are needed. With a quote between a start and its advance the counter moves back;
      and when the advance was lost and the record then goes, the number is taken again. */
  lemma OverlapMovesCounterBack()
    ensures var s := Step(Step(State(None, {2}, None, None, []), Quote(true, {}, Done)), Starts);
            && Step(s, Quote(true, {}, Done)).stored == Some(3)
            && Step(Step(s, Quote(true, {}, Done)), Advances(Done)).stored == Some(2)
  {
    var start := State(None, {2}, None, None, []);
    FirstQuote(start, 1);
    FirstQuote(Step(Step(start, Quote(true, {}, Done)), Starts), 3);
  }

  lemma LostAdvanceAndDropRepeatNumber()
    ensures var s := Step(Step(Step(State(None, {}, None, None, []), Quote(true, {}, Done)), Starts), Advances(Lost));
            Step(Step(Step(s, TraceDrops(1)), Quote(true, {}, Done)), Starts).taken == [1, 1]
  {
    var start := State(None, {}, None, None, []);
    FirstQuote(start, 1);
    var s := Step(Step(Step(start, Quote(true, {}, Done)), Starts), Advances(Lost));
    assert s.traced == {1};
    FirstQuote(Step(s, TraceDrops(1)), 1);
  }
}
