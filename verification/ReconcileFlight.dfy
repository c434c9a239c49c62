/**
 The single flight of `reconcile`: one pass at a time, and a call that arrives during a pass makes
 the flight run once more before any of its callers is answered. Time counts events.
 */
module ReconcileFlight {
  import opened Wrappers

  datatype Pass = Pass(began: nat, ended: Option<nat>, threw: bool)

  datatype Flight = Flying | Landed | Crashed

  /** A caller waits for the promise of the flight it was given. */
  datatype Caller = Caller(at: nat, flight: nat)

  datatype State = State(
    now: nat,
    reconciling: Option<nat>,
    again: bool,
    passes: seq<Pass>,
    flights: seq<Flight>,
    callers: seq<Caller>)

  datatype Event = Call | PassEnds(ok: bool)

  predicate Enabled(s: State, e: Event) {
    e.PassEnds? ==> s.reconciling.Some? && s.reconciling.value < |s.flights| && s.passes != []
  }

  function Step(s: State, e: Event): State
    requires Enabled(s, e)
  {
    var now := s.now + 1;
    match e
    case Call =>
      (match s.reconciling
       case Some(flight) => s.(now := now, again := true, callers := s.callers + [Caller(now, flight)])
       case None =>
         State(now, Some(|s.flights|), s.again, s.passes + [Pass(now, None, false)],
               s.flights + [Flying], s.callers + [Caller(now, |s.flights|)]))
    case PassEnds(ok) =>
      var last := |s.passes| - 1;
      var passes := s.passes[last := s.passes[last].(ended := Some(now), threw := !ok)];
      var flight := s.reconciling.value;
      if !ok then s.(now := now, reconciling := None, passes := passes, flights := s.flights[flight := Crashed])
      else if s.again then s.(now := now, again := false, passes := passes + [Pass(now, None, false)])
      else s.(now := now, reconciling := None, passes := passes, flights := s.flights[flight := Landed])
  }

  function Run(events: seq<Event>): State {
    if events == [] then State(0, None, false, [], [], [])
    else
      var before := Run(events[..|events| - 1]);
      var last := events[|events| - 1];
      if Enabled(before, last) then Step(before, last) else before
  }

  /** A whole pass that began no earlier than the call and did not throw. */
  predicate Serves(p: Pass, c: Caller) {
    p.began >= c.at && p.ended.Some? && !p.threw
  }

  ghost predicate Served(s: State, c: Caller) {
    exists i :: 0 <= i < |s.passes| && Serves(s.passes[i], c)
  }

  predicate Running(p: Pass) {
    p.ended.None?
  }

  ghost predicate OnePass(s: State) {
    && (forall i | 0 <= i < |s.passes| && Running(s.passes[i]) :: i == |s.passes| - 1)
    && (forall i | 0 <= i < |s.passes| && s.passes[i].ended.Some? ::
          s.passes[i].began <= s.passes[i].ended.value <= s.now)
    && (forall i, j | 0 <= i < j < |s.passes| ::
          s.passes[i].ended.Some? && s.passes[i].ended.value <= s.passes[j].began)
    && (s.reconciling.Some? <==> s.passes != [] && Running(s.passes[|s.passes| - 1]))
    && (forall i | 0 <= i < |s.passes| :: s.passes[i].began <= s.now)
  }

  ghost predicate FlightsFit(s: State) {
    && (forall f | 0 <= f < |s.flights| :: s.flights[f] == Flying <==> s.reconciling == Some(f))
    && (s.reconciling.Some? ==> s.reconciling.value < |s.flights|)
  }

  ghost predicate CallersFit(s: State) {
    forall i | 0 <= i < |s.callers| ::
      var c := s.callers[i];
      && c.at <= s.now && c.flight < |s.flights|
      && (s.flights[c.flight] == Landed ==> Served(s, c))
      && (s.flights[c.flight] == Flying && !s.again ==>
            s.passes != [] && s.passes[|s.passes| - 1].began >= c.at)
  }

  ghost predicate Fits(s: State) {
    OnePass(s) && FlightsFit(s) && CallersFit(s)
  }

  lemma ServedStays(s: State, t: State, c: Caller)
    requires Served(s, c) && |t.passes| >= |s.passes|
    requires forall i | 0 <= i < |s.passes| && s.passes[i].ended.Some? :: t.passes[i] == s.passes[i]
    ensures Served(t, c)
  {
    var i :| 0 <= i < |s.passes| && Serves(s.passes[i], c);
    assert Serves(t.passes[i], c);
  }

  lemma CallKeepsPasses(s: State)
    requires OnePass(s) && FlightsFit(s)
    ensures OnePass(Step(s, Call)) && FlightsFit(Step(s, Call))
  {
  }

  lemma PassEndKeepsPasses(s: State, ok: bool)
    requires OnePass(s) && Enabled(s, PassEnds(ok)) && FlightsFit(s)
    ensures OnePass(Step(s, PassEnds(ok)))
  {
    var t := Step(s, PassEnds(ok));
    assert |t.passes| == |s.passes| + if ok && s.again then 1 else 0;
    assert forall i | 0 <= i < |s.passes| - 1 :: t.passes[i] == s.passes[i];
  }

  lemma PassEndKeepsFlights(s: State, ok: bool)
    requires Enabled(s, PassEnds(ok)) && FlightsFit(s)
    ensures FlightsFit(Step(s, PassEnds(ok)))
  {
  }

  lemma CallKeepsCallers(s: State)
    requires Fits(s)
    ensures CallersFit(Step(s, Call))
  {
    var t := Step(s, Call);
    forall i | 0 <= i < |s.callers| && s.flights[s.callers[i].flight] == Landed
      ensures Served(t, s.callers[i])
    {
      ServedStays(s, t, s.callers[i]);
    }
  }

  lemma PassEndKeepsCallers(s: State, ok: bool)
    requires Fits(s) && Enabled(s, PassEnds(ok))
    ensures CallersFit(Step(s, PassEnds(ok)))
  {
    var t := Step(s, PassEnds(ok));
    forall i | 0 <= i < |s.callers| && t.flights[s.callers[i].flight] == Landed
      ensures Served(t, s.callers[i])
    {
      var c := s.callers[i];
      if s.flights[c.flight] == Landed {
        ServedStays(s, t, c);
      } else {
        assert Serves(t.passes[|t.passes| - 1], c);
      }
    }
  }

  lemma StepKeepsValid(s: State, e: Event)
    requires Fits(s) && Enabled(s, e)
    ensures Fits(Step(s, e))
  {
    match e
    case Call =>
      CallKeepsPasses(s);
      CallKeepsCallers(s);
    case PassEnds(ok) =>
      PassEndKeepsPasses(s, ok);
      PassEndKeepsFlights(s, ok);
      PassEndKeepsCallers(s, ok);
  }

  lemma {:induction false} RunIsValid(events: seq<Event>)
    ensures Fits(Run(events))
  {
    if events != [] {
      RunIsValid(events[..|events| - 1]);
      var before := Run(events[..|events| - 1]);
      if Enabled(before, events[|events| - 1]) {
        StepKeepsValid(before, events[|events| - 1]);
      }
    }
  }

  /** However calls and passes fall: no two passes ever overlap, and a caller whose flight landed was
      served by a whole pass that began at or after its call and did not throw. */
  lemma {:induction false} NoCallIsDropped(events: seq<Event>)
    ensures var s := Run(events);
            && (forall i, j | 0 <= i < j < |s.passes| ::
                  s.passes[i].ended.Some? && s.passes[i].ended.value <= s.passes[j].began)
            && (forall i | 0 <= i < |s.callers| ::
                  s.callers[i].flight < |s.flights|
                  && (s.flights[s.callers[i].flight] == Landed ==> Served(s, s.callers[i])))
  {
    RunIsValid(events);
  }

  // ----- when a flight lands, and what a pass runs for

  /** A call came after `time`. */
  ghost predicate CalledSince(s: State, time: nat) {
    exists i :: 0 <= i < |s.callers| && s.callers[i].at > time
  }

  /** A call came while the pass ran. */
  ghost predicate CalledDuring(s: State, p: Pass) {
    p.ended.Some? && exists i :: 0 <= i < |s.callers| && p.began < s.callers[i].at < p.ended.value
  }

  /** Pass `i` was begun by the end of the one before it. */
  predicate Rerun(s: State, i: int) {
    0 < i < |s.passes| && s.passes[i - 1].ended == Some(s.passes[i].began)
  }

  /** A call came during a pass that threw, and no pass has been run again since. */
  ghost predicate LeftByCrash(s: State) {
    exists q :: 0 <= q < |s.passes| && LeftBy(s, q)
  }

  ghost predicate LeftBy(s: State, q: int)
    requires 0 <= q < |s.passes|
  {
    && s.passes[q].threw && CalledDuring(s, s.passes[q])
    && forall r | q < r < |s.passes| :: !Rerun(s, r)
  }

  /** One more pass is owed: to a call that came since the running pass began, or that a crash left. */
  ghost predicate Owed(s: State) {
    || LeftByCrash(s)
    || (s.reconciling.Some? && s.passes != [] && CalledSince(s, s.passes[|s.passes| - 1].began))
  }

  ghost predicate AgainFits(s: State) {
    && (s.again <==> Owed(s))
    && (forall i | 0 <= i < |s.callers| :: s.callers[i].at <= s.now)
    && |s.passes| + (if s.again then 1 else 0) <= |s.callers|
    && (forall i | 0 <= i < |s.passes| && s.passes[i].threw :: s.passes[i].ended.Some?)
  }

  lemma CallDuringStands(s: State, t: State, p: Pass)
    requires |t.callers| >= |s.callers| && t.callers[..|s.callers|] == s.callers
    requires forall i | |s.callers| <= i < |t.callers| :: p.ended.Some? ==> t.callers[i].at > p.ended.value
    ensures CalledDuring(t, p) <==> CalledDuring(s, p)
  {
    assert forall i | 0 <= i < |s.callers| :: t.callers[i] == t.callers[..|s.callers|][i];
    if CalledDuring(s, p) {
      var i :| 0 <= i < |s.callers| && p.began < s.callers[i].at < p.ended.value;
      assert t.callers[i] == s.callers[i];
    }
  }

  /** What a crash left stays so through a step that begins no pass again. */
  lemma LeftStands(s: State, t: State)
    requires |t.callers| >= |s.callers| && t.callers[..|s.callers|] == s.callers
    requires forall i | |s.callers| <= i < |t.callers| :: t.callers[i].at == t.now > s.now
    requires |t.passes| >= |s.passes| && t.passes[..|s.passes|] == s.passes && OnePass(s)
    requires forall i | |s.passes| <= i < |t.passes| :: !Rerun(t, i) && !t.passes[i].threw
    ensures LeftByCrash(t) <==> LeftByCrash(s)
  {
    assert forall i | 0 <= i < |s.passes| :: t.passes[i] == t.passes[..|s.passes|][i];
    forall q | 0 <= q < |s.passes| ensures LeftBy(t, q) <==> LeftBy(s, q) {
      CallDuringStands(s, t, s.passes[q]);
      assert forall r | 0 <= r < |s.passes| :: Rerun(t, r) <==> Rerun(s, r);
    }
    assert forall q | |s.passes| <= q < |t.passes| :: !LeftBy(t, q);
  }

  lemma CallKeepsAgain(s: State)
    requires Fits(s) && AgainFits(s)
    ensures AgainFits(Step(s, Call))
  {
    var t := Step(s, Call);
    assert t.callers[..|s.callers|] == s.callers && t.passes[..|s.passes|] == s.passes;
    LeftStands(s, t);
    if s.reconciling.Some? {
      assert t.callers[|s.callers|].at > t.passes[|t.passes| - 1].began;
    }
  }

  lemma GoesOnKeepsAgain(s: State)
    requires Fits(s) && AgainFits(s) && Enabled(s, PassEnds(true)) && s.again
    ensures AgainFits(Step(s, PassEnds(true)))
  {
    var t, last := Step(s, PassEnds(true)), |s.passes|;
    assert Rerun(t, last);
    assert forall q | 0 <= q < |t.passes| :: !LeftBy(t, q) by {
      assert !t.passes[last].threw;
    }
  }

  lemma LandsKeepsAgain(s: State)
    requires Fits(s) && AgainFits(s) && Enabled(s, PassEnds(true)) && !s.again
    ensures AgainFits(Step(s, PassEnds(true)))
  {
    var t, last := Step(s, PassEnds(true)), |s.passes| - 1;
    if q :| 0 <= q < |t.passes| && LeftBy(t, q) {
      assert q < last && s.passes[q] == t.passes[q] && CalledDuring(s, s.passes[q]);
      assert forall r | q < r < |s.passes| :: Rerun(s, r) ==> Rerun(t, r);
      assert LeftBy(s, q);
    }
  }

  lemma CrashKeepsAgain(s: State)
    requires Fits(s) && AgainFits(s) && Enabled(s, PassEnds(false))
    ensures AgainFits(Step(s, PassEnds(false)))
  {
    var t, last := Step(s, PassEnds(false)), |s.passes| - 1;
    assert forall r :: Rerun(t, r) <==> Rerun(s, r);
    forall q | 0 <= q < last ensures LeftBy(t, q) <==> LeftBy(s, q) {
      assert t.passes[q] == s.passes[q];
      CallDuringStands(s, t, s.passes[q]);
    }
    assert LeftBy(t, last) <==> CalledDuring(t, t.passes[last]);
    assert CalledDuring(t, t.passes[last]) <==> CalledSince(s, s.passes[last].began);
    assert !s.passes[last].threw && !LeftBy(s, last);
  }

  lemma {:induction false} RunKeepsAgain(events: seq<Event>)
    ensures Fits(Run(events)) && AgainFits(Run(events))
  {
    RunIsValid(events);
    if events != [] {
      var front, e := events[..|events| - 1], events[|events| - 1];
      RunKeepsAgain(front);
      var s := Run(front);
      if Enabled(s, e) {
        match e
        case Call => CallKeepsAgain(s);
        case PassEnds(ok) =>
          if !ok { CrashKeepsAgain(s); } else if s.again { GoesOnKeepsAgain(s); } else { LandsKeepsAgain(s); }
      }
    }
  }

  /** Over every run: a pass that succeeds lands its flight exactly when no call came since it began and none
      that a crash left is waiting, and begins one more pass otherwise; one that throws crashes it. */
  lemma {:induction false} LandsIff(events: seq<Event>, ok: bool)
    requires Enabled(Run(events), PassEnds(ok))
    ensures var s := Run(events);
            var t, f := Run(events + [PassEnds(ok)]), s.reconciling.value;
            && (t.flights[f] == Landed <==> ok && !Owed(s))
            && (t.flights[f] == Flying <==> ok && Owed(s))
            && (t.flights[f] == Crashed <==> !ok)
            && |t.passes| == |s.passes| + if ok && Owed(s) then 1 else 0
  {
    RunKeepsAgain(events);
    assert (events + [PassEnds(ok)])[..|events|] == events;
  }

  /** What a crash leaves is real: a call that joined a pass that then threw makes the next flight run twice,
      although no call joined that one. */
  lemma CrashLeavesAPass()
    ensures var crashed := Step(Step(Step(Run([]), Call), Call), PassEnds(false));
            var s := Step(Step(crashed, Call), PassEnds(true));
            s.flights == [Crashed, Flying] && |s.passes| == 3
  {
  }

  /** So a flight that no call joins any more lands after at most one more successful pass than the one that
      is running. */
  lemma {:induction false} LandsInTwo(events: seq<Event>)
    requires Enabled(Run(events), PassEnds(true))
    ensures Run(events).reconciling.value < |Run(events + [PassEnds(true), PassEnds(true)]).flights|
    ensures Run(events + [PassEnds(true), PassEnds(true)]).flights[Run(events).reconciling.value] == Landed
  {
    var once, twice := events + [PassEnds(true)], events + [PassEnds(true), PassEnds(true)];
    assert once[..|once| - 1] == events && twice[..|twice| - 1] == once;
    RunIsValid(events);
    RunIsValid(once);
  }

  /** And no pass runs for nothing: there are never more passes than calls, and one is begun only for a call
      that comes just then, or for one that is owed it. */
  lemma {:induction false} PassesAreCalledFor(events: seq<Event>, e: Event)
    ensures |Run(events).passes| <= |Run(events).callers|
    ensures |Run(events + [e]).passes| > |Run(events).passes|
            <==> (e.Call? && Run(events).reconciling.None?)
                 || (e == PassEnds(true) && Run(events).reconciling.Some? && Owed(Run(events)))
  {
    RunKeepsAgain(events);
    assert (events + [e])[..|events|] == events;
  }

  /** The closure: `reconciling` and `reconcileAgain`, and the promises and passes around them. */
  class Reconciler {
    var now: nat
    var reconciling: Option<nat>
    var reconcileAgain: bool
    var passes: seq<Pass>
    var flights: seq<Flight>
    var callers: seq<Caller>

    function Now(): State
      reads this
    {
      State(now, reconciling, reconcileAgain, passes, flights, callers)
    }

    ghost predicate Valid()
      reads this
    {
      Fits(Now())
    }

    constructor ()
      ensures Valid() && Now() == Run([])
    {
      now, reconciling, reconcileAgain, passes, flights, callers := 0, None, false, [], [], [];
      new;
      RunIsValid([]);
    }

    method Reconcile() returns (promise: nat)
      requires Valid()
      modifies this
      ensures Valid() && Now() == Step(old(Now()), Call)
      ensures reconciling == Some(promise)
    {
      StepKeepsValid(Now(), Call);
      promise := Join();
    }

    method Join() returns (promise: nat)
      modifies this
      ensures Now() == Step(old(Now()), Call) && reconciling == Some(promise)
    {
      now := now + 1;
      if reconciling.Some? {
        reconcileAgain := true;
        promise := reconciling.value;
      } else {
        promise := |flights|;
        flights := flights + [Flying];
        passes := passes + [Pass(now, None, false)];
        reconciling := Some(promise);
      }
      callers := callers + [Caller(now, promise)];
    }

    /** The pass that is running ends; the loop around it goes on or the flight is over. */
    method PassEnded(ok: bool)
      requires Valid() && Enabled(Now(), PassEnds(ok))
      modifies this
      ensures Valid() && Now() == Step(old(Now()), PassEnds(ok))
    {
      StepKeepsValid(Now(), PassEnds(ok));
      GoOnOrLand(ok);
    }

    method GoOnOrLand(ok: bool)
      requires Enabled(Now(), PassEnds(ok)) && reconciling.value < |flights|
      modifies this
      ensures Now() == Step(old(Now()), PassEnds(ok))
    {
      now := now + 1;
      var flight := reconciling.value;
      passes := passes[|passes| - 1 := passes[|passes| - 1].(ended := Some(now), threw := !ok)];
      if ok && reconcileAgain {
        reconcileAgain := false;
        passes := passes + [Pass(now, None, false)];
      } else {
        reconciling := None;
        flights := flights[flight := if ok then Landed else Crashed];
      }
    }
  }
}
