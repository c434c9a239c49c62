/**
 The floors learned for one egress: loads share an in-flight slot, and seeding the floors takes the slot
 from whatever load holds it.
 */
module FloorsSlot {
  import opened Wrappers

  datatype Phase = Loading | Landed | Released

  /** `seeded` and `seed`, history, number the seedings: the ones before the load, and the one the floors
      shown go back to. `from` is the load they came from. */
  datatype Load = Load(phase: Phase, seeded: nat)

  datatype Shown<F> = Shown(floors: F, seed: nat, from: Option<nat>)

  datatype State<F> = State(slot: Option<nat>, loads: seq<Load>, shown: Option<Shown<F>>, seeds: nat)

  datatype Event<F> =
    | Ask
    | Seed(value: Option<F>)
    | Lands(load: nat, floors: Option<F>)
    | Releases(load: nat)

  predicate Enabled<F>(s: State<F>, e: Event<F>) {
    match e
    case Lands(load, _) => load < |s.loads| && s.loads[load].phase == Loading
    case Releases(load) => load < |s.loads| && s.loads[load].phase == Landed
    case _ => true
  }

  /** `Lands` is the answer, none when the load failed, and `Releases` the `finally` after it. */
  function Step<F>(s: State<F>, e: Event<F>): State<F>
    requires Enabled(s, e)
  {
    match e
    case Ask =>
      if s.slot.Some? then s else s.(slot := Some(|s.loads|), loads := s.loads + [Load(Loading, s.seeds)])
    case Seed(value) =>
      s.(slot := None, seeds := s.seeds + 1,
         shown := if value.Some? then Some(Shown(value.value, s.seeds + 1, None)) else None)
    case Lands(load, floors) =>
      var t := s.(loads := s.loads[load := s.loads[load].(phase := Landed)]);
      if floors.Some? && s.slot == Some(load)
      then t.(shown := Some(Shown(floors.value, s.loads[load].seeded, Some(load))))
      else t
    case Releases(load) =>
      var t := s.(loads := s.loads[load := s.loads[load].(phase := Released)]);
      if s.slot == Some(load) then t.(slot := None) else t
  }

  function Run<F>(events: seq<Event<F>>): State<F> {
    if events == [] then State(None, [], None, 0)
    else
      var before := Run(events[..|events| - 1]);
      var last := events[|events| - 1];
      if Enabled(before, last) then Step(before, last) else before
  }

  /** A load that could still change what is shown. */
  predicate Held<F>(s: State<F>, load: nat) {
    s.slot == Some(load)
  }

  ghost predicate Fits<F>(s: State<F>) {
    && (s.slot.Some? ==>
          s.slot.value == |s.loads| - 1 && s.loads[s.slot.value].phase != Released
          && s.loads[s.slot.value].seeded == s.seeds)
    && (forall l | 0 <= l < |s.loads| && s.loads[l].phase == Loading && s.loads[l].seeded == s.seeds :: Held(s, l))
    && (s.shown.Some? ==> s.shown.value.seed == s.seeds)
    && (s.shown.Some? && s.shown.value.from.Some? ==>
          && s.shown.value.from.value < |s.loads|
          && s.loads[s.shown.value.from.value].phase != Loading)
    && (forall l | 0 <= l < |s.loads| :: s.loads[l].seeded <= s.seeds)
  }

  lemma StepKeepsFits<F>(s: State<F>, e: Event<F>)
    requires Fits(s) && Enabled(s, e)
    ensures Fits(Step(s, e))
  {
  }

  lemma {:induction false} RunFits<F>(events: seq<Event<F>>)
    ensures Fits(Run(events))
  {
    if events != [] {
      RunFits(events[..|events| - 1]);
      var before := Run(events[..|events| - 1]);
      if Enabled(before, events[|events| - 1]) {
        StepKeepsFits(before, events[|events| - 1]);
      }
    }
  }

  /** The floors to be shown, by the events alone: those of the last seeding or, if it came later, of the last
      answer to a load that was asked for since. */
  function Given<F>(events: seq<Event<F>>): Option<F> {
    if events == [] then None
    else
      var front, last := events[..|events| - 1], events[|events| - 1];
      var s := Run(front);
      match last
      case Seed(value) => value
      case Lands(load, Some(floors)) =>
        if Enabled(s, last) && s.loads[load].seeded == s.seeds then Some(floors) else Given(front)
      case _ => Given(front)
  }

  /** They are what is shown; and an ask always leaves one load in flight, the one there was or a new one. */
  lemma {:induction false} ShowsWhatWasGiven<F>(events: seq<Event<F>>)
    ensures var s := Run(events);
            && Given(events) == (if s.shown.Some? then Some(s.shown.value.floors) else None)
            && var t := Step(s, Ask);
            && t.slot.Some? && (s.slot.Some? ==> t == s)
            && (s.slot.None? ==> t.loads == s.loads + [Load(Loading, s.seeds)] && t.slot == Some(|s.loads|))
  {
    if events != [] {
      var front := events[..|events| - 1];
      ShowsWhatWasGiven(front);
      RunFits(front);
    }
  }

  /** Whatever is asked, seeded and answered: the floors shown are the last seeding's or those of a load
      asked for after it; of the loads asked for since then only the slot's is still out; and an answer
      that lands changes what is shown exactly when its load holds the slot, which no load from before
      the last seeding does, and it is then a later answer than the one shown. */
  lemma {:induction false} SeedOutranksEarlierLoads<F>(events: seq<Event<F>>, load: nat, floors: F)
    ensures var s := Run(events);
            && (s.shown.Some? ==> s.shown.value.seed == s.seeds)
            && (forall i, j | 0 <= i < j < |s.loads| && s.loads[i].phase == s.loads[j].phase == Loading ::
                  s.loads[i].seeded < s.seeds)
            && (Enabled(s, Lands(load, Some(floors))) ==>
                  var t := Step(s, Lands(load, Some(floors)));
                  && (t.shown == s.shown || t.shown == Some(Shown(floors, s.seeds, Some(load))))
                  && (s.slot == Some(load) <==> s.loads[load].seeded == s.seeds)
                  && (s.slot == Some(load) ==>
                        t.shown == Some(Shown(floors, s.seeds, Some(load)))
                        && (s.shown.Some? && s.shown.value.from.Some? ==> s.shown.value.from.value < load))
                  && (s.slot != Some(load) ==> t.shown == s.shown))
  {
    RunFits(events);
  }

  /** The maps' entries for one egress. */
  class Slot<F> {
    var inflight: Option<nat>
    var loads: seq<Load>
    var learned: Option<Shown<F>>
    var seeds: nat

    function Now(): State<F>
      reads this
    {
      State(inflight, loads, learned, seeds)
    }

    constructor ()
      ensures Now() == Run([])
    {
      inflight, loads, learned, seeds := None, [], None, 0;
    }

    /** The load a caller waits for. */
    method Ask() returns (load: nat)
      modifies this
      ensures Now() == Step(old(Now()), Event.Ask) && inflight == Some(load)
    {
      if inflight.Some? {
        return inflight.value;
      }
      load := |loads|;
      loads := loads + [Load(Loading, seeds)];
      inflight := Some(load);
    }

    method SeedFloors(value: Option<F>)
      modifies this
      ensures Now() == Step(old(Now()), Seed(value))
    {
      seeds := seeds + 1;
      learned := if value.Some? then Some(Shown(value.value, seeds, None)) else None;
      inflight := None;
    }

    method Land(load: nat, floors: Option<F>)
      requires Enabled(Now(), Lands(load, floors))
      modifies this
      ensures Now() == Step(old(Now()), Lands(load, floors))
    {
      loads := loads[load := loads[load].(phase := Landed)];
      if floors.None? || inflight != Some(load) { return; }
      learned := Some(Shown(floors.value, loads[load].seeded, Some(load)));
    }

    method Release(load: nat)
      requires Enabled(Now(), Event.Releases(load))
      modifies this
      ensures Now() == Step(old(Now()), Event.Releases(load))
    {
      loads := loads[load := loads[load].(phase := Released)];
      if inflight == Some(load) {
        inflight := None;
      }
    }
  }
}
