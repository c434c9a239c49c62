/** The store's queues and passes are the ones whose disciplines are proved on their own: each queue is
    the open calls of a promise chain, and passes begin and end as a single flight runs them. */
module RequestStoreSchedule {
  import opened Wrappers
  import opened RequestStore
  import opened RequestStoreRuns
  import Queue = SerialQueue
  import Flight = ReconcileFlight

  // ----- queues

  /** The tasks queued under `k` are the open calls of the chain, and one runs when its call does. */
  ghost predicate Tracks(c: Queue.Chain<Key>, s: Slot, k: Key) {
    var open := Queue.Unsettled(c.links, k);
    && Queue.Valid(c)
    && |open| == |s.queue|
    && (if open == [] then s.running.Idle? else Queue.IsRunning(c, open[0]) <==> !s.running.Idle?)
  }

  lemma CallTracks(c: Queue.Chain<Key>, s: Slot, t: Slot, k: Key)
    requires Tracks(c, s, k) && |t.queue| == |s.queue| + 1 && t.running == s.running
    ensures Tracks(Queue.Call(c, k), t, k)
  {
    Queue.CallKeepsValid(c, k);
    Queue.ChainRefinesQueues(c, 0, true, k, k);
    var open := Queue.Unsettled(c.links, k);
    if open != [] {
      Queue.UnsettledMembers(c.links, k, open[0]);
    }
  }

  /** The head of a queue that is idle can start, as its call can. */
  lemma {:induction false} StartTracks(c: Queue.Chain<Key>, s: Slot, k: Key)
    requires Tracks(c, s, k) && s.queue != [] && s.running.Idle?
    ensures var head := Queue.Unsettled(c.links, k)[0];
            && Queue.CanStart(c, head)
            && Queue.Valid(Queue.Start(c, head)) && Queue.IsRunning(Queue.Start(c, head), head)
            && Queue.Unsettled(Queue.Start(c, head).links, k) == Queue.Unsettled(c.links, k)
            && Queue.Start(c, head).links[head].key == k
  {
    var head := Queue.Unsettled(c.links, k)[0];
    Queue.UnsettledMembers(c.links, k, head);
    Queue.HeadAloneProceeds(c, k, head);
    Queue.AdvanceKeepsValid(c, head, Queue.Phase.Running);
    Queue.ChainRefinesQueues(c, head, true, k, k);
  }

  lemma {:induction false} SettleTracks(c: Queue.Chain<Key>, head: nat, ok: bool, t: Slot, k: Key)
    requires Queue.Valid(c) && Queue.IsRunning(c, head) && c.links[head].key == k
    requires |Queue.Unsettled(c.links, k)| == |t.queue| + 1 && t.running.Idle?
    ensures Tracks(Queue.Settle(c, head, ok), t, k)
  {
    Queue.AdvanceKeepsValid(c, head, Queue.Phase.Settled(ok));
    Queue.ChainRefinesQueues(c, head, ok, k, k);
    var after := Queue.Settle(c, head, ok);
    var open := Queue.Unsettled(after.links, k);
    if open != [] {
      Queue.UnsettledMembers(after.links, k, open[0]);
      if Queue.IsRunning(after, open[0]) {
        Queue.OneRunningPerKey(c, head, open[0]);
      }
    }
  }

  /** What the chain does while the slot takes a step. */
  function ChainAfter(c: Queue.Chain<Key>, s: Slot, a: Action, k: Key, ok: bool): Queue.Chain<Key>
    requires Tracks(c, s, k) && Can(s, a)
  {
    var t, open := OwnStep(s, a), Queue.Unsettled(c.links, k);
    if a.Reload? then Queue.Empty()
    else if |t.queue| > |s.queue| then Queue.Call(c, k)
    else if a.HeadStarts? then
      StartTracks(c, s, k);
      var started := Queue.Start(c, open[0]);
      if |t.queue| < |s.queue| then Queue.Settle(started, open[0], ok) else started
    else if |t.queue| < |s.queue| then Queue.Settle(c, open[0], ok)
    else c
  }

  lemma EmptyTracks(s: Slot, k: Key)
    requires s.queue == [] && s.running.Idle?
    ensures Tracks(Queue.Empty(), s, k)
  {
    Queue.EmptyIsValid<Key>();
  }

  /** A step of the slot either leaves the queue, adds one task to it, starts its head, or ends it. */
  lemma OwnStepShape(s: Slot, a: Action)
    requires Can(s, a) && !a.Reload?
    ensures var t := OwnStep(s, a);
            && (a.HeadStarts? ==>
                  s.queue != [] && s.running.Idle? &&
                  if t.running.Idle? then |t.queue| == |s.queue| - 1 else |t.queue| == |s.queue|)
            && (!a.HeadStarts? ==>
                  || (|t.queue| == |s.queue| + 1 && t.running == s.running)
                  || (|t.queue| == |s.queue| && (t.running.Idle? <==> s.running.Idle?))
                  || (|t.queue| == |s.queue| - 1 && t.running.Idle? && !s.running.Idle?))
  {
  }

  /** Whatever step the slot takes, the chain takes one that keeps it the slot's queue. */
  lemma OwnStepTracks(c: Queue.Chain<Key>, s: Slot, a: Action, k: Key, ok: bool)
    requires Tracks(c, s, k) && Can(s, a)
    ensures Tracks(ChainAfter(c, s, a, k, ok), OwnStep(s, a), k)
  {
    var t, open := OwnStep(s, a), Queue.Unsettled(c.links, k);
    if a.Reload? {
      EmptyTracks(t, k);
    } else {
      OwnStepShape(s, a);
      if |t.queue| > |s.queue| {
        CallTracks(c, s, t, k);
      } else if a.HeadStarts? {
        StartTracks(c, s, k);
        if |t.queue| < |s.queue| {
          SettleTracks(Queue.Start(c, open[0]), open[0], ok, t, k);
        }
      } else if |t.queue| < |s.queue| {
        Queue.UnsettledMembers(c.links, k, open[0]);
        SettleTracks(c, open[0], ok, t, k);
      }
    }
  }

  /** One step of a run, as far as the key's queue goes. */
  ghost predicate StepFollows(run: seq<Store>, moves: seq<Move>, k: Key, i: nat)
    requires i < |run| - 1 == |moves|
  {
    var s, t, a := SlotAt(run[i], k), SlotAt(run[i + 1], k), moves[i].action;
    if ActsOn(a, k) then Can(s, a) && t.queue == OwnStep(s, a).queue && t.running == OwnStep(s, a).running
    else t.queue == s.queue && t.running == s.running
  }

  lemma RunFollows(run: seq<Store>, moves: seq<Move>, k: Key, i: nat)
    requires IsRun(run, moves) && i < |moves|
    ensures StepFollows(run, moves, k, i)
  {
    var s, a := run[i], moves[i].action;
    assert SlotAt(run[i + 1], k) == After(s, a, moves[i].kept, k);
    if ActsOn(a, k) {
      EnabledCan(s, a, k);
    }
  }

  /** The chain that goes along with a run from an idle key, built of the chain's own steps. */
  ghost function ChainAlong(run: seq<Store>, moves: seq<Move>, k: Key, i: nat): (c: Queue.Chain<Key>)
    requires i < |run| == |moves| + 1 && forall m: nat | m < |moves| :: StepFollows(run, moves, k, m)
    requires SlotAt(run[0], k).queue == [] && SlotAt(run[0], k).running.Idle?
    ensures Tracks(c, SlotAt(run[i], k), k)
  {
    if i == 0 then
      EmptyTracks(SlotAt(run[0], k), k);
      Queue.Empty()
    else
      var before, s, a := ChainAlong(run, moves, k, i - 1), SlotAt(run[i - 1], k), moves[i - 1].action;
      assert StepFollows(run, moves, k, i - 1);
      if ActsOn(a, k) then
        OwnStepTracks(before, s, a, k, true);
        ChainAfter(before, s, a, k, true)
      else before
  }

  /** In every state of every run the key's queue is the open calls of that chain, so its tasks run one
      at a time, in call order, and a failure stops none behind it. */
  lemma {:induction false} QueueIsAChain(run: seq<Store>, moves: seq<Move>, k: Key, i: nat)
    requires IsRun(run, moves) && i < |run|
    requires SlotAt(run[0], k).queue == [] && SlotAt(run[0], k).running.Idle?
    ensures forall m: nat | m < |moves| :: StepFollows(run, moves, k, m)
    ensures Tracks(ChainAlong(run, moves, k, i), SlotAt(run[i], k), k)
  {
    forall m: nat | m < |moves| ensures StepFollows(run, moves, k, m) {
      RunFollows(run, moves, k, m);
    }
  }

  // ----- passes

  /** The pass steps the store takes while the flight takes one of its own: a pass that ends may be
      followed by the next one at once. */
  function PassSteps(f: Flight.State, e: Flight.Event): seq<Action>
    requires Flight.Enabled(f, e)
  {
    (if e.PassEnds? then [PassEnds] else [])
    + if |Flight.Step(f, e).passes| > |f.passes| then [PassBegins] else []
  }

  /** Whether a pass is under way after the steps; None when one of them could not be taken. */
  function UnderWay(pass: bool, steps: seq<Action>): Option<bool> {
    if steps == [] then Some(pass)
    else
      var before := UnderWay(pass, steps[..|steps| - 1]);
      match (before, steps[|steps| - 1])
      case (Some(false), PassBegins) => Some(true)
      case (Some(true), PassEnds) => Some(false)
      case _ => None
  }

  lemma {:induction false} UnderWayMore(pass: bool, steps: seq<Action>, last: Action)
    requires UnderWay(pass, steps).Some?
    ensures var before := UnderWay(pass, steps).value;
            && (last == PassBegins && !before ==> UnderWay(pass, steps + [last]) == Some(true))
            && (last == PassEnds && before ==> UnderWay(pass, steps + [last]) == Some(false))
  {
    assert (steps + [last])[..|steps|] == steps;
  }

  lemma FlightShape(f: Flight.State, e: Flight.Event)
    requires Flight.Enabled(f, e)
    ensures PassSteps(f, e) == match e
                               case Call => if f.reconciling.Some? then [] else [PassBegins]
                               case PassEnds(ok) => if ok && f.again then [PassEnds, PassBegins] else [PassEnds]
    ensures Flight.Step(f, e).reconciling.Some? <==> e.Call? || (e.ok && f.again)
    ensures e.PassEnds? ==> f.reconciling.Some?
  {
  }

  lemma FlightStepsPasses(f: Flight.State, e: Flight.Event)
    requires Flight.Enabled(f, e)
    ensures UnderWay(f.reconciling.Some?, PassSteps(f, e)) == Some(Flight.Step(f, e).reconciling.Some?)
  {
    FlightShape(f, e);
    StepsUnderWay();
  }

  lemma StepsUnderWay()
    ensures UnderWay(false, [PassBegins]) == Some(true) && UnderWay(true, [PassEnds]) == Some(false)
    ensures UnderWay(true, [PassEnds, PassBegins]) == Some(true)
  {
    UnderWayMore(false, [], PassBegins);
    UnderWayMore(true, [], PassEnds);
    assert [] + [PassBegins] == [PassBegins] && [] + [PassEnds] == [PassEnds];
    UnderWayMore(true, [PassEnds], PassBegins);
    assert [PassEnds] + [PassBegins] == [PassEnds, PassBegins];
  }

  function RunPassSteps(events: seq<Flight.Event>): seq<Action> {
    if events == [] then []
    else
      var front, last := events[..|events| - 1], events[|events| - 1];
      RunPassSteps(front) + if Flight.Enabled(Flight.Run(front), last) then PassSteps(Flight.Run(front), last) else []
  }

  lemma {:induction false} UnderWayJoins(pass: bool, a: seq<Action>, b: seq<Action>)
    requires UnderWay(pass, a).Some?
    ensures UnderWay(pass, a + b) == UnderWay(UnderWay(pass, a).value, b)
  {
    if b == [] {
      assert a + b == a;
    } else {
      UnderWayJoins(pass, a, b[..|b| - 1]);
      assert (a + b)[..|a + b| - 1] == a + b[..|b| - 1];
    }
  }

  /** However calls of `reconcile` fall, the passes of the flight are passes of the store: one begins only
      when none is under way, one ends only when one is, and one is under way exactly while the flight
      is. */
  lemma {:induction false} FlightRunsPasses(events: seq<Flight.Event>)
    ensures UnderWay(false, RunPassSteps(events)) == Some(Flight.Run(events).reconciling.Some?)
  {
    if events != [] {
      var front, last := events[..|events| - 1], events[|events| - 1];
      FlightRunsPasses(front);
      if Flight.Enabled(Flight.Run(front), last) {
        FlightStepsPasses(Flight.Run(front), last);
        UnderWayJoins(false, RunPassSteps(front), PassSteps(Flight.Run(front), last));
      } else {
        assert RunPassSteps(front) + [] == RunPassSteps(front);
      }
    }
  }
}
