/** Work over a list in lanes: each lane takes the next item when its own is done, or ends. */
module InParallel {
  datatype Lane = Busy(item: nat) | Over | Threw

  /** `done` and `failed` are history: the items whose work resolved and threw, in that order. */
  datatype State = State(count: nat, next: nat, lanes: seq<Lane>, done: seq<nat>, failed: seq<nat>)

  datatype Event = WorkEnds(lane: nat, ok: bool)

  predicate Enabled(s: State, e: Event) {
    e.lane < |s.lanes| && s.lanes[e.lane].Busy?
  }

  function Min(a: nat, b: nat): nat {
    if a < b then a else b
  }

  /** Every lane runs to its first await at once. */
  function Begin(count: nat, limit: nat): State {
    State(count, Min(limit, count), seq(Min(limit, count), i requires 0 <= i < Min(limit, count) => Busy(i)), [], [])
  }

  function Step(s: State, e: Event): State
    requires Enabled(s, e)
  {
    var item := s.lanes[e.lane].item;
    if !e.ok then s.(lanes := s.lanes[e.lane := Threw], failed := s.failed + [item])
    else if s.next < s.count then
      s.(lanes := s.lanes[e.lane := Busy(s.next)], next := s.next + 1, done := s.done + [item])
    else s.(lanes := s.lanes[e.lane := Over], done := s.done + [item])
  }

  function Run(start: State, events: seq<Event>): State {
    if events == [] then start
    else
      var before := Run(start, events[..|events| - 1]);
      var last := events[|events| - 1];
      if Enabled(before, last) then Step(before, last) else before
  }

  /** How many lanes are at work on an item. */
  function Working(lanes: seq<Lane>, item: nat): nat {
    if lanes == [] then 0
    else Working(lanes[..|lanes| - 1], item) + if lanes[|lanes| - 1] == Busy(item) then 1 else 0
  }

  function BusyLanes(lanes: seq<Lane>): nat {
    if lanes == [] then 0 else BusyLanes(lanes[..|lanes| - 1]) + if lanes[|lanes| - 1].Busy? then 1 else 0
  }

  /** How often an item was taken: its work is under way, resolved or threw. */
  function TimesTaken(s: State, item: nat): nat {
    Working(s.lanes, item) + multiset(s.done)[item] + multiset(s.failed)[item]
  }

  ghost predicate ItemFits(s: State, item: nat) {
    TimesTaken(s, item) == if item < s.next then 1 else 0
  }

  ghost predicate LanesFit(s: State) {
    && s.next <= s.count
    && (forall l | 0 <= l < |s.lanes| && s.lanes[l].Over? :: s.next == s.count)
    && (s.failed == [] ==> forall l | 0 <= l < |s.lanes| :: !s.lanes[l].Threw?)
  }

  lemma {:induction false} LaneChanges(lanes: seq<Lane>, l: nat, to: Lane, item: nat)
    requires l < |lanes|
    ensures Working(lanes[l := to], item) + (if lanes[l] == Busy(item) then 1 else 0)
            == Working(lanes, item) + if to == Busy(item) then 1 else 0
  {
    var last := |lanes| - 1;
    if l == last {
      assert lanes[l := to][..last] == lanes[..last];
    } else {
      LaneChanges(lanes[..last], l, to, item);
      assert lanes[l := to][..last] == lanes[..last][l := to];
    }
  }

  lemma StepKeepsItem(s: State, e: Event, item: nat)
    requires ItemFits(s, item) && Enabled(s, e)
    ensures ItemFits(Step(s, e), item)
  {
    LaneChanges(s.lanes, e.lane, Step(s, e).lanes[e.lane], item);
  }

  lemma StepKeepsLanes(s: State, e: Event)
    requires LanesFit(s) && Enabled(s, e)
    ensures LanesFit(Step(s, e))
  {
  }

  lemma {:induction false} LanesTakeTheFirst(k: nat, lanes: seq<Lane>, item: nat)
    requires |lanes| == k && forall i | 0 <= i < k :: lanes[i] == Busy(i)
    ensures Working(lanes, item) == if item < k then 1 else 0
  {
    if k > 0 {
      LanesTakeTheFirst(k - 1, lanes[..k - 1], item);
    }
  }

  lemma {:induction false} RunFits(count: nat, limit: nat, events: seq<Event>, item: nat)
    ensures var s := Run(Begin(count, limit), events);
            LanesFit(s) && ItemFits(s, item) && |s.lanes| == Min(limit, count) && s.count == count
  {
    if events == [] {
      LanesTakeTheFirst(Min(limit, count), Begin(count, limit).lanes, item);
    } else {
      var before := events[..|events| - 1];
      RunFits(count, limit, before, item);
      if Enabled(Run(Begin(count, limit), before), events[|events| - 1]) {
        StepKeepsItem(Run(Begin(count, limit), before), events[|events| - 1], item);
        StepKeepsLanes(Run(Begin(count, limit), before), events[|events| - 1]);
      }
    }
  }

  lemma {:induction false} FlightIsBounded(lanes: seq<Lane>, item: nat)
    ensures Working(lanes, item) <= BusyLanes(lanes) <= |lanes|
    ensures BusyLanes(lanes) == 0 ==> forall l | 0 <= l < |lanes| :: !lanes[l].Busy?
  {
    if lanes != [] {
      FlightIsBounded(lanes[..|lanes| - 1], item);
      assert forall l | 0 <= l < |lanes| - 1 :: lanes[..|lanes| - 1][l] == lanes[l];
    }
  }

  /** However the work falls: no more lanes than the limit are at work; of the list, exactly the items
      before `next` were taken, each once; no lane ends while items are left; and once no lane is at
      work, every item was taken unless the work of every lane threw, and done unless some work threw. */
  lemma {:induction false} LanesTakeEachOnce(count: nat, limit: nat, events: seq<Event>, item: nat)
    ensures var s := Run(Begin(count, limit), events);
            && BusyLanes(s.lanes) <= limit
            && s.next <= count && TimesTaken(s, item) == (if item < s.next then 1 else 0)
            && (forall l | 0 <= l < |s.lanes| && s.lanes[l].Over? :: s.next == count)
            && (BusyLanes(s.lanes) == 0 && limit > 0 ==>
                  && (s.next == count || forall l | 0 <= l < |s.lanes| :: s.lanes[l].Threw?)
                  && (s.failed == [] && item < count ==> item in s.done))
  {
    var s := Run(Begin(count, limit), events);
    RunFits(count, limit, events, item);
    FlightIsBounded(s.lanes, item);
    if BusyLanes(s.lanes) == 0 && limit > 0 && count > 0 {
      assert s.lanes[0].Over? || s.lanes[0].Threw?;
      assert multiset(s.done)[item] > 0 <==> item in s.done;
    }
  }

  /** The closure: `next`, and the lanes that share it. */
  class Lanes {
    const count: nat
    var next: nat
    var lanes: seq<Lane>
    ghost var done: seq<nat>
    ghost var failed: seq<nat>

    ghost function Now(): State
      reads this
    {
      State(count, next, lanes, done, failed)
    }

    constructor (count: nat, limit: nat)
      ensures Now() == Begin(count, limit)
    {
      this.count := count;
      next, lanes, done, failed := 0, [], [], [];
      new;
      var width := Min(limit, count);
      while |lanes| < width
        invariant next == |lanes| <= width && done == [] && failed == []
        invariant forall i | 0 <= i < |lanes| :: lanes[i] == Busy(i)
      {
        lanes := lanes + [Busy(next)];
        next := next + 1;
      }
      assert lanes == Begin(count, limit).lanes;
    }

    method WorkEnds(lane: nat, ok: bool)
      requires lane < |lanes| && lanes[lane].Busy?
      modifies this
      ensures Now() == Step(old(Now()), Event.WorkEnds(lane, ok))
    {
      var item := lanes[lane].item;
      if !ok {
        lanes := lanes[lane := Threw];
        failed := failed + [item];
        return;
      }
      done := done + [item];
      if next < count {
        lanes := lanes[lane := Busy(next)];
        next := next + 1;
      } else {
        lanes := lanes[lane := Over];
      }
    }
  }
}
