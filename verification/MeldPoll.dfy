/**
 The poll of a Meld payment's status. One poll at a time belongs to the screen; a poll that was
 stopped may still have a read out, and background reads share its count of 404 answers.
 */
module MeldPoll {
  import opened Wrappers

  const MELD_POLL_MS: nat := 3_000
  const MELD_POLL_MAX_MS: nat := 30_000
  const MELD_GONE_AFTER: nat := 3

  type Key = string

  /** What the provider says: a status, a 404, or any other failure. */
  datatype Answer = Status | NotFound | NoAnswer

  datatype Outcome = Okay | Gone | Missing | Unreachable

  /** What `finished` finds of the record: nothing, a rail that can still move, or one that cannot. */
  datatype Sight = Absent | Moving | Ended

  /** The variables of one poll. `asking`, `telling` and `pending` are what it has out: reads not yet
      answered, answers being observed, timeouts set and not yet fired. `outcomes` and `sights`
      are history: how its reads ended, and what `finished` found each time it looked and went on. */
  datatype Poll = Poll(
    key: Key,
    stopped: bool,
    paused: bool,
    inFlight: bool,
    failures: nat,
    timer: Option<nat>,
    seen: bool,
    asking: nat,
    telling: seq<Outcome>,
    pending: map<nat, nat>,
    outcomes: seq<Outcome>,
    sights: seq<Sight>)

  /** `answers` is history: every answer a read of the key was given, in order. */
  datatype State = State(
    polls: seq<Poll>,
    current: Option<nat>,
    notFound: map<Key, nat>,
    answers: map<Key, seq<Answer>>)

  datatype Event =
    | StartPoll(key: Key, sandboxed: bool)
    | StopPoll
    | SetForeground(shown: Option<Key>)
    | PausePoll
    | ResumePoll
    | Fires(i: nat, handle: nat)
    | Answered(i: nat, answer: Answer)
    | AnsweredInBackground(of: Key, answer: Answer)
    | Observed(i: nat, told: nat, sight: Sight)

  function Pow2(n: nat): nat {
    if n == 0 then 1 else 2 * Pow2(n - 1)
  }

  function Min(a: nat, b: nat): nat {
    if a < b then a else b
  }

  function Delay(outcome: Outcome, failures: nat): nat {
    if outcome == Missing then MELD_POLL_MS else Min(MELD_POLL_MS * Pow2(failures), MELD_POLL_MAX_MS)
  }

  function Cleared(p: Poll): Poll {
    p.(pending := if p.timer.Some? then p.pending - {p.timer.value} else p.pending, timer := None)
  }

  function Tick(p: Poll): Poll {
    if p.stopped || p.paused || p.inFlight then p else p.(inFlight := true, asking := p.asking + 1)
  }

  function Stopped(p: Poll): Poll {
    Cleared(p.(stopped := true))
  }

  function Paused(p: Poll): Poll {
    Cleared(p.(paused := true))
  }

  function Resumed(p: Poll): Poll {
    if p.paused then Tick(p.(paused := false)) else p
  }

  function Fired(p: Poll, handle: nat): Poll {
    Tick(p.(pending := p.pending - {handle}))
  }

  function Told(p: Poll, outcome: Outcome): Poll
    requires p.asking > 0
  {
    p.(asking := p.asking - 1, telling := p.telling + [outcome])
  }

  /** `finished`: a record that was never seen may still be on its way to the store. */
  predicate Finished(p: Poll, sight: Sight) {
    sight == Ended || (sight == Absent && p.seen)
  }

  /** The tick has its outcome. */
  function Noted(p: Poll, told: nat): Poll
    requires told < |p.telling|
  {
    var outcome := p.telling[told];
    p.(telling := p.telling[..told] + p.telling[told + 1..],
       inFlight := false,
       failures := if outcome == Okay then 0 else p.failures + 1,
       outcomes := p.outcomes + [outcome])
  }

  /** The poll goes on: it sets its timer, under a handle nothing else has. */
  function Scheduled(p: Poll, outcome: Outcome, sight: Sight): Poll {
    p.(seen := p.seen || sight != Absent,
       sights := p.sights + [sight],
       timer := Some(|p.outcomes|),
       pending := p.pending[|p.outcomes| := Delay(outcome, p.failures)])
  }

  /** The rest of a tick once its outcome is observed, and whether the poll of the screen is to end. */
  function Rest(p: Poll, told: nat, sight: Sight): (Poll, bool)
    requires told < |p.telling|
  {
    var outcome, q := p.telling[told], Noted(p, told);
    if q.stopped || q.paused then (q, false)
    else if outcome == Gone || Finished(q, sight) then (q, true)
    else (Scheduled(q, outcome, sight), false)
  }

  predicate InUse(s: State) {
    s.current.Some? && s.current.value < |s.polls|
  }

  function Changed(s: State, i: nat, p: Poll): State
    requires i < |s.polls|
  {
    s.(polls := s.polls[i := p])
  }

  function CurrentStopped(s: State): State {
    if InUse(s) then Changed(s, s.current.value, Stopped(s.polls[s.current.value])).(current := None) else s
  }

  function Count(s: State, key: Key): nat {
    if key in s.notFound then s.notFound[key] else 0
  }

  function Answers(s: State, key: Key): seq<Answer> {
    if key in s.answers then s.answers[key] else []
  }

  function OutcomeOf(s: State, key: Key, answer: Answer): Outcome {
    match answer
    case Status => Okay
    case NoAnswer => Unreachable
    case NotFound => if Count(s, key) + 1 < MELD_GONE_AFTER then Missing else Gone
  }

  /** An answer about `key` comes in: the count of 404s moves, whoever asked. */
  function Heard(s: State, key: Key, answer: Answer): State {
    s.(notFound := if OutcomeOf(s, key, answer) == Missing then s.notFound[key := Count(s, key) + 1]
                   else s.notFound - {key},
       answers := s.answers[key := Answers(s, key) + [answer]])
  }

  predicate Enabled(s: State, e: Event) {
    match e
    case Fires(i, handle) => i < |s.polls| && handle in s.polls[i].pending
    case Answered(i, _) => i < |s.polls| && s.polls[i].asking > 0
    case Observed(i, told, _) => i < |s.polls| && told < |s.polls[i].telling|
    case _ => true
  }

  function Fresh(key: Key): Poll {
    Poll(key, false, false, false, 0, None, false, 0, [], map[], [], [])
  }

  function Step(s: State, e: Event): State
    requires Enabled(s, e)
  {
    match e
    case StartPoll(key, sandboxed) =>
      if sandboxed || (InUse(s) && s.polls[s.current.value].key == key) then s
      else
        var t := CurrentStopped(s);
        t.(polls := t.polls + [Tick(Fresh(key))], current := Some(|t.polls|))
    case StopPoll => CurrentStopped(s)
    case SetForeground(shown) =>
      if InUse(s) && shown != Some(s.polls[s.current.value].key) then CurrentStopped(s) else s
    case PausePoll => if InUse(s) then Changed(s, s.current.value, Paused(s.polls[s.current.value])) else s
    case ResumePoll => if InUse(s) then Changed(s, s.current.value, Resumed(s.polls[s.current.value])) else s
    case Fires(i, handle) => Changed(s, i, Fired(s.polls[i], handle))
    case Answered(i, answer) =>
      var key := s.polls[i].key;
      Changed(Heard(s, key, answer), i, Told(s.polls[i], OutcomeOf(s, key, answer)))
    case AnsweredInBackground(key, answer) => Heard(s, key, answer)
    case Observed(i, told, sight) =>
      var (p, over) := Rest(s.polls[i], told, sight);
      if over then CurrentStopped(Changed(s, i, p)) else Changed(s, i, p)
  }

  function Run(events: seq<Event>): State {
    if events == [] then State([], None, map[], map[])
    else
      var before := Run(events[..|events| - 1]);
      var last := events[|events| - 1];
      if Enabled(before, last) then Step(before, last) else before
  }

  // ----- what a run means

  /** How many reads in a row, up to the last one, failed. */
  function FailuresInARow(outcomes: seq<Outcome>): nat {
    if outcomes == [] || outcomes[|outcomes| - 1] == Okay then 0
    else 1 + FailuresInARow(outcomes[..|outcomes| - 1])
  }

  /** How many answers in a row, up to the last one, were 404. */
  function NotFoundInARow(answers: seq<Answer>): (n: nat)
    ensures n <= |answers|
    ensures forall k | |answers| - n <= k < |answers| :: answers[k] == NotFound
  {
    if answers == [] || answers[|answers| - 1] != NotFound then 0
    else 1 + NotFoundInARow(answers[..|answers| - 1])
  }

  ghost predicate EverSeen(sights: seq<Sight>) {
    exists i :: 0 <= i < |sights| && sights[i] != Absent
  }

  lemma SeenGrows(sights: seq<Sight>, sight: Sight)
    ensures EverSeen(sights + [sight]) <==> EverSeen(sights) || sight != Absent
  {
    var all := sights + [sight];
    assert all[|sights|] == sight && forall i | 0 <= i < |sights| :: all[i] == sights[i];
  }

  ghost predicate PollFits(p: Poll) {
    && p.asking + |p.telling| == (if p.inFlight then 1 else 0)
    && (forall h | h in p.pending :: p.timer == Some(h) && !p.stopped && !p.paused && !p.inFlight)
    && (!p.stopped && !p.paused && !p.inFlight ==> p.timer.Some? && p.timer.value in p.pending)
    && p.failures == FailuresInARow(p.outcomes)
    && (p.seen <==> EverSeen(p.sights))
    && (forall h | h in p.pending ::
          && p.outcomes != [] && p.outcomes[|p.outcomes| - 1] != Gone
          && p.pending[h] == Delay(p.outcomes[|p.outcomes| - 1], p.failures))
  }

  ghost predicate PollsFit(s: State) {
    && (forall i | 0 <= i < |s.polls| :: PollFits(s.polls[i]))
    && (forall i | 0 <= i < |s.polls| && !s.polls[i].stopped :: s.current == Some(i))
    && (s.current.Some? ==> InUse(s) && !s.polls[s.current.value].stopped)
  }

  ghost predicate CountFits(s: State, key: Key) {
    Count(s, key) == NotFoundInARow(Answers(s, key)) % MELD_GONE_AFTER
  }

  ghost predicate Fits(s: State) {
    PollsFit(s) && forall key :: CountFits(s, key)
  }

  lemma HeardKeepsCount(s: State, key: Key, answer: Answer)
    requires CountFits(s, key)
    ensures CountFits(Heard(s, key, answer), key)
  {
    ThirdInARow(Answers(s, key), answer);
  }

  lemma HeardKeepsCounts(s: State, key: Key, answer: Answer)
    requires forall k :: CountFits(s, k)
    ensures forall k :: CountFits(Heard(s, key, answer), k)
  {
    HeardKeepsCount(s, key, answer);
    var t := Heard(s, key, answer);
    forall k | k != key ensures CountFits(t, k) {
      assert CountFits(s, k) && Count(t, k) == Count(s, k) && Answers(t, k) == Answers(s, k);
    }
  }

  /** A step that changes no more than the polls keeps the counts. */
  lemma CountsStand(s: State, t: State)
    requires forall key :: CountFits(s, key)
    requires t.notFound == s.notFound && t.answers == s.answers
    ensures forall key :: CountFits(t, key)
  {
    forall key ensures CountFits(t, key) {
      assert CountFits(s, key);
    }
  }

  lemma StoppedFits(s: State)
    requires PollsFit(s)
    ensures PollsFit(CurrentStopped(s)) && CurrentStopped(s).current == None
    ensures forall i | 0 <= i < |s.polls| :: CurrentStopped(s).polls[i].stopped
  {
  }

  lemma StartKeepsPolls(s: State, key: Key)
    requires PollsFit(s)
    ensures PollsFit(Step(s, StartPoll(key, false)))
  {
    StoppedFits(s);
  }

  lemma NotedFits(p: Poll, told: nat)
    requires PollFits(p) && told < |p.telling|
    ensures var q := Noted(p, told);
            q.pending == map[] && q.asking == 0 && q.telling == [] && q.failures == FailuresInARow(q.outcomes)
  {
    var q := Noted(p, told);
    assert q.outcomes[..|q.outcomes| - 1] == p.outcomes;
  }

  lemma ObservedKeepsPolls(s: State, i: nat, told: nat, sight: Sight)
    requires PollsFit(s) && Enabled(s, Observed(i, told, sight))
    ensures PollsFit(Step(s, Observed(i, told, sight)))
  {
    RestFits(s.polls[i], told, sight);
    var (p, over) := Rest(s.polls[i], told, sight);
    var t := Changed(s, i, p);
    if over {
      assert CurrentStopped(t).polls[i] == Stopped(p);
      forall j | 0 <= j < |s.polls| && j != i ensures CurrentStopped(t).polls[j] == s.polls[j] {}
    }
  }

  lemma RestFits(p: Poll, told: nat, sight: Sight)
    requires PollFits(p) && told < |p.telling|
    ensures var (q, over) := Rest(p, told, sight);
            && q.stopped == p.stopped && (if over then !p.stopped && PollFits(Stopped(q)) else PollFits(q))
  {
    NotedFits(p, told);
    SeenGrows(p.sights, sight);
  }

  lemma ScreenKeepsPolls(s: State, e: Event)
    requires PollsFit(s) && Enabled(s, e)
    requires e.StopPoll? || e.SetForeground? || e.PausePoll? || e.ResumePoll?
    ensures PollsFit(Step(s, e))
  {
    StoppedFits(s);
  }

  lemma AnswerKeepsPolls(s: State, e: Event)
    requires PollsFit(s) && Enabled(s, e) && (e.Fires? || e.Answered?)
    ensures PollsFit(Step(s, e))
  {
    assert PollFits(s.polls[e.i]);
    assert PollFits(Step(s, e).polls[e.i]);
  }

  lemma StepKeepsPolls(s: State, e: Event)
    requires PollsFit(s) && Enabled(s, e)
    ensures PollsFit(Step(s, e))
  {
    match e
    case StartPoll(key, sandboxed) => if !sandboxed { StartKeepsPolls(s, key); }
    case Observed(i, told, sight) => ObservedKeepsPolls(s, i, told, sight);
    case AnsweredInBackground(_, _) =>
    case Fires(_, _) => AnswerKeepsPolls(s, e);
    case Answered(_, _) => AnswerKeepsPolls(s, e);
    case _ => ScreenKeepsPolls(s, e);
  }

  lemma StepKeepsCounts(s: State, e: Event)
    requires Enabled(s, e) && forall key :: CountFits(s, key)
    ensures forall key :: CountFits(Step(s, e), key)
  {
    match e
    case Answered(i, answer) =>
      HeardKeepsCounts(s, s.polls[i].key, answer);
      CountsStand(Heard(s, s.polls[i].key, answer), Step(s, e));
    case AnsweredInBackground(key, answer) => HeardKeepsCounts(s, key, answer);
    case _ => CountsStand(s, Step(s, e));
  }

  lemma StepKeepsFits(s: State, e: Event)
    requires Fits(s) && Enabled(s, e)
    ensures Fits(Step(s, e))
  {
    StepKeepsPolls(s, e);
    StepKeepsCounts(s, e);
  }

  lemma {:induction false} RunFits(events: seq<Event>)
    ensures Fits(Run(events))
  {
    if events != [] {
      RunFits(events[..|events| - 1]);
      var before := Run(events[..|events| - 1]);
      if Enabled(before, events[|events| - 1]) {
        StepKeepsFits(before, events[|events| - 1]);
      }
    }
  }

  lemma {:induction false} DelayIsBounded(outcome: Outcome, failures: nat)
    ensures MELD_POLL_MS <= Delay(outcome, failures) <= MELD_POLL_MAX_MS
    decreases failures
  {
    if failures > 0 {
      DelayIsBounded(Okay, failures - 1);
    }
  }

  /** A read of the poll of the screen ends it exactly when the payment is gone, the record's rail cannot
      move, or the record is not there although it was at an earlier look. */
  lemma {:induction false} EndsIff(events: seq<Event>, i: nat, told: nat, sight: Sight)
    requires Enabled(Run(events), Observed(i, told, sight))
    requires !Run(events).polls[i].stopped && !Run(events).polls[i].paused
    ensures var s := Run(events); var p := s.polls[i];
            Step(s, Observed(i, told, sight)).polls[i].stopped <==>
              || p.telling[told] == Gone
              || sight == Ended
              || (sight == Absent && EverSeen(p.sights))
  {
    RunFits(events);
    assert PollFits(Run(events).polls[i]);
  }

  predicate Idle(p: Poll) {
    p.paused && p.asking == 0 && p.telling == [] && p.pending == map[]
  }

  lemma OneTimerAtMost(p: Poll)
    requires PollFits(p)
    ensures |p.pending| == if !p.stopped && !p.paused && !p.inFlight then 1 else 0
  {
    if !p.stopped && !p.paused && !p.inFlight {
      assert p.pending == map[p.timer.value := p.pending[p.timer.value]];
    } else {
      assert p.pending == map[];
    }
  }

  /** However starts, stops, pauses, resumes, timeouts and answers fall: a poll that was not stopped is
      the poll of the screen and has exactly one thing going, be it a read, a timeout or a pause; one
      that was stopped sets nothing going again; and no wait is out of bounds. */
  lemma {:induction false} PollNeverStallsOrDoubles(events: seq<Event>, i: nat)
    requires i < |Run(events).polls|
    ensures var s := Run(events); var p := s.polls[i];
            && (!p.stopped ==>
                  && s.current == Some(i)
                  && p.asking + |p.telling| + |p.pending| + (if Idle(p) then 1 else 0) == 1)
            && (p.stopped ==> s.current != Some(i) && p.pending == map[] && p.asking + |p.telling| <= 1)
            && (forall h | h in p.pending :: MELD_POLL_MS <= p.pending[h] <= MELD_POLL_MAX_MS)
            && p.failures == FailuresInARow(p.outcomes)
  {
    RunFits(events);
    var p := Run(events).polls[i];
    OneTimerAtMost(p);
    forall h | h in p.pending ensures MELD_POLL_MS <= p.pending[h] <= MELD_POLL_MAX_MS {
      DelayIsBounded(p.outcomes[|p.outcomes| - 1], p.failures);
    }
  }

  // ----- the wait, by the answers

  /** How many answers came after the last status. */
  function SinceStatus(answers: seq<Answer>): (n: nat)
    ensures n <= |answers|
  {
    if answers == [] || answers[|answers| - 1] == Status then 0
    else 1 + SinceStatus(answers[..|answers| - 1])
  }

  /** The wait after these answers: three seconds after a status and after a 404 that is not yet the third;
      after any other failure three seconds doubled once per answer since the last status, at most thirty. */
  function WaitAfter(answers: seq<Answer>): nat
    requires answers != []
  {
    if answers[|answers| - 1] == NoAnswer then Min(3_000 * Pow2(SinceStatus(answers)), 30_000) else 3_000
  }

  /** What the rest of the tick is told of an answer. */
  predicate Tells(answer: Answer, outcome: Outcome) {
    match answer
    case Status => outcome == Okay
    case NoAnswer => outcome == Unreachable
    case NotFound => outcome == Missing || outcome == Gone
  }

  ghost predicate AllTell(answers: seq<Answer>, outcomes: seq<Outcome>) {
    && |answers| == |outcomes|
    && forall k | 0 <= k < |answers| :: Tells(answers[k], outcomes[k])
  }

  /** The answers the reads of poll `i` itself were given. */
  function Given(events: seq<Event>, i: nat): seq<Answer> {
    if events == [] then []
    else
      var front, last := events[..|events| - 1], events[|events| - 1];
      Given(front, i)
      + if last.Answered? && last.i == i && Enabled(Run(front), last) then [last.answer] else []
  }

  /** Those it has counted: all but one that is still being observed. */
  function Counted(events: seq<Event>, i: nat): seq<Answer> {
    var s, given := Run(events), Given(events, i);
    if i < |s.polls| && |s.polls[i].outcomes| <= |given| then given[..|s.polls[i].outcomes|] else given
  }

  /** What a poll was told, in order. */
  function Heed(p: Poll): seq<Outcome> {
    p.outcomes + p.telling
  }

  lemma QuietStepTells(s: State, e: Event, i: nat)
    requires Enabled(s, e) && i < |s.polls| && !e.Observed? && !(e.Answered? && e.i == i)
    ensures i < |Step(s, e).polls| && Heed(Step(s, e).polls[i]) == Heed(s.polls[i])
  {
  }

  lemma AnswerTells(s: State, i: nat, answer: Answer)
    requires Enabled(s, Answered(i, answer))
    ensures var t := Step(s, Answered(i, answer));
            i < |t.polls| && Heed(t.polls[i]) == Heed(s.polls[i]) + [OutcomeOf(s, s.polls[i].key, answer)]
  {
  }

  lemma RestTells(p: Poll, told: nat, sight: Sight)
    requires PollFits(p) && told < |p.telling|
    ensures Heed(Rest(p, told, sight).0) == Heed(p)
  {
    assert p.telling == [p.telling[0]] && told == 0;
    assert Noted(p, told).telling == [];
  }

  lemma ObservedTells(s: State, i: nat, told: nat, sight: Sight, j: nat)
    requires PollsFit(s) && Enabled(s, Observed(i, told, sight)) && j < |s.polls|
    ensures var t := Step(s, Observed(i, told, sight));
            j < |t.polls| && Heed(t.polls[j]) == Heed(s.polls[j])
  {
    RestTells(s.polls[i], told, sight);
  }

  /** A step adds to it only what the poll's own read was answered. */
  lemma StepTells(s: State, e: Event, i: nat)
    requires PollsFit(s) && Enabled(s, e) && i < |s.polls|
    ensures i < |Step(s, e).polls|
    ensures Heed(Step(s, e).polls[i])
            == Heed(s.polls[i]) + if e.Answered? && e.i == i then [OutcomeOf(s, s.polls[i].key, e.answer)] else []
  {
    if e.Answered? && e.i == i {
      AnswerTells(s, i, e.answer);
    } else {
      assert Heed(s.polls[i]) + [] == Heed(s.polls[i]);
      if e.Observed? {
        ObservedTells(s, e.i, e.told, e.sight, i);
      } else {
        QuietStepTells(s, e, i);
      }
    }
  }

  /** A poll that was just started was told nothing. */
  lemma NewPollTells(s: State, e: Event, i: nat)
    requires Enabled(s, e) && |s.polls| <= i < |Step(s, e).polls|
    ensures Heed(Step(s, e).polls[i]) == []
  {
  }

  lemma OutcomeTells(s: State, key: Key, answer: Answer)
    ensures Tells(answer, OutcomeOf(s, key, answer))
  {
  }

  ghost predicate RunTold(s: State, given: seq<Answer>, i: nat) {
    if i < |s.polls| then AllTell(given, Heed(s.polls[i])) else given == []
  }

  lemma StepTold(s: State, e: Event, given: seq<Answer>, i: nat)
    requires PollsFit(s) && Enabled(s, e) && RunTold(s, given, i)
    ensures RunTold(Step(s, e), given + if e.Answered? && e.i == i then [e.answer] else [], i)
  {
    if i < |s.polls| {
      StepTells(s, e, i);
      OutcomeTells(s, s.polls[i].key, if e.Answered? then e.answer else Status);
    } else if i < |Step(s, e).polls| {
      NewPollTells(s, e, i);
    }
  }

  lemma {:induction false} RunTells(events: seq<Event>, i: nat)
    ensures RunTold(Run(events), Given(events, i), i)
  {
    if events != [] {
      var front, e := events[..|events| - 1], events[|events| - 1];
      RunTells(front, i);
      RunFits(front);
      if Enabled(Run(front), e) {
        StepTold(Run(front), e, Given(front, i), i);
      } else {
        assert Given(front, i) + [] == Given(front, i);
      }
    }
  }

  lemma {:induction false} CountsAgree(answers: seq<Answer>, outcomes: seq<Outcome>)
    requires AllTell(answers, outcomes)
    ensures SinceStatus(answers) == FailuresInARow(outcomes)
  {
    if answers != [] && answers[|answers| - 1] != Status {
      CountsAgree(answers[..|answers| - 1], outcomes[..|outcomes| - 1]);
    }
  }

  lemma TakenTells(answers: seq<Answer>, outcomes: seq<Outcome>, telling: seq<Outcome>)
    requires AllTell(answers, outcomes + telling)
    ensures AllTell(answers[..|outcomes|], outcomes)
  {
    assert forall k | 0 <= k < |outcomes| :: (outcomes + telling)[k] == outcomes[k];
  }

  lemma {:induction false} WaitsAgree(answers: seq<Answer>, outcomes: seq<Outcome>)
    requires AllTell(answers, outcomes) && outcomes != [] && outcomes[|outcomes| - 1] != Gone
    ensures Delay(outcomes[|outcomes| - 1], FailuresInARow(outcomes)) == WaitAfter(answers)
  {
    CountsAgree(answers, outcomes);
  }

  lemma PendingFits(p: Poll, h: nat)
    requires PollFits(p) && h in p.pending
    ensures p.telling == [] && p.outcomes != [] && p.outcomes[|p.outcomes| - 1] != Gone
    ensures p.pending[h] == Delay(p.outcomes[|p.outcomes| - 1], FailuresInARow(p.outcomes))
  {
  }

  /** Over every run, from the answers the poll's own reads were given: its failures are the answers since the
      last status, and a timer that is set waits as those answers say. */
  lemma {:induction false} PollWaitsAsAnswered(events: seq<Event>, i: nat)
    requires i < |Run(events).polls|
    ensures var p, counted := Run(events).polls[i], Counted(events, i);
            && |counted| == |p.outcomes| == |Given(events, i)| - |p.telling|
            && p.failures == SinceStatus(counted)
            && (forall h | h in p.pending ::
                  counted == Given(events, i) != [] && p.pending[h] == WaitAfter(counted))
  {
    var p, given, counted := Run(events).polls[i], Given(events, i), Counted(events, i);
    RunTells(events, i);
    TakenTells(given, p.outcomes, p.telling);
    RunFits(events);
    assert PollFits(p);
    CountsAgree(counted, p.outcomes);
    forall h | h in p.pending ensures counted == given != [] && p.pending[h] == WaitAfter(counted) {
      PendingFits(p, h);
      assert given[..|given|] == given;
      WaitsAgree(counted, p.outcomes);
    }
  }

  lemma {:induction false} SinceStatusGrows(answers: seq<Answer>, answer: Answer)
    ensures SinceStatus(answers + [answer]) == if answer == Status then 0 else SinceStatus(answers) + 1
  {
    var all := answers + [answer];
    assert all[..|all| - 1] == answers;
  }

  lemma {:induction false} NoAnswerWaits(answers: seq<Answer>)
    ensures WaitAfter(answers + [NoAnswer]) == Min(3_000 * Pow2(SinceStatus(answers) + 1), 30_000)
  {
    SinceStatusGrows(answers, NoAnswer);
  }

  lemma {:induction false} LastWaits(answers: seq<Answer>)
    requires answers != [] && answers[|answers| - 1] == NoAnswer
    ensures WaitAfter(answers) == Min(3_000 * Pow2(SinceStatus(answers)), 30_000)
  {
  }

  lemma CadenceStays(answers: seq<Answer>, answer: Answer)
    requires answer != NoAnswer
    ensures WaitAfter(answers + [answer]) == 3_000
  {
  }

  /** Each further failure that is no 404 doubles the wait, up to the longest; a 404 and a status keep the
      cadence. */
  lemma WaitDoubles(answers: seq<Answer>, answer: Answer)
    ensures answer != NoAnswer ==> WaitAfter(answers + [answer]) == 3_000
    ensures answers != [] && answers[|answers| - 1] == answer == NoAnswer ==>
              WaitAfter(answers + [answer]) == Min(2 * WaitAfter(answers), 30_000)
  {
    if answer != NoAnswer {
      CadenceStays(answers, answer);
    } else if answers != [] && answers[|answers| - 1] == NoAnswer {
      NoAnswerWaits(answers);
      LastWaits(answers);
      Doubles(SinceStatus(answers));
    }
  }

  lemma Doubles(n: nat)
    ensures 3_000 * Pow2(n + 1) == 2 * (3_000 * Pow2(n))
    ensures Min(2 * (3_000 * Pow2(n)), 30_000) == Min(2 * Min(3_000 * Pow2(n), 30_000), 30_000)
  {
    CapDoubles(3_000 * Pow2(n));
  }

  lemma CapDoubles(wait: nat)
    ensures Min(2 * wait, 30_000) == Min(2 * Min(wait, 30_000), 30_000)
  {
  }

  /** Every answer about a payment, whichever read it was given to. */
  function HeardOf(events: seq<Event>, key: Key): seq<Answer> {
    if events == [] then []
    else
      var front, last := events[..|events| - 1], events[|events| - 1];
      var s := Run(front);
      HeardOf(front, key)
      + if last.Answered? && Enabled(s, last) && s.polls[last.i].key == key then [last.answer]
        else if last.AnsweredInBackground? && last.of == key then [last.answer] else []
  }

  lemma QuietStepHears(s: State, e: Event, key: Key)
    requires Enabled(s, e) && !e.Answered? && !e.AnsweredInBackground?
    ensures Answers(Step(s, e), key) == Answers(s, key)
  {
  }

  lemma {:induction false} AllIsHeard(events: seq<Event>, key: Key)
    ensures Answers(Run(events), key) == HeardOf(events, key)
  {
    if events != [] {
      var front, e := events[..|events| - 1], events[|events| - 1];
      AllIsHeard(front, key);
      assert HeardOf(front, key) + [] == HeardOf(front, key);
      if Enabled(Run(front), e) && !e.Answered? && !e.AnsweredInBackground? {
        QuietStepHears(Run(front), e, key);
      }
    }
  }

  // ----- the poll of the screen, by what was asked

  /** Nothing is polled, or one payment is, in the background of a paused page or not. */
  datatype Screen = Blank | Shows(key: Key, paused: bool)

  /** The end of a read ends the poll it belongs to. */
  ghost predicate Ends(s: State, e: Event) {
    && e.Observed? && Enabled(s, e) && s.current == Some(e.i)
    && var p := s.polls[e.i];
    p.telling[e.told] == Gone || e.sight == Ended || (e.sight == Absent && EverSeen(p.sights))
  }

  ghost function ScreenAfter(events: seq<Event>): Screen {
    if events == [] then Blank
    else
      var front, last := events[..|events| - 1], events[|events| - 1];
      ScreenMoves(ScreenAfter(front), Run(front), last)
  }

  /** A start shows its payment unless it is shown already, a stop and another request on screen blank it, a
      pause and a resume leave it, and the end of a read blanks it unless the page is paused. */
  ghost function ScreenMoves(screen: Screen, s: State, e: Event): Screen {
    match e
    case StartPoll(key, sandboxed) =>
      if sandboxed || (screen.Shows? && screen.key == key) then screen else Shows(key, false)
    case StopPoll => Blank
    case SetForeground(shown) => if screen.Shows? && shown != Some(screen.key) then Blank else screen
    case PausePoll => if screen.Shows? then screen.(paused := true) else screen
    case ResumePoll => if screen.Shows? then screen.(paused := false) else screen
    case Observed(_, _, _) => if screen.Shows? && !screen.paused && Ends(s, e) then Blank else screen
    case _ => screen
  }

  predicate ScreenFits(s: State, screen: Screen) {
    match screen
    case Blank => s.current == None
    case Shows(key, paused) =>
      InUse(s) && s.polls[s.current.value].key == key && s.polls[s.current.value].paused == paused
  }

  lemma ObservedScreen(s: State, screen: Screen, e: Event)
    requires PollsFit(s) && ScreenFits(s, screen) && e.Observed? && Enabled(s, e)
    ensures ScreenFits(Step(s, e), ScreenMoves(screen, s, e))
    ensures |Step(s, e).polls| == |s.polls|
  {
    assert PollFits(s.polls[e.i]);
  }

  lemma StepScreen(s: State, screen: Screen, e: Event)
    requires PollsFit(s) && ScreenFits(s, screen) && Enabled(s, e)
    ensures ScreenFits(Step(s, e), ScreenMoves(screen, s, e))
    ensures |Step(s, e).polls| == |s.polls|
              + if e.StartPoll? && !e.sandboxed && !(screen.Shows? && screen.key == e.key) then 1 else 0
  {
    match e
    case Observed(_, _, _) => ObservedScreen(s, screen, e);
    case _ =>
  }

  /** Over every run: the store polls exactly the payment that was asked for and not called off since, paused
      exactly while it was paused; and a poll is started exactly by a start of one that is not shown. */
  lemma {:induction false} ScreenIsAsAsked(events: seq<Event>, e: Event)
    ensures ScreenFits(Run(events), ScreenAfter(events))
    ensures Enabled(Run(events), e) ==>
              |Step(Run(events), e).polls| == |Run(events).polls|
                + if e.StartPoll? && !e.sandboxed && !(ScreenAfter(events).Shows? && ScreenAfter(events).key == e.key)
                  then 1 else 0
  {
    RunFits(events);
    if events != [] {
      var front, last := events[..|events| - 1], events[|events| - 1];
      ScreenIsAsAsked(front, last);
      RunFits(front);
      if Enabled(Run(front), last) {
        StepScreen(Run(front), ScreenAfter(front), last);
      }
    }
    if Enabled(Run(events), e) {
      StepScreen(Run(events), ScreenAfter(events), e);
    }
  }

  /** A payment is declared gone exactly on the third 404 in a row about it, counted from the last
      other answer or the last time it was declared gone, whichever reads the answers came to. */
  lemma {:induction false} GoneIffThirdInARow(events: seq<Event>, key: Key, answer: Answer)
    ensures var s := Run(events); var after := HeardOf(events, key) + [answer];
            && (OutcomeOf(s, key, answer) == Gone <==> answer == NotFound && NotFoundInARow(after) % 3 == 0)
            && (OutcomeOf(s, key, answer) == Gone ==>
                  && |after| >= 3
                  && after[|after| - 3..] == [NotFound, NotFound, NotFound])
  {
    RunFits(events);
    AllIsHeard(events, key);
    GoneIffThird(Run(events), key, answer);
  }

  lemma GoneIffThird(s: State, key: Key, answer: Answer)
    requires CountFits(s, key)
    ensures var after := Answers(s, key) + [answer];
            && (OutcomeOf(s, key, answer) == Gone <==>
                  answer == NotFound && NotFoundInARow(after) % MELD_GONE_AFTER == 0)
            && (OutcomeOf(s, key, answer) == Gone ==>
                  && |after| >= 3
                  && after[|after| - 3..] == [NotFound, NotFound, NotFound])
  {
    ThirdInARow(Answers(s, key), answer);
  }

  lemma {:induction false} ThirdInARow(answers: seq<Answer>, answer: Answer)
    ensures var after := answers + [answer];
            && NotFoundInARow(after) == (if answer == NotFound then NotFoundInARow(answers) + 1 else 0)
            && (NotFoundInARow(after) >= 3 ==> |after| >= 3 && after[|after| - 3..] == [NotFound, NotFound, NotFound])
  {
    var after := answers + [answer];
    assert after[..|after| - 1] == answers;
  }

  // ----- the closures

  /** The variables `startMeldPoll` closes over, and what the poll has out. */
  class PollClosure {
    const key: Key
    var stopped: bool
    var paused: bool
    var inFlight: bool
    var failures: nat
    var timer: Option<nat>
    var seen: bool
    var asking: nat
    var telling: seq<Outcome>
    var pending: map<nat, nat>
    var outcomes: seq<Outcome>
    var sights: seq<Sight>

    function Value(): Poll
      reads this
    {
      Poll(key, stopped, paused, inFlight, failures, timer, seen, asking, telling, pending, outcomes, sights)
    }

    constructor (key: Key)
      ensures Value() == Fresh(key) && this.key == key
    {
      this.key := key;
      stopped, paused, inFlight, failures, timer, seen := false, false, false, 0, None, false;
      asking, telling, pending, outcomes, sights := 0, [], map[], [], [];
    }

    method ClearTimer()
      modifies this
      ensures Value() == Cleared(old(Value()))
    {
      if timer.Some? {
        pending := pending - {timer.value};
      }
      timer := None;
    }

    method Stop()
      modifies this
      ensures Value() == Stopped(old(Value()))
    {
      stopped := true;
      ClearTimer();
    }

    method Pause()
      modifies this
      ensures Value() == Paused(old(Value()))
    {
      paused := true;
      ClearTimer();
    }

    method Resume()
      modifies this
      ensures Value() == Resumed(old(Value()))
    {
      if !paused { return; }
      paused := false;
      StartTick();
    }

    /** A tick up to the read it asks for. */
    method StartTick()
      modifies this
      ensures Value() == Tick(old(Value()))
    {
      if stopped || paused || inFlight { return; }
      inFlight := true;
      asking := asking + 1;
    }

    method TimerFires(handle: nat)
      requires handle in pending
      modifies this
      ensures Value() == Fired(old(Value()), handle)
    {
      pending := pending - {handle};
      StartTick();
    }

    /** The read is answered and its outcome goes to the record. */
    method Tell(outcome: Outcome)
      requires asking > 0
      modifies this
      ensures Value() == Told(old(Value()), outcome)
    {
      asking := asking - 1;
      telling := telling + [outcome];
    }

    /** The rest of the tick; `over` asks for the poll of the screen to be stopped. */
    method EndTick(told: nat, sight: Sight) returns (over: bool)
      requires told < |telling|
      modifies this
      ensures (Value(), over) == Rest(old(Value()), told, sight)
    {
      var outcome := telling[told];
      telling := telling[..told] + telling[told + 1..];
      inFlight := false;
      failures := if outcome == Okay then 0 else failures + 1;
      outcomes := outcomes + [outcome];
      if stopped || paused { return false; }
      if outcome == Gone || Finished(Value(), sight) { return true; }
      seen := seen || sight != Absent;
      sights := sights + [sight];
      timer := Some(|outcomes|);
      pending := pending[|outcomes| := Delay(outcome, failures)];
      over := false;
    }
  }

  ghost function Values(polls: seq<PollClosure>): (r: seq<Poll>)
    reads polls
    ensures |r| == |polls|
    ensures forall i | 0 <= i < |polls| :: r[i] == polls[i].Value()
  {
    if polls == [] then [] else Values(polls[..|polls| - 1]) + [polls[|polls| - 1].Value()]
  }

  /** The store's half: the poll of the screen, the shared counts, and every poll ever started. */
  class MeldPolling {
    var meldPoll: PollClosure?
    var meldNotFound: map<Key, nat>
    ghost var answers: map<Key, seq<Answer>>
    ghost var started: seq<PollClosure>
    ghost var current: Option<nat>

    ghost predicate Valid()
      reads this
    {
      && (forall i, j | 0 <= i < j < |started| :: started[i] != started[j])
      && (current.None? <==> meldPoll == null)
      && (current.Some? ==> current.value < |started| && started[current.value] == meldPoll)
    }

    ghost function Now(): State
      reads this, started
    {
      State(Values(started), current, meldNotFound, answers)
    }

    constructor ()
      ensures Valid() && Now() == Run([])
    {
      meldPoll, meldNotFound, answers, started, current := null, map[], map[], [], None;
    }

    method StopMeldPoll()
      requires Valid()
      modifies this, started
      ensures Valid() && started == old(started) && Now() == CurrentStopped(old(Now()))
    {
      if meldPoll != null {
        meldPoll.Stop();
      }
      meldPoll := null;
      current := None;
      assert Now().polls == CurrentStopped(old(Now())).polls;
    }

    method StartMeldPoll(key: Key, sandboxed: bool)
      requires Valid()
      modifies this, started
      ensures Valid() && Now() == Step(old(Now()), StartPoll(key, sandboxed))
    {
      if sandboxed { return; }
      if meldPoll != null && meldPoll.key == key { return; }
      StopMeldPoll();
      ghost var stopped := Now();
      assert Step(old(Now()), StartPoll(key, sandboxed))
          == stopped.(polls := stopped.polls + [Tick(Fresh(key))], current := Some(|stopped.polls|));
      ShowNew(key);
    }

    method ShowNew(key: Key)
      requires Valid()
      modifies this
      ensures Valid()
      ensures Now() == old(Now()).(polls := old(Now()).polls + [Tick(Fresh(key))], current := Some(|old(started)|))
    {
      var poll := new PollClosure(key);
      poll.StartTick();
      Show(poll);
    }

    method Show(poll: PollClosure)
      requires Valid() && poll !in started
      modifies this
      ensures Valid()
      ensures Now() == old(Now()).(polls := old(Now()).polls + [poll.Value()], current := Some(|old(started)|))
    {
      meldPoll := poll;
      current := Some(|started|);
      started := started + [poll];
      assert started[..|started| - 1] == old(started);
    }

    method SetForeground(shown: Option<Key>)
      requires Valid()
      modifies this, started
      ensures Valid() && Now() == Step(old(Now()), Event.SetForeground(shown))
    {
      if meldPoll != null && shown != Some(meldPoll.key) {
        StopMeldPoll();
      }
    }

    method PausePolls()
      requires Valid()
      modifies this, started
      ensures Valid() && Now() == Step(old(Now()), PausePoll)
    {
      if meldPoll != null {
        meldPoll.Pause();
      }
      assert Now().polls == Step(old(Now()), PausePoll).polls;
    }

    method ResumePolls()
      requires Valid()
      modifies this, started
      ensures Valid() && Now() == Step(old(Now()), ResumePoll)
    {
      if meldPoll != null {
        meldPoll.Resume();
      }
      assert Now().polls == Step(old(Now()), ResumePoll).polls;
    }

    /** The answer to a read of `key`, up to the observation it makes. */
    method ObserveMeldStatus(key: Key, answer: Answer) returns (outcome: Outcome)
      requires Valid()
      modifies this`meldNotFound, this`answers
      ensures Valid() && started == old(started) && Now() == Heard(old(Now()), key, answer)
      ensures outcome == OutcomeOf(old(Now()), key, answer) && Tells(answer, outcome)
    {
      ghost var before := Now();
      outcome := NoteAnswer(key, answer);
      answers := answers[key := Answers(before, key) + [answer]];
      assert Now() == Heard(before, key, answer);
    }

    method NoteAnswer(key: Key, answer: Answer) returns (outcome: Outcome)
      modifies this`meldNotFound
      ensures outcome == OutcomeOf(old(Now()), key, answer)
      ensures meldNotFound == Heard(old(Now()), key, answer).notFound
    {
      if answer != NotFound {
        meldNotFound := meldNotFound - {key};
        return if answer == Status then Okay else Unreachable;
      }
      var notFound := (if key in meldNotFound then meldNotFound[key] else 0) + 1;
      if notFound < MELD_GONE_AFTER {
        meldNotFound := meldNotFound[key := notFound];
        return Missing;
      }
      meldNotFound := meldNotFound - {key};
      outcome := Gone;
    }

    method ReadAnswered(poll: PollClosure, ghost i: nat, answer: Answer)
      requires Valid() && i < |started| && started[i] == poll && poll.asking > 0
      modifies this, started
      ensures Valid() && Now() == Step(old(Now()), Answered(i, answer))
    {
      var outcome := ObserveMeldStatus(poll.key, answer);
      poll.Tell(outcome);
      assert Now().polls == Step(old(Now()), Answered(i, answer)).polls;
    }

    method TimerFires(poll: PollClosure, ghost i: nat, handle: nat)
      requires Valid() && i < |started| && started[i] == poll && handle in poll.pending
      modifies this, started
      ensures Valid() && Now() == Step(old(Now()), Fires(i, handle))
    {
      poll.TimerFires(handle);
      assert Now().polls == Step(old(Now()), Fires(i, handle)).polls;
    }

    method OutcomeObserved(poll: PollClosure, ghost i: nat, told: nat, sight: Sight)
      requires Valid() && i < |started| && started[i] == poll && told < |poll.telling|
      modifies this, started
      ensures Valid() && Now() == Step(old(Now()), Observed(i, told, sight))
    {
      ghost var before := Now();
      var over := EndTick(poll, i, told, sight);
      assert Step(before, Observed(i, told, sight)) == if over then CurrentStopped(Now()) else Now();
      if over {
        StopMeldPoll();
      }
    }

    method EndTick(poll: PollClosure, ghost i: nat, told: nat, sight: Sight) returns (over: bool)
      requires Valid() && i < |started| && started[i] == poll && told < |poll.telling|
      modifies poll
      ensures Valid() && over == Rest(old(poll.Value()), told, sight).1
      ensures Now() == Changed(old(Now()), i, Rest(old(poll.Value()), told, sight).0)
    {
      over := poll.EndTick(told, sight);
      assert Now().polls == old(Now()).polls[i := poll.Value()];
    }
  }
}
