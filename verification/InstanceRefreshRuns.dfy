/**
 Whole runs of the refresh state machine against an adversary: every poll may bring any cluster
 report and any instance list, and the user may cancel at any point.
 */
module InstanceRefreshRuns {
  import opened GoMath
  import opened InstanceRefresh

  datatype Event =
    | Poll(st: WekaStatus, ids: seq<InstanceId>, now: Time)
    | Cancel(now: Time)

  function Polled(s: State, e: Event, fleet: Fleet): Outcome
    requires e.Poll?
  {
    Advance(s, e.st, e.ids, fleet, e.now)
  }

  function Apply(s: State, e: Event, fleet: Fleet): State {
    if e.Poll? then Polled(s, e, fleet).state else Closed(s, Cancelled, e.now)
  }

  function Run(s0: State, events: seq<Event>, fleet: Fleet): State {
    if events == [] then s0
    else
      var last := |events| - 1;
      Apply(Run(s0, events[..last], fleet), events[last], fleet)
  }

  // ---- what stays the same ------------------------------------------------------------------

  predicate SamePlan(s: State, s': State) {
    && s.originalSize == s'.originalSize
    && s.scaleUpInterval == s'.scaleUpInterval
    && s.totalIterations == s'.totalIterations
    && s.originalInstanceIds == s'.originalInstanceIds
    && s.startedAt == s'.startedAt
  }

  lemma ApplyKeepsPlan(s: State, e: Event, fleet: Fleet)
    ensures SamePlan(s, Apply(s, e, fleet))
  {
  }

  lemma {:induction false} RunKeepsPlan(s0: State, events: seq<Event>, fleet: Fleet)
    ensures SamePlan(s0, Run(s0, events, fleet))
  {
    if events != [] {
      var last := |events| - 1;
      RunKeepsPlan(s0, events[..last], fleet);
      ApplyKeepsPlan(Run(s0, events[..last], fleet), events[last], fleet);
    }
  }

  /** The refresh always has a first iteration to finish, even when the computed total is not positive. */
  function LastIteration(s: State): int {
    Max(1, s.totalIterations)
  }

  // ---- counting steps ---------------------------------------------------------------------------

  predicate Advances(s: State, e: Event, fleet: Fleet) {
    e.Poll? && Polled(s, e, fleet).changed && Polled(s, e, fleet).err.None?
  }

  predicate FallsBack(s: State, e: Event, fleet: Fleet) {
    s.phase == WaitingAfterScaleUp && Apply(s, e, fleet).phase == Provisioning
  }

  predicate EntersTerminating(s: State, e: Event, fleet: Fleet) {
    s.phase == WaitingAfterScaleDown && Apply(s, e, fleet).phase == Terminating
  }

  datatype Tally = Tally(changed: nat, fallbacks: nat, terminations: nat)

  function Count(s0: State, events: seq<Event>, fleet: Fleet): Tally {
    if events == [] then Tally(0, 0, 0)
    else
      var last := |events| - 1;
      var s, e := Run(s0, events[..last], fleet), events[last];
      var t := Count(s0, events[..last], fleet);
      Tally(t.changed + if Advances(s, e, fleet) then 1 else 0,
            t.fallbacks + if FallsBack(s, e, fleet) then 1 else 0,
            t.terminations + if EntersTerminating(s, e, fleet) then 1 else 0)
  }

  /** Steps of the current iteration that lie behind a phase, not counting detours. */
  function Offset(phase: Phase): int {
    match phase
    case WaitingAfterScaleUp => 1
    case WaitingAfterScaleDown => 2
    case Terminating => 2
    case _ => 0
  }

  predicate Accounted(s: State, t: Tally) {
    && s.phase != Idle && 1 <= s.currentIteration <= LastIteration(s)
    && (IsInProgress(s) ==>
          && s.iterationStartedAt.Some?
          && |s.iterationDurations| == s.currentIteration - 1
          && t.changed == 3 * (s.currentIteration - 1) + t.terminations + 2 * t.fallbacks + Offset(s.phase))
    && (s.phase == Completed ==>
          && s.currentIteration == LastIteration(s)
          && s.completedAt.Some?
          && |s.iterationDurations| == s.currentIteration
          && t.changed == 3 * s.currentIteration + t.terminations + 2 * t.fallbacks)
  }

  lemma ApplyKeepsAccount(s: State, t: Tally, e: Event, fleet: Fleet, t': Tally)
    requires Accounted(s, t)
    requires t'.changed == t.changed + if Advances(s, e, fleet) then 1 else 0
    requires t'.fallbacks == t.fallbacks + if FallsBack(s, e, fleet) then 1 else 0
    requires t'.terminations == t.terminations + if EntersTerminating(s, e, fleet) then 1 else 0
    ensures Accounted(Apply(s, e, fleet), t')
  {
    if e.Poll? {
      match DecideFor(s, e.st, e.ids, fleet)
      case Stay(_) =>
      case Enter(_, _) =>
      case Finish =>
      case Fail(_) =>
      case Over =>
    }
  }

  /** Every reachable state keeps its books: iteration bounds, recorded durations and step counts. */
  lemma {:induction false} RunIsAccounted(n: int, k: int, originals: seq<InstanceId>, start: Time,
                                          events: seq<Event>, fleet: Fleet)
    ensures var s0 := InitializeState(n, k, originals, start);
            Accounted(Run(s0, events, fleet), Count(s0, events, fleet))
  {
    if events != [] {
      var s0 := InitializeState(n, k, originals, start);
      var last := |events| - 1;
      RunIsAccounted(n, k, originals, start, events[..last], fleet);
      ApplyKeepsAccount(Run(s0, events[..last], fleet), Count(s0, events[..last], fleet),
                        events[last], fleet, Count(s0, events, fleet));
    }
  }

  /** A completed refresh took exactly three steps an iteration, one more per detour through
      Terminating and two more per fallback to Provisioning, and recorded one duration an iteration. */
  lemma CompletionCount(n: int, k: int, originals: seq<InstanceId>, start: Time, events: seq<Event>, fleet: Fleet)
    requires n >= 1 && k >= 1
    requires Run(InitializeState(n, k, originals, start), events, fleet).phase == Completed
    ensures var s0 := InitializeState(n, k, originals, start);
            var s := Run(s0, events, fleet);
            var t := Count(s0, events, fleet);
            && s.currentIteration == s.totalIterations == CalculateTotalIterations(n, k)
            && |s.iterationDurations| == s.totalIterations
            && t.changed == 3 * s.totalIterations + t.terminations + 2 * t.fallbacks
  {
    RunIsAccounted(n, k, originals, start, events, fleet);
    RunKeepsPlan(InitializeState(n, k, originals, start), events, fleet);
    TotalIterationsIsCeiling(n, k);
  }

  /** Orders the states of a run by iteration, and within an iteration by up side and down side. */
  function Progress(s: State): int {
    2 * s.currentIteration +
    if s.phase in {WaitingAfterScaleDown, Terminating, Completed} then 1 else 0
  }

  lemma ApplyKeepsProgress(s: State, e: Event, fleet: Fleet)
    requires IsInProgress(Apply(s, e, fleet)) || Apply(s, e, fleet).phase == Completed
    ensures Progress(s) <= Progress(Apply(s, e, fleet))
    ensures IsInProgress(s) || s.phase == Completed
  {
  }

  /** The side of an iteration never moves backwards, however the cluster behaves. */
  lemma {:induction false} ProgressIsMonotone(s0: State, events: seq<Event>, i: nat, fleet: Fleet)
    requires i <= |events|
    requires IsInProgress(Run(s0, events, fleet)) || Run(s0, events, fleet).phase == Completed
    ensures Progress(Run(s0, events[..i], fleet)) <= Progress(Run(s0, events, fleet))
    ensures IsInProgress(Run(s0, events[..i], fleet)) || Run(s0, events[..i], fleet).phase == Completed
    decreases |events|
  {
    if i == |events| {
      assert events[..i] == events;
    } else {
      var last := |events| - 1;
      assert events[..last][..i] == events[..i];
      ApplyKeepsProgress(Run(s0, events[..last], fleet), events[last], fleet);
      ProgressIsMonotone(s0, events[..last], i, fleet);
    }
  }

  // ---- time -----------------------------------------------------------------------------------------

  function Total(durations: seq<int>): int {
    if durations == [] then 0 else Total(durations[..|durations| - 1]) + durations[|durations| - 1]
  }

  /** The recorded durations are the time between the start and the start of the present iteration, and of
      a completed refresh the time it took in all. */
  predicate Timed(s: State, start: Time) {
    var behind := s.currentIteration - 1;
    && s.startedAt == start && s.iterationStartedAt.Some?
    && 0 <= behind <= |s.iterationDurations|
    && start + Total(s.iterationDurations[..behind]) == s.iterationStartedAt.value
    && (IsInProgress(s) ==> s.completedAt.None? && behind == |s.iterationDurations|)
    && (!IsInProgress(s) ==> s.completedAt.Some? && s.completedAt.value == s.updatedAt)
    && (s.phase == Completed ==> start + Total(s.iterationDurations) == s.completedAt.value)
  }

  lemma TotalNext(durations: seq<int>, last: int)
    ensures Total(durations + [last]) == Total(durations) + last
    ensures (durations + [last])[..|durations|] == durations
  {
    assert (durations + [last])[..|durations|] == durations;
  }

  lemma FinishKeepsTime(s: State, now: Time, start: Time)
    requires Timed(s, start) && IsInProgress(s)
    ensures Timed(IterationFinished(s, now).state, start)
  {
    var durations, last := s.iterationDurations, now - s.iterationStartedAt.value;
    TotalNext(durations, last);
    assert durations[..|durations|] == durations;
    assert (durations + [last])[..|durations| + 1] == durations + [last];
    hide Total;
  }

  lemma EnterKeepsTime(s: State, phase: Phase, now: Time, start: Time)
    requires Timed(s, start) && IsInProgress(s) && InProgress(phase)
    ensures Timed(Entered(s, phase, now), start)
  {
    hide Total;
  }

  lemma CancelKeepsTime(s: State, now: Time, start: Time)
    requires Timed(s, start)
    ensures Timed(Closed(s, Cancelled, now), start)
  {
    hide Total;
  }

  lemma ApplyKeepsTime(s: State, e: Event, fleet: Fleet, start: Time)
    requires Timed(s, start) && s.phase != Idle
    ensures Timed(Apply(s, e, fleet), start)
  {
    hide Timed, Healthy, Replaced, Entered, Closed, IterationFinished, GetScaledUpSize, GetExpectedReplaced;
    if e.Poll? {
      match DecideFor(s, e.st, e.ids, fleet)
      case Finish => FinishKeepsTime(s, e.now, start);
      case Enter(phase, _) => EnterKeepsTime(s, phase, e.now, start);
      case _ =>
    } else {
      CancelKeepsTime(s, e.now, start);
    }
  }

  /** When a run last changed its state: by a poll that reported a change and no error, or by a cancel. */
  function LastChange(s0: State, events: seq<Event>, fleet: Fleet): Time {
    if events == [] then s0.updatedAt
    else
      var before, e := events[..|events| - 1], events[|events| - 1];
      if e.Cancel? || Advances(Run(s0, before, fleet), e, fleet) then e.now else LastChange(s0, before, fleet)
  }

  /** On every run the durations add up to the time between the start and the present iteration's start,
      a completed refresh to its completion, and the update time is that of the last change. */
  lemma {:induction false} RunIsTimed(n: int, k: int, originals: seq<InstanceId>, start: Time, events: seq<Event>,
                                      fleet: Fleet)
    ensures var s0 := InitializeState(n, k, originals, start);
            var s := Run(s0, events, fleet);
            Timed(s, start) && s.updatedAt == LastChange(s0, events, fleet) && s0.updatedAt == start
  {
    if events != [] {
      var s0 := InitializeState(n, k, originals, start);
      var before, e := events[..|events| - 1], events[|events| - 1];
      var s := Run(s0, before, fleet);
      RunIsTimed(n, k, originals, start, before, fleet);
      RunIsAccounted(n, k, originals, start, before, fleet);
      ApplyKeepsTime(s, e, fleet, start);
      UpdatedByChange(s, e, fleet);
      hide Timed, Apply, Advances, Accounted, Count;
    }
  }

  /** A step that changes nothing leaves the update time alone; any other one sets it. */
  lemma UpdatedByChange(s: State, e: Event, fleet: Fleet)
    ensures Apply(s, e, fleet).updatedAt == if e.Cancel? || Advances(s, e, fleet) then e.now else s.updatedAt
  {
    hide Healthy, Replaced, GetScaledUpSize, GetExpectedReplaced;
  }

  // ---- full replacement --------------------------------------------------------------------------

  /** The step that completes a refresh saw a list of the original size with exactly the expected
      number of originals gone, whatever was fed to the machine before. */
  lemma CompletionSawExpectedReplacement(n: int, k: int, originals: seq<InstanceId>, start: Time,
                                         events: seq<Event>, e: Event, fleet: Fleet)
    requires var s := Run(InitializeState(n, k, originals, start), events, fleet);
             s.phase != Completed && Apply(s, e, fleet).phase == Completed
    ensures e.Poll? && |e.ids| == n
    ensures Replaced(originals, Elements(e.ids)) ==
            Min(Max(1, CalculateTotalIterations(n, k)) * k, |originals|)
  {
    var s0 := InitializeState(n, k, originals, start);
    RunIsAccounted(n, k, originals, start, events, fleet);
    RunIsAccounted(n, k, originals, start, events + [e], fleet);
    assert (events + [e])[..|events|] == events;
    RunKeepsPlan(s0, events, fleet);
    var s := Run(s0, events, fleet);
    assert s.currentIteration == LastIteration(s);
  }

  /** A refresh that completes has replaced every original exactly when its iterations could cover
      all of the originals it was started with. */
  lemma FullReplacementIffCovered(n: int, k: int, originals: seq<InstanceId>, start: Time,
                                  events: seq<Event>, e: Event, fleet: Fleet)
    requires var s := Run(InitializeState(n, k, originals, start), events, fleet);
             s.phase != Completed && Apply(s, e, fleet).phase == Completed
    ensures e.Poll? && |e.ids| == n
    ensures (forall id :: id in originals ==> id !in e.ids) <==>
            |originals| <= Max(1, CalculateTotalIterations(n, k)) * k
  {
    CompletionSawExpectedReplacement(n, k, originals, start, events, e, fleet);
    AllReplacedIffNoneLeft(originals, Elements(e.ids));
  }

  /** The promise of the feature: with at most as many originals as the original size, a completed
      refresh leaves none of them. */
  lemma FullReplacement(n: int, k: int, originals: seq<InstanceId>, start: Time,
                        events: seq<Event>, e: Event, fleet: Fleet)
    requires n >= 1 && k >= 1 && |originals| <= n
    requires var s := Run(InitializeState(n, k, originals, start), events, fleet);
             s.phase != Completed && Apply(s, e, fleet).phase == Completed
    ensures e.Poll? && |e.ids| == n && forall id :: id in originals ==> id !in e.ids
  {
    FullReplacementIffCovered(n, k, originals, start, events, e, fleet);
    TotalIterationsIsCeiling(n, k);
  }

  // ---- a change that is none ---------------------------------------------------------------------

  /** Ids that differ in length, so that no two are the same. */
  function Numbered(m: nat): (ids: seq<InstanceId>)
    ensures |ids| == m && Distinct(ids) && forall i :: 0 <= i < m ==> |ids[i].name| == i
  {
    if m == 0 then []
    else
      var before := Numbered(m - 1);
      var ids := before + [InstanceId(seq(m - 1, _ => 'i'))];
      assert Elements(ids) == Elements(before) + {ids[m - 1]};
      ids
  }

  /** Two polls that take a fresh refresh to the down side of its first iteration. */
  function ScaleDownStarted(s0: State, fleet: Fleet, now: Time): seq<Event> {
    var up := ScaledUp(s0);
    var ids := Numbered(Max(0, up));
    [Poll(HealthyReport(up, fleet), ids, now), Poll(HealthyReport(up, fleet), ids, now)]
  }

  lemma ScaleDownStarts(s0: State, fleet: Fleet, now: Time)
    requires s0.phase == Provisioning
    ensures var s := Run(s0, ScaleDownStarted(s0, fleet, now), fleet);
            s.phase == WaitingAfterScaleDown && s.currentIteration == s0.currentIteration
  {
    var events := ScaleDownStarted(s0, fleet, now);
    assert events[..1] == [events[0]] && events[..1][..0] == [];
    assert Run(s0, events[..1], fleet) == Apply(s0, events[0], fleet);
  }

  /** The exception is reached: for every plan with more originals than one iteration replaces, two polls
      lead to a state in which a list without any original is reported as a change and changes nothing. */
  lemma FalseChangeIsReachable(n: int, k: int, originals: seq<InstanceId>, now: Time, fleet: Fleet)
    returns (events: seq<Event>)
    requires |originals| > k
    ensures var s := Run(InitializeState(n, k, originals, now), events, fleet);
            var o := Advance(s, HealthyReport(n, fleet), [], fleet, now);
            o.changed && o.state == s && o.err.Some?
  {
    var s0 := InitializeState(n, k, originals, now);
    events := ScaleDownStarted(s0, fleet, now);
    ScaleDownStarts(s0, fleet, now);
    RunKeepsPlan(s0, events, fleet);
    AllReplacedIffNoneLeft(originals, Elements([]));
    ChangedMeansModifiedUnlessTooManyReplaced(Run(s0, events, fleet), HealthyReport(n, fleet), [], fleet, now);
  }

  /** A call that reports a change and makes none. */
  predicate FalseChange(s: State, p: Event, fleet: Fleet) {
    p.Poll? && Polled(s, p, fleet).changed && Polled(s, p, fleet).state == s
  }

  ghost predicate CanReportFalseChange(s0: State, fleet: Fleet) {
    exists events, p :: FalseChange(Run(s0, events, fleet), p, fleet)
  }

  /** Some run of a refresh reports a change that is none if and only if one iteration does not replace
      all of its originals. */
  lemma CanReportFalseChangeIff(n: int, k: int, originals: seq<InstanceId>, start: Time, fleet: Fleet)
    ensures CanReportFalseChange(InitializeState(n, k, originals, start), fleet) <==> |originals| > k
  {
    var s0 := InitializeState(n, k, originals, start);
    if |originals| > k {
      var events := FalseChangeIsReachable(n, k, originals, start, fleet);
      assert FalseChange(Run(s0, events, fleet), Poll(HealthyReport(n, fleet), [], start), fleet);
    } else {
      forall events, p
        ensures !FalseChange(Run(s0, events, fleet), p, fleet)
      {
        NoFalseChange(n, k, originals, start, events, p, fleet);
      }
    }
  }

  lemma NoFalseChange(n: int, k: int, originals: seq<InstanceId>, start: Time, events: seq<Event>, p: Event,
                      fleet: Fleet)
    requires |originals| <= k
    ensures !FalseChange(Run(InitializeState(n, k, originals, start), events, fleet), p, fleet)
  {
    var s0 := InitializeState(n, k, originals, start);
    var s := Run(s0, events, fleet);
    RunIsAccounted(n, k, originals, start, events, fleet);
    RunKeepsPlan(s0, events, fleet);
    assert s.currentIteration >= 1;
    MulMonotone(1, s.currentIteration, k);
    hide Run, Accounted, Count, Advance, CountsReplaced;
    if p.Poll? {
      assert !TooManyReplaced(s, p.ids);
      ChangedMeansModifiedUnlessTooManyReplaced(s, p.st, p.ids, fleet, p.now);
    }
  }

  // ---- every completed iteration saw the cluster healthy twice --------------------------------------

  /** At position p of the run a report healthy at the scaled-up size was accepted for iteration j. */
  predicate SawHealthyUp(s0: State, events: seq<Event>, fleet: Fleet, j: int, p: nat)
    requires p < |events|
  {
    && events[p].Poll?
    && AcceptsUp(Run(s0, events[..p], fleet), events[p].st, fleet, j)
  }

  predicate AcceptsUp(s: State, st: WekaStatus, fleet: Fleet, j: int) {
    s.phase == WaitingAfterScaleUp && s.currentIteration == j && Healthy(st, ScaledUp(s), fleet)
  }

  /** At position q a report healthy at the original size was accepted for iteration j. */
  predicate SawHealthyDown(s0: State, events: seq<Event>, fleet: Fleet, j: int, q: nat)
    requires q < |events|
  {
    && events[q].Poll?
    && AcceptsDown(Run(s0, events[..q], fleet), events[q].st, fleet, j)
  }

  predicate AcceptsDown(s: State, st: WekaStatus, fleet: Fleet, j: int) {
    s.phase == WaitingAfterScaleDown && s.currentIteration == j && Healthy(st, s.originalSize, fleet)
  }

  ghost predicate UpWitnessed(s0: State, events: seq<Event>, fleet: Fleet, j: int) {
    exists p: nat | p < |events| :: SawHealthyUp(s0, events, fleet, j, p)
  }

  ghost predicate BothWitnessed(s0: State, events: seq<Event>, fleet: Fleet, j: int) {
    exists p: nat, q: nat | p < q < |events| ::
      SawHealthyUp(s0, events, fleet, j, p) && SawHealthyDown(s0, events, fleet, j, q)
  }

  /** What a run that stands in the given phase and iteration has witnessed. */
  ghost predicate Witnessed(s0: State, events: seq<Event>, fleet: Fleet, phase: Phase, iteration: int) {
    && (forall j :: 1 <= j < iteration ==> BothWitnessed(s0, events, fleet, j))
    && (phase == WaitingAfterScaleDown ==> UpWitnessed(s0, events, fleet, iteration))
    && (phase in {Terminating, Completed} ==> BothWitnessed(s0, events, fleet, iteration))
  }

  lemma PositionSurvives(s0: State, events: seq<Event>, e: Event, fleet: Fleet, j: int, p: nat)
    requires p < |events|
    ensures SawHealthyUp(s0, events + [e], fleet, j, p) == SawHealthyUp(s0, events, fleet, j, p)
    ensures SawHealthyDown(s0, events + [e], fleet, j, p) == SawHealthyDown(s0, events, fleet, j, p)
  {
    assert (events + [e])[..p] == events[..p];
  }

  lemma WitnessesExtend(s0: State, events: seq<Event>, e: Event, fleet: Fleet, j: int)
    ensures UpWitnessed(s0, events, fleet, j) ==> UpWitnessed(s0, events + [e], fleet, j)
    ensures BothWitnessed(s0, events, fleet, j) ==> BothWitnessed(s0, events + [e], fleet, j)
  {
    if UpWitnessed(s0, events, fleet, j) {
      var p: nat :| p < |events| && SawHealthyUp(s0, events, fleet, j, p);
      PositionSurvives(s0, events, e, fleet, j, p);
    }
    if BothWitnessed(s0, events, fleet, j) {
      var p: nat, q: nat :| p < q < |events| &&
        SawHealthyUp(s0, events, fleet, j, p) && SawHealthyDown(s0, events, fleet, j, q);
      PositionSurvives(s0, events, e, fleet, j, p);
      PositionSurvives(s0, events, e, fleet, j, q);
    }
  }

  /** The step that accepts the report at the scaled-up size provides the first witness. */
  lemma UpStepWitnesses(s0: State, events: seq<Event>, e: Event, fleet: Fleet)
    requires var s := Run(s0, events, fleet);
             s.phase == WaitingAfterScaleUp && Apply(s, e, fleet).phase == WaitingAfterScaleDown
    ensures UpWitnessed(s0, events + [e], fleet, Run(s0, events, fleet).currentIteration)
  {
    assert (events + [e])[..|events|] == events;
    var s := Run(s0, events, fleet);
    assert AcceptsUp(s, e.st, fleet, s.currentIteration);
    assert SawHealthyUp(s0, events + [e], fleet, s.currentIteration, |events|);
  }

  /** A healthy report on the down side completes the pair. */
  lemma DownStepWitnesses(s0: State, events: seq<Event>, e: Event, fleet: Fleet)
    requires var s := Run(s0, events, fleet);
             && s.phase == WaitingAfterScaleDown && UpWitnessed(s0, events, fleet, s.currentIteration)
             && e.Poll? && Healthy(e.st, s.originalSize, fleet)
    ensures BothWitnessed(s0, events + [e], fleet, Run(s0, events, fleet).currentIteration)
  {
    var j := Run(s0, events, fleet).currentIteration;
    assert (events + [e])[..|events|] == events;
    var p: nat :| p < |events| && SawHealthyUp(s0, events, fleet, j, p);
    PositionSurvives(s0, events, e, fleet, j, p);
    assert SawHealthyDown(s0, events + [e], fleet, j, |events|);
  }

  /** The moves between phases and iterations; `healthy` says that the poll was healthy at the original size. */
  predicate MayMove(phase: Phase, i: int, healthy: bool, phase': Phase, i': int) {
    || (phase' == Cancelled && i' == i)
    || (phase' == phase && i' == i)
    || (phase == Provisioning && phase' == WaitingAfterScaleUp && i' == i)
    || (phase == WaitingAfterScaleUp && phase' in {Provisioning, WaitingAfterScaleDown} && i' == i)
    || (phase == WaitingAfterScaleDown && healthy && phase' in {Terminating, Completed} && i' == i)
    || (phase == WaitingAfterScaleDown && healthy && phase' == Provisioning && i' == i + 1)
    || (phase == Terminating && phase' == Completed && i' == i)
    || (phase == Terminating && phase' == Provisioning && i' == i + 1)
  }

  predicate HealthyAtOriginalSize(s: State, e: Event, fleet: Fleet) {
    e.Poll? && Healthy(e.st, s.originalSize, fleet)
  }

  lemma StepMoves(s: State, e: Event, fleet: Fleet)
    ensures MayMove(s.phase, s.currentIteration, HealthyAtOriginalSize(s, e, fleet),
                    Apply(s, e, fleet).phase, Apply(s, e, fleet).currentIteration)
  {
  }

  lemma MoveKeepsWitnesses(s0: State, events: seq<Event>, e: Event, fleet: Fleet,
                           phase: Phase, i: int, healthy: bool, phase': Phase, i': int)
    requires MayMove(phase, i, healthy, phase', i')
    requires Witnessed(s0, events, fleet, phase, i)
    requires phase == WaitingAfterScaleUp && phase' == WaitingAfterScaleDown ==>
               UpWitnessed(s0, events + [e], fleet, i)
    requires phase == WaitingAfterScaleDown && healthy ==> BothWitnessed(s0, events + [e], fleet, i)
    ensures Witnessed(s0, events + [e], fleet, phase', i')
  {
    hide UpWitnessed, BothWitnessed;
    forall j
      ensures UpWitnessed(s0, events, fleet, j) ==> UpWitnessed(s0, events + [e], fleet, j)
      ensures BothWitnessed(s0, events, fleet, j) ==> BothWitnessed(s0, events + [e], fleet, j)
    {
      WitnessesExtend(s0, events, e, fleet, j);
    }
  }

  lemma ApplyKeepsWitnesses(s0: State, events: seq<Event>, e: Event, fleet: Fleet, s: State, s': State)
    requires s == Run(s0, events, fleet) && s' == Apply(s, e, fleet)
    requires Witnessed(s0, events, fleet, s.phase, s.currentIteration)
    ensures Witnessed(s0, events + [e], fleet, s'.phase, s'.currentIteration)
  {
    StepMoves(s, e, fleet);
    if s.phase == WaitingAfterScaleUp && s'.phase == WaitingAfterScaleDown {
      UpStepWitnesses(s0, events, e, fleet);
    }
    if s.phase == WaitingAfterScaleDown && HealthyAtOriginalSize(s, e, fleet) {
      DownStepWitnesses(s0, events, e, fleet);
    }
    MoveKeepsWitnesses(s0, events, e, fleet, s.phase, s.currentIteration, HealthyAtOriginalSize(s, e, fleet),
                       s'.phase, s'.currentIteration);
  }

  lemma {:induction false} RunIsWitnessed(n: int, k: int, originals: seq<InstanceId>, start: Time,
                                          events: seq<Event>, fleet: Fleet)
    ensures var s0 := InitializeState(n, k, originals, start);
            var s := Run(s0, events, fleet);
            Witnessed(s0, events, fleet, s.phase, s.currentIteration)
  {
    if events != [] {
      var s0 := InitializeState(n, k, originals, start);
      var last := |events| - 1;
      RunIsWitnessed(n, k, originals, start, events[..last], fleet);
      ApplyKeepsWitnesses(s0, events[..last], events[last], fleet,
                          Run(s0, events[..last], fleet), Run(s0, events, fleet));
      assert events[..last] + [events[last]] == events;
    }
  }

  /** Every iteration that is behind, whether the run is in progress, over or cancelled, saw a report
      healthy at its scaled-up size and later one healthy at the original size; the two reports are
      different ones as soon as a VM has a container or a drive. */
  lemma CompletedIterationsWereHealthy(n: int, k: int, originals: seq<InstanceId>, start: Time,
                                       events: seq<Event>, fleet: Fleet, j: int)
    returns (p: nat, q: nat)
    requires n >= 1 && k >= 1
    requires fleet.containersPerVm > 0 || fleet.drivesPerVm > 0
    requires var s := Run(InitializeState(n, k, originals, start), events, fleet);
             1 <= j < s.currentIteration || (s.phase == Completed && j == s.currentIteration)
    ensures p < q < |events| && events[p].Poll? && events[q].Poll?
    ensures Healthy(events[p].st, GetScaledUpSize(n, k, j, CalculateTotalIterations(n, k)), fleet)
    ensures Healthy(events[q].st, n, fleet)
    ensures events[p].st != events[q].st
  {
    var s0 := InitializeState(n, k, originals, start);
    RunIsAccounted(n, k, originals, start, events, fleet);
    RunKeepsPlan(s0, events, fleet);
    TotalIterationsIsCeiling(n, k);
    RunIsWitnessed(n, k, originals, start, events, fleet);
    SurgeReplacesItsShare(n, k, j);
    p, q := WitnessesAreTwoReports(s0, events, fleet, j);
  }

  lemma WitnessesAreTwoReports(s0: State, events: seq<Event>, fleet: Fleet, j: int)
    returns (p: nat, q: nat)
    requires BothWitnessed(s0, events, fleet, j)
    requires fleet.containersPerVm > 0 || fleet.drivesPerVm > 0
    requires GetScaledUpSize(s0.originalSize, s0.scaleUpInterval, j, s0.totalIterations) != s0.originalSize
    ensures p < q < |events| && events[p].Poll? && events[q].Poll?
    ensures Healthy(events[p].st, GetScaledUpSize(s0.originalSize, s0.scaleUpInterval, j, s0.totalIterations), fleet)
    ensures Healthy(events[q].st, s0.originalSize, fleet)
    ensures events[p].st != events[q].st
  {
    p, q :| p < q < |events| && SawHealthyUp(s0, events, fleet, j, p) && SawHealthyDown(s0, events, fleet, j, q);
    RunKeepsPlan(s0, events[..p], fleet);
    RunKeepsPlan(s0, events[..q], fleet);
    HealthySizeIsUnique(events[p].st, events[q].st,
                        GetScaledUpSize(s0.originalSize, s0.scaleUpInterval, j, s0.totalIterations),
                        s0.originalSize, fleet);
  }
}
