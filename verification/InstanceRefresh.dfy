/**
 The rolling instance refresh: the persisted state, the functions that compute its sizes and
 expectations, and the state machine that a scheduler calls with a fresh cluster report.
 `State` is the value of the persisted record; the class `RefreshState` is the record the Go
 code updates in place, and its methods are proved against functions on `State`.
 */
module InstanceRefresh {
  import opened Wrappers
  import opened GoMath

  type Time = int
  datatype InstanceId = InstanceId(name: string)

  datatype Phase =
    | Idle
    | Provisioning
    | WaitingAfterScaleUp
    | WaitingAfterScaleDown
    | Terminating
    | Completed
    | Cancelled

  datatype State = State(
    originalSize: int,
    scaleUpInterval: int,
    phase: Phase,
    currentIteration: int,
    totalIterations: int,
    originalInstanceIds: seq<InstanceId>,
    startedAt: Time,
    updatedAt: Time,
    completedAt: Option<Time>,
    iterationStartedAt: Option<Time>,
    iterationDurations: seq<int>)

  datatype WekaStatus = WekaStatus(
    ioStatus: string,
    status: string,
    activeBackends: int,
    totalBackends: int,
    activeDrives: int,
    totalDrives: int)

  /** The per-VM shape of the cluster that every poll is given. */
  datatype Fleet = Fleet(drivesPerVm: int, containersPerVm: int, gatewayContainers: int)

  datatype HealthError =
    | IoNotStarted(ioStatus: string)
    | NotOk(status: string)
    | WrongActiveBackends(actual: int, expected: int)
    | WrongTotalBackends(actual: int, expected: int)
    | WrongActiveDrives(actual: int, expected: int)
    | WrongTotalDrives(actual: int, expected: int)

  datatype RefreshError = MoreReplacedThanExpected(actual: int, expected: int)

  datatype Outcome = Outcome(state: State, changed: bool, desired: Option<int>, err: Option<RefreshError>)

  // ---- sizes and expectations ------------------------------------------------------------

  function CalculateTargetContainers(vmCount: int, containersPerVm: int, gatewayContainers: int): int {
    vmCount * containersPerVm + gatewayContainers
  }

  function CheckClusterHealthy(st: WekaStatus, expectedSize: int, fleet: Fleet): Option<HealthError> {
    var containers := CalculateTargetContainers(expectedSize, fleet.containersPerVm, fleet.gatewayContainers);
    var drives := expectedSize * fleet.drivesPerVm;
    if st.ioStatus != "STARTED" then Some(IoNotStarted(st.ioStatus))
    else if st.status != "OK" then Some(NotOk(st.status))
    else if st.activeBackends != containers then Some(WrongActiveBackends(st.activeBackends, containers))
    else if st.totalBackends != containers then Some(WrongTotalBackends(st.totalBackends, containers))
    else if st.activeDrives != drives then Some(WrongActiveDrives(st.activeDrives, drives))
    else if st.totalDrives != drives then Some(WrongTotalDrives(st.totalDrives, drives))
    else None
  }

  predicate Healthy(st: WekaStatus, size: int, fleet: Fleet) {
    CheckClusterHealthy(st, size, fleet) == None
  }

  /** The report of a cluster that is healthy with the given number of instances. */
  function HealthyReport(size: int, fleet: Fleet): (st: WekaStatus)
    ensures Healthy(st, size, fleet)
  {
    var containers := CalculateTargetContainers(size, fleet.containersPerVm, fleet.gatewayContainers);
    var drives := size * fleet.drivesPerVm;
    WekaStatus("STARTED", "OK", containers, containers, drives, drives)
  }

  function CalculateTotalIterations(clusterSize: int, scaleUpInterval: int): int {
    if scaleUpInterval <= 0 then 0
    else
      var iterations := Quot(clusterSize, scaleUpInterval);
      if Rem(clusterSize, scaleUpInterval) != 0 then iterations + 1 else iterations
  }

  function GetScaledUpSize(originalSize: int, scaleUpInterval: int, currentIteration: int, totalIterations: int): int {
    var remaining := originalSize - (currentIteration - 1) * scaleUpInterval;
    if currentIteration == totalIterations && remaining < scaleUpInterval
    then originalSize + remaining
    else originalSize + scaleUpInterval
  }

  /** The scaled-up size of the iteration a state is in. */
  function ScaledUp(s: State): int {
    GetScaledUpSize(s.originalSize, s.scaleUpInterval, s.currentIteration, s.totalIterations)
  }

  function InitializeState(originalSize: int, scaleUpInterval: int, ids: seq<InstanceId>, now: Time): State {
    State(originalSize, scaleUpInterval, Provisioning, 1, CalculateTotalIterations(originalSize, scaleUpInterval),
          ids, now, now, None, Some(now), [])
  }

  predicate InProgress(phase: Phase) {
    phase in {Provisioning, WaitingAfterScaleUp, WaitingAfterScaleDown, Terminating}
  }

  predicate IsInProgress(s: State) {
    InProgress(s.phase)
  }

  predicate ShouldContinue(s: State) {
    s.currentIteration < s.totalIterations
  }

  function GetExpectedReplaced(s: State): int {
    var expected := s.currentIteration * s.scaleUpInterval;
    if expected > |s.originalInstanceIds| then |s.originalInstanceIds| else expected
  }

  function GetExpectedDesiredSize(s: State): int {
    if s.phase in {Provisioning, WaitingAfterScaleUp} then ScaledUp(s) else s.originalSize
  }

  function Elements(ids: seq<InstanceId>): set<InstanceId> {
    set id | id in ids
  }

  /** How many entries of `originals` are missing from `current`. */
  function Replaced(originals: seq<InstanceId>, current: set<InstanceId>): (count: nat)
    ensures count <= |originals|
  {
    if originals == [] then 0
    else
      var last := |originals| - 1;
      Replaced(originals[..last], current) + if originals[last] !in current then 1 else 0
  }

  // ---- the state machine on values ---------------------------------------------------------

  function IterationMarked(s: State, now: Time): State {
    (if s.iterationStartedAt.Some?
     then s.(iterationDurations := s.iterationDurations + [now - s.iterationStartedAt.value])
     else s).(updatedAt := now)
  }

  function NextIterationStarted(s: State, now: Time): State {
    s.(currentIteration := s.currentIteration + 1, phase := Provisioning,
       iterationStartedAt := Some(now), updatedAt := now)
  }

  function Entered(s: State, phase: Phase, now: Time): State {
    s.(phase := phase, updatedAt := now)
  }

  function Closed(s: State, phase: Phase, now: Time): State {
    s.(phase := phase, completedAt := Some(now), updatedAt := now)
  }

  function IterationFinished(s: State, now: Time): Outcome {
    var marked := IterationMarked(s, now);
    if ShouldContinue(marked)
    then
      var next := NextIterationStarted(marked, now);
      Outcome(next, true, Some(ScaledUp(next)), None)
    else Outcome(Closed(marked, Completed, now), true, None, None)
  }

  /** What a poll decides: keep the phase, enter another one, finish the iteration, report an error, or
      nothing because the refresh is over. `size` is the desired size that is returned. */
  datatype Move =
    | Stay(size: int)
    | Enter(phase: Phase, size: int)
    | Finish
    | Fail(size: int)
    | Over

  /** The decision depends on the phase, the number of instances listed, the scaled-up and original
      sizes, the expected and actual number of replaced instances, and the health at either size. */
  function Decide(phase: Phase, listed: int, up: int, original: int, expected: int, actual: int,
                  healthyUp: bool, healthyDown: bool): Move
  {
    match phase
    case Provisioning =>
      if listed < up then Stay(up) else Enter(WaitingAfterScaleUp, up)
    case WaitingAfterScaleUp =>
      if listed < up then Enter(Provisioning, up)
      else if !healthyUp then Stay(up)
      else Enter(WaitingAfterScaleDown, original)
    case WaitingAfterScaleDown =>
      if !healthyDown then Stay(original)
      else if actual > expected then Fail(original)
      else if actual == expected && listed == original then Finish
      else Enter(Terminating, original)
    case Terminating =>
      if actual > expected then Fail(original)
      else if actual < expected || listed != original then Stay(original)
      else Finish
    case _ => Over
  }

  function DecideFor(s: State, st: WekaStatus, ids: seq<InstanceId>, fleet: Fleet): Move {
    Decide(s.phase, |ids|, ScaledUp(s), s.originalSize, GetExpectedReplaced(s),
           Replaced(s.originalInstanceIds, Elements(ids)),
           Healthy(st, ScaledUp(s), fleet), Healthy(st, s.originalSize, fleet))
  }

  /** What one call of the state machine does, as a function of the state and what it is shown. */
  function Advance(s: State, st: WekaStatus, ids: seq<InstanceId>, fleet: Fleet, now: Time): Outcome {
    match DecideFor(s, st, ids, fleet)
    case Stay(size) => Outcome(s, false, Some(size), None)
    case Enter(phase, size) => Outcome(Entered(s, phase, now), true, Some(size), None)
    case Finish => IterationFinished(s, now)
    case Fail(size) =>
      Outcome(s, true, Some(size),
              Some(MoreReplacedThanExpected(Replaced(s.originalInstanceIds, Elements(ids)), GetExpectedReplaced(s))))
    case Over => Outcome(s, false, None, None)
  }

  // ---- the record that is updated in place ---------------------------------------------------

  method CountReplacedInstances(originals: seq<InstanceId>, current: seq<InstanceId>) returns (replaced: nat)
    ensures replaced == Replaced(originals, Elements(current))
  {
    var currentSet := {};
    for i := 0 to |current|
      invariant currentSet == Elements(current[..i])
    {
      currentSet := currentSet + {current[i]};
    }
    assert current[..|current|] == current;
    replaced := 0;
    for i := 0 to |originals|
      invariant replaced == Replaced(originals[..i], currentSet)
    {
      assert originals[..i + 1][..i] == originals[..i];
      if originals[i] !in currentSet {
        replaced := replaced + 1;
      }
    }
    assert originals[..|originals|] == originals;
  }

  class RefreshState {
    var originalSize: int
    var scaleUpInterval: int
    var phase: Phase
    var currentIteration: int
    var totalIterations: int
    var originalInstanceIds: seq<InstanceId>
    var startedAt: Time
    var updatedAt: Time
    var completedAt: Option<Time>
    var iterationStartedAt: Option<Time>
    var iterationDurations: seq<int>

    function Value(): State
      reads this
    {
      State(originalSize, scaleUpInterval, phase, currentIteration, totalIterations, originalInstanceIds,
            startedAt, updatedAt, completedAt, iterationStartedAt, iterationDurations)
    }

    constructor (originalSize: int, scaleUpInterval: int, ids: seq<InstanceId>, now: Time)
      ensures Value() == InitializeState(originalSize, scaleUpInterval, ids, now)
    {
      this.originalSize, this.scaleUpInterval := originalSize, scaleUpInterval;
      phase, currentIteration := Provisioning, 1;
      totalIterations := CalculateTotalIterations(originalSize, scaleUpInterval);
      originalInstanceIds := ids;
      startedAt, updatedAt, completedAt, iterationStartedAt := now, now, None, Some(now);
      iterationDurations := [];
    }

    method MarkIterationComplete(now: Time)
      modifies this
      ensures Value() == IterationMarked(old(Value()), now)
    {
      if iterationStartedAt.Some? {
        iterationDurations := iterationDurations + [now - iterationStartedAt.value];
      }
      updatedAt := now;
    }

    method StartNextIteration(now: Time)
      modifies this
      ensures Value() == NextIterationStarted(old(Value()), now)
    {
      currentIteration := currentIteration + 1;
      phase := Provisioning;
      iterationStartedAt := Some(now);
      updatedAt := now;
    }

    method MarkCompleted(now: Time)
      modifies this
      ensures Value() == Closed(old(Value()), Completed, now)
    {
      phase := Completed;
      completedAt := Some(now);
      updatedAt := now;
    }

    method MarkCancelled(now: Time)
      modifies this
      ensures Value() == Closed(old(Value()), Cancelled, now)
    {
      phase := Cancelled;
      completedAt := Some(now);
      updatedAt := now;
    }

    method TransitionTo(target: Phase, now: Time)
      modifies this
      ensures Value() == Entered(old(Value()), target, now)
    {
      phase := target;
      updatedAt := now;
    }

    method CompleteIterationAndProceed(now: Time) returns (newDesiredSize: Option<int>)
      modifies this
      ensures Value() == IterationFinished(old(Value()), now).state
      ensures newDesiredSize == IterationFinished(old(Value()), now).desired
    {
      MarkIterationComplete(now);
      if ShouldContinue(Value()) {
        StartNextIteration(now);
        return Some(GetScaledUpSize(originalSize, scaleUpInterval, currentIteration, totalIterations));
      }
      MarkCompleted(now);
      newDesiredSize := None;
    }

    method AdvanceStateMachine(st: WekaStatus, ids: seq<InstanceId>, fleet: Fleet, now: Time)
      returns (changed: bool, newDesiredSize: Option<int>, err: Option<RefreshError>)
      modifies this
      ensures Outcome(Value(), changed, newDesiredSize, err) == Advance(old(Value()), st, ids, fleet, now)
    {
      if phase == Provisioning || phase == WaitingAfterScaleUp {
        var up := GetScaledUpSize(originalSize, scaleUpInterval, currentIteration, totalIterations);
        if |ids| < up {
          if phase != Provisioning {
            TransitionTo(Provisioning, now);
            return true, Some(up), None;
          }
          return false, Some(up), None;
        }
        if phase != WaitingAfterScaleUp {
          TransitionTo(WaitingAfterScaleUp, now);
          return true, Some(up), None;
        }
        if CheckClusterHealthy(st, up, fleet).Some? {
          return false, Some(up), None;
        }
        TransitionTo(WaitingAfterScaleDown, now);
        return true, Some(originalSize), None;
      }
      if phase == WaitingAfterScaleDown {
        if CheckClusterHealthy(st, originalSize, fleet).Some? {
          return false, Some(originalSize), None;
        }
        var expected := GetExpectedReplaced(Value());
        var actual := CountReplacedInstances(originalInstanceIds, ids);
        if actual > expected {
          return true, Some(originalSize), Some(MoreReplacedThanExpected(actual, expected));
        }
        if actual == expected && |ids| == originalSize {
          newDesiredSize := CompleteIterationAndProceed(now);
          return true, newDesiredSize, None;
        }
        TransitionTo(Terminating, now);
        return true, Some(originalSize), None;
      }
      if phase == Terminating {
        var expected := GetExpectedReplaced(Value());
        var actual := CountReplacedInstances(originalInstanceIds, ids);
        if actual > expected {
          return true, Some(originalSize), Some(MoreReplacedThanExpected(actual, expected));
        }
        if actual < expected || |ids| != originalSize {
          return false, Some(originalSize), None;
        }
        newDesiredSize := CompleteIterationAndProceed(now);
        return true, newDesiredSize, None;
      }
      return false, None, None;
    }
  }

  // ---- arithmetic of the plan --------------------------------------------------------------------

  /** The number of iterations is the ceiling of n/k: the least number of k-sized steps that cover n. An
      interval that is not positive gives none. A negative size, which no cluster has, is divided with
      truncation and still rounded up, so it comes out one too high. */
  lemma TotalIterationsIsCeiling(n: int, k: int)
    ensures var t := CalculateTotalIterations(n, k);
            if k <= 0 then t == 0
            else if n >= 0 then (t - 1) * k < n <= t * k && (t >= 1 <==> n >= 1)
            else t * k == n || (t - 2) * k < n < (t - 1) * k
  {
    if k > 0 && n >= 0 {
      assert n == (n / k) * k + n % k;
    } else if k > 0 {
      NegativeSize(n, k);
    }
  }

  lemma NegativeSize(n: int, k: int)
    requires n < 0 && k > 0
    ensures var t := CalculateTotalIterations(n, k); t * k == n || (t - 2) * k < n < (t - 1) * k
  {
    var q, r := -n / k, -n % k;
    assert -n == q * k + r && 0 <= r < k;
    assert Quot(n, k) == -q && Quot(n, k) * k == -(q * k);
    assert (-q) * k == -(q * k) && (-q - 1) * k == -(q * k) - k;
  }

  /** How many originals are gone once `i` iterations have ended. */
  function GoneAfter(n: int, k: int, i: int): int {
    Min(i * k, n)
  }

  /** The extra instances of iteration `i`, above the original size. */
  function Surge(n: int, k: int, i: int): int {
    GetScaledUpSize(n, k, i, CalculateTotalIterations(n, k)) - n
  }

  function TotalSurge(n: int, k: int, i: nat): int {
    if i == 0 then 0 else TotalSurge(n, k, i - 1) + Surge(n, k, i)
  }

  /** One surge is positive, at most k, and replaces exactly the instances its iteration must replace. */
  lemma SurgeReplacesItsShare(n: int, k: int, i: int)
    requires n >= 1 && k >= 1 && 1 <= i <= CalculateTotalIterations(n, k)
    ensures 1 <= Surge(n, k, i) <= k
    ensures GoneAfter(n, k, i) == GoneAfter(n, k, i - 1) + Surge(n, k, i)
  {
    var t := CalculateTotalIterations(n, k);
    TotalIterationsIsCeiling(n, k);
    assert i * k == (i - 1) * k + k;
    if i == t {
      assert i * k >= n;
    } else {
      assert i * k <= (t - 1) * k by { MulMonotone(i, t - 1, k); }
    }
  }

  lemma MulMonotone(a: int, b: int, k: int)
    requires a <= b && k >= 0
    ensures a * k <= b * k
  {
  }

  /** The surges of the first i iterations add up to min(i*k, n). */
  lemma {:induction false} SurgesTelescope(n: int, k: int, i: nat)
    requires n >= 1 && k >= 1 && i <= CalculateTotalIterations(n, k)
    ensures TotalSurge(n, k, i) == GoneAfter(n, k, i)
  {
    if i > 0 {
      SurgesTelescope(n, k, i - 1);
      SurgeReplacesItsShare(n, k, i);
    }
  }

  /** With as many originals as the original size, that sum is what the state machine checks against. */
  lemma ExpectedReplacedIsTotalSurge(s: State)
    requires s.originalSize >= 1 && s.scaleUpInterval >= 1
    requires |s.originalInstanceIds| == s.originalSize
    requires s.totalIterations == CalculateTotalIterations(s.originalSize, s.scaleUpInterval)
    requires 1 <= s.currentIteration <= s.totalIterations
    ensures GetExpectedReplaced(s) == TotalSurge(s.originalSize, s.scaleUpInterval, s.currentIteration)
    ensures s.originalSize < ScaledUp(s) <= s.originalSize + s.scaleUpInterval
  {
    SurgesTelescope(s.originalSize, s.scaleUpInterval, s.currentIteration);
    SurgeReplacesItsShare(s.originalSize, s.scaleUpInterval, s.currentIteration);
  }

  /** The originals are counted only when terminations are awaited: in Terminating, and on the down side
      once the cluster is healthy at the original size. */
  predicate CountsReplaced(s: State, st: WekaStatus, fleet: Fleet) {
    s.phase == Terminating || (s.phase == WaitingAfterScaleDown && Healthy(st, s.originalSize, fleet))
  }

  /** More originals are missing from the list than the current iteration may have replaced. */
  predicate TooManyReplaced(s: State, ids: seq<InstanceId>) {
    Replaced(s.originalInstanceIds, Elements(ids)) > GetExpectedReplaced(s)
  }

  /** The documented meaning of the first result, "the state was modified", is right except when
      originals are counted and too many of them are gone. Then the call reports a change, makes none,
      and returns the error. */
  lemma ChangedMeansModifiedUnlessTooManyReplaced(s: State, st: WekaStatus, ids: seq<InstanceId>, fleet: Fleet,
                                                  now: Time)
    ensures var o := Advance(s, st, ids, fleet, now);
            var bad := CountsReplaced(s, st, fleet) && TooManyReplaced(s, ids);
            && ((o.changed <==> o.state != s) <==> !bad)
            && (o.err.Some? <==> bad)
            && (bad ==> o.changed && o.state == s && o.desired == Some(s.originalSize))
  {
    var o := Advance(s, st, ids, fleet, now);
    if o.changed && o.err.None? {
      assert o.state.phase != s.phase;
    }
  }

  // ---- counting replaced instances ------------------------------------------------------------------

  /** No id occurs twice. */
  predicate Distinct(ids: seq<InstanceId>) {
    |Elements(ids)| == |ids|
  }

  lemma {:induction false} ElementsOfPrefix(ids: seq<InstanceId>)
    ensures |Elements(ids)| <= |ids|
    ensures ids != [] ==>
              var last := |ids| - 1;
              && Elements(ids) == Elements(ids[..last]) + {ids[last]}
              && (Distinct(ids) ==> Distinct(ids[..last]) && ids[last] !in Elements(ids[..last]))
  {
    if ids != [] {
      var last := |ids| - 1;
      ElementsOfPrefix(ids[..last]);
      assert ids == ids[..last] + [ids[last]];
      assert Elements(ids) == Elements(ids[..last]) + {ids[last]};
      if ids[last] in Elements(ids[..last]) {
        assert Elements(ids) == Elements(ids[..last]);
      }
    }
  }

  /** All originals are counted as replaced exactly when none of them is still in the list. */
  lemma {:induction false} AllReplacedIffNoneLeft(originals: seq<InstanceId>, current: set<InstanceId>)
    ensures Replaced(originals, current) == |originals| <==> forall id :: id in originals ==> id !in current
  {
    if originals != [] {
      var last := |originals| - 1;
      AllReplacedIffNoneLeft(originals[..last], current);
      assert originals == originals[..last] + [originals[last]];
    }
  }

  /** For distinct originals the loop's count is the size of the set difference. */
  lemma {:induction false} ReplacedIsSetDifference(originals: seq<InstanceId>, current: set<InstanceId>)
    requires Distinct(originals)
    ensures Replaced(originals, current) == |Elements(originals) - current|
  {
    if originals == [] {
      assert Elements(originals) == {};
    } else {
      var last := |originals| - 1;
      var id := originals[last];
      var before := Elements(originals[..last]);
      ElementsOfPrefix(originals);
      ReplacedIsSetDifference(originals[..last], current);
      if id in current {
        assert Elements(originals) - current == before - current;
      } else {
        assert Elements(originals) - current == (before - current) + {id};
      }
    }
  }

  /** Reports that are healthy for two different sizes are two different reports, unless a VM has
      neither containers nor drives. */
  lemma HealthySizeIsUnique(st: WekaStatus, st': WekaStatus, a: int, b: int, fleet: Fleet)
    requires Healthy(st, a, fleet) && Healthy(st', b, fleet) && a != b
    ensures st == st' ==> fleet.containersPerVm == 0 && fleet.drivesPerVm == 0
  {
    if st == st' {
      assert (a - b) * fleet.containersPerVm == a * fleet.containersPerVm - b * fleet.containersPerVm == 0;
      assert (a - b) * fleet.drivesPerVm == a * fleet.drivesPerVm - b * fleet.drivesPerVm == 0;
      ZeroProduct(a - b, fleet.containersPerVm);
      ZeroProduct(a - b, fleet.drivesPerVm);
    }
  }

  lemma ZeroProduct(x: int, y: int)
    requires x * y == 0 && x != 0
    ensures y == 0
  {
  }
}
