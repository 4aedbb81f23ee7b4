/**
 What one poll does, in terms of the numbers it is given: when each phase ends, what the report must say
 for that, and which size is asked for.
 */
module InstanceRefreshPolls {
  import opened Wrappers
  import opened InstanceRefresh

  /** A report is healthy for a size exactly when IO has started, the status is OK, and every expected
      container and drive is there and active. */
  lemma HealthyIffAllUp(st: WekaStatus, size: int, fleet: Fleet)
    ensures var containers, drives := size * fleet.containersPerVm + fleet.gatewayContainers, size * fleet.drivesPerVm;
            Healthy(st, size, fleet) <==>
            && st.ioStatus == "STARTED" && st.status == "OK"
            && st.activeBackends == st.totalBackends == containers
            && st.activeDrives == st.totalDrives == drives
  {
  }

  /** An error names the first thing that is wrong, with the number that was expected. */
  lemma ErrorIsTrue(st: WekaStatus, size: int, fleet: Fleet)
    requires !Healthy(st, size, fleet)
    ensures var containers, drives := size * fleet.containersPerVm + fleet.gatewayContainers, size * fleet.drivesPerVm;
            var io, ok := st.ioStatus == "STARTED", st.status == "OK";
            var backends := st.activeBackends == st.totalBackends == containers;
            match CheckClusterHealthy(st, size, fleet).value
            case IoNotStarted(shown) => shown == st.ioStatus != "STARTED"
            case NotOk(shown) => io && shown == st.status != "OK"
            case WrongActiveBackends(n, expected) => io && ok && n == st.activeBackends != expected == containers
            case WrongTotalBackends(n, expected) =>
              io && ok && st.activeBackends == containers && n == st.totalBackends != expected == containers
            case WrongActiveDrives(n, expected) => io && ok && backends && n == st.activeDrives != expected == drives
            case WrongTotalDrives(n, expected) =>
              io && ok && backends && st.activeDrives == drives && n == st.totalDrives != expected == drives
  {
  }

  /** The size of iteration i: k more than the original, or in the last one what is left to replace. */
  lemma ScaledUpIs(s: State)
    ensures var left := s.originalSize - (s.currentIteration - 1) * s.scaleUpInterval;
            ScaledUp(s) - s.originalSize ==
            if s.currentIteration == s.totalIterations && left < s.scaleUpInterval then left else s.scaleUpInterval
  {
  }

  lemma ProvisioningEndsIff(s: State, st: WekaStatus, ids: seq<InstanceId>, fleet: Fleet, now: Time)
    requires s.phase == Provisioning
    ensures var o := Advance(s, st, ids, fleet, now);
            && o.desired == Some(ScaledUp(s)) && o.err.None?
            && (o.changed <==> |ids| >= ScaledUp(s))
            && o.state == if o.changed then s.(phase := WaitingAfterScaleUp, updatedAt := now) else s
  {
  }

  /** The wait after scaling up ends exactly with a full list and a cluster that is all up at that size;
      a list that has become too short leads back to provisioning. */
  lemma ScaleUpEndsIff(s: State, st: WekaStatus, ids: seq<InstanceId>, fleet: Fleet, now: Time)
    requires s.phase == WaitingAfterScaleUp
    ensures var o, up := Advance(s, st, ids, fleet, now), ScaledUp(s);
            && (o.state.phase == WaitingAfterScaleDown <==>
                  && |ids| >= up
                  && st.ioStatus == "STARTED" && st.status == "OK"
                  && st.activeBackends == st.totalBackends == up * fleet.containersPerVm + fleet.gatewayContainers
                  && st.activeDrives == st.totalDrives == up * fleet.drivesPerVm)
            && (o.state.phase == Provisioning <==> |ids| < up)
            && o.desired == Some(if o.state.phase == WaitingAfterScaleDown then s.originalSize else up)
            && o.err.None? && (o.changed <==> o.state.phase != s.phase)
            && o.state == if o.changed then s.(phase := o.state.phase, updatedAt := now) else s
  {
    HealthyIffAllUp(st, ScaledUp(s), fleet);
  }

  /** The originals that are gone, and how many of them may be by the end of the iteration. */
  function Lost(s: State, ids: seq<InstanceId>): nat {
    Replaced(s.originalInstanceIds, Elements(ids))
  }

  predicate IsExpected(s: State, expected: int) {
    expected == s.currentIteration * s.scaleUpInterval <= |s.originalInstanceIds|
    || expected == |s.originalInstanceIds| <= s.currentIteration * s.scaleUpInterval
  }

  /** The wait after scaling down ends exactly with a cluster that is all up at the original size and not
      too many originals gone. The iteration is then over if all that should go are gone and the list has
      the original size, and otherwise terminations are awaited. */
  lemma ScaleDownEndsIff(s: State, st: WekaStatus, ids: seq<InstanceId>, fleet: Fleet, now: Time, expected: int)
    requires s.phase == WaitingAfterScaleDown && IsExpected(s, expected)
    ensures var o, n := Advance(s, st, ids, fleet, now), s.originalSize;
            var allUp :=
              && st.ioStatus == "STARTED" && st.status == "OK"
              && st.activeBackends == st.totalBackends == n * fleet.containersPerVm + fleet.gatewayContainers
              && st.activeDrives == st.totalDrives == n * fleet.drivesPerVm;
            && (o.state.phase != s.phase <==> allUp && Lost(s, ids) <= expected)
            && (o.state.phase in {Provisioning, Completed} <==> allUp && Lost(s, ids) == expected && |ids| == n)
            && (o.state.phase !in {WaitingAfterScaleDown, Provisioning, Completed} ==>
                  o.state == s.(phase := Terminating, updatedAt := now) && o.changed && o.desired == Some(n))
            && o.err == (if allUp && Lost(s, ids) > expected
                         then Some(MoreReplacedThanExpected(Lost(s, ids), expected)) else None)
            && (o.state.phase == s.phase ==> o.state == s && o.desired == Some(n) && (o.changed <==> o.err.Some?))
  {
    HealthyIffAllUp(st, s.originalSize, fleet);
  }

  lemma TerminatingEndsIff(s: State, st: WekaStatus, ids: seq<InstanceId>, fleet: Fleet, now: Time, expected: int)
    requires s.phase == Terminating && IsExpected(s, expected)
    ensures var o, n := Advance(s, st, ids, fleet, now), s.originalSize;
            && (o.state.phase != s.phase <==> Lost(s, ids) == expected && |ids| == n)
            && (o.state.phase != s.phase ==> o.state.phase in {Provisioning, Completed})
            && o.err == (if Lost(s, ids) > expected
                         then Some(MoreReplacedThanExpected(Lost(s, ids), expected)) else None)
            && (o.state.phase == s.phase ==> o.state == s && o.desired == Some(n) && (o.changed <==> o.err.Some?))
  {
  }

  /** An iteration that ends is timed, and is followed by the next one until there is none. */
  lemma IterationEndsWith(s: State, st: WekaStatus, ids: seq<InstanceId>, fleet: Fleet, now: Time)
    requires s.phase in {WaitingAfterScaleDown, Terminating}
    requires Advance(s, st, ids, fleet, now).state.phase in {Provisioning, Completed}
    ensures var o := Advance(s, st, ids, fleet, now);
            && o.changed && o.err.None? && o.state.updatedAt == now
            && o.state.iterationDurations ==
               s.iterationDurations
               + (if s.iterationStartedAt.Some? then [now - s.iterationStartedAt.value] else [])
            && if s.currentIteration < s.totalIterations then
                 && o.state.phase == Provisioning && o.state.currentIteration == s.currentIteration + 1
                 && o.state.iterationStartedAt == Some(now) && o.state.completedAt == s.completedAt
                 && o.desired == Some(ScaledUp(o.state))
               else
                 && o.state.phase == Completed && o.state.currentIteration == s.currentIteration
                 && o.state.iterationStartedAt == s.iterationStartedAt && o.state.completedAt == Some(now)
                 && o.desired == None
  {
  }

  /** A poll asks for the scaled-up size of the state it leaves while that is on the up side, for the
      original size on the down side, and for nothing once the refresh is over. That is the size that can
      be worked out from the state alone when a write was lost. */
  lemma DesiredFollowsPhase(s: State, st: WekaStatus, ids: seq<InstanceId>, fleet: Fleet, now: Time)
    ensures var o := Advance(s, st, ids, fleet, now);
            && o.desired == (match o.state.phase
                             case Provisioning => Some(ScaledUp(o.state))
                             case WaitingAfterScaleUp => Some(ScaledUp(o.state))
                             case WaitingAfterScaleDown => Some(s.originalSize)
                             case Terminating => Some(s.originalSize)
                             case _ => None)
            && (IsInProgress(o.state) <==> o.desired.Some?)
            && (o.desired.Some? ==> o.desired.value == GetExpectedDesiredSize(o.state))
    ensures !IsInProgress(s) ==> Advance(s, st, ids, fleet, now) == Outcome(s, false, None, None)
  {
  }
}
