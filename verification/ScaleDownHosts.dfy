/**
 Containers ("hosts") as the cluster reports them, the state the scale-down planner derives for each,
 and the order it sorts them in.
 */
module ScaleDownHosts {
  import opened GoStrings
  import opened Wrappers

  type Time = int

  /** Durations and times are in nanoseconds, as in Go. */
  const MINUTE := 60_000_000_000
  const UNHEALTHY_DEACTIVATE_TIMEOUT := 120 * MINUTE
  const NEW_HOST_GRACE := 5 * MINUTE

  datatype Ip = Ip(address: string)

  datatype HostId = HostId(number: int)

  datatype DriveId = DriveId(number: int)

  datatype NodeId = NodeId(number: int)

  datatype Mode = Client | Backend | OtherMode(name: string)

  datatype HostState = INACTIVE | REMOVING | DEACTIVATING | OtherState(name: string)

  datatype Status = Down | Degraded | Inactive | OtherStatus(name: string)

  datatype Drive = Drive(status: Status, shouldBeActive: bool)

  /** Node ids divisible by 20 are management nodes. */
  datatype Node = Node(status: Status, lastFencingTime: Option<Time>)

  datatype Host = Host(
    id: HostId,
    instanceId: string,
    ip: Ip,
    mode: Mode,
    state: HostState,
    status: Status,
    containerName: string,
    machineIdentifier: string,
    addedTime: Time,
    stateChangedTime: Time,
    autoRemoveTimeout: int,
    drives: map<DriveId, Drive>,
    nodes: map<NodeId, Node>)

  /** The order of the constants is the order in which hosts are removed. */
  datatype ScaleState = Deactivating | Unhealthy | Healthy

  function Rank(s: ScaleState): int {
    match s
    case Deactivating => 0
    case Unhealthy => 1
    case Healthy => 2
  }

  predicate DriveFailed(h: Host, d: DriveId, now: Time)
    requires d in h.drives
  {
    h.drives[d].status == Inactive && now - h.addedTime > NEW_HOST_GRACE
  }

  function UnhealthyDrives(h: Host, now: Time): set<DriveId> {
    set d | d in h.drives && DriveFailed(h, d, now)
  }

  function NumNotHealthyDrives(h: Host, now: Time): nat {
    |UnhealthyDrives(h, now)|
  }

  predicate AllDisksBeingRemoved(h: Host) {
    (exists d :: d in h.drives) && forall d :: d in h.drives ==> !h.drives[d].shouldBeActive
  }

  predicate AnyDiskBeingRemoved(h: Host) {
    exists d :: d in h.drives && !h.drives[d].shouldBeActive
  }

  predicate ManagementTimedOut(h: Host, timeout: int, now: Time) {
    exists n :: n in h.nodes && n.number % 20 == 0 && h.nodes[n].status == Down &&
      now - h.nodes[n].lastFencingTime.GetOr(h.stateChangedTime) > timeout
  }

  function DeriveHostState(h: Host, now: Time): ScaleState {
    if h.mode.Client? then Healthy
    else if Contains(h.containerName, "drive") && AllDisksBeingRemoved(h) then Deactivating
    else if h.state in {DEACTIVATING, REMOVING, INACTIVE} then Deactivating
    else if h.status in {Down, Degraded} && ManagementTimedOut(h, UNHEALTHY_DEACTIVATE_TIMEOUT, now) then Unhealthy
    else if NumNotHealthyDrives(h, now) > 0 || AnyDiskBeingRemoved(h) then Unhealthy
    else Healthy
  }

  /** A host with its derived state. */
  datatype Scored = Scored(host: Host, scale: ScaleState)

  /** Of two containers in the same state, the one the sort puts first. */
  predicate SoonerOut(a: Host, b: Host, now: Time) {
    var da, db := NumNotHealthyDrives(a, now), NumNotHealthyDrives(b, now);
    if da != db then da > db else a.addedTime < b.addedTime
  }

  /** The comparison the host list is sorted with. */
  predicate Before(a: Scored, b: Scored, now: Time) {
    if Rank(a.scale) != Rank(b.scale) then Rank(a.scale) < Rank(b.scale) else SoonerOut(a.host, b.host, now)
  }

  /** Any result the sort may produce: it is not stable, so ties come in any order. */
  predicate IsSorted(l: seq<Scored>, now: Time) {
    forall i, j :: 0 <= i < j < |l| ==> !Before(l[j], l[i], now)
  }

  /** The part of the order the planner's guarantees rest on. */
  predicate RankSorted(l: seq<Scored>) {
    forall i, j :: 0 <= i < j < |l| ==> Rank(l[i].scale) <= Rank(l[j].scale)
  }

  lemma SortedByRank(l: seq<Scored>, now: Time)
    requires IsSorted(l, now)
    ensures RankSorted(l)
  {
    forall i, j | 0 <= i < j < |l|
      ensures Rank(l[i].scale) <= Rank(l[j].scale)
    {
      assert !Before(l[j], l[i], now);
    }
  }

  /** Asking a backend to deactivate makes the next run derive Deactivating for it, whatever its drives
      and nodes look like by then. */
  lemma DeactivatedIsDerived(h: Host, now: Time)
    requires !h.mode.Client?
    requires h.state in {DEACTIVATING, REMOVING, INACTIVE}
    ensures DeriveHostState(h, now) == Deactivating
  {
  }

  lemma CountsFailedDrives(h: Host, now: Time)
    ensures NumNotHealthyDrives(h, now) == 0 <==> forall d :: d in h.drives ==> !DriveFailed(h, d, now)
  {
    if forall d :: d in h.drives ==> !DriveFailed(h, d, now) {
      assert UnhealthyDrives(h, now) == {};
    } else {
      var d :| d in h.drives && DriveFailed(h, d, now);
      assert d in UnhealthyDrives(h, now);
    }
  }

  /** A host is derived Healthy exactly when nothing is against it: it is not on its way out, every
      drive is to stay, none has failed after five minutes, and it is not down with a management node that
      has been down for two hours. Clients always are. */
  lemma HealthyHasNothingAgainstIt(h: Host, now: Time)
    ensures DeriveHostState(h, now) == Healthy <==>
            h.mode.Client? ||
            (&& h.state !in {DEACTIVATING, REMOVING, INACTIVE}
             && (forall d :: d in h.drives ==>
                   h.drives[d].shouldBeActive
                   && !(h.drives[d].status == Inactive && now - h.addedTime > 300_000_000_000))
             && !(h.status in {Down, Degraded} && DownSince(h, now - 7_200_000_000_000)))
  {
    CountsFailedDrives(h, now);
    TimedOutMeans(h, UNHEALTHY_DEACTIVATE_TIMEOUT, now);
  }

  /** Some management node is down, and was fenced, or without that the host's state changed, before
      the given time. */
  predicate DownSince(h: Host, time: Time) {
    exists n :: n in h.nodes && n.number % 20 == 0 && h.nodes[n].status == Down &&
      (if h.nodes[n].lastFencingTime.Some? then h.nodes[n].lastFencingTime.value else h.stateChangedTime) < time
  }

  lemma TimedOutMeans(h: Host, timeout: int, now: Time)
    ensures ManagementTimedOut(h, timeout, now) <==> DownSince(h, now - timeout)
  {
  }

  /** The cluster is taking the host out, or it is a drive container none of whose drives is to stay. */
  predicate IsLeaving(h: Host) {
    || h.state in {DEACTIVATING, REMOVING, INACTIVE}
    || (Contains(h.containerName, "drive") && h.drives != map[] &&
        forall d :: d in h.drives ==> !h.drives[d].shouldBeActive)
  }

  /** A host is derived Deactivating exactly when it is leaving already, whatever its health. */
  lemma DeactivatingIffLeaving(h: Host, now: Time)
    ensures DeriveHostState(h, now) == Deactivating <==> !h.mode.Client? && IsLeaving(h)
  {
    assert h.drives != map[] <==> exists d :: d in h.drives;
  }

  /** Unhealthy hosts are the rest: not leaving, and with something against them. */
  lemma UnhealthyIff(h: Host, now: Time)
    ensures DeriveHostState(h, now) == Unhealthy <==>
            && !h.mode.Client? && !IsLeaving(h)
            && (|| (exists d :: d in h.drives &&
                     (!h.drives[d].shouldBeActive
                      || (h.drives[d].status == Inactive && now - h.addedTime > 300_000_000_000)))
                || (h.status in {Down, Degraded} && DownSince(h, now - 7_200_000_000_000)))
  {
    HealthyHasNothingAgainstIt(h, now);
    DeactivatingIffLeaving(h, now);
  }

  /** What the sort guarantees of two positions: hosts on their way out come before unhealthy ones and these
      before healthy ones; within a state those with more failed drives come first, then the older ones. */
  lemma SortedMeans(l: seq<Scored>, now: Time, i: nat, j: nat)
    requires IsSorted(l, now) && i < j < |l|
    ensures l[j].scale == Deactivating ==> l[i].scale == Deactivating
    ensures l[i].scale == Healthy ==> l[j].scale == Healthy
    ensures l[i].scale == l[j].scale ==>
              var a, b := l[i].host, l[j].host;
              var failedA := set d | d in a.drives && a.drives[d].status == Inactive
                                    && now - a.addedTime > 300_000_000_000;
              var failedB := set d | d in b.drives && b.drives[d].status == Inactive
                                    && now - b.addedTime > 300_000_000_000;
              |failedA| > |failedB| || (|failedA| == |failedB| && a.addedTime <= b.addedTime)
  {
    assert !Before(l[j], l[i], now);
    FailedDrivesAre(l[i].host, now);
    FailedDrivesAre(l[j].host, now);
  }

  lemma FailedDrivesAre(h: Host, now: Time)
    ensures UnhealthyDrives(h, now) ==
            set d | d in h.drives && h.drives[d].status == Inactive && now - h.addedTime > 300_000_000_000
  {
  }
}
