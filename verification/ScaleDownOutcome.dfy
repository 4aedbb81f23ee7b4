/**
 What the runs of the scale-down driver come to, in terms of the host map they are given: how many machines
 a group run takes out, what becomes of each container, and which hosts are reported.
 */
module ScaleDownOutcome {
  import opened ScaleDownHosts
  import opened ScaleDownPlan
  import opened ScaleDownGroups
  import opened ScaleDownCommands
  import opened ScaleDownEffects
  import opened ScaleDown

  // ---- how many machines a group run takes out -----------------------------------------------------------

  /** Backends and others, but not clients, outside inactive machines. */
  predicate IsPlanned(hosts: HostsMap, id: HostId) {
    id in hosts && !hosts[id].mode.Client? && hosts[id].ip !in InactiveIps(hosts)
  }

  predicate HasPlanned(hosts: HostsMap, ip: Ip, scale: ScaleState, now: Time) {
    exists id :: id in hosts && IsPlanned(hosts, id) && hosts[id].ip == ip && DeriveHostState(hosts[id], now) == scale
  }

  function PlannedIps(hosts: HostsMap): set<Ip> {
    set id | id in hosts && IsPlanned(hosts, id) :: hosts[id].ip
  }

  /** Machines with an unhealthy container, and those without one that have a container on its way out. */
  function UnhealthyIps(hosts: HostsMap, now: Time): set<Ip> {
    set ip | ip in PlannedIps(hosts) && HasPlanned(hosts, ip, Unhealthy, now)
  }

  function DeactivatingIps(hosts: HostsMap, now: Time): set<Ip> {
    set ip | ip in PlannedIps(hosts)
             && !HasPlanned(hosts, ip, Unhealthy, now) && HasPlanned(hosts, ip, Deactivating, now)
  }

  lemma RankingHasPlanned(hosts: HostsMap, ranked: seq<Scored>, now: Time, ip: Ip, scale: ScaleState)
    requires WellKeyed(hosts) && IsRanking(hosts, ranked, now)
    ensures Has(ranked, ip, scale) <==> HasPlanned(hosts, ip, scale, now)
  {
    if Has(ranked, ip, scale) {
      var s :| s in ranked && !s.host.mode.Client? && s.host.ip == ip && s.scale == scale;
      assert IsPlanned(hosts, s.host.id);
    }
    if id :| IsPlanned(hosts, id) && hosts[id].ip == ip && DeriveHostState(hosts[id], now) == scale {
      assert Scored(hosts[id], scale) in ranked;
    }
  }

  lemma RankingHasPlannedIps(hosts: HostsMap, ranked: seq<Scored>, now: Time)
    requires WellKeyed(hosts) && IsRanking(hosts, ranked, now)
    ensures Machines(ranked) == PlannedIps(hosts)
  {
    hide InactiveIps, DeriveHostState;
    forall ip
      ensures ip in Machines(ranked) <==> ip in PlannedIps(hosts)
    {
      if ip in Machines(ranked) {
        var s :| s in ranked && !s.host.mode.Client? && s.host.ip == ip;
        assert IsPlanned(hosts, s.host.id);
      }
      if ip in PlannedIps(hosts) {
        var id :| id in hosts && IsPlanned(hosts, id) && hosts[id].ip == ip;
        assert Scored(hosts[id], DeriveHostState(hosts[id], now)) in ranked;
      }
    }
  }

  /** The classes of machines the planner counts are those of the cluster. */
  lemma RankingCountsIps(hosts: HostsMap, ranked: seq<Scored>, now: Time)
    requires KnownModes(hosts) && WellKeyed(hosts) && IsRanking(hosts, ranked, now)
    ensures UnhealthyMachines(ranked) == UnhealthyIps(hosts, now)
    ensures DeactivatingMachines(ranked) == DeactivatingIps(hosts, now)
    ensures HealthyMachines(ranked) == HealthyIps(hosts, now)
    ensures Machines(ranked) == PlannedIps(hosts)
  {
    RankingCountsHealthyIps(hosts, ranked, now);
    RankingHasPlannedIps(hosts, ranked, now);
    hide WellKeyed, KnownModes, IsRanking, Has, HasPlanned, Machines, PlannedIps;
    forall ip
      ensures Has(ranked, ip, Unhealthy) <==> HasPlanned(hosts, ip, Unhealthy, now)
      ensures Has(ranked, ip, Deactivating) <==> HasPlanned(hosts, ip, Deactivating, now)
    {
      RankingHasPlanned(hosts, ranked, now, ip, Unhealthy);
      RankingHasPlanned(hosts, ranked, now, ip, Deactivating);
    }
  }

  /** A run takes out as few machines as it may: at least those that are leaving already, those beyond the
      desired size, and unhealthy ones until two are on their way; and never more than one of these needs. */
  lemma RunTakesOutFewest(hosts: HostsMap, ranked: seq<Scored>, desired: int, now: Time)
    requires KnownModes(hosts) && WellKeyed(hosts) && IsRanking(hosts, ranked, now) && desired >= 0
    ensures 0 <= Target(ranked, desired) <= |FirstIps(ranked)|
    ensures var n := |SetOf(Chosen(ranked, desired))|;
            var healthy, unhealthy := |HealthyIps(hosts, now)|, |UnhealthyIps(hosts, now)|;
            var leaving := |DeactivatingIps(hosts, now)|;
            var excess := healthy + unhealthy + leaving - desired;
            && n >= leaving && n >= excess && (n + leaving >= 2 || n >= unhealthy)
            && (n > leaving && n > excess ==> n + leaving <= 2 && n <= unhealthy)
  {
    RunProtectsHealthyMachines(hosts, ranked, desired, now);
    RankingCountsIps(hosts, ranked, now);
    ChosenSize(hosts, ranked, desired, now);
    hide IsRanking, KnownModes, WellKeyed, HealthyMachines, UnhealthyMachines, DeactivatingMachines;
    TargetIsLeast(|HealthyMachines(ranked)|, |UnhealthyMachines(ranked)|, |DeactivatingMachines(ranked)|, desired);
  }

  lemma ChosenSize(hosts: HostsMap, ranked: seq<Scored>, desired: int, now: Time)
    requires IsRanking(hosts, ranked, now) && 0 <= Target(ranked, desired) <= |FirstIps(ranked)|
    ensures |SetOf(Chosen(ranked, desired))| == |Chosen(ranked, desired)| == Target(ranked, desired)
  {
    FirstIpsAreMachines(ranked);
    CardinalityOfSetOf(Chosen(ranked, desired));
  }

  /** When nothing is leaving yet and the cluster is not above the desired size, a run takes out two machines
      at the most, however many are unhealthy. */
  lemma AtMostTwoAtATime(hosts: HostsMap, ranked: seq<Scored>, desired: int, now: Time)
    requires KnownModes(hosts) && WellKeyed(hosts) && IsRanking(hosts, ranked, now)
    requires forall id :: IsPlanned(hosts, id) ==> !IsLeaving(hosts[id])
    requires |PlannedIps(hosts)| <= desired
    ensures 0 <= Target(ranked, desired) <= |FirstIps(ranked)|
    ensures |SetOf(Chosen(ranked, desired))| <= 2
  {
    RunTakesOutFewest(hosts, ranked, desired, now);
    NobodyLeaves(hosts, now);
    RankingCountsIps(hosts, ranked, now);
    MachinesArePartitioned(ranked);
  }

  lemma NobodyLeaves(hosts: HostsMap, now: Time)
    requires forall id :: IsPlanned(hosts, id) ==> !IsLeaving(hosts[id])
    ensures DeactivatingIps(hosts, now) == {}
  {
    forall ip
      ensures !HasPlanned(hosts, ip, Deactivating, now)
    {
      if id :| IsPlanned(hosts, id) && hosts[id].ip == ip && DeriveHostState(hosts[id], now) == Deactivating {
        DeactivatingIffLeaving(hosts[id], now);
      }
    }
  }

  /** Of two chosen machines the earlier one has a container in front of every container of the other. */
  lemma {:induction false} FirstIpsInOrder(l: seq<Scored>, i: nat, j: nat) returns (p: nat)
    requires i < j < |FirstIps(l)|
    ensures p < |l| && l[p].host.ip == FirstIps(l)[i]
    ensures forall q :: 0 <= q < |l| && l[q].host.ip == FirstIps(l)[j] ==> p < q
  {
    var front := l[..|l| - 1];
    if j < |FirstIps(front)| {
      p := FirstIpsInOrder(front, i, j);
    } else {
      p := FirstIpHas(front, i);
      NotYetCollected(front, FirstIps(l)[j]);
    }
  }

  lemma {:induction false} FirstIpHas(l: seq<Scored>, i: nat) returns (p: nat)
    requires i < |FirstIps(l)|
    ensures p < |l| && l[p].host.ip == FirstIps(l)[i]
  {
    var front := l[..|l| - 1];
    if i < |FirstIps(front)| {
      p := FirstIpHas(front, i);
    } else {
      p := |l| - 1;
    }
  }

  lemma {:induction false} NotYetCollected(l: seq<Scored>, ip: Ip)
    requires ip !in FirstIps(l)
    ensures forall q :: 0 <= q < |l| ==> l[q].host.ip != ip
  {
    if l != [] {
      NotYetCollected(l[..|l| - 1], ip);
    }
  }

  // ---- machines that stop a run ----------------------------------------------------------------------------

  /** Two backends at an address that do not agree on the machine's identity. */
  predicate Clash(hosts: HostsMap, ip: Ip, a: HostId, b: HostId) {
    && a in hosts && hosts[a].mode.Backend? && hosts[a].ip == ip
    && b in hosts && hosts[b].mode.Backend? && hosts[b].ip == ip
    && hosts[a].machineIdentifier != hosts[b].machineIdentifier
  }

  lemma ClashDisagrees(hosts: HostsMap, machines: MachineMap, ip: Ip, a: HostId, b: HostId)
    requires Groups(hosts, hosts.Keys, machines) && Clash(hosts, ip, a, b)
    ensures ip in machines && Disagree(machines[ip])
  {
    assert ip in machines;
    var i :| 0 <= i < |machines[ip]| && machines[ip][i] == hosts[a];
    var j :| 0 <= j < |machines[ip]| && machines[ip][j] == hosts[b];
    assert i < j || j < i;
  }

  lemma DisagreeingClash(hosts: HostsMap, machines: MachineMap, ip: Ip) returns (a: HostId, b: HostId)
    requires Groups(hosts, hosts.Keys, machines) && ip in machines && Disagree(machines[ip])
    ensures Clash(hosts, ip, a, b)
  {
    var l := machines[ip];
    var i, j :| 0 <= i < j < |l| && l[i].machineIdentifier != l[j].machineIdentifier;
    assert l[i] in l && l[j] in l;
    a, b := l[i].id, l[j].id;
  }

  /** More than three backends at an address, or two that disagree. */
  ghost predicate IsBadAddress(hosts: HostsMap, ip: Ip) {
    |Containers(hosts, hosts.Keys, ip)| > 3 || exists a, b :: Clash(hosts, ip, a, b)
  }

  lemma BadAddressIff(hosts: HostsMap, machines: MachineMap, ip: Ip)
    requires WellKeyed(hosts) && Groups(hosts, hosts.Keys, machines)
    ensures IsBadAddress(hosts, ip) <==> ip in machines && BadMachine(machines[ip])
  {
    hide WellKeyed, Groups, Clash, Disagree, Containers;
    GroupIsExact(hosts, machines, ip);
    if ip in machines && Disagree(machines[ip]) {
      var a, b := DisagreeingClash(hosts, machines, ip);
    }
    if a, b :| Clash(hosts, ip, a, b) {
      ClashDisagrees(hosts, machines, ip, a, b);
    }
  }

  /** A run is fatal exactly for such an address. */
  lemma BadMachineIff(hosts: HostsMap, machines: MachineMap)
    requires WellKeyed(hosts) && Groups(hosts, hosts.Keys, machines)
    ensures HasBadMachine(machines) <==> exists ip :: IsBadAddress(hosts, ip)
  {
    hide WellKeyed, Groups, IsBadAddress, BadMachine;
    forall ip
      ensures IsBadAddress(hosts, ip) <==> ip in machines && BadMachine(machines[ip])
    {
      BadAddressIff(hosts, machines, ip);
    }
  }

  /** A machine counts as inactive when it has backends, and all of them are. */
  lemma InactiveIff(hosts: HostsMap, ip: Ip)
    ensures ip in InactiveIps(hosts) <==>
            && (exists id :: id in hosts && hosts[id].mode.Backend? && hosts[id].ip == ip)
            && (forall id :: id in hosts && hosts[id].mode.Backend? && hosts[id].ip == ip ==>
                  hosts[id].state == INACTIVE)
  {
  }

  // ---- leftover hosts ----------------------------------------------------------------------------------------

  /** Not inactive, and down with a management node that has been down for longer than the timeout. */
  predicate IsDownFor(h: Host, timeout: int, now: Time) {
    h.state != INACTIVE && h.status == Down && DownSince(h, now - timeout)
  }

  /** A backend on the machine is down for too long, and no backend on it is up. */
  predicate IsDownMachine(hosts: HostsMap, ip: Ip, timeout: int, now: Time) {
    && (exists id :: id in hosts && hosts[id].mode.Backend? && hosts[id].ip == ip && IsDownFor(hosts[id], timeout, now))
    && (forall id :: id in hosts && hosts[id].mode.Backend? && hosts[id].ip == ip ==>
          hosts[id].state == INACTIVE || hosts[id].status == Down)
  }

  /** What the leftover run finds, host by host: the machines it kicks out, the hosts it notes as errors, and
      the hosts it reports. */
  lemma LeftOverMeans(hosts: HostsMap, machines: MachineMap, s: LeftOver, timeout: int, now: Time)
    requires KnownModes(hosts)
    requires LeftOverSound(hosts, machines, hosts.Keys, s, timeout, now) && LeftOverResult(hosts, s, timeout, now)
    ensures forall ip :: ip in s.down <==> IsDownMachine(hosts, ip, timeout, now)
    ensures s.partlyDown == |set id | id in hosts && hosts[id].mode.Backend? && IsDownFor(hosts[id], timeout, now)
                                      && !IsDownMachine(hosts, hosts[id].ip, timeout, now)|
    ensures forall h :: h in s.rest ==>
              h.id in hosts && hosts[h.id] == h && h.mode.Backend? && h.state != INACTIVE
              && !IsDownFor(h, timeout, now)
    ensures forall id :: id in hosts && hosts[id].mode.Backend? && hosts[id].state != INACTIVE
                         && !IsDownFor(hosts[id], timeout, now) && !IsDownMachine(hosts, hosts[id].ip, timeout, now) ==>
              hosts[id] in s.rest
  {
    forall h
      ensures TimedOutDown(h, timeout, now) <==> IsDownFor(h, timeout, now)
    {
      TimedOutMeans(h, timeout, now);
    }
    forall ip
      ensures ip in DownIps(hosts, timeout, now) <==> IsDownMachine(hosts, ip, timeout, now)
    {
      DownIpsIs(hosts, ip, timeout, now);
    }
    hide IsDownFor, IsDownMachine, TimedOutDown, DownIps, CarriesContainers;
    forall ip
      ensures ip in s.down <==> IsDownMachine(hosts, ip, timeout, now)
    {
      assert ip in s.down <==> ip in SetOf(s.down);
    }
    assert PartlyDown(hosts, hosts.Keys, timeout, now) ==
           set id | id in hosts && hosts[id].mode.Backend? && IsDownFor(hosts[id], timeout, now)
                    && !IsDownMachine(hosts, hosts[id].ip, timeout, now);
  }

  lemma DownIpsIs(hosts: HostsMap, ip: Ip, timeout: int, now: Time)
    ensures ip in DownIps(hosts, timeout, now) <==> IsDownMachine(hosts, ip, timeout, now)
  {
    forall h
      ensures TimedOutDown(h, timeout, now) <==> IsDownFor(h, timeout, now)
    {
      TimedOutMeans(h, timeout, now);
    }
    hide IsDownFor, TimedOutDown;
    assert DownMachine(hosts, ip, timeout, now) <==> IsDownMachine(hosts, ip, timeout, now) by {
      if DownMachine(hosts, ip, timeout, now) {
        var id :| id in hosts && KickedOut(hosts[id], ip, timeout, now);
      }
      if IsDownMachine(hosts, ip, timeout, now) {
        var id :| id in hosts && hosts[id].mode.Backend? && hosts[id].ip == ip && IsDownFor(hosts[id], timeout, now);
        assert KickedOut(hosts[id], ip, timeout, now);
      }
    }
    if DownMachine(hosts, ip, timeout, now) {
      var id :| id in hosts && KickedOut(hosts[id], ip, timeout, now);
      assert hosts[id].ip == ip;
    }
  }

  // ---- what becomes of each container -----------------------------------------------------------------------

  /** Each container of a removed machine whose status allows it is asked to go; if that succeeds its drives
      are removed and, where an instance has its address, one is set to terminate. */
  lemma InactiveContainerIsRemoved(hosts: HostsMap, machines: MachineMap, removed: seq<Ip>, chosen: seq<Ip>,
                                   stay: seq<Host>, instances: seq<Instance>, nfs: NfsMap, rpc: Rpc, before: Effects,
                                   after: Effects, id: HostId)
    returns (i: nat)
    requires Groups(hosts, hosts.Keys, machines)
    requires RunEffects(machines, removed, chosen, stay, instances, nfs, rpc, before, after)
    requires id in hosts && hosts[id].mode.Backend? && hosts[id].ip in removed && hosts[id].status == Inactive
    ensures i >= |before.commands|
    ensures RemovedAt(hosts[id], i, 0, after.commands, instances, after.toTerminate, rpc)
  {
    hide RunCommands, Drops, RunDrops, RemovalCost, MachinesTerminations, MachinesRemoval, Deactivation, Reported;
    hide RemovedAt;
    var k := |before.commands|;
    var sent := after.commands[k..];
    var containers := ContainersOf(machines, hosts[id].ip);
    var x :| 0 <= x < |containers| && containers[x] == hosts[id];
    hide Groups, ContainersOf;
    var n := RunSplits(machines, removed, chosen, nfs, k, sent, rpc);
    var terminated := MachinesTerminations(machines, removed, instances, k, rpc);
    i := MachineIsRemoved(machines, removed, hosts[id].ip, x, instances, k, sent[..n], rpc);
    RemovedAmong(hosts[id], i, 0, sent[..n], instances, terminated, rpc, before.commands, sent[n..],
                 before.toTerminate, []);
    i := k + i;
    assert before.commands + sent[..n] + sent[n..] == after.commands;
    assert before.toTerminate + terminated + [] == after.toTerminate;
  }

  /** Each chosen machine is asked to deactivate after its active drives and its ports, with exactly its
      containers, and if that succeeds its address leaves the pool. */
  lemma ChosenMachineIsDeactivated(hosts: HostsMap, machines: MachineMap, removed: seq<Ip>, chosen: seq<Ip>,
                                   stay: seq<Host>, instances: seq<Instance>, nfs: NfsMap, rpc: Rpc, before: Effects,
                                   after: Effects, ip: Ip)
    returns (i: nat)
    requires RunEffects(machines, removed, chosen, stay, instances, nfs, rpc, before, after)
    requires ip in chosen
    ensures i >= |before.commands|
    ensures DeactivatedAt(ContainersOf(machines, ip), i, 0, after.commands, nfs, after.dropped, rpc)
  {
    hide RunCommands, Drops, RemovalCost, MachinesTerminations, MachinesRemoval, Deactivation, Reported;
    hide DeactivatedAt, ContainersOf;
    var k := |before.commands|;
    var sent := after.commands[k..];
    var n := RunSplits(machines, removed, chosen, nfs, k, sent, rpc);
    MachinesRemovalSize(machines, removed, k, sent[..n], rpc);
    var drops := Drops(machines, chosen, nfs, k + n, rpc);
    i := ListedIsDeactivated(machines, chosen, ip, k + n, sent[n..], nfs, rpc);
    DeactivatedAmong(ContainersOf(machines, ip), i, 0, sent[n..], nfs, drops, rpc, before.commands + sent[..n], [],
                     before.dropped + removed, []);
    i := k + n + i;
    assert before.commands + sent[..n] + sent[n..] + [] == after.commands;
    assert before.dropped + removed + drops + [] == after.dropped;
  }

  predicate IsRemoval(c: Command) {
    c.RemoveHost? || c.RemoveDrive?
  }

  /** A run sends all its removals before it deactivates anything. */
  lemma RemovalsComeFirst(machines: MachineMap, removed: seq<Ip>, chosen: seq<Ip>, stay: seq<Host>,
                          instances: seq<Instance>, nfs: NfsMap, rpc: Rpc, before: Effects, after: Effects)
    requires RunEffects(machines, removed, chosen, stay, instances, nfs, rpc, before, after)
    ensures forall i, j :: |before.commands| <= i < j < |after.commands| && IsRemoval(after.commands[j]) ==>
              IsRemoval(after.commands[i])
  {
    var k := |before.commands|;
    var sent := after.commands[k..];
    assert forall i :: k <= i < |after.commands| ==> after.commands[i] == sent[i - k];
    hide *;
    RunRemovesFirst(machines, removed, chosen, nfs, k, sent, rpc);
  }

  lemma RunRemovesFirst(machines: MachineMap, removed: seq<Ip>, chosen: seq<Ip>, nfs: NfsMap, k: nat,
                        sent: seq<Command>, rpc: Rpc)
    requires RunCommands(machines, removed, chosen, nfs, k, sent, rpc)
    ensures forall i, j :: 0 <= i < j < |sent| && IsRemoval(sent[j]) ==> IsRemoval(sent[i])
  {
    hide *;
    var n := RunSplits(machines, removed, chosen, nfs, k, sent, rpc);
    MachinesRemovalTouches(machines, removed, k, sent[..n], rpc);
    DeactivationTouches(machines, chosen, nfs, sent[n..]);
    forall i | 0 <= i < n
      ensures IsRemoval(sent[i])
    {
      assert sent[..n][i] == sent[i];
      RemovalIsRemoval(machines, removed, sent[i]);
    }
    forall j | n <= j < |sent|
      ensures !IsRemoval(sent[j])
    {
      assert sent[n..][j - n] == sent[j];
      NoRemovalDeactivates(machines, chosen, nfs, sent[j]);
    }
  }

  lemma NoRemovalDeactivates(machines: MachineMap, ips: seq<Ip>, nfs: NfsMap, c: Command)
    requires DeactivatesOn(machines, ips, nfs, c)
    ensures !IsRemoval(c)
  {
  }

  lemma RemovalIsRemoval(machines: MachineMap, ips: seq<Ip>, c: Command)
    requires RemovesOn(machines, ips, c)
    ensures IsRemoval(c)
  {
  }

  // ---- errors ----------------------------------------------------------------------------------------------

  /** The positions of the commands that failed. */
  function Failed(commands: seq<Command>, rpc: Rpc): set<nat> {
    set i: nat | i < |commands| && !rpc(i, commands[i])
  }

  lemma FailedNext(commands: seq<Command>, rpc: Rpc)
    requires commands != []
    ensures var last := |commands| - 1;
            |Failed(commands, rpc)| == |Failed(commands[..last], rpc)| + if rpc(last, commands[last]) then 0 else 1
  {
    var last := |commands| - 1;
    if rpc(last, commands[last]) {
      assert Failed(commands, rpc) == Failed(commands[..last], rpc);
    } else {
      assert Failed(commands, rpc) == Failed(commands[..last], rpc) + {last};
    }
  }

  /** The errors noted for commands are as many as the commands that failed. */
  lemma {:induction false} FailuresAreCounted(commands: seq<Command>, rpc: Rpc)
    ensures Failures(commands, rpc) == |Failed(commands, rpc)|
  {
    if commands == [] {
      assert Failed(commands, rpc) == {};
    } else {
      var last := |commands| - 1;
      FailuresAreCounted(commands[..last], rpc);
      FailedNext(commands, rpc);
    }
  }

  // ---- hosts that are reported --------------------------------------------------------------------------------

  function PlannedIds(hosts: HostsMap): set<HostId> {
    set id | id in hosts && IsPlanned(hosts, id)
  }

  predicate Reports(r: ResponseHost, h: Host) {
    && r.instanceId == h.instanceId && r.privateIp == h.ip && r.state == h.state
    && r.addedTime == h.addedTime && r.id == h.id
  }

  lemma {:induction false} IdsOfDistinct(l: seq<Scored>)
    requires forall i, j :: 0 <= i < j < |l| ==> l[i].host.id != l[j].host.id
    ensures |set s | s in l :: s.host.id| == |l|
  {
    if l != [] {
      var front, last := l[..|l| - 1], l[|l| - 1];
      IdsOfDistinct(front);
      assert (set s | s in l :: s.host.id) == (set s | s in front :: s.host.id) + {last.host.id};
    } else {
      assert (set s | s in l :: s.host.id) == {};
    }
  }

  lemma OccursTwice<T>(l: seq<T>, i: nat, j: nat)
    requires i < j < |l| && l[i] == l[j]
    ensures multiset(l)[l[i]] >= 2
  {
    assert l == l[..j] + [l[j]] + l[j + 1..];
    assert l[..j][i] in multiset(l[..j]);
  }

  lemma RankedOnce(hosts: HostsMap, ranked: seq<Scored>, now: Time, i: nat, j: nat)
    requires IsRanking(hosts, ranked, now) && i < j < |ranked|
    ensures ranked[i].host.id != ranked[j].host.id
  {
    assert ranked[i] in ranked && ranked[j] in ranked;
    if ranked[i] == ranked[j] {
      OccursTwice(ranked, i, j);
    }
  }

  /** A finished group run reports exactly the hosts it planned with, each once and as the cluster has it. */
  lemma GroupReportsPlanned(hosts: HostsMap, ranked: seq<Scored>, now: Time)
    requires WellKeyed(hosts) && IsRanking(hosts, ranked, now)
    ensures var reported := Reported(HostList(ranked));
            && |reported| == |PlannedIds(hosts)|
            && (forall r :: r in reported ==> r.id in PlannedIds(hosts) && Reports(r, hosts[r.id]))
            && (forall id :: id in PlannedIds(hosts) ==> exists r :: r in reported && r.id == id)
  {
    var reported := Reported(HostList(ranked));
    forall i, j | 0 <= i < j < |ranked|
      ensures ranked[i].host.id != ranked[j].host.id
    {
      RankedOnce(hosts, ranked, now, i, j);
    }
    IdsOfDistinct(ranked);
    hide InactiveIps, DeriveHostState, IsSorted;
    forall id
      ensures id in PlannedIds(hosts) <==> id in (set s | s in ranked :: s.host.id)
    {
      if id in PlannedIds(hosts) {
        assert Scored(hosts[id], DeriveHostState(hosts[id], now)) in ranked;
      }
    }
    assert PlannedIds(hosts) == set s | s in ranked :: s.host.id;
    forall r | r in reported
      ensures r.id in PlannedIds(hosts) && Reports(r, hosts[r.id])
    {
      var i :| 0 <= i < |reported| && reported[i] == r;
      assert ranked[i] in ranked;
    }
    forall id | id in PlannedIds(hosts)
      ensures exists r :: r in reported && r.id == id
    {
      var s :| s in ranked && s.host.id == id;
      var i :| 0 <= i < |ranked| && ranked[i] == s;
      assert reported[i] in reported && reported[i].id == id;
    }
  }

  /** Leftover hosts are reported the same way, in the order in which they were found. */
  lemma ListIsReported(stay: seq<Host>)
    ensures |Reported(stay)| == |stay|
    ensures forall i :: 0 <= i < |stay| ==> Reports(Reported(stay)[i], stay[i])
  {
  }
}
