/**
 The scale-down run over one host group and over the leftover hosts, and the final check of what is to
 be terminated.
 */
module ScaleDown {
  import opened GoMath
  import opened Wrappers
  import opened ScaleDownHosts
  import opened ScaleDownPlan
  import opened ScaleDownGroups
  import opened ScaleDownCommands

  datatype ResponseHost = ResponseHost(instanceId: string, privateIp: Ip, state: HostState, addedTime: Time, id: HostId)

  /** What is reported of the hosts that stay. */
  function Reported(hosts: seq<Host>): seq<ResponseHost> {
    seq(|hosts|, i requires 0 <= i < |hosts| =>
      ResponseHost(hosts[i].instanceId, hosts[i].ip, hosts[i].state, hosts[i].addedTime, hosts[i].id))
  }

  /** How a run can end: normally, by a fatal log line that stops the process, or by a panic. */
  datatype Outcome = Finished | Fatal | Panic

  /** What a run has left behind: the hosts it reports, the instances to terminate, the commands it sent,
      and the addresses it dropped from the endpoint pool. */
  datatype Effects = Effects(hosts: seq<ResponseHost>, toTerminate: seq<Instance>, commands: seq<Command>,
                             dropped: seq<Ip>)

  class ScaleResponse {
    var hosts: seq<ResponseHost>
    var toTerminate: seq<Instance>
    var transientErrors: nat
    var commands: seq<Command>
    var dropped: seq<Ip>

    constructor ()
      ensures Recorded() == Effects([], [], [], []) && transientErrors == 0
    {
      hosts, toTerminate, transientErrors, commands, dropped := [], [], 0, [], [];
    }

    function Recorded(): Effects
      reads this
    {
      Effects(hosts, toTerminate, commands, dropped)
    }

    /** Every failed command has been noted, and `extra` other errors. */
    predicate Noted(rpc: Rpc, extra: int)
      reads this`transientErrors, this`commands
    {
      transientErrors == Failures(commands, rpc) + extra
    }

    /** Sends one command; a failure is noted and the run goes on. */
    method Issue(c: Command, rpc: Rpc, ghost extra: int) returns (ok: bool)
      requires Noted(rpc, extra)
      modifies this`commands, this`transientErrors
      ensures Noted(rpc, extra)
      ensures commands == old(commands) + [c]
      ensures ok == rpc(|old(commands)|, c)
    {
      FailuresNext(commands, c, rpc);
      ok := rpc(|commands|, c);
      commands := commands + [c];
      if !ok {
        transientErrors := transientErrors + 1;
      }
    }

    /** One command for each drive of a host that needs one, in any order. */
    method IssueForDrives(host: Host, remove: bool, rpc: Rpc, ghost extra: int) returns (ghost cmds: seq<Command>)
      requires Noted(rpc, extra)
      modifies this`commands, this`transientErrors
      ensures Noted(rpc, extra)
      ensures commands == old(commands) + cmds && ForDrives(DrivesOf(host, remove), remove, cmds)
    {
      hide Noted, ForDrives, DriveCommand;
      cmds := [];
      NothingSent(map[], [], map[], remove, 0, rpc);
      ghost var done: set<DriveId> := {};
      var todo := host.drives.Keys;
      while todo != {}
        invariant todo <= host.drives.Keys && Noted(rpc, extra)
        invariant commands == old(commands) + cmds && ForDrives(done, remove, cmds)
        invariant done == DrivesOf(host, remove) - todo
        decreases todo
      {
        var d :| d in todo;
        todo := todo - {d};
        if remove || host.drives[d].shouldBeActive {
          var c := DriveCommand(d, remove);
          var _ := Issue(c, rpc, extra);
          ForOneMoreDrive(done, d, remove, cmds);
          Assoc(old(commands), cmds, [c]);
          done, cmds := done + {d}, cmds + [c];
        }
      }
      assert done == DrivesOf(host, remove);
    }

    /** The active drives of the containers of a machine. */
    method DeactivateDrives(containers: seq<Host>, rpc: Rpc, ghost extra: int)
      returns (ids: seq<HostId>, ghost cmds: seq<Command>)
      requires Noted(rpc, extra)
      modifies this`commands, this`transientErrors
      ensures Noted(rpc, extra) && ids == Ids(containers)
      ensures commands == old(commands) + cmds && DriveDeactivation(containers, cmds)
    {
      hide Noted, DriveDeactivation, ForDrives, DrivesOf;
      ids, cmds := [], [];
      NothingSent(map[], [], map[], false, 0, rpc);
      for i := 0 to |containers|
        invariant Noted(rpc, extra) && ids == Ids(containers[..i])
        invariant commands == old(commands) + cmds && DriveDeactivation(containers[..i], cmds)
      {
        ids := ids + [containers[i].id];
        ghost var more := IssueForDrives(containers[i], false, rpc, extra);
        DriveDeactivationNext(containers[..i], containers[i], cmds, more);
        Grown(containers, i);
        Assoc(old(commands), cmds, more);
        cmds := cmds + more;
      }
      assert containers[..|containers|] == containers;
    }

    /** The interface-group ports of the machine's NFS hosts. */
    method DeletePorts(containers: seq<Host>, nfs: NfsMap, rpc: Rpc, ghost extra: int)
      requires Noted(rpc, extra)
      modifies this`commands, this`transientErrors
      ensures Noted(rpc, extra)
      ensures commands == old(commands) + Ports(containers, nfs)
    {
      for i := 0 to |containers|
        invariant Noted(rpc, extra)
        invariant commands == old(commands) + Ports(containers[..i], nfs)
      {
        assert containers[..i + 1][..i] == containers[..i];
        if containers[i].id in nfs {
          var _ := Issue(DeletePort(nfs[containers[i].id]), rpc, extra);
        }
      }
      assert containers[..|containers|] == containers;
    }

    /** Deactivates one machine: its drives, its ports, and all its containers in one command. If that one
        succeeds the machine's address leaves the pool. An empty list of containers panics. */
    method DeactivateMachine(containers: seq<Host>, nfs: NfsMap, rpc: Rpc, ghost extra: int)
      returns (panic: bool, ghost cmds: seq<Command>)
      requires Noted(rpc, extra)
      modifies this`commands, this`transientErrors, this`dropped
      ensures Noted(rpc, extra)
      ensures panic <==> containers == []
      ensures commands == old(commands) + cmds
      ensures !panic ==> MachineDeactivation(containers, nfs, cmds)
      ensures dropped == old(dropped) + MachineDrop(containers, nfs, |old(commands)|, rpc)
    {
      hide Noted, DriveDeactivation, MachineDeactivation, Ports, MachineCost, Ids;
      var ids;
      ids, cmds := DeactivateDrives(containers, rpc, extra);
      if |containers| == 0 {
        return true, cmds;
      }
      DrivesSize(containers, nfs, cmds);
      MachineInParts(containers, nfs, cmds);
      ghost var ports := Ports(containers, nfs);
      if |nfs| > 0 {
        DeletePorts(containers, nfs, rpc, extra);
      } else {
        NoPorts(containers, nfs);
      }
      Assoc(old(commands), cmds, ports);
      var ok := Issue(DeactivateHosts(ids), rpc, extra);
      if ok {
        dropped := dropped + [containers[0].ip];
      }
      Assoc(old(commands), cmds + ports, [DeactivateHosts(ids)]);
      cmds := cmds + ports + [DeactivateHosts(ids)];
      panic := false;
    }

    /** The first instance behind an IP, if there is one. */
    static method SelectInstanceByIp(ip: Ip, instances: seq<Instance>) returns (found: Option<Instance>)
      ensures found == InstanceAt(ip, instances)
      ensures if found.Some? then found.value in instances && found.value.privateIp == ip
              else forall i :: i in instances ==> i.privateIp != ip
    {
      InstanceAtIsInstance(ip, instances);
      for i := 0 to |instances|
        invariant InstanceAt(ip, instances) == InstanceAt(ip, instances[i..])
      {
        if instances[i].privateIp == ip {
          return Some(instances[i]);
        }
        assert instances[i..][1..] == instances[i + 1..];
      }
      found := None;
    }

    /** Removes one container of an inactive machine, if its status allows it; if that succeeds, its
        instance is to be terminated and its drives are removed. */
    method RemoveContainer(host: Host, instances: seq<Instance>, rpc: Rpc, ghost extra: int)
      returns (ghost cmds: seq<Command>)
      requires Noted(rpc, extra)
      modifies this`commands, this`transientErrors, this`toTerminate
      ensures Noted(rpc, extra)
      ensures commands == old(commands) + cmds && HostRemoval(host, |old(commands)|, cmds, rpc)
      ensures toTerminate == old(toTerminate) + HostTermination(host, instances, |old(commands)|, rpc)
    {
      hide Noted, IsDriveCommand, DriveCommand, DrivesOf, InstanceAt;
      cmds := [];
      if host.status != Inactive {
        return;
      }
      var ok := Issue(RemoveHost(host.id), rpc, extra);
      cmds := [RemoveHost(host.id)];
      if ok {
        var instance := SelectInstanceByIp(host.ip, instances);
        if instance.Some? {
          toTerminate := toTerminate + [instance.value];
        }
        ghost var drives := IssueForDrives(host, true, rpc, extra);
        cmds := cmds + drives;
        assert cmds[1..] == drives;
      }
    }

    /** Removes the containers of one inactive machine, up to the first that is not inactive, which is
        fatal. */
    method RemoveContainers(containers: seq<Host>, instances: seq<Instance>, rpc: Rpc, ghost extra: int)
      returns (fatal: bool, ghost cmds: seq<Command>)
      requires Noted(rpc, extra)
      modifies this`commands, this`transientErrors, this`toTerminate
      ensures Noted(rpc, extra)
      ensures fatal <==> !AllInactive(containers)
      ensures commands == old(commands) + cmds
      ensures Removal(InactivePrefix(containers), |old(commands)|, cmds, rpc)
      ensures toTerminate ==
              old(toTerminate) + Terminations(InactivePrefix(containers), instances, |old(commands)|, rpc)
    {
      hide Noted, Removal, Terminations, Cost, HostRemoval, HostTermination, InactivePrefix;
      cmds := [];
      ghost var k := |commands|;
      NothingSent(map[], instances, map[], true, k, rpc);
      for i := 0 to |containers|
        invariant Noted(rpc, extra) && AllInactive(containers[..i])
        invariant commands == old(commands) + cmds && Removal(containers[..i], k, cmds, rpc)
        invariant toTerminate == old(toTerminate) + Terminations(containers[..i], instances, k, rpc)
      {
        var host := containers[i];
        if host.state != INACTIVE {
          assert host in containers;
          InactivePrefixIs(containers, i);
          return true, cmds;
        }
        ghost var more := RemoveContainer(host, instances, rpc, extra);
        RemovalNext(containers[..i], host, k, cmds, more, rpc);
        RemovalSize(containers[..i], k, cmds, rpc);
        TerminationsNext(containers[..i], host, instances, k, rpc);
        Grown(containers, i);
        Assoc(old(commands), cmds, more);
        Assoc(old(toTerminate), Terminations(containers[..i], instances, k, rpc),
              HostTermination(host, instances, k + |cmds|, rpc));
        cmds := cmds + more;
      }
      assert containers[..|containers|] == containers;
      InactivePrefixIs(containers, |containers|);
      fatal := false;
    }

    /** Removes the containers of the inactive machines, in some order of the machines, and drops each
        address from the pool before its containers. It ends early, and fatally, in the first machine with
        a container that is not inactive, after the containers in front of that one. */
    method RemoveInactive(inactive: MachineMap, instances: seq<Instance>, rpc: Rpc, ghost extra: int)
      returns (fatal: bool, ghost order: seq<Ip>, ghost cmds: seq<Command>)
      requires Noted(rpc, extra)
      modifies this`commands, this`transientErrors, this`toTerminate, this`dropped
      ensures Noted(rpc, extra)
      ensures fatal <==> exists ip :: ip in inactive && !AllInactive(inactive[ip])
      ensures NoDuplicates(order) && SetOf(order) <= inactive.Keys
      ensures if fatal then EndsInBadMachine(inactive, order)
              else SetOf(order) == inactive.Keys && InactiveParts(inactive) == inactive
      ensures commands == old(commands) + cmds
      ensures MachinesRemoval(InactiveParts(inactive), order, |old(commands)|, cmds, rpc)
      ensures toTerminate == old(toTerminate)
                             + MachinesTerminations(InactiveParts(inactive), order, instances, |old(commands)|, rpc)
      ensures dropped == old(dropped) + order
    {
      hide Noted, MachinesRemoval, MachinesTerminations, RemovalCost, Removal, Terminations, Cost, InactivePrefix;
      fatal, order, cmds := false, [], [];
      ghost var k := |commands|;
      ghost var parts := InactiveParts(inactive);
      NothingSent(parts, instances, map[], true, k, rpc);
      var todo := inactive.Keys;
      while todo != {} && !fatal
        invariant todo <= inactive.Keys && Noted(rpc, extra)
        invariant NoDuplicates(order) && SetOf(order) == inactive.Keys - todo
        invariant if fatal then EndsInBadMachine(inactive, order) else AreInactive(inactive, order)
        invariant commands == old(commands) + cmds && MachinesRemoval(parts, order, k, cmds, rpc)
        invariant toTerminate == old(toTerminate) + MachinesTerminations(parts, order, instances, k, rpc)
        invariant dropped == old(dropped) + order
        decreases todo
      {
        var ip :| ip in todo;
        dropped := dropped + [ip];
        ghost var more;
        fatal, more := RemoveContainers(inactive[ip], instances, rpc, extra);
        MachinesRemovalNext(parts, order, ip, k, cmds, more, rpc);
        MachinesRemovalSize(parts, order, k, cmds, rpc);
        MachinesTerminationsNext(parts, order, ip, instances, k, rpc);
        AppendedIp(order, ip);
        Assoc(old(commands), cmds, more);
        Assoc(old(toTerminate), MachinesTerminations(parts, order, instances, k, rpc),
              Terminations(parts[ip], instances, k + |cmds|, rpc));
        order, cmds := order + [ip], cmds + more;
        todo := todo - {ip};
      }
      if !fatal {
        InactivePartsAreAll(inactive, order);
      }
    }

    /** Appends the hosts that stay. */
    method ReportHosts(rest: seq<Host>)
      modifies this`hosts
      ensures hosts == old(hosts) + Reported(rest)
    {
      for i := 0 to |rest|
        invariant hosts == old(hosts) + Reported(rest[..i])
      {
        var h := rest[i];
        hosts := hosts + [ResponseHost(h.instanceId, h.ip, h.state, h.addedTime, h.id)];
        assert Reported(rest[..i + 1]) == Reported(rest[..i]) + Reported([h]);
      }
      assert rest[..|rest|] == rest;
    }

    /** Deactivates the machines of a list, one after the other; those where that succeeds leave the pool. */
    method DeactivateAll(machines: MachineMap, ips: seq<Ip>, nfs: NfsMap, rpc: Rpc, ghost extra: int)
      returns (panic: bool, ghost cmds: seq<Command>)
      requires Noted(rpc, extra)
      modifies this`commands, this`transientErrors, this`dropped
      ensures Noted(rpc, extra)
      ensures panic <==> exists i :: 0 <= i < |ips| && ContainersOf(machines, ips[i]) == []
      ensures commands == old(commands) + cmds
      ensures !panic ==> Deactivation(machines, ips, nfs, cmds)
      ensures !panic ==> dropped == old(dropped) + Drops(machines, ips, nfs, |old(commands)|, rpc)
    {
      hide Noted, Deactivation, MachineDeactivation, ContainersOf, MachineDrop, Drops, MachinesCost;
      ghost var k := |commands|;
      cmds := [];
      NothingSent(machines, [], nfs, false, k, rpc);
      for i := 0 to |ips|
        invariant Noted(rpc, extra)
        invariant forall j :: 0 <= j < i ==> ContainersOf(machines, ips[j]) != []
        invariant commands == old(commands) + cmds && Deactivation(machines, ips[..i], nfs, cmds)
        invariant dropped == old(dropped) + Drops(machines, ips[..i], nfs, k, rpc)
      {
        ghost var more;
        panic, more := DeactivateMachine(ContainersOf(machines, ips[i]), nfs, rpc, extra);
        if panic {
          return panic, cmds + more;
        }
        DeactivationSize(machines, ips[..i], nfs, cmds);
        DropsNext(machines, ips[..i], ips[i], nfs, k, rpc);
        Assoc(old(dropped), Drops(machines, ips[..i], nfs, k, rpc),
              MachineDrop(ContainersOf(machines, ips[i]), nfs, k + |cmds|, rpc));
        DeactivationNext(machines, ips[..i], ips[i], nfs, cmds, more);
        Grown(ips, i);
        Assoc(old(commands), cmds, more);
        cmds := cmds + more;
      }
      assert ips[..|ips|] == ips;
      panic := false;
    }
  }

  lemma NoPorts(containers: seq<Host>, nfs: NfsMap)
    requires |nfs| == 0
    ensures Ports(containers, nfs) == []
  {
    if containers != [] {
      NoPorts(containers[..|containers| - 1], nfs);
    }
  }

  lemma DrivesSize(containers: seq<Host>, nfs: NfsMap, drives: seq<Command>)
    requires DriveDeactivation(containers, drives)
    ensures |drives| + |Ports(containers, nfs)| + 1 == MachineCost(containers, nfs)
  {
  }

  lemma MachineInParts(containers: seq<Host>, nfs: NfsMap, drives: seq<Command>)
    requires DriveDeactivation(containers, drives)
    ensures MachineDeactivation(containers, nfs, drives + Ports(containers, nfs) + [DeactivateHosts(Ids(containers))])
  {
    DrivesSize(containers, nfs, drives);
    assert |drives| == NumDrives(containers);
    hide DriveDeactivation, Ports, NumDrives, Ids, MachineCost;
    ThreeParts(drives, Ports(containers, nfs), DeactivateHosts(Ids(containers)));
  }

  lemma ThreeParts<T>(a: seq<T>, b: seq<T>, t: T)
    ensures var s, n := a + b + [t], |a| + |b|;
            |s| == n + 1 && s[..|a|] == a && s[|a|..n] == b && s[n] == t
  {
  }

  predicate AreInactive(machines: MachineMap, ips: seq<Ip>) {
    forall ip :: ip in ips ==> ip in machines && AllInactive(machines[ip])
  }

  /** The last machine of the list is the only one with a container that is not inactive. */
  predicate EndsInBadMachine(machines: MachineMap, ips: seq<Ip>) {
    && ips != []
    && var last := |ips| - 1;
       AreInactive(machines, ips[..last]) && ips[last] in machines && !AllInactive(machines[ips[last]])
  }

  lemma InactivePartsAreAll(machines: MachineMap, ips: seq<Ip>)
    requires SetOf(ips) == machines.Keys && AreInactive(machines, ips)
    ensures InactiveParts(machines) == machines && forall ip :: ip in machines ==> AllInactive(machines[ip])
  {
    forall ip | ip in machines
      ensures AllInactive(machines[ip]) && InactivePrefix(machines[ip]) == machines[ip]
    {
      assert ip in SetOf(ips);
      AllInactivePrefix(machines[ip]);
    }
  }

  lemma AllInactivePrefix(containers: seq<Host>)
    requires AllInactive(containers)
    ensures InactivePrefix(containers) == containers
  {
    assert containers[..|containers|] == containers;
    InactivePrefixIs(containers, |containers|);
  }

  predicate HasBadMachine(machines: MachineMap) {
    exists ip :: ip in machines && BadMachine(machines[ip])
  }

  /** A sorted, scored list of exactly the hosts a group run plans with, each once. */
  ghost predicate IsRanking(hosts: HostsMap, ranked: seq<Scored>, now: Time) {
    && IsSorted(ranked, now)
    && (forall s :: multiset(ranked)[s] <= 1)
    && (forall s :: s in ranked ==>
          && s.scale == DeriveHostState(s.host, now) && IsMember(hosts, s.host)
          && !s.host.mode.Client? && s.host.ip !in InactiveIps(hosts))
    && (forall id :: id in hosts && !hosts[id].mode.Client? && hosts[id].ip !in InactiveIps(hosts) ==>
          Scored(hosts[id], DeriveHostState(hosts[id], now)) in ranked)
  }

  lemma {:induction false} UniqueMeansOnce(rest: seq<Host>, scored: seq<Scored>)
    requires UniqueIds(rest) && |scored| == |rest| && forall i :: 0 <= i < |rest| ==> scored[i].host == rest[i]
    ensures forall s :: multiset(scored)[s] <= 1
  {
    if rest != [] {
      var last := |rest| - 1;
      UniqueMeansOnce(rest[..last], scored[..last]);
      assert scored == scored[..last] + [scored[last]];
      assert scored[last] !in scored[..last];
    }
  }

  method RankGroup(rest: seq<Host>, now: Time) returns (ranked: seq<Scored>)
    requires UniqueIds(rest)
    ensures IsSorted(ranked, now)
    ensures forall s :: s in ranked <==> s.host in rest && s.scale == DeriveHostState(s.host, now)
    ensures forall s :: multiset(ranked)[s] <= 1
  {
    var scored := CalculateHostsState(rest, now);
    UniqueMeansOnce(rest, scored);
    ranked := SortHosts(scored, now);
    forall s
      ensures s in ranked <==> s.host in rest && s.scale == DeriveHostState(s.host, now)
    {
      assert s in ranked <==> s in multiset(ranked);
      assert s in scored <==> s in multiset(scored);
      if s.host in rest && s.scale == DeriveHostState(s.host, now) {
        var i :| 0 <= i < |rest| && rest[i] == s.host;
        assert scored[i] == s;
      }
    }
  }

  /** Every host that is planned with stands on a machine that has containers to deactivate. */
  lemma RankedMachinesHaveContainers(hosts: HostsMap, machines: MachineMap, ranked: seq<Scored>, now: Time)
    requires WellKeyed(hosts) && KnownModes(hosts) && Groups(hosts, hosts.Keys, machines)
    requires IsRanking(hosts, ranked, now)
    ensures NoClients(ranked)
    ensures forall ip :: ip in FirstIps(ranked) ==> ContainersOf(machines, ip) != []
  {
    FirstIpsAreMachines(ranked);
    forall ip | ip in FirstIps(ranked)
      ensures ContainersOf(machines, ip) != []
    {
      assert ip in SetOf(FirstIps(ranked));
      var s :| s in ranked && !s.host.mode.Client? && s.host.ip == ip;
      assert IsMember(hosts, s.host) && s.host.mode.Backend?;
    }
  }

  lemma RankedRest(hosts: HostsMap, rest: seq<Host>, ranked: seq<Scored>, now: Time)
    requires IsSorted(ranked, now) && forall s :: multiset(ranked)[s] <= 1
    requires forall s :: s in ranked <==> s.host in rest && s.scale == DeriveHostState(s.host, now)
    requires forall h :: h in rest ==> IsMember(hosts, h) && !h.mode.Client?
    requires forall id :: id in hosts ==>
               (hosts[id] in rest <==> !hosts[id].mode.Client? && hosts[id].ip !in InactiveIps(hosts))
    ensures IsRanking(hosts, ranked, now)
  {
    hide InactiveIps, IsSorted, DeriveHostState;
  }

  /** The planning of one host group. The prefix of length n of the collected IPs can be taken, and each
      machine in it has containers, as soon as modes are known and the desired size is not negative. */
  method PlanGroup(hosts: HostsMap, machines: MachineMap, desired: int, now: Time)
    returns (inactive: MachineMap, ranked: seq<Scored>, ips: seq<Ip>, n: int)
    requires WellKeyed(hosts) && Groups(hosts, hosts.Keys, machines)
    ensures CarriesContainers(machines, inactive)
    ensures ips == FirstIps(ranked) && n == Target(ranked, desired)
    ensures KnownModes(hosts) ==> inactive.Keys == InactiveIps(hosts)
    ensures KnownModes(hosts) ==> IsRanking(hosts, ranked, now) && NoClients(ranked)
    ensures KnownModes(hosts) ==> forall ip :: ip in ips ==> ContainersOf(machines, ip) != []
    ensures KnownModes(hosts) ==> (0 <= n <= |ips| <==> desired >= 0)
  {
    hide IsRanking, InactiveIps, Groups, WellKeyed, KnownModes, IsSorted, DeriveHostState, CarriesContainers, IsMember;
    hide FirstIps, Target, ContainersOf;
    var rest;
    inactive, rest := ClassifyGroup(hosts, machines);
    ranked := RankGroup(rest, now);
    ips := CollectIps(ranked);
    n := GetNumToDeactivate(ranked, desired);
    if KnownModes(hosts) {
      RankedRest(hosts, rest, ranked, now);
      RankedMachinesHaveContainers(hosts, machines, ranked, now);
      SliceIsLegalIffDesiredNotNegative(ranked, desired);
    }
  }

  /** One host group. With known modes and a desired size that is not negative the run is fatal only for
      a bad machine and never panics. It removes the inactive machines, plans with exactly the other
      hosts, asks each of the first Target machines of the sorted list, and no other, to deactivate, and
      reports every host it planned with. */
  method ScaleHgDown(hosts: HostsMap, instances: seq<Instance>, desired: int, nfs: NfsMap, now: Time, rpc: Rpc,
                     response: ScaleResponse, ghost extra: int)
    returns (outcome: Outcome, machines: MachineMap, ranked: seq<Scored>, ghost removed: seq<Ip>)
    requires WellKeyed(hosts) && response.Noted(rpc, extra)
    modifies response
    ensures Groups(hosts, hosts.Keys, machines) && response.Noted(rpc, extra)
    ensures outcome.Fatal? <==> HasBadMachine(machines)
    ensures KnownModes(hosts) && !outcome.Fatal? ==>
              (outcome.Panic? <==> desired < 0) && IsRanking(hosts, ranked, now) && NoClients(ranked)
    ensures KnownModes(hosts) && outcome.Finished? ==>
              && 0 <= Target(ranked, desired) <= |FirstIps(ranked)|
              && NoDuplicates(removed) && SetOf(removed) == InactiveIps(hosts)
              && RunEffects(machines, removed, Chosen(ranked, desired), HostList(ranked), instances, nfs, rpc,
                         old(response.Recorded()), response.Recorded())
  {
    removed := [];
    var bad;
    machines, bad := GetMachineToHostMap(hosts);
    if bad {
      return Fatal, machines, [], removed;
    }
    var inactive, ips, n;
    inactive, ranked, ips, n := PlanGroup(hosts, machines, desired, now);
    outcome, removed := ActOnPlan(machines, inactive, ips, n, ranked, instances, nfs, rpc, response, extra);
  }

  /** What a finished run has reported, set to terminate, sent, and dropped from the pool. */
  predicate RunEffects(machines: MachineMap, removed: seq<Ip>, chosen: seq<Ip>, stay: seq<Host>,
                       instances: seq<Instance>, nfs: NfsMap, rpc: Rpc, before: Effects, after: Effects)
  {
    var k := |before.commands|;
    && after.hosts == before.hosts + Reported(stay)
    && after.toTerminate == before.toTerminate + MachinesTerminations(machines, removed, instances, k, rpc)
    && before.commands <= after.commands
    && RunCommands(machines, removed, chosen, nfs, k, after.commands[k..], rpc)
    && after.dropped == before.dropped + RunDrops(machines, removed, chosen, nfs, k, rpc)
  }

  function HostList(l: seq<Scored>): seq<Host> {
    seq(|l|, i requires 0 <= i < |l| => l[i].host)
  }

  /** The calls a plan leads to: inactive machines are removed, the first n machines of the list are
      deactivated, and the remaining hosts are reported. Taking a prefix that does not exist, or a
      machine without containers, panics. */
  method ActOnPlan(machines: MachineMap, inactive: MachineMap, ips: seq<Ip>, n: int, ranked: seq<Scored>,
                   instances: seq<Instance>, nfs: NfsMap, rpc: Rpc, response: ScaleResponse, ghost extra: int)
    returns (outcome: Outcome, ghost removed: seq<Ip>)
    requires CarriesContainers(machines, inactive) && response.Noted(rpc, extra)
    modifies response
    ensures !outcome.Fatal? && response.Noted(rpc, extra)
    ensures NoDuplicates(removed) && SetOf(removed) == inactive.Keys
    ensures outcome.Panic? <==>
              !(0 <= n <= |ips|) || exists i :: 0 <= i < n && ContainersOf(machines, ips[i]) == []
    ensures outcome.Finished? ==>
              RunEffects(machines, removed, ips[..n], HostList(ranked), instances, nfs, rpc,
                         old(response.Recorded()), response.Recorded())
  {
    hide RunEffects, HostList, ScaleResponse.Noted, MachinesRemoval, MachinesTerminations, ContainersOf;
    var panic;
    if n < 0 || n > |ips| {
      ghost var removals;
      panic, removed, removals := response.RemoveInactive(inactive, instances, rpc, extra);
      return Panic, removed;
    }
    var stay := HostsOf(ranked);
    panic, removed := RemoveAndDeactivate(machines, inactive, ips[..n], stay, instances, nfs, rpc, response, extra);
    outcome := if panic then Panic else Finished;
  }

  /** The part both runs share: inactive machines are removed, chosen ones deactivated, hosts reported. */
  method RemoveAndDeactivate(machines: MachineMap, inactive: MachineMap, chosen: seq<Ip>, stay: seq<Host>,
                             instances: seq<Instance>, nfs: NfsMap, rpc: Rpc, response: ScaleResponse, ghost extra: int)
    returns (panic: bool, ghost removed: seq<Ip>)
    requires CarriesContainers(machines, inactive) && response.Noted(rpc, extra)
    modifies response
    ensures response.Noted(rpc, extra)
    ensures NoDuplicates(removed) && SetOf(removed) == inactive.Keys
    ensures panic <==> exists i :: 0 <= i < |chosen| && ContainersOf(machines, chosen[i]) == []
    ensures !panic ==>
              RunEffects(machines, removed, chosen, stay, instances, nfs, rpc,
                         old(response.Recorded()), response.Recorded())
  {
    hide ScaleResponse.Noted, MachinesRemoval, MachinesTerminations, Deactivation, Removal, RunCommands;
    hide Reported, ContainersOf, Drops, RemovalCost;
    ghost var before := response.commands;
    ghost var removals, deactivations;
    panic, removed, removals := response.RemoveInactive(inactive, instances, rpc, extra);
    assert !panic;
    CarriedRemoval(machines, inactive, removed, instances, |before|, removals, rpc);
    panic, deactivations := response.DeactivateAll(machines, chosen, nfs, rpc, extra);
    if panic {
      return;
    }
    response.ReportHosts(stay);
    MachinesRemovalSize(machines, removed, |before|, removals, rpc);
    RunInParts(machines, removed, chosen, nfs, |before|, removals, deactivations, rpc);
    Assoc(old(response.dropped), removed, Drops(machines, chosen, nfs, |before| + |removals|, rpc));
    Assoc(before, removals, deactivations);
    PartsOf(before, removals + deactivations);
  }

  lemma RunInParts(machines: MachineMap, removed: seq<Ip>, chosen: seq<Ip>, nfs: NfsMap, k: nat,
                   removals: seq<Command>, deactivations: seq<Command>, rpc: Rpc)
    requires MachinesRemoval(machines, removed, k, removals, rpc) && Deactivation(machines, chosen, nfs, deactivations)
    ensures RunCommands(machines, removed, chosen, nfs, k, removals + deactivations, rpc)
  {
    MachinesRemovalSize(machines, removed, k, removals, rpc);
    hide MachinesRemoval, Deactivation, RemovalCost;
    PartsOf(removals, deactivations);
  }

  /** The inactive machines carry the containers of the machine map, so removing either is the same. */
  lemma {:induction false} CarriedRemoval(machines: MachineMap, inactive: MachineMap, ips: seq<Ip>,
                                          instances: seq<Instance>, k: nat, cmds: seq<Command>, rpc: Rpc)
    requires CarriesContainers(machines, inactive) && MachinesRemoval(inactive, ips, k, cmds, rpc)
    requires forall ip :: ip in ips ==> ip in inactive
    ensures MachinesRemoval(machines, ips, k, cmds, rpc)
    ensures MachinesTerminations(machines, ips, instances, k, rpc) ==
            MachinesTerminations(inactive, ips, instances, k, rpc)
    ensures RemovalCost(machines, ips, k, rpc) == RemovalCost(inactive, ips, k, rpc)
  {
    hide Removal, Cost, Terminations;
    if ips != [] {
      var last := |ips| - 1;
      var before := RemovalCost(inactive, ips[..last], k, rpc);
      CarriedRemoval(machines, inactive, ips[..last], instances, k, cmds[..before], rpc);
      assert ips[last] in ips;
    }
  }

  method HostsOf(l: seq<Scored>) returns (hosts: seq<Host>)
    ensures hosts == HostList(l)
  {
    hosts := [];
    for i := 0 to |l|
      invariant |hosts| == i && forall j :: 0 <= j < i ==> hosts[j] == l[j].host
    {
      hosts := hosts + [l[i].host];
    }
  }

  /** Hosts that belong to no group: inactive machines are removed, machines that are down for too long
      are deactivated, each once, no inactive machine is deactivated, and the hosts that stay are reported.
      A host that is down on a machine that is not is noted as an error. */
  method HandleLeftOverHosts(hosts: HostsMap, instances: seq<Instance>, nfs: NfsMap, timeout: int, now: Time, rpc: Rpc,
                             response: ScaleResponse, ghost extra: int)
    returns (outcome: Outcome, machines: MachineMap, s: LeftOver, ghost removed: seq<Ip>)
    requires WellKeyed(hosts) && response.Noted(rpc, extra)
    modifies response
    ensures Groups(hosts, hosts.Keys, machines) && response.Noted(rpc, extra + s.partlyDown)
    ensures outcome.Fatal? <==> HasBadMachine(machines)
    ensures KnownModes(hosts) ==> !outcome.Panic?
    ensures !outcome.Fatal? ==> LeftOverSound(hosts, machines, hosts.Keys, s, timeout, now)
    ensures KnownModes(hosts) && !outcome.Fatal? ==> LeftOverResult(hosts, s, timeout, now)
    ensures outcome.Finished? ==>
              && NoDuplicates(removed) && SetOf(removed) == s.inactive.Keys
              && RunEffects(machines, removed, s.down, s.rest, instances, nfs, rpc,
                         old(response.Recorded()), response.Recorded())
  {
    s, removed := LeftOver(map[], [], [], 0), [];
    var bad;
    machines, bad := GetMachineToHostMap(hosts);
    if bad {
      return Fatal, machines, s, removed;
    }
    s := ClassifyLeftOver(hosts, machines, timeout, now);
    if KnownModes(hosts) {
      DownMachinesHaveContainers(hosts, machines, s, timeout, now);
    }
    response.transientErrors := response.transientErrors + s.partlyDown;
    var panic;
    panic, removed := RemoveAndDeactivate(machines, s.inactive, s.down, s.rest, instances, nfs, rpc, response,
                                          extra + s.partlyDown);
    outcome := if panic then Panic else Finished;
  }

  lemma DownMachinesHaveContainers(hosts: HostsMap, machines: MachineMap, s: LeftOver, timeout: int, now: Time)
    requires Groups(hosts, hosts.Keys, machines) && KnownModes(hosts) && LeftOverResult(hosts, s, timeout, now)
    ensures forall i :: 0 <= i < |s.down| ==> ContainersOf(machines, s.down[i]) != []
  {
    DownIpsByHost(hosts, machines, timeout, now);
    forall i | 0 <= i < |s.down|
      ensures ContainersOf(machines, s.down[i]) != []
    {
      assert s.down[i] in SetOf(s.down);
    }
  }

  lemma OnOwnMachine(hosts: HostsMap, machines: MachineMap)
    requires Groups(hosts, hosts.Keys, machines)
    ensures forall ip, h :: h in ContainersOf(machines, ip) ==> h.ip == ip
  {
  }

  /** What a finished group run does to the cluster: it asks exactly the chosen machines to deactivate, each
      once and with all its containers; every command belongs to an inactive machine that is removed or to
      a chosen one; only instances on inactive machines are set to terminate; and exactly the addresses of
      the inactive machines and of some chosen ones leave the pool. */
  lemma RunTouchesOnly(hosts: HostsMap, machines: MachineMap, removed: seq<Ip>, chosen: seq<Ip>, stay: seq<Host>,
                       instances: seq<Instance>, nfs: NfsMap, rpc: Rpc, before: Effects, after: Effects)
    requires Groups(hosts, hosts.Keys, machines) && SetOf(removed) == InactiveIps(hosts)
    requires RunEffects(machines, removed, chosen, stay, instances, nfs, rpc, before, after)
    ensures var sent := after.commands[|before.commands|..];
            && Deactivations(sent) == IdsOf(machines, chosen)
            && forall c :: c in sent ==> RemovesOn(machines, removed, c) || DeactivatesOn(machines, chosen, nfs, c)
    ensures forall t :: t in after.toTerminate ==>
              t in before.toTerminate || (t in instances && t.privateIp in InactiveIps(hosts))
    ensures before.dropped + removed <= after.dropped
    ensures forall ip :: ip in after.dropped[|before.dropped + removed|..] ==> ip in chosen
  {
    hide RunCommands, Drops, RemovalCost, MachinesTerminations, InactiveIps;
    hide IdsOf, RemovesOn, DeactivatesOn, Deactivations, Reported;
    var k := |before.commands|;
    var sent := after.commands[k..];
    OnOwnMachine(hosts, machines);
    TerminatedStandOnRemoved(machines, removed, instances, k, rpc);
    assert forall ip :: ip in removed ==> ip in SetOf(removed);
    var later := k + RemovalCost(machines, removed, k, rpc);
    DropsStandOn(machines, chosen, nfs, later, rpc);
    hide ContainersOf, Groups, SetOf;
    Assoc(before.dropped, removed, Drops(machines, chosen, nfs, later, rpc));
    PartsOf(before.dropped + removed, Drops(machines, chosen, nfs, later, rpc));
    RunDeactivatesExactly(machines, removed, chosen, nfs, k, sent, rpc);
    RunTouches(machines, removed, chosen, nfs, k, sent, rpc);
  }

  // ---- what a run means for the cluster ------------------------------------------------------------------

  /** No container of the machine is on its way out, failed or down for long. */
  predicate AllDerivedHealthy(hosts: HostsMap, ip: Ip, now: Time) {
    forall id :: id in hosts && !hosts[id].mode.Client? && hosts[id].ip == ip ==>
      DeriveHostState(hosts[id], now) == Healthy
  }

  function HealthyIps(hosts: HostsMap, now: Time): set<Ip> {
    set id | id in hosts && !hosts[id].mode.Client? && AllDerivedHealthy(hosts, hosts[id].ip, now) :: hosts[id].ip
  }

  lemma HealthyIpIsCounted(hosts: HostsMap, ranked: seq<Scored>, now: Time, ip: Ip)
    requires IsRanking(hosts, ranked, now) && ip in HealthyIps(hosts, now)
    ensures ip in HealthyMachines(ranked)
  {
    var id :| id in hosts && !hosts[id].mode.Client? && hosts[id].ip == ip;
    assert DeriveHostState(hosts[id], now) == Healthy;
    assert hosts[id].state != INACTIVE && ip !in InactiveIps(hosts);
    assert Scored(hosts[id], DeriveHostState(hosts[id], now)) in ranked;
  }

  lemma CountedMachineIsHealthy(hosts: HostsMap, ranked: seq<Scored>, now: Time, ip: Ip)
    requires WellKeyed(hosts) && IsRanking(hosts, ranked, now) && ip in HealthyMachines(ranked)
    ensures ip in HealthyIps(hosts, now)
  {
    var s :| s in ranked && !s.host.mode.Client? && s.host.ip == ip;
    assert s.host.id in hosts && hosts[s.host.id] == s.host;
    forall id | id in hosts && !hosts[id].mode.Client? && hosts[id].ip == ip
      ensures DeriveHostState(hosts[id], now) == Healthy
    {
      var scored := Scored(hosts[id], DeriveHostState(hosts[id], now));
      assert scored in ranked;
      assert Has(ranked, ip, scored.scale);
    }
  }

  /** The machines the planner counts as healthy are the healthy machines of the cluster. */
  lemma RankingCountsHealthyIps(hosts: HostsMap, ranked: seq<Scored>, now: Time)
    requires KnownModes(hosts) && WellKeyed(hosts) && IsRanking(hosts, ranked, now)
    ensures HealthyMachines(ranked) == HealthyIps(hosts, now)
  {
    hide HealthyMachines, HealthyIps, IsRanking, KnownModes, WellKeyed;
    forall ip
      ensures ip in HealthyMachines(ranked) <==> ip in HealthyIps(hosts, now)
    {
      if ip in HealthyIps(hosts, now) {
        HealthyIpIsCounted(hosts, ranked, now, ip);
      }
      if ip in HealthyMachines(ranked) {
        CountedMachineIsHealthy(hosts, ranked, now, ip);
      }
    }
  }

  /** Of the H healthy machines of the cluster a run chooses exactly max(0, H - T), whatever the map
      order and the sort did. */
  lemma RunProtectsHealthyMachines(hosts: HostsMap, ranked: seq<Scored>, desired: int, now: Time)
    requires KnownModes(hosts) && WellKeyed(hosts) && IsRanking(hosts, ranked, now) && desired >= 0
    ensures 0 <= Target(ranked, desired) <= |FirstIps(ranked)|
    ensures |SetOf(Chosen(ranked, desired)) * HealthyIps(hosts, now)| == Max(0, |HealthyIps(hosts, now)| - desired)
  {
    SortedByRank(ranked, now);
    RankingCountsHealthyIps(hosts, ranked, now);
    HealthyMachinesAreProtected(ranked, desired);
  }

  // ---- the last gate before termination ------------------------------------------------------------------

  /** A live container stands at the address, other than a client that is down and about to go. */
  predicate Alive(h: Host) {
    && h.state != INACTIVE && h.state != REMOVING
    && !(h.status == Down && h.mode.Client? && h.autoRemoveTimeout > 0)
  }

  /** The address of an instance that is missing from the response or set to terminate. */
  predicate Targeted(ip: Ip, instances: seq<Instance>, reported: seq<ResponseHost>, toTerminate: seq<Instance>) {
    && (exists i :: i in instances && i.privateIp == ip)
    && ((forall h :: h in reported ==> h.privateIp != ip) || exists t :: t in toTerminate && t.privateIp == ip)
  }

  method DeltaIps(instances: seq<Instance>, reported: seq<ResponseHost>, toTerminate: seq<Instance>)
    returns (delta: set<Ip>)
    ensures forall ip :: ip in delta <==> Targeted(ip, instances, reported, toTerminate)
  {
    var cloudIps := set i | i in instances :: i.privateIp;
    var responseIps := set h | h in reported :: h.privateIp;
    delta := {};
    var todo := cloudIps;
    while todo != {}
      invariant todo <= cloudIps
      invariant forall ip :: ip in delta <==> ip in cloudIps - todo && Targeted(ip, instances, reported, toTerminate)
      decreases todo
    {
      var ip :| ip in todo;
      todo := todo - {ip};
      if ip !in responseIps {
        delta := delta + {ip};
        continue;
      }
      for i := 0 to |toTerminate|
        invariant forall j :: 0 <= j < i ==> toTerminate[j].privateIp != ip
        invariant forall other :: other in delta <==>
                    other in cloudIps - todo - {ip} && Targeted(other, instances, reported, toTerminate)
      {
        if toTerminate[i].privateIp == ip {
          delta := delta + {ip};
          break;
        }
      }
    }
  }

  lemma AbortIff(hosts: HostsMap, instances: seq<Instance>, reported: seq<ResponseHost>, toTerminate: seq<Instance>)
    ensures (exists id :: id in hosts && Alive(hosts[id]) && Targeted(hosts[id].ip, instances, reported, toTerminate))
            <==>
            exists h :: h in hosts.Values
              && h.state !in {INACTIVE, REMOVING}
              && (h.status == Down && h.mode.Client? ==> h.autoRemoveTimeout <= 0)
              && (exists i :: i in instances && i.privateIp == h.ip)
              && ((exists t :: t in toTerminate && t.privateIp == h.ip)
                  || !exists r :: r in reported && r.privateIp == h.ip)
  {
  }

  /** The gate aborts exactly when a targeted address has a live container, whatever the map order. */
  method ValidateDelta(hosts: HostsMap, instances: seq<Instance>, reported: seq<ResponseHost>,
                       toTerminate: seq<Instance>)
    returns (aborted: bool)
    ensures aborted <==>
              exists id :: id in hosts && Alive(hosts[id]) && Targeted(hosts[id].ip, instances, reported, toTerminate)
    ensures aborted <==>
              exists h :: h in hosts.Values
                && h.state !in {INACTIVE, REMOVING}
                && (h.status == Down && h.mode.Client? ==> h.autoRemoveTimeout <= 0)
                && (exists i :: i in instances && i.privateIp == h.ip)
                && ((exists t :: t in toTerminate && t.privateIp == h.ip)
                    || !exists r :: r in reported && r.privateIp == h.ip)
  {
    AbortIff(hosts, instances, reported, toTerminate);
    hide Targeted;
    var delta := DeltaIps(instances, reported, toTerminate);
    var ips := delta;
    while ips != {}
      invariant ips <= delta
      invariant forall id :: id in hosts && hosts[id].ip in delta - ips ==> !Alive(hosts[id])
      decreases ips
    {
      var ip :| ip in ips;
      ips := ips - {ip};
      var todo := hosts.Keys;
      while todo != {}
        invariant todo <= hosts.Keys
        invariant forall id :: id in hosts.Keys - todo && hosts[id].ip == ip ==> !Alive(hosts[id])
        decreases todo
      {
        var id :| id in todo;
        todo := todo - {id};
        var host := hosts[id];
        if host.ip == ip && host.state != INACTIVE && host.state != REMOVING {
          if host.status == Down && host.mode.Client? && host.autoRemoveTimeout > 0 {
            continue;
          }
          return true;
        }
      }
    }
    aborted := false;
  }
}
