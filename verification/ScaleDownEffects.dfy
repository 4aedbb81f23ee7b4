/**
 What a finished run has done for each container: nothing that a removed or a chosen machine asks for is
 left out. `RunTouches` says that nothing else is done.
 */
module ScaleDownEffects {
  import opened ScaleDownHosts
  import opened ScaleDownGroups
  import opened ScaleDownCommands

  // ---- containers that are removed -------------------------------------------------------------------

  predicate StandsAt(ip: Ip, instances: seq<Instance>) {
    exists t :: t in instances && t.privateIp == ip
  }

  predicate TerminatesAt(ip: Ip, instances: seq<Instance>, terminated: seq<Instance>) {
    exists t :: t in instances && t in terminated && t.privateIp == ip
  }

  /** The i-th command asks for the removal of a container. If it succeeds, the removal of every drive of the
      container follows, and an instance with its address, if there is one, is set to terminate. `k` commands
      were sent before these. */
  predicate RemovedAt(h: Host, i: nat, k: nat, cmds: seq<Command>, instances: seq<Instance>,
                      terminated: seq<Instance>, rpc: Rpc)
  {
    && i < |cmds| && cmds[i] == RemoveHost(h.id)
    && (rpc(k + i, RemoveHost(h.id)) ==>
          && (forall d :: d in h.drives ==> RemoveDrive(d) in cmds[i..])
          && (StandsAt(h.ip, instances) ==> TerminatesAt(h.ip, instances, terminated)))
  }

  lemma InMiddle<T>(a: seq<T>, b: seq<T>, c: seq<T>, i: nat)
    requires i < |b|
    ensures |a| + i < |a + b + c| && (a + b + c)[|a| + i] == b[i]
    ensures forall x :: x in b[i..] ==> x in (a + b + c)[|a| + i..]
    ensures forall x :: x in b[..i] ==> x in (a + b + c)[..|a| + i]
  {
    var s := a + b + c;
    forall x | x in b[i..]
      ensures x in s[|a| + i..]
    {
      var j :| 0 <= j < |b[i..]| && b[i..][j] == x;
      assert s[|a| + i..][j] == x;
    }
    forall x | x in b[..i]
      ensures x in s[..|a| + i]
    {
      var j :| 0 <= j < i && b[j] == x;
      assert s[..|a| + i][|a| + j] == x;
    }
  }

  /** What has been done stays done when commands and terminations are put around it. */
  lemma RemovedAmong(h: Host, i: nat, k: nat, cmds: seq<Command>, instances: seq<Instance>, terminated: seq<Instance>,
                     rpc: Rpc, front: seq<Command>, back: seq<Command>, before: seq<Instance>, after: seq<Instance>)
    requires RemovedAt(h, i, k + |front|, cmds, instances, terminated, rpc)
    ensures RemovedAt(h, |front| + i, k, front + cmds + back, instances, before + terminated + after, rpc)
  {
    InMiddle(front, cmds, back, i);
    assert k + |front| + i == k + (|front| + i);
    assert forall t :: t in terminated ==> t in before + terminated + after;
  }

  lemma HostIsRemoved(h: Host, k: nat, cmds: seq<Command>, instances: seq<Instance>, rpc: Rpc)
    requires HostRemoval(h, k, cmds, rpc) && h.status == Inactive
    ensures RemovedAt(h, 0, k, cmds, instances, HostTermination(h, instances, k, rpc), rpc)
  {
    InstanceAtIsInstance(h.ip, instances);
    if IsRemoved(h, k, rpc) {
      forall d | d in h.drives
        ensures RemoveDrive(d) in cmds[0..]
      {
        assert d in DrivesOf(h, true);
        assert DriveCommand(d, true) in cmds[1..];
      }
    }
  }

  lemma {:induction false} ContainerIsRemoved(containers: seq<Host>, x: nat, instances: seq<Instance>, k: nat,
                                              cmds: seq<Command>, rpc: Rpc)
    returns (i: nat)
    requires Removal(containers, k, cmds, rpc) && x < |containers| && containers[x].status == Inactive
    ensures RemovedAt(containers[x], i, k, cmds, instances, Terminations(containers, instances, k, rpc), rpc)
  {
    hide RemovedAt, HostRemoval, HostTermination, HostCost;
    var last := |containers| - 1;
    var h := containers[x];
    var n := Cost(containers[..last], k, rpc);
    var before := Terminations(containers[..last], instances, k, rpc);
    var more := HostTermination(containers[last], instances, k + n, rpc);
    TwoParts(cmds, n);
    if x == last {
      HostIsRemoved(h, k + n, cmds[n..], instances, rpc);
      RemovedAmong(h, 0, k, cmds[n..], instances, more, rpc, cmds[..n], [], before, []);
      i := n + 0;
      assert cmds[..n] + cmds[n..] + [] == cmds && before + more + [] == before + more;
    } else {
      i := ContainerIsRemoved(containers[..last], x, instances, k, cmds[..n], rpc);
      RemovedAmong(h, i, k, cmds[..n], instances, before, rpc, [], cmds[n..], [], more);
      assert [] + cmds[..n] + cmds[n..] == cmds && [] + before + more == before + more;
    }
  }

  lemma MachinesTerminationsParts(machines: MachineMap, ips: seq<Ip>, instances: seq<Instance>, k: nat,
                                  cmds: seq<Command>, rpc: Rpc)
    returns (n: nat)
    requires ips != [] && MachinesRemoval(machines, ips, k, cmds, rpc)
    ensures var last := |ips| - 1;
            && n <= |cmds| && cmds == cmds[..n] + cmds[n..]
            && MachinesRemoval(machines, ips[..last], k, cmds[..n], rpc)
            && Removal(ContainersOf(machines, ips[last]), k + n, cmds[n..], rpc)
            && MachinesTerminations(machines, ips, instances, k, rpc) ==
               MachinesTerminations(machines, ips[..last], instances, k, rpc)
               + Terminations(ContainersOf(machines, ips[last]), instances, k + n, rpc)
  {
    hide Removal, Cost, ContainersOf, Terminations;
    n := RemovalCost(machines, ips[..|ips| - 1], k, rpc);
    TwoParts(cmds, n);
  }

  lemma {:induction false} MachineIsRemoved(machines: MachineMap, ips: seq<Ip>, ip: Ip, x: nat,
                                            instances: seq<Instance>, k: nat, cmds: seq<Command>, rpc: Rpc)
    returns (i: nat)
    requires MachinesRemoval(machines, ips, k, cmds, rpc) && ip in ips
    requires x < |ContainersOf(machines, ip)| && ContainersOf(machines, ip)[x].status == Inactive
    ensures RemovedAt(ContainersOf(machines, ip)[x], i, k, cmds, instances,
                      MachinesTerminations(machines, ips, instances, k, rpc), rpc)
  {
    hide RemovedAt, MachinesRemoval, Removal, MachinesTerminations, Terminations, ContainersOf;
    var last := |ips| - 1;
    var h := ContainersOf(machines, ip)[x];
    var n := MachinesTerminationsParts(machines, ips, instances, k, cmds, rpc);
    var before := MachinesTerminations(machines, ips[..last], instances, k, rpc);
    var more := Terminations(ContainersOf(machines, ips[last]), instances, k + n, rpc);
    if ip == ips[last] {
      i := ContainerIsRemoved(ContainersOf(machines, ip), x, instances, k + n, cmds[n..], rpc);
      RemovedAmong(h, i, k, cmds[n..], instances, more, rpc, cmds[..n], [], before, []);
      i := n + i;
      assert cmds[..n] + cmds[n..] + [] == cmds && before + more + [] == before + more;
    } else {
      Grown(ips, last);
      assert ips[..last + 1] == ips;
      i := MachineIsRemoved(machines, ips[..last], ip, x, instances, k, cmds[..n], rpc);
      RemovedAmong(h, i, k, cmds[..n], instances, before, rpc, [], cmds[n..], [], more);
      assert [] + cmds[..n] + cmds[n..] == cmds && [] + before + more == before + more;
    }
  }

  // ---- machines that are deactivated -----------------------------------------------------------------

  /** Before the i-th command every active drive of the containers was asked to deactivate and every port of
      them to go; the command asks for the deactivation of all the containers, in order, and if it succeeds
      the machine's address is dropped from the pool. */
  predicate DeactivatedAt(containers: seq<Host>, i: nat, k: nat, cmds: seq<Command>, nfs: NfsMap, dropped: seq<Ip>,
                          rpc: Rpc)
  {
    && i < |cmds| && cmds[i].DeactivateHosts?
    && |cmds[i].hosts| == |containers| && (forall x :: 0 <= x < |containers| ==> cmds[i].hosts[x] == containers[x].id)
    && (forall h, d :: h in containers && d in h.drives && h.drives[d].shouldBeActive ==>
          DeactivateDrive(d) in cmds[..i])
    && (forall h :: h in containers && h.id in nfs ==> DeletePort(nfs[h.id]) in cmds[..i])
    && (rpc(k + i, cmds[i]) && containers != [] ==> containers[0].ip in dropped)
  }

  lemma DeactivatedAmong(containers: seq<Host>, i: nat, k: nat, cmds: seq<Command>, nfs: NfsMap, dropped: seq<Ip>,
                         rpc: Rpc, front: seq<Command>, back: seq<Command>, before: seq<Ip>, after: seq<Ip>)
    requires DeactivatedAt(containers, i, k + |front|, cmds, nfs, dropped, rpc)
    ensures DeactivatedAt(containers, |front| + i, k, front + cmds + back, nfs, before + dropped + after, rpc)
  {
    InMiddle(front, cmds, back, i);
    assert k + |front| + i == k + (|front| + i);
    assert forall ip :: ip in dropped ==> ip in before + dropped + after;
  }

  lemma {:induction false} ActiveDrivesAsked(containers: seq<Host>, cmds: seq<Command>, h: Host, d: DriveId)
    requires DriveDeactivation(containers, cmds)
    requires h in containers && d in h.drives && h.drives[d].shouldBeActive
    ensures DeactivateDrive(d) in cmds
  {
    var last := |containers| - 1;
    var n := NumDrives(containers[..last]);
    TwoParts(cmds, n);
    if h == containers[last] {
      assert d in DrivesOf(h, false);
      assert DriveCommand(d, false) in cmds[n..];
    } else {
      Grown(containers, last);
      assert containers[..last + 1] == containers;
      ActiveDrivesAsked(containers[..last], cmds[..n], h, d);
    }
  }

  lemma {:induction false} PortsAsked(containers: seq<Host>, nfs: NfsMap, h: Host)
    requires h in containers && h.id in nfs
    ensures DeletePort(nfs[h.id]) in Ports(containers, nfs)
  {
    var last := |containers| - 1;
    if h != containers[last] {
      Grown(containers, last);
      assert containers[..last + 1] == containers;
      PortsAsked(containers[..last], nfs, h);
    }
  }

  lemma MachineIsDeactivated(containers: seq<Host>, k: nat, cmds: seq<Command>, nfs: NfsMap, rpc: Rpc)
    requires MachineDeactivation(containers, nfs, cmds)
    ensures DeactivatedAt(containers, |cmds| - 1, k, cmds, nfs, MachineDrop(containers, nfs, k, rpc), rpc)
  {
    var n, last := NumDrives(containers), |cmds| - 1;
    forall h, d | h in containers && d in h.drives && h.drives[d].shouldBeActive
      ensures DeactivateDrive(d) in cmds[..last]
    {
      ActiveDrivesAsked(containers, cmds[..n], h, d);
      assert cmds[..last] == cmds[..n] + cmds[n..last];
    }
    forall h | h in containers && h.id in nfs
      ensures DeletePort(nfs[h.id]) in cmds[..last]
    {
      PortsAsked(containers, nfs, h);
      assert cmds[..last] == cmds[..n] + cmds[n..last];
    }
  }

  lemma DropsParts(machines: MachineMap, ips: seq<Ip>, k: nat, cmds: seq<Command>, nfs: NfsMap, rpc: Rpc)
    returns (n: nat)
    requires ips != [] && Deactivation(machines, ips, nfs, cmds)
    ensures var last := |ips| - 1;
            && n <= |cmds| && cmds == cmds[..n] + cmds[n..]
            && Deactivation(machines, ips[..last], nfs, cmds[..n])
            && MachineDeactivation(ContainersOf(machines, ips[last]), nfs, cmds[n..])
            && Drops(machines, ips, nfs, k, rpc) ==
               Drops(machines, ips[..last], nfs, k, rpc)
               + MachineDrop(ContainersOf(machines, ips[last]), nfs, k + n, rpc)
  {
    hide MachineDeactivation, MachineCost, MachineDrop, ContainersOf;
    n := MachinesCost(machines, ips[..|ips| - 1], nfs);
    TwoParts(cmds, n);
  }

  lemma {:induction false} ListedIsDeactivated(machines: MachineMap, ips: seq<Ip>, ip: Ip, k: nat, cmds: seq<Command>,
                                               nfs: NfsMap, rpc: Rpc)
    returns (i: nat)
    requires Deactivation(machines, ips, nfs, cmds) && ip in ips
    ensures DeactivatedAt(ContainersOf(machines, ip), i, k, cmds, nfs, Drops(machines, ips, nfs, k, rpc), rpc)
  {
    hide DeactivatedAt, Deactivation, MachineDeactivation, MachineDrop, Drops, ContainersOf;
    var last := |ips| - 1;
    var containers := ContainersOf(machines, ip);
    var n := DropsParts(machines, ips, k, cmds, nfs, rpc);
    var before := Drops(machines, ips[..last], nfs, k, rpc);
    var more := MachineDrop(ContainersOf(machines, ips[last]), nfs, k + n, rpc);
    if ip == ips[last] {
      MachineIsDeactivated(containers, k + n, cmds[n..], nfs, rpc);
      MachineDeactivationTouches(containers, nfs, cmds[n..]);
      i := |cmds[n..]| - 1;
      DeactivatedAmong(containers, i, k, cmds[n..], nfs, more, rpc, cmds[..n], [], before, []);
      i := n + i;
      assert cmds[..n] + cmds[n..] + [] == cmds && before + more + [] == before + more;
    } else {
      Grown(ips, last);
      assert ips[..last + 1] == ips;
      i := ListedIsDeactivated(machines, ips[..last], ip, k, cmds[..n], nfs, rpc);
      DeactivatedAmong(containers, i, k, cmds[..n], nfs, before, rpc, [], cmds[n..], [], more);
      assert [] + cmds[..n] + cmds[n..] == cmds && [] + before + more == before + more;
    }
  }
}
