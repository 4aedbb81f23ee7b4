/**
 The commands a scale-down run sends to the cluster, as a specification of what may be sent in which
 order. Whether the n-th command succeeds is decided from outside.
 */
module ScaleDownCommands {
  import opened Wrappers
  import opened ScaleDownHosts
  import opened ScaleDownGroups

  datatype Instance = Instance(id: string, privateIp: Ip)

  datatype NfsHost = NfsHost(interfaceGroupName: string, hostId: HostId, port: string)

  type NfsMap = map<HostId, NfsHost>

  datatype Command =
    | RemoveHost(host: HostId)
    | RemoveDrive(drive: DriveId)
    | DeactivateDrive(drive: DriveId)
    | DeletePort(nfs: NfsHost)
    | DeactivateHosts(hosts: seq<HostId>)

  type Rpc = (nat, Command) -> bool

  /** How many of the commands failed. */
  function Failures(commands: seq<Command>, rpc: Rpc): nat {
    if commands == [] then 0
    else
      var last := |commands| - 1;
      Failures(commands[..last], rpc) + if rpc(last, commands[last]) then 0 else 1
  }

  lemma FailuresNext(commands: seq<Command>, c: Command, rpc: Rpc)
    ensures Failures(commands + [c], rpc) == Failures(commands, rpc) + if rpc(|commands|, c) then 0 else 1
  {
    assert (commands + [c])[..|commands|] == commands;
  }

  // ---- drives ----------------------------------------------------------------------------------------

  function DriveCommand(d: DriveId, remove: bool): Command {
    if remove then RemoveDrive(d) else DeactivateDrive(d)
  }

  /** All drives of a container that is removed, and those still to be active of one that is deactivated. */
  function DrivesOf(host: Host, remove: bool): set<DriveId> {
    set d | d in host.drives && (remove || host.drives[d].shouldBeActive)
  }

  predicate IsDriveCommand(c: Command, drives: set<DriveId>, remove: bool) {
    if remove then c.RemoveDrive? && c.drive in drives else c.DeactivateDrive? && c.drive in drives
  }

  /** One command for each of the drives, in any order, and no other. */
  predicate ForDrives(drives: set<DriveId>, remove: bool, cmds: seq<Command>) {
    && |cmds| == |drives|
    && (forall d :: d in drives ==> DriveCommand(d, remove) in cmds)
    && (forall c :: c in cmds ==> IsDriveCommand(c, drives, remove))
  }

  lemma ForOneMoreDrive(drives: set<DriveId>, d: DriveId, remove: bool, cmds: seq<Command>)
    requires ForDrives(drives, remove, cmds) && d !in drives
    ensures ForDrives(drives + {d}, remove, cmds + [DriveCommand(d, remove)])
  {
  }

  // ---- removal ---------------------------------------------------------------------------------------

  /** The first instance with an address. */
  function InstanceAt(ip: Ip, instances: seq<Instance>): Option<Instance> {
    if instances == [] then None
    else if instances[0].privateIp == ip then Some(instances[0])
    else InstanceAt(ip, instances[1..])
  }

  predicate IsRemoved(host: Host, k: nat, rpc: Rpc) {
    host.status == Inactive && rpc(k, RemoveHost(host.id))
  }

  /** How many commands the removal of a container takes when the first of them is the k-th of the run. */
  function HostCost(host: Host, k: nat, rpc: Rpc): nat {
    if host.status != Inactive then 0 else if IsRemoved(host, k, rpc) then 1 + |DrivesOf(host, true)| else 1
  }

  /** A container is removed, and if that succeeds so are all its drives. */
  predicate HostRemoval(host: Host, k: nat, cmds: seq<Command>, rpc: Rpc) {
    && |cmds| == HostCost(host, k, rpc)
    && (host.status == Inactive ==> cmds[0] == RemoveHost(host.id))
    && (IsRemoved(host, k, rpc) ==> ForDrives(DrivesOf(host, true), true, cmds[1..]))
  }

  function HostTermination(host: Host, instances: seq<Instance>, k: nat, rpc: Rpc): seq<Instance> {
    var found := InstanceAt(host.ip, instances);
    if IsRemoved(host, k, rpc) && found.Some? then [found.value] else []
  }

  function Cost(containers: seq<Host>, k: nat, rpc: Rpc): nat {
    if containers == [] then 0
    else
      var last := |containers| - 1;
      var before := Cost(containers[..last], k, rpc);
      before + HostCost(containers[last], k + before, rpc)
  }

  /** The containers of a list are removed one after the other. */
  predicate Removal(containers: seq<Host>, k: nat, cmds: seq<Command>, rpc: Rpc) {
    |cmds| == Cost(containers, k, rpc) &&
    (containers != [] ==>
       var last := |containers| - 1;
       var before := Cost(containers[..last], k, rpc);
       && Removal(containers[..last], k, cmds[..before], rpc)
       && HostRemoval(containers[last], k + before, cmds[before..], rpc))
  }

  /** The instances that are set to terminate on the way, one for each container that was removed. */
  function Terminations(containers: seq<Host>, instances: seq<Instance>, k: nat, rpc: Rpc): seq<Instance> {
    if containers == [] then []
    else
      var last := |containers| - 1;
      var before := Cost(containers[..last], k, rpc);
      Terminations(containers[..last], instances, k, rpc)
      + HostTermination(containers[last], instances, k + before, rpc)
  }

  lemma RemovalNext(containers: seq<Host>, host: Host, k: nat, cmds: seq<Command>, more: seq<Command>, rpc: Rpc)
    requires Removal(containers, k, cmds, rpc) && HostRemoval(host, k + |cmds|, more, rpc)
    ensures Removal(containers + [host], k, cmds + more, rpc)
  {
    assert |more| == HostCost(host, k + |cmds|, rpc) && |cmds| == Cost(containers, k, rpc);
    hide HostRemoval, HostCost;
    PartsOf(containers, [host]);
    PartsOf(cmds, more);
  }

  lemma TerminationsNext(containers: seq<Host>, host: Host, instances: seq<Instance>, k: nat, rpc: Rpc)
    ensures Terminations(containers + [host], instances, k, rpc) ==
            Terminations(containers, instances, k, rpc)
            + HostTermination(host, instances, k + Cost(containers, k, rpc), rpc)
  {
    hide HostTermination, HostCost;
    PartsOf(containers, [host]);
  }

  lemma {:induction false} TerminatedWereRemoved(containers: seq<Host>, instances: seq<Instance>, k: nat, rpc: Rpc)
    ensures forall t :: t in Terminations(containers, instances, k, rpc) ==>
              t in instances && exists h :: h in containers && h.ip == t.privateIp
  {
    if containers != [] {
      var last := |containers| - 1;
      TerminatedWereRemoved(containers[..last], instances, k, rpc);
      InstanceAtIsInstance(containers[last].ip, instances);
      assert containers[last] in containers;
    }
  }

  lemma {:induction false} InstanceAtIsInstance(ip: Ip, instances: seq<Instance>)
    ensures var found := InstanceAt(ip, instances);
            if found.Some? then found.value in instances && found.value.privateIp == ip
            else forall i :: i in instances ==> i.privateIp != ip
  {
    if instances != [] {
      InstanceAtIsInstance(ip, instances[1..]);
    }
  }

  /** The containers in front of the first that is not inactive. */
  function InactivePrefix(containers: seq<Host>): seq<Host> {
    if containers == [] || containers[0].state != INACTIVE then []
    else [containers[0]] + InactivePrefix(containers[1..])
  }

  /** The part of each machine that is removed before a container that is not inactive is met. */
  function InactiveParts(machines: MachineMap): MachineMap {
    map ip | ip in machines :: InactivePrefix(machines[ip])
  }

  lemma {:induction false} InactivePrefixIs(containers: seq<Host>, i: nat)
    requires i <= |containers| && AllInactive(containers[..i])
    requires i < |containers| ==> containers[i].state != INACTIVE
    ensures InactivePrefix(containers) == containers[..i]
  {
    if i > 0 {
      assert containers[..i][0] in containers[..i];
      assert containers[1..][..i - 1] == containers[..i][1..];
      InactivePrefixIs(containers[1..], i - 1);
    }
  }

  function RemovalCost(machines: MachineMap, ips: seq<Ip>, k: nat, rpc: Rpc): nat {
    if ips == [] then 0
    else
      var before := RemovalCost(machines, ips[..|ips| - 1], k, rpc);
      before + Cost(ContainersOf(machines, ips[|ips| - 1]), k + before, rpc)
  }

  /** The machines of a list are removed one after the other. */
  predicate MachinesRemoval(machines: MachineMap, ips: seq<Ip>, k: nat, cmds: seq<Command>, rpc: Rpc) {
    |cmds| == RemovalCost(machines, ips, k, rpc) &&
    (ips != [] ==>
       var last := |ips| - 1;
       var before := RemovalCost(machines, ips[..last], k, rpc);
       && MachinesRemoval(machines, ips[..last], k, cmds[..before], rpc)
       && Removal(ContainersOf(machines, ips[last]), k + before, cmds[before..], rpc))
  }

  function MachinesTerminations(machines: MachineMap, ips: seq<Ip>, instances: seq<Instance>, k: nat,
                                rpc: Rpc): seq<Instance>
  {
    if ips == [] then []
    else
      var last := |ips| - 1;
      var before := RemovalCost(machines, ips[..last], k, rpc);
      MachinesTerminations(machines, ips[..last], instances, k, rpc)
      + Terminations(ContainersOf(machines, ips[last]), instances, k + before, rpc)
  }

  lemma Assoc<T>(a: seq<T>, b: seq<T>, c: seq<T>)
    ensures a + b + c == a + (b + c)
  {
  }

  lemma TwoParts<T>(s: seq<T>, n: nat)
    requires n <= |s|
    ensures s == s[..n] + s[n..]
  {
  }

  lemma Grown<T>(s: seq<T>, i: nat)
    requires i < |s|
    ensures s[..i + 1] == s[..i] + [s[i]]
  {
  }

  lemma NothingSent(machines: MachineMap, instances: seq<Instance>, nfs: NfsMap, remove: bool, k: nat, rpc: Rpc)
    ensures ForDrives({}, remove, []) && DriveDeactivation([], []) && Ports([], nfs) == [] && Ids([]) == []
    ensures Removal([], k, [], rpc) && Terminations([], instances, k, rpc) == []
    ensures MachinesRemoval(machines, [], k, [], rpc) && MachinesTerminations(machines, [], instances, k, rpc) == []
    ensures Deactivation(machines, [], nfs, []) && Drops(machines, [], nfs, k, rpc) == []
  {
  }

  lemma PartsOf<T>(front: seq<T>, more: seq<T>)
    ensures (front + more)[..|front|] == front && (front + more)[|front|..] == more
  {
  }

  lemma MachinesRemovalNext(machines: MachineMap, ips: seq<Ip>, ip: Ip, k: nat, cmds: seq<Command>, more: seq<Command>,
                            rpc: Rpc)
    requires MachinesRemoval(machines, ips, k, cmds, rpc)
    requires Removal(ContainersOf(machines, ip), k + |cmds|, more, rpc)
    ensures MachinesRemoval(machines, ips + [ip], k, cmds + more, rpc)
  {
    hide Removal, Cost, ContainersOf, RemovalCost;
    RemovalCostNext(machines, ips, ip, k, rpc);
    RemovalSize(ContainersOf(machines, ip), k + |cmds|, more, rpc);
    PartsOf(ips, [ip]);
    PartsOf(cmds, more);
  }

  lemma RemovalSize(containers: seq<Host>, k: nat, cmds: seq<Command>, rpc: Rpc)
    requires Removal(containers, k, cmds, rpc)
    ensures |cmds| == Cost(containers, k, rpc)
  {
  }

  lemma RemovalCostNext(machines: MachineMap, ips: seq<Ip>, ip: Ip, k: nat, rpc: Rpc)
    ensures var before := RemovalCost(machines, ips, k, rpc);
            RemovalCost(machines, ips + [ip], k, rpc) == before + Cost(ContainersOf(machines, ip), k + before, rpc)
  {
    hide Cost, ContainersOf;
    PartsOf(ips, [ip]);
  }

  lemma MachinesRemovalSize(machines: MachineMap, ips: seq<Ip>, k: nat, cmds: seq<Command>, rpc: Rpc)
    requires MachinesRemoval(machines, ips, k, cmds, rpc)
    ensures |cmds| == RemovalCost(machines, ips, k, rpc)
  {
  }

  lemma MachinesTerminationsNext(machines: MachineMap, ips: seq<Ip>, ip: Ip, instances: seq<Instance>, k: nat, rpc: Rpc)
    ensures MachinesTerminations(machines, ips + [ip], instances, k, rpc) ==
            MachinesTerminations(machines, ips, instances, k, rpc)
            + Terminations(ContainersOf(machines, ip), instances, k + RemovalCost(machines, ips, k, rpc), rpc)
  {
    hide Terminations, Cost, ContainersOf;
    PartsOf(ips, [ip]);
  }

  /** Only instances on the removed machines are set to terminate. */
  lemma {:induction false} TerminatedStandOnRemoved(machines: MachineMap, ips: seq<Ip>, instances: seq<Instance>,
                                                    k: nat, rpc: Rpc)
    requires forall ip, h :: ip in ips && h in ContainersOf(machines, ip) ==> h.ip == ip
    ensures forall t :: t in MachinesTerminations(machines, ips, instances, k, rpc) ==>
              t in instances && t.privateIp in ips
  {
    hide RemovalCost, Terminations, ContainersOf;
    if ips != [] {
      var last := |ips| - 1;
      var before := RemovalCost(machines, ips[..last], k, rpc);
      TerminatedStandOnRemoved(machines, ips[..last], instances, k, rpc);
      TerminatedWereRemoved(ContainersOf(machines, ips[last]), instances, k + before, rpc);
      assert ips[last] in ips;
    }
  }

  // ---- deactivation ----------------------------------------------------------------------------------

  function Ids(hosts: seq<Host>): seq<HostId> {
    seq(|hosts|, i requires 0 <= i < |hosts| => hosts[i].id)
  }

  function NumDrives(containers: seq<Host>): nat {
    if containers == [] then 0
    else NumDrives(containers[..|containers| - 1]) + |DrivesOf(containers[|containers| - 1], false)|
  }

  /** The active drives of each container in turn. */
  predicate DriveDeactivation(containers: seq<Host>, cmds: seq<Command>) {
    |cmds| == NumDrives(containers) &&
    (containers != [] ==>
       var last := |containers| - 1;
       var before := NumDrives(containers[..last]);
       && DriveDeactivation(containers[..last], cmds[..before])
       && ForDrives(DrivesOf(containers[last], false), false, cmds[before..]))
  }

  /** The interface-group ports of a machine's NFS hosts. */
  function Ports(containers: seq<Host>, nfs: NfsMap): seq<Command> {
    if containers == [] then []
    else
      var last := containers[|containers| - 1];
      Ports(containers[..|containers| - 1], nfs) + if last.id in nfs then [DeletePort(nfs[last.id])] else []
  }

  function MachineCost(containers: seq<Host>, nfs: NfsMap): nat {
    NumDrives(containers) + |Ports(containers, nfs)| + 1
  }

  /** A machine: its drives, its ports, and then all its containers in one command. */
  predicate MachineDeactivation(containers: seq<Host>, nfs: NfsMap, cmds: seq<Command>) {
    var drives, last := NumDrives(containers), MachineCost(containers, nfs) - 1;
    && |cmds| == last + 1
    && DriveDeactivation(containers, cmds[..drives])
    && cmds[drives..last] == Ports(containers, nfs)
    && cmds[last] == DeactivateHosts(Ids(containers))
  }

  function MachinesCost(machines: MachineMap, ips: seq<Ip>, nfs: NfsMap): nat {
    if ips == [] then 0
    else MachinesCost(machines, ips[..|ips| - 1], nfs) + MachineCost(ContainersOf(machines, ips[|ips| - 1]), nfs)
  }

  predicate Deactivation(machines: MachineMap, ips: seq<Ip>, nfs: NfsMap, cmds: seq<Command>) {
    |cmds| == MachinesCost(machines, ips, nfs) &&
    (ips != [] ==>
       var last := |ips| - 1;
       var before := MachinesCost(machines, ips[..last], nfs);
       && Deactivation(machines, ips[..last], nfs, cmds[..before])
       && MachineDeactivation(ContainersOf(machines, ips[last]), nfs, cmds[before..]))
  }

  /** The address that leaves the endpoint pool when the machine's deactivation succeeds. */
  function MachineDrop(containers: seq<Host>, nfs: NfsMap, k: nat, rpc: Rpc): seq<Ip> {
    if containers != [] && rpc(k + MachineCost(containers, nfs) - 1, DeactivateHosts(Ids(containers)))
    then [containers[0].ip] else []
  }

  /** The addresses that leave the pool when the machines of a list are deactivated one after the other. */
  function Drops(machines: MachineMap, ips: seq<Ip>, nfs: NfsMap, k: nat, rpc: Rpc): seq<Ip> {
    if ips == [] then []
    else
      var last := |ips| - 1;
      Drops(machines, ips[..last], nfs, k, rpc)
      + MachineDrop(ContainersOf(machines, ips[last]), nfs, k + MachinesCost(machines, ips[..last], nfs), rpc)
  }

  lemma DropsNext(machines: MachineMap, ips: seq<Ip>, ip: Ip, nfs: NfsMap, k: nat, rpc: Rpc)
    ensures Drops(machines, ips + [ip], nfs, k, rpc) ==
            Drops(machines, ips, nfs, k, rpc)
            + MachineDrop(ContainersOf(machines, ip), nfs, k + MachinesCost(machines, ips, nfs), rpc)
  {
    hide MachineDrop, MachineCost, ContainersOf;
    PartsOf(ips, [ip]);
  }

  lemma {:induction false} DropsStandOn(machines: MachineMap, ips: seq<Ip>, nfs: NfsMap, k: nat, rpc: Rpc)
    requires forall ip, h :: h in ContainersOf(machines, ip) ==> h.ip == ip
    ensures forall ip :: ip in Drops(machines, ips, nfs, k, rpc) ==> ip in ips
  {
    hide MachinesCost, MachineCost, Ids, ContainersOf;
    if ips != [] {
      var last := |ips| - 1;
      DropsStandOn(machines, ips[..last], nfs, k, rpc);
      assert ips[last] in ips;
    }
  }

  lemma DriveDeactivationNext(containers: seq<Host>, host: Host, cmds: seq<Command>, more: seq<Command>)
    requires DriveDeactivation(containers, cmds) && ForDrives(DrivesOf(host, false), false, more)
    ensures DriveDeactivation(containers + [host], cmds + more)
  {
    assert (containers + [host])[..|containers|] == containers;
    assert (cmds + more)[..|cmds|] == cmds && (cmds + more)[|cmds|..] == more;
  }

  lemma DeactivationNext(machines: MachineMap, ips: seq<Ip>, ip: Ip, nfs: NfsMap, cmds: seq<Command>,
                         more: seq<Command>)
    requires Deactivation(machines, ips, nfs, cmds) && MachineDeactivation(ContainersOf(machines, ip), nfs, more)
    ensures Deactivation(machines, ips + [ip], nfs, cmds + more)
  {
    assert (ips + [ip])[..|ips|] == ips;
    assert (cmds + more)[..|cmds|] == cmds && (cmds + more)[|cmds|..] == more;
  }

  /** A whole run: the machines in `removed` are removed, then those in `deactivated` are deactivated. */
  predicate RunCommands(machines: MachineMap, removed: seq<Ip>, deactivated: seq<Ip>, nfs: NfsMap, k: nat,
                        cmds: seq<Command>, rpc: Rpc)
  {
    var n := RemovalCost(machines, removed, k, rpc);
    && n <= |cmds|
    && MachinesRemoval(machines, removed, k, cmds[..n], rpc)
    && Deactivation(machines, deactivated, nfs, cmds[n..])
  }

  /** What a whole run drops from the pool: the machines it removes, and those it deactivates. */
  function RunDrops(machines: MachineMap, removed: seq<Ip>, deactivated: seq<Ip>, nfs: NfsMap, k: nat,
                    rpc: Rpc): seq<Ip>
  {
    removed + Drops(machines, deactivated, nfs, k + RemovalCost(machines, removed, k, rpc), rpc)
  }

  // ---- the machine deactivations among the commands --------------------------------------------------------

  /** The machine deactivations among the commands, in order. */
  function Deactivations(commands: seq<Command>): seq<seq<HostId>> {
    if commands == [] then []
    else
      var last := commands[|commands| - 1];
      Deactivations(commands[..|commands| - 1]) + if last.DeactivateHosts? then [last.hosts] else []
  }

  lemma {:induction false} DeactivationsConcat(a: seq<Command>, b: seq<Command>)
    ensures Deactivations(a + b) == Deactivations(a) + Deactivations(b)
  {
    if b == [] {
      assert a + b == a;
    } else {
      DeactivationsConcat(a, b[..|b| - 1]);
      assert (a + b)[..|a + b| - 1] == a + b[..|b| - 1];
    }
  }

  function IdsOf(machines: MachineMap, ips: seq<Ip>): seq<seq<HostId>> {
    seq(|ips|, i requires 0 <= i < |ips| => Ids(ContainersOf(machines, ips[i])))
  }

  lemma {:induction false} NoDeactivations(cmds: seq<Command>)
    requires forall c :: c in cmds ==> !c.DeactivateHosts?
    ensures Deactivations(cmds) == []
  {
    if cmds != [] {
      assert cmds[|cmds| - 1] in cmds;
      NoDeactivations(cmds[..|cmds| - 1]);
    }
  }

  // ---- what a command may touch ----------------------------------------------------------------------

  /** The removal of a container that its status allows to be removed, or of one of its drives. */
  predicate RemovesFrom(h: Host, c: Command) {
    && h.status == Inactive
    && ((c.RemoveHost? && c.host == h.id) || (c.RemoveDrive? && c.drive in h.drives))
  }

  predicate RemovesOneOf(containers: seq<Host>, c: Command) {
    exists h :: h in containers && RemovesFrom(h, c)
  }

  /** The deactivation of one of a container's active drives, or the deletion of its port. */
  predicate DeactivatesFrom(h: Host, nfs: NfsMap, c: Command) {
    || (c.DeactivateDrive? && c.drive in h.drives && h.drives[c.drive].shouldBeActive)
    || (h.id in nfs && c == DeletePort(nfs[h.id]))
  }

  predicate DeactivatesOneOf(containers: seq<Host>, nfs: NfsMap, c: Command) {
    exists h :: h in containers && DeactivatesFrom(h, nfs, c)
  }

  lemma HostRemovalTouches(host: Host, k: nat, cmds: seq<Command>, rpc: Rpc)
    requires HostRemoval(host, k, cmds, rpc)
    ensures forall c :: c in cmds ==> RemovesFrom(host, c)
  {
    if cmds != [] {
      assert cmds == [cmds[0]] + cmds[1..];
    }
  }

  lemma {:induction false} RemovalTouches(containers: seq<Host>, k: nat, cmds: seq<Command>, rpc: Rpc)
    requires Removal(containers, k, cmds, rpc)
    ensures forall c :: c in cmds ==> RemovesOneOf(containers, c)
  {
    hide RemovesFrom, HostRemoval, HostCost;
    if containers != [] {
      var last := |containers| - 1;
      var n := Cost(containers[..last], k, rpc);
      TwoParts(cmds, n);
      RemovalTouches(containers[..last], k, cmds[..n], rpc);
      HostRemovalTouches(containers[last], k + n, cmds[n..], rpc);
      assert containers[last] in containers;
    }
  }

  lemma MachinesRemovalSplits(machines: MachineMap, ips: seq<Ip>, k: nat, cmds: seq<Command>, rpc: Rpc) returns (n: nat)
    requires ips != [] && MachinesRemoval(machines, ips, k, cmds, rpc)
    ensures n <= |cmds| && cmds == cmds[..n] + cmds[n..]
    ensures MachinesRemoval(machines, ips[..|ips| - 1], k, cmds[..n], rpc)
    ensures Removal(ContainersOf(machines, ips[|ips| - 1]), k + n, cmds[n..], rpc)
  {
    hide Removal, Cost, ContainersOf;
    n := RemovalCost(machines, ips[..|ips| - 1], k, rpc);
    TwoParts(cmds, n);
  }

  predicate RemovesOn(machines: MachineMap, ips: seq<Ip>, c: Command) {
    exists ip :: ip in ips && RemovesOneOf(ContainersOf(machines, ip), c)
  }

  lemma {:induction false} MachinesRemovalTouches(machines: MachineMap, ips: seq<Ip>, k: nat, cmds: seq<Command>,
                                                  rpc: Rpc)
    requires MachinesRemoval(machines, ips, k, cmds, rpc)
    ensures forall c :: c in cmds ==> RemovesOn(machines, ips, c)
  {
    hide MachinesRemoval, RemovesOneOf, ContainersOf;
    if ips == [] {
      MachinesRemovalSize(machines, ips, k, cmds, rpc);
    } else {
      var last := |ips| - 1;
      var n := MachinesRemovalSplits(machines, ips, k, cmds, rpc);
      MachinesRemovalTouches(machines, ips[..last], k, cmds[..n], rpc);
      RemovalTouches(ContainersOf(machines, ips[last]), k + n, cmds[n..], rpc);
      assert ips[last] in ips;
    }
  }

  lemma {:induction false} DriveDeactivationTouches(containers: seq<Host>, nfs: NfsMap, cmds: seq<Command>)
    requires DriveDeactivation(containers, cmds)
    ensures forall c :: c in cmds ==> DeactivatesOneOf(containers, nfs, c) && !c.DeactivateHosts?
  {
    if containers != [] {
      var last := |containers| - 1;
      var n := NumDrives(containers[..last]);
      TwoParts(cmds, n);
      DriveDeactivationTouches(containers[..last], nfs, cmds[..n]);
      DrivesTouch(containers[last], nfs, cmds[n..]);
      hide DeactivatesFrom, ForDrives;
      assert containers[last] in containers;
    }
  }

  lemma DrivesTouch(host: Host, nfs: NfsMap, cmds: seq<Command>)
    requires ForDrives(DrivesOf(host, false), false, cmds)
    ensures forall c :: c in cmds ==> DeactivatesFrom(host, nfs, c) && !c.DeactivateHosts?
  {
  }

  lemma {:induction false} PortsTouch(containers: seq<Host>, nfs: NfsMap)
    ensures forall c :: c in Ports(containers, nfs) ==> DeactivatesOneOf(containers, nfs, c) && !c.DeactivateHosts?
  {
    if containers != [] {
      PortsTouch(containers[..|containers| - 1], nfs);
      assert containers[|containers| - 1] in containers;
    }
  }

  lemma MachineDeactivationTouches(containers: seq<Host>, nfs: NfsMap, cmds: seq<Command>)
    requires MachineDeactivation(containers, nfs, cmds)
    ensures cmds != [] && cmds[|cmds| - 1] == DeactivateHosts(Ids(containers))
    ensures forall c :: c in cmds[..|cmds| - 1] ==> DeactivatesOneOf(containers, nfs, c) && !c.DeactivateHosts?
  {
    var n, last := NumDrives(containers), |cmds| - 1;
    assert DriveDeactivation(containers, cmds[..n]) && cmds[n..last] == Ports(containers, nfs);
    hide DriveDeactivation, Ports, NumDrives, Ids, DeactivatesOneOf;
    DriveDeactivationTouches(containers, nfs, cmds[..n]);
    PortsTouch(containers, nfs);
    assert cmds[..last] == cmds[..n] + cmds[n..last];
  }

  predicate DeactivatesOn(machines: MachineMap, ips: seq<Ip>, nfs: NfsMap, c: Command) {
    exists ip :: ip in ips && DeactivatesMachine(ContainersOf(machines, ip), nfs, c)
  }

  predicate DeactivatesMachine(containers: seq<Host>, nfs: NfsMap, c: Command) {
    c == DeactivateHosts(Ids(containers)) || DeactivatesOneOf(containers, nfs, c)
  }

  lemma MachineTouches(containers: seq<Host>, nfs: NfsMap, cmds: seq<Command>)
    requires MachineDeactivation(containers, nfs, cmds)
    ensures forall c :: c in cmds ==> DeactivatesMachine(containers, nfs, c)
  {
    hide MachineDeactivation, DeactivatesOneOf, Ids;
    MachineDeactivationTouches(containers, nfs, cmds);
    TwoParts(cmds, |cmds| - 1);
  }

  lemma DeactivationSize(machines: MachineMap, ips: seq<Ip>, nfs: NfsMap, cmds: seq<Command>)
    requires Deactivation(machines, ips, nfs, cmds)
    ensures |cmds| == MachinesCost(machines, ips, nfs)
  {
  }

  lemma {:induction false} DeactivationTouches(machines: MachineMap, ips: seq<Ip>, nfs: NfsMap, cmds: seq<Command>)
    requires Deactivation(machines, ips, nfs, cmds)
    ensures forall c :: c in cmds ==> DeactivatesOn(machines, ips, nfs, c)
  {
    hide Deactivation, DeactivatesMachine, ContainersOf;
    if ips == [] {
      DeactivationSize(machines, ips, nfs, cmds);
    } else {
      var last := |ips| - 1;
      var n := DeactivationSplits(machines, ips, nfs, cmds);
      DeactivationTouches(machines, ips[..last], nfs, cmds[..n]);
      MachineTouches(ContainersOf(machines, ips[last]), nfs, cmds[n..]);
      assert ips[last] in ips;
    }
  }

  /** Every command of a run belongs to a machine that is removed or to one that is deactivated. */
  lemma RunTouches(machines: MachineMap, removed: seq<Ip>, deactivated: seq<Ip>, nfs: NfsMap, k: nat,
                   cmds: seq<Command>, rpc: Rpc)
    requires RunCommands(machines, removed, deactivated, nfs, k, cmds, rpc)
    ensures forall c :: c in cmds ==>
              RemovesOn(machines, removed, c) || DeactivatesOn(machines, deactivated, nfs, c)
  {
    hide *;
    var n := RunSplits(machines, removed, deactivated, nfs, k, cmds, rpc);
    MachinesRemovalTouches(machines, removed, k, cmds[..n], rpc);
    DeactivationTouches(machines, deactivated, nfs, cmds[n..]);
  }

  // ---- the machine deactivations, counted ------------------------------------------------------------

  lemma MachineDeactivatesOnce(containers: seq<Host>, nfs: NfsMap, cmds: seq<Command>)
    requires MachineDeactivation(containers, nfs, cmds)
    ensures Deactivations(cmds) == [Ids(containers)]
  {
    hide MachineDeactivation, Ids;
    MachineDeactivationTouches(containers, nfs, cmds);
    NoDeactivations(cmds[..|cmds| - 1]);
  }

  lemma DeactivationSplits(machines: MachineMap, ips: seq<Ip>, nfs: NfsMap, cmds: seq<Command>) returns (n: nat)
    requires ips != [] && Deactivation(machines, ips, nfs, cmds)
    ensures n <= |cmds| && cmds == cmds[..n] + cmds[n..]
    ensures Deactivation(machines, ips[..|ips| - 1], nfs, cmds[..n])
    ensures MachineDeactivation(ContainersOf(machines, ips[|ips| - 1]), nfs, cmds[n..])
  {
    hide MachineDeactivation, MachineCost, ContainersOf;
    n := MachinesCost(machines, ips[..|ips| - 1], nfs);
    TwoParts(cmds, n);
  }

  lemma {:induction false} DeactivationDeactivates(machines: MachineMap, ips: seq<Ip>, nfs: NfsMap, cmds: seq<Command>)
    requires Deactivation(machines, ips, nfs, cmds)
    ensures Deactivations(cmds) == IdsOf(machines, ips)
  {
    if ips != [] {
      hide *;
      var n := DeactivationSplits(machines, ips, nfs, cmds);
      DeactivationDeactivates(machines, ips[..|ips| - 1], nfs, cmds[..n]);
      MachineDeactivatesOnce(ContainersOf(machines, ips[|ips| - 1]), nfs, cmds[n..]);
      IdsOfNext(machines, ips);
      DeactivationsConcat(cmds[..n], cmds[n..]);
    }
  }

  lemma IdsOfNext(machines: MachineMap, ips: seq<Ip>)
    requires ips != []
    ensures IdsOf(machines, ips) == IdsOf(machines, ips[..|ips| - 1]) + [Ids(ContainersOf(machines, ips[|ips| - 1]))]
  {
  }

  lemma RemovalDeactivatesNone(machines: MachineMap, ips: seq<Ip>, k: nat, cmds: seq<Command>, rpc: Rpc)
    requires MachinesRemoval(machines, ips, k, cmds, rpc)
    ensures Deactivations(cmds) == []
  {
    hide MachinesRemoval;
    MachinesRemovalTouches(machines, ips, k, cmds, rpc);
    NoDeactivations(cmds);
  }

  /** A run asks exactly the machines of its list to deactivate, each once and with all its containers. */
  lemma RunDeactivatesExactly(machines: MachineMap, removed: seq<Ip>, deactivated: seq<Ip>, nfs: NfsMap, k: nat,
                              cmds: seq<Command>, rpc: Rpc)
    requires RunCommands(machines, removed, deactivated, nfs, k, cmds, rpc)
    ensures Deactivations(cmds) == IdsOf(machines, deactivated)
  {
    hide *;
    var n := RunSplits(machines, removed, deactivated, nfs, k, cmds, rpc);
    RemovalDeactivatesNone(machines, removed, k, cmds[..n], rpc);
    DeactivationDeactivates(machines, deactivated, nfs, cmds[n..]);
    DeactivationsConcat(cmds[..n], cmds[n..]);
  }

  lemma RunSplits(machines: MachineMap, removed: seq<Ip>, deactivated: seq<Ip>, nfs: NfsMap, k: nat,
                  cmds: seq<Command>, rpc: Rpc)
    returns (n: nat)
    requires RunCommands(machines, removed, deactivated, nfs, k, cmds, rpc)
    ensures n <= |cmds| && cmds == cmds[..n] + cmds[n..]
    ensures MachinesRemoval(machines, removed, k, cmds[..n], rpc) && Deactivation(machines, deactivated, nfs, cmds[n..])
  {
    hide MachinesRemoval, Deactivation, RemovalCost;
    n := RemovalCost(machines, removed, k, rpc);
    TwoParts(cmds, n);
  }
}
