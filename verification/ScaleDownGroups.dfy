/**
 The loops over the cluster's host map: grouping containers into machines, classifying them, scoring,
 sorting and counting them. Go visits map entries in an arbitrary order; every loop over a map here
 picks its next key nondeterministically, so what these methods ensure holds for every order.
 */
module ScaleDownGroups {
  import opened ScaleDownHosts
  import opened ScaleDownPlan

  type HostsMap = map<HostId, Host>

  /** Host maps are keyed by the hosts' own ids. */
  predicate WellKeyed(hosts: HostsMap) {
    forall id :: id in hosts ==> hosts[id].id == id
  }

  /** Containers are clients or backends. */
  predicate KnownModes(hosts: HostsMap) {
    forall id :: id in hosts ==> !hosts[id].mode.OtherMode?
  }

  predicate IsMember(hosts: HostsMap, h: Host) {
    h.id in hosts && hosts[h.id] == h
  }

  // ---- grouping ------------------------------------------------------------------------------------

  /** The backend containers of a machine among the given ids. */
  function Containers(hosts: HostsMap, ids: set<HostId>, ip: Ip): set<HostId> {
    set id | id in ids && id in hosts && hosts[id].mode.Backend? && hosts[id].ip == ip
  }

  type MachineMap = map<Ip, seq<Host>>

  /** A Go map lookup yields an empty list for a missing key. */
  function ContainersOf(machines: MachineMap, ip: Ip): seq<Host> {
    if ip in machines then machines[ip] else []
  }

  predicate UniqueIds(l: seq<Host>) {
    forall i, j :: 0 <= i < j < |l| ==> l[i].id != l[j].id
  }

  /** `machines` groups the backends among the given ids by IP, each exactly once. */
  predicate Groups(hosts: HostsMap, ids: set<HostId>, machines: MachineMap) {
    && (forall ip :: ip in machines ==> machines[ip] != [] && UniqueIds(machines[ip]))
    && (forall ip, h :: ip in machines && h in machines[ip] ==>
          h.id in ids && IsMember(hosts, h) && h.mode.Backend? && h.ip == ip)
    && (forall id :: id in ids && id in hosts && hosts[id].mode.Backend? ==>
          hosts[id].ip in machines && hosts[id] in machines[hosts[id].ip])
  }

  const MAX_CONTAINERS := 3

  /** A machine the planner refuses to work with: too many containers, or containers that disagree on
      the machine's identity. */
  predicate BadMachine(containers: seq<Host>) {
    |containers| > MAX_CONTAINERS || Disagree(containers)
  }

  predicate Disagree(containers: seq<Host>) {
    exists i, j :: 0 <= i < j < |containers| && containers[i].machineIdentifier != containers[j].machineIdentifier
  }

  function Identifiers(containers: seq<Host>): set<string> {
    set h | h in containers :: h.machineIdentifier
  }

  lemma HasTwo(ids: set<string>, a: string, b: string)
    requires a in ids && b in ids && a != b
    ensures |ids| > 1
  {
    assert ids == {a, b} + (ids - {a, b});
  }

  lemma ManyIdentifiers(containers: seq<Host>)
    ensures |Identifiers(containers)| > 1 <==> Disagree(containers)
  {
    var ids := Identifiers(containers);
    if Disagree(containers) {
      var i, j :| 0 <= i < j < |containers| && containers[i].machineIdentifier != containers[j].machineIdentifier;
      HasTwo(ids, containers[i].machineIdentifier, containers[j].machineIdentifier);
    } else if containers != [] {
      assert ids == {containers[0].machineIdentifier};
    }
  }

  method GroupBackends(hosts: HostsMap) returns (machines: MachineMap)
    requires WellKeyed(hosts)
    ensures Groups(hosts, hosts.Keys, machines)
  {
    hide ContainersOf, WellKeyed;
    machines := map[];
    var todo := hosts.Keys;
    while todo != {}
      invariant todo <= hosts.Keys
      invariant Groups(hosts, hosts.Keys - todo, machines)
      decreases todo
    {
      var id :| id in todo;
      GroupsNext(hosts, hosts.Keys - todo, id, machines);
      assert hosts.Keys - (todo - {id}) == hosts.Keys - todo + {id};
      todo := todo - {id};
      var host := hosts[id];
      hide Groups;
      if host.mode.Backend? {
        machines := machines[host.ip := ContainersOf(machines, host.ip) + [host]];
      }
    }
    assert hosts.Keys - todo == hosts.Keys;
  }

  lemma GroupsNext(hosts: HostsMap, visited: set<HostId>, id: HostId, machines: MachineMap)
    requires WellKeyed(hosts) && Groups(hosts, visited, machines) && id in hosts && id !in visited
    ensures var h := hosts[id];
            Groups(hosts, visited + {id},
                   if h.mode.Backend? then machines[h.ip := ContainersOf(machines, h.ip) + [h]] else machines)
  {
  }

  method GetMachineToHostMap(hosts: HostsMap) returns (machines: MachineMap, fatal: bool)
    requires WellKeyed(hosts)
    ensures Groups(hosts, hosts.Keys, machines)
    ensures fatal <==> exists ip :: ip in machines && BadMachine(machines[ip])
  {
    machines := GroupBackends(hosts);
    fatal := false;
    var ips := machines.Keys;
    while ips != {}
      invariant ips <= machines.Keys
      invariant fatal <==> exists ip :: ip in machines.Keys - ips && BadMachine(machines[ip])
      decreases ips
    {
      var ip :| ip in ips;
      ips := ips - {ip};
      ManyIdentifiers(machines[ip]);
      if |machines[ip]| > MAX_CONTAINERS || |Identifiers(machines[ip])| > 1 {
        assert BadMachine(machines[ip]);
        fatal := true;
      }
    }
  }

  /** Whatever order built it, a machine's list has exactly its backend containers. */
  lemma {:induction false} GroupIsExact(hosts: HostsMap, machines: MachineMap, ip: Ip)
    requires WellKeyed(hosts) && Groups(hosts, hosts.Keys, machines)
    ensures ip in machines <==> Containers(hosts, hosts.Keys, ip) != {}
    ensures ip in machines ==>
              |machines[ip]| == |Containers(hosts, hosts.Keys, ip)| &&
              forall id :: id in Containers(hosts, hosts.Keys, ip) <==> id in hosts && hosts[id] in machines[ip]
  {
    if ip in machines {
      var l := machines[ip];
      assert l[0] in l && l[0].id in Containers(hosts, hosts.Keys, ip);
      forall id
        ensures id in Containers(hosts, hosts.Keys, ip) <==> id in IdSet(l)
      {
        if id in IdSet(l) {
          var h :| h in l && h.id == id;
        }
      }
      assert IdSet(l) == Containers(hosts, hosts.Keys, ip);
      SizeOfIdSet(l);
    }
  }

  function IdSet(l: seq<Host>): set<HostId> {
    set h | h in l :: h.id
  }

  lemma LastIdIsNew(l: seq<Host>)
    requires l != [] && UniqueIds(l)
    ensures var front, id := l[..|l| - 1], l[|l| - 1].id;
            UniqueIds(front) && id !in IdSet(front) && IdSet(l) == IdSet(front) + {id}
  {
    assert forall h :: h in l <==> h in l[..|l| - 1] || h == l[|l| - 1];
  }

  lemma {:induction false} SizeOfIdSet(l: seq<Host>)
    requires UniqueIds(l)
    ensures |IdSet(l)| == |l|
  {
    if l != [] {
      LastIdIsNew(l);
      hide IdSet, UniqueIds;
      SizeOfIdSet(l[..|l| - 1]);
    }
  }

  // ---- inactive and down machines ---------------------------------------------------------------------

  predicate AllInactive(containers: seq<Host>) {
    forall h :: h in containers ==> h.state == INACTIVE
  }

  predicate AllDownOrInactive(containers: seq<Host>) {
    forall h :: h in containers ==> h.status == Down || h.state == INACTIVE
  }

  /** All containers of the machine, and at least one, are inactive. */
  predicate InactiveMachine(hosts: HostsMap, ip: Ip) {
    && (exists id :: id in hosts && hosts[id].mode.Backend? && hosts[id].ip == ip)
    && (forall id :: id in hosts && hosts[id].mode.Backend? && hosts[id].ip == ip ==> hosts[id].state == INACTIVE)
  }

  lemma AllInactiveIsInactiveMachine(hosts: HostsMap, machines: MachineMap, ip: Ip)
    requires Groups(hosts, hosts.Keys, machines)
    ensures InactiveMachine(hosts, ip) <==> ip in machines && AllInactive(machines[ip])
  {
    if ip in machines {
      assert machines[ip][0] in machines[ip];
    }
  }

  function InactiveIps(hosts: HostsMap): set<Ip> {
    set id | id in hosts && InactiveMachine(hosts, hosts[id].ip) :: hosts[id].ip
  }

  /** What the loops can tell about a host from its own state and its machine's list. */
  lemma InactiveIpsByHost(hosts: HostsMap, machines: MachineMap)
    requires Groups(hosts, hosts.Keys, machines) && KnownModes(hosts)
    ensures forall ip :: ip in InactiveIps(hosts) <==> InactiveMachine(hosts, ip)
    ensures forall id :: id in hosts && !hosts[id].mode.Client? ==>
              (hosts[id].ip in InactiveIps(hosts) <==>
                 hosts[id].state == INACTIVE && AllInactive(ContainersOf(machines, hosts[id].ip)))
  {
    forall id | id in hosts && !hosts[id].mode.Client?
      ensures hosts[id].ip in InactiveIps(hosts) <==>
                hosts[id].state == INACTIVE && AllInactive(ContainersOf(machines, hosts[id].ip))
    {
      AllInactiveIsInactiveMachine(hosts, machines, hosts[id].ip);
    }
  }

  /** A visited host is where it belongs: with its inactive machine, or among the rest. */
  predicate Placed(h: Host, expected: set<Ip>, inactive: set<Ip>, rest: seq<Host>) {
    if h.mode.Client? then h !in rest
    else if h.ip in expected then h.ip in inactive && h !in rest
    else h in rest
  }

  predicate GroupPlaced(hosts: HostsMap, visited: set<HostId>, expected: set<Ip>, inactive: set<Ip>, rest: seq<Host>)
    requires visited <= hosts.Keys
  {
    && inactive <= expected
    && forall id :: id in visited ==> Placed(hosts[id], expected, inactive, rest)
  }

  predicate RestOk(hosts: HostsMap, todo: set<HostId>, rest: seq<Host>) {
    && (forall h :: h in rest ==> IsMember(hosts, h) && h.id !in todo && !h.mode.Client?)
    && UniqueIds(rest)
  }

  lemma PlaceSkipped(hosts: HostsMap, todo: set<HostId>, id: HostId, expected: set<Ip>, inactive: set<Ip>,
                     rest: seq<Host>)
    requires id in todo && todo <= hosts.Keys && RestOk(hosts, todo, rest) && WellKeyed(hosts)
    requires GroupPlaced(hosts, hosts.Keys - todo, expected, inactive, rest)
    requires hosts[id].mode.Client? || hosts[id].ip in inactive
    ensures GroupPlaced(hosts, hosts.Keys - (todo - {id}), expected, inactive, rest)
  {
    assert hosts[id] !in rest;
  }

  lemma PlaceInactive(hosts: HostsMap, todo: set<HostId>, id: HostId, expected: set<Ip>, inactive: set<Ip>,
                      rest: seq<Host>)
    requires id in todo && todo <= hosts.Keys && RestOk(hosts, todo, rest) && WellKeyed(hosts)
    requires GroupPlaced(hosts, hosts.Keys - todo, expected, inactive, rest)
    requires hosts[id].ip in expected
    ensures GroupPlaced(hosts, hosts.Keys - (todo - {id}), expected, inactive + {hosts[id].ip}, rest)
  {
    assert hosts[id] !in rest;
  }

  lemma PlaceRest(hosts: HostsMap, todo: set<HostId>, id: HostId, expected: set<Ip>, inactive: set<Ip>, rest: seq<Host>)
    requires id in todo && todo <= hosts.Keys && RestOk(hosts, todo, rest) && WellKeyed(hosts)
    requires GroupPlaced(hosts, hosts.Keys - todo, expected, inactive, rest)
    requires !hosts[id].mode.Client? && hosts[id].ip !in expected
    ensures GroupPlaced(hosts, hosts.Keys - (todo - {id}), expected, inactive, rest + [hosts[id]])
  {
    forall other | other in hosts.Keys - todo
      ensures Placed(hosts[other], expected, inactive, rest + [hosts[id]])
    {
      assert Placed(hosts[other], expected, inactive, rest);
      assert hosts[other].id != hosts[id].id;
    }
  }

  predicate CarriesContainers(machines: MachineMap, inactive: MachineMap) {
    forall ip :: ip in inactive ==> inactive[ip] == ContainersOf(machines, ip) && AllInactive(inactive[ip])
  }

  /** The classification loop of a host group: inactive machines with their containers, and the hosts
      that are left. With known modes neither depends on the order in which the map is visited. */
  method ClassifyGroup(hosts: HostsMap, machines: MachineMap)
    returns (inactive: MachineMap, rest: seq<Host>)
    requires WellKeyed(hosts) && Groups(hosts, hosts.Keys, machines)
    ensures forall h :: h in rest ==> IsMember(hosts, h) && !h.mode.Client?
    ensures UniqueIds(rest)
    ensures CarriesContainers(machines, inactive)
    ensures KnownModes(hosts) ==> inactive.Keys == InactiveIps(hosts)
    ensures KnownModes(hosts) ==>
              forall id :: id in hosts ==>
                (hosts[id] in rest <==> !hosts[id].mode.Client? && hosts[id].ip !in InactiveIps(hosts))
  {
    hide *;
    ghost var known, expected := KnownModes(hosts), InactiveIps(hosts);
    if known {
      InactiveIpsByHost(hosts, machines);
    }
    inactive, rest := map[], [];
    var todo := hosts.Keys;
    NothingClassified(hosts, machines, expected);
    assert inactive.Keys == {};
    while todo != {}
      invariant todo <= hosts.Keys
      invariant RestOk(hosts, todo, rest)
      invariant CarriesContainers(machines, inactive)
      invariant known ==> GroupPlaced(hosts, hosts.Keys - todo, expected, inactive.Keys, rest)
      decreases todo
    {
      var id :| id in todo;
      var host := hosts[id];
      RestSkips(hosts, todo, id, rest);
      if host.mode.Client? || host.ip in inactive {
        if known {
          PlaceSkipped(hosts, todo, id, expected, inactive.Keys, rest);
        }
      } else if host.state == INACTIVE && AllInactive(ContainersOf(machines, host.ip)) {
        if known {
          PlaceInactive(hosts, todo, id, expected, inactive.Keys, rest);
        }
        CarriesNext(machines, inactive, host.ip);
        assert inactive[host.ip := ContainersOf(machines, host.ip)].Keys == inactive.Keys + {host.ip};
        inactive := inactive[host.ip := ContainersOf(machines, host.ip)];
      } else {
        if known {
          PlaceRest(hosts, todo, id, expected, inactive.Keys, rest);
        }
        RestTakes(hosts, todo, id, rest);
        rest := rest + [host];
      }
      todo := todo - {id};
    }
    RestIs(hosts, rest);
    if known {
      GroupFinished(hosts, expected, inactive.Keys, rest);
    }
  }

  lemma NothingClassified(hosts: HostsMap, machines: MachineMap, expected: set<Ip>)
    ensures RestOk(hosts, hosts.Keys, []) && CarriesContainers(machines, map[])
    ensures GroupPlaced(hosts, hosts.Keys - hosts.Keys, expected, {}, [])
  {
  }

  lemma RestSkips(hosts: HostsMap, todo: set<HostId>, id: HostId, rest: seq<Host>)
    requires RestOk(hosts, todo, rest)
    ensures RestOk(hosts, todo - {id}, rest)
  {
  }

  lemma RestTakes(hosts: HostsMap, todo: set<HostId>, id: HostId, rest: seq<Host>)
    requires WellKeyed(hosts) && RestOk(hosts, todo, rest) && id in todo && id in hosts && !hosts[id].mode.Client?
    ensures RestOk(hosts, todo - {id}, rest + [hosts[id]])
  {
  }

  lemma RestIs(hosts: HostsMap, rest: seq<Host>)
    requires RestOk(hosts, {}, rest)
    ensures UniqueIds(rest) && forall h :: h in rest ==> IsMember(hosts, h) && !h.mode.Client?
  {
  }

  lemma CarriesNext(machines: MachineMap, inactive: MachineMap, ip: Ip)
    requires CarriesContainers(machines, inactive) && AllInactive(ContainersOf(machines, ip))
    ensures CarriesContainers(machines, inactive[ip := ContainersOf(machines, ip)])
  {
  }

  lemma GroupFinished(hosts: HostsMap, expected: set<Ip>, inactive: set<Ip>, rest: seq<Host>)
    requires expected == InactiveIps(hosts)
    requires GroupPlaced(hosts, hosts.Keys - {}, expected, inactive, rest)
    ensures inactive == expected
    ensures forall id :: id in hosts ==>
              (hosts[id] in rest <==> !hosts[id].mode.Client? && hosts[id].ip !in expected)
  {
    InactiveIpsHaveHosts(hosts);
    forall id | id in hosts
      ensures Placed(hosts[id], expected, inactive, rest)
    {
      assert id in hosts.Keys - {};
    }
    assert forall ip :: ip in expected ==> ip in inactive;
  }

  lemma InactiveIpsHaveHosts(hosts: HostsMap)
    ensures forall ip :: ip in InactiveIps(hosts) ==>
            exists id :: id in hosts && !hosts[id].mode.Client? && hosts[id].ip == ip
  {
  }

  /** A machine with a container that is neither inactive nor reachable for too long, and no container
      that is up. */
  predicate DownMachine(hosts: HostsMap, ip: Ip, timeout: int, now: Time) {
    && (exists id :: id in hosts && KickedOut(hosts[id], ip, timeout, now))
    && (forall id :: id in hosts && hosts[id].mode.Backend? && hosts[id].ip == ip ==>
          hosts[id].status == Down || hosts[id].state == INACTIVE)
  }

  predicate KickedOut(h: Host, ip: Ip, timeout: int, now: Time) {
    h.mode.Backend? && h.ip == ip && TimedOutDown(h, timeout, now)
  }

  function DownIps(hosts: HostsMap, timeout: int, now: Time): set<Ip> {
    set id | id in hosts && DownMachine(hosts, hosts[id].ip, timeout, now) :: hosts[id].ip
  }

  lemma DownIsNotInactive(hosts: HostsMap, timeout: int, now: Time)
    ensures DownIps(hosts, timeout, now) !! InactiveIps(hosts)
  {
  }

  predicate TimedOutDown(h: Host, timeout: int, now: Time) {
    h.state != INACTIVE && h.status == Down && ManagementTimedOut(h, timeout, now)
  }

  lemma DownIpsByHost(hosts: HostsMap, machines: MachineMap, timeout: int, now: Time)
    requires Groups(hosts, hosts.Keys, machines) && KnownModes(hosts)
    ensures forall ip :: ip in DownIps(hosts, timeout, now) <==> DownMachine(hosts, ip, timeout, now)
    ensures forall id :: id in hosts && !hosts[id].mode.Client? && TimedOutDown(hosts[id], timeout, now) ==>
              (hosts[id].ip in DownIps(hosts, timeout, now) <==>
                  AllDownOrInactive(ContainersOf(machines, hosts[id].ip)))
    ensures forall ip :: ip in DownIps(hosts, timeout, now) ==>
              exists id :: id in hosts && !hosts[id].mode.Client? && hosts[id].ip == ip
                           && TimedOutDown(hosts[id], timeout, now)
  {
    forall id | id in hosts && !hosts[id].mode.Client? && TimedOutDown(hosts[id], timeout, now)
      ensures hosts[id].ip in DownIps(hosts, timeout, now) <==> AllDownOrInactive(ContainersOf(machines, hosts[id].ip))
    {
      assert KickedOut(hosts[id], hosts[id].ip, timeout, now);
    }
  }

  /** What the leftover loop has found so far. */
  datatype LeftOver = LeftOver(inactive: MachineMap, down: seq<Ip>, rest: seq<Host>, partlyDown: nat)

  /** One visit of the leftover loop. */
  function Visit(host: Host, machines: MachineMap, s: LeftOver, timeout: int, now: Time): LeftOver {
    var containers := ContainersOf(machines, host.ip);
    if host.mode.Client? || host.ip in s.inactive || host.ip in s.down then s
    else if host.state == INACTIVE then
      if AllInactive(containers) then s.(inactive := s.inactive[host.ip := containers]) else s
    else if !TimedOutDown(host, timeout, now) then s.(rest := s.rest + [host])
    else if AllDownOrInactive(containers) then s.(down := s.down + [host.ip])
    else s.(partlyDown := s.partlyDown + 1)
  }

  /** What holds of the findings in any case. */
  ghost predicate LeftOverSound(hosts: HostsMap, machines: MachineMap, visited: set<HostId>, s: LeftOver,
                                timeout: int, now: Time)
  {
    && CarriesContainers(machines, s.inactive)
    && NoDuplicates(s.down) && SetOf(s.down) !! s.inactive.Keys
    && UniqueIds(s.rest)
    && forall h :: h in s.rest ==> IsMember(hosts, h) && h.id in visited && Stays(h, timeout, now)
  }

  /** A leftover host that is reported unless its machine is found to be down first. */
  predicate Stays(h: Host, timeout: int, now: Time) {
    !h.mode.Client? && h.state != INACTIVE && !TimedOutDown(h, timeout, now)
  }

  /** The hosts that are down for too long on machines that are not down as a whole. */
  function PartlyDown(hosts: HostsMap, visited: set<HostId>, timeout: int, now: Time): set<HostId> {
    set id | id in visited && id in hosts && IsPartlyDown(hosts, hosts[id], timeout, now)
  }

  predicate IsPartlyDown(hosts: HostsMap, h: Host, timeout: int, now: Time) {
    !h.mode.Client? && TimedOutDown(h, timeout, now) && h.ip !in DownIps(hosts, timeout, now)
  }

  /** What is known about the visited hosts when modes are known. */
  ghost predicate LeftOverExact(hosts: HostsMap, visited: set<HostId>, s: LeftOver, timeout: int, now: Time) {
    && s.inactive.Keys <= InactiveIps(hosts) && SetOf(s.down) <= DownIps(hosts, timeout, now)
    && s.partlyDown == |PartlyDown(hosts, visited, timeout, now)|
    && forall id :: id in visited && id in hosts ==>
         HostExact(hosts[id], s, InactiveIps(hosts), DownIps(hosts, timeout, now), timeout, now)
  }

  predicate HostExact(h: Host, s: LeftOver, inactive: set<Ip>, down: set<Ip>, timeout: int, now: Time) {
    !h.mode.Client? ==>
      && (h.ip in inactive ==> h.ip in s.inactive)
      && (TimedOutDown(h, timeout, now) && h.ip in down ==> h.ip in s.down)
      && (Stays(h, timeout, now) && h.ip !in down ==> h in s.rest)
  }

  lemma VisitKeepsSound(hosts: HostsMap, machines: MachineMap, visited: set<HostId>, id: HostId, s: LeftOver,
                        timeout: int, now: Time)
    requires WellKeyed(hosts) && id in hosts && id !in visited
    requires LeftOverSound(hosts, machines, visited, s, timeout, now)
    ensures LeftOverSound(hosts, machines, visited + {id}, Visit(hosts[id], machines, s, timeout, now), timeout, now)
  {
    hide TimedOutDown, AllDownOrInactive;
    var h := hosts[id];
    if h.ip !in s.down {
      AppendedIp(s.down, h.ip);
      hide NoDuplicates, SetOf;
    }
  }

  /** What the loop can tell of a host from the host itself and its machine's list. */
  lemma LeftOverByHost(hosts: HostsMap, machines: MachineMap, id: HostId, timeout: int, now: Time)
    requires Groups(hosts, hosts.Keys, machines) && KnownModes(hosts) && id in hosts && !hosts[id].mode.Client?
    ensures var h, containers := hosts[id], ContainersOf(machines, hosts[id].ip);
            && (h.ip in InactiveIps(hosts) <==> h.state == INACTIVE && AllInactive(containers))
            && (TimedOutDown(h, timeout, now) ==>
                (h.ip in DownIps(hosts, timeout, now) <==> AllDownOrInactive(containers)))
            && (h.ip in InactiveIps(hosts) ==> h.ip !in DownIps(hosts, timeout, now))
  {
    InactiveIpsByHost(hosts, machines);
    DownIpsByHost(hosts, machines, timeout, now);
    DownIsNotInactive(hosts, timeout, now);
  }

  lemma PartlyDownNext(hosts: HostsMap, visited: set<HostId>, id: HostId, timeout: int, now: Time)
    requires id in hosts && id !in visited
    ensures |PartlyDown(hosts, visited + {id}, timeout, now)| ==
            |PartlyDown(hosts, visited, timeout, now)| + if IsPartlyDown(hosts, hosts[id], timeout, now) then 1 else 0
  {
    hide IsPartlyDown;
    if IsPartlyDown(hosts, hosts[id], timeout, now) {
      assert PartlyDown(hosts, visited + {id}, timeout, now) == PartlyDown(hosts, visited, timeout, now) + {id};
    } else {
      assert PartlyDown(hosts, visited + {id}, timeout, now) == PartlyDown(hosts, visited, timeout, now);
    }
  }

  lemma VisitIsExact(hosts: HostsMap, machines: MachineMap, id: HostId, s: LeftOver, timeout: int, now: Time)
    requires Groups(hosts, hosts.Keys, machines) && KnownModes(hosts) && id in hosts
    requires s.inactive.Keys <= InactiveIps(hosts) && SetOf(s.down) <= DownIps(hosts, timeout, now)
    ensures var h, s' := hosts[id], Visit(hosts[id], machines, s, timeout, now);
            && s'.inactive.Keys <= InactiveIps(hosts) && SetOf(s'.down) <= DownIps(hosts, timeout, now)
            && s.inactive.Keys <= s'.inactive.Keys && SetOf(s.down) <= SetOf(s'.down)
            && (forall r :: r in s.rest ==> r in s'.rest)
            && s'.partlyDown == s.partlyDown + (if IsPartlyDown(hosts, h, timeout, now) then 1 else 0)
            && HostExact(h, s', InactiveIps(hosts), DownIps(hosts, timeout, now), timeout, now)
  {
    var h := hosts[id];
    if !h.mode.Client? {
      LeftOverByHost(hosts, machines, id, timeout, now);
    }
    assert h.ip in s.down ==> h.ip in SetOf(s.down);
    hide Groups, KnownModes, InactiveIps, DownIps, ManagementTimedOut, AllInactive, AllDownOrInactive, ContainersOf;
  }

  lemma VisitKeepsExact(hosts: HostsMap, machines: MachineMap, visited: set<HostId>, id: HostId, s: LeftOver,
                        timeout: int, now: Time)
    requires Groups(hosts, hosts.Keys, machines) && KnownModes(hosts) && id in hosts && id !in visited
    requires LeftOverExact(hosts, visited, s, timeout, now)
    ensures LeftOverExact(hosts, visited + {id}, Visit(hosts[id], machines, s, timeout, now), timeout, now)
  {
    hide Groups, KnownModes, Visit, InactiveIps, DownIps, PartlyDown, IsPartlyDown, TimedOutDown, Stays;
    VisitIsExact(hosts, machines, id, s, timeout, now);
    PartlyDownNext(hosts, visited, id, timeout, now);
    var s' := Visit(hosts[id], machines, s, timeout, now);
    forall other | other in visited && other in hosts
      ensures HostExact(hosts[other], s', InactiveIps(hosts), DownIps(hosts, timeout, now), timeout, now)
    {
      HostStaysExact(hosts[other], s, s', InactiveIps(hosts), DownIps(hosts, timeout, now), timeout, now);
    }
  }

  lemma HostStaysExact(h: Host, s: LeftOver, s': LeftOver, inactive: set<Ip>, down: set<Ip>, timeout: int, now: Time)
    requires HostExact(h, s, inactive, down, timeout, now)
    requires s.inactive.Keys <= s'.inactive.Keys && SetOf(s.down) <= SetOf(s'.down)
    requires forall r :: r in s.rest ==> r in s'.rest
    ensures HostExact(h, s', inactive, down, timeout, now)
  {
    hide TimedOutDown;
    assert h.ip in s.down ==> h.ip in SetOf(s.down);
  }

  lemma AppendedIp(down: seq<Ip>, ip: Ip)
    requires NoDuplicates(down) && ip !in down
    ensures NoDuplicates(down + [ip]) && SetOf(down + [ip]) == SetOf(down) + {ip}
  {
  }

  method VisitLeftOver(host: Host, machines: MachineMap, s: LeftOver, timeout: int, now: Time) returns (s': LeftOver)
    ensures s' == Visit(host, machines, s, timeout, now)
  {
    s' := s;
    if host.mode.Client? || host.ip in s.inactive || host.ip in s.down {
      return;
    }
    if host.state == INACTIVE {
      if AllInactive(ContainersOf(machines, host.ip)) {
        s' := s.(inactive := s.inactive[host.ip := ContainersOf(machines, host.ip)]);
      }
    } else if host.status == Down {
      if ManagementTimedOut(host, timeout, now) {
        if !AllDownOrInactive(ContainersOf(machines, host.ip)) {
          s' := s.(partlyDown := s.partlyDown + 1);
          return;
        }
        s' := s.(down := s.down + [host.ip]);
      } else {
        s' := s.(rest := s.rest + [host]);
      }
    } else {
      s' := s.(rest := s.rest + [host]);
    }
  }

  /** The result of the loop when modes are known. Hosts that stay are listed unless their machine is down;
      whether those on a down machine are listed depends on the order. */
  ghost predicate LeftOverResult(hosts: HostsMap, s: LeftOver, timeout: int, now: Time) {
    && s.inactive.Keys == InactiveIps(hosts)
    && SetOf(s.down) == DownIps(hosts, timeout, now)
    && s.partlyDown == |PartlyDown(hosts, hosts.Keys, timeout, now)|
    && forall id :: id in hosts && Stays(hosts[id], timeout, now) && hosts[id].ip !in DownIps(hosts, timeout, now) ==>
         hosts[id] in s.rest
  }

  lemma LeftOverFinished(hosts: HostsMap, machines: MachineMap, s: LeftOver, timeout: int, now: Time)
    requires Groups(hosts, hosts.Keys, machines) && KnownModes(hosts)
    requires LeftOverExact(hosts, hosts.Keys, s, timeout, now)
    ensures LeftOverResult(hosts, s, timeout, now)
  {
    hide Groups, KnownModes, InactiveIps, DownIps, PartlyDown, TimedOutDown;
    InactiveIpsHaveHosts(hosts);
    DownIpsByHost(hosts, machines, timeout, now);
    forall ip | ip in InactiveIps(hosts) ensures ip in s.inactive {
      var id :| id in hosts && !hosts[id].mode.Client? && hosts[id].ip == ip;
      assert HostExact(hosts[id], s, InactiveIps(hosts), DownIps(hosts, timeout, now), timeout, now);
    }
    forall ip | ip in DownIps(hosts, timeout, now) ensures ip in SetOf(s.down) {
      var id :| id in hosts && !hosts[id].mode.Client? && hosts[id].ip == ip && TimedOutDown(hosts[id], timeout, now);
      assert HostExact(hosts[id], s, InactiveIps(hosts), DownIps(hosts, timeout, now), timeout, now);
    }
  }

  lemma NothingFound(hosts: HostsMap, machines: MachineMap, timeout: int, now: Time)
    ensures LeftOverSound(hosts, machines, {}, LeftOver(map[], [], [], 0), timeout, now)
    ensures LeftOverExact(hosts, {}, LeftOver(map[], [], [], 0), timeout, now)
  {
    assert PartlyDown(hosts, {}, timeout, now) == {};
  }

  /** The classification loop for leftover hosts. With known modes the inactive machines, the set of down
      machines and the number of errors do not depend on the order; inactive and down machines do not
      overlap and no machine is listed twice. */
  method ClassifyLeftOver(hosts: HostsMap, machines: MachineMap, timeout: int, now: Time) returns (s: LeftOver)
    requires WellKeyed(hosts) && Groups(hosts, hosts.Keys, machines)
    ensures LeftOverSound(hosts, machines, hosts.Keys, s, timeout, now)
    ensures KnownModes(hosts) ==> LeftOverResult(hosts, s, timeout, now)
  {
    hide *;
    s := LeftOver(map[], [], [], 0);
    var todo := hosts.Keys;
    ghost var visited: set<HostId> := {};
    NothingFound(hosts, machines, timeout, now);
    while todo != {}
      invariant todo <= hosts.Keys && visited == hosts.Keys - todo
      invariant LeftOverSound(hosts, machines, visited, s, timeout, now)
      invariant KnownModes(hosts) ==> LeftOverExact(hosts, visited, s, timeout, now)
      decreases todo
    {
      var id :| id in todo;
      VisitKeepsSound(hosts, machines, visited, id, s, timeout, now);
      if KnownModes(hosts) {
        VisitKeepsExact(hosts, machines, visited, id, s, timeout, now);
      }
      s := VisitLeftOver(hosts[id], machines, s, timeout, now);
      todo, visited := todo - {id}, visited + {id};
    }
    assert visited == hosts.Keys;
    if KnownModes(hosts) {
      LeftOverFinished(hosts, machines, s, timeout, now);
    }
  }

  // ---- scoring, sorting, collecting -----------------------------------------------------------------------

  method CalculateHostsState(hosts: seq<Host>, now: Time) returns (scored: seq<Scored>)
    ensures |scored| == |hosts|
    ensures forall i :: 0 <= i < |hosts| ==> scored[i] == Scored(hosts[i], DeriveHostState(hosts[i], now))
  {
    scored := [];
    for i := 0 to |hosts|
      invariant |scored| == i
      invariant forall j :: 0 <= j < i ==> scored[j] == Scored(hosts[j], DeriveHostState(hosts[j], now))
    {
      scored := scored + [Scored(hosts[i], DeriveHostState(hosts[i], now))];
    }
  }

  lemma BeforeIsTransitive(a: Scored, b: Scored, c: Scored, now: Time)
    requires Before(a, b, now) && Before(b, c, now)
    ensures Before(a, c, now)
  {
  }

  /** Stands for the library sort: some order-respecting permutation. */
  method SortHosts(l: seq<Scored>, now: Time) returns (sorted: seq<Scored>)
    ensures multiset(sorted) == multiset(l)
    ensures IsSorted(sorted, now)
  {
    sorted := [];
    for i := 0 to |l|
      invariant multiset(sorted) == multiset(l[..i])
      invariant IsSorted(sorted, now)
    {
      assert l[..i + 1] == l[..i] + [l[i]];
      sorted := InsertSorted(sorted, l[i], now);
    }
    assert l[..|l|] == l;
  }

  lemma InsertKeepsSorted(l: seq<Scored>, p: nat, x: Scored, now: Time)
    requires IsSorted(l, now) && p <= |l|
    requires forall j :: 0 <= j < p ==> !Before(x, l[j], now)
    requires p < |l| ==> Before(x, l[p], now)
    ensures IsSorted(l[..p] + [x] + l[p..], now)
  {
    forall j | p <= j < |l|
      ensures !Before(l[j], x, now)
    {
      if Before(l[j], x, now) && p < j {
        BeforeIsTransitive(l[j], x, l[p], now);
      }
    }
  }

  method InsertSorted(l: seq<Scored>, x: Scored, now: Time) returns (r: seq<Scored>)
    requires IsSorted(l, now)
    ensures multiset(r) == multiset(l) + multiset{x}
    ensures IsSorted(r, now)
  {
    var p := 0;
    while p < |l| && !Before(x, l[p], now)
      invariant p <= |l|
      invariant forall j :: 0 <= j < p ==> !Before(x, l[j], now)
    {
      p := p + 1;
    }
    InsertKeepsSorted(l, p, x, now);
    assert l == l[..p] + l[p..];
    r := l[..p] + [x] + l[p..];
  }

  method CollectIps(l: seq<Scored>) returns (ips: seq<Ip>)
    ensures ips == FirstIps(l)
  {
    ips := [];
    var seen := {};
    for i := 0 to |l|
      invariant ips == FirstIps(l[..i])
      invariant seen == SetOf(ips)
    {
      assert l[..i + 1][..i] == l[..i];
      var ip := l[i].host.ip;
      if ip !in seen {
        seen := seen + {ip};
        ips := ips + [ip];
      }
    }
    assert l[..|l|] == l;
  }

  // ---- counting machines ---------------------------------------------------------------------------------

  datatype MachineState = MachineState(healthy: nat, unhealthy: nat, deactivating: nat)

  function CountAt(l: seq<Scored>, ip: Ip, scale: ScaleState): nat {
    if l == [] then 0
    else
      var last := l[|l| - 1];
      CountAt(l[..|l| - 1], ip, scale)
      + if !last.host.mode.Client? && last.host.ip == ip && last.scale == scale then 1 else 0
  }

  function TallyOf(l: seq<Scored>, ip: Ip): MachineState {
    MachineState(CountAt(l, ip, Healthy), CountAt(l, ip, Unhealthy), CountAt(l, ip, Deactivating))
  }

  lemma {:induction false} CountMeansHas(l: seq<Scored>, ip: Ip, scale: ScaleState)
    ensures CountAt(l, ip, scale) > 0 <==> Has(l, ip, scale)
  {
    if l != [] {
      var front, last := l[..|l| - 1], l[|l| - 1];
      assert l == front + [last];
      CountMeansHas(front, ip, scale);
      if Has(l, ip, scale) && !Has(front, ip, scale) {
        var h :| h in l && !h.host.mode.Client? && h.host.ip == ip && h.scale == scale;
        assert h == last;
      }
    }
  }

  function Plus(t: MachineState, scale: ScaleState): MachineState {
    match scale
    case Healthy => t.(healthy := t.healthy + 1)
    case Unhealthy => t.(unhealthy := t.unhealthy + 1)
    case Deactivating => t.(deactivating := t.deactivating + 1)
  }

  lemma TallyNext(l: seq<Scored>, i: nat)
    requires i < |l|
    ensures var h := l[i];
            && Machines(l[..i + 1]) == Machines(l[..i]) + (if h.host.mode.Client? then {} else {h.host.ip})
            && forall ip :: TallyOf(l[..i + 1], ip) ==
                 if h.host.mode.Client? || h.host.ip != ip then TallyOf(l[..i], ip)
                 else Plus(TallyOf(l[..i], ip), h.scale)
  {
    assert l[..i + 1][..i] == l[..i];
    assert l[..i + 1] == l[..i] + [l[i]];
  }

  function TallyAt(tallies: map<Ip, MachineState>, ip: Ip): MachineState {
    if ip in tallies then tallies[ip] else MachineState(0, 0, 0)
  }

  /** The machines of the list, each with its containers counted by state. */
  ghost predicate Tallied(l: seq<Scored>, tallies: map<Ip, MachineState>) {
    tallies.Keys == Machines(l) && forall ip :: TallyAt(tallies, ip) == TallyOf(l, ip)
  }

  lemma TalliedNext(l: seq<Scored>, i: nat, before: map<Ip, MachineState>, after: map<Ip, MachineState>)
    requires i < |l| && Tallied(l[..i], before)
    requires var host, ip := l[i].host, l[i].host.ip;
             after == if host.mode.Client? then before else before[ip := Plus(TallyAt(before, ip), l[i].scale)]
    ensures Tallied(l[..i + 1], after)
  {
    TallyNext(l, i);
    hide Machines;
    forall ip
      ensures TallyAt(after, ip) == TallyOf(l[..i + 1], ip)
    {
      assert TallyAt(before, ip) == TallyOf(l[..i], ip);
    }
  }

  method TallyMachines(l: seq<Scored>) returns (tallies: map<Ip, MachineState>)
    ensures tallies.Keys == Machines(l)
    ensures forall ip :: ip in tallies ==> tallies[ip] == TallyOf(l, ip)
  {
    tallies := map[];
    for i := 0 to |l|
      invariant Tallied(l[..i], tallies)
    {
      hide Tallied, TallyOf;
      var host := l[i];
      ghost var before := tallies;
      if !host.host.mode.Client? {
        var ip := host.host.ip;
        var t := if ip in tallies then tallies[ip] else MachineState(0, 0, 0);
        match host.scale {
          case Healthy => t := t.(healthy := t.healthy + 1);
          case Unhealthy => t := t.(unhealthy := t.unhealthy + 1);
          case Deactivating => t := t.(deactivating := t.deactivating + 1);
        }
        tallies := tallies[ip := t];
      }
      TalliedNext(l, i, before, tallies);
    }
    assert l[..|l|] == l;
    assert forall ip :: ip in tallies ==> tallies[ip] == TallyAt(tallies, ip);
  }

  lemma TalliesClassify(l: seq<Scored>, tallies: map<Ip, MachineState>)
    requires tallies.Keys == Machines(l)
    requires forall ip :: ip in tallies ==> tallies[ip] == TallyOf(l, ip)
    ensures forall ip :: ip in tallies ==>
              && (ip in UnhealthyMachines(l) <==> tallies[ip].unhealthy > 0)
              && (ip in DeactivatingMachines(l) <==> tallies[ip].unhealthy == 0 && tallies[ip].deactivating > 0)
              && (ip in HealthyMachines(l) <==> tallies[ip].unhealthy == 0 && tallies[ip].deactivating == 0)
  {
    forall ip | ip in tallies
      ensures tallies[ip].unhealthy > 0 <==> Has(l, ip, Unhealthy)
      ensures tallies[ip].deactivating > 0 <==> Has(l, ip, Deactivating)
    {
      CountMeansHas(l, ip, Unhealthy);
      CountMeansHas(l, ip, Deactivating);
    }
  }

  /** How many keys have a tally of each kind, whatever order they are visited in. */
  method CountKinds(tallies: map<Ip, MachineState>, ghost healthy: set<Ip>, ghost unhealthy: set<Ip>,
                    ghost deactivating: set<Ip>)
    returns (nHealthy: nat, nUnhealthy: nat, nDeactivating: nat)
    requires healthy <= tallies.Keys && unhealthy <= tallies.Keys && deactivating <= tallies.Keys
    requires forall ip :: ip in tallies ==>
               && (ip in unhealthy <==> tallies[ip].unhealthy > 0)
               && (ip in deactivating <==> tallies[ip].unhealthy == 0 && tallies[ip].deactivating > 0)
               && (ip in healthy <==> tallies[ip].unhealthy == 0 && tallies[ip].deactivating == 0)
    ensures nHealthy == |healthy| && nUnhealthy == |unhealthy| && nDeactivating == |deactivating|
  {
    nHealthy, nUnhealthy, nDeactivating := 0, 0, 0;
    var todo := tallies.Keys;
    NoneVisited(healthy, todo);
    NoneVisited(unhealthy, todo);
    NoneVisited(deactivating, todo);
    while todo != {}
      invariant todo <= tallies.Keys
      invariant nHealthy == Visited(healthy, todo)
      invariant nUnhealthy == Visited(unhealthy, todo)
      invariant nDeactivating == Visited(deactivating, todo)
      decreases todo
    {
      var ip :| ip in todo;
      VisitOne(healthy, todo, ip);
      VisitOne(unhealthy, todo, ip);
      VisitOne(deactivating, todo, ip);
      todo := todo - {ip};
      if tallies[ip].unhealthy > 0 {
        nUnhealthy := nUnhealthy + 1;
      } else if tallies[ip].deactivating > 0 {
        nDeactivating := nDeactivating + 1;
      } else {
        nHealthy := nHealthy + 1;
      }
    }
    AllVisited(healthy);
    AllVisited(unhealthy);
    AllVisited(deactivating);
  }

  /** How many of a kind are no longer to be visited. */
  function Visited(kind: set<Ip>, todo: set<Ip>): nat {
    |kind - todo|
  }

  lemma NoneVisited(kind: set<Ip>, todo: set<Ip>)
    requires kind <= todo
    ensures Visited(kind, todo) == 0
  {
    assert kind - todo == {};
  }

  lemma VisitOne(kind: set<Ip>, todo: set<Ip>, ip: Ip)
    requires ip in todo
    ensures Visited(kind, todo - {ip}) == Visited(kind, todo) + if ip in kind then 1 else 0
  {
    if ip in kind {
      assert kind - (todo - {ip}) == (kind - todo) + {ip};
    } else {
      assert kind - (todo - {ip}) == kind - todo;
    }
  }

  lemma AllVisited(kind: set<Ip>)
    ensures Visited(kind, {}) == |kind|
  {
    assert kind - {} == kind;
  }

  /** The count behind the plan. */
  method GetNumToDeactivate(l: seq<Scored>, desired: int) returns (n: int)
    ensures n == Target(l, desired)
  {
    var tallies := TallyMachines(l);
    TalliesClassify(l, tallies);
    var nHealthy, nUnhealthy, nDeactivating :=
      CountKinds(tallies, HealthyMachines(l), UnhealthyMachines(l), DeactivatingMachines(l));
    n := CalculateDeactivateTarget(nHealthy, nUnhealthy, nDeactivating, desired);
  }
}
