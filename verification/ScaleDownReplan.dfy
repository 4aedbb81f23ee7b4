/**
 Runs of the planner on one host map after another: what a run picks after the machines of the run
 before it were asked to deactivate, and what is left when marked machines are removed.
 */
module ScaleDownReplan {
  import opened GoMath
  import opened ScaleDown
  import opened ScaleDownGroups
  import opened ScaleDownHosts
  import opened ScaleDownPlan
  import opened ScaleDownRounds

  // ---- the hosts of the next run ----------------------------------------------------------------------

  /** A container that was asked to deactivate. */
  predicate WentOut(h: Host, h': Host, now: Time) {
    SameContainer(h, h', now) && h'.state in {DEACTIVATING, REMOVING, INACTIVE}
  }

  /** The next host map: the containers of the chosen machines are on their way out, none of these
      machines is gone yet, and nothing else has changed. */
  ghost predicate Deactivated(hosts: HostsMap, chosen: set<Ip>, hosts': HostsMap, now: Time) {
    && hosts'.Keys == hosts.Keys
    && (forall id :: id in hosts ==>
          if !hosts[id].mode.Client? && hosts[id].ip in chosen then WentOut(hosts[id], hosts'[id], now)
          else hosts'[id] == hosts[id])
    && forall ip :: ip in chosen ==> !InactiveMachine(hosts', ip)
  }

  /** In particular when the state of these containers is set and nothing else. */
  function MarkedMap(hosts: HostsMap, chosen: set<Ip>): HostsMap {
    map id | id in hosts ::
      if !hosts[id].mode.Client? && hosts[id].ip in chosen then hosts[id].(state := DEACTIVATING) else hosts[id]
  }

  lemma MarkedMapIsDeactivated(hosts: HostsMap, chosen: set<Ip>, now: Time)
    ensures Deactivated(hosts, chosen, MarkedMap(hosts, chosen), now)
  {
    var hosts' := MarkedMap(hosts, chosen);
    forall id | id in hosts
      ensures NumNotHealthyDrives(hosts'[id], now) == NumNotHealthyDrives(hosts[id], now)
    {
      assert UnhealthyDrives(hosts'[id], now) == UnhealthyDrives(hosts[id], now);
    }
    forall ip | ip in chosen
      ensures !InactiveMachine(hosts', ip)
    {
      if id :| id in hosts' && hosts'[id].mode.Backend? && hosts'[id].ip == ip {
        assert hosts'[id].state != INACTIVE;
      }
    }
  }

  lemma DeactivatedModes(hosts: HostsMap, chosen: set<Ip>, hosts': HostsMap, now: Time)
    requires KnownModes(hosts) && WellKeyed(hosts) && Deactivated(hosts, chosen, hosts', now)
    ensures KnownModes(hosts') && WellKeyed(hosts')
  {
  }

  lemma DeactivatedInactive(hosts: HostsMap, chosen: set<Ip>, hosts': HostsMap, now: Time, ip: Ip)
    requires KnownModes(hosts) && Deactivated(hosts, chosen, hosts', now) && chosen !! InactiveIps(hosts)
    ensures ip in InactiveIps(hosts') <==> ip in InactiveIps(hosts)
  {
    if ip in InactiveIps(hosts) {
      assert InactiveMachine(hosts', ip);
      var id :| id in hosts && hosts[id].mode.Backend? && hosts[id].ip == ip;
      assert hosts'[id].ip == ip;
    }
    if ip in InactiveIps(hosts') {
      assert InactiveMachine(hosts, ip);
      var id :| id in hosts' && hosts'[id].mode.Backend? && hosts'[id].ip == ip;
      assert hosts[id].ip == ip;
    }
  }

  lemma DeactivatedState(hosts: HostsMap, chosen: set<Ip>, hosts': HostsMap, now: Time, id: HostId)
    requires Deactivated(hosts, chosen, hosts', now) && id in hosts && !hosts[id].mode.Client?
    ensures Follows(Scored(hosts[id], DeriveHostState(hosts[id], now)),
                    Scored(hosts'[id], DeriveHostState(hosts'[id], now)), chosen, now)
  {
    if hosts[id].ip in chosen {
      DeactivatedIsDerived(hosts'[id], now);
    }
  }

  /** The rankings of the two runs are related as the theorems on lists ask for. */
  lemma RankingIsRemarked(hosts: HostsMap, l: seq<Scored>, chosen: set<Ip>, hosts': HostsMap, l': seq<Scored>,
                          now: Time)
    requires KnownModes(hosts) && WellKeyed(hosts) && IsRanking(hosts, l, now) && chosen <= Machines(l)
    requires Deactivated(hosts, chosen, hosts', now) && IsRanking(hosts', l', now)
    ensures Remarked(l, chosen, l', now)
  {
    assert chosen !! InactiveIps(hosts);
    forall h | h in l
      ensures HasFollower(h, chosen, l', now)
    {
      var id := h.host.id;
      DeactivatedState(hosts, chosen, hosts', now, id);
      DeactivatedInactive(hosts, chosen, hosts', now, h.host.ip);
      assert Scored(hosts'[id], DeriveHostState(hosts'[id], now)) in l';
    }
    forall h' | h' in l'
      ensures IsFollower(l, chosen, h', now)
    {
      var id := h'.host.id;
      DeactivatedState(hosts, chosen, hosts', now, id);
      DeactivatedInactive(hosts, chosen, hosts', now, h'.host.ip);
      assert Scored(hosts[id], DeriveHostState(hosts[id], now)) in l;
    }
  }

  lemma PermutationIsRanking(hosts: HostsMap, l: seq<Scored>, l': seq<Scored>, now: Time)
    requires IsRanking(hosts, l, now) && multiset(l') == multiset(l) && IsSorted(l', now)
    ensures IsRanking(hosts, l', now)
  {
    forall s
      ensures s in l' <==> s in l
    {
      assert s in l' <==> s in multiset(l');
      assert s in l <==> s in multiset(l);
    }
  }

  lemma RankingIsPlannable(hosts: HostsMap, l: seq<Scored>, desired: int, now: Time)
    requires IsRanking(hosts, l, now) && desired >= 0
    ensures Plannable(l, desired)
  {
    SortedByRank(l, now);
  }

  // ---- planning again ---------------------------------------------------------------------------------

  ghost predicate Picks(l: seq<Scored>, desired: int, chosen: set<Ip>) {
    Plannable(l, desired) && ChosenSet(l, desired) == chosen
  }

  /** Whatever the sort does, the next run picks the machines that this one picked. */
  ghost predicate AlwaysPicks(hosts: HostsMap, desired: int, chosen: set<Ip>, now: Time) {
    forall l :: IsRanking(hosts, l, now) ==> Picks(l, desired, chosen)
  }

  /** Exactly the covered plans are fixed points: the next run, on the hosts with the chosen machines on
      their way out, picks the same machines in every sort order if and only if the plan is covered. The
      condition is about the present run alone, and a third run can follow the second. */
  lemma ReplanIsFixedIffCovered(hosts: HostsMap, l: seq<Scored>, desired: int, hosts': HostsMap, l': seq<Scored>,
                                now: Time)
    requires KnownModes(hosts) && WellKeyed(hosts) && IsRanking(hosts, l, now) && Plannable(l, desired)
    requires Deactivated(hosts, ChosenSet(l, desired), hosts', now) && IsRanking(hosts', l', now)
    ensures KnownModes(hosts') && WellKeyed(hosts') && Plannable(l', desired)
    ensures AlwaysPicks(hosts', desired, ChosenSet(l, desired), now) <==> Covered(l, desired, now)
    ensures Covered(l, desired, now) ==>
              Target(l', desired) == Target(l, desired) && ChosenSet(l, desired) == DeactivatingMachines(l')
  {
    var chosen := ChosenSet(l, desired);
    ChosenSetFacts(l, desired);
    hide Deactivated, KnownModes, WellKeyed, IsRanking, Remarked, Covered, Plannable, Machines;
    DeactivatedModes(hosts, chosen, hosts', now);
    RankingIsRemarked(hosts, l, chosen, hosts', l', now);
    RankingSorts(hosts', l', now);
    NextIsPlannable(l, desired, l', now);
    if Covered(l, desired, now) {
      CoveredPlanIsFixed(l, desired, l', now);
      forall l'' | IsRanking(hosts', l'', now)
        ensures Picks(l'', desired, chosen)
      {
        RankingIsRemarked(hosts, l, chosen, hosts', l'', now);
        RankingSorts(hosts', l'', now);
        CoveredPlanIsFixed(l, desired, l'', now);
      }
    } else {
      var l'' := UncoveredPlanMayChange(l, desired, l', now);
      PermutationIsRanking(hosts', l', l'', now);
      assert !Picks(l'', desired, chosen);
    }
  }

  lemma RankingSorts(hosts: HostsMap, l: seq<Scored>, now: Time)
    requires IsRanking(hosts, l, now)
    ensures IsSorted(l, now)
  {
  }

  /** So it is whenever no machine mixes deactivating and unhealthy containers. */
  lemma ReplanIsFixedWithoutMixing(hosts: HostsMap, l: seq<Scored>, desired: int, hosts': HostsMap, l': seq<Scored>,
                                   now: Time)
    requires KnownModes(hosts) && WellKeyed(hosts) && IsRanking(hosts, l, now) && Plannable(l, desired)
    requires Deactivated(hosts, ChosenSet(l, desired), hosts', now) && IsRanking(hosts', l', now)
    requires NoMixing(l)
    ensures Plannable(l', desired) && Target(l', desired) == Target(l, desired)
    ensures ChosenSet(l', desired) == ChosenSet(l, desired) == DeactivatingMachines(l')
  {
    hide Deactivated, KnownModes, WellKeyed, Machines, Covered;
    WithoutMixingIsCovered(l, desired, now);
    ReplanIsFixedIffCovered(hosts, l, desired, hosts', l', now);
    assert Picks(l', desired, ChosenSet(l, desired));
  }

  // ---- draining ---------------------------------------------------------------------------------------

  /** A host map and the list a run sorts its hosts into. */
  datatype Plan = Plan(hosts: HostsMap, ranked: seq<Scored>)

  ghost predicate IsPlan(p: Plan, desired: int, now: Time) {
    && KnownModes(p.hosts) && WellKeyed(p.hosts)
    && IsRanking(p.hosts, p.ranked, now) && Plannable(p.ranked, desired)
  }

  /** From one run to the next the machines it marked, and those that were deactivating already, have
      left the cluster; inactive machines may have; nothing else has changed. */
  ghost predicate Drained(p: Plan, desired: int, p': Plan, now: Time) {
    && IsPlan(p, desired, now) && IsPlan(p', desired, now)
    && (forall id :: id in p'.hosts ==> id in p.hosts && p'.hosts[id] == p.hosts[id])
    && forall id :: id in p.hosts && !p.hosts[id].mode.Client? && p.hosts[id].ip !in InactiveIps(p.hosts) ==>
         (id in p'.hosts <==> p.hosts[id].ip !in Removed(p.ranked, desired))
  }

  lemma DrainedInactive(p: Plan, desired: int, p': Plan, now: Time, id: HostId)
    requires Drained(p, desired, p', now) && id in p'.hosts && !p'.hosts[id].mode.Client?
    ensures p.hosts[id].ip in InactiveIps(p'.hosts) <==> p.hosts[id].ip in InactiveIps(p.hosts)
  {
    var ip := p.hosts[id].ip;
    if ip in InactiveIps(p.hosts) {
      assert InactiveMachine(p'.hosts, ip);
    }
    if ip in InactiveIps(p'.hosts) {
      assert InactiveMachine(p.hosts, ip);
    }
  }

  /** The lists of two such runs are related as the theorems on lists ask for. */
  lemma DrainedIsRound(p: Plan, desired: int, p': Plan, now: Time)
    requires Drained(p, desired, p', now)
    ensures Round(p.ranked, desired, p'.ranked)
  {
    forall h
      ensures h in p'.ranked <==> h in p.ranked && h.host.ip !in Removed(p.ranked, desired)
    {
      if h in p'.ranked {
        DrainedInactive(p, desired, p', now, h.host.id);
        assert Scored(p.hosts[h.host.id], DeriveHostState(p.hosts[h.host.id], now)) in p.ranked;
      }
      if h in p.ranked && h.host.ip !in Removed(p.ranked, desired) {
        assert h.host.id in p'.hosts;
        DrainedInactive(p, desired, p', now, h.host.id);
        assert Scored(p'.hosts[h.host.id], DeriveHostState(p'.hosts[h.host.id], now)) in p'.ranked;
      }
    }
  }

  ghost predicate DrainHistory(plans: seq<Plan>, desired: int, now: Time) {
    plans != [] && IsPlan(plans[0], desired, now)
    && (|plans| > 1 ==> Drained(plans[0], desired, plans[1], now) && DrainHistory(plans[1..], desired, now))
  }

  function Lists(plans: seq<Plan>): seq<seq<Scored>> {
    if plans == [] then [] else [plans[0].ranked] + Lists(plans[1..])
  }

  lemma {:induction false} HistoryIsRounds(plans: seq<Plan>, desired: int, now: Time)
    requires DrainHistory(plans, desired, now)
    ensures |Lists(plans)| == |plans| && Rounds(Lists(plans), desired)
    ensures Lists(plans)[0] == plans[0].ranked && Lists(plans)[|plans| - 1] == plans[|plans| - 1].ranked
  {
    if |plans| > 1 {
      DrainedIsRound(plans[0], desired, plans[1], now);
      HistoryIsRounds(plans[1..], desired, now);
      assert Lists(plans)[1..] == Lists(plans[1..]);
    } else {
      assert plans[1..] == [];
    }
  }

  /** Repeated runs drain the cluster: after at most one run per machine none is unhealthy or
      deactivating, and of the H healthy machines exactly min(H, T) are left. */
  lemma RunsDrain(plans: seq<Plan>, desired: int, now: Time)
    requires DrainHistory(plans, desired, now) && |plans| > |Machines(plans[0].ranked)|
    ensures var last := plans[|plans| - 1].ranked;
            && Target(last, desired) == 0
            && UnhealthyMachines(last) == {} && DeactivatingMachines(last) == {}
            && |Machines(last)| == Min(|HealthyIps(plans[0].hosts, now)|, desired)
  {
    hide *;
    HistoryIsRounds(plans, desired, now);
    CountsOfFirst(plans, desired, now);
    var lists := Lists(plans);
    assert lists[0] == plans[0].ranked && lists[|lists| - 1] == plans[|plans| - 1].ranked;
    RoundsDrain(lists, desired);
  }

  lemma CountsOfFirst(plans: seq<Plan>, desired: int, now: Time)
    requires DrainHistory(plans, desired, now)
    ensures plans != [] && Plannable(plans[0].ranked, desired)
    ensures HealthyMachines(plans[0].ranked) == HealthyIps(plans[0].hosts, now)
  {
    var p := plans[0];
    assert IsPlan(p, desired, now);
    hide DrainHistory, Plannable, HealthyMachines, HealthyIps, KnownModes, WellKeyed, IsRanking;
    RankingCountsHealthyIps(p.hosts, p.ranked, now);
  }

  // ---- a plan that is not a fixed point ---------------------------------------------------------------

  const A := Ip("10.0.0.1")
  const B := Ip("10.0.0.2")
  const C := Ip("10.0.0.3")

  lemma ThreeMachines()
    ensures A != B && B != C && A != C
  {
    assert A.address[7] == '1' && B.address[7] == '2' && C.address[7] == '3';
  }

  function SampleIp(i: nat): Ip {
    if i % 3 == 0 then A else if i % 3 == 1 then B else C
  }

  /** Containers 0 to 2 are deactivating, 3 to 5 have a drive that is being removed; containers i and
      i + 3 share a machine. All were added at the same time. */
  function SampleHost(i: nat): Host {
    var state := if i < 3 then DEACTIVATING else OtherState("ACTIVE");
    var drives := if i < 3 then map[] else map[DriveId(0) := Drive(OtherStatus("PHASING_OUT"), false),
                                               DriveId(1) := Drive(OtherStatus("ACTIVE"), true)];
    var ip := SampleIp(i);
    Host(HostId(i), ip.address, ip, Backend, state, OtherStatus("UP"), "drives0", ip.address, 0, 0, 0, drives, map[])
  }

  function SampleHosts(): HostsMap {
    map i | 0 <= i < 6 :: HostId(i) := SampleHost(i)
  }

  lemma SampleState(i: nat)
    ensures DeriveHostState(SampleHost(i), 0) == if i < 3 then Deactivating else Unhealthy
    ensures NumNotHealthyDrives(SampleHost(i), 0) == 0
  {
    var h := SampleHost(i);
    assert UnhealthyDrives(h, 0) == {};
    if i >= 3 {
      assert DriveId(0) in h.drives && DriveId(1) in h.drives;
      assert h.drives[DriveId(1)].shouldBeActive && !h.drives[DriveId(0)].shouldBeActive;
    }
  }

  /** The list names the hosts of the map by number. */
  predicate ByNumber(hosts: HostsMap, l: seq<Scored>, now: Time) {
    && (forall i :: 0 <= i < |l| ==>
          HostId(i) in hosts
          && l[i] == Scored(hosts[HostId(i)], DeriveHostState(hosts[HostId(i)], now)))
    && (forall id :: id in hosts ==> 0 <= id.number < |l| && hosts[id].mode.Backend?)
  }

  lemma NumberedIsRanking(hosts: HostsMap, l: seq<Scored>, now: Time)
    requires WellKeyed(hosts) && ByNumber(hosts, l, now) && IsSorted(l, now)
    requires forall id :: id in hosts ==> hosts[id].state != INACTIVE
    ensures IsRanking(hosts, l, now)
  {
    var rest := seq(|l|, i requires 0 <= i < |l| => l[i].host);
    UniqueMeansOnce(rest, l);
    forall id | id in hosts
      ensures Scored(hosts[id], DeriveHostState(hosts[id], now)) in l
    {
      assert l[id.number] == Scored(hosts[HostId(id.number)], DeriveHostState(hosts[HostId(id.number)], now));
    }
    assert InactiveIps(hosts) == {};
  }

  /** The first list: three deactivating containers, three unhealthy ones. */
  function SampleRanking(): seq<Scored> {
    seq(6, i requires 0 <= i < 6 => Scored(SampleHost(i), if i < 3 then Deactivating else Unhealthy))
  }

  lemma SampleIsNumbered()
    ensures WellKeyed(SampleHosts()) && KnownModes(SampleHosts())
    ensures ByNumber(SampleHosts(), SampleRanking(), 0)
    ensures forall id :: id in SampleHosts() ==> SampleHosts()[id].state != INACTIVE
  {
    var hosts, l := SampleHosts(), SampleRanking();
    forall i | 0 <= i < 6
      ensures l[i] == Scored(hosts[HostId(i)], DeriveHostState(hosts[HostId(i)], 0))
    {
      SampleState(i);
    }
  }

  lemma SampleIsSorted()
    ensures IsSorted(SampleRanking(), 0)
  {
    var l := SampleRanking();
    forall i | 0 <= i < 6
      ensures NumNotHealthyDrives(l[i].host, 0) == 0 && l[i].host.addedTime == 0
    {
      SampleState(i);
    }
    hide NumNotHealthyDrives, SampleHost;
  }

  lemma SampleIsRanking()
    ensures WellKeyed(SampleHosts()) && KnownModes(SampleHosts())
    ensures IsRanking(SampleHosts(), SampleRanking(), 0) && Plannable(SampleRanking(), 3)
  {
    hide *;
    SampleIsNumbered();
    SampleIsSorted();
    NumberedIsRanking(SampleHosts(), SampleRanking(), 0);
    RankingIsPlannable(SampleHosts(), SampleRanking(), 3, 0);
  }

  lemma SampleHas(ip: Ip, scale: ScaleState)
    ensures Has(SampleRanking(), ip, scale) <==> ip in {A, B, C} && scale != Healthy
  {
    var l := SampleRanking();
    assert l[0] in l && l[1] in l && l[2] in l && l[3] in l && l[4] in l && l[5] in l;
  }

  lemma SampleMachines(ip: Ip)
    ensures ip in Machines(SampleRanking()) <==> ip in {A, B, C}
  {
    var l := SampleRanking();
    assert l[0] in l && l[1] in l && l[2] in l;
  }

  lemma TwoIps(x: Scored, y: Scored)
    requires x.host.ip != y.host.ip
    ensures FirstIps([x, y]) == [x.host.ip, y.host.ip]
  {
    assert [x, y][..1] == [x] && [x][..0] == [];
    assert FirstIps([x]) == [x.host.ip];
  }

  lemma PlannableSlice(l: seq<Scored>, desired: int)
    requires Plannable(l, desired)
    ensures 0 <= Target(l, desired) <= |FirstIps(l)|
  {
    SliceIsLegalIffDesiredNotNegative(l, desired);
  }

  lemma SampleFront()
    ensures |SampleRanking()| == 6 && SampleRanking()[0].host.ip == A && SampleRanking()[1].host.ip == B
  {
  }

  lemma ListStartsWith(l: seq<Scored>, a: Ip, b: Ip)
    requires |l| >= 2 && l[0].host.ip == a && l[1].host.ip == b && a != b
    ensures |FirstIps(l)| >= 2 && FirstIps(l)[..2] == [a, b]
  {
    hide FirstIps;
    FirstIpsOfPrefix(l, 2);
    assert l[..2] == [l[0], l[1]];
    TwoIps(l[0], l[1]);
  }

  /** Two of the three machines are to be deactivated, and the list starts with A and B. */
  lemma SampleChosen()
    requires Plannable(SampleRanking(), 3)
    ensures ChosenSet(SampleRanking(), 3) == {A, B}
  {
    SampleFront();
    ThreeMachines();
    hide FirstIps, SampleRanking, Target, A, B, Plannable;
    SampleTarget();
    ListStartsWith(SampleRanking(), A, B);
    PlannableSlice(SampleRanking(), 3);
  }

  lemma SampleTarget()
    ensures Target(SampleRanking(), 3) == 2
  {
    var l := SampleRanking();
    ThreeMachines();
    hide Has, Machines, SampleRanking, A, B, C;
    forall ip
      ensures ip in Machines(l) <==> ip in {A, B, C}
      ensures Has(l, ip, Unhealthy) <==> ip in {A, B, C}
    {
      SampleHas(ip, Unhealthy);
      SampleMachines(ip);
    }
    assert UnhealthyMachines(l) == {A, B, C} && HealthyMachines(l) == {} && DeactivatingMachines(l) == {};
    hide UnhealthyMachines, HealthyMachines, DeactivatingMachines;
    assert |{A, B, C}| == 3;
  }

  /** The same hosts once A and B were asked to deactivate, in the order of their numbers. */
  function NextRanking(): seq<Scored> {
    var hosts := MarkedMap(SampleHosts(), {A, B});
    seq(6, i requires 0 <= i < 6 => Scored(hosts[HostId(i)], if i < 5 then Deactivating else Unhealthy))
  }

  lemma NextHost(i: nat)
    requires i < 6
    ensures var hosts := MarkedMap(SampleHosts(), {A, B});
            && HostId(i) in hosts
            && NextRanking()[i] == Scored(hosts[HostId(i)], DeriveHostState(hosts[HostId(i)], 0))
            && NumNotHealthyDrives(hosts[HostId(i)], 0) == 0 && hosts[HostId(i)].addedTime == 0
  {
    var hosts := MarkedMap(SampleHosts(), {A, B});
    SampleState(i);
    assert UnhealthyDrives(hosts[HostId(i)], 0) == UnhealthyDrives(SampleHost(i), 0);
    if SampleHost(i).ip in {A, B} {
      DeactivatedIsDerived(hosts[HostId(i)], 0);
    }
  }

  lemma NextModes()
    ensures var hosts := MarkedMap(SampleHosts(), {A, B});
            && WellKeyed(hosts)
            && forall id :: id in hosts ==> hosts[id].state != INACTIVE && hosts[id].mode.Backend? && 0 <= id.number < 6
  {
    hide A, B, C;
  }

  lemma NextIsNumbered()
    ensures ByNumber(MarkedMap(SampleHosts(), {A, B}), NextRanking(), 0)
  {
    NextModes();
    assert |NextRanking()| == 6;
    hide DeriveHostState, MarkedMap, SampleHosts, NextRanking, A, B, WellKeyed;
    forall i | 0 <= i < 6
      ensures var hosts := MarkedMap(SampleHosts(), {A, B});
              && HostId(i) in hosts
              && NextRanking()[i] == Scored(hosts[HostId(i)], DeriveHostState(hosts[HostId(i)], 0))
    {
      NextHost(i);
    }
  }

  lemma NextIsSorted()
    ensures IsSorted(NextRanking(), 0)
  {
    forall i | 0 <= i < 6
      ensures NumNotHealthyDrives(NextRanking()[i].host, 0) == 0 && NextRanking()[i].host.addedTime == 0
      ensures NextRanking()[i].scale == if i < 5 then Deactivating else Unhealthy
    {
      NextHost(i);
    }
    hide NumNotHealthyDrives, MarkedMap, SampleHosts, A, B;
  }

  /** The third machine ties with the chosen ones, so the plan is not covered. */
  lemma SampleIsNotCovered()
    requires Plannable(SampleRanking(), 3) && ChosenSet(SampleRanking(), 3) == {A, B}
    ensures !Covered(SampleRanking(), 3, 0)
  {
    var l := SampleRanking();
    SampleTies();
    ThirdIsLeftBehind();
    hide NumNotHealthyDrives, SampleRanking, A, B, LeftBehind;
    assert !Precedes(l, A, l[2].host, 0);
  }

  lemma ThirdIsLeftBehind()
    ensures |SampleRanking()| == 6 && LeftBehind(SampleRanking(), {A, B}, SampleRanking()[2])
  {
    ThreeMachines();
    hide A, B, C;
    assert SampleRanking()[2] in SampleRanking();
  }

  lemma SampleTies()
    ensures forall y :: y in SampleRanking() ==> NumNotHealthyDrives(y.host, 0) == 0 && y.host.addedTime == 0
  {
    var l := SampleRanking();
    forall y | y in l
      ensures NumNotHealthyDrives(y.host, 0) == 0 && y.host.addedTime == 0
    {
      var i :| 0 <= i < 6 && l[i] == y;
      SampleState(i);
    }
  }

  /** A concrete run whose plan changes: three machines that mix both states, of which A and B are
      chosen. On the hosts with A and B deactivating some sort result of the next run picks others. */
  lemma PlanOfSampleChanges() returns (l': seq<Scored>)
    ensures WellKeyed(SampleHosts()) && KnownModes(SampleHosts())
    ensures IsRanking(SampleHosts(), SampleRanking(), 0) && Plannable(SampleRanking(), 3)
    ensures ChosenSet(SampleRanking(), 3) == {A, B}
    ensures Deactivated(SampleHosts(), {A, B}, MarkedMap(SampleHosts(), {A, B}), 0)
    ensures IsRanking(MarkedMap(SampleHosts(), {A, B}), l', 0) && Plannable(l', 3)
    ensures ChosenSet(l', 3) != {A, B}
  {
    hide *;
    var hosts' := MarkedMap(SampleHosts(), {A, B});
    SampleIsRanking();
    SampleChosen();
    MarkedMapIsDeactivated(SampleHosts(), {A, B}, 0);
    NextModes();
    NextIsNumbered();
    NextIsSorted();
    NumberedIsRanking(hosts', NextRanking(), 0);
    RankingSorts(hosts', NextRanking(), 0);
    ChosenSetFacts(SampleRanking(), 3);
    RankingIsRemarked(SampleHosts(), SampleRanking(), {A, B}, hosts', NextRanking(), 0);
    SampleIsNotCovered();
    l' := UncoveredPlanMayChange(SampleRanking(), 3, NextRanking(), 0);
    PermutationIsRanking(hosts', NextRanking(), l', 0);
  }
}
