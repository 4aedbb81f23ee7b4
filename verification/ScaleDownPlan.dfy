/**
 The scale-down decision on a list of scored hosts: how many machines to deactivate, and which ones a
 sorted list puts first. A machine is an IP address; its containers may be in different states.
 */
module ScaleDownPlan {
  import opened GoMath
  import opened ScaleDownHosts

  function CalculateDeactivateTarget(healthy: int, unhealthy: int, deactivating: int, desired: int): int {
    Max(deactivating, Max(healthy + unhealthy + deactivating - desired, Min(2 - deactivating, unhealthy)))
  }

  /** The target is the least number that keeps on deactivating what is being deactivated, gets down to the
      desired size, and takes unhealthy machines out, of which there are never more than two at a time
      together with those already on their way. */
  lemma TargetIsLeast(healthy: nat, unhealthy: nat, deactivating: nat, desired: int)
    ensures var n := CalculateDeactivateTarget(healthy, unhealthy, deactivating, desired);
            var excess := healthy + unhealthy + deactivating - desired;
            && n >= deactivating && n >= excess && (n + deactivating >= 2 || n >= unhealthy)
            && (n > deactivating && n > excess ==> n + deactivating <= 2 && n <= unhealthy)
  {
  }

  predicate NoClients(l: seq<Scored>) {
    forall h :: h in l ==> !h.host.mode.Client?
  }

  /** Some container on the machine that is not a client has the given state. */
  predicate Has(l: seq<Scored>, ip: Ip, scale: ScaleState) {
    exists h :: h in l && !h.host.mode.Client? && h.host.ip == ip && h.scale == scale
  }

  function Machines(l: seq<Scored>): set<Ip> {
    set h | h in l && !h.host.mode.Client? :: h.host.ip
  }

  function UnhealthyMachines(l: seq<Scored>): set<Ip> {
    set ip | ip in Machines(l) && Has(l, ip, Unhealthy)
  }

  function DeactivatingMachines(l: seq<Scored>): set<Ip> {
    set ip | ip in Machines(l) && !Has(l, ip, Unhealthy) && Has(l, ip, Deactivating)
  }

  /** Machines all of whose containers are healthy. */
  function HealthyMachines(l: seq<Scored>): set<Ip> {
    set ip | ip in Machines(l) && !Has(l, ip, Unhealthy) && !Has(l, ip, Deactivating)
  }

  /** The number of machines to deactivate for a list of hosts. */
  function Target(l: seq<Scored>, desired: int): int {
    CalculateDeactivateTarget(|HealthyMachines(l)|, |UnhealthyMachines(l)|, |DeactivatingMachines(l)|, desired)
  }

  /** The IPs of a list, each at its first occurrence. */
  function FirstIps(l: seq<Scored>): seq<Ip> {
    if l == [] then []
    else
      var ips := FirstIps(l[..|l| - 1]);
      var ip := l[|l| - 1].host.ip;
      if ip in ips then ips else ips + [ip]
  }

  /** The machines the planner deactivates, given a sorted list. */
  function Chosen(l: seq<Scored>, desired: int): seq<Ip>
    requires 0 <= Target(l, desired) <= |FirstIps(l)|
  {
    FirstIps(l)[..Target(l, desired)]
  }

  // ---- the collected IPs are the machines -----------------------------------------------------------

  function SetOf(ips: seq<Ip>): set<Ip> {
    set ip | ip in ips
  }

  predicate NoDuplicates(ips: seq<Ip>) {
    forall i, j :: 0 <= i < j < |ips| ==> ips[i] != ips[j]
  }

  lemma {:induction false} CardinalityOfSetOf(ips: seq<Ip>)
    requires NoDuplicates(ips)
    ensures |SetOf(ips)| == |ips|
  {
    if ips != [] {
      var front := ips[..|ips| - 1];
      CardinalityOfSetOf(front);
      assert SetOf(ips) == SetOf(front) + {ips[|ips| - 1]};
    }
  }

  lemma {:induction false} FirstIpsAreMachines(l: seq<Scored>)
    requires NoClients(l)
    ensures NoDuplicates(FirstIps(l))
    ensures SetOf(FirstIps(l)) == Machines(l)
  {
    if l != [] {
      var front, last := l[..|l| - 1], l[|l| - 1];
      assert l == front + [last];
      FirstIpsAreMachines(front);
      assert Machines(l) == Machines(front) + {last.host.ip};
      assert SetOf(FirstIps(l)) == SetOf(FirstIps(front)) + {last.host.ip};
    }
  }

  /** Every machine is counted once: healthy, unhealthy or deactivating. */
  lemma MachinesArePartitioned(l: seq<Scored>)
    ensures |Machines(l)| == |HealthyMachines(l)| + |UnhealthyMachines(l)| + |DeactivatingMachines(l)|
  {
    assert Machines(l) == HealthyMachines(l) + (UnhealthyMachines(l) + DeactivatingMachines(l));
    assert HealthyMachines(l) !! (UnhealthyMachines(l) + DeactivatingMachines(l));
    assert UnhealthyMachines(l) !! DeactivatingMachines(l);
  }

  /** The number of distinct IPs collected from the list is the number of machines behind the count. */
  lemma FirstIpsCount(l: seq<Scored>)
    requires NoClients(l)
    ensures |FirstIps(l)| == |HealthyMachines(l)| + |UnhealthyMachines(l)| + |DeactivatingMachines(l)|
  {
    FirstIpsAreMachines(l);
    CardinalityOfSetOf(FirstIps(l));
    MachinesArePartitioned(l);
  }

  /** Slicing the collected IPs at the target is legal exactly when the desired size is not negative. */
  lemma SliceIsLegalIffDesiredNotNegative(l: seq<Scored>, desired: int)
    requires NoClients(l)
    ensures 0 <= Target(l, desired) <= |FirstIps(l)| <==> desired >= 0
  {
    FirstIpsCount(l);
  }

  // ---- sorting puts worse machines first ----------------------------------------------------------------

  /** Machines with a container ranked below r. */
  function LowMachines(l: seq<Scored>, r: int): set<Ip> {
    set h | h in l && Rank(h.scale) < r :: h.host.ip
  }

  /** The first machines of a list of IPs are exactly those of a set. */
  predicate StartsWith(ips: seq<Ip>, low: set<Ip>) {
    |low| <= |ips| && forall i :: 0 <= i < |ips| ==> (ips[i] in low <==> i < |low|)
  }

  /** In a sorted list the machines with a container ranked below r are exactly the first ones. */
  lemma {:induction false} LowMachinesComeFirst(l: seq<Scored>, r: int)
    requires RankSorted(l) && NoClients(l)
    ensures StartsWith(FirstIps(l), LowMachines(l, r))
  {
    if l != [] {
      var front, last := l[..|l| - 1], l[|l| - 1];
      assert l == front + [last];
      if Rank(last.scale) < r {
        AllLowComeFirst(l, r);
      } else {
        LowMachinesComeFirst(front, r);
        HighAddsNothingLow(front, last, r);
        if last.host.ip !in FirstIps(front) {
          OneMoreIp(FirstIps(front), LowMachines(front, r), last.host.ip);
        }
        hide LowMachines, RankSorted, NoClients, StartsWith;
      }
    }
  }

  lemma OneMoreIp(ips: seq<Ip>, low: set<Ip>, ip: Ip)
    requires StartsWith(ips, low) && ip !in low
    ensures StartsWith(ips + [ip], low)
  {
  }

  lemma AllLowComeFirst(l: seq<Scored>, r: int)
    requires NoClients(l) && forall h :: h in l ==> Rank(h.scale) < r
    ensures StartsWith(FirstIps(l), LowMachines(l, r))
  {
    AllLow(l, r);
    FirstIpsAreMachines(l);
    hide Machines, LowMachines, FirstIps;
    CardinalityOfSetOf(FirstIps(l));
  }

  lemma HighAddsNothingLow(front: seq<Scored>, last: Scored, r: int)
    requires NoClients(front + [last]) && Rank(last.scale) >= r
    ensures LowMachines(front + [last], r) == LowMachines(front, r)
    ensures last.host.ip !in FirstIps(front) ==> last.host.ip !in LowMachines(front, r)
  {
    assert forall h :: h in front ==> h in front + [last];
    FirstIpsAreMachines(front);
    if last.host.ip in LowMachines(front, r) {
      assert last.host.ip in SetOf(FirstIps(front));
    }
  }

  lemma AllLow(l: seq<Scored>, r: int)
    requires NoClients(l) && forall h :: h in l ==> Rank(h.scale) < r
    ensures LowMachines(l, r) == Machines(l)
  {
  }

  /** The machines that are not all-healthy are those with a container ranked below Healthy. */
  lemma NotHealthyIsLow(l: seq<Scored>)
    requires NoClients(l)
    ensures Machines(l) - HealthyMachines(l) == LowMachines(l, Rank(Healthy))
    ensures |LowMachines(l, Rank(Healthy))| == |UnhealthyMachines(l)| + |DeactivatingMachines(l)|
  {
    var low := LowMachines(l, Rank(Healthy));
    hide Has, LowMachines, Machines, NoClients;
    forall ip
      ensures ip in low <==> ip in Machines(l) && (Has(l, ip, Unhealthy) || Has(l, ip, Deactivating))
    {
      LowIsNotHealthy(l, ip);
    }
    assert low == UnhealthyMachines(l) + DeactivatingMachines(l);
    assert UnhealthyMachines(l) !! DeactivatingMachines(l);
  }

  lemma LowIsNotHealthy(l: seq<Scored>, ip: Ip)
    requires NoClients(l)
    ensures ip in LowMachines(l, Rank(Healthy)) <==>
            ip in Machines(l) && (Has(l, ip, Unhealthy) || Has(l, ip, Deactivating))
  {
    if ip in LowMachines(l, Rank(Healthy)) {
      var h :| h in l && Rank(h.scale) < Rank(Healthy) && h.host.ip == ip;
      assert Has(l, ip, h.scale);
    }
  }

  lemma CountOneMore(front: set<Ip>, last: Ip, healthy: set<Ip>)
    requires last !in front
    ensures |(front + {last}) * healthy| == |front * healthy| + if last in healthy then 1 else 0
  {
    if last in healthy {
      assert (front + {last}) * healthy == front * healthy + {last};
    } else {
      assert (front + {last}) * healthy == front * healthy;
    }
  }

  /** The healthy machines among the first t of a list of IPs whose first `low` are the others. */
  lemma {:induction false} CountBeyond(ips: seq<Ip>, healthy: set<Ip>, low: nat)
    requires NoDuplicates(ips)
    requires forall i :: 0 <= i < |ips| ==> (ips[i] in healthy <==> i >= low)
    ensures |SetOf(ips) * healthy| == Max(0, |ips| - low)
  {
    if ips == [] {
      assert SetOf(ips) * healthy == {};
    } else {
      var front, last := ips[..|ips| - 1], ips[|ips| - 1];
      CountBeyond(front, healthy, low);
      assert SetOf(ips) == SetOf(front) + {last};
      CountOneMore(SetOf(front), last, healthy);
    }
  }

  /** The planner protects healthy machines: however containers mix on machines and however ties were
      sorted, the chosen machines include exactly max(0, H - T) of the H all-healthy ones. */
  lemma HealthyMachinesAreProtected(l: seq<Scored>, desired: int)
    requires RankSorted(l) && NoClients(l) && desired >= 0
    ensures 0 <= Target(l, desired) <= |FirstIps(l)|
    ensures |SetOf(Chosen(l, desired)) * HealthyMachines(l)| == Max(0, |HealthyMachines(l)| - desired)
  {
    SliceIsLegalIffDesiredNotNegative(l, desired);
    LowMachinesComeFirst(l, Rank(Healthy));
    NotHealthyIsLow(l);
    FirstIpsAreMachines(l);
    var low := LowMachines(l, Rank(Healthy));
    hide Machines, HealthyMachines, LowMachines, FirstIps, RankSorted, NoClients;
    PrefixSplits(FirstIps(l), Target(l, desired), HealthyMachines(l), low);
    CountBeyond(Chosen(l, desired), HealthyMachines(l), |low|);
  }

  lemma PrefixSplits(ips: seq<Ip>, t: nat, healthy: set<Ip>, low: set<Ip>)
    requires NoDuplicates(ips) && t <= |ips|
    requires forall i :: 0 <= i < |ips| ==> (ips[i] in low <==> i < |low|)
    requires SetOf(ips) - healthy == low && healthy <= SetOf(ips)
    ensures NoDuplicates(ips[..t])
    ensures forall i :: 0 <= i < t ==> (ips[..t][i] in healthy <==> i >= |low|)
  {
    assert forall i :: 0 <= i < t ==> ips[..t][i] == ips[i] && ips[i] in SetOf(ips);
  }

  /** No healthy machine is chosen unless healthy machines alone exceed the desired size, and then
      every machine that is not healthy is chosen too. */
  lemma HealthyChosenOnlyInExcess(l: seq<Scored>, desired: int, ip: Ip)
    requires RankSorted(l) && NoClients(l) && desired >= 0
    requires 0 <= Target(l, desired) <= |FirstIps(l)|
    requires ip in Chosen(l, desired) && ip in HealthyMachines(l)
    ensures |HealthyMachines(l)| > desired
    ensures Machines(l) - HealthyMachines(l) <= SetOf(Chosen(l, desired))
  {
    hide Machines, HealthyMachines, LowMachines, FirstIps, RankSorted, NoClients, Target, NoDuplicates;
    HealthyMachinesAreProtected(l, desired);
    assert ip in SetOf(Chosen(l, desired)) * HealthyMachines(l);
    LowMachinesComeFirst(l, Rank(Healthy));
    NotHealthyIsLow(l);
    FirstIpsAreMachines(l);
    forall other | other in LowMachines(l, Rank(Healthy))
      ensures other in Chosen(l, desired)
    {
      assert other in SetOf(FirstIps(l));
      var i :| 0 <= i < |FirstIps(l)| && FirstIps(l)[i] == other;
      assert Chosen(l, desired)[i] == other;
    }
  }
}
