/**
 What repeated planning does: marking the chosen machines and planning again, and removing the
 deactivating machines round after round.
 */
module ScaleDownRounds {
  import opened GoMath
  import opened ScaleDownHosts
  import opened ScaleDownPlan

  /** What being asked to deactivate leaves alone: who a container is, and what the sort breaks ties with. */
  predicate SameContainer(h: Host, h': Host, now: Time) {
    && h'.id == h.id && h'.ip == h.ip && h'.mode == h.mode && h'.addedTime == h.addedTime
    && NumNotHealthyDrives(h', now) == NumNotHealthyDrives(h, now)
  }

  /** A host in one run and in the next, after the machines in `chosen` were asked to deactivate. */
  predicate Follows(h: Scored, h': Scored, chosen: set<Ip>, now: Time) {
    SameContainer(h.host, h'.host, now) && h'.scale == if h.host.ip in chosen then Deactivating else h.scale
  }

  ghost predicate HasFollower(h: Scored, chosen: set<Ip>, l': seq<Scored>, now: Time) {
    exists h' :: h' in l' && Follows(h, h', chosen, now)
  }

  ghost predicate IsFollower(l: seq<Scored>, chosen: set<Ip>, h': Scored, now: Time) {
    exists h :: h in l && Follows(h, h', chosen, now)
  }

  /** The next run sees the same containers, those on chosen machines deactivating, in any order. */
  ghost predicate Remarked(l: seq<Scored>, chosen: set<Ip>, l': seq<Scored>, now: Time) {
    && (forall h :: h in l ==> HasFollower(h, chosen, l', now))
    && (forall h' :: h' in l' ==> IsFollower(l, chosen, h', now))
  }

  /** A plan on a sorted list without clients for a desired size that is not negative. */
  predicate Plannable(l: seq<Scored>, desired: int) {
    RankSorted(l) && NoClients(l) && desired >= 0
  }

  function ChosenSet(l: seq<Scored>, desired: int): set<Ip>
    requires Plannable(l, desired)
  {
    SliceIsLegalIffDesiredNotNegative(l, desired);
    SetOf(Chosen(l, desired))
  }

  lemma ChosenSetFacts(l: seq<Scored>, desired: int)
    requires Plannable(l, desired)
    ensures ChosenSet(l, desired) <= Machines(l)
    ensures |ChosenSet(l, desired)| == Target(l, desired)
    ensures |ChosenSet(l, desired) * HealthyMachines(l)| == Max(0, |HealthyMachines(l)| - desired)
  {
    HealthyMachinesAreProtected(l, desired);
    FirstIpsAreMachines(l);
    var ips := Chosen(l, desired);
    CardinalityOfSetOf(ips);
    forall ip | ip in SetOf(ips)
      ensures ip in Machines(l)
    {
      assert ip in SetOf(FirstIps(l));
    }
  }

  // ---- marking ----------------------------------------------------------------------------------------

  lemma Follower(h: Scored, chosen: set<Ip>, l': seq<Scored>, now: Time) returns (h': Scored)
    requires HasFollower(h, chosen, l', now)
    ensures h' in l' && Follows(h, h', chosen, now)
  {
    h' :| h' in l' && Follows(h, h', chosen, now);
  }

  lemma Followed(l: seq<Scored>, chosen: set<Ip>, h': Scored, now: Time) returns (h: Scored)
    requires IsFollower(l, chosen, h', now)
    ensures h in l && Follows(h, h', chosen, now)
  {
    h :| h in l && Follows(h, h', chosen, now);
  }

  lemma MarkedMachine(l: seq<Scored>, chosen: set<Ip>, l': seq<Scored>, now: Time, ip: Ip)
    requires Remarked(l, chosen, l', now)
    ensures ip in Machines(l') <==> ip in Machines(l)
  {
    if ip in Machines(l) {
      var h :| h in l && !h.host.mode.Client? && h.host.ip == ip;
      var h' := Follower(h, chosen, l', now);
    }
    if ip in Machines(l') {
      var h' :| h' in l' && !h'.host.mode.Client? && h'.host.ip == ip;
      var h := Followed(l, chosen, h', now);
    }
  }

  lemma MarkedStates(l: seq<Scored>, chosen: set<Ip>, l': seq<Scored>, now: Time, ip: Ip, scale: ScaleState)
    requires Remarked(l, chosen, l', now) && ip in Machines(l)
    ensures Has(l', ip, scale) <==> if ip in chosen then scale == Deactivating else Has(l, ip, scale)
  {
    if Has(l', ip, scale) {
      var h' :| h' in l' && !h'.host.mode.Client? && h'.host.ip == ip && h'.scale == scale;
      var h := Followed(l, chosen, h', now);
    }
    if ip in chosen && scale == Deactivating {
      var h :| h in l && !h.host.mode.Client? && h.host.ip == ip;
      var h' := Follower(h, chosen, l', now);
    }
    if ip !in chosen && Has(l, ip, scale) {
      var h :| h in l && !h.host.mode.Client? && h.host.ip == ip && h.scale == scale;
      var h' := Follower(h, chosen, l', now);
    }
  }

  /** Marking turns exactly the chosen machines into deactivating ones. */
  lemma MarkedMachines(l: seq<Scored>, chosen: set<Ip>, l': seq<Scored>, now: Time)
    requires Remarked(l, chosen, l', now) && chosen <= Machines(l)
    ensures Machines(l') == Machines(l)
    ensures UnhealthyMachines(l') == UnhealthyMachines(l) - chosen
    ensures HealthyMachines(l') == HealthyMachines(l) - chosen
    ensures DeactivatingMachines(l') == DeactivatingMachines(l) + chosen
  {
    hide Machines, Has, Remarked;
    forall ip
      ensures ip in Machines(l') <==> ip in Machines(l)
    {
      MarkedMachine(l, chosen, l', now, ip);
    }
    forall ip | ip in Machines(l)
      ensures Has(l', ip, Unhealthy) <==> ip !in chosen && Has(l, ip, Unhealthy)
      ensures Has(l', ip, Deactivating) <==> ip in chosen || Has(l, ip, Deactivating)
    {
      MarkedStates(l, chosen, l', now, ip, Unhealthy);
      MarkedStates(l, chosen, l', now, ip, Deactivating);
    }
  }

  lemma MarkedModes(l: seq<Scored>, chosen: set<Ip>, l': seq<Scored>, now: Time)
    requires Remarked(l, chosen, l', now) && NoClients(l)
    ensures NoClients(l')
  {
    forall h' | h' in l'
      ensures !h'.host.mode.Client?
    {
      var h := Followed(l, chosen, h', now);
    }
  }

  /** The machines with a container ranked below Unhealthy are those with a deactivating one. */
  lemma LowHasDeactivating(l: seq<Scored>, ip: Ip)
    requires NoClients(l)
    ensures ip in LowMachines(l, Rank(Unhealthy)) <==> Has(l, ip, Deactivating)
    ensures Has(l, ip, Deactivating) ==> ip in Machines(l)
  {
    if ip in LowMachines(l, Rank(Unhealthy)) {
      var h :| h in l && Rank(h.scale) < Rank(Unhealthy) && h.host.ip == ip;
      assert h.scale == Deactivating;
    }
  }

  lemma MarkedLow(l: seq<Scored>, chosen: set<Ip>, l': seq<Scored>, now: Time)
    requires Remarked(l, chosen, l', now) && NoClients(l) && chosen <= Machines(l)
    ensures LowMachines(l', Rank(Unhealthy)) == LowMachines(l, Rank(Unhealthy)) + chosen
  {
    MarkedModes(l, chosen, l', now);
    hide Machines, Has, Remarked, LowMachines, NoClients;
    forall ip
      ensures ip in LowMachines(l', Rank(Unhealthy)) <==> ip in LowMachines(l, Rank(Unhealthy)) + chosen
    {
      LowHasDeactivating(l, ip);
      LowHasDeactivating(l', ip);
      MarkedMachine(l, chosen, l', now, ip);
      if ip in Machines(l) {
        MarkedStates(l, chosen, l', now, ip, Deactivating);
      }
    }
  }

  /** The counts before marking, the counts after it, and the machines that were deactivating but were
      not chosen. */
  lemma TargetAfterMarking(h: nat, u: nat, d: nat, h': nat, u': nat, d': nat, left: nat, desired: int)
    requires h' + u' + d' == h + u + d && u' <= u
    requires d' == CalculateDeactivateTarget(h, u, d, desired) + left
    ensures CalculateDeactivateTarget(h', u', d', desired) == d'
  {
  }

  lemma ChosenPlusLeft(d: set<Ip>, chosen: set<Ip>)
    ensures |d + chosen| == |chosen| + |d - chosen|
    ensures |d - chosen| == 0 <==> d <= chosen
  {
    assert d + chosen == chosen + (d - chosen);
    assert d <= chosen <==> d - chosen == {};
  }

  /** Planning is a fixed point of the count exactly when the plan covers every machine that is already
      deactivating; otherwise those it left out make the next count larger. */
  lemma ReplanCountIsFixedIffAllDeactivatingChosen(l: seq<Scored>, desired: int, l': seq<Scored>, now: Time)
    requires Plannable(l, desired) && Remarked(l, ChosenSet(l, desired), l', now)
    ensures Target(l', desired) == |DeactivatingMachines(l) + ChosenSet(l, desired)| >= Target(l, desired)
    ensures Target(l', desired) == Target(l, desired) <==> DeactivatingMachines(l) <= ChosenSet(l, desired)
  {
    var chosen := ChosenSet(l, desired);
    ChosenSetFacts(l, desired);
    MarkedCounts(l, chosen, l', now);
    TargetAfterMarking(|HealthyMachines(l)|, |UnhealthyMachines(l)|, |DeactivatingMachines(l)|,
                       |HealthyMachines(l')|, |UnhealthyMachines(l')|, |DeactivatingMachines(l')|,
                       |DeactivatingMachines(l) - chosen|, desired);
    ChosenPlusLeft(DeactivatingMachines(l), chosen);
  }

  lemma MarkedCounts(l: seq<Scored>, chosen: set<Ip>, l': seq<Scored>, now: Time)
    requires Remarked(l, chosen, l', now) && chosen <= Machines(l)
    ensures |HealthyMachines(l')| + |UnhealthyMachines(l')| + |DeactivatingMachines(l')| ==
            |HealthyMachines(l)| + |UnhealthyMachines(l)| + |DeactivatingMachines(l)|
    ensures |UnhealthyMachines(l')| <= |UnhealthyMachines(l)|
    ensures DeactivatingMachines(l') == DeactivatingMachines(l) + chosen
    ensures |DeactivatingMachines(l')| == |chosen| + |DeactivatingMachines(l) - chosen|
  {
    MarkedMachines(l, chosen, l', now);
    MachinesArePartitioned(l);
    MachinesArePartitioned(l');
    ChosenPlusLeft(DeactivatingMachines(l), chosen);
    SizeOfSubset(UnhealthyMachines(l'), UnhealthyMachines(l));
  }

  lemma {:induction false} SubsetOfEqualSize(a: set<Ip>, b: set<Ip>)
    requires a <= b && |a| == |b|
    ensures a == b
  {
    if x :| x in b && x !in a {
      assert a <= b - {x};
      SizeOfSubset(a, b - {x});
    }
  }

  lemma {:induction false} SizeOfSubset(a: set<Ip>, b: set<Ip>)
    requires a <= b
    ensures |a| <= |b|
  {
    assert b == a + (b - a);
  }

  // ---- the order of first occurrences -----------------------------------------------------------------

  lemma {:induction false} FirstIpsOfPrefix(l: seq<Scored>, p: nat)
    requires p <= |l|
    ensures FirstIps(l[..p]) <= FirstIps(l)
  {
    if p == |l| {
      assert l[..p] == l;
    } else {
      var front := l[..|l| - 1];
      FirstIpsOfPrefix(front, p);
      assert front[..p] == l[..p];
    }
  }

  lemma FirstIpsContain(l: seq<Scored>, ip: Ip)
    requires NoClients(l)
    ensures ip in FirstIps(l) <==> exists h :: h in l && h.host.ip == ip
  {
    FirstIpsAreMachines(l);
    assert ip in FirstIps(l) <==> ip in SetOf(FirstIps(l));
  }

  /** A machine that occurs up to p is chosen before a machine that does not. */
  lemma EarlierIsChosen(l: seq<Scored>, p: nat, t: nat, a: Ip, c: Ip)
    requires NoClients(l) && p < |l| && t <= |FirstIps(l)|
    requires l[p].host.ip == a && forall q :: 0 <= q <= p ==> l[q].host.ip != c
    requires c in FirstIps(l)[..t]
    ensures a in FirstIps(l)[..t]
  {
    var before := FirstIps(l[..p + 1]);
    FirstIpsOfPrefix(l, p + 1);
    FirstIpsContain(l[..p + 1], a);
    FirstIpsContain(l[..p + 1], c);
    assert l[..p + 1][p] == l[p];
    var i :| 0 <= i < t && FirstIps(l)[i] == c;
    assert forall k :: 0 <= k < |before| ==> FirstIps(l)[k] == before[k] && before[k] in before;
    var j :| 0 <= j < |before| && before[j] == a;
    assert FirstIps(l)[..t][j] == a;
  }

  lemma FirstOccurrence(l: seq<Scored>, ip: Ip) returns (p: nat)
    requires exists h :: h in l && h.host.ip == ip
    ensures p < |l| && l[p].host.ip == ip && forall q :: 0 <= q < p ==> l[q].host.ip != ip
  {
    p := 0;
    while l[p].host.ip != ip
      invariant p < |l| && forall q :: 0 <= q < p ==> l[q].host.ip != ip
      decreases |l| - p
    {
      if p == |l| - 1 {
        var h :| h in l && h.host.ip == ip;
        assert exists i :: 0 <= i < |l| && l[i] == h;
        assert false;
      }
      p := p + 1;
    }
  }

  // ---- planning again ---------------------------------------------------------------------------------

  /** Some container of machine c is put out sooner than x. */
  ghost predicate Precedes(l: seq<Scored>, c: Ip, x: Host, now: Time) {
    exists y :: y in l && y.host.ip == c && SoonerOut(y.host, x, now)
  }

  /** Every machine with deactivating containers only is chosen, and where a mixed machine is left out,
      every chosen machine has a container that goes before its deactivating ones. */
  ghost predicate Covered(l: seq<Scored>, desired: int, now: Time)
    requires Plannable(l, desired)
  {
    && DeactivatingMachines(l) <= ChosenSet(l, desired)
    && forall x, c :: LeftBehind(l, ChosenSet(l, desired), x) && c in ChosenSet(l, desired) ==>
         Precedes(l, c, x.host, now)
  }

  predicate LeftBehind(l: seq<Scored>, chosen: set<Ip>, x: Scored) {
    x in l && x.scale == Deactivating && x.host.ip !in chosen
  }

  lemma MarkedOrder(x: Scored, y: Scored, x': Scored, y': Scored, chosen: set<Ip>, now: Time)
    requires Follows(x, x', chosen, now) && Follows(y, y', chosen, now) && x'.scale == y'.scale
    ensures Before(y', x', now) <==> SoonerOut(y.host, x.host, now)
  {
  }

  /** A machine that is chosen in the next run has a deactivating container there. */
  lemma ChosenIsLow(l: seq<Scored>, desired: int, ip: Ip)
    requires Plannable(l, desired) && Target(l, desired) <= |LowMachines(l, Rank(Unhealthy))|
    requires ip in ChosenSet(l, desired)
    ensures Has(l, ip, Deactivating)
  {
    SliceIsLegalIffDesiredNotNegative(l, desired);
    LowMachinesComeFirst(l, Rank(Unhealthy));
    var i :| 0 <= i < |Chosen(l, desired)| && Chosen(l, desired)[i] == ip;
    assert FirstIps(l)[i] == ip;
    LowHasDeactivating(l, ip);
  }

  lemma PrecedingFollower(l: seq<Scored>, chosen: set<Ip>, l': seq<Scored>, now: Time, x: Scored, x': Scored, c: Ip)
    returns (y': Scored)
    requires Remarked(l, chosen, l', now) && c in chosen && x'.scale == Deactivating
    requires Follows(x, x', chosen, now) && Precedes(l, c, x.host, now)
    ensures y' in l' && y'.host.ip == c && Before(y', x', now)
  {
    var y :| y in l && y.host.ip == c && SoonerOut(y.host, x.host, now);
    y' := Follower(y, chosen, l', now);
    MarkedOrder(x, y, x', y', chosen, now);
    hide SoonerOut, Before, NumNotHealthyDrives;
  }

  lemma PrecedingContainer(l: seq<Scored>, chosen: set<Ip>, l': seq<Scored>, now: Time, p: nat, c: Ip) returns (q: nat)
    requires Remarked(l, chosen, l', now) && IsSorted(l', now) && c in chosen
    requires p < |l'| && l'[p].scale == Deactivating && l'[p].host.ip !in chosen
    requires forall x :: LeftBehind(l, chosen, x) ==> Precedes(l, c, x.host, now)
    ensures q < p && l'[q].host.ip == c
  {
    var x' := l'[p];
    var x := Followed(l, chosen, x', now);
    assert LeftBehind(l, chosen, x);
    var y' := PrecedingFollower(l, chosen, l', now, x, x', c);
    hide Follows, Before, Remarked, Precedes;
    q :| 0 <= q < |l'| && l'[q] == y';
  }

  /** In the next run a left-out machine is not chosen unless every chosen one is. */
  lemma LeftOutComesLast(l: seq<Scored>, desired: int, l': seq<Scored>, now: Time, m: Ip, c: Ip)
    requires Plannable(l, desired) && Remarked(l, ChosenSet(l, desired), l', now) && Plannable(l', desired)
    requires Covered(l, desired, now) && IsSorted(l', now)
    requires m !in ChosenSet(l, desired) && Has(l', m, Deactivating) && m in ChosenSet(l', desired)
    requires c in ChosenSet(l, desired)
    ensures c in ChosenSet(l', desired)
  {
    var chosen := ChosenSet(l, desired);
    var p := FirstOccurrence(l', m);
    FirstIsDeactivating(l', m, p);
    var q := PrecedingContainer(l, chosen, l', now, p, c);
    SliceIsLegalIffDesiredNotNegative(l', desired);
    hide FirstIps, Remarked, Covered, IsSorted, RankSorted, Target;
    EarlierIsChosen(l', q, Target(l', desired), c, m);
  }

  lemma FirstIsDeactivating(l: seq<Scored>, ip: Ip, p: nat)
    requires RankSorted(l) && Has(l, ip, Deactivating)
    requires p < |l| && l[p].host.ip == ip && forall q :: 0 <= q < p ==> l[q].host.ip != ip
    ensures l[p].scale == Deactivating
  {
    var h :| h in l && !h.host.mode.Client? && h.host.ip == ip && h.scale == Deactivating;
    var r :| 0 <= r < |l| && l[r] == h;
    assert p <= r;
    assert p < r ==> Rank(l[p].scale) <= Rank(l[r].scale);
  }

  lemma NextChosenWereChosen(l: seq<Scored>, desired: int, l': seq<Scored>, now: Time, m: Ip)
    requires Plannable(l, desired) && Remarked(l, ChosenSet(l, desired), l', now) && Plannable(l', desired)
    requires Covered(l, desired, now) && IsSorted(l', now)
    requires m in ChosenSet(l', desired) && Has(l', m, Deactivating)
    requires |ChosenSet(l', desired)| == |ChosenSet(l, desired)|
    ensures m in ChosenSet(l, desired)
  {
    hide *;
    if m !in ChosenSet(l, desired) {
      forall c | c in ChosenSet(l, desired)
        ensures c in ChosenSet(l', desired)
      {
        LeftOutComesLast(l, desired, l', now, m, c);
      }
      SubsetOfEqualSize(ChosenSet(l, desired), ChosenSet(l', desired));
    }
  }

  lemma CoveredCounts(l: seq<Scored>, desired: int, l': seq<Scored>, now: Time)
    requires Plannable(l, desired) && Remarked(l, ChosenSet(l, desired), l', now) && Plannable(l', desired)
    requires DeactivatingMachines(l) <= ChosenSet(l, desired)
    ensures |ChosenSet(l', desired)| == Target(l', desired) == Target(l, desired) == |ChosenSet(l, desired)|
    ensures Target(l', desired) <= |LowMachines(l', Rank(Unhealthy))|
  {
    hide *;
    ReplanCountIsFixedIffAllDeactivatingChosen(l, desired, l', now);
    ChosenSize(l, desired);
    ChosenSize(l', desired);
    ChosenAreLow(l, desired, l', now);
  }

  lemma ChosenSize(l: seq<Scored>, desired: int)
    requires Plannable(l, desired)
    ensures |ChosenSet(l, desired)| == Target(l, desired)
  {
    ChosenSetFacts(l, desired);
  }

  lemma NowDeactivating(l: seq<Scored>, desired: int, l': seq<Scored>, now: Time)
    requires Plannable(l, desired) && Remarked(l, ChosenSet(l, desired), l', now)
    requires DeactivatingMachines(l) <= ChosenSet(l, desired)
    ensures DeactivatingMachines(l') == ChosenSet(l, desired)
  {
    hide *;
    ChosenSetFacts(l, desired);
    MarkedMachines(l, ChosenSet(l, desired), l', now);
  }

  lemma ChosenAreLow(l: seq<Scored>, desired: int, l': seq<Scored>, now: Time)
    requires Plannable(l, desired) && Remarked(l, ChosenSet(l, desired), l', now)
    ensures |ChosenSet(l, desired)| <= |LowMachines(l', Rank(Unhealthy))|
  {
    ChosenSetFacts(l, desired);
    MarkedLow(l, ChosenSet(l, desired), l', now);
    SizeOfSubset(ChosenSet(l, desired), LowMachines(l', Rank(Unhealthy)));
  }

  /** A covered plan is a fixed point: in any sort order the next run has the same count and picks the
      same machines, which are exactly those now deactivating. */
  lemma CoveredPlanIsFixed(l: seq<Scored>, desired: int, l': seq<Scored>, now: Time)
    requires Plannable(l, desired) && Remarked(l, ChosenSet(l, desired), l', now) && IsSorted(l', now)
    requires Covered(l, desired, now)
    ensures Plannable(l', desired)
    ensures Target(l', desired) == Target(l, desired)
    ensures ChosenSet(l', desired) == ChosenSet(l, desired) == DeactivatingMachines(l')
  {
    assert DeactivatingMachines(l) <= ChosenSet(l, desired);
    hide *;
    NextIsPlannable(l, desired, l', now);
    NowDeactivating(l, desired, l', now);
    CoveredCounts(l, desired, l', now);
    forall m | m in ChosenSet(l', desired)
      ensures m in ChosenSet(l, desired)
    {
      ChosenIsLow(l', desired, m);
      NextChosenWereChosen(l, desired, l', now, m);
    }
    SubsetOfEqualSize(ChosenSet(l', desired), ChosenSet(l, desired));
  }

  // ---- another sort result ----------------------------------------------------------------------------

  lemma NotBeforeIsTransitive(a: Scored, b: Scored, c: Scored, now: Time)
    requires !Before(a, b, now) && !Before(b, c, now)
    ensures !Before(a, c, now)
  {
  }

  /** The list with element i moved up to position p. */
  function MovedUp(l: seq<Scored>, p: nat, i: nat): seq<Scored>
    requires p <= i < |l|
  {
    l[..p] + [l[i]] + l[p..i] + l[i + 1..]
  }

  function SourceOf(p: nat, i: nat, k: nat): nat
    requires p <= i
  {
    if k < p || k > i then k else if k == p then i else k - 1
  }

  lemma MovedUpAt(l: seq<Scored>, p: nat, i: nat, k: nat)
    requires p <= i < |l| && k < |l|
    ensures |MovedUp(l, p, i)| == |l| && MovedUp(l, p, i)[k] == l[SourceOf(p, i, k)]
  {
  }

  lemma MovedUpIsPermutation(l: seq<Scored>, p: nat, i: nat)
    requires p <= i < |l|
    ensures multiset(MovedUp(l, p, i)) == multiset(l)
  {
    assert l == l[..p] + l[p..i] + [l[i]] + l[i + 1..];
    SameParts(l[..p], l[p..i], l[i], l[i + 1..]);
  }

  lemma SameParts(a: seq<Scored>, b: seq<Scored>, x: Scored, c: seq<Scored>)
    ensures multiset(a + [x] + b + c) == multiset(a + b + [x] + c)
  {
  }

  /** Where element i of a sorted list can go at the earliest. */
  lemma EarliestPlace(l: seq<Scored>, i: nat, now: Time) returns (p: nat)
    requires IsSorted(l, now) && i < |l|
    ensures p <= i
    ensures forall j :: 0 <= j < p ==> Before(l[j], l[i], now)
    ensures forall j :: p <= j < |l| ==> !Before(l[j], l[i], now)
  {
    p := 0;
    while Before(l[p], l[i], now)
      invariant p <= i && forall j :: 0 <= j < p ==> Before(l[j], l[i], now)
      decreases i - p
    {
      p := p + 1;
    }
    forall j | p <= j < |l|
      ensures !Before(l[j], l[i], now)
    {
      if p < j {
        NotBeforeIsTransitive(l[j], l[p], l[i], now);
      }
    }
  }

  lemma MovedUpIsSorted(l: seq<Scored>, p: nat, i: nat, now: Time)
    requires IsSorted(l, now) && p <= i < |l|
    requires forall j :: 0 <= j < p ==> Before(l[j], l[i], now)
    requires forall j :: p <= j < |l| ==> !Before(l[j], l[i], now)
    ensures IsSorted(MovedUp(l, p, i), now)
  {
    var l' := MovedUp(l, p, i);
    forall u, v | 0 <= u < v < |l'|
      ensures !Before(l'[v], l'[u], now)
    {
      MovedUpAt(l, p, i, u);
      MovedUpAt(l, p, i, v);
    }
  }

  /** Some sort result puts element i before every container of a machine that has none before it. */
  lemma BroughtForward(l: seq<Scored>, i: nat, now: Time, c: Ip) returns (l': seq<Scored>, p: nat)
    requires IsSorted(l, now) && i < |l| && l[i].host.ip != c
    requires forall y :: y in l && Before(y, l[i], now) ==> y.host.ip != c
    ensures multiset(l') == multiset(l) && IsSorted(l', now)
    ensures p < |l'| && l'[p] == l[i] && forall q :: 0 <= q <= p ==> l'[q].host.ip != c
  {
    p := EarliestPlace(l, i, now);
    l' := MovedUp(l, p, i);
    MovedUpIsPermutation(l, p, i);
    MovedUpIsSorted(l, p, i, now);
    hide Before, IsSorted, MovedUp;
    MovedUpAt(l, p, i, p);
    forall q | 0 <= q < p
      ensures l'[q].host.ip != c
    {
      MovedUpAt(l, p, i, q);
    }
  }

  /** Some sort result of the same hosts puts x before every container of the machine c. */
  lemma UncoveredComesFirst(l: seq<Scored>, chosen: set<Ip>, l': seq<Scored>, now: Time, x: Scored, c: Ip)
    returns (l'': seq<Scored>, p: nat)
    requires Remarked(l, chosen, l', now) && IsSorted(l', now)
    requires LeftBehind(l, chosen, x) && c in chosen && !Precedes(l, c, x.host, now)
    ensures multiset(l'') == multiset(l') && IsSorted(l'', now)
    ensures p < |l''| && l''[p].host.ip == x.host.ip && forall q :: 0 <= q <= p ==> l''[q].host.ip != c
  {
    var x' := Follower(x, chosen, l', now);
    var i :| 0 <= i < |l'| && l'[i] == x';
    assert x'.scale == Deactivating && x'.host.ip == x.host.ip;
    hide Before, IsSorted, Remarked, Precedes, Follows;
    forall y' | y' in l' && Before(y', x', now)
      ensures y'.host.ip != c
    {
      if y'.host.ip == c {
        BeforeMeansPrecedes(l, chosen, l', now, x, x', y');
      }
    }
    l'', p := BroughtForward(l', i, now, c);
  }

  lemma BeforeMeansPrecedes(l: seq<Scored>, chosen: set<Ip>, l': seq<Scored>, now: Time, x: Scored, x': Scored,
                            y': Scored)
    requires Remarked(l, chosen, l', now) && Follows(x, x', chosen, now) && x'.scale == Deactivating
    requires y' in l' && y'.host.ip in chosen && Before(y', x', now)
    ensures Precedes(l, y'.host.ip, x.host, now)
  {
    var y := Followed(l, chosen, y', now);
    MarkedOrder(x, y, x', y', chosen, now);
  }

  lemma PermutationsAreRemarkedAlike(l: seq<Scored>, chosen: set<Ip>, l': seq<Scored>, l'': seq<Scored>, now: Time)
    requires Remarked(l, chosen, l', now) && multiset(l'') == multiset(l')
    ensures Remarked(l, chosen, l'', now)
  {
    forall h
      ensures h in l'' <==> h in l'
    {
      assert h in l'' <==> h in multiset(l'');
      assert h in l' <==> h in multiset(l');
    }
    forall h | h in l
      ensures HasFollower(h, chosen, l'', now)
    {
      var h' := Follower(h, chosen, l', now);
    }
  }

  /** A plan that is not covered may change: some sort result of the hosts that the next run sees, in
      whatever order l' it lists them, makes it pick other machines. */
  lemma UncoveredPlanMayChange(l: seq<Scored>, desired: int, l': seq<Scored>, now: Time) returns (l'': seq<Scored>)
    requires Plannable(l, desired) && Remarked(l, ChosenSet(l, desired), l', now) && IsSorted(l', now)
    requires !Covered(l, desired, now)
    ensures multiset(l'') == multiset(l') && IsSorted(l'', now)
    ensures Plannable(l'', desired) && ChosenSet(l'', desired) != ChosenSet(l, desired)
  {
    var chosen := ChosenSet(l, desired);
    l'' := l';
    if DeactivatingMachines(l) <= chosen {
      var x, c :| LeftBehind(l, chosen, x) && c in chosen && !Precedes(l, c, x.host, now);
      var p;
      l'', p := UncoveredComesFirst(l, chosen, l', now, x, c);
      PermutationsAreRemarkedAlike(l, chosen, l', l'', now);
      NextIsPlannable(l, desired, l'', now);
      SliceIsLegalIffDesiredNotNegative(l'', desired);
      if c in Chosen(l'', desired) {
        EarlierIsChosen(l'', p, Target(l'', desired), x.host.ip, c);
      }
      assert x.host.ip in ChosenSet(l'', desired) || c !in ChosenSet(l'', desired);
    } else {
      NextIsPlannable(l, desired, l', now);
      ReplanCountIsFixedIffAllDeactivatingChosen(l, desired, l', now);
      ChosenSetFacts(l, desired);
      ChosenSetFacts(l', desired);
    }
  }

  lemma NextIsPlannable(l: seq<Scored>, desired: int, l': seq<Scored>, now: Time)
    requires Plannable(l, desired) && Remarked(l, ChosenSet(l, desired), l', now) && IsSorted(l', now)
    ensures Plannable(l', desired)
  {
    SortedByRank(l', now);
    MarkedModes(l, ChosenSet(l, desired), l', now);
  }

  /** No machine has both a deactivating and an unhealthy container. */
  predicate NoMixing(l: seq<Scored>) {
    forall ip :: ip in Machines(l) ==> !(Has(l, ip, Deactivating) && Has(l, ip, Unhealthy))
  }

  /** A plan whose machines do not mix deactivating and unhealthy containers is covered. */
  lemma WithoutMixingIsCovered(l: seq<Scored>, desired: int, now: Time)
    requires Plannable(l, desired) && NoMixing(l)
    ensures Covered(l, desired, now)
  {
    forall ip | Has(l, ip, Deactivating)
      ensures ip in ChosenSet(l, desired)
    {
      LowHasDeactivating(l, ip);
      DeactivatingIsChosen(l, desired, ip);
    }
    assert forall x :: x in l && x.scale == Deactivating ==> Has(l, x.host.ip, Deactivating);
    assert forall ip :: ip in DeactivatingMachines(l) ==> Has(l, ip, Deactivating);
  }

  lemma DeactivatingIsChosen(l: seq<Scored>, desired: int, ip: Ip)
    requires Plannable(l, desired) && NoMixing(l) && ip in LowMachines(l, Rank(Unhealthy))
    ensures ip in ChosenSet(l, desired)
  {
    var low := LowMachines(l, Rank(Unhealthy));
    forall other | other in low
      ensures other in DeactivatingMachines(l)
    {
      LowHasDeactivating(l, other);
    }
    SizeOfSubset(low, DeactivatingMachines(l));
    LowMachinesComeFirst(l, Rank(Unhealthy));
    FirstIpsAreMachines(l);
    SliceIsLegalIffDesiredNotNegative(l, desired);
    LowHasDeactivating(l, ip);
    assert ip in SetOf(FirstIps(l));
    var i :| 0 <= i < |FirstIps(l)| && FirstIps(l)[i] == ip;
    assert Chosen(l, desired)[i] == ip;
  }

  // ---- draining --------------------------------------------------------------------------------------------

  /** The machines gone once marked machines have been removed: the chosen ones and any that was
      deactivating already. */
  function Removed(l: seq<Scored>, desired: int): set<Ip>
    requires Plannable(l, desired)
  {
    ChosenSet(l, desired) + DeactivatingMachines(l)
  }

  /** One round: plan, mark, remove; nothing else changes, and the next list is sorted anyhow. */
  ghost predicate Round(l: seq<Scored>, desired: int, l': seq<Scored>) {
    && Plannable(l, desired) && RankSorted(l')
    && forall h :: h in l' <==> h in l && h.host.ip !in Removed(l, desired)
  }

  lemma RoundMachines(l: seq<Scored>, desired: int, l': seq<Scored>)
    requires Round(l, desired, l')
    ensures Plannable(l', desired)
    ensures Machines(l') == Machines(l) - Removed(l, desired)
    ensures HealthyMachines(l') == HealthyMachines(l) - ChosenSet(l, desired)
  {
    var removed := Removed(l, desired);
    forall ip
      ensures ip in Machines(l') <==> ip in Machines(l) && ip !in removed
    {
      if ip in Machines(l) && ip !in removed {
        var h :| h in l && !h.host.mode.Client? && h.host.ip == ip;
        assert h in l';
      }
    }
    forall ip, scale | ip !in removed
      ensures Has(l', ip, scale) <==> Has(l, ip, scale)
    {
      if Has(l, ip, scale) {
        var h :| h in l && !h.host.mode.Client? && h.host.ip == ip && h.scale == scale;
        assert h in l';
      }
    }
  }

  /** A round leaves min(H, T) of the H healthy machines, and removes at least one machine unless the
      plan is empty. */
  lemma RoundProgress(l: seq<Scored>, desired: int, l': seq<Scored>)
    requires Round(l, desired, l')
    ensures Plannable(l', desired)
    ensures |HealthyMachines(l')| == Min(|HealthyMachines(l)|, desired)
    ensures |Machines(l')| + Target(l, desired) <= |Machines(l)|
    ensures Target(l, desired) == 0 ==> Machines(l') == Machines(l)
  {
    var chosen, removed := ChosenSet(l, desired), Removed(l, desired);
    hide Machines, HealthyMachines, DeactivatingMachines, FirstIps, RankSorted, NoClients, ChosenSet, SetOf;
    ChosenSetFacts(l, desired);
    RoundMachines(l, desired, l');
    HealthyLeft(HealthyMachines(l), chosen);
    AtLeastChosenGo(Machines(l), chosen, removed);
    hide Target, Removed;
    if Target(l, desired) == 0 {
      NothingRemoved(l, desired);
    }
  }

  lemma NothingRemoved(l: seq<Scored>, desired: int)
    requires Plannable(l, desired) && Target(l, desired) == 0
    ensures Removed(l, desired) == {}
  {
    ChosenSize(l, desired);
    assert |DeactivatingMachines(l)| == 0 && |ChosenSet(l, desired)| == 0;
    assert DeactivatingMachines(l) == {} && ChosenSet(l, desired) == {};
  }

  lemma HealthyLeft(healthy: set<Ip>, chosen: set<Ip>)
    ensures |healthy - chosen| == |healthy| - |chosen * healthy|
  {
    assert healthy == chosen * healthy + (healthy - chosen);
  }

  lemma AtLeastChosenGo(machines: set<Ip>, chosen: set<Ip>, removed: set<Ip>)
    requires chosen <= machines && chosen <= removed
    ensures |machines - removed| + |chosen| <= |machines|
  {
    SizeOfSubset((machines - removed) + chosen, machines);
    assert (machines - removed) !! chosen;
  }

  /** An empty plan means that nothing is left to remove. */
  lemma EmptyPlan(l: seq<Scored>, desired: int)
    requires Target(l, desired) == 0
    ensures UnhealthyMachines(l) == {} && DeactivatingMachines(l) == {}
    ensures Machines(l) == HealthyMachines(l) && |HealthyMachines(l)| <= desired
  {
    assert |UnhealthyMachines(l)| == 0 && |DeactivatingMachines(l)| == 0;
    assert UnhealthyMachines(l) == {} && DeactivatingMachines(l) == {};
    assert Machines(l) == HealthyMachines(l) + UnhealthyMachines(l) + DeactivatingMachines(l);
  }

  /** A history of rounds. */
  ghost predicate Rounds(lists: seq<seq<Scored>>, desired: int) {
    lists == [] || |lists| == 1 || (Round(lists[0], desired, lists[1]) && Rounds(lists[1..], desired))
  }

  /** Repeated rounds drain the cluster: after at most one round per machine no unhealthy and no
      deactivating machine is left, and exactly min(H, T) healthy ones are. */
  lemma {:induction false} RoundsDrain(lists: seq<seq<Scored>>, desired: int)
    requires Rounds(lists, desired) && lists != [] && Plannable(lists[0], desired)
    requires |lists| > |Machines(lists[0])|
    ensures var last := lists[|lists| - 1];
            && Target(last, desired) == 0
            && UnhealthyMachines(last) == {} && DeactivatingMachines(last) == {}
            && |Machines(last)| == |HealthyMachines(last)| == Min(|HealthyMachines(lists[0])|, desired)
    decreases |lists|
  {
    hide Round, Target, RankSorted, NoClients, Machines, HealthyMachines;
    hide UnhealthyMachines, DeactivatingMachines, ChosenSet;
    var l := lists[0];
    if |lists| == 1 {
      NoMachinesNoTarget(l, desired);
      EmptyPlan(l, desired);
    } else {
      var rest := lists[1..];
      RoundProgress(l, desired, rest[0]);
      if Target(l, desired) == 0 {
        EmptyPlan(l, desired);
        StaysDrained(lists, desired);
      } else {
        ChosenSetFacts(l, desired);
        RoundsDrain(rest, desired);
      }
    }
  }

  lemma NoMachinesNoTarget(l: seq<Scored>, desired: int)
    requires |Machines(l)| == 0 && desired >= 0
    ensures Target(l, desired) == 0
  {
    MachinesArePartitioned(l);
  }

  lemma {:induction false} StaysDrained(lists: seq<seq<Scored>>, desired: int)
    requires Rounds(lists, desired) && lists != [] && Plannable(lists[0], desired)
    requires Target(lists[0], desired) == 0
    ensures var last := lists[|lists| - 1];
            && Target(last, desired) == 0
            && UnhealthyMachines(last) == {} && DeactivatingMachines(last) == {}
            && |Machines(last)| == |HealthyMachines(last)| == Min(|HealthyMachines(lists[0])|, desired)
    decreases |lists|
  {
    var l := lists[0];
    EmptyPlan(l, desired);
    if |lists| > 1 {
      var rest := lists[1..];
      RoundProgress(l, desired, rest[0]);
      EmptyRound(l, desired, rest[0]);
      StaysDrained(rest, desired);
    }
  }

  lemma EmptyRound(l: seq<Scored>, desired: int, l': seq<Scored>)
    requires Round(l, desired, l') && Target(l, desired) == 0
    ensures Target(l', desired) == 0
  {
    RoundProgress(l, desired, l');
    EmptyPlan(l, desired);
    MachinesArePartitioned(l');
  }
}
