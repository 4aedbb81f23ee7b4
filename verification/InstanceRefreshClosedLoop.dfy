/**
 The refresh state machine composed with the scale set it steers. The scale set launches instances
 with ids never seen before while it is below its desired size, terminates instances while it is
 above it (originals first), and does nothing else. The scheduler polls at any time; the desired
 size it returns may fail to be written.
 */
module InstanceRefreshClosedLoop {
  import opened Wrappers
  import opened InstanceRefresh

  datatype System = System(refresh: State, desired: int, live: set<InstanceId>, ever: set<InstanceId>)

  datatype Action =
    | Launch(id: InstanceId)
    | Terminate(id: InstanceId)
    | Poll(st: WekaStatus, listing: seq<InstanceId>, written: bool, now: Time)
    | Cancel(now: Time)

  function Originals(c: System): set<InstanceId> {
    Elements(c.refresh.originalInstanceIds)
  }

  /** A listing names every live instance once, in any order. */
  predicate Lists(listing: seq<InstanceId>, live: set<InstanceId>) {
    Elements(listing) == live && |listing| == |live|
  }

  predicate Enabled(c: System, a: Action) {
    match a
    case Launch(id) => |c.live| < c.desired && id !in c.ever
    case Terminate(id) => |c.live| > c.desired && id in c.live && (c.live !! Originals(c) || id in Originals(c))
    case Poll(_, listing, _, _) => Lists(listing, c.live)
    case Cancel(_) => true
  }

  function Polled(c: System, a: Action, fleet: Fleet): Outcome
    requires a.Poll?
  {
    Advance(c.refresh, a.st, a.listing, fleet, a.now)
  }

  function Next(c: System, a: Action, fleet: Fleet): System {
    match a
    case Launch(id) => c.(live := c.live + {id}, ever := c.ever + {id})
    case Terminate(id) => c.(live := c.live - {id})
    case Poll(_, _, written, _) =>
      var o := Polled(c, a, fleet);
      c.(refresh := o.state, desired := if written && o.desired.Some? then o.desired.value else c.desired)
    case Cancel(now) => c.(refresh := Closed(c.refresh, Cancelled, now))
  }

  /** A refresh that has just been triggered on a scale set running exactly the n originals. */
  predicate Initial(c: System, n: int, k: int) {
    && n >= 1 && k >= 1
    && c.refresh == InitializeState(n, k, c.refresh.originalInstanceIds, c.refresh.startedAt)
    && Distinct(c.refresh.originalInstanceIds)
    && |c.refresh.originalInstanceIds| == n
    && c.desired == n
    && c.live == c.ever == Originals(c)
  }

  // ---- the numbers that matter --------------------------------------------------------------

  function Gone(c: System): nat {
    |Originals(c) - c.live|
  }

  /** A system reduced to its phase, iteration, size, desired size and number of lost originals. */
  datatype View = View(phase: Phase, i: int, size: int, desired: int, gone: int)

  function ViewOf(c: System): View {
    View(c.refresh.phase, c.refresh.currentIteration, |c.live|, c.desired, Gone(c))
  }

  predicate Plan(s: State, n: int, k: int) {
    && n >= 1 && k >= 1
    && s.originalSize == n && s.scaleUpInterval == k
    && s.totalIterations == CalculateTotalIterations(n, k)
    && |s.originalInstanceIds| == n && Distinct(s.originalInstanceIds)
  }

  function Up(n: int, k: int, i: int): int {
    n + Surge(n, k, i)
  }

  /** Sizes and counts while instances are being added in iteration i. */
  predicate Rising(v: View, n: int, k: int) {
    && v.gone == GoneAfter(n, k, v.i - 1)
    && (v.desired == v.size == n || (v.desired == Up(n, k, v.i) && n <= v.size <= v.desired))
  }

  /** Sizes and counts while instances are being removed in iteration i. */
  predicate Falling(v: View, n: int, k: int) {
    || (v.desired == v.size == Up(n, k, v.i) && v.gone == GoneAfter(n, k, v.i - 1))
    || (v.desired == n && n <= v.size <= Up(n, k, v.i) && v.gone + v.size == GoneAfter(n, k, v.i - 1) + Up(n, k, v.i))
  }

  predicate Shape(v: View, n: int, k: int) {
    && n >= 1 && k >= 1
    && 1 <= v.i <= CalculateTotalIterations(n, k)
    && match v.phase
       case Provisioning => Rising(v, n, k)
       case WaitingAfterScaleUp => Rising(v, n, k) && v.size == v.desired == Up(n, k, v.i)
       case WaitingAfterScaleDown => Falling(v, n, k)
       case Terminating => Falling(v, n, k)
       case Completed => Falling(v, n, k) && v.size == n && v.i == CalculateTotalIterations(n, k)
       case Cancelled => Rising(v, n, k) || Falling(v, n, k)
       case Idle => false
  }

  predicate Inv(c: System, n: int, k: int) {
    && Plan(c.refresh, n, k)
    && c.live <= c.ever && Originals(c) <= c.ever
    && Shape(ViewOf(c), n, k)
  }

  lemma InitialInv(c: System, n: int, k: int)
    requires Initial(c, n, k)
    ensures Inv(c, n, k)
  {
    TotalIterationsIsCeiling(n, k);
    ReplacedIsSetDifference(c.refresh.originalInstanceIds, c.live);
    assert Originals(c) - c.live == {};
  }

  lemma GrowingKeepsShape(v: View, n: int, k: int)
    requires Shape(v, n, k) && v.size < v.desired
    ensures Shape(v.(size := v.size + 1), n, k)
  {
    SurgeReplacesItsShare(n, k, v.i);
    hide CalculateTotalIterations;
  }

  lemma LaunchKeepsInv(c: System, id: InstanceId, fleet: Fleet, n: int, k: int)
    requires Inv(c, n, k) && Enabled(c, Launch(id))
    ensures Inv(Next(c, Launch(id), fleet), n, k)
    ensures ViewOf(Next(c, Launch(id), fleet)) == ViewOf(c).(size := |c.live| + 1)
  {
    hide Shape, Plan;
    var c' := Next(c, Launch(id), fleet);
    assert Originals(c) - c'.live == Originals(c) - c.live;
    GrowingKeepsShape(ViewOf(c), n, k);
  }

  lemma LosingOne(originals: set<InstanceId>, live: set<InstanceId>, id: InstanceId)
    requires id in originals && id in live
    ensures |originals - (live - {id})| == |originals - live| + 1
    ensures |live - {id}| == |live| - 1
  {
    assert originals - (live - {id}) == (originals - live) + {id};
  }

  /** While there are more than n instances some original is left, so it is an original that goes. */
  lemma AnOriginalGoes(c: System, id: InstanceId, n: int, k: int)
    requires Inv(c, n, k) && Enabled(c, Terminate(id))
    ensures id in Originals(c)
  {
    SurgeReplacesItsShare(n, k, c.refresh.currentIteration);
    assert c.live !! Originals(c) ==> Originals(c) - c.live == Originals(c);
  }

  lemma TerminateKeepsInv(c: System, id: InstanceId, fleet: Fleet, n: int, k: int)
    requires Inv(c, n, k) && Enabled(c, Terminate(id))
    ensures Inv(Next(c, Terminate(id), fleet), n, k)
    ensures ViewOf(Next(c, Terminate(id), fleet)) == ViewOf(c).(size := |c.live| - 1, gone := Gone(c) + 1)
  {
    AnOriginalGoes(c, id, n, k);
    LosingOne(Originals(c), c.live, id);
    SurgeReplacesItsShare(n, k, c.refresh.currentIteration);
  }

  // ---- polls in terms of the view -------------------------------------------------------------

  function Told(v: View, written: bool, size: int): View {
    if written then v.(desired := size) else v
  }

  function FinishedView(v: View, written: bool, n: int, k: int): View {
    if v.i < CalculateTotalIterations(n, k)
    then Told(v.(phase := Provisioning, i := v.i + 1), written, Up(n, k, v.i + 1))
    else v.(phase := Completed)
  }

  function MoveView(v: View, m: Move, written: bool, n: int, k: int): View {
    match m
    case Stay(size) => Told(v, written, size)
    case Enter(phase, size) => Told(v.(phase := phase), written, size)
    case Finish => FinishedView(v, written, n, k)
    case Fail(size) => Told(v, written, size)
    case Over => v
  }

  function PollView(v: View, healthyUp: bool, healthyDown: bool, written: bool, n: int, k: int): View {
    MoveView(v, Decide(v.phase, v.size, Up(n, k, v.i), n, GoneAfter(n, k, v.i), v.gone, healthyUp, healthyDown),
             written, n, k)
  }

  /** What the machine counts from a listing is what the scale set has lost. */
  lemma CountIsGone(c: System, listing: seq<InstanceId>, n: int, k: int)
    requires Plan(c.refresh, n, k) && Lists(listing, c.live)
    ensures Replaced(c.refresh.originalInstanceIds, Elements(listing)) == Gone(c)
    ensures GetExpectedReplaced(c.refresh) == GoneAfter(n, k, c.refresh.currentIteration)
    ensures ScaledUp(c.refresh) == Up(n, k, c.refresh.currentIteration)
  {
    ReplacedIsSetDifference(c.refresh.originalInstanceIds, c.live);
  }

  /** The outcome of a poll in terms of the decision taken on the view. */
  lemma PollDecidesOnView(c: System, a: Action, fleet: Fleet, n: int, k: int)
    requires Plan(c.refresh, n, k) && a.Poll? && Enabled(c, a)
    ensures var v := ViewOf(c);
            DecideFor(c.refresh, a.st, a.listing, fleet) ==
            Decide(v.phase, v.size, Up(n, k, v.i), n, GoneAfter(n, k, v.i), v.gone,
                   Healthy(a.st, Up(n, k, v.i), fleet), Healthy(a.st, n, fleet))
  {
    CountIsGone(c, a.listing, n, k);
  }

  lemma FinishedIteration(s: State, now: Time, n: int, k: int)
    requires Plan(s, n, k)
    ensures var o := IterationFinished(s, now);
            && Plan(o.state, n, k) && o.err.None? && o.state.originalInstanceIds == s.originalInstanceIds
            && if s.currentIteration < CalculateTotalIterations(n, k)
               then o.state.phase == Provisioning && o.state.currentIteration == s.currentIteration + 1
                    && o.desired == Some(Up(n, k, s.currentIteration + 1))
               else o.state.phase == Completed && o.state.currentIteration == s.currentIteration && o.desired == None
  {
  }

  lemma PollKeepsPlan(c: System, a: Action, fleet: Fleet, n: int, k: int)
    requires Plan(c.refresh, n, k) && a.Poll? && Enabled(c, a)
    ensures Plan(Next(c, a, fleet).refresh, n, k)
    ensures Originals(Next(c, a, fleet)) == Originals(c)
  {
    FinishedIteration(c.refresh, a.now, n, k);
    hide DecideFor, IterationFinished, CalculateTotalIterations;
  }

  lemma MoveActsOnView(c: System, a: Action, m: Move, fleet: Fleet, n: int, k: int)
    requires Plan(c.refresh, n, k) && a.Poll? && m == DecideFor(c.refresh, a.st, a.listing, fleet)
    ensures ViewOf(Next(c, a, fleet)) == MoveView(ViewOf(c), m, a.written, n, k)
    ensures Polled(c, a, fleet).err.Some? ==> m.Fail?
  {
    hide Plan, DecideFor, IterationFinished, CalculateTotalIterations, Up;
    FinishedIteration(c.refresh, a.now, n, k);
  }

  /** A poll acts on the view as `PollView` says. */
  lemma PollActsOnView(c: System, a: Action, fleet: Fleet, n: int, k: int)
    requires Plan(c.refresh, n, k) && a.Poll? && Enabled(c, a)
    ensures ViewOf(Next(c, a, fleet)) ==
            PollView(ViewOf(c), Healthy(a.st, Up(n, k, c.refresh.currentIteration), fleet),
                     Healthy(a.st, n, fleet), a.written, n, k)
    ensures Plan(Next(c, a, fleet).refresh, n, k)
    ensures Originals(Next(c, a, fleet)) == Originals(c)
    ensures Polled(c, a, fleet).err.Some? ==> Gone(c) > GoneAfter(n, k, c.refresh.currentIteration)
  {
    hide Plan, Healthy, DecideFor, Next, Polled, MoveView, Up, GoneAfter, Gone, Lists;
    PollDecidesOnView(c, a, fleet, n, k);
    PollKeepsPlan(c, a, fleet, n, k);
    MoveActsOnView(c, a, DecideFor(c.refresh, a.st, a.listing, fleet), fleet, n, k);
  }

  /** In every shape capacity stays within the iteration's bounds, and so do the lost originals. */
  lemma ShapeBounds(v: View, n: int, k: int)
    requires Shape(v, n, k)
    ensures n <= v.size <= Up(n, k, v.i) <= n + k
    ensures GoneAfter(n, k, v.i - 1) <= v.gone <= GoneAfter(n, k, v.i)
    ensures v.phase == Completed ==> v.gone == n == v.size
  {
    SurgeReplacesItsShare(n, k, v.i);
    TotalIterationsIsCeiling(n, k);
  }

  lemma PollViewKeepsShape(v: View, healthyUp: bool, healthyDown: bool, written: bool, n: int, k: int)
    requires Shape(v, n, k)
    ensures Shape(PollView(v, healthyUp, healthyDown, written, n, k), n, k)
  {
    hide CalculateTotalIterations, Surge, GoneAfter;
    SurgeReplacesItsShare(n, k, v.i);
    if v.i < CalculateTotalIterations(n, k) {
      SurgeReplacesItsShare(n, k, v.i + 1);
    }
  }

  lemma PollKeepsInv(c: System, a: Action, fleet: Fleet, n: int, k: int)
    requires Inv(c, n, k) && a.Poll? && Enabled(c, a)
    ensures Inv(Next(c, a, fleet), n, k)
    ensures Polled(c, a, fleet).err.None?
  {
    PollActsOnView(c, a, fleet, n, k);
    PollViewKeepsShape(ViewOf(c), Healthy(a.st, Up(n, k, c.refresh.currentIteration), fleet),
                       Healthy(a.st, n, fleet), a.written, n, k);
    ShapeBounds(ViewOf(c), n, k);
  }

  lemma CancelKeepsInv(c: System, a: Action, fleet: Fleet, n: int, k: int)
    requires Inv(c, n, k) && a.Cancel? && Enabled(c, a)
    ensures Inv(Next(c, a, fleet), n, k)
  {
    CancelledShape(ViewOf(c), n, k);
    hide Shape;
    assert ViewOf(Next(c, a, fleet)) == ViewOf(c).(phase := Cancelled);
  }

  lemma CancelledShape(v: View, n: int, k: int)
    requires Shape(v, n, k)
    ensures Shape(v.(phase := Cancelled), n, k)
  {
  }

  lemma StepKeepsInv(c: System, a: Action, fleet: Fleet, n: int, k: int)
    requires Inv(c, n, k) && Enabled(c, a)
    ensures Inv(Next(c, a, fleet), n, k)
  {
    hide Inv, ViewOf;
    match a
    case Launch(id) => LaunchKeepsInv(c, id, fleet, n, k);
    case Terminate(id) => TerminateKeepsInv(c, id, fleet, n, k);
    case Poll(_, _, _, _) => PollKeepsInv(c, a, fleet, n, k);
    case Cancel(_) => CancelKeepsInv(c, a, fleet, n, k);
  }

  // ---- finite runs: safety ------------------------------------------------------------------------

  function Run(c0: System, actions: seq<Action>, fleet: Fleet): System {
    if actions == [] then c0
    else Next(Run(c0, actions[..|actions| - 1], fleet), actions[|actions| - 1], fleet)
  }

  predicate Legal(c0: System, actions: seq<Action>, fleet: Fleet) {
    actions == [] ||
    var last := |actions| - 1;
    Legal(c0, actions[..last], fleet) && Enabled(Run(c0, actions[..last], fleet), actions[last])
  }

  lemma {:induction false} ReachableInv(c0: System, actions: seq<Action>, fleet: Fleet, n: int, k: int)
    requires Initial(c0, n, k) && Legal(c0, actions, fleet)
    ensures Inv(Run(c0, actions, fleet), n, k)
  {
    if actions == [] {
      InitialInv(c0, n, k);
    } else {
      var last := |actions| - 1;
      ReachableInv(c0, actions[..last], fleet, n, k);
      StepKeepsInv(Run(c0, actions[..last], fleet), actions[last], fleet, n, k);
    }
  }

  /** Safety of every reachable state: capacity never falls below the original size nor rises above
      the scaled-up size, and never more originals are gone than the iteration may replace. */
  lemma ReachableIsSafe(c0: System, actions: seq<Action>, fleet: Fleet, n: int, k: int)
    requires Initial(c0, n, k) && Legal(c0, actions, fleet)
    ensures var c := Run(c0, actions, fleet);
            var i := c.refresh.currentIteration;
            && n <= |c.live| <= ScaledUp(c.refresh) <= n + k
            && GoneAfter(n, k, i - 1) <= Gone(c) <= GoneAfter(n, k, i)
            && (c.refresh.phase == Completed ==> Gone(c) == n == |c.live|)
  {
    ReachableInv(c0, actions, fleet, n, k);
    var c := Run(c0, actions, fleet);
    ShapeBounds(ViewOf(c), n, k);
    assert ScaledUp(c.refresh) == Up(n, k, c.refresh.currentIteration);
  }

  /** Some iteration of c's refresh ends with this poll. */
  predicate EndsIteration(c: System, o: Outcome) {
    || o.state.currentIteration != c.refresh.currentIteration
    || (o.state.phase == Completed && c.refresh.phase != Completed)
  }

  lemma OutcomeIsSafe(c: System, a: Action, fleet: Fleet, n: int, k: int)
    requires Inv(c, n, k) && a.Poll? && Enabled(c, a)
    ensures var o := Polled(c, a, fleet);
            && (o.desired.Some? ==> o.desired.value == GetExpectedDesiredSize(o.state))
            && (o.desired.None? <==> !IsInProgress(o.state))
            && (EndsIteration(c, o) ==>
                  |c.live| == n && Gone(c) == GoneAfter(n, k, c.refresh.currentIteration))
            && (c.refresh.phase == WaitingAfterScaleUp ==> o.state.phase != Provisioning)
  {
    PollDecidesOnView(c, a, fleet, n, k);
    FinishedIteration(c.refresh, a.now, n, k);
    ShapeBounds(ViewOf(c), n, k);
  }

  /** What any poll of a reachable state returns: never an error, a desired size that matches the
      state it leaves behind, and an end of iteration i only when exactly min(i*k, n) originals are
      gone. Only a refresh that is over asks for no size, and without crashes the machine never falls
      back from waiting for the cluster to provisioning. */
  lemma PollIsSafe(c0: System, actions: seq<Action>, a: Action, fleet: Fleet, n: int, k: int)
    requires Initial(c0, n, k) && Legal(c0, actions, fleet)
    requires a.Poll? && Enabled(Run(c0, actions, fleet), a)
    ensures var c := Run(c0, actions, fleet);
            var o := Polled(c, a, fleet);
            && o.err.None?
            && (o.desired.Some? ==> o.desired.value == GetExpectedDesiredSize(o.state))
            && (o.desired.None? <==> !IsInProgress(o.state))
            && (EndsIteration(c, o) ==>
                  |c.live| == n && Gone(c) == GoneAfter(n, k, c.refresh.currentIteration))
            && (c.refresh.phase == WaitingAfterScaleUp ==> o.state.phase != Provisioning)
  {
    ReachableInv(c0, actions, fleet, n, k);
    PollKeepsInv(Run(c0, actions, fleet), a, fleet, n, k);
    OutcomeIsSafe(Run(c0, actions, fleet), a, fleet, n, k);
  }

  // ---- infinite runs: progress ------------------------------------------------------------------------

  /** The phases still ahead. */
  function Ahead(v: View, n: int, k: int): int {
    var iterations := CalculateTotalIterations(n, k) - v.i;
    match v.phase
    case Provisioning => 4 * iterations + 4
    case WaitingAfterScaleUp => 4 * iterations + 3
    case WaitingAfterScaleDown => 4 * iterations + 2
    case Terminating => 4 * iterations + 1
    case _ => 0
  }

  function Target(v: View, n: int, k: int): int {
    if v.phase in {Provisioning, WaitingAfterScaleUp} then Up(n, k, v.i) else n
  }

  function Distance(v: View, n: int, k: int): int {
    var e := Target(v, n, k);
    (if v.desired == e then 0 else 1) + (if v.size >= e then v.size - e else e - v.size)
  }

  /** Decreases with every step that helps and is left alone by every other step. */
  function Rank(v: View, n: int, k: int): int {
    Ahead(v, n, k) * (k + 2) + Distance(v, n, k)
  }

  predicate IsGoodPoll(c: System, a: Action, fleet: Fleet) {
    a.Poll? && a.written && Healthy(a.st, |c.live|, fleet)
  }

  predicate IsScaling(a: Action) {
    a.Launch? || a.Terminate?
  }

  /** The scale set is as large as it was told to be. */
  predicate Settled(c: System) {
    |c.live| == c.desired
  }

  lemma RankBounds(v: View, n: int, k: int)
    requires Shape(v, n, k)
    ensures 0 <= Distance(v, n, k) <= k + 1
    ensures 0 <= Ahead(v, n, k)
    ensures Rank(v, n, k) >= 0
  {
    SurgeReplacesItsShare(n, k, v.i);
    MulMonotone(0, Ahead(v, n, k), k + 2);
  }

  predicate Closer(v: View, v': View, n: int, k: int) {
    || Ahead(v', n, k) < Ahead(v, n, k)
    || (Ahead(v', n, k) == Ahead(v, n, k) && Distance(v', n, k) < Distance(v, n, k))
  }

  lemma ProductDrops(a': int, a: int, m: int, d': int, d: int)
    requires a' < a && 0 <= d' < m && 0 <= d
    ensures a' * m + d' < a * m + d
  {
    MulMonotone(a' + 1, a, m);
    assert (a' + 1) * m == a' * m + m;
  }

  lemma CloserDropsRank(v: View, v': View, n: int, k: int)
    requires Shape(v, n, k) && Shape(v', n, k) && Closer(v, v', n, k)
    ensures Rank(v', n, k) < Rank(v, n, k)
  {
    hide Shape, Ahead, Distance;
    RankBounds(v, n, k);
    RankBounds(v', n, k);
    if Ahead(v', n, k) < Ahead(v, n, k) {
      ProductDrops(Ahead(v', n, k), Ahead(v, n, k), k + 2, Distance(v', n, k), Distance(v, n, k));
    }
  }

  /** A poll brings the view closer to completion or leaves it alone; a written poll that is healthy at
      the present, settled size never leaves it alone. */
  lemma PollViewHelpsOrIsQuiet(v: View, healthyUp: bool, healthyDown: bool, written: bool, n: int, k: int)
    requires Shape(v, n, k)
    ensures var v' := PollView(v, healthyUp, healthyDown, written, n, k);
            || Closer(v, v', n, k)
            || (v' == v &&
                (InProgress(v.phase) && written && v.size == v.desired ==>
                   (v.size == Up(n, k, v.i) && !healthyUp) || (v.size == n && !healthyDown)))
  {
    SurgeReplacesItsShare(n, k, v.i);
    if v.i < CalculateTotalIterations(n, k) {
      SurgeReplacesItsShare(n, k, v.i + 1);
    }
  }

  lemma StepHelpsOrIsQuiet(c: System, a: Action, fleet: Fleet, n: int, k: int)
    requires Inv(c, n, k) && Enabled(c, a) && !a.Cancel? && InProgress(c.refresh.phase)
    ensures Inv(Next(c, a, fleet), n, k)
    ensures var v, v' := ViewOf(c), ViewOf(Next(c, a, fleet));
            && (Rank(v', n, k) < Rank(v, n, k) || v' == v)
            && (IsScaling(a) || (IsGoodPoll(c, a, fleet) && Settled(c)) ==> Rank(v', n, k) < Rank(v, n, k))
  {
    StepKeepsInv(c, a, fleet, n, k);
    var v, v' := ViewOf(c), ViewOf(Next(c, a, fleet));
    match a {
      case Poll(_, _, _, _) =>
        PollActsOnView(c, a, fleet, n, k);
        PollViewHelpsOrIsQuiet(v, Healthy(a.st, Up(n, k, c.refresh.currentIteration), fleet),
                               Healthy(a.st, n, fleet), a.written, n, k);
      case Launch(id) =>
        LaunchKeepsInv(c, id, fleet, n, k);
        SurgeReplacesItsShare(n, k, v.i);
      case Terminate(id) =>
        TerminateKeepsInv(c, id, fleet, n, k);
        SurgeReplacesItsShare(n, k, v.i);
    }
    if v' != v {
      CloserDropsRank(v, v', n, k);
    }
  }

  /** An unending schedule: the state at each time and the action taken there. */
  ghost predicate IsRun(run: nat -> System, act: nat -> Action, fleet: Fleet) {
    forall t: nat :: Enabled(run(t), act(t)) && !act(t).Cancel? && run(t + 1) == Next(run(t), act(t), fleet)
  }

  /** The scale set does not stay away from its desired size for ever without launching or terminating. */
  ghost predicate ScaleSetFair(run: nat -> System, act: nat -> Action) {
    forall t: nat :: EventuallyScalesOrSettles(run, act, t)
  }

  ghost predicate EventuallyScalesOrSettles(run: nat -> System, act: nat -> Action, t: nat) {
    exists u: nat :: ScalesOrSettled(run, act, t, u)
  }

  ghost predicate ScalesOrSettled(run: nat -> System, act: nat -> Action, t: nat, u: nat) {
    u >= t && (IsScaling(act(u)) || Settled(run(u)))
  }

  /** While the scale set stays settled, a poll eventually comes that writes its size and sees a cluster
      that is healthy for the instances it has. Polls at other times may see anything and lose writes. */
  ghost predicate PollFair(run: nat -> System, act: nat -> Action, fleet: Fleet) {
    forall t: nat :: EventuallyPollsWell(run, act, fleet, t)
  }

  ghost predicate EventuallyPollsWell(run: nat -> System, act: nat -> Action, fleet: Fleet, t: nat) {
    exists u: nat :: GoodPollOrUnsettled(run, act, fleet, t, u)
  }

  ghost predicate GoodPollOrUnsettled(run: nat -> System, act: nat -> Action, fleet: Fleet, t: nat, u: nat) {
    u >= t && (IsGoodPoll(run(u), act(u), fleet) || !Settled(run(u)))
  }

  lemma NextStep(run: nat -> System, act: nat -> Action, fleet: Fleet, t: nat)
    requires IsRun(run, act, fleet)
    ensures Enabled(run(t), act(t)) && !act(t).Cancel? && run(t + 1) == Next(run(t), act(t), fleet)
  {
  }

  lemma StepIsNotCancelled(c: System, a: Action, fleet: Fleet)
    requires !a.Cancel? && c.refresh.phase != Cancelled
    ensures Next(c, a, fleet).refresh.phase != Cancelled
  {
  }

  lemma {:induction false} RunInv(run: nat -> System, act: nat -> Action, fleet: Fleet, n: int, k: int, t: nat)
    requires Initial(run(0), n, k) && IsRun(run, act, fleet)
    ensures Inv(run(t), n, k) && run(t).refresh.phase != Cancelled
  {
    if t == 0 {
      InitialInv(run(0), n, k);
    } else {
      RunInv(run, act, fleet, n, k, t - 1);
      NextStep(run, act, fleet, t - 1);
      StepKeepsInv(run(t - 1), act(t - 1), fleet, n, k);
      StepIsNotCancelled(run(t - 1), act(t - 1), fleet);
    }
  }

  function RankAt(run: nat -> System, n: int, k: int, t: nat): int {
    Rank(ViewOf(run(t)), n, k)
  }

  lemma PhaseOfView(c: System, c': System)
    requires ViewOf(c) == ViewOf(c')
    ensures c.refresh.phase == c'.refresh.phase
    ensures Settled(c) == Settled(c')
  {
    assert ViewOf(c).phase == ViewOf(c').phase;
    assert ViewOf(c).size == ViewOf(c').size && ViewOf(c).desired == ViewOf(c').desired;
  }

  lemma StepAt(run: nat -> System, act: nat -> Action, fleet: Fleet, n: int, k: int, t: nat)
    requires Initial(run(0), n, k) && IsRun(run, act, fleet) && InProgress(run(t).refresh.phase)
    ensures RankAt(run, n, k, t + 1) < RankAt(run, n, k, t) || ViewOf(run(t + 1)) == ViewOf(run(t))
    ensures IsScaling(act(t)) || (IsGoodPoll(run(t), act(t), fleet) && Settled(run(t))) ==>
              RankAt(run, n, k, t + 1) < RankAt(run, n, k, t)
  {
    RunInv(run, act, fleet, n, k, t);
    NextStep(run, act, fleet, t);
    StepHelpsOrIsQuiet(run(t), act(t), fleet, n, k);
  }

  /** Between t and u either the rank dropped or nothing that matters happened. */
  lemma {:induction false} StretchHelpsOrIsQuiet(run: nat -> System, act: nat -> Action, fleet: Fleet,
                                                 n: int, k: int, t: nat, u: nat)
    returns (v: nat)
    requires Initial(run(0), n, k) && IsRun(run, act, fleet) && t <= u
    requires InProgress(run(t).refresh.phase)
    ensures t <= v <= u
    ensures RankAt(run, n, k, v) < RankAt(run, n, k, t) || ViewOf(run(t)) == ViewOf(run(u))
    decreases u - t
  {
    v := t;
    if t < u {
      v := StretchHelpsOrIsQuiet(run, act, fleet, n, k, t, u - 1);
      if RankAt(run, n, k, v) >= RankAt(run, n, k, t) {
        v := u;
        PhaseOfView(run(t), run(u - 1));
        StepAt(run, act, fleet, n, k, u - 1);
      }
    }
  }

  /** From any time on the rank eventually drops, as long as the refresh is in progress. */
  lemma RankEventuallyDrops(run: nat -> System, act: nat -> Action, fleet: Fleet, n: int, k: int, t: nat)
    returns (v: nat)
    requires Initial(run(0), n, k) && IsRun(run, act, fleet)
    requires ScaleSetFair(run, act) && PollFair(run, act, fleet)
    requires InProgress(run(t).refresh.phase)
    ensures v >= t && RankAt(run, n, k, v) < RankAt(run, n, k, t)
  {
    assert EventuallyScalesOrSettles(run, act, t);
    var u: nat :| ScalesOrSettled(run, act, t, u);
    v := StretchHelpsOrIsQuiet(run, act, fleet, n, k, t, u);
    if RankAt(run, n, k, v) < RankAt(run, n, k, t) {
      return;
    }
    PhaseOfView(run(t), run(u));
    if IsScaling(act(u)) {
      StepAt(run, act, fleet, n, k, u);
      v := u + 1;
      return;
    }
    assert EventuallyPollsWell(run, act, fleet, u);
    var w: nat :| GoodPollOrUnsettled(run, act, fleet, u, w);
    v := StretchHelpsOrIsQuiet(run, act, fleet, n, k, u, w);
    if RankAt(run, n, k, v) >= RankAt(run, n, k, t) {
      PhaseOfView(run(u), run(w));
      StepAt(run, act, fleet, n, k, w);
      v := w + 1;
    }
  }

  lemma {:induction false} EventuallyCompletedFrom(run: nat -> System, act: nat -> Action, fleet: Fleet,
                                                   n: int, k: int, t: nat)
    returns (u: nat)
    requires Initial(run(0), n, k) && IsRun(run, act, fleet)
    requires ScaleSetFair(run, act) && PollFair(run, act, fleet)
    ensures u >= t && run(u).refresh.phase == Completed
    decreases RankAt(run, n, k, t)
  {
    RunInv(run, act, fleet, n, k, t);
    u := t;
    if InProgress(run(t).refresh.phase) {
      var v := RankEventuallyDrops(run, act, fleet, n, k, t);
      RunInv(run, act, fleet, n, k, v);
      RankBounds(ViewOf(run(t)), n, k);
      RankBounds(ViewOf(run(v)), n, k);
      u := EventuallyCompletedFrom(run, act, fleet, n, k, v);
    }
  }

  /** Progress: whatever polls see and lose in between, a refresh on a fair schedule reaches Completed
      with all n originals replaced and exactly n instances running. */
  lemma FairRunCompletes(run: nat -> System, act: nat -> Action, fleet: Fleet, n: int, k: int)
    returns (u: nat)
    requires Initial(run(0), n, k) && IsRun(run, act, fleet)
    requires ScaleSetFair(run, act) && PollFair(run, act, fleet)
    ensures run(u).refresh.phase == Completed
    ensures |run(u).live| == n && run(u).live !! Originals(run(u))
  {
    u := EventuallyCompletedFrom(run, act, fleet, n, k, 0);
    RunInv(run, act, fleet, n, k, u);
    SurgeReplacesItsShare(n, k, run(u).refresh.currentIteration);
    TotalIterationsIsCeiling(n, k);
    AllGoneMeansNoneLive(run(u), n, k);
  }

  lemma AllGoneMeansNoneLive(c: System, n: int, k: int)
    requires Inv(c, n, k) && Gone(c) == n
    ensures c.live !! Originals(c)
  {
    ReplacedIsSetDifference(c.refresh.originalInstanceIds, c.live);
    AllReplacedIffNoneLeft(c.refresh.originalInstanceIds, c.live);
  }
}
