/**
 The closed loop as a special case of the open runs, and the schedules that complete a refresh: from
 wherever a run that was not cancelled stands, some schedule still completes it.
 */
module InstanceRefreshSchedules {
  import opened InstanceRefresh
  import opened InstanceRefreshClosedLoop
  import Open = InstanceRefreshRuns

  // ---- closed runs are open runs -------------------------------------------------------------------

  /** What the state machine sees of an action: polls and cancels, nothing of the scale set. */
  function Seen(a: Action): seq<Open.Event> {
    match a
    case Poll(st, listing, _, now) => [Open.Poll(st, listing, now)]
    case Cancel(now) => [Open.Cancel(now)]
    case _ => []
  }

  function Events(actions: seq<Action>): seq<Open.Event> {
    if actions == [] then [] else Events(actions[..|actions| - 1]) + Seen(actions[|actions| - 1])
  }

  lemma OpenStep(s0: State, events: seq<Open.Event>, e: Open.Event, fleet: Fleet)
    ensures Open.Run(s0, events + [e], fleet) == Open.Apply(Open.Run(s0, events, fleet), e, fleet)
    ensures Open.Count(s0, events + [e], fleet).fallbacks ==
            Open.Count(s0, events, fleet).fallbacks
            + if Open.FallsBack(Open.Run(s0, events, fleet), e, fleet) then 1 else 0
  {
    assert (events + [e])[..|events|] == events;
  }

  lemma StepAgrees(c: System, a: Action, fleet: Fleet)
    ensures |Seen(a)| <= 1
    ensures Next(c, a, fleet).refresh == if Seen(a) == [] then c.refresh else Open.Apply(c.refresh, Seen(a)[0], fleet)
  {
    hide Advance, Closed;
  }

  /** Every run of the closed loop is an open run of its state machine, so whatever holds of all open
      runs holds in the closed loop. */
  lemma {:induction false} ClosedRunIsOpenRun(c0: System, actions: seq<Action>, fleet: Fleet)
    ensures Open.Run(c0.refresh, Events(actions), fleet) == Run(c0, actions, fleet).refresh
  {
    if actions != [] {
      var front, last := actions[..|actions| - 1], actions[|actions| - 1];
      ClosedRunIsOpenRun(c0, front, fleet);
      StepAgrees(Run(c0, front, fleet), last, fleet);
      hide Next, Seen, Open.Apply;
      if Seen(last) != [] {
        OpenStep(c0.refresh, Events(front), Seen(last)[0], fleet);
        hide Open.Run;
        assert Seen(last) == [Seen(last)[0]];
      } else {
        assert Events(actions) == Events(front);
      }
    }
  }

  // ---- no dead ends ----------------------------------------------------------------------------------

  lemma {:induction false} LongerThanAll(ids: set<InstanceId>) returns (n: nat)
    ensures forall id | id in ids :: |id.name| < n
    decreases ids
  {
    n := 0;
    if ids != {} {
      var id :| id in ids;
      n := LongerThanAll(ids - {id});
      n := n + |id.name| + 1;
    }
  }

  lemma FreshId(ids: set<InstanceId>) returns (id: InstanceId)
    ensures id !in ids
  {
    var n := LongerThanAll(ids);
    id := InstanceId(seq(n, _ => 'i'));
  }

  lemma {:induction false} Listing(live: set<InstanceId>) returns (listing: seq<InstanceId>)
    ensures Lists(listing, live)
    decreases live
  {
    listing := [];
    if live != {} {
      var id :| id in live;
      var rest := Listing(live - {id});
      listing := rest + [id];
      assert Elements(listing) == Elements(rest) + {id};
    }
  }

  predicate Helps(c: System, a: Action, fleet: Fleet) {
    !a.Cancel? && (IsScaling(a) || (IsGoodPoll(c, a, fleet) && Settled(c)))
  }

  /** An instance the scale set may terminate: an original as long as one is live. */
  lemma Victim(c: System) returns (a: Action)
    requires |c.live| > c.desired && c.live != {}
    ensures Enabled(c, a) && IsScaling(a)
  {
    if c.live !! Originals(c) {
      var id :| id in c.live;
      a := Terminate(id);
    } else {
      var id :| id in c.live && id in Originals(c);
      a := Terminate(id);
    }
  }

  lemma HelpfulAction(c: System, fleet: Fleet, n: int, k: int) returns (a: Action)
    requires Inv(c, n, k)
    ensures Enabled(c, a) && Helps(c, a, fleet)
  {
    ShapeBounds(ViewOf(c), n, k);
    if |c.live| < c.desired {
      var id := FreshId(c.ever);
      a := Launch(id);
    } else if |c.live| > c.desired {
      a := Victim(c);
    } else {
      var listing := Listing(c.live);
      a := Poll(HealthyReport(|c.live|, fleet), listing, true, 0);
    }
  }

  lemma HelpfulStep(c: System, fleet: Fleet, n: int, k: int) returns (a: Action)
    requires Inv(c, n, k) && c.refresh.phase != Completed && c.refresh.phase != Cancelled
    ensures Enabled(c, a)
    ensures var c' := Next(c, a, fleet);
            c'.refresh.phase != Cancelled && 0 <= Rank(ViewOf(c'), n, k) < Rank(ViewOf(c), n, k)
  {
    a := HelpfulAction(c, fleet, n, k);
    StepHelpsOrIsQuiet(c, a, fleet, n, k);
    StepIsNotCancelled(c, a, fleet);
    RankBounds(ViewOf(Next(c, a, fleet)), n, k);
    hide Next, Enabled, Rank, ViewOf;
  }

  /** From every state a run reaches, whatever it polled and lost so far and unless it was cancelled,
      some further actions complete the refresh. */
  lemma {:induction false} CompletionStaysPossible(c0: System, actions: seq<Action>, fleet: Fleet, n: int, k: int)
    returns (more: seq<Action>)
    requires Initial(c0, n, k) && Legal(c0, actions, fleet)
    requires Run(c0, actions, fleet).refresh.phase != Cancelled
    ensures Legal(c0, actions + more, fleet)
    ensures Run(c0, actions + more, fleet).refresh.phase == Completed
    decreases Rank(ViewOf(Run(c0, actions, fleet)), n, k)
  {
    hide *;
    var c := Run(c0, actions, fleet);
    ReachableInv(c0, actions, fleet, n, k);
    if c.refresh.phase == Completed {
      more := [];
      assert actions + more == actions;
    } else {
      var a := HelpfulStep(c, fleet, n, k);
      OneMore(c0, actions, a, fleet);
      var rest := CompletionStaysPossible(c0, actions + [a], fleet, n, k);
      more := [a] + rest;
      assert actions + more == actions + [a] + rest;
    }
  }

  lemma OneMore(c0: System, actions: seq<Action>, a: Action, fleet: Fleet)
    requires Legal(c0, actions, fleet) && Enabled(Run(c0, actions, fleet), a)
    ensures Legal(c0, actions + [a], fleet)
    ensures Run(c0, actions + [a], fleet) == Next(Run(c0, actions, fleet), a, fleet)
  {
    assert (actions + [a])[..|actions|] == actions;
  }

  /** The step of an open run that completes it. */
  lemma {:induction false} CompletingStep(s0: State, events: seq<Open.Event>, fleet: Fleet)
    returns (before: seq<Open.Event>, e: Open.Event)
    requires s0.phase != Completed && Open.Run(s0, events, fleet).phase == Completed
    ensures Open.Run(s0, before, fleet).phase != Completed
    ensures Open.Apply(Open.Run(s0, before, fleet), e, fleet).phase == Completed
  {
    before, e := events[..|events| - 1], events[|events| - 1];
    hide Open.Apply;
    if Open.Run(s0, before, fleet).phase == Completed {
      before, e := CompletingStep(s0, before, fleet);
    }
  }

  /** For every plan some open run completes: the theorems about completed runs speak of something. */
  lemma CompletionIsReachable(n: int, k: int, originals: seq<InstanceId>, start: Time, fleet: Fleet)
    returns (events: seq<Open.Event>, e: Open.Event)
    requires n >= 1 && k >= 1 && Distinct(originals) && |originals| == n
    ensures var s := Open.Run(InitializeState(n, k, originals, start), events, fleet);
            s.phase != Completed && Open.Apply(s, e, fleet).phase == Completed
  {
    var c0 := System(InitializeState(n, k, originals, start), n, Elements(originals), Elements(originals));
    assert Legal(c0, [], fleet) && Run(c0, [], fleet) == c0;
    var actions := CompletionStaysPossible(c0, [], fleet, n, k);
    hide Open.Run, Open.Apply, Run, Legal;
    ClosedRunIsOpenRun(c0, [] + actions, fleet);
    events, e := CompletingStep(c0.refresh, Events([] + actions), fleet);
  }

  // ---- the cost of a completed refresh -----------------------------------------------------------------

  /** Without crashes the machine never falls back, so a refresh that completes in the closed loop does
      so after three changes of state an iteration, plus one for each detour through Terminating. */
  lemma ClosedCompletionCount(c0: System, actions: seq<Action>, fleet: Fleet, n: int, k: int)
    requires Initial(c0, n, k) && Legal(c0, actions, fleet)
    requires Run(c0, actions, fleet).refresh.phase == Completed
    ensures var t := Open.Count(c0.refresh, Events(actions), fleet);
            var total := CalculateTotalIterations(n, k);
            t.fallbacks == 0 && t.changed == 3 * total + t.terminations
  {
    ClosedRunIsOpenRun(c0, actions, fleet);
    NeverFallsBack(c0, actions, fleet, n, k);
    Open.CompletionCount(n, k, c0.refresh.originalInstanceIds, c0.refresh.startedAt, Events(actions), fleet);
  }

  lemma PollDoesNotFallBack(c0: System, actions: seq<Action>, a: Action, fleet: Fleet, n: int, k: int)
    requires Initial(c0, n, k) && Legal(c0, actions, fleet) && Enabled(Run(c0, actions, fleet), a)
    requires a.Poll? || a.Cancel?
    ensures !Open.FallsBack(Run(c0, actions, fleet).refresh, Seen(a)[0], fleet)
  {
    if a.Poll? {
      PollIsSafe(c0, actions, a, fleet, n, k);
      hide Run, Legal, Initial, Enabled, Advance;
    }
  }

  lemma {:induction false} NeverFallsBack(c0: System, actions: seq<Action>, fleet: Fleet, n: int, k: int)
    requires Initial(c0, n, k) && Legal(c0, actions, fleet)
    ensures Open.Count(c0.refresh, Events(actions), fleet).fallbacks == 0
  {
    if actions != [] {
      var front, last := actions[..|actions| - 1], actions[|actions| - 1];
      NeverFallsBack(c0, front, fleet, n, k);
      ClosedRunIsOpenRun(c0, front, fleet);
      if last.Poll? || last.Cancel? {
        PollDoesNotFallBack(c0, front, last, fleet, n, k);
        OpenStep(c0.refresh, Events(front), Seen(last)[0], fleet);
      } else {
        assert Events(actions) == Events(front);
      }
    }
  }
}
