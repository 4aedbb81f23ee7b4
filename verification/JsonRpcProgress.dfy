/**
 Unending schedules of a connection: when handlers return and writes go through, every request that
 was spawned comes to its end, in spite of the baton each one waits for.
 */
module JsonRpcProgress {
  import opened JsonRpcRequest
  import opened JsonRpcConnection
  import S = JsonRpcServer

  /** A run from a new connection: the state at each time and the step taken there. */
  ghost predicate IsRun(run: nat -> Conn, act: nat -> Step, handlers: nat) {
    run(0) == NewConn(handlers) && forall t: nat :: StepsTo(run, act, t)
  }

  predicate StepsTo(run: nat -> Conn, act: nat -> Step, t: nat) {
    Enabled(run(t), act(t)) && run(t + 1) == Next(run(t), act(t))
  }

  /** The request's goroutine is spawned, has not ended, and does not wait for the one before it. */
  predicate Ready(s: S.Server, i: nat) {
    && i < |s.workers|
    && !s.workers[i].pc.Created? && !s.workers[i].pc.Ended?
    && (s.workers[i].pc.Blocked? ==> S.BatonFree(s, i))
  }

  /** A step that takes the goroutine forward: its start, the return of a handler, the deferred calls, or
      the end of a write. A handler's call of Parallel or Reply alone does not. */
  predicate Forward(step: Step, i: nat) {
    step.Serve? && !step.server.Cancel? && step.server.i == i
    && !step.server.HandlerParallel? && !step.server.HandlerReply?
  }

  predicate ForwardOrNotReady(run: nat -> Conn, act: nat -> Step, i: nat, u: nat) {
    Forward(act(u), i) || !Ready(run(u).server, i)
  }

  ghost predicate EventuallyForward(run: nat -> Conn, act: nat -> Step, i: nat, t: nat) {
    exists u: nat :: u >= t && ForwardOrNotReady(run, act, i, u)
  }

  /** No goroutine stays ready for ever without being taken forward: handlers return, writes end. */
  ghost predicate Fair(run: nat -> Conn, act: nat -> Step) {
    forall i: nat, t: nat :: EventuallyForward(run, act, i, t)
  }

  // ---- what is still ahead of a goroutine ---------------------------------------------------------------

  function Stage(pc: S.Pc, handlers: nat): nat {
    match pc
    case Created => handlers + 7
    case Blocked => handlers + 6
    case Delivering(h, _) => if h < handlers then handlers - h + 5 else 5
    case Unregistering => 4
    case AutoReplying => 3
    case Releasing => 2
    case Finishing => 1
    case Ended => 0
  }

  function ReplyAhead(r: S.ReplyStatus): nat {
    match r
    case NoReply => 2
    case Writing(_) => 1
    case _ => 0
  }

  function Ahead(s: S.Server, i: nat): nat
    requires i < |s.workers|
  {
    3 * Stage(s.workers[i].pc, s.handlers) + ReplyAhead(s.workers[i].reply)
  }

  lemma OwnStepGoesForward(s: S.Server, step: S.ServerStep)
    requires S.Enabled(s, step) && !step.Cancel? && S.WorkerOk(s.workers[step.i])
    ensures var s' := S.Next(s, step);
            && |s'.workers| == |s.workers| && s'.handlers == s.handlers
            && Ahead(s', step.i) <= Ahead(s, step.i)
            && (Forward(Serve(step), step.i) ==> Ahead(s', step.i) < Ahead(s, step.i))
            && !s'.workers[step.i].pc.Created?
            && (s'.workers[step.i].pc.Blocked? ==> s.workers[step.i].pc.Blocked?)
            && s'.workers[step.i].request.closes >= s.workers[step.i].request.closes
  {
  }

  lemma OtherStepStandsStill(s: S.Server, step: S.ServerStep, i: nat)
    requires S.Enabled(s, step) && i < |s.workers| && (step.Cancel? || step.i != i)
    ensures var w, w' := s.workers[i], S.Next(s, step).workers[i];
            w'.pc == w.pc && w'.reply == w.reply && w'.request == w.request
  {
  }

  /** How a goroutine may stand after one step of the connection. */
  predicate Moved(s: S.Server, s': S.Server, i: nat, forward: bool)
    requires i < |s.workers|
  {
    && i < |s'.workers| && s'.handlers == s.handlers
    && Ahead(s', i) <= Ahead(s, i) && (forward ==> Ahead(s', i) < Ahead(s, i))
    && (!s.workers[i].pc.Created? ==>
          !s'.workers[i].pc.Created? && (s'.workers[i].pc.Blocked? ==> s.workers[i].pc.Blocked?))
    && s'.workers[i].request.closes >= s.workers[i].request.closes
  }

  lemma StepMoves(c: Conn, step: Step, i: nat)
    requires Inv(c) && Enabled(c, step) && i < |c.server.workers|
    ensures Moved(c.server, Next(c, step).server, i, Forward(step, i))
  {
    match step
    case Serve(server) =>
      if !server.Cancel? && server.i == i {
        OwnStepGoesForward(c.server, server);
      } else {
        OtherStepStandsStill(c.server, server, i);
      }
    case Spawn =>
    case _ =>
  }

  /** Only a step forward makes a goroutine that is ready anything else. */
  lemma ReadyStays(c: Conn, step: Step, i: nat)
    requires Inv(c) && Enabled(c, step) && Ready(c.server, i)
    ensures var s, s' := c.server, Next(c, step).server;
            i < |s'.workers| && (Ahead(s', i) < Ahead(s, i) || Ready(s', i))
  {
    hide Inv, Enabled, Next;
    StepMoves(c, step, i);
    if i > 0 {
      StepMoves(c, step, i - 1);
    }
    MovedStaysReady(c.server, Next(c, step).server, i);
  }

  lemma MovedStaysReady(s: S.Server, s': S.Server, i: nat)
    requires Ready(s, i) && Moved(s, s', i, false) && (i > 0 ==> Moved(s, s', i - 1, false))
    ensures Ahead(s', i) < Ahead(s, i) || Ready(s', i)
  {
  }

  // ---- runs ----------------------------------------------------------------------------------------------

  lemma {:induction false} RunReaches(run: nat -> Conn, act: nat -> Step, handlers: nat, t: nat)
    requires IsRun(run, act, handlers)
    ensures Reachable(run(t)) && Inv(run(t)) && StepsTo(run, act, t)
  {
    if t == 0 {
      var c := NewConn(handlers);
      assert Legal(c, []) && JsonRpcConnection.Run(c, []) == c;
    } else {
      RunReaches(run, act, handlers, t - 1);
      ReachableNext(run(t - 1), act(t - 1));
    }
    ReachableInv(run(t));
  }

  lemma StepAt(run: nat -> Conn, act: nat -> Step, handlers: nat, i: nat, t: nat)
    requires IsRun(run, act, handlers) && i < |run(t).server.workers|
    ensures Moved(run(t).server, run(t + 1).server, i, Forward(act(t), i))
    ensures Ready(run(t).server, i) ==>
              Ahead(run(t + 1).server, i) < Ahead(run(t).server, i) || Ready(run(t + 1).server, i)
  {
    RunReaches(run, act, handlers, t);
    assert Enabled(run(t), act(t)) && run(t + 1) == Next(run(t), act(t));
    hide *;
    StepMoves(run(t), act(t), i);
    if Ready(run(t).server, i) {
      ReadyStays(run(t), act(t), i);
    }
  }

  lemma {:induction false} RunMoves(run: nat -> Conn, act: nat -> Step, handlers: nat, i: nat, t: nat, u: nat)
    requires IsRun(run, act, handlers) && t <= u && i < |run(t).server.workers|
    ensures Moved(run(t).server, run(u).server, i, false)
    decreases u
  {
    hide IsRun, Ahead, Ready;
    if t < u {
      RunMoves(run, act, handlers, i, t, u - 1);
      StepAt(run, act, handlers, i, u - 1);
    }
  }

  lemma {:induction false} RunStaysReady(run: nat -> Conn, act: nat -> Step, handlers: nat, i: nat, t: nat, u: nat)
    requires IsRun(run, act, handlers) && t <= u && i < |run(t).server.workers| && Ready(run(t).server, i)
    ensures i < |run(u).server.workers|
    ensures Ahead(run(u).server, i) < Ahead(run(t).server, i) || Ready(run(u).server, i)
    decreases u
  {
    hide IsRun, Ahead, Ready;
    if t < u {
      RunStaysReady(run, act, handlers, i, t, u - 1);
      RunMoves(run, act, handlers, i, t, u - 1);
      StepAt(run, act, handlers, i, u - 1);
    }
  }

  /** A ready goroutine eventually has less ahead of it. */
  lemma ReadyGoesForward(run: nat -> Conn, act: nat -> Step, handlers: nat, i: nat, t: nat) returns (u: nat)
    requires IsRun(run, act, handlers) && Fair(run, act)
    requires i < |run(t).server.workers| && Ready(run(t).server, i)
    ensures u > t && i < |run(u).server.workers| && Ahead(run(u).server, i) < Ahead(run(t).server, i)
  {
    assert EventuallyForward(run, act, i, t);
    hide IsRun, Fair, Ahead, Ready, Forward;
    u :| u >= t && ForwardOrNotReady(run, act, i, u);
    RunStaysReady(run, act, handlers, i, t, u);
    RunMoves(run, act, handlers, i, t, u);
    StepAt(run, act, handlers, i, u);
    u := u + 1;
  }

  predicate IsSpawned(s: S.Server, i: nat) {
    i < |s.workers| && !s.workers[i].pc.Created?
  }

  predicate HasEnded(s: S.Server, i: nat) {
    i < |s.workers| && s.workers[i].pc.Ended?
  }

  lemma PredecessorIsSpawned(c: Conn, i: nat)
    requires Inv(c) && i > 0 && IsSpawned(c.server, i)
    ensures IsSpawned(c.server, i - 1)
  {
  }

  /** Once its predecessor has ended, a spawned goroutine is ready or has ended itself. */
  lemma EndedFreesBaton(c: Conn, i: nat)
    requires Inv(c) && IsSpawned(c.server, i) && (i == 0 || HasEnded(c.server, i - 1))
    ensures Ready(c.server, i) || HasEnded(c.server, i)
  {
    if i > 0 {
      assert S.WorkerOk(c.server.workers[i - 1]);
    }
  }

  /** From any time on, every spawned goroutine ends: first its predecessor does, then it goes forward
      until nothing is ahead of it. */
  lemma {:induction false} EndsFrom(run: nat -> Conn, act: nat -> Step, handlers: nat, i: nat, t: nat) returns (u: nat)
    requires IsRun(run, act, handlers) && Fair(run, act) && IsSpawned(run(t).server, i)
    ensures u >= t && HasEnded(run(u).server, i)
    decreases i, Ahead(run(t).server, i)
  {
    u := t;
    if i > 0 {
      RunReaches(run, act, handlers, t);
      PredecessorIsSpawned(run(t), i);
      u := EndsFrom(run, act, handlers, i - 1, t);
    }
    RunMoves(run, act, handlers, i, t, u);
    RunReaches(run, act, handlers, u);
    EndedFreesBaton(run(u), i);
    if !HasEnded(run(u).server, i) {
      var v := ReadyGoesForward(run, act, handlers, i, u);
      RunMoves(run, act, handlers, i, t, v);
      u := EndsFrom(run, act, handlers, i, v);
    }
  }

  /** Progress: on a fair schedule every request that was spawned comes to its end, and a call has then
      been answered exactly once (unless its response does not encode), a notification never. */
  lemma EveryRequestEnds(run: nat -> Conn, act: nat -> Step, handlers: nat, i: nat, t: nat) returns (u: nat)
    requires IsRun(run, act, handlers) && Fair(run, act) && IsSpawned(run(t).server, i)
    ensures u >= t && HasEnded(run(u).server, i)
    ensures var w := run(u).server.workers[i];
            S.ResponsesBy(run(u).server.out, i) ==
            if w.request.id.None? || w.reply.Lost? then []
            else [ResponseTo(w.request.id.value, S.DueAnswer(w))]
  {
    u := EndsFrom(run, act, handlers, i, t);
    RunReaches(run, act, handlers, u);
    RepliesExactlyOnce(run(u), i);
  }
}
