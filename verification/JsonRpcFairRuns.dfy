/**
 Fairness excludes nothing that can happen: every reachable state of a connection lies on a fair
 schedule. What has been begun is brought to its end in a fixed order, and then nothing more happens.
 */
module JsonRpcFairRuns {
  import opened Wrappers
  import opened JsonRpcRequest
  import opened JsonRpcConnection
  import opened JsonRpcProgress
  import opened JsonRpcCallProgress
  import S = JsonRpcServer
  import C = JsonRpcClient

  /** The first n requests have ended. */
  predicate EndedUpTo(s: S.Server, n: nat) {
    n <= |s.workers| && forall i :: 0 <= i < n ==> s.workers[i].pc.Ended?
  }

  predicate IsOut(call: C.Call) {
    call.pc.Fresh? || call.pc.Returned?
  }

  /** The first n calls have returned or have not been inserted. */
  predicate OutUpTo(s: C.Client, n: nat) {
    n <= |s.calls| && forall k :: 0 <= k < n ==> IsOut(s.calls[k])
  }

  /** Nobody has anything to do. */
  predicate Settled(c: Conn) {
    EndedUpTo(c.server, |c.server.workers|) && OutUpTo(c.client, |c.client.calls|) && !ReaderCanGo(c)
  }

  // ---- first the reader ------------------------------------------------------------------------------

  lemma ReaderGoes(c: Conn)
    requires ReaderCanGo(c)
    ensures var step := if c.reader.Registering? then Spawn else SendResponse;
            Enabled(c, step) && !ReaderCanGo(Next(c, step))
  {
  }

  lemma ReaderSettles(c0: Conn, steps: seq<Step>) returns (steps': seq<Step>)
    requires Legal(c0, steps) && Inv(Run(c0, steps))
    ensures Legal(c0, steps') && Inv(Run(c0, steps')) && steps <= steps' && !ReaderCanGo(Run(c0, steps'))
  {
    hide *;
    var c := Run(c0, steps);
    steps' := steps;
    if ReaderCanGo(c) {
      var step := if c.reader.Registering? then Spawn else SendResponse;
      ReaderGoes(c);
      RunAppend(c0, steps, step);
      StepKeepsInv(c, step);
      steps' := steps + [step];
    }
  }

  // ---- then the requests, in their order ---------------------------------------------------------------

  /** Only requests have moved, and the first n of them have ended. */
  predicate RequestsMoved(c: Conn, c': Conn, n: nat) {
    c'.client == c.client && c'.reader == c.reader && |c'.server.workers| == |c.server.workers|
    && EndedUpTo(c'.server, n)
  }

  lemma NextOwnStepMoves(c: Conn, i: nat)
    requires Inv(c) && !ReaderCanGo(c) && EndedUpTo(c.server, i)
    requires i < |c.server.workers| && !HasEnded(c.server, i)
    ensures var step := Serve(NextOwnStep(c.server, i));
            && Enabled(c, step) && RequestsMoved(c, Next(c, step), i)
            && Ahead(Next(c, step).server, i) < Ahead(c.server, i)
  {
    NoneCreated(c, i);
    EndedFreesBaton(c, i);
    assert S.WorkerOk(c.server.workers[i]);
    NextOwnStepIsForward(c.server, i);
    var s, step := c.server, NextOwnStep(c.server, i);
    hide Inv, JsonRpcProgress.Ready, ReaderCanGo, Ahead, NextOwnStep, S.WorkerOk, S.Enabled, S.Next, Forward;
    OwnStepGoesForward(s, step);
    forall j | 0 <= j < i
      ensures S.Next(s, step).workers[j].pc.Ended?
    {
      OtherStepStandsStill(s, step, j);
    }
  }

  lemma NoneCreated(c: Conn, i: nat)
    requires Inv(c) && !ReaderCanGo(c) && i < |c.server.workers|
    ensures IsSpawned(c.server, i)
  {
  }

  lemma NextOwnStepIsForward(s: S.Server, i: nat)
    requires JsonRpcProgress.Ready(s, i) && S.WorkerOk(s.workers[i])
    ensures var step := NextOwnStep(s, i);
            S.Enabled(s, step) && !step.Cancel? && step.i == i && Forward(Serve(step), i)
  {
  }

  lemma {:induction false} RequestEnds(c0: Conn, steps: seq<Step>, i: nat) returns (steps': seq<Step>)
    requires Legal(c0, steps) && Inv(Run(c0, steps)) && !ReaderCanGo(Run(c0, steps))
    requires i < |Run(c0, steps).server.workers| && EndedUpTo(Run(c0, steps).server, i)
    ensures Legal(c0, steps') && Inv(Run(c0, steps')) && steps <= steps'
    ensures RequestsMoved(Run(c0, steps), Run(c0, steps'), i + 1)
    decreases Ahead(Run(c0, steps).server, i)
  {
    hide Inv, Ahead, Enabled, Next;
    var c := Run(c0, steps);
    if HasEnded(c.server, i) {
      steps' := steps;
    } else {
      var step := Serve(NextOwnStep(c.server, i));
      NextOwnStepMoves(c, i);
      StepKeepsInv(c, step);
      RunAppend(c0, steps, step);
      SameReader(c, Next(c, step), i);
      steps' := RequestEnds(c0, steps + [step], i);
    }
  }

  lemma SameReader(c: Conn, c': Conn, n: nat)
    requires RequestsMoved(c, c', n) && !ReaderCanGo(c)
    ensures !ReaderCanGo(c')
  {
  }

  lemma {:induction false} RequestsEnd(c0: Conn, steps: seq<Step>, n: nat) returns (steps': seq<Step>)
    requires Legal(c0, steps) && Inv(Run(c0, steps)) && !ReaderCanGo(Run(c0, steps))
    requires n <= |Run(c0, steps).server.workers|
    ensures Legal(c0, steps') && Inv(Run(c0, steps')) && !ReaderCanGo(Run(c0, steps')) && steps <= steps'
    ensures RequestsMoved(Run(c0, steps), Run(c0, steps'), n)
    decreases n
  {
    hide Inv, Ahead, Enabled, Next;
    steps' := steps;
    if n > 0 {
      steps' := RequestsEnd(c0, steps, n - 1);
      SameReader(Run(c0, steps), Run(c0, steps'), n - 1);
      var steps'' := RequestEnds(c0, steps', n - 1);
      SameReader(Run(c0, steps'), Run(c0, steps''), n);
      steps' := steps'';
    }
  }

  // ---- then the calls ------------------------------------------------------------------------------------

  /** Only calls have moved, without a change to a channel, and the first n of them are out. */
  predicate CallsMoved(c: Conn, c': Conn, n: nat) {
    && c'.server == c.server && c'.reader == c.reader && |c'.client.calls| == |c.client.calls|
    && (forall k :: 0 <= k < |c.client.calls| ==> c'.client.calls[k].channel == c.client.calls[k].channel)
    && OutUpTo(c'.client, n)
  }

  /** A step towards the end of a call that is not out: a write succeeds, a waiting call gives up. */
  function NextCallStep(call: C.Call, k: nat): C.ClientStep {
    if call.pc.Writing? then C.WriteRequest(k, true)
    else if call.pc.Awaiting? then C.ContextEnds(k)
    else C.Delete(k)
  }

  lemma NextCallStepMoves(c: Conn, k: nat)
    requires k < |c.client.calls| && !IsOut(c.client.calls[k]) && OutUpTo(c.client, k)
    ensures var step := Ask(NextCallStep(c.client.calls[k], k));
            && Enabled(c, step) && CallsMoved(c, Next(c, step), k)
            && CallStage(Next(c, step).client.calls[k].pc) < CallStage(c.client.calls[k].pc)
  {
  }

  lemma {:induction false} CallComesOut(c0: Conn, steps: seq<Step>, k: nat) returns (steps': seq<Step>)
    requires Legal(c0, steps) && k < |Run(c0, steps).client.calls| && OutUpTo(Run(c0, steps).client, k)
    ensures Legal(c0, steps') && steps <= steps' && CallsMoved(Run(c0, steps), Run(c0, steps'), k + 1)
    decreases CallStage(Run(c0, steps).client.calls[k].pc)
  {
    hide CallStage, Enabled, Next;
    var c := Run(c0, steps);
    if IsOut(c.client.calls[k]) {
      steps' := steps;
    } else {
      var step := Ask(NextCallStep(c.client.calls[k], k));
      NextCallStepMoves(c, k);
      RunAppend(c0, steps, step);
      steps' := CallComesOut(c0, steps + [step], k);
    }
  }

  lemma {:induction false} CallsComeOut(c0: Conn, steps: seq<Step>, n: nat) returns (steps': seq<Step>)
    requires Legal(c0, steps) && n <= |Run(c0, steps).client.calls|
    ensures Legal(c0, steps') && steps <= steps' && CallsMoved(Run(c0, steps), Run(c0, steps'), n)
    decreases n
  {
    steps' := steps;
    if n > 0 {
      steps' := CallsComeOut(c0, steps, n - 1);
      steps' := CallComesOut(c0, steps', n - 1);
    }
  }

  lemma AllSettled(c1: Conn, c2: Conn, c3: Conn)
    requires !ReaderCanGo(c1) && Inv(c1)
    requires RequestsMoved(c1, c2, |c1.server.workers|) && CallsMoved(c2, c3, |c2.client.calls|)
    ensures Settled(c3)
  {
  }

  lemma Settles(c0: Conn, steps: seq<Step>) returns (steps': seq<Step>)
    requires Legal(c0, steps) && Inv(Run(c0, steps))
    ensures Legal(c0, steps') && steps <= steps' && Settled(Run(c0, steps'))
  {
    hide *;
    var steps1 := ReaderSettles(c0, steps);
    var steps2 := RequestsEnd(c0, steps1, |Run(c0, steps1).server.workers|);
    steps' := CallsComeOut(c0, steps2, |Run(c0, steps2).client.calls|);
    AllSettled(Run(c0, steps1), Run(c0, steps2), Run(c0, steps'));
  }

  // ---- the unending schedule -------------------------------------------------------------------------------

  /** After the given steps nothing happens but attempts to cancel some request. */
  function ActAt(steps: seq<Step>, t: nat): Step {
    if t < |steps| then steps[t] else Serve(S.Cancel(Name("")))
  }

  function StateAt(handlers: nat, steps: seq<Step>, t: nat): Conn {
    if t == 0 then NewConn(handlers)
    else
      var c, step := StateAt(handlers, steps, t - 1), ActAt(steps, t - 1);
      if Enabled(c, step) then Next(c, step) else c
  }

  lemma {:induction false} LegalPrefix(c0: Conn, steps: seq<Step>, t: nat)
    requires Legal(c0, steps) && t <= |steps|
    ensures Legal(c0, steps[..t])
    ensures t < |steps| ==> Enabled(Run(c0, steps[..t]), steps[t])
    decreases |steps|
  {
    if t == |steps| {
      assert steps[..t] == steps;
    } else if t < |steps| - 1 {
      var before := steps[..|steps| - 1];
      LegalPrefix(c0, before, t);
      assert before[..t] == steps[..t];
    }
  }

  lemma {:induction false} StateIsRun(handlers: nat, steps: seq<Step>, t: nat)
    requires Legal(NewConn(handlers), steps) && t <= |steps|
    ensures Legal(NewConn(handlers), steps[..t]) && StateAt(handlers, steps, t) == Run(NewConn(handlers), steps[..t])
  {
    LegalPrefix(NewConn(handlers), steps, t);
    if t > 0 {
      StateIsRun(handlers, steps, t - 1);
      LegalPrefix(NewConn(handlers), steps, t - 1);
      assert steps[..t][..t - 1] == steps[..t - 1];
    }
  }

  lemma ActIsEnabled(handlers: nat, steps: seq<Step>, t: nat)
    requires Legal(NewConn(handlers), steps)
    ensures Enabled(StateAt(handlers, steps, t), ActAt(steps, t))
  {
    if t < |steps| {
      StateIsRun(handlers, steps, t);
      LegalPrefix(NewConn(handlers), steps, t);
    }
  }

  lemma CancelKeepsSettled(c: Conn, id: Id)
    requires Settled(c)
    ensures Settled(Next(c, Serve(S.Cancel(id))))
  {
  }

  lemma {:induction false} StaysSettled(handlers: nat, steps: seq<Step>, t: nat)
    requires Legal(NewConn(handlers), steps) && Settled(StateAt(handlers, steps, |steps|)) && t >= |steps|
    ensures Settled(StateAt(handlers, steps, t))
  {
    if t > |steps| {
      hide Settled, Next;
      StaysSettled(handlers, steps, t - 1);
      CancelKeepsSettled(StateAt(handlers, steps, t - 1), Name(""));
    }
  }

  lemma SettledIsFair(run: nat -> Conn, act: nat -> Step, n: nat)
    requires forall t: nat :: t >= n ==> Settled(run(t))
    ensures Fair(run, act) && ReaderFair(run, act)
    ensures forall k: nat, over: nat -> bool :: CallFair(run, act, k, over)
  {
    forall i: nat, t: nat
      ensures EventuallyForward(run, act, i, t)
    {
      var u := t + n;
      assert ForwardOrNotReady(run, act, i, u);
    }
    forall t: nat
      ensures ReaderEventuallyGoes(run, act, t)
    {
      var u := t + n;
      assert ReaderGoesOrCannot(run, act, u);
    }
    forall k: nat, over: nat -> bool, t: nat
      ensures EventuallyGoes(run, act, k, over, t)
    {
      var u := t + n;
      assert GoesOrCannot(run, act, k, over, u);
    }
  }

  /** Whatever has happened, there is a fair schedule that begins with it. */
  lemma FairRunExtends(handlers: nat, steps: seq<Step>) returns (run: nat -> Conn, act: nat -> Step)
    requires Legal(NewConn(handlers), steps)
    ensures IsRun(run, act, handlers) && Fair(run, act) && ReaderFair(run, act)
    ensures forall k: nat, over: nat -> bool :: CallFair(run, act, k, over)
    ensures run(|steps|) == Run(NewConn(handlers), steps)
    ensures forall t: nat :: t < |steps| ==> act(t) == steps[t]
  {
    hide Legal, Run, Inv, Settled, Enabled, Next, Fair, ReaderFair, CallFair;
    RunInv(handlers, steps);
    var steps' := Settles(NewConn(handlers), steps);
    run, act := (t: nat) => StateAt(handlers, steps', t), (t: nat) => ActAt(steps', t);
    forall t: nat
      ensures StepsTo(run, act, t)
    {
      ActIsEnabled(handlers, steps', t);
    }
    StateIsRun(handlers, steps', |steps'|);
    assert steps'[..|steps'|] == steps';
    forall t: nat | t >= |steps'|
      ensures Settled(run(t))
    {
      StaysSettled(handlers, steps', t);
    }
    SettledIsFair(run, act, |steps'|);
    StateIsRun(handlers, steps', |steps|);
    assert steps'[..|steps|] == steps;
  }

  /** Every reachable state of a connection, a request just spawned included, lies on a fair schedule. */
  lemma ReachableOnFairRun(c: Conn) returns (run: nat -> Conn, act: nat -> Step, handlers: nat, t: nat)
    requires Reachable(c)
    ensures IsRun(run, act, handlers) && Fair(run, act) && ReaderFair(run, act)
    ensures forall k: nat, over: nat -> bool :: CallFair(run, act, k, over)
    ensures run(t) == c
  {
    var n: nat, steps: seq<Step> :| Legal(NewConn(n), steps) && Run(NewConn(n), steps) == c;
    handlers, t := n, |steps|;
    run, act := FairRunExtends(n, steps);
  }

  /** For instance a request that the reader has just read and spawned. */
  lemma SpawnedOnFairRun(handlers: nat, id: Option<Id>) returns (run: nat -> Conn, act: nat -> Step, t: nat)
    ensures IsRun(run, act, handlers) && Fair(run, act) && IsSpawned(run(t).server, 0)
    ensures run(t).server.workers[0].request.id == id
  {
    var c0 := NewConn(handlers);
    RunAppend(c0, [], ReadRequest(id));
    RunAppend(c0, [] + [ReadRequest(id)], Spawn);
    run, act := FairRunExtends(handlers, [] + [ReadRequest(id)] + [Spawn]);
    t := 2;
  }
}
