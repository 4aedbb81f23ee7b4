/**
 The calling side on unending schedules: when writes end, a call that waits gets its answer or its
 context ends, and nothing that can go on is left standing, every inserted call returns and its entry
 leaves the pending table.
 */
module JsonRpcCallProgress {
  import opened JsonRpcConnection
  import opened JsonRpcProgress
  import S = JsonRpcServer
  import C = JsonRpcClient

  /** A step of the call itself. */
  predicate Goes(step: Step, k: nat) {
    step.Ask? && !step.client.NewCall? && step.client.c == k
  }

  /** The call has something to do next: it is writing its request, it waits and its channel has a
      response or its context is over, or its deferred delete is due. */
  predicate CanGo(s: C.Client, k: nat, over: bool) {
    k < |s.calls| &&
    var call := s.calls[k];
    call.pc.Writing? || call.pc.Leaving? || (call.pc.Awaiting? && (call.channel != [] || over))
  }

  predicate GoesOrCannot(run: nat -> Conn, act: nat -> Step, k: nat, over: nat -> bool, u: nat) {
    Goes(act(u), k) || !CanGo(run(u).client, k, over(u))
  }

  ghost predicate EventuallyGoes(run: nat -> Conn, act: nat -> Step, k: nat, over: nat -> bool, t: nat) {
    exists u: nat :: u >= t && GoesOrCannot(run, act, k, over, u)
  }

  /** A call that has something to do does not stand still for ever; `over` tells from when on its context
      is over. */
  ghost predicate CallFair(run: nat -> Conn, act: nat -> Step, k: nat, over: nat -> bool) {
    forall t: nat :: EventuallyGoes(run, act, k, over, t)
  }

  predicate ReaderCanGo(c: Conn) {
    Enabled(c, Spawn) || Enabled(c, SendResponse)
  }

  predicate ReaderGoesOrCannot(run: nat -> Conn, act: nat -> Step, u: nat) {
    act(u).Spawn? || act(u).SendResponse? || !ReaderCanGo(run(u))
  }

  ghost predicate ReaderEventuallyGoes(run: nat -> Conn, act: nat -> Step, t: nat) {
    exists u: nat :: u >= t && ReaderGoesOrCannot(run, act, u)
  }

  /** The reader does not keep a request or a response that it can pass on. */
  ghost predicate ReaderFair(run: nat -> Conn, act: nat -> Step) {
    forall t: nat :: ReaderEventuallyGoes(run, act, t)
  }

  // ---- what is still ahead of a call ------------------------------------------------------------------

  function CallStage(pc: C.CallPc): nat {
    match pc
    case Fresh => 4
    case Writing => 3
    case Awaiting => 2
    case Leaving(_) => 1
    case Returned(_) => 0
  }

  /** A response has come in for the call, or it no longer waits for one. */
  predicate Served(call: C.Call) {
    call.channel != [] || call.pc.Leaving? || call.pc.Returned?
  }

  /** How a call may stand after one step of the connection, or after many. */
  predicate CallMoved(s: C.Client, s': C.Client, k: nat, goes: bool)
    requires k < |s.calls|
  {
    k < |s'.calls| &&
    var call, call' := s.calls[k], s'.calls[k];
    && call'.id == call.id
    && (call'.pc == call.pc || CallStage(call'.pc) < CallStage(call.pc))
    && (goes ==> CallStage(call'.pc) < CallStage(call.pc))
    && (Served(call) ==> Served(call'))
  }

  lemma StepMovesCall(c: Conn, step: Step, k: nat)
    requires Enabled(c, step) && k < |c.client.calls|
    ensures CallMoved(c.client, Next(c, step).client, k, Goes(step, k))
  {
  }

  lemma StillCanGo(s: C.Client, s': C.Client, k: nat, over: bool, over': bool)
    requires CanGo(s, k, over) && CallMoved(s, s', k, false) && (over ==> over')
    ensures CallStage(s'.calls[k].pc) < CallStage(s.calls[k].pc) || CanGo(s', k, over')
  {
  }

  lemma CallStepAt(run: nat -> Conn, act: nat -> Step, handlers: nat, k: nat, t: nat)
    requires IsRun(run, act, handlers) && k < |run(t).client.calls|
    ensures CallMoved(run(t).client, run(t + 1).client, k, Goes(act(t), k))
  {
    assert StepsTo(run, act, t);
    hide IsRun, CallMoved, Goes, Enabled, Next;
    StepMovesCall(run(t), act(t), k);
  }

  lemma {:induction false} RunMovesCall(run: nat -> Conn, act: nat -> Step, handlers: nat, k: nat, t: nat, u: nat)
    requires IsRun(run, act, handlers) && t <= u && k < |run(t).client.calls|
    ensures CallMoved(run(t).client, run(u).client, k, false)
    decreases u
  {
    hide IsRun, CallStage, Served;
    if t < u {
      RunMovesCall(run, act, handlers, k, t, u - 1);
      CallStepAt(run, act, handlers, k, u - 1);
    }
  }

  ghost predicate StaysOver(over: nat -> bool) {
    forall t: nat, u: nat :: t <= u && over(t) ==> over(u)
  }

  /** A call that has something to do eventually has less ahead of it. */
  lemma CallGoesForward(run: nat -> Conn, act: nat -> Step, handlers: nat, k: nat, over: nat -> bool, t: nat)
    returns (u: nat)
    requires IsRun(run, act, handlers) && CallFair(run, act, k, over) && StaysOver(over)
    requires CanGo(run(t).client, k, over(t))
    ensures u > t && k < |run(u).client.calls|
    ensures CallStage(run(u).client.calls[k].pc) < CallStage(run(t).client.calls[k].pc)
  {
    assert EventuallyGoes(run, act, k, over, t);
    hide IsRun, CallStage, Goes, CanGo, Served;
    u :| u >= t && GoesOrCannot(run, act, k, over, u);
    assert k < |run(t).client.calls| by {
      CanGoIsCall(run(t).client, k, over(t));
    }
    RunMovesCall(run, act, handlers, k, t, u);
    StillCanGo(run(t).client, run(u).client, k, over(t), over(u));
    CallStepAt(run, act, handlers, k, u);
    u := u + 1;
  }

  lemma CanGoIsCall(s: C.Client, k: nat, over: bool)
    requires CanGo(s, k, over)
    ensures k < |s.calls|
  {
  }

  // ---- answers reach their call -------------------------------------------------------------------------

  /** The reader takes a response to the call off the stream, while the call has its entry. */
  predicate AnswerRead(c: Conn, step: Step, k: nat) {
    && step.ReadResponse? && k < |c.client.calls|
    && C.Inserted(c.client.calls[k]) && step.response.id == c.client.calls[k].id
  }

  predicate SendsTo(c: Conn, k: nat) {
    c.reader.Sending? && c.reader.delivery.c == k && k < |c.client.calls|
  }

  predicate IsServed(c: Conn, k: nat) {
    k < |c.client.calls| && Served(c.client.calls[k])
  }

  lemma ReadAnswerIsSent(c: Conn, step: Step, k: nat)
    requires Inv(c) && Enabled(c, step) && AnswerRead(c, step, k)
    ensures SendsTo(Next(c, step), k)
  {
    assert C.CallOk(c.client, k, InFlight(c));
  }

  /** The reader keeps a response until it is in the channel, and a channel is full only with a response. */
  lemma SendingServes(c: Conn, step: Step, k: nat)
    requires SendsTo(c, k) && Enabled(c, step)
    ensures SendsTo(Next(c, step), k) || IsServed(Next(c, step), k)
    ensures step.Spawn? || step.SendResponse? || !ReaderCanGo(c) ==> IsServed(Next(c, step), k)
  {
    StepMovesCall(c, step, k);
  }

  lemma {:induction false} SendsUntilServed(run: nat -> Conn, act: nat -> Step, handlers: nat, k: nat, t: nat, u: nat)
    requires IsRun(run, act, handlers) && SendsTo(run(t), k) && t <= u
    ensures SendsTo(run(u), k) || IsServed(run(u), k)
    decreases u
  {
    if t < u {
      SendsUntilServed(run, act, handlers, k, t, u - 1);
      assert StepsTo(run, act, u - 1);
      hide IsRun, SendsTo;
      if SendsTo(run(u - 1), k) {
        SendingServes(run(u - 1), act(u - 1), k);
      } else {
        CallStepAt(run, act, handlers, k, u - 1);
      }
    }
  }

  lemma ReaderGoesAgain(run: nat -> Conn, act: nat -> Step, t: nat) returns (u: nat)
    requires ReaderFair(run, act)
    ensures u >= t && ReaderGoesOrCannot(run, act, u)
  {
    assert ReaderEventuallyGoes(run, act, t);
    hide *;
    u :| u >= t && ReaderGoesOrCannot(run, act, u);
  }

  lemma ReadAnswerAt(run: nat -> Conn, act: nat -> Step, handlers: nat, k: nat, t: nat)
    requires IsRun(run, act, handlers) && AnswerRead(run(t), act(t), k)
    ensures SendsTo(run(t + 1), k)
  {
    RunReaches(run, act, handlers, t);
    assert run(t + 1) == Next(run(t), act(t));
    hide *;
    ReadAnswerIsSent(run(t), act(t), k);
  }

  lemma AnswerArrives(run: nat -> Conn, act: nat -> Step, handlers: nat, k: nat, t: nat) returns (u: nat)
    requires IsRun(run, act, handlers) && ReaderFair(run, act) && AnswerRead(run(t), act(t), k)
    ensures u > t && IsServed(run(u), k)
  {
    hide *;
    ReadAnswerAt(run, act, handlers, k, t);
    u := ReaderGoesAgain(run, act, t + 1);
    SendsUntilServed(run, act, handlers, k, t + 1, u);
    ServedNext(run, act, handlers, k, u);
    u := u + 1;
  }

  lemma ServedNext(run: nat -> Conn, act: nat -> Step, handlers: nat, k: nat, u: nat)
    requires IsRun(run, act, handlers) && ReaderGoesOrCannot(run, act, u)
    requires SendsTo(run(u), k) || IsServed(run(u), k)
    ensures IsServed(run(u + 1), k)
  {
    assert StepsTo(run, act, u);
    hide IsRun, SendsTo, ReaderCanGo;
    if SendsTo(run(u), k) {
      SendingServes(run(u), act(u), k);
    } else {
      CallStepAt(run, act, handlers, k, u);
    }
  }

  // ---- every call returns --------------------------------------------------------------------------------

  predicate IsInserted(c: Conn, k: nat) {
    k < |c.client.calls| && !c.client.calls[k].pc.Fresh?
  }

  predicate HasReturned(c: Conn, k: nat) {
    k < |c.client.calls| && c.client.calls[k].pc.Returned? && c.client.calls[k].id !in c.client.pending
  }

  lemma ReturnedHasLeft(c: Conn, k: nat)
    requires Inv(c) && k < |c.client.calls| && c.client.calls[k].pc.Returned?
    ensures HasReturned(c, k)
  {
    assert C.CallOk(c.client, k, InFlight(c));
  }

  lemma {:induction false} ReturnsFrom(run: nat -> Conn, act: nat -> Step, handlers: nat, k: nat, over: nat -> bool,
                                       t: nat)
    returns (u: nat)
    requires IsRun(run, act, handlers) && CallFair(run, act, k, over) && StaysOver(over)
    requires IsInserted(run(t), k) && (over(t) || IsServed(run(t), k))
    ensures u >= t && HasReturned(run(u), k)
    decreases CallStage(run(t).client.calls[k].pc)
  {
    if run(t).client.calls[k].pc.Returned? {
      RunReaches(run, act, handlers, t);
      ReturnedHasLeft(run(t), k);
      u := t;
    } else {
      var v := CallGoesForward(run, act, handlers, k, over, t);
      RunMovesCall(run, act, handlers, k, t, v);
      u := ReturnsFrom(run, act, handlers, k, over, v);
    }
  }

  /** The call gets what it waits for: its context is over at some time, or the reader takes a response to
      it off the stream while it has its entry. */
  ghost predicate EndsWaiting(run: nat -> Conn, act: nat -> Step, k: nat, over: nat -> bool, t: nat) {
    exists e: nat :: e >= t && (over(e) || AnswerRead(run(e), act(e), k))
  }

  /** Progress of the calling side: on a fair schedule an inserted call whose context ends, or whose answer
      is read, returns, and from then on has no entry in the pending table. */
  lemma EveryCallReturns(run: nat -> Conn, act: nat -> Step, handlers: nat, k: nat, over: nat -> bool, t: nat)
    returns (u: nat)
    requires IsRun(run, act, handlers) && CallFair(run, act, k, over) && ReaderFair(run, act) && StaysOver(over)
    requires IsInserted(run(t), k) && EndsWaiting(run, act, k, over, t)
    ensures u >= t && forall v: nat :: v >= u ==> HasReturned(run(v), k)
  {
    var e: nat :| e >= t && (over(e) || AnswerRead(run(e), act(e), k));
    if !over(e) {
      e := AnswerArrives(run, act, handlers, k, e);
    }
    RunMovesCall(run, act, handlers, k, t, e);
    u := ReturnsFrom(run, act, handlers, k, over, e);
    forall v: nat | v >= u
      ensures HasReturned(run(v), k)
    {
      RunMovesCall(run, act, handlers, k, u, v);
      RunReaches(run, act, handlers, v);
      ReturnedHasLeft(run(v), k);
    }
  }

  // ---- the reader comes back -----------------------------------------------------------------------------

  predicate AtStream(c: Conn) {
    c.reader.Ready? || c.reader.Stopped?
  }

  lemma AwayCanGo(c: Conn)
    requires Reachable(c) && !AtStream(c) && forall id :: multiset(c.client.answers)[id] <= 1
    ensures ReaderCanGo(c)
  {
    ReachableInv(c);
    ReaderNeverBlocks(c);
    hide Reachable, S.Inv, C.Inv;
  }

  lemma PassingOnReturns(c: Conn, step: Step)
    requires Enabled(c, step) && (step.Spawn? || step.SendResponse?)
    ensures AtStream(Next(c, step))
  {
  }

  /** With a peer that answers each id at most once the reader always gets back to the stream. */
  lemma ReaderComesBack(run: nat -> Conn, act: nat -> Step, handlers: nat, t: nat) returns (v: nat)
    requires IsRun(run, act, handlers) && ReaderFair(run, act)
    requires forall u: nat, id :: multiset(run(u).client.answers)[id] <= 1
    ensures v >= t && AtStream(run(v))
  {
    v := ReaderGoesAgain(run, act, t);
    RunReaches(run, act, handlers, v);
    hide IsRun, ReaderFair, Reachable, Inv, AtStream, Enabled, Next, ReaderCanGo;
    if !AtStream(run(v)) {
      AwayCanGo(run(v));
      PassingOnReturns(run(v), act(v));
      v := v + 1;
    }
  }
}
