/**
 What a connection tells is what has happened on it: a response carries the first answer that a handler
 gave, and a call returns the outcome of its own write, its own response or its own context.
 */
module JsonRpcHistory {
  import opened Wrappers
  import opened JsonRpcRequest
  import opened JsonRpcConnection
  import S = JsonRpcServer
  import C = JsonRpcClient

  // ---- answers of handlers -----------------------------------------------------------------------------

  /** The answer of the first Reply that a handler of request i made. */
  function FirstReply(steps: seq<Step>, i: nat): Option<Answer> {
    if steps == [] then None
    else
      var before, last := FirstReply(steps[..|steps| - 1], i), steps[|steps| - 1];
      if before.None? && last.Serve? && last.server.HandlerReply? && last.server.i == i then Some(last.server.answer)
      else before
  }

  /** Whether some handler returned that it had delivered request i. */
  predicate WasDelivered(steps: seq<Step>, i: nat) {
    Serve(S.HandlerReturn(i, true)) in steps
  }

  /** The request's history fields tell what its handlers did. */
  predicate Told(s: S.Server, steps: seq<Step>, i: nat) {
    if i < |s.workers| then
      var w := s.workers[i];
      && (w.request.id.Some? ==> w.firstAnswer == FirstReply(steps, i))
      && (w.request.id.None? ==> w.firstAnswer == None)
      && (w.claimed <==> WasDelivered(steps, i))
    else FirstReply(steps, i) == None && !WasDelivered(steps, i)
  }

  lemma ServeKeepsTold(s: S.Server, steps: seq<Step>, step: S.ServerStep, i: nat)
    requires S.Enabled(s, step) && S.WorkersOk(s) && Told(s, steps, i)
    ensures Told(S.Next(s, step), steps + [Serve(step)], i)
  {
    FirstReplyNext(steps, Serve(step), i);
    hide FirstReply;
    if i < |s.workers| {
      assert S.WorkerOk(s.workers[i]);
    }
  }

  lemma FirstReplyNext(steps: seq<Step>, step: Step, i: nat)
    ensures FirstReply(steps + [step], i) ==
            if FirstReply(steps, i).None? && step.Serve? && step.server.HandlerReply? && step.server.i == i
            then Some(step.server.answer) else FirstReply(steps, i)
  {
    assert (steps + [step])[..|steps|] == steps;
  }

  lemma StepKeepsTold(c: Conn, steps: seq<Step>, step: Step, i: nat)
    requires Inv(c) && Enabled(c, step) && Told(c.server, steps, i)
    ensures Told(Next(c, step).server, steps + [step], i)
  {
    if step.Serve? {
      ServeKeepsTold(c.server, steps, step.server, i);
    } else {
      FirstReplyNext(steps, step, i);
      hide FirstReply, Inv;
    }
  }

  lemma {:induction false} RunIsTold(handlers: nat, steps: seq<Step>, i: nat)
    requires Legal(NewConn(handlers), steps)
    ensures Told(Run(NewConn(handlers), steps).server, steps, i)
  {
    if steps != [] {
      var before, last := steps[..|steps| - 1], steps[|steps| - 1];
      RunIsTold(handlers, before, i);
      RunInv(handlers, before);
      StepKeepsTold(Run(NewConn(handlers), before), before, last, i);
      assert before + [last] == steps;
    }
  }

  /** A step that answers request i with something that cannot be encoded. */
  predicate FailsToEncode(step: Step, i: nat) {
    step.Serve? && (step.server.HandlerReply? || step.server.DefaultDeliver? || step.server.AutoReply?)
    && step.server.i == i && !step.server.encodes
  }

  predicate LostTold(s: S.Server, steps: seq<Step>, i: nat) {
    i < |s.workers| && s.workers[i].reply.Lost? ==> exists step :: step in steps && FailsToEncode(step, i)
  }

  lemma StepKeepsLost(c: Conn, steps: seq<Step>, step: Step, i: nat)
    requires Enabled(c, step) && LostTold(c.server, steps, i)
    ensures LostTold(Next(c, step).server, steps + [step], i)
  {
    var s, s' := c.server, Next(c, step).server;
    if i < |s'.workers| && s'.workers[i].reply.Lost? {
      if i < |s.workers| && s.workers[i].reply.Lost? {
        var earlier :| earlier in steps && FailsToEncode(earlier, i);
        assert earlier in steps + [step];
      } else {
        assert step in steps + [step] && FailsToEncode(step, i);
      }
    }
  }

  /** A response is lost only when what a handler, or a default, answered cannot be encoded. */
  lemma {:induction false} RunTellsLost(handlers: nat, steps: seq<Step>, i: nat)
    requires Legal(NewConn(handlers), steps)
    ensures LostTold(Run(NewConn(handlers), steps).server, steps, i)
  {
    if steps != [] {
      hide LostTold, Enabled, Next;
      var before, last := steps[..|steps| - 1], steps[|steps| - 1];
      RunTellsLost(handlers, before, i);
      StepKeepsLost(Run(NewConn(handlers), before), before, last, i);
      assert before + [last] == steps;
    } else {
      NothingLost(handlers, i);
    }
  }

  lemma NothingLost(handlers: nat, i: nat)
    ensures LostTold(NewConn(handlers).server, [], i)
  {
  }

  /** What a call is answered with: the first answer a handler gave; failing that, error -32603 if some handler
      took the request, and error -32601 if none did. */
  predicate AnswersCall(r: WireResponse, steps: seq<Step>, i: nat) {
    match FirstReply(steps, i)
    case Some(Value(json)) => r.result == Some(json) && r.error == None
    case Some(Failure(error)) => r.result == None && r.error == Some(error)
    case Some(OtherError(message)) => r.result == None && r.error == Some(RpcError(0, message))
    case None =>
      r.result == None && r.error.Some?
      && r.error.value.code == if WasDelivered(steps, i) then -32603 else -32601
  }

  /** Every response that was handed to the stream answers its own request in this way, and an ended call
      has handed exactly one unless an answer to it could not be encoded. */
  lemma ResponseTellsWhatHappened(handlers: nat, steps: seq<Step>, i: nat)
    requires Legal(NewConn(handlers), steps) && i < |Run(NewConn(handlers), steps).server.workers|
    ensures var c := Run(NewConn(handlers), steps);
            var w, sent := c.server.workers[i], S.ResponsesBy(c.server.out, i);
            && (forall r :: r in sent ==> w.request.id == Some(r.id) && AnswersCall(r, steps, i))
            && |sent| <= 1
            && (w.pc.Ended? && w.request.id.Some? && (forall step :: step in steps ==> !FailsToEncode(step, i)) ==>
                  |sent| == 1)
  {
    RunInv(handlers, steps);
    RunIsTold(handlers, steps, i);
    RunTellsLost(handlers, steps, i);
    var w := Run(NewConn(handlers), steps).server.workers[i];
    assert S.WorkerOk(w);
    hide FirstReply, WasDelivered;
  }

  lemma StepKeepsCancelled(c: Conn, step: Step, i: nat)
    requires Enabled(c, step)
    requires HasEnded(c, i) ==> c.server.workers[i].cancelled
    ensures HasEnded(Next(c, step), i) ==> Next(c, step).server.workers[i].cancelled
  {
  }

  predicate HasEnded(c: Conn, i: nat) {
    i < |c.server.workers| && c.server.workers[i].pc.Ended?
  }

  /** The context of a request is cancelled at the latest when its goroutine ends. */
  lemma {:induction false} EndedIsCancelled(handlers: nat, steps: seq<Step>, i: nat)
    requires Legal(NewConn(handlers), steps) && HasEnded(Run(NewConn(handlers), steps), i)
    ensures Run(NewConn(handlers), steps).server.workers[i].cancelled
  {
    if steps != [] {
      hide Enabled, Next;
      var before := steps[..|steps| - 1];
      if HasEnded(Run(NewConn(handlers), before), i) {
        EndedIsCancelled(handlers, before, i);
      }
      StepKeepsCancelled(Run(NewConn(handlers), before), steps[|steps| - 1], i);
    }
  }

  // ---- what was read ---------------------------------------------------------------------------------

  function RequestsRead(steps: seq<Step>): seq<Option<Id>> {
    if steps == [] then []
    else
      var last := steps[|steps| - 1];
      RequestsRead(steps[..|steps| - 1]) + if last.ReadRequest? then [last.id] else []
  }

  function ResponsesRead(steps: seq<Step>): seq<Id> {
    if steps == [] then []
    else
      var last := steps[|steps| - 1];
      ResponsesRead(steps[..|steps| - 1]) + if last.ReadResponse? then [last.response.id] else []
  }

  function CallsMade(steps: seq<Step>): seq<Id> {
    if steps == [] then []
    else
      var last := steps[|steps| - 1];
      CallsMade(steps[..|steps| - 1]) + if last.Ask? && last.client.NewCall? then [last.client.id] else []
  }

  predicate Kept(c: Conn, requests: seq<Option<Id>>, responses: seq<Id>, calls: seq<Id>) {
    && |c.server.workers| == |requests|
    && (forall i :: 0 <= i < |requests| ==> S.IdOf(c.server, i) == requests[i])
    && c.client.answers == responses
    && |c.client.calls| == |calls| && forall k :: 0 <= k < |calls| ==> c.client.calls[k].id == calls[k]
  }

  lemma StepKeepsIds(c: Conn, step: Step, requests: seq<Option<Id>>, responses: seq<Id>, calls: seq<Id>)
    requires Enabled(c, step) && Kept(c, requests, responses, calls)
    ensures Kept(Next(c, step), requests + (if step.ReadRequest? then [step.id] else []),
                 responses + (if step.ReadResponse? then [step.response.id] else []),
                 calls + (if step.Ask? && step.client.NewCall? then [step.client.id] else []))
  {
  }

  /** The requests are those that were read, in the order they arrived and with their ids, and so are the
      answers to calls; the calls are those that were made. */
  lemma {:induction false} RunKeepsIds(handlers: nat, steps: seq<Step>)
    requires Legal(NewConn(handlers), steps)
    ensures Kept(Run(NewConn(handlers), steps), RequestsRead(steps), ResponsesRead(steps), CallsMade(steps))
  {
    if steps != [] {
      hide Kept, Enabled, Next;
      var before, last := steps[..|steps| - 1], steps[|steps| - 1];
      RunKeepsIds(handlers, before);
      StepKeepsIds(Run(NewConn(handlers), before), last, RequestsRead(before), ResponsesRead(before),
                   CallsMade(before));
    }
  }

  /** The reader stops when the stream fails, then and only then, and for good. */
  lemma {:induction false} StopsIffStreamFails(handlers: nat, steps: seq<Step>)
    requires Legal(NewConn(handlers), steps)
    ensures Run(NewConn(handlers), steps).reader.Stopped? <==> ReadFails in steps
  {
    if steps != [] {
      var before, last := steps[..|steps| - 1], steps[|steps| - 1];
      StopsIffStreamFails(handlers, before);
      assert before + [last] == steps;
    }
  }

  /** How many handlers have returned from request i. */
  function Returns(steps: seq<Step>, i: nat): nat {
    if steps == [] then 0
    else
      var last := steps[|steps| - 1];
      Returns(steps[..|steps| - 1], i)
      + if last.Serve? && last.server.HandlerReturn? && last.server.i == i then 1 else 0
  }

  predicate TurnsTaken(s: S.Server, i: nat, turns: nat) {
    if i >= |s.workers| then turns == 0
    else match s.workers[i].pc
      case Created => turns == 0
      case Blocked => turns == 0
      case Delivering(h, _) => turns == h <= s.handlers
      case _ => turns == s.handlers
  }

  lemma StepKeepsTurns(c: Conn, step: Step, i: nat, turns: nat)
    requires Enabled(c, step) && TurnsTaken(c.server, i, turns)
    requires c.reader.Registering? && c.reader.i < |c.server.workers| ==> c.server.workers[c.reader.i].pc.Created?
    ensures TurnsTaken(Next(c, step).server, i,
                       turns + if step.Serve? && step.server.HandlerReturn? && step.server.i == i then 1 else 0)
  {
  }

  /** Every request is offered to each handler in turn, once: an ended one has had a return from each. */
  lemma {:induction false} EachHandlerOnce(handlers: nat, steps: seq<Step>, i: nat)
    requires Legal(NewConn(handlers), steps)
    ensures var c := Run(NewConn(handlers), steps);
            && c.server.handlers == handlers && TurnsTaken(c.server, i, Returns(steps, i))
            && (i < |c.server.workers| && c.server.workers[i].pc.Ended? ==> Returns(steps, i) == handlers)
  {
    if steps != [] {
      var before := steps[..|steps| - 1];
      EachHandlerOnce(handlers, before, i);
      RunInv(handlers, before);
      hide TurnsTaken, S.Inv, C.Inv;
      StepKeepsTurns(Run(NewConn(handlers), before), steps[|steps| - 1], i, Returns(before, i));
      var s := Run(NewConn(handlers), steps).server;
      if i < |s.workers| && s.workers[i].pc.Ended? {
        TurnsOfEnded(s, i, Returns(steps, i));
      }
      KeepsHandlers(Run(NewConn(handlers), before), steps[|steps| - 1]);
    }
  }

  lemma TurnsOfEnded(s: S.Server, i: nat, turns: nat)
    requires TurnsTaken(s, i, turns) && i < |s.workers| && s.workers[i].pc.Ended?
    ensures turns == s.handlers
  {
  }

  lemma KeepsHandlers(c: Conn, step: Step)
    requires Enabled(c, step)
    ensures Next(c, step).server.handlers == c.server.handlers
  {
  }

  // ---- outcomes of calls -------------------------------------------------------------------------------

  predicate HasOutcome(call: C.Call) {
    call.pc.Leaving? || call.pc.Returned?
  }

  predicate EndedWith(s: C.Client, k: nat, outcome: C.Outcome) {
    k < |s.calls| && HasOutcome(s.calls[k]) && s.calls[k].pc.outcome == outcome
  }

  /** A call's outcome tells which of its steps ended it. */
  predicate OutcomeTold(s: C.Client, steps: seq<Step>, k: nat) {
    && (Ask(C.WriteRequest(k, false)) in steps <==> EndedWith(s, k, C.WriteFailed))
    && (Ask(C.ContextEnds(k)) in steps <==> EndedWith(s, k, C.ContextDone))
    && (Ask(C.Receive(k)) in steps <==> k < |s.calls| && C.HasAnswer(s.calls[k]))
  }

  lemma StepKeepsOutcome(c: Conn, steps: seq<Step>, step: Step, k: nat)
    requires Enabled(c, step) && OutcomeTold(c.client, steps, k)
    ensures OutcomeTold(Next(c, step).client, steps + [step], k)
  {
  }

  /** Responses on their way to a call, and those that calls have returned, were read from the stream. */
  predicate WasRead(c: Conn, steps: seq<Step>) {
    && (c.reader.Sending? ==> ReadResponse(c.reader.delivery.response) in steps)
    && (forall k :: 0 <= k < |c.client.calls| ==> CallRead(c.client.calls[k], steps))
  }

  predicate CallRead(call: C.Call, steps: seq<Step>) {
    && (forall r :: r in call.channel ==> ReadResponse(r) in steps)
    && (C.HasAnswer(call) ==> ReadResponse(call.pc.outcome.response) in steps)
  }

  lemma StepKeepsRead(c: Conn, steps: seq<Step>, step: Step)
    requires Enabled(c, step) && WasRead(c, steps)
    ensures WasRead(Next(c, step), steps + [step])
  {
    var c' := Next(c, step);
    forall k | 0 <= k < |c'.client.calls|
      ensures CallRead(c'.client.calls[k], steps + [step])
    {
      if k < |c.client.calls| {
        assert CallRead(c.client.calls[k], steps);
      }
    }
  }

  lemma {:induction false} RunIsRead(handlers: nat, steps: seq<Step>)
    requires Legal(NewConn(handlers), steps)
    ensures WasRead(Run(NewConn(handlers), steps), steps)
  {
    if steps != [] {
      var before, last := steps[..|steps| - 1], steps[|steps| - 1];
      RunIsRead(handlers, before);
      StepKeepsRead(Run(NewConn(handlers), before), before, last);
      assert before + [last] == steps;
    }
  }

  lemma {:induction false} RunTellsOutcome(handlers: nat, steps: seq<Step>, k: nat)
    requires Legal(NewConn(handlers), steps)
    ensures OutcomeTold(Run(NewConn(handlers), steps).client, steps, k)
  {
    if steps != [] {
      var before, last := steps[..|steps| - 1], steps[|steps| - 1];
      RunTellsOutcome(handlers, before, k);
      StepKeepsOutcome(Run(NewConn(handlers), before), before, last, k);
      assert before + [last] == steps;
    }
  }

  /** A call returns a write error exactly when its write failed, the context's error exactly when its context
      ended while it waited, and otherwise a response with its own id that was read from the stream as it is. */
  lemma OutcomeTellsWhatHappened(handlers: nat, steps: seq<Step>, k: nat)
    requires Legal(NewConn(handlers), steps) && k < |Run(NewConn(handlers), steps).client.calls|
    requires Run(NewConn(handlers), steps).client.calls[k].pc.Returned?
    ensures var call := Run(NewConn(handlers), steps).client.calls[k];
            && (call.pc.outcome.WriteFailed? <==> Ask(C.WriteRequest(k, false)) in steps)
            && (call.pc.outcome.ContextDone? <==> Ask(C.ContextEnds(k)) in steps)
            && (call.pc.outcome.Answered? ==>
                  ReadResponse(call.pc.outcome.response) in steps && call.pc.outcome.response.id == call.id)
  {
    RunTellsOutcome(handlers, steps, k);
    RunIsRead(handlers, steps);
    RunInv(handlers, steps);
    var c := Run(NewConn(handlers), steps);
    assert CallRead(c.client.calls[k], steps) && C.CallOk(c.client, k, InFlight(c));
  }
}
