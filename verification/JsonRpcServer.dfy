/**
 The serving side of a connection: one goroutine per incoming request, each waiting for the channel
 its predecessor closes, interleaved in any order.
 */
module JsonRpcServer {
  import opened Wrappers
  import opened JsonRpcRequest

  /** Where a request's goroutine stands. `Created` is before the reader has spawned it, `Blocked` is
      waiting for the predecessor's channel, `Delivering(h, d)` is in or before the Deliver of handler
      h, and the next three are the deferred calls in their order. */
  datatype Pc =
    | Created
    | Blocked
    | Delivering(handler: nat, delivered: bool)
    | Unregistering
    | AutoReplying
    | Releasing
    | Finishing
    | Ended

  /** What became of a request's response. */
  datatype ReplyStatus =
    | NoReply
    | Writing(response: WireResponse)
    | Handed(response: WireResponse)
    | Lost(response: WireResponse)

  /** A goroutine with its request. `firstAnswer` and `claimed` are history: the first answer a
      handler passed to an accepted Reply, and whether a handler reported the request as delivered. */
  datatype Worker = Worker(
    request: Request,
    pc: Pc,
    reply: ReplyStatus,
    cancelled: bool,
    firstAnswer: Option<Answer>,
    claimed: bool)

  datatype Sent = Sent(owner: nat, response: WireResponse)

  /** `handlers` counts the handlers in front of the default one; `out` is what the stream was handed
      and `starts` the order in which requests began to be delivered. */
  datatype Server = Server(
    handlers: nat,
    workers: seq<Worker>,
    handling: map<Id, nat>,
    out: seq<Sent>,
    starts: seq<nat>)

  datatype ServerStep =
    | Start(i: nat)
    | HandlerParallel(i: nat)
    | HandlerReply(i: nat, answer: Answer, encodes: bool)
    | HandlerReturn(i: nat, delivered: bool)
    | DefaultDeliver(i: nat, encodes: bool)
    | Unregister(i: nat)
    | AutoReply(i: nat, encodes: bool)
    | Release(i: nat)
    | Finish(i: nat)
    | Write(i: nat)
    | Cancel(id: Id)

  predicate Started(w: Worker) {
    !w.pc.Created? && !w.pc.Blocked?
  }

  /** The channel request i waits on: open at once for the first, closed by the predecessor otherwise. */
  predicate BatonFree(s: Server, i: nat)
    requires i < |s.workers|
  {
    i == 0 || s.workers[i - 1].request.closes > 0
  }

  /** A goroutine is busy while a response of its own is being handed to the stream. */
  predicate Busy(w: Worker) {
    w.reply.Writing?
  }

  predicate InHandler(s: Server, w: Worker) {
    w.pc.Delivering? && w.pc.handler < s.handlers && !Busy(w)
  }

  predicate Enabled(s: Server, step: ServerStep) {
    step.Cancel? ||
    (step.i < |s.workers| &&
     var w := s.workers[step.i];
     match step
     case Start(i) => w.pc.Blocked? && BatonFree(s, i)
     case HandlerParallel(_) => InHandler(s, w)
     case HandlerReply(_, _, _) => InHandler(s, w)
     case HandlerReturn(_, _) => InHandler(s, w)
     case DefaultDeliver(_, _) => w.pc.Delivering? && w.pc.handler >= s.handlers && !Busy(w)
     case Unregister(_) => w.pc.Unregistering? && !Busy(w)
     case AutoReply(_, _) => w.pc.AutoReplying? && !Busy(w)
     case Release(_) => w.pc.Releasing? && !Busy(w)
     case Finish(_) => w.pc.Finishing? && !Busy(w)
     case Write(_) => Busy(w))
  }

  const METHOD_NOT_FOUND := Failure(RpcError(CODE_METHOD_NOT_FOUND, "method not found"))
  const DID_NOT_REPLY := Failure(RpcError(CODE_INTERNAL_ERROR, "method did not reply"))

  /** Reply up to the point where the response is about to be written. */
  function Answered(w: Worker, answer: Answer, encodes: bool): Worker {
    if ReplyRefusal(w.request).Some? then w
    else
      var response := ResponseTo(w.request.id.value, answer);
      w.(request := AfterReply(w.request), reply := if encodes then Writing(response) else Lost(response))
  }

  function HandlerAnswered(w: Worker, answer: Answer, encodes: bool): Worker {
    if ReplyRefusal(w.request).Some? then w
    else Answered(w, answer, encodes).(firstAnswer := Some(answer))
  }

  /** A worker's own part of a step. */
  function WorkerNext(w: Worker, step: ServerStep): Worker
    requires !step.Cancel?
    requires step.HandlerReturn? ==> w.pc.Delivering?
    requires step.DefaultDeliver? ==> w.pc.Delivering?
    requires step.Write? ==> w.reply.Writing?
  {
    match step
    case Start(_) => w.(request := w.request.(state := Serial), pc := Delivering(0, false))
    case HandlerParallel(_) => w.(request := WentParallel(w.request))
    case HandlerReply(_, answer, encodes) => HandlerAnswered(w, answer, encodes)
    case HandlerReturn(_, delivered) =>
      w.(pc := Delivering(w.pc.handler + 1, w.pc.delivered || delivered), claimed := w.claimed || delivered)
    case DefaultDeliver(_, encodes) =>
      (if w.pc.delivered || w.request.id.None? then w else Answered(w, METHOD_NOT_FOUND, encodes)).(pc := Unregistering)
    case Unregister(_) => w.(pc := AutoReplying)
    case AutoReply(_, encodes) =>
      (if w.request.id.Some? && !w.request.state.Replied? then Answered(w, DID_NOT_REPLY, encodes) else w)
        .(pc := Releasing)
    case Release(_) => w.(request := WentParallel(w.request), pc := Finishing)
    case Finish(_) => w.(pc := Ended, cancelled := true)
    case Write(_) => w.(reply := Handed(w.reply.response))
  }

  function Next(s: Server, step: ServerStep): Server
    requires Enabled(s, step)
  {
    if step.Cancel? then
      if step.id in s.handling && s.handling[step.id] < |s.workers| then
        var i := s.handling[step.id];
        s.(workers := s.workers[i := s.workers[i].(cancelled := true)])
      else s
    else
      var i := step.i;
      var w := s.workers[i];
      var s' := s.(workers := s.workers[i := WorkerNext(w, step)]);
      match step
      case Start(_) => s'.(starts := s.starts + [i])
      case Unregister(_) => if w.request.id.Some? then s'.(handling := s.handling - {w.request.id.value}) else s'
      case Write(_) => s'.(out := s.out + [Sent(i, w.reply.response)])
      case _ => s'
  }

  /** The reader builds a request for the message it read ... */
  function Accept(s: Server, id: Option<Id>): Server {
    s.(workers := s.workers + [Worker(Request(id, Waiting, 0), Created, NoReply, false, None, false)])
  }

  /** ... and then registers it and spawns its goroutine. */
  function Spawn(s: Server, i: nat): Server
    requires i < |s.workers|
  {
    var w := s.workers[i];
    s.(workers := s.workers[i := w.(pc := Blocked)],
       handling := if w.request.id.Some? then s.handling[w.request.id.value := i] else s.handling)
  }

  // ---- the invariant ----------------------------------------------------------------------------

  function ResponsesBy(out: seq<Sent>, i: nat): seq<WireResponse> {
    if out == [] then []
    else
      var last := out[|out| - 1];
      ResponsesBy(out[..|out| - 1], i) + if last.owner == i then [last.response] else []
  }

  function HandedBy(w: Worker): seq<WireResponse> {
    if w.reply.Handed? then [w.reply.response] else []
  }

  /** The answer a finished call must carry, given what its handlers did. */
  function DueAnswer(w: Worker): Answer {
    if w.firstAnswer.Some? then w.firstAnswer.value
    else if w.claimed then DID_NOT_REPLY
    else METHOD_NOT_FOUND
  }

  predicate Past(pc: Pc) {
    pc.Unregistering? || pc.AutoReplying? || pc.Releasing? || pc.Finishing? || pc.Ended?
  }

  predicate WorkerOk(w: Worker) {
    && w.request.closes == (if AtLeastParallel(w.request.state) then 1 else 0)
    && (Started(w) <==> !w.request.state.Waiting?)
    && (w.reply.NoReply? <==> !w.request.state.Replied?)
    && (w.request.id.None? ==> w.reply.NoReply?)
    && (w.firstAnswer.Some? ==> w.request.state.Replied?)
    && (!Started(w) ==> !w.claimed)
    && (w.pc.Delivering? ==> w.claimed == w.pc.delivered && (w.firstAnswer.None? ==> w.reply.NoReply?))
    && (!w.reply.NoReply? ==> w.reply.response == ResponseTo(w.request.id.value, DueAnswer(w)))
    && (Past(w.pc) && w.request.id.Some? && w.firstAnswer.None? && !w.claimed ==> w.request.state.Replied?)
    && (w.pc.Releasing? || w.pc.Finishing? || w.pc.Ended? ==>
          w.request.id.Some? ==> w.request.state.Replied?)
    && (w.pc.Finishing? || w.pc.Ended? ==> AtLeastParallel(w.request.state) && !Busy(w))
  }

  /** The started requests are a prefix, they started in arrival order, and all but the last of them
      have gone parallel. */
  predicate BatonOk(s: Server) {
    && |s.starts| <= |s.workers|
    && (forall j :: 0 <= j < |s.starts| ==> s.starts[j] == j)
    && (forall i :: 0 <= i < |s.workers| ==> (Started(s.workers[i]) <==> i < |s.starts|))
    && (forall i :: 0 <= i < |s.starts| - 1 ==> AtLeastParallel(s.workers[i].request.state))
  }

  predicate OutOk(s: Server) {
    && (forall j :: 0 <= j < |s.out| ==> s.out[j].owner < |s.workers|)
    && (forall i :: 0 <= i < |s.workers| ==> ResponsesBy(s.out, i) == HandedBy(s.workers[i]))
  }

  predicate Registered(w: Worker) {
    w.pc.Blocked? || w.pc.Delivering? || w.pc.Unregistering?
  }

  function IdOf(s: Server, i: nat): Option<Id>
    requires i < |s.workers|
  {
    s.workers[i].request.id
  }

  predicate DistinctIds(s: Server) {
    forall i, j :: 0 <= i < j < |s.workers| && IdOf(s, i).Some? ==> IdOf(s, i) != IdOf(s, j)
  }

  /** The handling table names requests by their own id ... */
  predicate HandlingNames(s: Server) {
    forall id :: id in s.handling ==> s.handling[id] < |s.workers| && IdOf(s, s.handling[id]) == Some(id)
  }

  /** ... and names exactly the registered ones as long as the peer does not reuse ids. */
  predicate HandlingExact(s: Server) {
    && HandlingNames(s)
    && (forall id :: id in s.handling ==> Registered(s.workers[s.handling[id]]))
    && (forall i :: 0 <= i < |s.workers| && Registered(s.workers[i]) && IdOf(s, i).Some? ==>
          IdOf(s, i).value in s.handling)
  }

  predicate HandlingOk(s: Server) {
    HandlingNames(s) && (DistinctIds(s) ==> HandlingExact(s))
  }

  predicate WorkersOk(s: Server) {
    forall i :: 0 <= i < |s.workers| ==> WorkerOk(s.workers[i])
  }

  predicate Inv(s: Server) {
    WorkersOk(s) && BatonOk(s) && OutOk(s) && HandlingOk(s)
  }

  // ---- every step keeps it -------------------------------------------------------------------------

  lemma WorkerStepOk(s: Server, step: ServerStep)
    requires Enabled(s, step) && !step.Cancel?
    requires WorkerOk(s.workers[step.i])
    ensures var w, w' := s.workers[step.i], WorkerNext(s.workers[step.i], step);
            && WorkerOk(w')
            && w'.request.id == w.request.id
            && (AtLeastParallel(w.request.state) ==> AtLeastParallel(w'.request.state))
            && (Started(w') <==> Started(w) || step.Start?)
            && (step.Start? ==> !Started(w))
            && HandedBy(w') == (if step.Write? then [w.reply.response] else HandedBy(w))
            && (step.Write? ==> HandedBy(w) == [])
            && (Registered(w') <==> Registered(w) && !step.Unregister?)
  {
  }

  lemma StepKeepsWorkers(s: Server, step: ServerStep)
    requires Enabled(s, step) && WorkersOk(s)
    ensures WorkersOk(Next(s, step))
  {
    if !step.Cancel? {
      WorkerStepOk(s, step);
    }
  }

  lemma StepKeepsBaton(s: Server, step: ServerStep)
    requires Enabled(s, step) && WorkersOk(s) && BatonOk(s)
    ensures BatonOk(Next(s, step))
  {
    if !step.Cancel? {
      WorkerStepOk(s, step);
      if step.Start? && step.i > 0 {
        var prev := s.workers[step.i - 1];
        assert WorkerOk(prev) && AtLeastParallel(prev.request.state);
        assert Started(prev);
      }
    }
  }

  lemma ResponsesByNext(out: seq<Sent>, sent: Sent, i: nat)
    ensures ResponsesBy(out + [sent], i) == ResponsesBy(out, i) + if sent.owner == i then [sent.response] else []
  {
    assert (out + [sent])[..|out|] == out;
  }

  /** One worker hands over the responses in `more`, the others stand still. */
  lemma HandingOverKeepsOut(s: Server, s': Server, i: nat, w: Worker, more: seq<Sent>)
    requires OutOk(s) && i < |s.workers| && |more| <= 1 && s'.out == s.out + more
    requires more != [] ==> more[0].owner == i
    requires s'.workers == s.workers[i := w]
    requires HandedBy(w) == HandedBy(s.workers[i]) + (if more == [] then [] else [more[0].response])
    ensures OutOk(s')
  {
    hide ResponsesBy, HandedBy;
    forall j | 0 <= j < |s.workers|
      ensures ResponsesBy(s'.out, j) == HandedBy(s'.workers[j])
    {
      if more == [] {
        assert s'.out == s.out;
      } else {
        assert more == [more[0]];
        ResponsesByNext(s.out, more[0], j);
      }
    }
  }

  lemma StepKeepsOut(s: Server, step: ServerStep)
    requires Enabled(s, step) && WorkersOk(s) && OutOk(s)
    ensures OutOk(Next(s, step))
  {
    if !step.Cancel? {
      WorkerStepOk(s, step);
      hide WorkerOk, WorkerNext, HandedBy, OutOk;
      var w, s' := s.workers[step.i], Next(s, step);
      var more := if step.Write? then [Sent(step.i, w.reply.response)] else [];
      assert s'.out == s.out + more;
      HandingOverKeepsOut(s, s', step.i, WorkerNext(w, step), more);
    }
  }

  lemma SameIds(s: Server, s': Server)
    requires |s.workers| <= |s'.workers|
    requires forall i :: 0 <= i < |s.workers| ==> IdOf(s', i) == IdOf(s, i)
    ensures DistinctIds(s') ==> DistinctIds(s)
  {
  }

  lemma StepKeepsHandling(s: Server, step: ServerStep)
    requires Enabled(s, step) && WorkersOk(s) && HandlingOk(s)
    ensures HandlingOk(Next(s, step))
  {
    var s' := Next(s, step);
    if !step.Cancel? {
      WorkerStepOk(s, step);
    }
    SameIds(s, s');
    assert HandlingNames(s');
    if DistinctIds(s') && step.Unregister? {
      UnregisterKeepsExact(s, step);
    }
  }

  lemma UnregisterKeepsExact(s: Server, step: ServerStep)
    requires Enabled(s, step) && step.Unregister? && DistinctIds(s) && HandlingExact(s)
    ensures HandlingExact(Next(s, step))
  {
    var s' := Next(s, step);
    forall i | 0 <= i < |s'.workers| && Registered(s'.workers[i]) && IdOf(s', i).Some?
      ensures IdOf(s', i).value in s'.handling
    {
      assert i != step.i && IdOf(s, i) != IdOf(s, step.i);
    }
  }

  lemma StepKeepsInv(s: Server, step: ServerStep)
    requires Inv(s) && Enabled(s, step)
    ensures Inv(Next(s, step))
  {
    StepKeepsWorkers(s, step);
    StepKeepsBaton(s, step);
    StepKeepsOut(s, step);
    StepKeepsHandling(s, step);
  }

  lemma {:induction false} NoResponsesByNewcomer(out: seq<Sent>, i: nat)
    requires forall j :: 0 <= j < |out| ==> out[j].owner != i
    ensures ResponsesBy(out, i) == []
  {
    if out != [] {
      NoResponsesByNewcomer(out[..|out| - 1], i);
    }
  }

  lemma AcceptKeepsOut(s: Server, id: Option<Id>)
    requires OutOk(s)
    ensures OutOk(Accept(s, id))
  {
    NoResponsesByNewcomer(s.out, |s.workers|);
    hide ResponsesBy;
  }

  lemma AcceptKeepsHandling(s: Server, id: Option<Id>)
    requires HandlingOk(s)
    ensures HandlingOk(Accept(s, id))
  {
    SameIds(s, Accept(s, id));
    assert HandlingNames(Accept(s, id));
  }

  lemma AcceptKeepsInv(s: Server, id: Option<Id>)
    requires Inv(s)
    ensures Inv(Accept(s, id))
  {
    AcceptKeepsOut(s, id);
    AcceptKeepsHandling(s, id);
    hide OutOk, HandlingOk;
  }

  lemma SpawnKeepsHandling(s: Server, i: nat)
    requires HandlingOk(s) && i < |s.workers| && s.workers[i].pc.Created?
    ensures HandlingOk(Spawn(s, i))
  {
    SameIds(s, Spawn(s, i));
    assert HandlingNames(Spawn(s, i));
  }

  lemma SpawnKeepsInv(s: Server, i: nat)
    requires Inv(s) && i < |s.workers| && s.workers[i].pc.Created?
    ensures Inv(Spawn(s, i))
  {
    SpawnKeepsHandling(s, i);
    assert WorkersOk(Spawn(s, i));
    assert OutOk(Spawn(s, i));
  }
}
