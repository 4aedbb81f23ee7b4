/**
 A whole connection: request goroutines, callers and the one reader, interleaved in every order. The
 theorems speak of every state some legal sequence of atomic steps reaches.
 */
module JsonRpcConnection {
  import opened Wrappers
  import opened JsonRpcRequest
  import S = JsonRpcServer
  import C = JsonRpcClient

  /** The reader is at the stream, has built request i, or has a response to send. */
  datatype Reader = Ready | Registering(i: nat) | Sending(delivery: C.Delivery) | Stopped

  datatype Conn = Conn(server: S.Server, client: C.Client, reader: Reader)

  datatype Step =
    | Serve(server: S.ServerStep)
    | Ask(client: C.ClientStep)
    | ReadRequest(id: Option<Id>)
    | Spawn
    | ReadResponse(response: WireResponse)
    | SendResponse
    | ReadIgnored
    | ReadFails

  predicate Enabled(c: Conn, step: Step) {
    match step
    case Serve(server) => S.Enabled(c.server, server)
    case Ask(client) => C.Enabled(c.client, client)
    case ReadRequest(_) => c.reader.Ready?
    case Spawn => c.reader.Registering? && c.reader.i < |c.server.workers|
    case ReadResponse(_) => c.reader.Ready?
    case SendResponse => c.reader.Sending? && C.CanSend(c.client, c.reader.delivery)
    case ReadIgnored => c.reader.Ready?
    case ReadFails => c.reader.Ready?
  }

  function Next(c: Conn, step: Step): Conn
    requires Enabled(c, step)
  {
    match step
    case Serve(server) => c.(server := S.Next(c.server, server))
    case Ask(client) => c.(client := C.Next(c.client, client))
    case ReadRequest(id) => c.(server := S.Accept(c.server, id), reader := Registering(|c.server.workers|))
    case Spawn => c.(server := S.Spawn(c.server, c.reader.i), reader := Ready)
    case ReadResponse(response) =>
      var (client, found) := C.LookUp(c.client, response);
      c.(client := client, reader := if found.Some? then Sending(found.value) else Ready)
    case SendResponse => c.(client := C.Send(c.client, c.reader.delivery), reader := Ready)
    case ReadIgnored => c
    case ReadFails => c.(reader := Stopped)
  }

  function NewConn(handlers: nat): Conn {
    Conn(S.Server(handlers, [], map[], [], []), C.Client([], map[], []), Ready)
  }

  function Run(c: Conn, steps: seq<Step>): Conn
    requires Legal(c, steps)
    decreases |steps|, 1
  {
    if steps == [] then c
    else Next(Run(c, steps[..|steps| - 1]), steps[|steps| - 1])
  }

  predicate Legal(c: Conn, steps: seq<Step>)
    decreases |steps|, 0
  {
    steps == [] ||
    (Legal(c, steps[..|steps| - 1]) && Enabled(Run(c, steps[..|steps| - 1]), steps[|steps| - 1]))
  }

  ghost predicate Reachable(c: Conn) {
    exists handlers: nat, steps: seq<Step> | Legal(NewConn(handlers), steps) :: Run(NewConn(handlers), steps) == c
  }

  // ---- the invariant ----------------------------------------------------------------------------

  function InFlight(c: Conn): Option<C.Delivery> {
    if c.reader.Sending? then Some(c.reader.delivery) else None
  }

  predicate ReaderOk(c: Conn) {
    && (c.reader.Registering? ==>
          c.reader.i == |c.server.workers| - 1 && c.server.workers[c.reader.i].pc.Created?)
    && forall i :: 0 <= i < |c.server.workers| && c.server.workers[i].pc.Created? ==>
         c.reader.Registering? && c.reader.i == i
  }

  predicate Inv(c: Conn) {
    S.Inv(c.server) && C.Inv(c.client, InFlight(c)) && ReaderOk(c)
  }

  lemma ServerStepKeepsCreated(s: S.Server, step: S.ServerStep)
    requires S.Enabled(s, step)
    ensures |S.Next(s, step).workers| == |s.workers|
    ensures forall i :: 0 <= i < |s.workers| ==> S.Next(s, step).workers[i].pc.Created? == s.workers[i].pc.Created?
  {
  }

  lemma StepKeepsInv(c: Conn, step: Step)
    requires Inv(c) && Enabled(c, step)
    ensures Inv(Next(c, step))
  {
    match step
    case Serve(server) =>
      S.StepKeepsInv(c.server, server);
      ServerStepKeepsCreated(c.server, server);
    case Ask(client) => C.StepKeepsInv(c.client, client, InFlight(c));
    case ReadRequest(id) => S.AcceptKeepsInv(c.server, id);
    case Spawn => S.SpawnKeepsInv(c.server, c.reader.i);
    case ReadResponse(response) => C.LookUpKeepsInv(c.client, response);
    case SendResponse => C.SendKeepsInv(c.client, c.reader.delivery);
    case _ =>
  }

  lemma {:induction false} RunInv(handlers: nat, steps: seq<Step>)
    requires Legal(NewConn(handlers), steps)
    ensures Inv(Run(NewConn(handlers), steps))
  {
    if steps != [] {
      var before := steps[..|steps| - 1];
      RunInv(handlers, before);
      StepKeepsInv(Run(NewConn(handlers), before), steps[|steps| - 1]);
    }
  }

  lemma ReachableInv(c: Conn)
    requires Reachable(c)
    ensures Inv(c)
  {
    var handlers: nat, steps: seq<Step> :| Legal(NewConn(handlers), steps) && Run(NewConn(handlers), steps) == c;
    RunInv(handlers, steps);
  }

  // ---- the baton ------------------------------------------------------------------------------------

  /** Requests are delivered in arrival order, at most one is in its serial part, a request has started
      only if its predecessor has gone parallel, no channel is ever closed twice, and a goroutine that
      has ended has closed its channel. */
  lemma BatonOrder(c: Conn)
    requires Reachable(c)
    ensures var ws := c.server.workers;
            && (forall j :: 0 <= j < |c.server.starts| ==> c.server.starts[j] == j)
            && (forall i :: 0 <= i < |ws| ==> (S.Started(ws[i]) <==> i in c.server.starts))
            && (forall i, j :: 0 <= i < j < |ws| && S.Started(ws[j]) ==>
                  S.Started(ws[i]) && AtLeastParallel(ws[i].request.state))
            && (forall i, j :: 0 <= i < |ws| && 0 <= j < |ws|
                               && ws[i].request.state.Serial? && ws[j].request.state.Serial? ==>
                  i == j)
            && (forall i :: 0 <= i < |ws| ==> ws[i].request.closes <= 1)
            && (forall i :: 0 <= i < |ws| && ws[i].pc.Ended? ==> ws[i].request.closes == 1)
  {
    ReachableInv(c);
    var ws := c.server.workers;
    forall i | 0 <= i < |ws|
      ensures S.Started(ws[i]) <==> i in c.server.starts
      ensures ws[i].request.closes <= 1
      ensures ws[i].pc.Ended? ==> ws[i].request.closes == 1
    {
      assert S.WorkerOk(ws[i]);
      if S.Started(ws[i]) {
        assert c.server.starts[i] == i;
      }
    }
    forall i, j | 0 <= i < j < |ws| && S.Started(ws[j])
      ensures S.Started(ws[i]) && AtLeastParallel(ws[i].request.state)
    {
      assert i < |c.server.starts| - 1;
    }
    forall i | 0 <= i < |ws| && ws[i].request.state.Serial?
      ensures S.Started(ws[i])
    {
      assert S.WorkerOk(ws[i]);
    }
  }

  /** The step that a goroutine which has started, and has not ended, can always take next. */
  function NextOwnStep(s: S.Server, i: nat): S.ServerStep
    requires i < |s.workers|
  {
    var w := s.workers[i];
    if S.Busy(w) then S.Write(i)
    else match w.pc
      case Delivering(h, _) => if h < s.handlers then S.HandlerReturn(i, true) else S.DefaultDeliver(i, true)
      case Unregistering => S.Unregister(i)
      case AutoReplying => S.AutoReply(i, true)
      case Releasing => S.Release(i)
      case Finishing => S.Finish(i)
      case _ => S.Start(i)
  }

  /** The baton is never lost: as long as some spawned goroutine has not ended, one of them can move. */
  lemma ServerNeverStalls(c: Conn, i: nat)
    returns (mover: nat)
    requires Reachable(c)
    requires i < |c.server.workers| && !c.server.workers[i].pc.Created? && !c.server.workers[i].pc.Ended?
    ensures mover <= i && S.Enabled(c.server, NextOwnStep(c.server, mover))
  {
    ReachableInv(c);
    mover := FirstUnended(c, i);
    var w := c.server.workers[mover];
    assert S.WorkerOk(w);
    if mover > 0 {
      assert S.WorkerOk(c.server.workers[mover - 1]);
    }
  }

  lemma {:induction false} FirstUnended(c: Conn, i: nat) returns (j: nat)
    requires Inv(c)
    requires i < |c.server.workers| && !c.server.workers[i].pc.Created? && !c.server.workers[i].pc.Ended?
    ensures j <= i && !c.server.workers[j].pc.Created? && !c.server.workers[j].pc.Ended?
    ensures j > 0 && c.server.workers[j].pc.Blocked? ==> c.server.workers[j - 1].pc.Ended?
  {
    if i == 0 || !c.server.workers[i].pc.Blocked? || c.server.workers[i - 1].pc.Ended? {
      j := i;
    } else {
      j := FirstUnended(c, i - 1);
    }
  }

  // ---- replies ------------------------------------------------------------------------------------------

  /** A goroutine that has ended has handed the stream exactly one response if its request was a call
      (none only when that response could not be encoded) and none if it was a notification. The
      response carries the request's id and the first answer a handler gave; without one it is an
      internal error if some handler claimed the request and "method not found" otherwise. */
  lemma RepliesExactlyOnce(c: Conn, i: nat)
    requires Reachable(c) && i < |c.server.workers| && c.server.workers[i].pc.Ended?
    ensures var w := c.server.workers[i];
            var sent := S.ResponsesBy(c.server.out, i);
            && (w.request.id.None? ==> sent == [])
            && (w.request.id.Some? ==>
                  && w.request.state.Replied?
                  && sent == if w.reply.Lost? then [] else [ResponseTo(w.request.id.value, S.DueAnswer(w))])
  {
    ReachableInv(c);
    assert S.WorkerOk(c.server.workers[i]);
  }

  /** At no time has the stream been handed two responses for one request, nor one for a notification,
      nor one before the request went parallel. */
  lemma NeverTwoResponses(c: Conn, i: nat)
    requires Reachable(c) && i < |c.server.workers|
    ensures var sent := S.ResponsesBy(c.server.out, i);
            && |sent| <= 1
            && (sent != [] ==>
                  c.server.workers[i].request.id == Some(sent[0].id)
                  && AtLeastParallel(c.server.workers[i].request.state))
  {
    ReachableInv(c);
    assert S.WorkerOk(c.server.workers[i]);
  }

  /** A Reply that is refused, because it is the second one or because the request is a notification,
      changes nothing at all; an accepted one is the only kind that does. */
  lemma RefusedReplyChangesNothing(c: Conn, i: nat, answer: Answer, encodes: bool)
    requires Reachable(c) && Enabled(c, Serve(S.HandlerReply(i, answer, encodes)))
    ensures var r := c.server.workers[i].request;
            Next(c, Serve(S.HandlerReply(i, answer, encodes))) == c <==> r.state.Replied? || r.id.None?
  {
    ReachableInv(c);
    var w := c.server.workers[i];
    assert S.WorkerOk(w);
    var c' := Next(c, Serve(S.HandlerReply(i, answer, encodes)));
    if ReplyRefusal(w.request).Some? {
      assert c'.server.workers == c.server.workers;
    } else {
      assert c'.server.workers[i].request.state.Replied?;
    }
  }

  // ---- cancelling an incoming request ------------------------------------------------------------------------

  /** Cancelling by id reaches the request with that id from its registration to the return of its
      handlers, and no other request, provided the peer does not reuse ids. */
  lemma CancelHitsExactly(c: Conn, id: Id, i: nat)
    requires Reachable(c) && S.DistinctIds(c.server) && i < |c.server.workers|
    ensures var w := c.server.workers[i];
            var w' := Next(c, Serve(S.Cancel(id))).server.workers[i];
            w'.cancelled <==> w.cancelled || (w.request.id == Some(id) && S.Registered(w))
  {
    ReachableInv(c);
    assert S.HandlingExact(c.server);
    if id in c.server.handling {
      var h := c.server.handling[id];
      assert S.IdOf(c.server, h) == Some(id);
      if i != h {
        assert S.IdOf(c.server, i) != Some(id);
      }
    }
  }

  // ---- responses to our own calls -------------------------------------------------------------------------------

  /** The pending table holds exactly the calls between their insert and their delete. */
  lemma PendingIsExact(c: Conn)
    requires Reachable(c)
    ensures forall id :: id in c.client.pending <==>
              exists k :: 0 <= k < |c.client.calls| && c.client.calls[k].id == id && C.Inserted(c.client.calls[k])
  {
    ReachableInv(c);
    forall id
      ensures id in c.client.pending <==>
              exists k :: 0 <= k < |c.client.calls| && c.client.calls[k].id == id && C.Inserted(c.client.calls[k])
    {
      if id in c.client.pending {
        assert C.CallOk(c.client, c.client.pending[id], InFlight(c));
      }
      if k :| 0 <= k < |c.client.calls| && c.client.calls[k].id == id && C.Inserted(c.client.calls[k]) {
        assert C.CallOk(c.client, k, InFlight(c));
      }
    }
  }

  /** A call that returns a response returns one with its own id, which the peer did send. */
  lemma ResponseIsForItsCall(c: Conn, k: nat)
    requires Reachable(c) && k < |c.client.calls|
    requires C.HasAnswer(c.client.calls[k])
    ensures c.client.calls[k].pc.outcome.response.id == c.client.calls[k].id
    ensures c.client.calls[k].id in c.client.answers
  {
    ReachableInv(c);
    assert C.CallOk(c.client, k, InFlight(c));
  }

  /** The reader has looked a channel up and cannot send on it. */
  predicate ReaderBlocked(c: Conn) {
    c.reader.Sending? && !Enabled(c, SendResponse)
  }

  /** The reader can only be held up by a peer that answered one id at least twice. */
  lemma BlockedReaderMeansDuplicate(c: Conn)
    requires Reachable(c) && ReaderBlocked(c)
    ensures multiset(c.client.answers)[c.reader.delivery.response.id] >= 2
  {
    ReachableInv(c);
    assert C.CallOk(c.client, c.reader.delivery.c, InFlight(c));
  }

  /** So with a peer that answers each id at most once the reader never blocks on a send, even for a
      call that was cancelled between the lookup and the send. */
  lemma ReaderNeverBlocks(c: Conn)
    requires Reachable(c)
    requires forall id :: multiset(c.client.answers)[id] <= 1
    ensures !ReaderBlocked(c)
  {
    if ReaderBlocked(c) {
      BlockedReaderMeansDuplicate(c);
    }
  }

  /** The reader never gets back to the stream, whatever happens. */
  ghost predicate StuckForGood(c: Conn) {
    c.reader.Sending? && forall steps :: Legal(c, steps) ==> Run(c, steps).reader == c.reader
  }

  /** The call the reader wants to send to no longer receives, and its channel is full. */
  predicate ServesDoneCall(c: Conn) {
    && c.reader.Sending?
    && c.reader.delivery.c < |c.client.calls|
    && var call := c.client.calls[c.reader.delivery.c];
       |call.channel| >= C.CHANNEL_CAPACITY && (call.pc.Leaving? || call.pc.Returned?)
  }

  lemma DoneCallStep(c: Conn, step: Step)
    requires ServesDoneCall(c) && Enabled(c, step)
    ensures ServesDoneCall(Next(c, step)) && Next(c, step).reader == c.reader
  {
  }

  lemma {:induction false} DoneCallForever(c: Conn, steps: seq<Step>)
    requires ServesDoneCall(c) && Legal(c, steps)
    ensures ServesDoneCall(Run(c, steps)) && Run(c, steps).reader == c.reader
  {
    if steps != [] {
      var before := steps[..|steps| - 1];
      DoneCallForever(c, before);
      DoneCallStep(Run(c, before), steps[|steps| - 1]);
    }
  }

  lemma RunAppend(c: Conn, steps: seq<Step>, step: Step)
    requires Legal(c, steps) && Enabled(Run(c, steps), step)
    ensures Legal(c, steps + [step]) && Run(c, steps + [step]) == Next(Run(c, steps), step)
  {
    assert (steps + [step])[..|steps|] == steps;
  }

  predicate ServesWaitingCall(c: Conn) {
    && c.reader.Sending?
    && c.reader.delivery.c < |c.client.calls|
    && var call := c.client.calls[c.reader.delivery.c];
       call.pc.Awaiting? && |call.channel| == C.CHANNEL_CAPACITY
  }

  lemma ReceivingMakesRoom(c: Conn)
    requires ServesWaitingCall(c)
    ensures var receive := Ask(C.Receive(c.reader.delivery.c));
            && Enabled(c, receive) && Enabled(Next(c, receive), SendResponse)
            && Next(Next(c, receive), SendResponse).reader.Ready?
  {
  }

  /** A call that is waiting for its response makes room, and the reader gets back to the stream. */
  lemma ReceivingUnblocks(c: Conn, before: seq<Step>) returns (steps: seq<Step>)
    requires Legal(c, before) && ServesWaitingCall(Run(c, before))
    ensures Legal(c, steps) && Run(c, steps).reader.Ready?
  {
    var receive := Ask(C.Receive(Run(c, before).reader.delivery.c));
    hide *;
    ReceivingMakesRoom(Run(c, before));
    RunAppend(c, before, receive);
    RunAppend(c, before + [receive], SendResponse);
    steps := before + [receive] + [SendResponse];
  }

  /** A call that has not finished writing its request goes on to receive. */
  lemma Unblocks(c: Conn) returns (steps: seq<Step>)
    requires Reachable(c) && ReaderBlocked(c) && !ServesDoneCall(c)
    ensures Legal(c, steps) && Run(c, steps).reader.Ready?
  {
    assert Legal(c, []) && Run(c, []) == c;
    hide *;
    if ServesWaitingCall(c) {
      steps := ReceivingUnblocks(c, []);
    } else {
      BlockedCall(c);
      var write := Ask(C.WriteRequest(c.reader.delivery.c, true));
      RunAppend(c, [], write);
      steps := ReceivingUnblocks(c, [] + [write]);
    }
  }

  lemma BlockedCall(c: Conn)
    requires Reachable(c) && ReaderBlocked(c) && !ServesDoneCall(c) && !ServesWaitingCall(c)
    ensures var write := Ask(C.WriteRequest(c.reader.delivery.c, true));
            Enabled(c, write) && ServesWaitingCall(Next(c, write))
  {
    ReachableInv(c);
    assert C.CallOk(c.client, c.reader.delivery.c, InFlight(c));
  }

  /** A blocked reader is stuck for good exactly when its call is past receiving. As long as the call is
      writing its request or waiting, some continuation gets the reader back to the stream. */
  lemma BlockedIsStuckIffCallIsDone(c: Conn)
    requires Reachable(c) && ReaderBlocked(c)
    ensures c.reader.delivery.c < |c.client.calls|
    ensures var call := c.client.calls[c.reader.delivery.c];
            StuckForGood(c) <==> call.pc.Leaving? || call.pc.Returned?
  {
    ReachableInv(c);
    assert C.CallOk(c.client, c.reader.delivery.c, InFlight(c));
    if ServesDoneCall(c) {
      forall steps | Legal(c, steps)
        ensures Run(c, steps).reader == c.reader
      {
        DoneCallForever(c, steps);
      }
    } else {
      var steps := Unblocks(c);
      assert Run(c, steps).reader != c.reader;
    }
  }

  lemma ReachableNext(c: Conn, step: Step)
    requires Reachable(c) && Enabled(c, step)
    ensures Reachable(Next(c, step))
  {
    var handlers: nat, steps: seq<Step> :| Legal(NewConn(handlers), steps) && Run(NewConn(handlers), steps) == c;
    assert (steps + [step])[..|steps|] == steps;
    assert Legal(NewConn(handlers), steps + [step]);
    assert Run(NewConn(handlers), steps + [step]) == Next(c, step);
  }

  /** A connection whose one call, with the given id, is in the given state. */
  predicate OneCall(c: Conn, id: Id, pc: C.CallPc, channel: seq<WireResponse>, answers: seq<Id>) {
    c.client == C.Client([C.Call(id, pc, channel)], map[id := 0], answers)
  }

  lemma AwaitingCallIsReachable(handlers: nat, id: Id) returns (c: Conn)
    ensures Reachable(c) && c.reader.Ready? && OneCall(c, id, C.Awaiting, [], [])
  {
    c := NewConn(handlers);
    assert Legal(c, []) && Run(c, []) == c;
    c := Take(c, Ask(C.NewCall(id)));
    assert c.client.calls == [C.Call(id, C.Fresh, [])];
    c := Take(c, Ask(C.Insert(0)));
    assert OneCall(c, id, C.Writing, [], []);
    c := Take(c, Ask(C.WriteRequest(0, true)));
    assert c.client.calls == [C.Call(id, C.Awaiting, [])];
  }

  /** Responses to ids that are not pending leave the reader at the stream. */
  lemma {:induction false} AnswersIgnored(c: Conn, id: Id, channel: seq<WireResponse>, read: seq<Id>, more: seq<Id>)
    returns (c': Conn)
    requires Reachable(c) && c.reader.Ready? && OneCall(c, id, C.Awaiting, channel, read) && id !in more
    ensures Reachable(c') && c'.reader.Ready? && OneCall(c', id, C.Awaiting, channel, read + more)
    decreases |more|
  {
    if more == [] {
      c' := c;
      assert read + more == read;
    } else {
      c' := Take(c, ReadResponse(WireResponse(more[0], None, None)));
      c' := AnswersIgnored(c', id, channel, read + [more[0]], more[1..]);
      assert read + [more[0]] + more[1..] == read + more;
    }
  }

  /** The response to the one call is sent on its empty channel. */
  lemma AnswerSent(c: Conn, id: Id, read: seq<Id>) returns (c': Conn)
    requires Reachable(c) && c.reader.Ready? && OneCall(c, id, C.Awaiting, [], read)
    ensures Reachable(c') && c'.reader.Ready?
    ensures OneCall(c', id, C.Awaiting, [WireResponse(id, None, None)], read + [id])
  {
    var response := WireResponse(id, None, None);
    c' := Take(c, ReadResponse(response));
    assert c'.reader == Sending(C.Delivery(0, response)) && OneCall(c', id, C.Awaiting, [], read + [id]);
    c' := Take(c', SendResponse);
    assert c'.client.calls[0].channel == [response];
    assert c'.client.calls == [C.Call(id, C.Awaiting, [response])];
  }

  /** The first two occurrences of an id. */
  lemma FirstTwo(answers: seq<Id>) returns (i: nat, j: nat)
    requires Repeats(answers)
    ensures i < j < |answers| && answers[i] == answers[j]
    ensures answers[i] !in answers[..i] && answers[i] !in answers[i + 1..j]
  {
    var a: nat, b: nat :| a < b < |answers| && answers[a] == answers[b];
    i := 0;
    while answers[i] != answers[a]
      invariant i <= a && answers[a] !in answers[..i]
      decreases a - i
    {
      i := i + 1;
    }
    j := i + 1;
    while answers[j] != answers[a]
      invariant i < j <= b && answers[a] !in answers[i + 1..j]
      decreases b - j
    {
      j := j + 1;
    }
  }

  predicate Repeats(answers: seq<Id>) {
    exists i: nat, j: nat :: i < j < |answers| && answers[i] == answers[j]
  }

  /** Some schedule blocks the reader, for now or for good, while it reads these answers. */
  ghost predicate CanBlock(answers: seq<Id>) {
    exists c :: Reachable(c) && ReaderBlocked(c) && c.client.answers <= answers
  }

  ghost predicate CanStick(answers: seq<Id>) {
    exists c :: Reachable(c) && ReaderBlocked(c) && StuckForGood(c) && c.client.answers <= answers
  }

  lemma RepeatedAnswerSticks(handlers: nat, answers: seq<Id>) returns (c: Conn)
    requires Repeats(answers)
    ensures Reachable(c) && ReaderBlocked(c) && StuckForGood(c) && c.client.answers <= answers
  {
    hide *;
    var i, j := FirstTwo(answers);
    var id := answers[i];
    var response := WireResponse(id, None, None);
    c := AwaitingCallIsReachable(handlers, id);
    c := AnswersIgnored(c, id, [], [], answers[..i]);
    c := AnswerSent(c, id, [] + answers[..i]);
    c := AnswersIgnored(c, id, [response], [] + answers[..i] + [id], answers[i + 1..j]);
    c := SecondAnswerSticks(c, id, [] + answers[..i] + [id] + answers[i + 1..j]);
    assert [] + answers[..i] + [id] + answers[i + 1..j] + [id] == answers[..j + 1];
  }

  lemma SecondAnswerSticks(c: Conn, id: Id, read: seq<Id>) returns (c': Conn)
    requires Reachable(c) && c.reader.Ready? && OneCall(c, id, C.Awaiting, [WireResponse(id, None, None)], read)
    ensures Reachable(c') && ReaderBlocked(c') && StuckForGood(c') && c'.client.answers == read + [id]
  {
    var response := WireResponse(id, None, None);
    c' := Take(c, ReadResponse(response));
    assert c'.reader == Sending(C.Delivery(0, response)) && OneCall(c', id, C.Awaiting, [response], read + [id]);
    c' := Take(c', Ask(C.ContextEnds(0)));
    BlockedIsStuckIffCallIsDone(c');
  }

  /** The assumption on the peer is exact: the answers it sends can block the reader under some schedule,
      and even stick it for good, if and only if one id is answered twice. */
  lemma ReaderCanStickIffAnswerRepeats(answers: seq<Id>)
    ensures CanBlock(answers) <==> Repeats(answers)
    ensures CanStick(answers) <==> Repeats(answers)
  {
    if Repeats(answers) {
      var c := RepeatedAnswerSticks(0, answers);
    }
    if CanBlock(answers) {
      var c :| Reachable(c) && ReaderBlocked(c) && c.client.answers <= answers;
      BlockedReaderMeansDuplicate(c);
      TwiceMeansRepeats(c.client.answers, c.reader.delivery.response.id);
      var i: nat, j: nat :| i < j < |c.client.answers| && c.client.answers[i] == c.client.answers[j];
      assert answers[i] == answers[j];
    }
  }

  lemma {:induction false} TwiceMeansRepeats(ids: seq<Id>, id: Id)
    requires multiset(ids)[id] >= 2
    ensures Repeats(ids)
  {
    var i :| 0 <= i < |ids| && ids[i] == id;
    assert ids == ids[..i] + [id] + ids[i + 1..];
    if j :| 0 <= j < i && ids[j] == id {
      assert ids[j] == ids[i];
    } else {
      assert id in multiset(ids[i + 1..]);
      var j :| i < j < |ids| && ids[j] == id;
      assert ids[i] == ids[j];
    }
  }

  lemma Take(c: Conn, step: Step) returns (c': Conn)
    requires Reachable(c) && Enabled(c, step)
    ensures Reachable(c') && c' == Next(c, step)
  {
    ReachableNext(c, step);
    c' := Next(c, step);
  }
}
