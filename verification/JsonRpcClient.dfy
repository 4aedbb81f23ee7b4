/**
 The calling side of a connection: callers insert a buffered channel under a fresh id, write their
 request, wait for the response or their context, and delete the entry; the reader looks entries up
 and sends on the channel it found, possibly long after the entry is gone.
 */
module JsonRpcClient {
  import opened Wrappers
  import opened JsonRpcRequest

  datatype Outcome = Answered(response: WireResponse) | WriteFailed | ContextDone

  /** `Fresh` is before the insert, `Writing` before the request is on the stream, `Leaving` between
      knowing the outcome and the deferred delete. */
  datatype CallPc =
    | Fresh
    | Writing
    | Awaiting
    | Leaving(outcome: Outcome)
    | Returned(outcome: Outcome)

  datatype Call = Call(id: Id, pc: CallPc, channel: seq<WireResponse>)

  const CHANNEL_CAPACITY := 1

  /** `answers` is history: the ids of the responses the reader has taken from the stream. */
  datatype Client = Client(calls: seq<Call>, pending: map<Id, nat>, answers: seq<Id>)

  datatype ClientStep =
    | NewCall(id: Id)
    | Insert(c: nat)
    | WriteRequest(c: nat, ok: bool)
    | Receive(c: nat)
    | ContextEnds(c: nat)
    | Delete(c: nat)

  predicate Enabled(s: Client, step: ClientStep) {
    match step
    case NewCall(id) => forall c :: 0 <= c < |s.calls| ==> s.calls[c].id != id
    case Insert(c) => c < |s.calls| && s.calls[c].pc.Fresh?
    case WriteRequest(c, _) => c < |s.calls| && s.calls[c].pc.Writing?
    case Receive(c) => c < |s.calls| && s.calls[c].pc.Awaiting? && s.calls[c].channel != []
    case ContextEnds(c) => c < |s.calls| && s.calls[c].pc.Awaiting?
    case Delete(c) => c < |s.calls| && s.calls[c].pc.Leaving?
  }

  function Next(s: Client, step: ClientStep): Client
    requires Enabled(s, step)
  {
    match step
    case NewCall(id) => s.(calls := s.calls + [Call(id, Fresh, [])])
    case Insert(c) =>
      s.(calls := s.calls[c := s.calls[c].(pc := Writing)], pending := s.pending[s.calls[c].id := c])
    case WriteRequest(c, ok) =>
      s.(calls := s.calls[c := s.calls[c].(pc := if ok then Awaiting else Leaving(WriteFailed))])
    case Receive(c) =>
      var call := s.calls[c];
      s.(calls := s.calls[c := call.(pc := Leaving(Answered(call.channel[0])), channel := call.channel[1..])])
    case ContextEnds(c) => s.(calls := s.calls[c := s.calls[c].(pc := Leaving(ContextDone))])
    case Delete(c) =>
      s.(calls := s.calls[c := s.calls[c].(pc := Returned(s.calls[c].pc.outcome))],
         pending := s.pending - {s.calls[c].id})
  }

  /** A response the reader still has to send on the channel it looked up. */
  datatype Delivery = Delivery(c: nat, response: WireResponse)

  /** The reader takes a response off the stream and looks its id up. */
  function LookUp(s: Client, response: WireResponse): (Client, Option<Delivery>) {
    (s.(answers := s.answers + [response.id]),
     if response.id in s.pending then Some(Delivery(s.pending[response.id], response)) else None)
  }

  /** A send on a buffered channel goes through while the buffer has room. */
  predicate CanSend(s: Client, d: Delivery) {
    d.c < |s.calls| && |s.calls[d.c].channel| < CHANNEL_CAPACITY
  }

  function Send(s: Client, d: Delivery): Client
    requires CanSend(s, d)
  {
    s.(calls := s.calls[d.c := s.calls[d.c].(channel := s.calls[d.c].channel + [d.response])])
  }

  // ---- the invariant --------------------------------------------------------------------------

  predicate Inserted(call: Call) {
    call.pc.Writing? || call.pc.Awaiting? || call.pc.Leaving?
  }

  predicate HasAnswer(call: Call) {
    (call.pc.Leaving? || call.pc.Returned?) && call.pc.outcome.Answered?
  }

  /** Responses for a call that the reader has taken and that are somewhere on their way to it. */
  function Arrived(call: Call, c: nat, d: Option<Delivery>): nat {
    |call.channel|
    + (if HasAnswer(call) then 1 else 0)
    + (if d.Some? && d.value.c == c then 1 else 0)
  }

  predicate CallOk(s: Client, c: nat, d: Option<Delivery>)
    requires c < |s.calls|
  {
    var call := s.calls[c];
    && |call.channel| <= CHANNEL_CAPACITY
    && (forall r :: r in call.channel ==> r.id == call.id)
    && (HasAnswer(call) ==> call.pc.outcome.response.id == call.id)
    && (call.pc.Fresh? ==> Arrived(call, c, d) == 0)
    && Arrived(call, c, d) <= multiset(s.answers)[call.id]
    && (Inserted(call) <==> call.id in s.pending && s.pending[call.id] == c)
  }

  predicate FreshIds(s: Client) {
    forall b, c :: 0 <= b < c < |s.calls| ==> s.calls[b].id != s.calls[c].id
  }

  predicate Inv(s: Client, d: Option<Delivery>) {
    && FreshIds(s)
    && (forall id :: id in s.pending ==> s.pending[id] < |s.calls| && s.calls[s.pending[id]].id == id)
    && (forall c :: 0 <= c < |s.calls| ==> CallOk(s, c, d))
    && (d.Some? ==> d.value.c < |s.calls| && d.value.response.id == s.calls[d.value.c].id)
  }

  lemma NewCallKeepsInv(s: Client, id: Id, d: Option<Delivery>)
    requires Inv(s, d) && Enabled(s, NewCall(id))
    ensures Inv(Next(s, NewCall(id)), d)
  {
    var s' := Next(s, NewCall(id));
    assert id !in s.pending;
    forall c | 0 <= c < |s'.calls|
      ensures CallOk(s', c, d)
    {
      if c < |s.calls| {
        assert CallOk(s, c, d);
      }
    }
  }

  /** A step of call c keeps every other call: its id is another one. */
  lemma OtherCallsKept(s: Client, step: ClientStep, d: Option<Delivery>, c: nat, b: nat)
    requires Inv(s, d) && Enabled(s, step) && !step.NewCall? && step.c == c
    requires b < |s.calls| && b != c
    ensures CallOk(Next(s, step), b, d)
  {
    assert CallOk(s, b, d);
    assert s.calls[b].id != s.calls[c].id;
  }

  lemma OwnCallKept(s: Client, step: ClientStep, d: Option<Delivery>)
    requires Inv(s, d) && Enabled(s, step) && !step.NewCall?
    ensures CallOk(Next(s, step), step.c, d)
  {
    assert CallOk(s, step.c, d);
    if step.Receive? {
      assert s.calls[step.c].channel[0] in s.calls[step.c].channel;
    }
  }

  lemma StepKeepsInv(s: Client, step: ClientStep, d: Option<Delivery>)
    requires Inv(s, d) && Enabled(s, step)
    ensures Inv(Next(s, step), d)
  {
    if step.NewCall? {
      NewCallKeepsInv(s, step.id, d);
    } else {
      OwnCallKept(s, step, d);
      hide CallOk;
      forall b | 0 <= b < |s.calls| && b != step.c
        ensures CallOk(Next(s, step), b, d)
      {
        OtherCallsKept(s, step, d, step.c, b);
      }
    }
  }

  lemma LookUpKeepsInv(s: Client, response: WireResponse)
    requires Inv(s, None)
    ensures Inv(LookUp(s, response).0, LookUp(s, response).1)
  {
    var (s', d) := LookUp(s, response);
    forall c | 0 <= c < |s'.calls|
      ensures CallOk(s', c, d)
    {
      assert CallOk(s, c, None);
      assert multiset(s'.answers)[s.calls[c].id] >= multiset(s.answers)[s.calls[c].id];
    }
  }

  lemma SendKeepsInv(s: Client, d: Delivery)
    requires Inv(s, Some(d)) && CanSend(s, d)
    ensures Inv(Send(s, d), None)
  {
    var s' := Send(s, d);
    forall c | 0 <= c < |s'.calls|
      ensures CallOk(s', c, None)
    {
      assert CallOk(s, c, Some(d));
    }
  }
}
