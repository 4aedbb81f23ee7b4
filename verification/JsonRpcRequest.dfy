/**
 An incoming JSON-RPC request: its life from waiting to replied, the channel that holds back the next
 request, and the response a reply produces.
 */
module JsonRpcRequest {
  import opened Wrappers

  datatype Id = Name(name: string) | Number(number: int)

  datatype RpcError = RpcError(code: int, message: string)

  datatype WireResponse = WireResponse(id: Id, result: Option<string>, error: Option<RpcError>)

  const CODE_METHOD_NOT_FOUND := -32601
  const CODE_INTERNAL_ERROR := -32603

  datatype RequestState = Waiting | Serial | Parallel | Replied

  predicate AtLeastParallel(s: RequestState) {
    s.Parallel? || s.Replied?
  }

  /** A request as the connection sees it; `closes` counts how often its channel was closed, and a
      second close would panic. No id means the request is a notification. */
  datatype Request = Request(id: Option<Id>, state: RequestState, closes: nat)

  /** What a handler passes to Reply: an encoded result, an RPC error, or any other error. */
  datatype Answer = Value(json: string) | Failure(error: RpcError) | OtherError(message: string)

  datatype ReplyError = InvokedMoreThanOnce | NotACall

  function ResponseTo(id: Id, answer: Answer): WireResponse {
    match answer
    case Value(json) => WireResponse(id, Some(json), None)
    case Failure(error) => WireResponse(id, None, Some(error))
    case OtherError(message) => WireResponse(id, None, Some(RpcError(0, message)))
  }

  /** A response has its request's id, and either the result or an error: an RPC error as it is, any other with
      its message and code 0. */
  lemma ResponseCarriesAnswer(id: Id, answer: Answer)
    ensures var r := ResponseTo(id, answer);
            && r.id == id
            && (r.result.Some? <==> answer.Value?) && (r.error.Some? <==> !answer.Value?)
            && (answer.Value? ==> r.result.value == answer.json)
            && (answer.Failure? ==> r.error.value == answer.error)
            && (answer.OtherError? ==> r.error.value.code == 0 && r.error.value.message == answer.message)
  {
  }

  function WentParallel(r: Request): Request {
    if AtLeastParallel(r.state) then r else r.(state := Parallel, closes := r.closes + 1)
  }

  function ReplyRefusal(r: Request): Option<ReplyError> {
    if r.state.Replied? then Some(InvokedMoreThanOnce)
    else if r.id.None? then Some(NotACall)
    else None
  }

  function AfterReply(r: Request): Request {
    if ReplyRefusal(r).Some? then r else WentParallel(r).(state := Replied)
  }

  /** The request object the handler goroutine works on. */
  class RequestObject {
    const id: Option<Id>
    var state: RequestState
    var closes: nat

    ghost function Value(): Request
      reads this
    {
      Request(id, state, closes)
    }

    constructor (id: Option<Id>)
      ensures Value() == Request(id, Waiting, 0)
    {
      this.id, state, closes := id, Waiting, 0;
    }

    /** Closes the channel the next request waits on, unless that already happened. */
    method GoParallel()
      modifies this
      ensures Value() == WentParallel(old(Value()))
      ensures if old(state).Parallel? || old(state).Replied? then state == old(state) && closes == old(closes)
              else state == Parallel && closes == old(closes) + 1
    {
      if state.Parallel? || state.Replied? {
        return;
      }
      state := Parallel;
      closes := closes + 1;
    }

    /** Returns the response to hand to the stream, or why there is none. */
    method Reply(answer: Answer) returns (response: Option<WireResponse>, refusal: Option<ReplyError>)
      modifies this
      ensures Value() == AfterReply(old(Value()))
      ensures refusal == old(ReplyRefusal(Value()))
      ensures response == if refusal.Some? then None else Some(ResponseTo(id.value, answer))
      ensures refusal == if old(state).Replied? then Some(InvokedMoreThanOnce)
                         else if id.None? then Some(NotACall) else None
      ensures if refusal.Some? then state == old(state) && closes == old(closes)
              else state == Replied && closes == old(closes) + if old(state).Parallel? then 0 else 1
      ensures response.Some? ==>
                && response.value.id == id.value
                && match answer
                   case Value(json) => response.value.result == Some(json) && response.value.error == None
                   case Failure(error) => response.value.result == None && response.value.error == Some(error)
                   case OtherError(message) =>
                     response.value.result == None && response.value.error == Some(RpcError(0, message))
    {
      if state.Replied? {
        return None, Some(InvokedMoreThanOnce);
      }
      if id.None? {
        return None, Some(NotACall);
      }
      GoParallel();
      state := Replied;
      return Some(ResponseTo(id.value, answer)), None;
    }
  }
}
