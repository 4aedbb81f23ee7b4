/**
 The failover pool of JSON-RPC endpoints. What an endpoint answers is up to the outside: the k-th
 client call that one `Call` makes is answered by `answers(k)`.
 */
module JrpcPool {
  import opened GoStrings
  import opened Wrappers

  type Ip = string

  const NONE: Ip := ""

  /** What a client call comes to: success, or an error with its message. */
  datatype Answer = Success | Failure(message: string)

  const RETRYABLE := [
    "connection refused", "context deadline exceeded", "Method not found",
    "tokenSource failed to acquire token"
  ]

  predicate Retryable(a: Answer) {
    a.Failure? && ContainsAny(a.message, RETRYABLE)
  }

  /** A failure is worth a retry when the endpoint could not be reached, was too slow, does not know the method,
      or could not get a token. */
  lemma RetryableIff(a: Answer)
    ensures Retryable(a) <==>
            a.Failure? &&
            (|| Contains(a.message, "connection refused") || Contains(a.message, "context deadline exceeded")
             || Contains(a.message, "Method not found")
             || Contains(a.message, "tokenSource failed to acquire token"))
  {
    if a.Failure? {
      assert ContainsAny(a.message, RETRYABLE) <==>
             || Contains(a.message, RETRYABLE[0]) || Contains(a.message, RETRYABLE[1])
             || Contains(a.message, RETRYABLE[2]) || Contains(a.message, RETRYABLE[3]);
    }
  }

  /** The pool as a value; of the client map only the keys matter. */
  datatype State = State(ips: seq<Ip>, clients: set<Ip>, active: Ip) {
    /** A set active endpoint has a client; otherwise calling it would dereference nil. */
    predicate Valid() {
      active == NONE || active in clients
    }

    /** The active endpoint is one of the pool's own. */
    predicate Listed() {
      active == NONE || active in ips
    }
  }

  function IndexOf(ips: seq<Ip>, ip: Ip): (i: nat)
    ensures i <= |ips|
    ensures i < |ips| ==> ips[i] == ip
    ensures forall j | 0 <= j < i :: ips[j] != ip
  {
    if ips == [] || ips[0] == ip then 0 else IndexOf(ips[1..], ip) + 1
  }

  /** The last endpoint takes the place of the first one dropped. */
  function Without(ips: seq<Ip>, ip: Ip): seq<Ip> {
    var i := IndexOf(ips, ip);
    if i == |ips| then ips else ips[i := ips[|ips| - 1]][..|ips| - 1]
  }

  function Dropped(s: State, ip: Ip): State {
    s.(ips := Without(s.ips, ip), active := if s.active == ip then NONE else s.active)
  }

  function Activated(s: State): State
    requires s.ips != []
  {
    if s.active == NONE then s.(active := s.ips[0], clients := s.clients + {s.ips[0]}) else s
  }

  /** `called` are the endpoints called, in order; `error` is None where Call returns nil. */
  datatype Outcome = Outcome(state: State, called: seq<Ip>, error: Option<string>)

  /** How many calls a pool is good for: one for each endpoint, and one for a stale active one. */
  function Budget(s: State): nat {
    if s.ips == [] then 0 else if s.Listed() then |s.ips| else |s.ips| + 1
  }

  /** One Call, of which `k` client calls have already been made. */
  function CallFrom(s: State, answers: nat -> Answer, k: nat): Outcome
    decreases Budget(s)
  {
    if s.ips == [] then Outcome(s, [], None)
    else
      var a := Activated(s);
      var answer := answers(k);
      if Retryable(answer) then
        DropLowersBudget(s);
        var rest := CallFrom(Dropped(a, a.active), answers, k + 1);
        rest.(called := [a.active] + rest.called)
      else Outcome(a, [a.active], if answer.Success? then None else Some(answer.message))
  }

  lemma DropLowersBudget(s: State)
    requires s.ips != []
    ensures var ip := Activated(s).active;
            var d := Dropped(Activated(s), ip);
            Budget(d) + 1 == Budget(s) && d.active == NONE && (ip in s.ips || !s.Listed())
  {
    var ip := Activated(s).active;
    if ip in s.ips {
      assert IndexOf(s.ips, ip) < |s.ips|;
    }
  }

  // ---- the class -----------------------------------------------------------------------------------

  class Pool {
    var ips: seq<Ip>
    var clients: set<Ip>
    var active: Ip
    /** Every client call made through the pool. */
    var calls: seq<Ip>

    function Value(): State
      reads this
    {
      State(ips, clients, active)
    }

    constructor (ips: seq<Ip>)
      ensures Value() == State(ips, {}, NONE) && calls == []
    {
      this.ips, clients, active, calls := ips, {}, NONE, [];
    }

    method Drop(toDrop: Ip)
      modifies this
      ensures Value() == Dropped(old(Value()), toDrop) && calls == old(calls)
      ensures clients == old(clients) && active == if old(active) == toDrop then "" else old(active)
    {
      if active == toDrop {
        active := NONE;
      }
      var i := 0;
      while i < |ips|
        invariant i <= |ips| && forall j | 0 <= j < i :: ips[j] != toDrop
        invariant ips == old(ips)
      {
        if ips[i] == toDrop {
          ips := ips[i := ips[|ips| - 1]];
          ips := ips[..|ips| - 1];
          break;
        }
        i := i + 1;
      }
    }

    method Call(answers: nat -> Answer, k: nat) returns (error: Option<string>)
      requires Value().Valid()
      modifies this
      ensures var o := CallFrom(old(Value()), answers, k);
              Value() == o.state && calls == old(calls) + o.called && error == o.error
      decreases Budget(Value())
    {
      hide ContainsAny, Dropped, Budget;
      ghost var before := Value();
      if |ips| == 0 {
        return None;
      }
      if active == NONE {
        active := ips[0];
        clients := clients + {active};
      }
      calls := calls + [active];
      assert Value() == Activated(before);
      match answers(k)
      case Success => error := None;
      case Failure(message) =>
        var retry := AnyOfSubstr(message, RETRYABLE);
        if retry {
          DropLowersBudget(before);
          Drop(active);
          error := Call(answers, k + 1);
        } else {
          error := Some(message);
        }
    }
  }

  // ---- what a call does ----------------------------------------------------------------------------

  /** The endpoints given up: all that were called, except the one that settled the call. */
  function GivenUp(o: Outcome): seq<Ip> {
    if o.state.ips == [] || o.called == [] then o.called else o.called[..|o.called| - 1]
  }

  /** The first endpoint called is the active one, or the first of the pool, which then is active; after a
      failure that is worth a retry it has left the pool and nothing is active. */
  lemma CallStartsAt(s: State, answers: nat -> Answer, k: nat)
    ensures var o := CallFrom(s, answers, k);
            if s.ips == [] then o == Outcome(s, [], None)
            else
              var first := if s.active == "" then s.ips[0] else s.active;
              && o.called != [] && o.called[0] == first
              && (!Retryable(answers(k)) ==>
                    o.called == [first] && o.state.active == first && o.state.ips == s.ips)
              && (Retryable(answers(k)) ==>
                    exists d: State :: d.active == "" && d.ips == Without(s.ips, first)
                                       && o.called == [first] + CallFrom(d, answers, k + 1).called
                                       && o.state == CallFrom(d, answers, k + 1).state)
  {
    if s.ips != [] {
      CallStep(s, answers, k);
      hide Retryable, CallFrom, Without;
      var a := Activated(s);
      var d := Dropped(a, a.active);
      assert d.active == "" && d.ips == Without(s.ips, a.active);
    }
  }

  /** Of a list without an endpoint everything else stays in place, except that the last one fills the gap. */
  lemma WithoutAt(ips: seq<Ip>, ip: Ip, i: nat)
    requires i < |ips| && ips[i] == ip && ip !in ips[..i]
    ensures |Without(ips, ip)| == |ips| - 1
    ensures forall j :: 0 <= j < |ips| - 1 ==> Without(ips, ip)[j] == if j == i then ips[|ips| - 1] else ips[j]
  {
    assert forall j | 0 <= j < i :: ips[..i][j] == ips[j];
    assert IndexOf(ips, ip) == i;
  }

  lemma LastFillsGap(ips: seq<Ip>, i: nat)
    requires i < |ips|
    ensures multiset(ips[i := ips[|ips| - 1]][..|ips| - 1]) == multiset(ips) - multiset{ips[i]}
  {
    var front, last := ips[..|ips| - 1], ips[|ips| - 1];
    assert ips == front + [last];
    if i < |front| {
      assert ips[i := last][..|ips| - 1] == front[i := last];
    } else {
      assert ips[i := last][..|ips| - 1] == front;
    }
  }

  lemma WithoutDropsOne(ips: seq<Ip>, ip: Ip)
    ensures multiset(Without(ips, ip)) == multiset(ips) - multiset{ip}
  {
    var i := IndexOf(ips, ip);
    if i < |ips| {
      LastFillsGap(ips, i);
    }
  }

  /**
   What ends a Call. With an endpoint left, the active one answered last, and its answer is the result:
   nil for success, otherwise an error that is not worth a retry. With none left, the result is nil and
   every call the pool was good for has failed.
   */
  predicate EndsWell(s: State, o: Outcome, answers: nat -> Answer, k: nat) {
    var n := |o.called|;
    if o.state.ips == [] then o.error.None? && n == Budget(s)
    else
      && 1 <= n <= Budget(s) && o.state.active == o.called[n - 1]
      && var last := answers(k + n - 1);
         !Retryable(last) && o.error == if last.Success? then None else Some(last.message)
  }

  /** Every endpoint that was given up had failed in a way that is worth a retry. */
  predicate GaveUpOnlyRetryable(o: Outcome, answers: nat -> Answer, k: nat) {
    forall i | k <= i < k + |GivenUp(o)| :: Retryable(answers(i))
  }

  /** One turn of the retry loop. */
  lemma CallStep(s: State, answers: nat -> Answer, k: nat)
    requires s.ips != []
    ensures var a, o := Activated(s), CallFrom(s, answers, k);
            if Retryable(answers(k)) then
              var rest := CallFrom(Dropped(a, a.active), answers, k + 1);
              && o == rest.(called := [a.active] + rest.called)
              && GivenUp(o) == [a.active] + GivenUp(rest)
            else
              && o.state == a && o.called == [a.active] && GivenUp(o) == []
              && o.error == if answers(k).Success? then None else Some(answers(k).message)
  {
  }

  lemma EndsWellAfterDrop(s: State, d: State, ip: Ip, rest: Outcome, answers: nat -> Answer, k: nat)
    requires Budget(s) == Budget(d) + 1 && Retryable(answers(k))
    requires EndsWell(d, rest, answers, k + 1) && GaveUpOnlyRetryable(rest, answers, k + 1)
    ensures var o := rest.(called := [ip] + rest.called);
            EndsWell(s, o, answers, k) && GaveUpOnlyRetryable(o, answers, k)
  {
    hide Retryable, Budget;
    var o := rest.(called := [ip] + rest.called);
    assert |GivenUp(o)| == |GivenUp(rest)| + 1;
  }

  /** Calls are bounded, and the result says truthfully how they ended. */
  lemma {:induction false} CallEndsWell(s: State, answers: nat -> Answer, k: nat)
    requires s.Valid()
    ensures var o := CallFrom(s, answers, k);
            o.state.Valid() && EndsWell(s, o, answers, k) && GaveUpOnlyRetryable(o, answers, k)
    decreases Budget(s)
  {
    hide Retryable, Dropped, CallFrom;
    if s.ips == [] {
      EmptyPoolCall(s, answers, k);
    } else {
      CallStep(s, answers, k);
      if Retryable(answers(k)) {
        hide Activated, EndsWell, GaveUpOnlyRetryable, Budget;
        var a := Activated(s);
        DropLowersBudget(s);
        var d := Dropped(a, a.active);
        CallEndsWell(d, answers, k + 1);
        EndsWellAfterDrop(s, d, a.active, CallFrom(d, answers, k + 1), answers, k);
      }
    }
  }

  lemma EmptyPoolCall(s: State, answers: nat -> Answer, k: nat)
    requires s.ips == []
    ensures CallFrom(s, answers, k) == Outcome(s, [], None) && Budget(s) == 0
  {
  }

  /**
   Endpoints are conserved: the new pool and the endpoints given up are the old pool, and the active
   endpoint is still one of the pool's.
   */
  lemma {:induction false} CallConservesEndpoints(s: State, answers: nat -> Answer, k: nat)
    requires s.Listed()
    ensures var o := CallFrom(s, answers, k);
            o.state.Listed() && multiset(s.ips) == multiset(o.state.ips) + multiset(GivenUp(o))
    decreases Budget(s)
  {
    if s.ips != [] {
      CallStep(s, answers, k);
      if Retryable(answers(k)) {
        var a := Activated(s);
        DropLowersBudget(s);
        CallConservesEndpoints(Dropped(a, a.active), answers, k + 1);
        WithoutDropsOne(s.ips, a.active);
      }
    }
  }
}
