/**
 The lock sections of crates/wallets/src/wallet_browser/state.rs over the queues of
 queue.rs, updated in place. Each section is shown to be one step of the protocol.
 */
module WalletQueue {
  import opened Common
  import opened WalletProtocol

  datatype Request = Request(id: Id, body: string)

  function Ids(requests: seq<Request>): (ids: seq<Id>)
    ensures |ids| == |requests| && forall i :: 0 <= i < |ids| ==> ids[i] == requests[i].id
  {
    seq(|requests|, i requires 0 <= i < |requests| => requests[i].id)
  }

  lemma {:induction false} RemoveAt(ids: seq<Id>, pos: nat)
    requires pos < |ids| && ids[pos] !in ids[..pos]
    ensures Remove(ids, ids[pos]) == ids[..pos] + ids[pos + 1..]
  {
    if pos > 0 {
      assert ids[0] in ids[..pos];
      assert ids[1..][..pos - 1] == ids[..pos][1..];
      RemoveAt(ids[1..], pos - 1);
    }
  }

  class RequestQueue {
    var requests: seq<Request>
    var responses: map<Id, Response>

    constructor ()
      ensures requests == [] && responses == map[]
    {
      requests, responses := [], map[];
    }

    method AddRequest(request: Request)
      modifies `requests
      ensures requests == old(requests) + [request]
    {
      requests := requests + [request];
    }

    method HasRequest(id: Id) returns (has: bool)
      ensures has <==> id in Ids(requests)
    {
      has := false;
      for i := 0 to |requests|
        invariant id !in Ids(requests)[..i]
      {
        if requests[i].id == id {
          assert Ids(requests)[i] == id;
          return true;
        }
      }
      assert Ids(requests)[..|requests|] == Ids(requests);
    }

    method ReadRequest() returns (request: Option<Request>)
      ensures request.None? <==> requests == []
      ensures request.Some? ==> request.value == requests[0]
    {
      request := if requests == [] then None else Some(requests[0]);
    }

    method RemoveRequest(id: Id) returns (removed: Option<Request>)
      modifies `requests
      ensures Ids(requests) == Remove(old(Ids(requests)), id)
      ensures removed.None? ==> id !in old(Ids(requests)) && requests == old(requests)
      ensures removed.Some? ==> removed.value in old(requests) && removed.value.id == id
      ensures removed.Some? ==> multiset(requests) + multiset{removed.value} == multiset(old(requests))
    {
      ghost var ids := Ids(requests);
      for i := 0 to |requests|
        invariant requests == old(requests) && id !in ids[..i]
      {
        if requests[i].id == id {
          assert requests == requests[..i] + [requests[i]] + requests[i + 1..];
          RemoveAt(ids, i);
          removed := Some(requests[i]);
          requests := requests[..i] + requests[i + 1..];
          assert Ids(requests) == ids[..i] + ids[i + 1..];
          return;
        }
      }
      assert ids[..|requests|] == ids;
      RemoveAbsent(ids, id);
      removed := None;
    }

    method AddResponse(id: Id, response: Response)
      modifies `responses
      ensures responses == old(responses)[id := response]
    {
      responses := responses[id := response];
    }

    method GetResponse(id: Id) returns (response: Option<Response>)
      modifies `responses
      ensures responses == old(responses) - {id}
      ensures response == if id in old(responses) then Some(old(responses)[id]) else None
    {
      response := if id in responses then Some(responses[id]) else None;
      responses := responses - {id};
    }

    method DrainRequestIds() returns (ids: seq<Id>)
      modifies `requests
      ensures ids == old(Ids(requests)) && requests == []
    {
      ids := Ids(requests);
      requests := [];
    }
  }

  lemma OneMoreFailed(responses: map<Id, Response>, ids: seq<Id>, i: nat)
    requires i < |ids|
    ensures responses + DisconnectAll(ids[..i + 1]) ==
            (responses + DisconnectAll(ids[..i]))[ids[i] := Disconnected(ids[i])]
  {
    assert ids[..i + 1] == ids[..i] + [ids[i]];
    hide Disconnected;
  }

  /** Answers every pending request of a queue with the disconnect error. */
  method FailAll(queue: RequestQueue)
    modifies queue
    ensures queue.requests == []
    ensures queue.responses == old(queue.responses) + DisconnectAll(old(Ids(queue.requests)))
  {
    var ids := queue.DrainRequestIds();
    assert queue.responses == old(queue.responses) + DisconnectAll(ids[..0]);
    hide DisconnectAll, Disconnected, Ids;
    for i := 0 to |ids|
      invariant queue.requests == []
      invariant queue.responses == old(queue.responses) + DisconnectAll(ids[..i])
    {
      queue.AddResponse(ids[i], Disconnected(ids[i]));
      OneMoreFailed(old(queue.responses), ids, i);
    }
    assert ids[..|ids|] == ids;
  }

  lemma NoIds()
    ensures Ids([]) == []
  {}

  /** A drain empties its own queue, answers what was in it, and touches no other. */
  lemma DrainStep(s: System, kind: Kind)
    requires Enabled(s, Drain(kind))
    ensures var c, d := s.channels[kind], Next(s, Drain(kind));
            && d.connected == s.connected && d.channels.Keys == s.channels.Keys
            && (forall k :: k in s.channels && k != kind ==> d.channels[k] == s.channels[k])
            && d.channels[kind].requests == []
            && d.channels[kind].responses == c.responses + DisconnectAll(c.requests)
  {
    hide DisconnectAll, NextDrain;
  }

  /** The shared state, with the protocol state it stands for. */
  class BrowserWalletState {
    var connected: bool
    const transactions: RequestQueue
    const signings: RequestQueue
    const keyAuthorizations: RequestQueue
    ghost var system: System

    function Queue(kind: Kind): RequestQueue {
      match kind
      case Transactions => transactions
      case Signings => signings
      case KeyAuthorizations => keyAuthorizations
    }

    ghost predicate Mirrors(kind: Kind)
      reads this, Queue(kind)
    {
      && kind in system.channels
      && system.channels[kind].requests == Ids(Queue(kind).requests)
      && system.channels[kind].responses == Queue(kind).responses
    }

    ghost predicate Valid()
      reads this, transactions, signings, keyAuthorizations
    {
      && transactions != signings && transactions != keyAuthorizations && signings != keyAuthorizations
      && system.connected == connected
      && Mirrors(Transactions) && Mirrors(Signings) && Mirrors(KeyAuthorizations)
    }

    constructor ()
      ensures Valid() && system == InitialSystem
      ensures fresh(transactions) && fresh(signings) && fresh(keyAuthorizations)
    {
      connected := false;
      transactions := new RequestQueue();
      signings := new RequestQueue();
      keyAuthorizations := new RequestQueue();
      system := InitialSystem;
    }

    /** The caller's connection check. */
    method CheckConnection(kind: Kind, ghost id: Id) returns (isConnected: bool)
      requires Valid() && Enabled(system, Event.CheckConnection(kind, id))
      modifies `system
      ensures Valid() && isConnected == connected
      ensures system == Next(old(system), Event.CheckConnection(kind, id))
    {
      isConnected := connected;
      system := Next(system, Event.CheckConnection(kind, id));
    }

    method AddRequest(kind: Kind, request: Request)
      requires Valid() && Enabled(system, Add(kind, request.id))
      modifies `system, Queue(kind)
      ensures Valid() && system == Next(old(system), Add(kind, request.id))
      ensures Queue(kind).requests == old(Queue(kind).requests) + [request]
    {
      Queue(kind).AddRequest(request);
      system := Next(system, Add(kind, request.id));
    }

    /** What the browser is served: the oldest request still open, or nothing. */
    method ReadNextRequest(kind: Kind) returns (request: Option<Request>)
      requires Valid()
      ensures request.None? <==> system.channels[kind].requests == []
      ensures request.Some? ==> request.value.id == system.channels[kind].requests[0]
      ensures request.Some? ==> request.value in Queue(kind).requests
    {
      request := Queue(kind).ReadRequest();
    }

    /** One poll of the caller's loop. */
    method PollResponse(kind: Kind, id: Id) returns (outcome: Option<Outcome>)
      requires Valid() && Enabled(system, Take(kind, id))
      modifies `system, Queue(kind)
      ensures Valid() && system == Next(old(system), Take(kind, id))
      ensures outcome.None? ==> IsAt(system.channels[kind], id, Waiting)
      ensures outcome.Some? ==> IsAt(system.channels[kind], id, Finished(outcome.value))
      ensures var found := old(Queue(kind).responses);
              if id !in found then outcome == None
              else if found[id].payload.Some? then outcome == Some(Accepted(found[id].payload.value))
              else if found[id].error.Some? then outcome == Some(Rejected(found[id].error.value))
              else outcome == Some(ServerError)
    {
      var response := Queue(kind).GetResponse(id);
      outcome := None;
      if response.Some? {
        if response.value.payload.Some? {
          outcome := Some(Accepted(response.value.payload.value));
        } else if response.value.error.Some? {
          outcome := Some(Rejected(response.value.error.value));
        } else {
          outcome := Some(ServerError);
        }
      }
      system := Next(system, Take(kind, id));
    }

    /** A caller past its timeout removes its request. */
    method RemoveRequest(kind: Kind, id: Id)
      requires Valid() && Enabled(system, Event.RemoveRequest(kind, id))
      modifies `system, Queue(kind)
      ensures Valid() && system == Next(old(system), Event.RemoveRequest(kind, id))
    {
      var _ := Queue(kind).RemoveRequest(id);
      system := Next(system, Event.RemoveRequest(kind, id));
    }

    /** The handler's checks on a posted body; passing them stores nothing yet. */
    method CheckResponse(kind: Kind, body: Response) returns (refusal: Option<Refusal>)
      requires Valid()
      modifies `system
      ensures Valid()
      ensures refusal == Some(UnknownId) <==> body.id !in Ids(Queue(kind).requests)
      ensures refusal == None <==>
              && body.id in Ids(Queue(kind).requests)
              && (body.payload.Some? <==> body.error.None?)
              && !(kind == Transactions && body.payload == Some(ZERO_HASH))
      ensures body.id in Ids(Queue(kind).requests) ==> refusal == Validate(kind, body)
      ensures system == if refusal.None? then Next(old(system), Post(kind, body)) else old(system)
    {
      var has := Queue(kind).HasRequest(body.id);
      if !has { return Some(UnknownId); }
      match (body.payload, body.error) {
        case (None, None) => return Some(MissingBoth);
        case (Some(_), Some(_)) => return Some(GivenBoth);
        case _ =>
      }
      if kind.Transactions? && body.payload.Some? {
        if body.payload.value == ZERO_HASH { return Some(ZeroHash); }
      }
      system := Next(system, Post(kind, body));
      refusal := None;
    }

    method AddResponse(kind: Kind, response: Response)
      requires Valid() && Enabled(system, StoreResponse(kind, response))
      modifies `system, Queue(kind)
      ensures Valid() && system == Next(old(system), StoreResponse(kind, response))
    {
      Queue(kind).AddResponse(response.id, response);
      var _ := Queue(kind).RemoveRequest(response.id);
      system := Next(system, StoreResponse(kind, response));
    }

    /** Writes the connection; clearing it starts a drain of the queues. */
    method WriteConnection(connection: bool)
      requires Valid()
      modifies this
      ensures Valid() && connected == connection
      ensures system == Next(old(system), if connection then Connect else Disconnect)
    {
      connected := connection;
      system := Next(system, if connection then Connect else Disconnect);
    }

    /** Fails everything pending in one queue. */
    method FailPending(kind: Kind)
      requires Valid() && Enabled(system, Drain(kind))
      modifies `system, Queue(kind)
      ensures Valid() && system == Next(old(system), Drain(kind))
    {
      hide DisconnectAll, NextDrain, Next, Ids;
      ghost var before := system;
      DrainStep(before, kind);
      FailAll(Queue(kind));
      NoIds();
      system := Next(before, Drain(kind));
    }
  }
}
