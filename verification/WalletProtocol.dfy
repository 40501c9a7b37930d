/**
 The browser wallet's request/response protocol (crates/wallets/src/wallet_browser): CLI
 callers, browser handlers and disconnects interleave at lock sections, each of which is
 one atomic step. The handler's check and its store are separate sections, and so are a
 caller's connection check and its request.
 */
module WalletProtocol {
  import opened Common

  type Id = nat
  type Payload = nat

  /** The queues, in the order in which a disconnect fails them. */
  datatype Kind = Transactions | Signings | KeyAuthorizations

  /** A response: a transaction hash, signature or signed hex, or an error. */
  datatype Response = Response(id: Id, payload: Option<Payload>, error: Option<string>)

  const ZERO_HASH: Payload := 0

  datatype Refusal = UnknownId | MissingBoth | GivenBoth | ZeroHash

  /** What the handlers check in a posted body, besides that its request exists. */
  function Validate(kind: Kind, r: Response): Option<Refusal> {
    if r.payload.None? && r.error.None? then Some(MissingBoth)
    else if r.payload.Some? && r.error.Some? then Some(GivenBoth)
    else if kind.Transactions? && r.payload == Some(ZERO_HASH) then Some(ZeroHash)
    else None
  }

  datatype Outcome = NotConnected | Accepted(payload: Payload) | Rejected(reason: string) | Timeout | ServerError

  /** What a caller makes of its response. */
  function OutcomeOf(r: Response): Outcome {
    if r.payload.Some? then Accepted(r.payload.value)
    else if r.error.Some? then Rejected(r.error.value)
    else ServerError
  }

  function Disconnected(id: Id): Response {
    Response(id, None, Some("Wallet disconnected"))
  }

  /** A caller between its lock sections. */
  datatype Caller = Checked | Waiting | TimingOut | Finished(outcome: Outcome)

  /**
   One queue with everyone using it. `posted` are bodies that passed the handler's check
   and are not yet stored. Histories: the ids added, those no longer open because a
   response was stored, a disconnect drained them, or their caller gave up, every body that
   ever passed the handler's check, and the ids that a disconnect drained.
   */
  datatype Channel = Channel(
    requests: seq<Id>,
    responses: map<Id, Response>,
    callers: map<Id, Caller>,
    posted: multiset<Response>,
    added: seq<Id>,
    closed: set<Id>,
    passed: set<Response>,
    drained: set<Id>)

  const EmptyChannel := Channel([], map[], map[], multiset{}, [], {}, {}, {})

  /** `drainers` are disconnects in progress, each at the queue it fails next. */
  datatype System = System(connected: bool, drainers: multiset<Kind>, channels: map<Kind, Channel>)

  const InitialSystem := System(false, multiset{},
    map[Transactions := EmptyChannel, Signings := EmptyChannel, KeyAuthorizations := EmptyChannel])

  // ---------- Queue operations ----------

  /** Removes the first occurrence of an id. */
  function Remove(requests: seq<Id>, id: Id): seq<Id> {
    if requests == [] then []
    else if requests[0] == id then requests[1..]
    else [requests[0]] + Remove(requests[1..], id)
  }

  function DisconnectAll(ids: seq<Id>): map<Id, Response> {
    map id | id in ids :: Disconnected(id)
  }

  // ---------- Steps ----------

  datatype Event =
    | Connect
    | Disconnect                         // the connection is cleared; draining follows
    | Drain(kind: Kind)
    | CheckConnection(kind: Kind, id: Id)
    | Add(kind: Kind, id: Id)
    | Take(kind: Kind, id: Id)           // a poll of the caller's loop
    | GiveUp(kind: Kind, id: Id)         // the caller saw its timeout
    | RemoveRequest(kind: Kind, id: Id)
    | Post(kind: Kind, response: Response)
    | StoreResponse(kind: Kind, response: Response)

  predicate IsAt(c: Channel, id: Id, at: Caller) {
    id in c.callers && c.callers[id] == at
  }

  predicate ChannelEnabled(kind: Kind, c: Channel, e: Event) {
    match e
    case CheckConnection(_, id) => id !in c.callers
    case Add(_, id) => IsAt(c, id, Checked)
    case Take(_, id) => IsAt(c, id, Waiting)
    case GiveUp(_, id) => IsAt(c, id, Waiting)
    case RemoveRequest(_, id) => IsAt(c, id, TimingOut)
    case Post(_, r) => r.id in c.requests && Validate(kind, r).None?
    case StoreResponse(_, r) => r in c.posted
    case _ => true
  }

  function ChannelNext(kind: Kind, c: Channel, e: Event, connected: bool): Channel
    requires ChannelEnabled(kind, c, e)
  {
    match e
    case CheckConnection(_, id) => c.(callers := c.callers[id := if connected then Checked else Finished(NotConnected)])
    case Add(_, id) => c.(callers := c.callers[id := Waiting], requests := c.requests + [id], added := c.added + [id])
    case Take(_, id) =>
      if id in c.responses then
        c.(callers := c.callers[id := Finished(OutcomeOf(c.responses[id]))], responses := c.responses - {id})
      else c
    case GiveUp(_, id) => c.(callers := c.callers[id := TimingOut])
    case RemoveRequest(_, id) =>
      c.(callers := c.callers[id := Finished(Timeout)], requests := Remove(c.requests, id), closed := c.closed + {id})
    case Post(_, r) => c.(posted := c.posted + multiset{r}, passed := c.passed + {r})
    case StoreResponse(_, r) =>
      c.(posted := c.posted - multiset{r}, responses := c.responses[r.id := r],
         requests := Remove(c.requests, r.id), closed := c.closed + {r.id})
    case Drain(_) =>
      c.(requests := [], responses := c.responses + DisconnectAll(c.requests),
         closed := c.closed + (set id | id in c.requests), drained := c.drained + (set id | id in c.requests))
    case _ => c
  }

  function KindOf(e: Event): Option<Kind> {
    match e
    case Connect => None
    case Disconnect => None
    case Drain(k) => Some(k)
    case CheckConnection(k, _) => Some(k)
    case Add(k, _) => Some(k)
    case Take(k, _) => Some(k)
    case GiveUp(k, _) => Some(k)
    case RemoveRequest(k, _) => Some(k)
    case Post(k, _) => Some(k)
    case StoreResponse(k, _) => Some(k)
  }

  function NextDrain(k: Kind): multiset<Kind> {
    match k
    case Transactions => multiset{Signings}
    case Signings => multiset{KeyAuthorizations}
    case KeyAuthorizations => multiset{}
  }

  predicate Enabled(s: System, e: Event) {
    && (e.Drain? ==> e.kind in s.drainers)
    && (KindOf(e).Some? ==> KindOf(e).value in s.channels)
    && (KindOf(e).Some? ==> ChannelEnabled(KindOf(e).value, s.channels[KindOf(e).value], e))
  }

  function Next(s: System, e: Event): System
    requires Enabled(s, e)
  {
    match e
    case Connect => s.(connected := true)
    case Disconnect => s.(connected := false, drainers := s.drainers + multiset{Transactions})
    case _ =>
      var k := KindOf(e).value;
      s.(channels := s.channels[k := ChannelNext(k, s.channels[k], e, s.connected)],
         drainers := if e.Drain? then s.drainers - multiset{k} + NextDrain(k) else s.drainers)
  }

  predicate IsRun(s: System, es: seq<Event>)
    decreases |es|
  {
    es == [] || (Enabled(s, es[0]) && IsRun(Next(s, es[0]), es[1..]))
  }

  function Run(s: System, es: seq<Event>): System
    requires IsRun(s, es)
    decreases |es|
  {
    if es == [] then s else Run(Next(s, es[0]), es[1..])
  }

  // ---------- What every interleaving keeps ----------

  /** The ids in order of addition that are still open. */
  function Open(added: seq<Id>, closed: set<Id>): seq<Id> {
    if added == [] then []
    else
      var rest := Open(added[..|added| - 1], closed);
      var last := added[|added| - 1];
      if last in closed then rest else rest + [last]
  }

  predicate Distinct(ids: seq<Id>) {
    forall i, j :: 0 <= i < j < |ids| ==> ids[i] != ids[j]
  }

  /** Exactly one of payload and error, and a hash is not zero. */
  predicate Proper(kind: Kind, r: Response) {
    && (r.payload.Some? <==> r.error.None?)
    && (kind.Transactions? ==> r.payload != Some(ZERO_HASH))
  }

  /** A response is one that the browser posted, or says that the wallet is gone to one whom a disconnect drained. */
  predicate Genuine(c: Channel, id: Id, r: Response) {
    r.id == id && (r in c.passed || (r == Disconnected(id) && id in c.drained))
  }

  /** What a caller can have been told. */
  predicate Deserved(kind: Kind, c: Channel, id: Id, o: Outcome) {
    match o
    case NotConnected => id !in c.added
    case Timeout => id in c.added && id in c.closed
    case ServerError => false
    case Accepted(p) =>
      && id in c.added && id in c.closed
      && Response(id, Some(p), None) in c.passed
      && (kind.Transactions? ==> p != ZERO_HASH)
    case Rejected(reason) =>
      && id in c.added && id in c.closed
      && (Response(id, None, Some(reason)) in c.passed || (reason == "Wallet disconnected" && id in c.drained))
  }

  predicate CallerHolds(kind: Kind, c: Channel, id: Id, at: Caller) {
    match at
    case Checked => id !in c.added
    case Waiting => id in c.added && (id in c.closed ==> id in c.responses)
    case TimingOut => id in c.added && (id in c.closed ==> id in c.responses)
    case Finished(o) => Deserved(kind, c, id, o)
  }

  predicate ResponseHolds(kind: Kind, c: Channel, id: Id, r: Response) {
    Genuine(c, id, r) && Proper(kind, r) && id in c.closed
  }

  ghost predicate HistoriesAgree(kind: Kind, c: Channel) {
    && c.requests == Open(c.added, c.closed)
    && Distinct(c.added)
    && (forall id :: id in c.added ==> id in c.callers)
    && (forall id :: id in c.closed ==> id in c.added)
    && (forall r :: r in c.posted ==> r in c.passed)
    && (forall r :: r in c.passed ==> Proper(kind, r) && r.id in c.added)
  }

  ghost predicate ChannelHolds(kind: Kind, c: Channel) {
    && HistoriesAgree(kind, c)
    && (forall id :: id in c.responses ==> ResponseHolds(kind, c, id, c.responses[id]))
    && (forall id :: id in c.callers ==> CallerHolds(kind, c, id, c.callers[id]))
  }

  ghost predicate Holds(s: System) {
    && (forall k: Kind :: k in s.channels)
    && (forall k: Kind :: k in s.channels ==> ChannelHolds(k, s.channels[k]))
  }

  lemma {:induction false} OpenContents(added: seq<Id>, closed: set<Id>)
    ensures forall id :: id in Open(added, closed) <==> id in added && id !in closed
  {
    if added != [] {
      OpenContents(added[..|added| - 1], closed);
      assert added == added[..|added| - 1] + [added[|added| - 1]];
    }
  }

  lemma {:induction false} OpenUnchanged(added: seq<Id>, closed: set<Id>, more: set<Id>)
    requires forall id :: id in added ==> (id in closed <==> id in more)
    ensures Open(added, closed) == Open(added, more)
  {
    if added != [] {
      assert added == added[..|added| - 1] + [added[|added| - 1]];
      OpenUnchanged(added[..|added| - 1], closed, more);
    }
  }

  lemma {:induction false} RemoveFromEnd(ids: seq<Id>, last: Id, id: Id)
    ensures Remove(ids + [last], id) ==
            if id in ids then Remove(ids, id) + [last] else if last == id then ids else ids + [last]
  {
    if ids == [] {
      assert [last][1..] == [] && [] + [last] == [last];
    } else {
      assert (ids + [last])[1..] == ids[1..] + [last];
      RemoveFromEnd(ids[1..], last, id);
      if ids[0] != id && id !in ids {
        assert [ids[0]] + ids[1..] == ids;
      }
    }
  }

  lemma {:induction false} RemoveAbsent(ids: seq<Id>, id: Id)
    requires id !in ids
    ensures Remove(ids, id) == ids
  {
    if ids != [] { RemoveAbsent(ids[1..], id); }
  }

  /** Removing a request by position is closing its id. */
  lemma {:induction false} RemoveIsClosing(added: seq<Id>, closed: set<Id>, id: Id)
    requires Distinct(added)
    ensures Remove(Open(added, closed), id) == Open(added, closed + {id})
  {
    if added != [] {
      var init, last := added[..|added| - 1], added[|added| - 1];
      assert added == init + [last];
      RemoveIsClosing(init, closed, id);
      OpenContents(init, closed);
      if last !in closed {
        RemoveFromEnd(Open(init, closed), last, id);
        if last == id { OpenUnchanged(init, closed, closed + {id}); }
        else if id !in Open(init, closed) { RemoveAbsent(Open(init, closed), id); }
      }
    }
  }

  lemma DrainIsClosing(added: seq<Id>, closed: set<Id>)
    ensures Open(added, closed + set id | id in Open(added, closed)) == []
  {
    var more := closed + set id | id in Open(added, closed);
    OpenContents(added, closed);
    OpenContents(added, more);
    if Open(added, more) != [] { assert Open(added, more)[0] in Open(added, more); }
  }

  lemma AddKeepsOpen(added: seq<Id>, closed: set<Id>, id: Id)
    requires id !in closed
    ensures Open(added + [id], closed) == Open(added, closed) + [id]
  {
    assert (added + [id])[..|added|] == added;
  }

  lemma {:induction false} AddKeepsHistories(kind: Kind, c: Channel, id: Id)
    requires ChannelHolds(kind, c) && IsAt(c, id, Checked)
    ensures HistoriesAgree(kind, ChannelNext(kind, c, Add(kind, id), true))
  {
    assert CallerHolds(kind, c, id, c.callers[id]);
    AddKeepsOpen(c.added, c.closed, id);
  }

  lemma StoreKeepsHistories(kind: Kind, c: Channel, r: Response)
    requires ChannelHolds(kind, c) && r in c.posted
    ensures HistoriesAgree(kind, ChannelNext(kind, c, StoreResponse(kind, r), true))
  {
    RemoveIsClosing(c.added, c.closed, r.id);
  }

  lemma GivingUpKeepsHistories(kind: Kind, c: Channel, id: Id)
    requires ChannelHolds(kind, c) && IsAt(c, id, TimingOut)
    ensures HistoriesAgree(kind, ChannelNext(kind, c, RemoveRequest(kind, id), true))
  {
    assert CallerHolds(kind, c, id, c.callers[id]);
    RemoveIsClosing(c.added, c.closed, id);
  }

  lemma DrainKeepsHistories(kind: Kind, c: Channel)
    requires ChannelHolds(kind, c)
    ensures HistoriesAgree(kind, ChannelNext(kind, c, Drain(kind), true))
  {
    DrainIsClosing(c.added, c.closed);
    OpenContents(c.added, c.closed);
  }

  lemma PostKeepsHistories(kind: Kind, c: Channel, r: Response)
    requires ChannelHolds(kind, c) && r.id in c.requests && Validate(kind, r).None?
    ensures HistoriesAgree(kind, ChannelNext(kind, c, Post(kind, r), true))
  {
    hide Open, Distinct;
    OpenContents(c.added, c.closed);
  }

  lemma OthersKeepHistories(kind: Kind, c: Channel, e: Event, connected: bool)
    requires ChannelHolds(kind, c) && ChannelEnabled(kind, c, e)
    requires !e.Add? && !e.StoreResponse? && !e.RemoveRequest? && !e.Drain? && !e.Post?
    ensures HistoriesAgree(kind, ChannelNext(kind, c, e, connected))
  {
    hide Open, Distinct, Proper, CallerHolds, ResponseHolds;
  }

  lemma StepKeepsHistories(kind: Kind, c: Channel, e: Event, connected: bool)
    requires ChannelHolds(kind, c) && ChannelEnabled(kind, c, e)
    ensures HistoriesAgree(kind, ChannelNext(kind, c, e, connected))
  {
    hide Open, Distinct, HistoriesAgree, ChannelHolds, Remove, DisconnectAll;
    match e
    case Add(_, id) => AddKeepsHistories(kind, c, id);
    case StoreResponse(_, r) => StoreKeepsHistories(kind, c, r);
    case RemoveRequest(_, id) => GivingUpKeepsHistories(kind, c, id);
    case Drain(_) => DrainKeepsHistories(kind, c);
    case Post(_, r) => PostKeepsHistories(kind, c, r);
    case _ => OthersKeepHistories(kind, c, e, connected);
  }

  lemma StepKeepsResponses(kind: Kind, c: Channel, e: Event, connected: bool, id: Id)
    requires ChannelHolds(kind, c) && ChannelEnabled(kind, c, e)
    requires id in ChannelNext(kind, c, e, connected).responses
    ensures ResponseHolds(kind, ChannelNext(kind, c, e, connected), id,
                          ChannelNext(kind, c, e, connected).responses[id])
  {
    hide *;
    var d := ChannelNext(kind, c, e, connected);
    if id in c.responses && c.responses[id] == d.responses[id] {
      OfResponses(kind, c, id);
      HistoriesGrow(kind, c, e, connected);
      StillHolds(kind, c, d, id, c.responses[id]);
    } else {
      NewResponseHolds(kind, c, e, connected, id);
    }
  }

  lemma OfResponses(kind: Kind, c: Channel, id: Id)
    requires ChannelHolds(kind, c) && id in c.responses
    ensures ResponseHolds(kind, c, id, c.responses[id])
  {
    hide HistoriesAgree, ResponseHolds;
  }

  lemma HistoriesGrow(kind: Kind, c: Channel, e: Event, connected: bool)
    requires ChannelEnabled(kind, c, e)
    ensures var d := ChannelNext(kind, c, e, connected);
            c.passed <= d.passed && c.closed <= d.closed && c.drained <= d.drained
  {
    hide Remove, OutcomeOf, Validate, DisconnectAll;
  }

  lemma StillHolds(kind: Kind, c: Channel, d: Channel, id: Id, r: Response)
    requires ResponseHolds(kind, c, id, r) && c.passed <= d.passed && c.closed <= d.closed && c.drained <= d.drained
    ensures ResponseHolds(kind, d, id, r)
  {
  }

  /** A response that was not there before was posted, or a drain put it there. */
  lemma NewResponseHolds(kind: Kind, c: Channel, e: Event, connected: bool, id: Id)
    requires ChannelHolds(kind, c) && ChannelEnabled(kind, c, e)
    requires id in ChannelNext(kind, c, e, connected).responses
    requires id !in c.responses || c.responses[id] != ChannelNext(kind, c, e, connected).responses[id]
    ensures ResponseHolds(kind, ChannelNext(kind, c, e, connected), id,
                          ChannelNext(kind, c, e, connected).responses[id])
  {
    hide Open, Distinct, Remove, CallerHolds, OutcomeOf, Validate;
  }

  /** For a caller that a step leaves as it is, histories only grow, and an id that is closed has a response. */
  lemma OthersAreUndisturbed(kind: Kind, c: Channel, e: Event, connected: bool, id: Id)
    requires ChannelHolds(kind, c) && ChannelEnabled(kind, c, e) && id in c.callers
    requires id in ChannelNext(kind, c, e, connected).callers
    requires c.callers[id] == ChannelNext(kind, c, e, connected).callers[id]
    ensures Undisturbed(c, ChannelNext(kind, c, e, connected), id)
  {
    hide Remove, ChannelHolds, OutcomeOf, Validate;
  }

  predicate Undisturbed(c: Channel, d: Channel, id: Id) {
    && c.passed <= d.passed && c.closed <= d.closed && c.drained <= d.drained
    && (id in c.added <==> id in d.added)
    && (id in c.responses ==> id in d.responses)
    && (id in d.closed && id !in c.closed ==> id in d.responses)
  }

  lemma UndisturbedHolds(kind: Kind, c: Channel, d: Channel, id: Id)
    requires id in c.callers && CallerHolds(kind, c, id, c.callers[id]) && Undisturbed(c, d, id)
    ensures CallerHolds(kind, d, id, c.callers[id])
  {
  }

  lemma OfChannel(kind: Kind, c: Channel, id: Id)
    requires ChannelHolds(kind, c) && id in c.callers
    ensures CallerHolds(kind, c, id, c.callers[id])
  {
    hide HistoriesAgree, CallerHolds;
  }

  lemma StepKeepsOthers(kind: Kind, c: Channel, e: Event, connected: bool, id: Id)
    requires ChannelHolds(kind, c) && ChannelEnabled(kind, c, e) && id in c.callers
    requires id in ChannelNext(kind, c, e, connected).callers
    requires c.callers[id] == ChannelNext(kind, c, e, connected).callers[id]
    ensures CallerHolds(kind, ChannelNext(kind, c, e, connected), id, c.callers[id])
  {
    hide *;
    OfChannel(kind, c, id);
    OthersAreUndisturbed(kind, c, e, connected, id);
    UndisturbedHolds(kind, c, ChannelNext(kind, c, e, connected), id);
  }

  lemma TakeDeserved(kind: Kind, c: Channel, id: Id)
    requires ChannelHolds(kind, c) && IsAt(c, id, Waiting) && id in c.responses
    ensures Deserved(kind, c, id, OutcomeOf(c.responses[id]))
  {
    assert CallerHolds(kind, c, id, c.callers[id]);
    assert ResponseHolds(kind, c, id, c.responses[id]);
    var r := c.responses[id];
    assert r == Response(id, r.payload, r.error);
  }

  lemma StepKeepsCallers(kind: Kind, c: Channel, e: Event, connected: bool, id: Id)
    requires ChannelHolds(kind, c) && ChannelEnabled(kind, c, e)
    requires id in ChannelNext(kind, c, e, connected).callers
    ensures CallerHolds(kind, ChannelNext(kind, c, e, connected), id, ChannelNext(kind, c, e, connected).callers[id])
  {
    var d := ChannelNext(kind, c, e, connected);
    if id in c.callers && c.callers[id] == d.callers[id] {
      StepKeepsOthers(kind, c, e, connected, id);
    } else {
      hide Open, Distinct, Remove, Proper, Genuine, DisconnectAll, OutcomeOf;
      if id in c.callers { assert CallerHolds(kind, c, id, c.callers[id]); }
      if e.Take? { TakeDeserved(kind, c, id); }
      match e
      case CheckConnection(_, _) => assert id !in c.added;
      case _ =>
    }
  }

  lemma StepKeepsChannel(kind: Kind, c: Channel, e: Event, connected: bool)
    requires ChannelHolds(kind, c) && ChannelEnabled(kind, c, e)
    ensures ChannelHolds(kind, ChannelNext(kind, c, e, connected))
  {
    StepKeepsHistories(kind, c, e, connected);
    var d := ChannelNext(kind, c, e, connected);
    forall id | id in d.responses ensures ResponseHolds(kind, d, id, d.responses[id]) {
      StepKeepsResponses(kind, c, e, connected, id);
    }
    forall id | id in d.callers ensures CallerHolds(kind, d, id, d.callers[id]) {
      StepKeepsCallers(kind, c, e, connected, id);
    }
  }

  lemma StepKeeps(s: System, e: Event)
    requires Holds(s) && Enabled(s, e)
    ensures Holds(Next(s, e))
  {
    hide ChannelHolds, ChannelEnabled, ChannelNext, NextDrain;
    if KindOf(e).Some? {
      var k := KindOf(e).value;
      StepKeepsChannel(k, s.channels[k], e, s.connected);
    }
  }

  lemma InitiallyHolds()
    ensures Holds(InitialSystem)
  {
    forall k: Kind ensures k in InitialSystem.channels && InitialSystem.channels[k] == EmptyChannel {
      match k
      case Transactions => case Signings => case KeyAuthorizations =>
    }
    forall k: Kind ensures ChannelHolds(k, EmptyChannel) {}
  }

  lemma {:induction false} RunKeeps(s: System, es: seq<Event>)
    requires Holds(s) && IsRun(s, es)
    ensures Holds(Run(s, es))
    decreases |es|
  {
    hide Holds, Enabled, Next;
    if es != [] {
      StepKeeps(s, es[0]);
      RunKeeps(Next(s, es[0]), es[1..]);
    }
  }

  // ---------- Main results, over every interleaving from the start ----------

  /**
   Every stored response sits under its own id, gives exactly one of payload and error, and
   was posted by the browser for that id or says that the wallet disconnected.
   */
  lemma StoredResponsesAreProper(es: seq<Event>, kind: Kind, id: Id)
    requires IsRun(InitialSystem, es)
    requires kind in Run(InitialSystem, es).channels
    requires id in Run(InitialSystem, es).channels[kind].responses
    ensures var c := Run(InitialSystem, es).channels[kind];
            && c.responses[id].id == id
            && (c.responses[id].payload.Some? <==> c.responses[id].error.None?)
            && (|| Post(kind, c.responses[id]) in es
                || (&& c.responses[id] == Response(id, None, Some("Wallet disconnected"))
                    && id in c.drained && Drain(kind) in es && Disconnect in es))
  {
    InitiallyHolds();
    RunKeeps(InitialSystem, es);
    HistoryIsOfTheRun(es, kind);
    var c := Run(InitialSystem, es).channels[kind];
    hide Run, IsRun, HistoriesAgree;
    assert ResponseHolds(kind, c, id, c.responses[id]);
  }

  /**
   What callers are told: never that a response misses both fields; a payload or a reason
   only when the browser posted it for that id, a transaction hash only when it is not zero;
   and that the wallet disconnected only when the browser posted so or a disconnect drained
   the id.
   */
  lemma CallersGetTheirOwnAnswer(es: seq<Event>, kind: Kind, id: Id, outcome: Outcome)
    requires IsRun(InitialSystem, es)
    requires kind in Run(InitialSystem, es).channels
    requires IsAt(Run(InitialSystem, es).channels[kind], id, Finished(outcome))
    ensures !outcome.ServerError?
    ensures outcome.Accepted? ==>
              && Post(kind, Response(id, Some(outcome.payload), None)) in es
              && (kind.Transactions? ==> outcome.payload != ZERO_HASH)
    ensures outcome.Rejected? ==>
              || Post(kind, Response(id, None, Some(outcome.reason))) in es
              || (&& outcome.reason == "Wallet disconnected"
                  && id in Run(InitialSystem, es).channels[kind].drained && Drain(kind) in es && Disconnect in es)
  {
    InitiallyHolds();
    RunKeeps(InitialSystem, es);
    HistoryIsOfTheRun(es, kind);
    var c := Run(InitialSystem, es).channels[kind];
    hide Run, IsRun, HistoriesAgree;
    assert CallerHolds(kind, c, id, c.callers[id]);
  }

  /** What a caller that finds a response is told: its payload, or else its error. */
  lemma TakenIsTold(s: System, kind: Kind, id: Id)
    requires Enabled(s, Take(kind, id)) && id in s.channels[kind].responses
    ensures var r, d := s.channels[kind].responses[id], Next(s, Take(kind, id)).channels[kind];
            && id !in d.responses && id in d.callers
            && (r.payload.Some? ==> d.callers[id] == Finished(Accepted(r.payload.value)))
            && (r.payload.None? && r.error.Some? ==> d.callers[id] == Finished(Rejected(r.error.value)))
            && (r.payload.None? && r.error.None? ==> d.callers[id] == Finished(ServerError))
  {
  }

  // ---------- The histories and the run ----------

  lemma StepOnHistory(s: System, e: Event, kind: Kind)
    requires Enabled(s, e) && kind in s.channels
    ensures var c := s.channels[kind];
            && kind in Next(s, e).channels
            && var d := Next(s, e).channels[kind];
            && (forall r :: r in d.passed ==> r in c.passed || e == Post(kind, r))
            && (forall id :: id in d.drained ==> id in c.drained || e == Drain(kind))
  {
    hide Remove, DisconnectAll, OutcomeOf, NextDrain;
  }

  lemma {:induction false} RunOnHistory(s: System, es: seq<Event>, kind: Kind)
    requires IsRun(s, es) && kind in s.channels
    ensures kind in Run(s, es).channels
    ensures forall r :: r in Run(s, es).channels[kind].passed ==> r in s.channels[kind].passed || Post(kind, r) in es
    ensures forall id :: id in Run(s, es).channels[kind].drained ==> id in s.channels[kind].drained || Drain(kind) in es
    decreases |es|
  {
    hide Next, Enabled;
    if es != [] {
      StepOnHistory(s, es[0], kind);
      RunOnHistory(Next(s, es[0]), es[1..], kind);
    }
  }

  /** The histories of a channel say nothing that is not in the run. */
  lemma HistoryIsOfTheRun(es: seq<Event>, kind: Kind)
    requires IsRun(InitialSystem, es) && kind in Run(InitialSystem, es).channels
    ensures var c := Run(InitialSystem, es).channels[kind];
            && (forall r :: r in c.passed ==> Post(kind, r) in es)
            && (forall id :: id in c.drained ==> Drain(kind) in es && Disconnect in es)
  {
    assert kind in InitialSystem.channels && InitialSystem.channels[kind] == EmptyChannel by {
      match kind case Transactions => case Signings => case KeyAuthorizations =>
    }
    RunOnHistory(InitialSystem, es, kind);
    DrainsFollowDisconnects(InitialSystem, es);
    hide Run, IsRun;
    if Drain(kind) in es { assert Disconnect in es by { OneOfMany(es, Drain(kind)); } }
  }

  lemma OneOfMany(es: seq<Event>, e: Event)
    ensures multiset(es)[e] > 0 <==> e in es
  {
  }

  function Drainers(before: multiset<Kind>, e: Event): multiset<Kind> {
    match e
    case Disconnect => before + multiset{Transactions}
    case Drain(k) => before - multiset{k} + NextDrain(k)
    case _ => before
  }

  lemma StepOnDrainers(s: System, e: Event)
    requires Enabled(s, e)
    ensures e.Drain? ==> e.kind in s.drainers
    ensures Next(s, e).drainers == Drainers(s.drainers, e)
  {
    hide ChannelNext, ChannelEnabled, NextDrain;
  }

  function One(e: Event, x: Event): nat {
    if e == x then 1 else 0
  }

  lemma DrainersMove(before: multiset<Kind>, e: Event)
    requires e.Drain? ==> e.kind in before
    ensures var d := Drainers(before, e);
            && d[Transactions] + One(e, Drain(Transactions)) == before[Transactions] + One(e, Disconnect)
            && d[Signings] + One(e, Drain(Signings)) == before[Signings] + One(e, Drain(Transactions))
            && d[KeyAuthorizations] + One(e, Drain(KeyAuthorizations)) ==
               before[KeyAuthorizations] + One(e, Drain(Signings))
  {
    if e.Drain? {
      match e.kind case Transactions => case Signings => case KeyAuthorizations =>
    }
  }

  lemma CountOne(es: seq<Event>, x: Event)
    requires es != []
    ensures multiset(es)[x] == One(es[0], x) + multiset(es[1..])[x]
  {
    assert es == [es[0]] + es[1..];
  }

  /** Each disconnect drains the three queues one after the other. */
  lemma {:induction false} DrainsFollowDisconnects(s: System, es: seq<Event>)
    requires IsRun(s, es)
    ensures var d, before, n := Run(s, es).drainers, s.drainers, multiset(es);
            && d[Transactions] + n[Drain(Transactions)] == before[Transactions] + n[Disconnect]
            && d[Signings] + n[Drain(Signings)] == before[Signings] + n[Drain(Transactions)]
            && d[KeyAuthorizations] + n[Drain(KeyAuthorizations)] == before[KeyAuthorizations] + n[Drain(Signings)]
    decreases |es|
  {
    hide Next, Enabled, Drainers, One;
    if es != [] {
      StepOnDrainers(s, es[0]);
      DrainersMove(s.drainers, es[0]);
      DrainsFollowDisconnects(Next(s, es[0]), es[1..]);
      forall x ensures multiset(es)[x] == One(es[0], x) + multiset(es[1..])[x] { CountOne(es, x); }
    }
  }

  /** A run that leaves no disconnect half done has drained each queue once for every disconnect. */
  lemma EveryQueueIsDrained(es: seq<Event>, kind: Kind)
    requires IsRun(InitialSystem, es) && Run(InitialSystem, es).drainers == multiset{}
    ensures multiset(es)[Drain(kind)] == multiset(es)[Disconnect]
  {
    DrainsFollowDisconnects(InitialSystem, es);
    hide Run, IsRun;
    match kind case Transactions => case Signings => case KeyAuthorizations =>
  }

  /** A disconnect in progress can go on at once, and leaves the queue it is at empty. */
  lemma DrainsGoOn(s: System, kind: Kind)
    requires kind in s.drainers && kind in s.channels
    ensures Enabled(s, Drain(kind))
    ensures kind in Next(s, Drain(kind)).channels && Next(s, Drain(kind)).channels[kind].requests == []
  {
    hide DisconnectAll, NextDrain;
  }

  /** The posted bodies that the handlers take: exactly one of payload and error, and no zero hash. */
  lemma ProperIsAccepted(kind: Kind, r: Response)
    ensures Validate(kind, r).None? <==>
            (r.payload.Some? <==> r.error.None?) && !(kind == Transactions && r.payload == Some(ZERO_HASH))
    ensures Validate(kind, r) == Some(MissingBoth) <==> r.payload.None? && r.error.None?
    ensures Validate(kind, r) == Some(GivenBoth) <==> r.payload.Some? && r.error.Some?
  {
  }

  /** The queue is the order of addition, restricted to the ids still open. */
  lemma QueueIsOpenAdditions(es: seq<Event>, kind: Kind)
    requires IsRun(InitialSystem, es)
    ensures kind in Run(InitialSystem, es).channels
    ensures var c := Run(InitialSystem, es).channels[kind];
            c.requests == Open(c.added, c.closed) && Distinct(c.requests)
  {
    InitiallyHolds();
    RunKeeps(InitialSystem, es);
    var c := Run(InitialSystem, es).channels[kind];
    hide Run, IsRun;
    OpenDistinct(c.added, c.closed);
  }

  lemma {:induction false} OpenDistinct(added: seq<Id>, closed: set<Id>)
    requires Distinct(added)
    ensures Distinct(Open(added, closed))
  {
    if added != [] {
      OpenDistinct(added[..|added| - 1], closed);
      OpenContents(added[..|added| - 1], closed);
    }
  }

  /** What the browser is served belongs to a caller who has not been answered. */
  lemma ServedIdIsAwaited(es: seq<Event>, kind: Kind, id: Id)
    requires IsRun(InitialSystem, es) && kind in Run(InitialSystem, es).channels
    requires id in Run(InitialSystem, es).channels[kind].requests
    ensures IsAt(Run(InitialSystem, es).channels[kind], id, Waiting) ||
            IsAt(Run(InitialSystem, es).channels[kind], id, TimingOut)
  {
    InitiallyHolds();
    RunKeeps(InitialSystem, es);
    var c := Run(InitialSystem, es).channels[kind];
    hide Run, IsRun, Open, Distinct;
    OpenContents(c.added, c.closed);
    assert CallerHolds(kind, c, id, c.callers[id]);
  }

  lemma FinishedOneStep(s: System, e: Event, kind: Kind, id: Id, outcome: Outcome)
    requires Enabled(s, e) && kind in s.channels && IsAt(s.channels[kind], id, Finished(outcome))
    ensures kind in Next(s, e).channels && IsAt(Next(s, e).channels[kind], id, Finished(outcome))
  {
    hide Remove, OutcomeOf, DisconnectAll, NextDrain;
  }

  lemma {:induction false} FinishedStays(s: System, es: seq<Event>, kind: Kind, id: Id, outcome: Outcome)
    requires IsRun(s, es) && kind in s.channels && IsAt(s.channels[kind], id, Finished(outcome))
    ensures kind in Run(s, es).channels && IsAt(Run(s, es).channels[kind], id, Finished(outcome))
    decreases |es|
  {
    hide Next, Enabled, IsAt;
    if es != [] {
      FinishedOneStep(s, es[0], kind, id, outcome);
      FinishedStays(Next(s, es[0]), es[1..], kind, id, outcome);
    }
  }

  lemma {:induction false} RunConcat(s: System, es: seq<Event>, more: seq<Event>)
    requires IsRun(s, es) && IsRun(Run(s, es), more)
    ensures IsRun(s, es + more) && Run(s, es + more) == Run(Run(s, es), more)
    decreases |es|
  {
    hide Enabled, Next;
    if es == [] {
      assert es + more == more;
    } else {
      assert (es + more)[1..] == es[1..] + more;
      RunConcat(Next(s, es[0]), es[1..], more);
    }
  }

  /** A caller that got any outcome is never served to the browser again. */
  lemma FinishedIsNeverServedAgain(es: seq<Event>, more: seq<Event>, kind: Kind, id: Id, outcome: Outcome)
    requires IsRun(InitialSystem, es) && kind in Run(InitialSystem, es).channels
    requires IsAt(Run(InitialSystem, es).channels[kind], id, Finished(outcome))
    requires IsRun(Run(InitialSystem, es), more)
    ensures IsRun(InitialSystem, es + more) && kind in Run(InitialSystem, es + more).channels
    ensures IsAt(Run(InitialSystem, es + more).channels[kind], id, Finished(outcome))
    ensures id !in Run(InitialSystem, es + more).channels[kind].requests
  {
    FinishedStays(Run(InitialSystem, es), more, kind, id, outcome);
    RunConcat(InitialSystem, es, more);
    if id in Run(InitialSystem, es + more).channels[kind].requests { ServedIdIsAwaited(es + more, kind, id); }
  }

  lemma {:induction false} ClosedStays(s: System, es: seq<Event>, kind: Kind, id: Id)
    requires IsRun(s, es) && kind in s.channels && id in s.channels[kind].closed
    ensures kind in Run(s, es).channels && id in Run(s, es).channels[kind].closed
    decreases |es|
  {
    if es != [] {
      assert kind in Next(s, es[0]).channels && id in Next(s, es[0]).channels[kind].closed by {
        hide Remove, Run, IsRun, OutcomeOf, DisconnectAll;
      }
      ClosedStays(Next(s, es[0]), es[1..], kind, id);
    }
  }

  /**
   An id drained by a disconnect keeps some response, whatever happens next, until its
   caller takes it or gives up: whenever that caller polls, it returns.
   */
  lemma DrainedIdIsAnswered(es: seq<Event>, more: seq<Event>, kind: Kind, id: Id)
    requires IsRun(InitialSystem, es) && Enabled(Run(InitialSystem, es), Drain(kind))
    requires id in Run(InitialSystem, es).channels[kind].requests
    requires IsRun(Next(Run(InitialSystem, es), Drain(kind)), more)
    ensures IsRun(InitialSystem, es + [Drain(kind)] + more)
    ensures kind in Run(InitialSystem, es + [Drain(kind)] + more).channels
    ensures var c := Run(InitialSystem, es + [Drain(kind)] + more).channels[kind];
            && id in c.callers
            && (id in c.responses || c.callers[id].Finished?)
  {
    hide *;
    var s := Run(InitialSystem, es);
    OneEventRun(s, Drain(kind));
    DrainCloses(s, kind, id);
    RunConcat(InitialSystem, es, [Drain(kind)]);
    RunConcat(InitialSystem, es + [Drain(kind)], more);
    ClosedStays(Next(s, Drain(kind)), more, kind, id);
    InitiallyHolds();
    RunKeeps(InitialSystem, es + [Drain(kind)] + more);
    ClosedIsAnswered(Run(InitialSystem, es + [Drain(kind)] + more), kind, id);
  }

  lemma DrainCloses(s: System, kind: Kind, id: Id)
    requires Enabled(s, Drain(kind)) && id in s.channels[kind].requests
    ensures kind in Next(s, Drain(kind)).channels && id in Next(s, Drain(kind)).channels[kind].closed
  {
    hide DisconnectAll, NextDrain;
  }

  lemma ClosedIsAnswered(s: System, kind: Kind, id: Id)
    requires Holds(s) && kind in s.channels && id in s.channels[kind].closed
    ensures id in s.channels[kind].callers
    ensures id in s.channels[kind].responses || s.channels[kind].callers[id].Finished?
  {
    hide Open, Distinct, Proper, Deserved, ResponseHolds;
    var c := s.channels[kind];
    assert CallerHolds(kind, c, id, c.callers[id]);
  }

  lemma OneEventRun(s: System, e: Event)
    requires Enabled(s, e)
    ensures IsRun(s, [e]) && Run(s, [e]) == Next(s, e)
  {
    hide Enabled, Next;
    assert [e][1..] == [];
  }

  /**
   A disconnected wallet does not mean empty queues: a caller that checked the connection
   before the disconnect can add its request after the drain.
   */
  lemma RequestAfterDrain()
    ensures var es := [Connect, CheckConnection(Transactions, 7), Disconnect, Drain(Transactions),
                       Add(Transactions, 7)];
            && IsRun(InitialSystem, es)
            && !Run(InitialSystem, es).connected
            && Transactions in Run(InitialSystem, es).channels
            && Run(InitialSystem, es).channels[Transactions].requests == [7]
  {
    var s0 := InitialSystem;
    var e4: seq<Event> := [Add(Transactions, 7)];
    var e3 := [Drain(Transactions)] + e4;
    var e2 := [Disconnect] + e3;
    var e1 := [CheckConnection(Transactions, 7)] + e2;
    var s1 := Next(s0, Connect);
    var s2 := Next(s1, CheckConnection(Transactions, 7));
    var s3 := Next(s2, Disconnect);
    var s4 := Next(s3, Drain(Transactions));
    var s5 := Next(s4, Add(Transactions, 7));
    assert e4[1..] == [] && Run(s5, []) == s5;
    assert IsRun(s4, e4) && Run(s4, e4) == s5;
    assert e3[1..] == e4 && IsRun(s3, e3) && Run(s3, e3) == s5;
    assert e2[1..] == e3 && IsRun(s2, e2) && Run(s2, e2) == s5;
    assert e1[1..] == e2 && IsRun(s1, e1) && Run(s1, e1) == s5;
    var es := [Connect] + e1;
    assert es[1..] == e1 && IsRun(s0, es) && Run(s0, es) == s5;
    assert es == [Connect, CheckConnection(Transactions, 7), Disconnect, Drain(Transactions), Add(Transactions, 7)];
  }

  // ---------- When an empty queue of a disconnected wallet stays empty ----------

  /** No caller has passed its connection check without adding its request yet. */
  ghost predicate NobodyChecked(c: Channel) {
    forall id :: id in c.callers ==> c.callers[id] != Checked
  }

  ghost predicate Quiet(s: System, kind: Kind) {
    !s.connected && kind in s.channels && s.channels[kind].requests == [] && NobodyChecked(s.channels[kind])
  }

  lemma ChannelStaysQuiet(kind: Kind, c: Channel, e: Event)
    requires ChannelEnabled(kind, c, e) && c.requests == [] && NobodyChecked(c)
    ensures ChannelNext(kind, c, e, false).requests == [] && NobodyChecked(ChannelNext(kind, c, e, false))
  {
    hide DisconnectAll, OutcomeOf, Validate;
  }

  lemma StaysQuiet(s: System, e: Event, kind: Kind)
    requires Enabled(s, e) && !e.Connect? && Quiet(s, kind)
    ensures Quiet(Next(s, e), kind)
  {
    hide ChannelEnabled, ChannelNext, NobodyChecked, NextDrain;
    if KindOf(e) == Some(kind) { ChannelStaysQuiet(kind, s.channels[kind], e); }
  }

  lemma {:induction false} RunStaysQuiet(s: System, es: seq<Event>, kind: Kind)
    requires IsRun(s, es) && Connect !in es && Quiet(s, kind)
    ensures Quiet(Run(s, es), kind)
    decreases |es|
  {
    hide Quiet, Enabled, Next;
    if es != [] {
      StaysQuiet(s, es[0], kind);
      RunStaysQuiet(Next(s, es[0]), es[1..], kind);
    }
  }

  /** However things go on without the wallet connecting again, nothing is queued. */
  ghost predicate NeverQueues(s: System, kind: Kind) {
    forall es :: IsRun(s, es) && Connect !in es ==>
      kind in Run(s, es).channels && Run(s, es).channels[kind].requests == []
  }

  /**
   The empty queue of a disconnected wallet stays empty until the next connection if and
   only if no caller is between its connection check and its request.
   */
  lemma EmptyQueueStaysEmptyIff(s: System, kind: Kind)
    requires !s.connected && kind in s.channels && s.channels[kind].requests == []
    ensures NeverQueues(s, kind) <==> NobodyChecked(s.channels[kind])
  {
    if NobodyChecked(s.channels[kind]) {
      forall es | IsRun(s, es) && Connect !in es ensures Quiet(Run(s, es), kind) { RunStaysQuiet(s, es, kind); }
    } else {
      var id :| id in s.channels[kind].callers && s.channels[kind].callers[id] == Checked;
      AddQueues(s, kind, id);
    }
  }

  lemma AddQueues(s: System, kind: Kind, id: Id)
    requires kind in s.channels && IsAt(s.channels[kind], id, Checked)
    ensures !NeverQueues(s, kind)
  {
    var es := [Add(kind, id)];
    var t := Next(s, Add(kind, id));
    assert es[1..] == [] && IsRun(t, []) && Run(t, []) == t;
    assert IsRun(s, es);
    assert Run(s, es) == Run(t, es[1..]);
    assert Run(s, es).channels[kind].requests == s.channels[kind].requests + [id];
    assert Connect !in es;
  }
}
