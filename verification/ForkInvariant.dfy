/**
 What every run of the fork backend's request handler keeps: each reply channel is in
 exactly one place, and a key has waiting listeners exactly while one fetch for it is in
 progress.
 */
module ForkInvariant {
  import opened Chain
  import opened Common
  import opened ForkProtocol

  /** Where the handler or its environment can hold a sender. */
  datatype Place =
    | InChannel(i: nat)
    | InQueue(i: nat)
    | Listening(key: Key, i: nat)
    | Fetching(i: nat)
    | Answered(i: nat)

  predicate Holds(s: State, p: Place, x: Sender) {
    match p
    case InChannel(i) => i < |s.incoming| && SenderOf(s.incoming[i]) == Some(x)
    case InQueue(i) => i < |s.queued| && SenderOf(s.queued[i]) == Some(x)
    case Listening(k, i) =>
      k in s.listeners && i < |s.listeners[k]| && s.listeners[k][i] == x
    case Fetching(i) => i < |s.pending| && FetchSender(s.pending[i]) == Some(x)
    case Answered(i) => i < |s.delivered| && s.delivered[i].sender == x
  }

  /** Conservation: every sender ever submitted is in exactly one place. */
  ghost predicate OnePlaceEach(s: State) {
    && (forall x :: x in s.asked ==> exists p :: Holds(s, p, x))
    && (forall p, x :: Holds(s, p, x) ==> x in s.asked)
    && (forall p, q, x :: Holds(s, p, x) && Holds(s, q, x) ==> p == q)
  }

  /** A key has a (non-empty) listener list if and only if exactly one fetch for it is pending. */
  ghost predicate Coalesced(s: State) {
    && (forall k :: InFlight(s, k) <==> k in s.listeners)
    && (forall k :: k in s.listeners ==> s.listeners[k] != [])
    && (forall i, j :: 0 <= i < j < |s.pending| && FetchKey(s.pending[i]).Some? ==>
          FetchKey(s.pending[i]) != FetchKey(s.pending[j]))
  }

  ghost predicate Invariant(s: State) {
    OnePlaceEach(s) && Coalesced(s)
  }

  // ---------- Effects ----------

  /** What completing the fetch of `k` changes, besides the cache. */
  lemma CompleteKeyEffect(s: State, k: Key, r: Reply)
    ensures var t := CompleteKey(s, k, r);
            && t.asked == s.asked && t.incoming == s.incoming && t.queued == s.queued && t.blockId == s.blockId
            && t.pending == s.pending && t.listeners == s.listeners - {k}
            && t.delivered == s.delivered + Deliveries(if k in s.listeners then s.listeners[k] else [], KeyAnswer(k, r))
            && t.completed == s.completed + [Completion(k, Outcome(k, r).Ok?)]
  {
    if k !in s.listeners {
      assert s.listeners - {k} == s.listeners;
      assert s.delivered + Deliveries([], KeyAnswer(k, r)) == s.delivered;
    }
  }

  /** A lookup answers from the cache or joins the fetch. */
  lemma LookupIs(s: State, k: Key, x: Sender)
    ensures Lookup(s, k, x) == if Cached(s, k).Some? then Deliver(s, [x], Found(Cached(s, k).value)) else Join(s, k, x)
  {
    hide Cached, Deliver, Join;
  }

  lemma JoinEffect(s: State, k: Key, x: Sender)
    ensures var t := Join(s, k, x);
            && t.asked == s.asked && t.incoming == s.incoming && t.queued == s.queued && t.completed == s.completed
            && t.blockId == s.blockId && t.delivered == s.delivered && t.listeners.Keys == s.listeners.Keys + {k}
            && t.accounts == s.accounts && t.storage == s.storage && t.blockHashes == s.blockHashes
            && t.pending == (if k in s.listeners then s.pending else s.pending + [FetchFor(k, s.blockId)])
            && t.listeners == s.listeners[k := (if k in s.listeners then s.listeners[k] else []) + [x]]
  {
    hide FetchFor;
    if k !in s.listeners { assert [] + [x] == [x]; }
  }

  lemma LookupEffect(s: State, k: Key, x: Sender)
    ensures var t := Lookup(s, k, x);
            && t.asked == s.asked && t.incoming == s.incoming && t.queued == s.queued && t.completed == s.completed
            && t.blockId == s.blockId
            && (if Cached(s, k).Some? then
                  t.delivered == s.delivered + [Delivery(x, Found(Cached(s, k).value))] && t.listeners == s.listeners
                else
                  t.delivered == s.delivered && t.listeners.Keys == s.listeners.Keys + {k})
  {
    LookupIs(s, k, x);
    JoinEffect(s, k, x);
    hide Lookup, Cached, Join;
  }

  /** What handling a request changes, besides the cache and the fetches. */
  lemma OnRequestEffect(s: State, r: Request)
    ensures var t := OnRequest(s, r);
            && t.asked == s.asked && t.incoming == s.incoming && t.queued == s.queued && t.completed == s.completed
            && (!r.SetPinnedBlock? ==> t.blockId == s.blockId)
            && (if KeyOf(r).None? then t.delivered == s.delivered && t.listeners == s.listeners
                else if Cached(s, KeyOf(r).value).Some? then
                  && t.delivered == s.delivered + [Delivery(SenderOf(r).value, Found(Cached(s, KeyOf(r).value).value))]
                  && t.listeners == s.listeners
                else t.delivered == s.delivered && t.listeners.Keys == s.listeners.Keys + {KeyOf(r).value})
  {
    match r
    case Basic(a, x) => LookupEffect(s, AccountKey(a), x);
    case Storage(a, i, x) => LookupEffect(s, StorageKey(a, i), x);
    case BlockHash(n, x) => LookupEffect(s, BlockHashKey(n), x);
    case _ =>
  }

  // ---------- Conservation ----------

  /** If `back` traces every held place of `t` to a place of `s`, and `fwd` undoes it, nothing is lost or doubled. */
  lemma MovePlaces(s: State, t: State, back: Place -> Place, fwd: Place -> Place)
    requires OnePlaceEach(s) && t.asked == s.asked
    requires forall p, x :: Holds(t, p, x) ==> Holds(s, back(p), x) && fwd(back(p)) == p
    requires forall p, x :: Holds(s, p, x) ==> Holds(t, fwd(p), x)
    ensures OnePlaceEach(t)
  {
    forall x | x in t.asked ensures exists p :: Holds(t, p, x) {
      var p :| Holds(s, p, x);
      assert Holds(t, fwd(p), x);
    }
    forall p, q, x | Holds(t, p, x) && Holds(t, q, x) ensures p == q {
      assert Holds(s, back(p), x) && Holds(s, back(q), x);
    }
  }

  /** A submitted request puts its sender at the end of the channel and moves nobody. */
  lemma SubmitHolds(s: State, r: Request, p: Place, x: Sender)
    ensures Holds(Ask(s, r), p, x) <==> Holds(s, p, x) || (p == InChannel(|s.incoming|) && SenderOf(r) == Some(x))
    ensures !Holds(s, InChannel(|s.incoming|), x)
    ensures x in Ask(s, r).asked <==> x in s.asked || SenderOf(r) == Some(x)
  {
    hide SenderOf, FetchSender;
  }

  lemma SubmitKeepsPlaces(s: State, r: Request)
    requires OnePlaceEach(s) && Enabled(s, Submit(r))
    ensures OnePlaceEach(Ask(s, r))
  {
    var t, last := Ask(s, r), InChannel(|s.incoming|);
    forall p, x: Sender ensures Holds(t, p, x) <==> Holds(s, p, x) || (p == last && SenderOf(r) == Some(x)) {
      SubmitHolds(s, r, p, x);
    }
    forall x: Sender ensures !Holds(s, last, x) && (x in t.asked <==> x in s.asked || SenderOf(r) == Some(x)) {
      SubmitHolds(s, r, last, x);
    }
    hide Holds, Ask, SenderOf;
    forall x | x in t.asked ensures exists p :: Holds(t, p, x) {
      if x in s.asked {
        var p :| Holds(s, p, x);
        assert Holds(t, p, x);
      } else {
        assert Holds(t, last, x);
      }
    }
  }

  lemma ReceiveKeepsPlaces(s: State)
    requires OnePlaceEach(s) && Enabled(s, Receive)
    ensures OnePlaceEach(Next(s, Receive))
  {
    var n := |s.queued|;
    MovePlaces(s, Next(s, Receive),
      (p: Place) =>
        match p
        case InChannel(i) => InChannel(i + 1)
        case InQueue(i) => (if i == n then InChannel(0) else p)
        case _ => p,
      (p: Place) => match p case InChannel(i) => (if i == 0 then InQueue(n) else InChannel(i - 1)) case _ => p);
  }

  /** Taking a request from the queue, when its sender ends up at `home`. */
  lemma HandleKeepsPlaces(s: State, t: State, home: Place)
    requires OnePlaceEach(s) && s.queued != [] && t.asked == s.asked
    requires forall p, x :: p != home && !p.InQueue? ==> (Holds(t, p, x) <==> Holds(s, p, x))
    requires forall x: Sender :: Holds(t, home, x) <==> SenderOf(s.queued[0]) == Some(x)
    requires forall x: Sender :: !Holds(s, home, x)
    requires !home.InQueue? && t.queued == s.queued[1..]
    ensures OnePlaceEach(t)
  {
    var back := (p: Place) => if p == home then InQueue(0) else match p case InQueue(i) => InQueue(i + 1) case _ => p;
    var fwd := (p: Place) => match p case InQueue(i) => (if i == 0 then home else InQueue(i - 1)) case _ => p;
    forall p, x | Holds(t, p, x) ensures Holds(s, back(p), x) && fwd(back(p)) == p { hide SenderOf; }
    forall p, x | Holds(s, p, x) ensures Holds(t, fwd(p), x) { hide SenderOf; }
    hide Holds;
    MovePlaces(s, t, back, fwd);
  }

  lemma AnswerKeepsPlaces(s: State, t: State, x: Sender, a: Answer)
    requires OnePlaceEach(s) && s.queued != [] && SenderOf(s.queued[0]) == Some(x)
    requires t.asked == s.asked && t.incoming == s.incoming && t.queued == s.queued[1..]
    requires t.pending == s.pending && t.listeners == s.listeners && t.delivered == s.delivered + [Delivery(x, a)]
    ensures OnePlaceEach(t)
  {
    HandleKeepsPlaces(s, t, Answered(|s.delivered|));
  }

  lemma JoinKeepsPlaces(s: State, t: State, x: Sender, k: Key)
    requires OnePlaceEach(s) && s.queued != [] && SenderOf(s.queued[0]) == Some(x)
    requires t.asked == s.asked && t.incoming == s.incoming && t.queued == s.queued[1..] && t.delivered == s.delivered
    requires t.pending == s.pending || (exists f :: FetchSender(f).None? && t.pending == s.pending + [f])
    requires t.listeners == s.listeners[k := (if k in s.listeners then s.listeners[k] else []) + [x]]
    ensures OnePlaceEach(t)
  {
    HandleKeepsPlaces(s, t, Listening(k, if k in s.listeners then |s.listeners[k]| else 0));
  }

  lemma FetchKeepsPlaces(s: State, t: State, f: Fetch)
    requires OnePlaceEach(s) && s.queued != [] && SenderOf(s.queued[0]) == FetchSender(f)
    requires t.asked == s.asked && t.incoming == s.incoming && t.queued == s.queued[1..] && t.delivered == s.delivered
    requires t.listeners == s.listeners && t.pending == s.pending + [f]
    ensures OnePlaceEach(t)
  {
    HandleKeepsPlaces(s, t, Fetching(|s.pending|));
  }

  lemma UpdateKeepsPlaces(s: State, t: State)
    requires OnePlaceEach(s) && s.queued != [] && SenderOf(s.queued[0]).None?
    requires t.asked == s.asked && t.incoming == s.incoming && t.queued == s.queued[1..] && t.delivered == s.delivered
    requires t.listeners == s.listeners && t.pending == s.pending
    ensures OnePlaceEach(t)
  {
    HandleKeepsPlaces(s, t, Fetching(|s.pending|));
  }

  lemma LookupKeepsPlaces(s: State, k: Key, x: Sender)
    requires OnePlaceEach(s) && s.queued != [] && SenderOf(s.queued[0]) == Some(x)
    ensures OnePlaceEach(Lookup(s.(queued := s.queued[1..]), k, x))
  {
    var t := Lookup(s.(queued := s.queued[1..]), k, x);
    match Cached(s, k)
    case Some(v) => AnswerKeepsPlaces(s, t, x, Found(v));
    case None =>
      var f := FetchFor(k, s.blockId);
      assert FetchSender(f).None?;
      assert [] + [x] == [x];
      JoinKeepsPlaces(s, t, x, k);
  }

  lemma OnRequestKeepsPlaces(s: State)
    requires OnePlaceEach(s) && Enabled(s, Handle)
    ensures OnePlaceEach(Next(s, Handle))
  {
    var t := Next(s, Handle);
    hide Lookup, Holds, OnePlaceEach, FetchSender;
    match s.queued[0]
    case Basic(a, x) => LookupKeepsPlaces(s, AccountKey(a), x);
    case Storage(a, i, x) => LookupKeepsPlaces(s, StorageKey(a, i), x);
    case BlockHash(n, x) => LookupKeepsPlaces(s, BlockHashKey(n), x);
    case FullBlock(id, x) => FetchKeepsPlaces(s, t, FullBlockFetch(id, x));
    case Transaction(h, x) => FetchKeepsPlaces(s, t, TransactionFetch(h, x));
    case AnyRequest(x) => FetchKeepsPlaces(s, t, AnyFetch(x));
    case _ => UpdateKeepsPlaces(s, t);
  }

  /** The polled fetch goes to the end of the vector and the last one takes its place. */
  lemma NotReadyKeepsPlaces(s: State, n: nat, t: State)
    requires OnePlaceEach(s) && n < |s.pending|
    requires t == s.(pending := SwapRemove(s.pending, n) + [s.pending[n]])
    ensures OnePlaceEach(t)
  {
    var last := |s.pending| - 1;
    var swap := (p: Place) =>
      match p case Fetching(i) => (if i == n then Fetching(last) else if i == last then Fetching(n) else p) case _ => p;
    MovePlaces(s, t, swap, swap);
  }

  /** Completing fetch `n` answers everybody who waited for its key, in order. */
  ghost predicate Notified(s: State, t: State, n: nat, k: Key, a: Answer) {
    && n < |s.pending| && FetchSender(s.pending[n]).None?
    && t.asked == s.asked && t.incoming == s.incoming && t.queued == s.queued
    && t.pending == SwapRemove(s.pending, n) && t.listeners == s.listeners - {k}
    && t.delivered == s.delivered + Deliveries(if k in s.listeners then s.listeners[k] else [], a)
  }

  function BeforeNotify(s: State, n: nat, k: Key, p: Place): Place {
    match p
    case Fetching(i) => if i == n && |s.pending| > 0 then Fetching(|s.pending| - 1) else p
    case Answered(i) => if i < |s.delivered| then p else Listening(k, i - |s.delivered|)
    case _ => p
  }

  function AfterNotify(s: State, n: nat, k: Key, p: Place): Place {
    match p
    case Fetching(i) => if i == |s.pending| - 1 then Fetching(n) else p
    case Listening(j, i) => if j == k then Answered(|s.delivered| + i) else p
    case _ => p
  }

  lemma NotifyMovesBack(s: State, t: State, n: nat, k: Key, a: Answer, p: Place, x: Sender)
    requires Notified(s, t, n, k, a) && Holds(t, p, x)
    ensures Holds(s, BeforeNotify(s, n, k, p), x) && AfterNotify(s, n, k, BeforeNotify(s, n, k, p)) == p
  {
  }

  lemma NotifyMovesForward(s: State, t: State, n: nat, k: Key, a: Answer, p: Place, x: Sender)
    requires Notified(s, t, n, k, a) && Holds(s, p, x)
    ensures Holds(t, AfterNotify(s, n, k, p), x)
  {
  }

  lemma NotifyKeepsPlaces(s: State, t: State, n: nat, k: Key, a: Answer)
    requires OnePlaceEach(s) && Notified(s, t, n, k, a)
    ensures OnePlaceEach(t)
  {
    var back := p => BeforeNotify(s, n, k, p);
    var fwd := p => AfterNotify(s, n, k, p);
    forall p, x: Sender | Holds(t, p, x) ensures Holds(s, back(p), x) && fwd(back(p)) == p {
      NotifyMovesBack(s, t, n, k, a, p, x);
    }
    forall p, x: Sender | Holds(s, p, x) ensures Holds(t, fwd(p), x) {
      NotifyMovesForward(s, t, n, k, a, p, x);
    }
    MovePlaces(s, t, back, fwd);
  }

  lemma OwnAnswerKeepsPlaces(s: State, n: nat, t: State, x: Sender, a: Answer)
    requires OnePlaceEach(s) && n < |s.pending| && FetchSender(s.pending[n]) == Some(x)
    requires t == s.(pending := SwapRemove(s.pending, n), delivered := s.delivered + [Delivery(x, a)])
    ensures OnePlaceEach(t)
  {
    var last, d := |s.pending| - 1, |s.delivered|;
    var back := (p: Place) =>
      match p
      case Fetching(i) => (if i == n then Fetching(last) else p)
      case Answered(i) => (if i < d then p else Fetching(n))
      case _ => p;
    var fwd := (p: Place) =>
      match p
      case Fetching(i) => (if i == n then Answered(d) else if i == last then Fetching(n) else p)
      case _ => p;
    forall p, y: Sender | Holds(t, p, y) ensures Holds(s, back(p), y) && fwd(back(p)) == p {
      match p case Answered(i) => case _ =>
    }
    forall p, y: Sender | Holds(s, p, y) ensures Holds(t, fwd(p), y) {
      match p case Fetching(i) => case _ =>
    }
    MovePlaces(s, t, back, fwd);
  }

  lemma PollKeepsPlaces(s: State, n: nat, p: Poll)
    requires OnePlaceEach(s) && n < |s.pending|
    ensures OnePlaceEach(PollFetch(s, n, p))
  {
    var t := PollFetch(s, n, p);
    match p
    case NotReady => NotReadyKeepsPlaces(s, n, t);
    case Ready(r) =>
      match FetchKey(s.pending[n])
      case Some(k) =>
        CompleteKeyEffect(s.(pending := SwapRemove(s.pending, n)), k, r);
        NotifyKeepsPlaces(s, t, n, k, KeyAnswer(k, r));
      case None => OwnAnswerKeepsPlaces(s, n, t, FetchSender(s.pending[n]).value, OwnAnswer(s.pending[n], r));
  }

  // ---------- Coalescing ----------

  lemma StartKeepsCoalesced(s: State, k: Key, f: Fetch, t: State)
    requires Coalesced(s) && k !in s.listeners && FetchKey(f) == Some(k) && t.pending == s.pending + [f]
    requires t.listeners.Keys == s.listeners.Keys + {k} && forall j :: j in t.listeners ==> t.listeners[j] != []
    ensures Coalesced(t)
  {
    hide FetchKey;
    assert t.pending[|s.pending|] == f;
    assert !InFlight(s, k);
    forall j ensures InFlight(t, j) <==> (InFlight(s, j) || j == k) {
      if InFlight(s, j) {
        var i :| 0 <= i < |s.pending| && FetchKey(s.pending[i]) == Some(j);
        assert t.pending[i] == s.pending[i];
      }
    }
  }

  lemma AttachKeepsCoalesced(s: State, t: State)
    requires Coalesced(s) && t.pending == s.pending
    requires t.listeners.Keys == s.listeners.Keys && forall j :: j in t.listeners ==> t.listeners[j] != []
    ensures Coalesced(t)
  {
    hide FetchKey;
    assert forall j :: InFlight(t, j) == InFlight(s, j);
  }

  lemma JoinedListsNotEmpty(s: State, k: Key, x: Sender, t: State)
    requires Coalesced(s)
    requires t.listeners == s.listeners[k := (if k in s.listeners then s.listeners[k] else []) + [x]]
    ensures forall j :: j in t.listeners ==> t.listeners[j] != []
  {
    hide InFlight;
  }

  lemma JoinKeepsCoalesced(s: State, k: Key, x: Sender)
    requires Coalesced(s)
    ensures Coalesced(Join(s, k, x))
  {
    var t, f := Join(s, k, x), FetchFor(k, s.blockId);
    JoinEffect(s, k, x);
    assert FetchKey(f) == Some(k);
    hide Coalesced, FetchKey, FetchFor, Join;
    JoinedListsNotEmpty(s, k, x, t);
    if k in s.listeners {
      AttachKeepsCoalesced(s, t);
    } else {
      StartKeepsCoalesced(s, k, f, t);
    }
  }

  lemma OwnFetchKeepsCoalesced(s: State, f: Fetch)
    requires Coalesced(s) && FetchKey(f).None?
    ensures Coalesced(s.(pending := s.pending + [f]))
  {
    var t := s.(pending := s.pending + [f]);
    forall j ensures InFlight(t, j) <==> InFlight(s, j) {
      if InFlight(s, j) {
        var i :| 0 <= i < |s.pending| && FetchKey(s.pending[i]) == Some(j);
        assert t.pending[i] == s.pending[i];
      }
    }
  }

  /** Coalescing is about the fetches and listeners alone. */
  lemma SameFlightsSameCoalescing(s: State, t: State)
    requires Coalesced(s) && t.pending == s.pending && t.listeners == s.listeners
    ensures Coalesced(t)
  {
    assert forall k :: InFlight(t, k) == InFlight(s, k);
  }

  lemma LookupKeepsCoalesced(s: State, k: Key, x: Sender)
    requires Coalesced(s)
    ensures Coalesced(Lookup(s, k, x))
  {
    if Cached(s, k).Some? {
      SameFlightsSameCoalescing(s, Lookup(s, k, x));
    } else {
      JoinKeepsCoalesced(s, k, x);
    }
  }

  lemma OnRequestKeepsCoalesced(s: State, r: Request)
    requires Coalesced(s)
    ensures Coalesced(OnRequest(s, r))
  {
    match r
    case Basic(a, x) => LookupKeepsCoalesced(s, AccountKey(a), x);
    case Storage(a, i, x) => LookupKeepsCoalesced(s, StorageKey(a, i), x);
    case BlockHash(n, x) => LookupKeepsCoalesced(s, BlockHashKey(n), x);
    case FullBlock(id, x) => OwnFetchKeepsCoalesced(s, FullBlockFetch(id, x));
    case Transaction(h, x) => OwnFetchKeepsCoalesced(s, TransactionFetch(h, x));
    case AnyRequest(x) => OwnFetchKeepsCoalesced(s, AnyFetch(x));
    case _ => SameFlightsSameCoalescing(s, OnRequest(s, r));
  }

  /** Removing fetch `n` ends the flight of its own key and of no other. */
  lemma RemovalEndsOneFlight(s: State, n: nat, t: State)
    requires Coalesced(s) && n < |s.pending| && t.pending == SwapRemove(s.pending, n)
    ensures forall k :: InFlight(t, k) <==> InFlight(s, k) && FetchKey(s.pending[n]) != Some(k)
  {
    var last := |s.pending| - 1;
    forall k ensures InFlight(t, k) <==> InFlight(s, k) && FetchKey(s.pending[n]) != Some(k) {
      if InFlight(t, k) {
        var i :| 0 <= i < |t.pending| && FetchKey(t.pending[i]) == Some(k);
        var j := if i == n then last else i;
        assert FetchKey(s.pending[j]) == Some(k) && j != n;
      }
      if InFlight(s, k) && FetchKey(s.pending[n]) != Some(k) {
        var i :| 0 <= i < |s.pending| && FetchKey(s.pending[i]) == Some(k);
        var j := if i == last then n else i;
        assert FetchKey(t.pending[j]) == Some(k);
      }
    }
  }

  lemma NotReadyKeepsCoalesced(s: State, n: nat, t: State)
    requires Coalesced(s) && n < |s.pending|
    requires t.listeners == s.listeners && t.pending == SwapRemove(s.pending, n) + [s.pending[n]]
    ensures Coalesced(t)
  {
    var last := |s.pending| - 1;
    forall k ensures InFlight(t, k) == InFlight(s, k) {
      if InFlight(s, k) {
        var i :| 0 <= i < |s.pending| && FetchKey(s.pending[i]) == Some(k);
        assert t.pending[if i == n then last else if i == last then n else i] == s.pending[i];
      }
      if InFlight(t, k) {
        var i :| 0 <= i < |t.pending| && FetchKey(t.pending[i]) == Some(k);
        assert t.pending[i] == s.pending[if i == n then last else if i == last then n else i];
      }
    }
  }

  lemma CompletionKeepsCoalesced(s: State, n: nat, t: State)
    requires Coalesced(s) && n < |s.pending| && t.pending == SwapRemove(s.pending, n)
    requires match FetchKey(s.pending[n])
             case Some(k) => t.listeners == s.listeners - {k}
             case None => t.listeners == s.listeners
    ensures Coalesced(t)
  {
    RemovalEndsOneFlight(s, n, t);
  }

  lemma PollKeepsCoalesced(s: State, n: nat, p: Poll)
    requires Coalesced(s) && n < |s.pending|
    ensures Coalesced(PollFetch(s, n, p))
  {
    var t := PollFetch(s, n, p);
    match p
    case NotReady => NotReadyKeepsCoalesced(s, n, t);
    case Ready(r) =>
      if FetchKey(s.pending[n]).Some? {
        CompleteKeyEffect(s.(pending := SwapRemove(s.pending, n)), FetchKey(s.pending[n]).value, r);
      }
      CompletionKeepsCoalesced(s, n, t);
  }

  // ---------- Runs ----------

  lemma StepKeepsInvariant(s: State, e: Event)
    requires Invariant(s) && Enabled(s, e)
    ensures Invariant(Next(s, e))
  {
    match e
    case Submit(r) =>
      SubmitKeepsPlaces(s, r);
      SameFlightsSameCoalescing(s, Ask(s, r));
    case Receive =>
      ReceiveKeepsPlaces(s);
      SameFlightsSameCoalescing(s, Next(s, e));
    case Handle =>
      OnRequestKeepsPlaces(s);
      SameFlightsSameCoalescing(s, s.(queued := s.queued[1..]));
      OnRequestKeepsCoalesced(s.(queued := s.queued[1..]), s.queued[0]);
    case PollOne(n, p) =>
      PollKeepsPlaces(s, n, p);
      PollKeepsCoalesced(s, n, p);
  }

  lemma {:induction false} RunKeepsInvariant(s: State, es: seq<Event>)
    requires Invariant(s) && IsRun(s, es)
    ensures Invariant(Run(s, es))
    decreases |es|
  {
    if es != [] {
      StepKeepsInvariant(s, es[0]);
      RunKeepsInvariant(Next(s, es[0]), es[1..]);
    }
  }

  lemma {:induction false} RunConcat(s: State, a: seq<Event>, b: seq<Event>)
    requires IsRun(s, a) && IsRun(Run(s, a), b)
    ensures IsRun(s, a + b) && Run(s, a + b) == Run(Run(s, a), b)
    decreases |a|
  {
    hide Next, Enabled;
    if a == [] {
      assert a + b == b;
    } else {
      assert (a + b)[1..] == a[1..] + b;
      RunConcat(Next(s, a[0]), a[1..], b);
    }
  }

  /**
   Conservation and exactly-once reply. In every state a handler can reach, each sender
   ever submitted is in exactly one place, nothing else is held, a key has listeners if
   and only if exactly one fetch for it is pending, and no sender is answered twice.
   */
  lemma ReachableStates(s: State, es: seq<Event>)
    requires Initial(s) && IsRun(s, es)
    ensures Invariant(Run(s, es))
    ensures var t := Run(s, es);
            forall i, j :: 0 <= i < j < |t.delivered| ==> t.delivered[i].sender != t.delivered[j].sender
  {
    assert Invariant(s);
    RunKeepsInvariant(s, es);
    var t := Run(s, es);
    forall i, j | 0 <= i < j < |t.delivered| ensures t.delivered[i].sender != t.delivered[j].sender {
      if t.delivered[i].sender == t.delivered[j].sender {
        assert Holds(t, Answered(i), t.delivered[i].sender) && Holds(t, Answered(j), t.delivered[i].sender);
      }
    }
  }

  /** `x` was answered, or is attached to a fetch in progress. */
  ghost predicate AnsweredOrAttached(s: State, x: Sender) {
    || (exists i :: 0 <= i < |s.delivered| && s.delivered[i].sender == x)
    || (exists i :: 0 <= i < |s.pending| && FetchSender(s.pending[i]) == Some(x))
    || (exists k :: InFlight(s, k) && k in s.listeners && x in s.listeners[k])
  }

  /** `x` waits in the channel for the handler to take its request out. */
  ghost predicate InTheChannel(s: State, x: Sender) {
    exists i :: 0 <= i < |s.incoming| && SenderOf(s.incoming[i]) == Some(x)
  }

  /** With the queue empty, whoever is not still in the channel was answered or is attached to a fetch. */
  lemma NobodyForgotten(s: State, x: Sender)
    requires Invariant(s) && s.queued == [] && x in s.asked
    ensures AnsweredOrAttached(s, x) || InTheChannel(s, x)
  {
    var p :| Holds(s, p, x);
    match p
    case InChannel(i) => assert SenderOf(s.incoming[i]) == Some(x);
    case InQueue(i) =>
    case Answered(i) => assert s.delivered[i].sender == x;
    case Fetching(i) => assert FetchSender(s.pending[i]) == Some(x);
    case Listening(k, i) => assert InFlight(s, k);
  }
}
