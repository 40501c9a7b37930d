/**
 Answers and cache entries of the fork backend: what each step does to the cache, and the
 proof that every answer sent is of the kind its sender asked for.
 */
module ForkAnswers {
  import opened Chain
  import opened Common
  import opened ForkProtocol
  import opened ForkInvariant

  // ---------- Effects on the cache ----------

  /** Whether handling `r` rewrites the cache entry of `k`. */
  predicate Overwrites(r: Request, k: Key) {
    match (r, k)
    case (UpdateAddress(m), AccountKey(a)) => a in m
    case (UpdateStorage(m), StorageKey(a, _)) => a in m
    case (UpdateBlockHash(m), BlockHashKey(n)) => n in m
    case _ => false
  }

  /** The entry of `k` that update `r` installs; a storage update drops the slots it does not list. */
  function Installed(r: Request, k: Key): Option<Value>
    requires Overwrites(r, k)
  {
    match (r, k)
    case (UpdateAddress(m), AccountKey(a)) => Some(AccountValue(m[a]))
    case (UpdateStorage(m), StorageKey(a, i)) => if i in m[a] then Some(WordValue(m[a][i])) else None
    case (UpdateBlockHash(m), BlockHashKey(n)) => Some(HashValue(m[n]))
  }

  lemma RequestOnCache(s: State, r: Request, k: Key)
    ensures Cached(OnRequest(s, r), k) == if Overwrites(r, k) then Installed(r, k) else Cached(s, k)
  {
    if KeyOf(r).Some? {
      assert OnRequest(s, r) == Lookup(s, KeyOf(r).value, SenderOf(r).value) by { hide Lookup; }
      LookupOnCache(s, KeyOf(r).value, SenderOf(r).value, k);
      hide Lookup, OnRequest, Cached;
    } else {
      hide Lookup;
    }
  }

  /** Looking up changes no entry. */
  lemma LookupOnCache(s: State, k: Key, x: Sender, j: Key)
    ensures Cached(Lookup(s, k, x), j) == Cached(s, j)
  {
    LookupIs(s, k, x);
    JoinEffect(s, k, x);
    hide Lookup, Join;
  }

  predicate Fits(k: Key, v: Value) {
    match k
    case AccountKey(_) => v.AccountValue?
    case StorageKey(_, _) => v.WordValue?
    case BlockHashKey(_) => v.HashValue?
  }

  lemma StoreOnCache(s: State, k: Key, v: Value, j: Key)
    requires Fits(k, v)
    ensures Cached(Store(s, k, v), j) == if j == k then Some(v) else Cached(s, j)
    ensures Store(s, k, v).listeners == s.listeners
  {
  }

  /** Answering listeners leaves the cache alone. */
  lemma NotifyOnCache(s: State, k: Key, a: Answer, done: seq<Completion>, j: Key)
    ensures Cached(Notify(s, k, a).(completed := done), j) == Cached(s, j)
  {
  }

  lemma CompletionOnCache(s: State, k: Key, r: Reply, j: Key)
    ensures Cached(CompleteKey(s, k, r), j) ==
            if j == k && Outcome(k, r).Ok? then Some(Outcome(k, r).value) else Cached(s, j)
  {
    var o := Outcome(k, r);
    var done := s.completed + [Completion(k, o.Ok?)];
    if o.Ok? {
      assert Fits(k, o.value);
      StoreOnCache(s, k, o.value, j);
      NotifyOnCache(Store(s, k, o.value), k, KeyAnswer(k, r), done, j);
    } else {
      NotifyOnCache(s, k, KeyAnswer(k, r), done, j);
    }
  }

  // ---------- What was asked ----------

  /** The request a fetch with its own sender was started for. */
  function AskedBy(f: Fetch): Option<Request> {
    match f
    case FullBlockFetch(id, x) => Some(FullBlock(id, x))
    case TransactionFetch(h, x) => Some(Transaction(h, x))
    case AnyFetch(x) => Some(AnyRequest(x))
    case _ => None
  }

  predicate AnswerFits(r: Request, a: Answer) {
    match r
    case Basic(addr, _) =>
      (a.Found? && a.value.AccountValue?) || (a.Failed? && a.error.GetAccount? && a.error.address == addr)
    case Storage(addr, i, _) =>
      || (a.Found? && a.value.WordValue?)
      || (a.Failed? && a.error.GetStorage? && a.error.address == addr && a.error.slot == i)
    case BlockHash(n, _) =>
      (a.Found? && a.value.HashValue?) || (a.Failed? && a.error.GetBlockHash? && a.error.number == n)
    case FullBlock(id, _) =>
      || a.FoundBlock?
      || (a.Failed? && ((a.error.BlockNotFound? && a.error.id == id) || (a.error.GetFullBlock? && a.error.id == id)))
    case Transaction(h, _) => a.FoundTransaction? || (a.Failed? && a.error.GetTransaction? && a.error.hash == h)
    case _ => a.Other?
  }

  predicate IsAsked(s: State, r: Request) {
    SenderOf(r).Some? ==> SenderOf(r).value in s.asked && s.asked[SenderOf(r).value] == r
  }

  predicate WaitsFor(s: State, x: Sender, k: Key) {
    x in s.asked && KeyOf(s.asked[x]) == Some(k)
  }

  predicate DeliveryFits(s: State, d: Delivery) {
    d.sender in s.asked && AnswerFits(s.asked[d.sender], d.answer)
  }

  /** Every sender is held on account of the request it came with, and was answered in kind. */
  ghost predicate WellAsked(s: State) {
    && (forall i :: 0 <= i < |s.incoming| ==> IsAsked(s, s.incoming[i]))
    && (forall i :: 0 <= i < |s.queued| ==> IsAsked(s, s.queued[i]))
    && (forall k, i :: k in s.listeners && 0 <= i < |s.listeners[k]| ==> WaitsFor(s, s.listeners[k][i], k))
    && (forall i :: 0 <= i < |s.pending| ==> AskedBy(s.pending[i]).Some? ==> IsAsked(s, AskedBy(s.pending[i]).value))
    && (forall i :: 0 <= i < |s.delivered| ==> DeliveryFits(s, s.delivered[i]))
  }

  lemma SubmitKeepsWellAsked(s: State, r: Request)
    requires WellAsked(s) && Enabled(s, Submit(r))
    ensures WellAsked(Ask(s, r))
  {
    var t := Ask(s, r);
    hide AskedBy, AnswerFits;
    assert forall x :: x in s.asked ==> x in t.asked && t.asked[x] == s.asked[x];
    forall i | 0 <= i < |t.incoming| ensures IsAsked(t, t.incoming[i]) {
      if i < |s.incoming| { assert IsAsked(s, s.incoming[i]); }
    }
    forall i | 0 <= i < |t.queued| ensures IsAsked(t, t.queued[i]) { assert IsAsked(s, s.queued[i]); }
    forall k, i | k in t.listeners && 0 <= i < |t.listeners[k]| ensures WaitsFor(t, t.listeners[k][i], k) {
      assert WaitsFor(s, s.listeners[k][i], k);
    }
    forall i | 0 <= i < |t.delivered| ensures DeliveryFits(t, t.delivered[i]) {
      assert DeliveryFits(s, s.delivered[i]);
    }
  }

  lemma AnswerKeepsWellAsked(s: State, t: State, d: Delivery)
    requires WellAsked(s) && DeliveryFits(s, d)
    requires t == s.(delivered := s.delivered + [d])
    ensures WellAsked(t)
  {
    assert forall r :: IsAsked(t, r) == IsAsked(s, r);
    forall i | 0 <= i < |t.delivered| ensures DeliveryFits(t, t.delivered[i]) {
      if i < |s.delivered| { assert DeliveryFits(s, s.delivered[i]); }
    }
    forall k, i | k in t.listeners && 0 <= i < |t.listeners[k]| ensures WaitsFor(t, t.listeners[k][i], k) {
      assert WaitsFor(s, s.listeners[k][i], k);
    }
  }

  lemma JoinKeepsWellAsked(s: State, k: Key, x: Sender)
    requires WellAsked(s) && WaitsFor(s, x, k)
    ensures WellAsked(Join(s, k, x))
  {
    var t := Join(s, k, x);
    JoinEffect(s, k, x);
    assert forall r :: IsAsked(t, r) == IsAsked(s, r) by { hide Join, WellAsked; }
    forall j, i | j in t.listeners && 0 <= i < |t.listeners[j]| ensures WaitsFor(t, t.listeners[j][i], j) {
      if j in s.listeners && i < |s.listeners[j]| { assert WaitsFor(s, s.listeners[j][i], j); }
    }
    forall i | 0 <= i < |t.delivered| ensures DeliveryFits(t, t.delivered[i]) {
      assert DeliveryFits(s, s.delivered[i]);
    }
  }

  lemma LookupKeepsWellAsked(s: State, k: Key, x: Sender)
    requires WellAsked(s) && WaitsFor(s, x, k)
    ensures WellAsked(Lookup(s, k, x))
  {
    match Cached(s, k)
    case Some(v) => AnswerKeepsWellAsked(s, Lookup(s, k, x), Delivery(x, Found(v)));
    case None => JoinKeepsWellAsked(s, k, x);
  }

  lemma OwnFetchKeepsWellAsked(s: State, r: Request, f: Fetch)
    requires WellAsked(s) && IsAsked(s, r) && AskedBy(f) == Some(r)
    ensures WellAsked(s.(pending := s.pending + [f]))
  {
    var t := s.(pending := s.pending + [f]);
    assert forall q :: IsAsked(t, q) == IsAsked(s, q);
    forall i | 0 <= i < |t.delivered| ensures DeliveryFits(t, t.delivered[i]) {
      assert DeliveryFits(s, s.delivered[i]);
    }
    forall k, i | k in t.listeners && 0 <= i < |t.listeners[k]| ensures WaitsFor(t, t.listeners[k][i], k) {
      assert WaitsFor(s, s.listeners[k][i], k);
    }
  }

  /** Only the bookkeeping fields matter. */
  lemma SameBooksSameWellAsked(s: State, t: State)
    requires WellAsked(s) && t.asked == s.asked && t.listeners == s.listeners && t.delivered == s.delivered
    requires forall i :: 0 <= i < |t.incoming| ==> t.incoming[i] in s.incoming + s.queued
    requires forall i :: 0 <= i < |t.queued| ==> t.queued[i] in s.incoming + s.queued
    requires forall i :: 0 <= i < |t.pending| ==> t.pending[i] in s.pending
    ensures WellAsked(t)
  {
    assert forall r :: IsAsked(t, r) == IsAsked(s, r);
    assert forall r :: r in s.incoming + s.queued ==> IsAsked(s, r);
    forall i | 0 <= i < |t.delivered| ensures DeliveryFits(t, t.delivered[i]) {
      assert DeliveryFits(s, s.delivered[i]);
    }
    forall k, i | k in t.listeners && 0 <= i < |t.listeners[k]| ensures WaitsFor(t, t.listeners[k][i], k) {
      assert WaitsFor(s, s.listeners[k][i], k);
    }
  }

  lemma RequestKeepsWellAsked(s: State, r: Request)
    requires WellAsked(s) && IsAsked(s, r)
    ensures WellAsked(OnRequest(s, r))
  {
    match r
    case Basic(a, x) => LookupKeepsWellAsked(s, AccountKey(a), x);
    case Storage(a, i, x) => LookupKeepsWellAsked(s, StorageKey(a, i), x);
    case BlockHash(n, x) => LookupKeepsWellAsked(s, BlockHashKey(n), x);
    case FullBlock(id, x) => OwnFetchKeepsWellAsked(s, r, FullBlockFetch(id, x));
    case Transaction(h, x) => OwnFetchKeepsWellAsked(s, r, TransactionFetch(h, x));
    case AnyRequest(x) => OwnFetchKeepsWellAsked(s, r, AnyFetch(x));
    case _ => SameBooksSameWellAsked(s, OnRequest(s, r));
  }

  lemma KeyAnswerFits(s: State, k: Key, r: Reply, x: Sender)
    requires WaitsFor(s, x, k)
    ensures DeliveryFits(s, Delivery(x, KeyAnswer(k, r)))
  {
  }

  lemma CompletionKeepsWellAsked(s: State, k: Key, r: Reply)
    requires WellAsked(s)
    ensures WellAsked(CompleteKey(s, k, r))
  {
    var t := CompleteKey(s, k, r);
    CompleteKeyEffect(s, k, r);
    assert forall q :: IsAsked(t, q) == IsAsked(s, q);
    forall j, i | j in t.listeners && 0 <= i < |t.listeners[j]| ensures WaitsFor(t, t.listeners[j][i], j) {
      assert WaitsFor(s, s.listeners[j][i], j);
    }
    forall i | 0 <= i < |t.delivered| ensures DeliveryFits(t, t.delivered[i]) {
      if i < |s.delivered| {
        assert DeliveryFits(s, s.delivered[i]);
      } else {
        var x := s.listeners[k][i - |s.delivered|];
        assert t.delivered[i] == Delivery(x, KeyAnswer(k, r));
        KeyAnswerFits(s, k, r, x);
      }
    }
  }

  lemma PollKeepsWellAsked(s: State, n: nat, p: Poll)
    requires WellAsked(s) && n < |s.pending|
    ensures WellAsked(PollFetch(s, n, p))
  {
    var f := s.pending[n];
    var t := PollFetch(s, n, p);
    var rest := s.(pending := SwapRemove(s.pending, n));
    SameBooksSameWellAsked(s, rest);
    match p
    case NotReady => SameBooksSameWellAsked(s, t);
    case Ready(r) =>
      if FetchKey(f).Some? {
        CompletionKeepsWellAsked(rest, FetchKey(f).value, r);
      } else {
        var d := Delivery(FetchSender(f).value, OwnAnswer(f, r));
        assert IsAsked(s, AskedBy(f).value);
        AnswerKeepsWellAsked(rest, t, d);
      }
  }

  lemma StepKeepsWellAsked(s: State, e: Event)
    requires WellAsked(s) && Enabled(s, e)
    ensures WellAsked(Next(s, e))
  {
    match e
    case Submit(r) => SubmitKeepsWellAsked(s, r);
    case Receive => SameBooksSameWellAsked(s, Next(s, e));
    case Handle =>
      var rest := s.(queued := s.queued[1..]);
      SameBooksSameWellAsked(s, rest);
      assert IsAsked(s, s.queued[0]);
      RequestKeepsWellAsked(rest, s.queued[0]);
    case PollOne(n, p) => PollKeepsWellAsked(s, n, p);
  }

  /** In every reachable state, each answer sent is one the request of its sender admits. */
  lemma {:induction false} RunKeepsWellAsked(s: State, es: seq<Event>)
    requires WellAsked(s) && IsRun(s, es)
    ensures WellAsked(Run(s, es))
    decreases |es|
  {
    if es != [] {
      StepKeepsWellAsked(s, es[0]);
      RunKeepsWellAsked(Next(s, es[0]), es[1..]);
    }
  }
}
