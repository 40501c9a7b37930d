/**
 What clients of the fork backend can rely on over whole runs: a cache hit, a coalesced
 answer and a fresh fetch all equal the provider's own value; an update sticks exactly
 when no fetch for its key is in progress; a key is fetched successfully at most once.
 */
module ForkCache {
  import opened Chain
  import opened Common
  import opened ForkProtocol
  import opened ForkInvariant
  import opened ForkAnswers
  import opened ForkProvider

  // ---------- The cache refines the provider ----------

  /** The direct lookup of `k` at a pinned block; an unknown block hashes to the empty hash. */
  ghost function Truth(o: Oracle, k: Key, block: Option<BlockId>): Value {
    match k
    case AccountKey(a) =>
      var raw := o.account(a, block);
      AccountValue(AccountInfo(raw.balance, raw.nonce, raw.code, if |raw.code| == 0 then KECCAK_EMPTY else raw.digest))
    case StorageKey(a, i) => WordValue(o.word(a, i, block))
    case BlockHashKey(n) => HashValue(match o.blockHash(n) case Some(h) => h case None => KECCAK_EMPTY)
  }

  /** Neither writes the cache nor moves the pinned block. */
  predicate Quiet(r: Request) {
    !(r.SetPinnedBlock? || r.UpdateAddress? || r.UpdateStorage? || r.UpdateBlockHash?)
  }

  /** The provider is honest and nobody writes the cache or moves the pinned block. */
  ghost predicate FaithfulStep(o: Oracle, s: State, e: Event) {
    HonestStep(o, s, e) && (e.Submit? ==> Quiet(e.request))
  }

  ghost predicate FaithfulRun(o: Oracle, s: State, es: seq<Event>)
    requires IsRun(s, es)
    decreases |es|
  {
    es == [] || (FaithfulStep(o, s, es[0]) && FaithfulRun(o, Next(s, es[0]), es[1..]))
  }

  ghost predicate CacheAgrees(o: Oracle, s: State) {
    forall k :: Cached(s, k).Some? ==> Cached(s, k).value == Truth(o, k, s.blockId)
  }

  predicate StartedAt(f: Fetch, block: Option<BlockId>) {
    match f
    case AccountFetch(_, b) => b == block
    case StorageFetch(_, _, b) => b == block
    case _ => true
  }

  ghost predicate AnswerAgrees(o: Oracle, s: State, d: Delivery) {
    d.sender in s.asked && KeyOf(s.asked[d.sender]).Some? ==>
      KeyTruth(o, KeyOf(s.asked[d.sender]).value, s.blockId, d.answer)
  }

  /** The provider's value, or the report of a fetch that failed. */
  ghost predicate KeyTruth(o: Oracle, k: Key, block: Option<BlockId>, a: Answer) {
    a == Found(Truth(o, k, block)) || exists e :: a == Failed(KeyError(k, e)) && o.fails(FetchFor(k, block), e)
  }

  ghost predicate Agrees(o: Oracle, s: State) {
    && CacheAgrees(o, s)
    && (forall i :: 0 <= i < |s.pending| ==> StartedAt(s.pending[i], s.blockId))
    && (forall i :: 0 <= i < |s.incoming| ==> Quiet(s.incoming[i]))
    && (forall i :: 0 <= i < |s.queued| ==> Quiet(s.queued[i]))
    && (forall i :: 0 <= i < |s.delivered| ==> AnswerAgrees(o, s, s.delivered[i]))
  }

  lemma SubmitKeepsAgreement(o: Oracle, s: State, r: Request)
    requires Agrees(o, s) && WellAsked(s) && Enabled(s, Submit(r)) && Quiet(r)
    ensures Agrees(o, Ask(s, r))
  {
    var t := Ask(s, r);
    forall k ensures Cached(t, k) == Cached(s, k) {}
    forall i | 0 <= i < |t.delivered| ensures AnswerAgrees(o, t, t.delivered[i]) {
      assert DeliveryFits(s, s.delivered[i]);
      assert AnswerAgrees(o, s, s.delivered[i]);
    }
  }

  lemma LookupKeepsAgreement(o: Oracle, s: State, k: Key, x: Sender)
    requires Agrees(o, s) && WaitsFor(s, x, k)
    ensures Agrees(o, Lookup(s, k, x))
  {
    var t := Lookup(s, k, x);
    LookupIs(s, k, x);
    forall j ensures Cached(t, j) == Cached(s, j) { LookupOnCache(s, k, x, j); }
    hide Lookup, Cached, Truth;
    if Cached(s, k).Some? {
      AnswerKeepsAgreement(o, s, k, x);
    } else {
      JoinEffect(s, k, x);
      JoinStartsAtPinned(s, k, x);
      hide Join;
      forall i | 0 <= i < |t.delivered| ensures AnswerAgrees(o, t, t.delivered[i]) {
        assert AnswerAgrees(o, s, s.delivered[i]);
      }
    }
  }

  lemma AnswerKeepsAgreement(o: Oracle, s: State, k: Key, x: Sender)
    requires Agrees(o, s) && WaitsFor(s, x, k) && Cached(s, k).Some?
    ensures Agrees(o, Deliver(s, [x], Found(Cached(s, k).value)))
  {
    var v := Cached(s, k).value;
    var t := Deliver(s, [x], Found(v));
    forall j ensures Cached(t, j) == Cached(s, j) {}
    assert v == Truth(o, k, s.blockId);
    hide Cached, Truth;
    forall i | 0 <= i < |t.delivered| ensures AnswerAgrees(o, t, t.delivered[i]) {
      if i < |s.delivered| { assert AnswerAgrees(o, s, s.delivered[i]); }
      else { assert t.delivered[i] == Delivery(x, Found(v)); }
    }
  }

  /** A fetch that a lookup starts reads the pinned block. */
  lemma JoinStartsAtPinned(s: State, k: Key, x: Sender)
    requires forall i :: 0 <= i < |s.pending| ==> StartedAt(s.pending[i], s.blockId)
    ensures forall i :: 0 <= i < |Join(s, k, x).pending| ==> StartedAt(Join(s, k, x).pending[i], s.blockId)
  {
    var t := Join(s, k, x);
    forall i | 0 <= i < |t.pending| ensures StartedAt(t.pending[i], s.blockId) {
      if i < |s.pending| { assert StartedAt(s.pending[i], s.blockId); }
    }
  }

  lemma OwnFetchKeepsAgreement(o: Oracle, s: State, f: Fetch)
    requires Agrees(o, s) && StartedAt(f, s.blockId)
    ensures Agrees(o, s.(pending := s.pending + [f]))
  {
    var t := s.(pending := s.pending + [f]);
    forall j ensures Cached(t, j) == Cached(s, j) {}
    forall i | 0 <= i < |t.delivered| ensures AnswerAgrees(o, t, t.delivered[i]) {
      assert AnswerAgrees(o, s, s.delivered[i]);
    }
  }

  lemma RequestKeepsAgreement(o: Oracle, s: State, r: Request)
    requires Agrees(o, s) && IsAsked(s, r) && Quiet(r)
    ensures Agrees(o, OnRequest(s, r))
  {
    match r
    case Basic(a, x) => LookupKeepsAgreement(o, s, AccountKey(a), x);
    case Storage(a, i, x) => LookupKeepsAgreement(o, s, StorageKey(a, i), x);
    case BlockHash(n, x) => LookupKeepsAgreement(o, s, BlockHashKey(n), x);
    case FullBlock(id, x) => OwnFetchKeepsAgreement(o, s, FullBlockFetch(id, x));
    case Transaction(h, x) => OwnFetchKeepsAgreement(o, s, TransactionFetch(h, x));
    case AnyRequest(x) => OwnFetchKeepsAgreement(o, s, AnyFetch(x));
  }

  lemma HonestOutcome(o: Oracle, f: Fetch, k: Key, r: Reply, block: Option<BlockId>)
    requires FetchKey(f) == Some(k) && HonestReply(o, f, r) && StartedAt(f, block)
    ensures Outcome(k, r).Ok? ==> Outcome(k, r).value == Truth(o, k, block)
    ensures KeyTruth(o, k, block, KeyAnswer(k, r))
  {
    if Outcome(k, r).Err? {
      assert KeyAnswer(k, r) == Failed(KeyError(k, Outcome(k, r).error)) && f == FetchFor(k, block);
    }
  }

  lemma CompletionKeepsAgreement(o: Oracle, s: State, k: Key, r: Reply)
    requires Agrees(o, s) && WellAsked(s)
    requires Outcome(k, r).Ok? ==> Outcome(k, r).value == Truth(o, k, s.blockId)
    requires KeyTruth(o, k, s.blockId, KeyAnswer(k, r))
    ensures Agrees(o, CompleteKey(s, k, r))
  {
    hide KeyTruth;
    var t := CompleteKey(s, k, r);
    CompleteKeyEffect(s, k, r);
    forall j ensures Cached(t, j).Some? ==> Cached(t, j).value == Truth(o, j, t.blockId) {
      CompletionOnCache(s, k, r, j);
    }
    forall i | 0 <= i < |t.delivered| ensures AnswerAgrees(o, t, t.delivered[i]) {
      if i < |s.delivered| {
        assert AnswerAgrees(o, s, s.delivered[i]);
      } else {
        var x := s.listeners[k][i - |s.delivered|];
        assert t.delivered[i] == Delivery(x, KeyAnswer(k, r));
        assert WaitsFor(s, x, k);
      }
    }
  }

  lemma PollKeepsAgreement(o: Oracle, s: State, n: nat, p: Poll)
    requires Agrees(o, s) && WellAsked(s) && n < |s.pending|
    requires p.Ready? ==> HonestReply(o, s.pending[n], p.reply)
    ensures Agrees(o, PollFetch(s, n, p))
  {
    var f := s.pending[n];
    var t := PollFetch(s, n, p);
    var rest := s.(pending := SwapRemove(s.pending, n));
    forall i | 0 <= i < |s.delivered| ensures AnswerAgrees(o, rest, s.delivered[i]) {
      assert AnswerAgrees(o, s, s.delivered[i]);
    }
    forall j ensures Cached(rest, j) == Cached(s, j) {}
    assert Agrees(o, rest);
    match p
    case NotReady => OwnFetchKeepsAgreement(o, rest, f);
    case Ready(r) =>
      if FetchKey(f).Some? {
        SameBooksSameWellAsked(s, rest);
        HonestOutcome(o, f, FetchKey(f).value, r, s.blockId);
        CompletionKeepsAgreement(o, rest, FetchKey(f).value, r);
      } else {
        assert IsAsked(s, AskedBy(f).value);
        forall j ensures Cached(t, j) == Cached(s, j) {}
        forall i | 0 <= i < |t.delivered| ensures AnswerAgrees(o, t, t.delivered[i]) {
          if i < |s.delivered| { assert AnswerAgrees(o, rest, s.delivered[i]); }
        }
      }
  }

  lemma PollKeepsBlock(s: State, n: nat, p: Poll)
    requires n < |s.pending|
    ensures PollFetch(s, n, p).blockId == s.blockId
  {
    if p.Ready? && FetchKey(s.pending[n]).Some? {
      CompleteKeyEffect(s.(pending := SwapRemove(s.pending, n)), FetchKey(s.pending[n]).value, p.reply);
    }
  }

  lemma StepKeepsAgreement(o: Oracle, s: State, e: Event)
    requires Agrees(o, s) && WellAsked(s) && Enabled(s, e) && FaithfulStep(o, s, e)
    ensures Agrees(o, Next(s, e)) && Next(s, e).blockId == s.blockId
  {
    match e
    case Submit(r) => SubmitKeepsAgreement(o, s, r);
    case Receive =>
      var t := Next(s, e);
      forall j ensures Cached(t, j) == Cached(s, j) {}
      forall i | 0 <= i < |t.delivered| ensures AnswerAgrees(o, t, t.delivered[i]) {
        assert AnswerAgrees(o, s, s.delivered[i]);
      }
    case Handle =>
      var rest := s.(queued := s.queued[1..]);
      forall j ensures Cached(rest, j) == Cached(s, j) {}
      forall i | 0 <= i < |s.delivered| ensures AnswerAgrees(o, rest, s.delivered[i]) {
        assert AnswerAgrees(o, s, s.delivered[i]);
      }
      assert IsAsked(s, s.queued[0]);
      RequestKeepsAgreement(o, rest, s.queued[0]);
      OnRequestEffect(rest, s.queued[0]);
    case PollOne(n, p) =>
      PollKeepsAgreement(o, s, n, p);
      PollKeepsBlock(s, n, p);
  }

  lemma {:induction false} RunKeepsAgreement(o: Oracle, s: State, es: seq<Event>)
    requires Agrees(o, s) && WellAsked(s) && IsRun(s, es) && FaithfulRun(o, s, es)
    ensures Agrees(o, Run(s, es)) && Run(s, es).blockId == s.blockId
    decreases |es|
  {
    if es != [] {
      StepKeepsAgreement(o, s, es[0]);
      StepKeepsWellAsked(s, es[0]);
      RunKeepsAgreement(o, Next(s, es[0]), es[1..]);
    }
  }

  /**
   The cache refines the provider. From a cache that agrees with a deterministic provider,
   in every run without update or re-pin requests, every client that asked for an account, a
   slot or a block hash is answered with the direct lookup of what it asked, or with the
   report of a fetch that failed.
   */
  lemma EveryAnswerIsTheProviders(o: Oracle, s: State, es: seq<Event>, i: nat)
    requires Initial(s) && CacheAgrees(o, s) && IsRun(s, es) && FaithfulRun(o, s, es)
    requires i < |Run(s, es).delivered|
    ensures var t := Run(s, es);
            var d := t.delivered[i];
            && d.sender in t.asked
            && (KeyOf(t.asked[d.sender]).Some? ==> KeyTruth(o, KeyOf(t.asked[d.sender]).value, s.blockId, d.answer))
  {
    RunKeepsAgreement(o, s, es);
    RunKeepsWellAsked(s, es);
    assert DeliveryFits(Run(s, es), Run(s, es).delivered[i]);
    assert AnswerAgrees(o, Run(s, es), Run(s, es).delivered[i]);
  }

  // ---------- Updates ----------

  predicate Touches(s: State, e: Event, k: Key) {
    e.Handle? && s.queued != [] && Overwrites(s.queued[0], k)
  }

  /** A run that handles no update of `k`. */
  predicate UntouchedRun(s: State, es: seq<Event>, k: Key)
    decreases |es|
  {
    es == [] || (Enabled(s, es[0]) && !Touches(s, es[0], k) && UntouchedRun(Next(s, es[0]), es[1..], k))
  }

  lemma {:induction false} UntouchedRunIsRun(s: State, es: seq<Event>, k: Key)
    requires UntouchedRun(s, es, k)
    ensures IsRun(s, es)
    decreases |es|
  {
    if es != [] { UntouchedRunIsRun(Next(s, es[0]), es[1..], k); }
  }

  /** `k` is answered from the cache, with `v`. */
  predicate Served(s: State, k: Key, v: Value) {
    Cached(s, k) == Some(v) && k !in s.listeners
  }

  predicate AnsweredWith(s: State, d: Delivery, k: Key, v: Value) {
    WaitsFor(s, d.sender, k) ==> d.answer == Found(v)
  }

  /** One step keeps serving `v`, and answers nobody who asked for `k` with anything else. */
  lemma StepKeepsServing(s: State, e: Event, k: Key, v: Value)
    requires Invariant(s) && WellAsked(s) && Enabled(s, e) && !Touches(s, e, k) && Served(s, k, v)
    ensures Served(Next(s, e), k, v)
    ensures s.delivered <= Next(s, e).delivered
    ensures forall i :: |s.delivered| <= i < |Next(s, e).delivered| ==>
            AnsweredWith(Next(s, e), Next(s, e).delivered[i], k, v)
  {
    match e
    case Submit(r) => assert Cached(Next(s, e), k) == Cached(s, k);
    case Receive => assert Cached(Next(s, e), k) == Cached(s, k);
    case Handle =>
      assert IsAsked(s, s.queued[0]);
      RequestKeepsServing(s.(queued := s.queued[1..]), s.queued[0], k, v);
    case PollOne(n, p) => PollKeepsServing(s, n, p, k, v);
  }

  lemma RequestKeepsServing(s: State, r: Request, k: Key, v: Value)
    requires IsAsked(s, r) && !Overwrites(r, k) && Served(s, k, v)
    ensures var t := OnRequest(s, r);
            && Served(t, k, v) && s.delivered <= t.delivered
            && forall i :: |s.delivered| <= i < |t.delivered| ==> AnsweredWith(t, t.delivered[i], k, v)
  {
    RequestOnCache(s, r, k);
    OnRequestEffect(s, r);
  }

  /** Completing the fetch of another key answers only those who asked for that key. */
  lemma OtherKeyKeepsServing(s: State, j: Key, r: Reply, k: Key, v: Value)
    requires j in s.listeners && Served(s, k, v)
    requires forall x :: x in s.listeners[j] ==> WaitsFor(s, x, j)
    ensures var t := CompleteKey(s, j, r);
            && Served(t, k, v) && s.delivered <= t.delivered
            && forall i :: |s.delivered| <= i < |t.delivered| ==> AnsweredWith(t, t.delivered[i], k, v)
  {
    var t := CompleteKey(s, j, r);
    CompleteKeyEffect(s, j, r);
    CompletionOnCache(s, j, r, k);
    hide CompleteKey, Cached;
    forall i | |s.delivered| <= i < |t.delivered| ensures AnsweredWith(t, t.delivered[i], k, v) {
      var x := s.listeners[j][i - |s.delivered|];
      assert t.delivered[i].sender == x && WaitsFor(s, x, j);
    }
  }

  lemma PollKeepsServing(s: State, n: nat, p: Poll, k: Key, v: Value)
    requires Invariant(s) && WellAsked(s) && n < |s.pending| && Served(s, k, v)
    ensures var t := PollFetch(s, n, p);
            && Served(t, k, v) && s.delivered <= t.delivered
            && forall i :: |s.delivered| <= i < |t.delivered| ==> AnsweredWith(t, t.delivered[i], k, v)
  {
    var f := s.pending[n];
    var rest := s.(pending := SwapRemove(s.pending, n));
    assert Cached(rest, k) == Cached(s, k);
    if p.Ready? && FetchKey(f).Some? {
      var j := FetchKey(f).value;
      assert InFlight(s, j);
      forall x | x in s.listeners[j] ensures WaitsFor(rest, x, j) { assert WaitsFor(s, x, j); }
      hide CompleteKey, Cached, WaitsFor, SwapRemove, AnsweredWith, OnePlaceEach, Coalesced;
      OtherKeyKeepsServing(rest, j, p.reply, k, v);
      return;
    }
    OwnPollKeepsServing(s, n, p, k, v);
  }

  /** A poll that is not ready, or that answers its own sender, leaves the entry of `k` and its listeners alone. */
  lemma OwnPollKeepsServing(s: State, n: nat, p: Poll, k: Key, v: Value)
    requires WellAsked(s) && n < |s.pending| && Served(s, k, v) && !(p.Ready? && FetchKey(s.pending[n]).Some?)
    ensures var t := PollFetch(s, n, p);
            && Served(t, k, v) && s.delivered <= t.delivered
            && forall i :: |s.delivered| <= i < |t.delivered| ==> AnsweredWith(t, t.delivered[i], k, v)
  {
    hide SwapRemove, CompleteKey, OwnAnswer;
    if p.Ready? { assert IsAsked(s, AskedBy(s.pending[n]).value); }
  }

  /**
   Update visibility. Once `v` is cached for `k` with no fetch for `k` in flight, it is
   what `k` is served with, and what everybody who asks for `k` is answered, until the
   next update of `k`.
   */
  lemma {:induction false} UpdateStaysVisible(s: State, es: seq<Event>, k: Key, v: Value)
    requires Invariant(s) && WellAsked(s) && Cached(s, k) == Some(v) && !InFlight(s, k)
    requires UntouchedRun(s, es, k)
    ensures IsRun(s, es)
    ensures var t := Run(s, es);
            && Served(t, k, v) && s.delivered <= t.delivered
            && forall i :: |s.delivered| <= i < |t.delivered| ==> AnsweredWith(t, t.delivered[i], k, v)
    decreases |es|
  {
    UntouchedRunIsRun(s, es, k);
    if es != [] {
      var s1 := Next(s, es[0]);
      StepKeepsServing(s, es[0], k, v);
      StepKeepsInvariant(s, es[0]);
      StepKeepsWellAsked(s, es[0]);
      UpdateStaysVisible(s1, es[1..], k, v);
      var t := Run(s, es);
      RunRemembers(s1, es[1..]);
      forall i | |s.delivered| <= i < |t.delivered| ensures AnsweredWith(t, t.delivered[i], k, v) {
        if i < |s1.delivered| {
          assert AnsweredWith(s1, s1.delivered[i], k, v) && DeliveryFits(s1, s1.delivered[i]);
        }
      }
    }
  }

  /** What a sender asked is never forgotten or changed. */
  lemma {:induction false} RunRemembers(s: State, es: seq<Event>)
    requires IsRun(s, es)
    ensures forall x :: x in s.asked ==> x in Run(s, es).asked && Run(s, es).asked[x] == s.asked[x]
    decreases |es|
  {
    hide Next;
    if es != [] {
      StepRemembers(s, es[0]);
      RunRemembers(Next(s, es[0]), es[1..]);
    }
  }

  lemma StepRemembers(s: State, e: Event)
    requires Enabled(s, e)
    ensures forall x :: x in s.asked ==> x in Next(s, e).asked && Next(s, e).asked[x] == s.asked[x]
  {
    match e
    case Submit(r) =>
    case Receive =>
    case Handle => OnRequestEffect(s.(queued := s.queued[1..]), s.queued[0]);
    case PollOne(n, p) =>
      if p.Ready? && FetchKey(s.pending[n]).Some? {
        CompleteKeyEffect(s.(pending := SwapRemove(s.pending, n)), FetchKey(s.pending[n]).value, p.reply);
      }
  }

  /** Whatever happens, short of another update of `k`, its cached value stays `v`. */
  ghost predicate Settled(s: State, k: Key, v: Value) {
    forall es :: UntouchedRun(s, es, k) ==> IsRun(s, es) && Cached(Run(s, es), k) == Some(v)
  }

  /** A provider reply whose value for the kind of `k` differs from `v`. */
  function OtherReply(k: Key, v: Value): (r: Reply)
    ensures Outcome(k, r).Ok? && Outcome(k, r).value != v
  {
    var b := match v case AccountValue(info) => info.balance + 1 case WordValue(w) => w + 1 case HashValue(h) => h + 1;
    Reply(Ok(RawAccount(b, 0, [], 0)), Ok(b), Ok(Some(b)), Ok(None), Ok(0), 0)
  }

  /**
   A cached value is settled if and only if no fetch for its key is in flight: a fetch that
   was started before the update and completes after it overwrites the update.
   */
  lemma SettledExactlyWithoutFlight(s: State, k: Key, v: Value)
    requires Invariant(s) && WellAsked(s) && Cached(s, k) == Some(v)
    ensures Settled(s, k, v) <==> !InFlight(s, k)
  {
    if InFlight(s, k) {
      var n :| 0 <= n < |s.pending| && FetchKey(s.pending[n]) == Some(k);
      var r := OtherReply(k, v);
      var e := PollOne(n, Ready(r));
      var rest := s.(pending := SwapRemove(s.pending, n));
      var t := Next(s, e);
      CompletionOnCache(rest, k, r, k);
      assert Cached(t, k) != Some(v);
      assert [e][1..] == [];
      assert UntouchedRun(t, [], k) && IsRun(t, []) && Run(t, []) == t;
      assert UntouchedRun(s, [e], k);
      assert IsRun(s, [e]) && Run(s, [e]) == t;
      assert !Settled(s, k, v);
    } else {
      forall es | UntouchedRun(s, es, k) ensures IsRun(s, es) && Cached(Run(s, es), k) == Some(v) {
        UpdateStaysVisible(s, es, k, v);
      }
    }
  }

  /** A client asks for an account; before the answer comes, an update of the account is handled. */
  function UpdateDuringFetch(a: Address, x: Sender, info: AccountInfo): seq<Event> {
    [Submit(Basic(a, x)), Receive, Handle, Submit(UpdateAddress(map[a := info])), Receive, Handle]
  }

  /** From a new handler that has not cached the account, this ends with a value that is not settled. */
  lemma UpdateDuringFetchIsNotSettled(s: State, a: Address, x: Sender, info: AccountInfo)
    requires Initial(s) && a !in s.accounts
    ensures var es := UpdateDuringFetch(a, x, info);
            && IsRun(s, es)
            && Cached(Run(s, es), AccountKey(a)) == Some(AccountValue(info)) && InFlight(Run(s, es), AccountKey(a))
            && !Settled(Run(s, es), AccountKey(a), AccountValue(info))
  {
    var r, u := Basic(a, x), UpdateAddress(map[a := info]);
    var first, second := [Submit(r), Receive, Handle], [Submit(u), Receive, Handle];
    var es := UpdateDuringFetch(a, x, info);
    assert es == first + second;
    hide *;
    var t := FetchStarts(s, a, x);
    var end := UpdateLands(t, a, info);
    RunConcat(s, first, second);
    ReachableStates(s, es);
    InitiallyWellAsked(s);
    RunKeepsWellAsked(s, es);
    SettledExactlyWithoutFlight(end, AccountKey(a), AccountValue(info));
  }

  lemma InitiallyWellAsked(s: State)
    requires Initial(s)
    ensures WellAsked(s)
  {
  }

  lemma FetchStarts(s: State, a: Address, x: Sender) returns (t: State)
    requires Initial(s) && a !in s.accounts
    ensures IsRun(s, [Submit(Basic(a, x)), Receive, Handle]) && t == Run(s, [Submit(Basic(a, x)), Receive, Handle])
    ensures t.incoming == [] && t.queued == [] && InFlight(t, AccountKey(a))
  {
    AskedOnce(s, Basic(a, x));
    t := OnRequest(s.(asked := Ask(s, Basic(a, x)).asked), Basic(a, x));
    hide Run, IsRun;
    assert FetchKey(t.pending[0]) == Some(AccountKey(a));
  }

  lemma UpdateLands(t: State, a: Address, info: AccountInfo) returns (end: State)
    requires t.incoming == [] && t.queued == [] && InFlight(t, AccountKey(a))
    ensures var es := [Submit(UpdateAddress(map[a := info])), Receive, Handle];
            IsRun(t, es) && end == Run(t, es)
    ensures Cached(end, AccountKey(a)) == Some(AccountValue(info)) && InFlight(end, AccountKey(a))
  {
    AskedOnce(t, UpdateAddress(map[a := info]));
    end := OnRequest(t.(asked := Ask(t, UpdateAddress(map[a := info])).asked), UpdateAddress(map[a := info]));
    hide Run, IsRun, FetchKey;
    assert end.pending == t.pending;
  }

  /** What becomes of one request in an idle channel. */
  lemma AskedOnce(s: State, r: Request)
    requires s.incoming == [] && s.queued == [] && Enabled(s, Submit(r))
    ensures IsRun(s, [Submit(r), Receive, Handle])
    ensures Run(s, [Submit(r), Receive, Handle]) == OnRequest(s.(asked := Ask(s, r).asked), r)
  {
    hide OnRequest;
    var s1 := Next(s, Submit(r));
    var s2 := Next(s1, Receive);
    assert s2.incoming == [] && s2.queued == [r];
    var s3 := Next(s2, Handle);
    assert s2.(queued := s2.queued[1..]) == s.(asked := Ask(s, r).asked);
    var e2, e1 := [Handle], [Receive, Handle];
    assert e2[1..] == [] && e1[1..] == e2 && [Submit(r), Receive, Handle][1..] == e1;
    hide Next;
    assert IsRun(s3, []) && Run(s3, []) == s3;
    assert IsRun(s2, e2) && Run(s2, e2) == s3;
    assert IsRun(s1, e1) && Run(s1, e1) == s3;
  }

  // ---------- Fetches ----------

  /** Handling the queue's head drops the slot `k` from the cache. */
  predicate Evicts(s: State, e: Event, k: Key) {
    Touches(s, e, k) && Installed(s.queued[0], k).None?
  }

  predicate KeptRun(s: State, es: seq<Event>, k: Key)
    decreases |es|
  {
    es == [] || (Enabled(s, es[0]) && !Evicts(s, es[0], k) && KeptRun(Next(s, es[0]), es[1..], k))
  }

  predicate Succeeded(s: State, k: Key) {
    Completion(k, true) in s.completed
  }

  predicate AtMostOneSuccess(done: seq<Completion>, k: Key) {
    forall i, j :: 0 <= i < j < |done| ==> !(done[i] == Completion(k, true) && done[j] == Completion(k, true))
  }

  ghost predicate FetchedOnce(s: State, k: Key) {
    && AtMostOneSuccess(s.completed, k)
    && (Succeeded(s, k) ==> Cached(s, k).Some? && k !in s.listeners)
  }

  lemma StepKeepsFetchedOnce(s: State, e: Event, k: Key)
    requires Invariant(s) && FetchedOnce(s, k) && Enabled(s, e) && !Evicts(s, e, k)
    ensures FetchedOnce(Next(s, e), k)
  {
    match e
    case Submit(r) => assert Cached(Next(s, e), k) == Cached(s, k);
    case Receive => assert Cached(Next(s, e), k) == Cached(s, k);
    case Handle =>
      RequestOnCache(s.(queued := s.queued[1..]), s.queued[0], k);
      OnRequestEffect(s.(queued := s.queued[1..]), s.queued[0]);
    case PollOne(n, p) => PollKeepsFetchedOnce(s, n, p, k);
  }

  /** Whether a key was fetched depends on the cache, the listeners and what was completed. */
  lemma SameFetchedOnce(s: State, t: State, k: Key)
    requires FetchedOnce(s, k) && SameCaches(s, t) && t.listeners == s.listeners && t.completed == s.completed
    ensures FetchedOnce(t, k)
  {
    hide AtMostOneSuccess;
  }

  predicate SameCaches(s: State, t: State) {
    t.accounts == s.accounts && t.storage == s.storage && t.blockHashes == s.blockHashes
  }

  lemma FewerPending(s: State, pending: seq<Fetch>, k: Key)
    requires FetchedOnce(s, k)
    ensures FetchedOnce(s.(pending := pending), k)
  {
    SameFetchedOnce(s, s.(pending := pending), k);
    hide FetchedOnce;
  }

  lemma PollUnkeyed(s: State, n: nat, p: Poll)
    requires n < |s.pending| && (p.NotReady? || FetchKey(s.pending[n]).None?)
    ensures var t := PollFetch(s, n, p);
            SameCaches(s, t) && t.listeners == s.listeners && t.completed == s.completed
  {
    hide SwapRemove, OwnAnswer;
  }

  lemma PollKeyed(s: State, n: nat, r: Reply)
    requires Coalesced(s) && n < |s.pending| && FetchKey(s.pending[n]).Some?
    ensures var k := FetchKey(s.pending[n]).value;
            && k in s.listeners
            && PollFetch(s, n, Ready(r)) == CompleteKey(s.(pending := SwapRemove(s.pending, n)), k, r)
  {
    assert InFlight(s, FetchKey(s.pending[n]).value);
    hide SwapRemove, CompleteKey;
  }

  lemma PollKeepsFetchedOnce(s: State, n: nat, p: Poll, k: Key)
    requires Coalesced(s) && FetchedOnce(s, k) && n < |s.pending|
    ensures FetchedOnce(PollFetch(s, n, p), k)
  {
    hide *;
    if p.Ready? && FetchKey(s.pending[n]).Some? {
      var rest := s.(pending := SwapRemove(s.pending, n));
      PollKeyed(s, n, p.reply);
      FewerPending(s, SwapRemove(s.pending, n), k);
      CompletionKeepsFetchedOnce(rest, FetchKey(s.pending[n]).value, p.reply, k);
    } else {
      PollUnkeyed(s, n, p);
      SameFetchedOnce(s, PollFetch(s, n, p), k);
    }
  }

  lemma CompletionKeepsFetchedOnce(s: State, j: Key, r: Reply, k: Key)
    requires FetchedOnce(s, k) && j in s.listeners
    ensures FetchedOnce(CompleteKey(s, j, r), k)
  {
    CompleteKeyEffect(s, j, r);
    CompletionOnCache(s, j, r, k);
  }

  lemma {:induction false} RunKeepsFetchedOnce(s: State, es: seq<Event>, k: Key)
    requires Invariant(s) && FetchedOnce(s, k) && IsRun(s, es)
    requires !k.StorageKey? || KeptRun(s, es, k)
    ensures FetchedOnce(Run(s, es), k)
    decreases |es|
  {
    if es != [] {
      StepKeepsFetchedOnce(s, es[0], k);
      StepKeepsInvariant(s, es[0]);
      RunKeepsFetchedOnce(Next(s, es[0]), es[1..], k);
    }
  }

  /**
   Fetch bound. In every run of a new handler each account and each block number has at
   most one successful provider fetch, and so has each slot that no update drops.
   */
  lemma FetchedAtMostOnce(s: State, es: seq<Event>, k: Key)
    requires Initial(s) && IsRun(s, es)
    requires !k.StorageKey? || KeptRun(s, es, k)
    ensures AtMostOneSuccess(Run(s, es).completed, k)
  {
    ReachableStates(s, []);
    RunKeepsFetchedOnce(s, es, k);
  }

  // ---------- The pinned block ----------

  predicate Repins(s: State, e: Event) {
    e.Handle? && s.queued != [] && s.queued[0].SetPinnedBlock?
  }

  /** A run that handles no re-pin. */
  predicate PinnedRun(s: State, es: seq<Event>)
    decreases |es|
  {
    es == [] || (Enabled(s, es[0]) && !Repins(s, es[0]) && PinnedRun(Next(s, es[0]), es[1..]))
  }

  /** Every fetch is one of `before` or was started at the pinned block. */
  ghost predicate PinnedSince(s: State, before: seq<Fetch>) {
    forall f :: f in s.pending ==> f in before || StartedAt(f, s.blockId)
  }

  lemma HandleKeepsPinned(s: State, r: Request, before: seq<Fetch>)
    requires PinnedSince(s, before) && !r.SetPinnedBlock?
    ensures PinnedSince(OnRequest(s, r), before) && OnRequest(s, r).blockId == s.blockId
  {
    OnRequestEffect(s, r);
  }

  lemma PollKeepsPinned(s: State, n: nat, p: Poll, before: seq<Fetch>)
    requires PinnedSince(s, before) && n < |s.pending|
    ensures PinnedSince(PollFetch(s, n, p), before)
  {
    PollKeepsBlock(s, n, p);
    if p.Ready? && FetchKey(s.pending[n]).Some? {
      CompleteKeyEffect(s.(pending := SwapRemove(s.pending, n)), FetchKey(s.pending[n]).value, p.reply);
    }
    hide CompleteKey;
  }

  lemma StepKeepsPinned(s: State, e: Event, before: seq<Fetch>)
    requires Enabled(s, e) && !Repins(s, e) && PinnedSince(s, before)
    ensures PinnedSince(Next(s, e), before) && Next(s, e).blockId == s.blockId
  {
    match e
    case Submit(r) =>
    case Receive =>
    case Handle => HandleKeepsPinned(s.(queued := s.queued[1..]), s.queued[0], before);
    case PollOne(n, p) =>
      PollKeepsPinned(s, n, p, before);
      PollKeepsBlock(s, n, p);
  }

  /**
   A re-pin governs exactly the fetches started after it: until the next one, whatever is
   pending was pending at the re-pin already or reads the newly pinned block.
   */
  lemma RepinGovernsLaterFetches(s: State, es: seq<Event>)
    requires s.queued != [] && s.queued[0].SetPinnedBlock? && PinnedRun(Next(s, Handle), es)
    ensures IsRun(Next(s, Handle), es)
    ensures Run(Next(s, Handle), es).blockId == Some(s.queued[0].id)
    ensures forall f :: f in Run(Next(s, Handle), es).pending ==> f in s.pending || StartedAt(f, Some(s.queued[0].id))
  {
    PinnedRunKeeps(Next(s, Handle), es, s.pending);
  }

  lemma {:induction false} PinnedRunKeeps(s: State, es: seq<Event>, before: seq<Fetch>)
    requires PinnedRun(s, es) && PinnedSince(s, before)
    ensures IsRun(s, es) && PinnedSince(Run(s, es), before) && Run(s, es).blockId == s.blockId
    decreases |es|
  {
    hide Next;
    if es != [] {
      StepKeepsPinned(s, es[0], before);
      PinnedRunKeeps(Next(s, es[0]), es[1..], before);
    }
  }
}
