/**
 The provider behind the fork backend, and the answers of fetches that carry their own
 sender: full blocks, transactions and arbitrary requests are never cached, so in every
 run, updates and re-pins included, they are the provider's own.
 */
module ForkProvider {
  import opened Chain
  import opened Common
  import opened ForkProtocol
  import opened ForkInvariant
  import opened ForkAnswers

  /**
   A provider: the values it has, the result of the future that came with a request of its
   own, and the reports with which a fetch may fail.
   */
  datatype Oracle = Oracle(
    account: (Address, Option<BlockId>) -> RawAccount,
    word: (Address, Slot, Option<BlockId>) -> Word,
    blockHash: BlockNumber -> Option<Hash>,
    fullBlock: BlockId -> Option<nat>,
    transaction: Hash -> nat,
    other: Sender -> nat,
    fails: (Fetch, nat) -> bool)

  /** A reply carries the provider's value, or a report with which the fetch may fail. */
  ghost predicate HonestReply(o: Oracle, f: Fetch, r: Reply) {
    match f
    case AccountFetch(a, b) => if r.account.Ok? then r.account.value == o.account(a, b) else o.fails(f, r.account.error)
    case StorageFetch(a, i, b) => if r.word.Ok? then r.word.value == o.word(a, i, b) else o.fails(f, r.word.error)
    case BlockHashFetch(n) =>
      if r.blockHash.Ok? then r.blockHash.value == o.blockHash(n) else o.fails(f, r.blockHash.error)
    case FullBlockFetch(id, _) =>
      if r.fullBlock.Ok? then r.fullBlock.value == o.fullBlock(id) else o.fails(f, r.fullBlock.error)
    case TransactionFetch(h, _) =>
      if r.transaction.Ok? then r.transaction.value == o.transaction(h) else o.fails(f, r.transaction.error)
    case AnyFetch(x) => r.other == o.other(x)
  }

  ghost predicate HonestStep(o: Oracle, s: State, e: Event) {
    match e
    case PollOne(n, Ready(r)) => n < |s.pending| ==> HonestReply(o, s.pending[n], r)
    case _ => true
  }

  ghost predicate HonestRun(o: Oracle, s: State, es: seq<Event>)
    requires IsRun(s, es)
    decreases |es|
  {
    es == [] || (HonestStep(o, s, es[0]) && HonestRun(o, Next(s, es[0]), es[1..]))
  }

  /** What a client may be told that asked for something that is never cached. */
  ghost predicate OwnTruth(o: Oracle, r: Request, a: Answer) {
    match r
    case FullBlock(id, x) =>
      || (a.FoundBlock? && o.fullBlock(id) == Some(a.block))
      || (a == Failed(BlockNotFound(id)) && o.fullBlock(id) == None)
      || (exists e :: a == Failed(GetFullBlock(id, e)) && o.fails(FullBlockFetch(id, x), e))
    case Transaction(h, x) =>
      || a == FoundTransaction(o.transaction(h))
      || (exists e :: a == Failed(GetTransaction(h, e)) && o.fails(TransactionFetch(h, x), e))
    case AnyRequest(x) => a == Other(o.other(x))
    case _ => true
  }

  ghost predicate OwnAnswered(o: Oracle, s: State, d: Delivery) {
    d.sender in s.asked ==> OwnTruth(o, s.asked[d.sender], d.answer)
  }

  ghost predicate OwnAnswersAgree(o: Oracle, s: State) {
    forall i :: 0 <= i < |s.delivered| ==> OwnAnswered(o, s, s.delivered[i])
  }

  /** Whoever asked for a cached kind of value is not concerned. */
  lemma KeyedIsOwn(o: Oracle, r: Request, a: Answer)
    requires KeyOf(r).Some?
    ensures OwnTruth(o, r, a)
  {
  }

  lemma OwnReplyIsTrue(o: Oracle, f: Fetch, r: Reply)
    requires HonestReply(o, f, r) && FetchKey(f).None?
    ensures AskedBy(f).Some? && OwnTruth(o, AskedBy(f).value, OwnAnswer(f, r))
    ensures FetchSender(f) == SenderOf(AskedBy(f).value)
  {
  }

  lemma MoreAnswered(o: Oracle, s: State, t: State, more: seq<Delivery>)
    requires OwnAnswersAgree(o, s) && t.asked == s.asked && t.delivered == s.delivered + more
    requires forall d :: d in more ==> OwnAnswered(o, s, d)
    ensures OwnAnswersAgree(o, t)
  {
    hide OwnTruth;
    forall i | 0 <= i < |t.delivered| ensures OwnAnswered(o, t, t.delivered[i]) {
      if i < |s.delivered| { assert OwnAnswered(o, s, s.delivered[i]); }
      else { assert t.delivered[i] in more; }
    }
  }

  lemma SubmitKeepsOwn(o: Oracle, s: State, r: Request)
    requires OwnAnswersAgree(o, s) && WellAsked(s) && Enabled(s, Submit(r))
    ensures OwnAnswersAgree(o, Ask(s, r))
  {
    hide OwnTruth;
    var t := Ask(s, r);
    forall i | 0 <= i < |t.delivered| ensures OwnAnswered(o, t, t.delivered[i]) {
      assert OwnAnswered(o, s, s.delivered[i]) && DeliveryFits(s, s.delivered[i]);
    }
  }

  lemma HandleKeepsOwn(o: Oracle, s: State)
    requires OwnAnswersAgree(o, s) && WellAsked(s) && s.queued != []
    ensures OwnAnswersAgree(o, Next(s, Handle))
  {
    var rest, r := s.(queued := s.queued[1..]), s.queued[0];
    OnRequestEffect(rest, r);
    assert IsAsked(s, r);
    if KeyOf(r).Some? { KeyedHasSender(r); }
    hide OwnTruth, OnRequest, Cached, KeyOf, SenderOf, WellAsked;
    var t := OnRequest(rest, r);
    if KeyOf(r).Some? && Cached(rest, KeyOf(r).value).Some? {
      var d := Delivery(SenderOf(r).value, Found(Cached(rest, KeyOf(r).value).value));
      KeyedIsOwn(o, r, d.answer);
      MoreAnswered(o, s, t, [d]);
    } else {
      assert t.delivered == s.delivered + [];
      MoreAnswered(o, s, t, []);
    }
  }

  lemma KeyedHasSender(r: Request)
    requires KeyOf(r).Some?
    ensures SenderOf(r).Some?
  {
  }

  lemma KeyedCompletionKeepsOwn(o: Oracle, s: State, k: Key, r: Reply)
    requires OwnAnswersAgree(o, s) && WellAsked(s)
    ensures OwnAnswersAgree(o, CompleteKey(s, k, r))
  {
    var t := CompleteKey(s, k, r);
    var waiting := if k in s.listeners then s.listeners[k] else [];
    var more := Deliveries(waiting, KeyAnswer(k, r));
    CompleteKeyEffect(s, k, r);
    forall d | d in more ensures OwnAnswered(o, s, d) {
      var i :| 0 <= i < |more| && more[i] == d;
      assert WaitsFor(s, s.listeners[k][i], k);
      KeyedIsOwn(o, s.asked[d.sender], d.answer);
    }
    hide OwnTruth, CompleteKey, KeyAnswer, OwnAnswered, WellAsked, Outcome;
    MoreAnswered(o, s, t, more);
  }

  lemma PollKeepsOwn(o: Oracle, s: State, n: nat, p: Poll)
    requires OwnAnswersAgree(o, s) && WellAsked(s) && n < |s.pending|
    requires p.Ready? ==> HonestReply(o, s.pending[n], p.reply)
    ensures OwnAnswersAgree(o, PollFetch(s, n, p))
  {
    var f, t := s.pending[n], PollFetch(s, n, p);
    var rest := s.(pending := SwapRemove(s.pending, n));
    SameBooksSameWellAsked(s, rest);
    assert AskedBy(f).Some? ==> IsAsked(s, AskedBy(f).value);
    if p.NotReady? {
      assert t.delivered == s.delivered + [];
      MoreAnswered(o, s, t, []);
    } else if FetchKey(f).Some? {
      assert rest.delivered == s.delivered + [];
      MoreAnswered(o, s, rest, []);
      KeyedCompletionKeepsOwn(o, rest, FetchKey(f).value, p.reply);
    } else {
      OwnReplyIsTrue(o, f, p.reply);
      MoreAnswered(o, s, t, [Delivery(FetchSender(f).value, OwnAnswer(f, p.reply))]);
    }
  }

  lemma StepKeepsOwn(o: Oracle, s: State, e: Event)
    requires OwnAnswersAgree(o, s) && WellAsked(s) && Enabled(s, e) && HonestStep(o, s, e)
    ensures OwnAnswersAgree(o, Next(s, e))
  {
    match e
    case Submit(r) => SubmitKeepsOwn(o, s, r);
    case Receive => assert Next(s, e).delivered == s.delivered + []; MoreAnswered(o, s, Next(s, e), []);
    case Handle => HandleKeepsOwn(o, s);
    case PollOne(n, p) => PollKeepsOwn(o, s, n, p);
  }

  lemma {:induction false} RunKeepsOwn(o: Oracle, s: State, es: seq<Event>)
    requires OwnAnswersAgree(o, s) && WellAsked(s) && IsRun(s, es) && HonestRun(o, s, es)
    ensures OwnAnswersAgree(o, Run(s, es))
    decreases |es|
  {
    hide OwnAnswersAgree, WellAsked, Next, Enabled, HonestStep;
    if es != [] {
      StepKeepsOwn(o, s, es[0]);
      StepKeepsWellAsked(s, es[0]);
      RunKeepsOwn(o, Next(s, es[0]), es[1..]);
    }
  }

  lemma OwnAnswerOf(o: Oracle, s: State, es: seq<Event>, d: Delivery)
    requires Initial(s) && IsRun(s, es) && HonestRun(o, s, es) && d in Run(s, es).delivered
    ensures d.sender in Run(s, es).asked && OwnTruth(o, Run(s, es).asked[d.sender], d.answer)
  {
    RunKeepsWellAsked(s, es);
    RunKeepsOwn(o, s, es);
    var t := Run(s, es);
    var i :| 0 <= i < |t.delivered| && t.delivered[i] == d;
    assert DeliveryFits(t, t.delivered[i]) && OwnAnswered(o, t, t.delivered[i]);
  }

  /**
   In every run, whoever asks for a block is told the block if and only if the provider has
   it, and that it was not found if and only if the provider has none, unless the provider
   failed; then it is told so, with the report of that failure.
   */
  lemma BlockAnswers(o: Oracle, s: State, es: seq<Event>, d: Delivery, id: BlockId)
    requires Initial(s) && IsRun(s, es) && HonestRun(o, s, es) && d in Run(s, es).delivered
    requires d.sender in Run(s, es).asked && Run(s, es).asked[d.sender] == FullBlock(id, d.sender)
    ensures (exists e :: d.answer == Failed(GetFullBlock(id, e)) && o.fails(FullBlockFetch(id, d.sender), e))
            || (&& (forall b: nat :: d.answer == FoundBlock(b) <==> o.fullBlock(id) == Some(b))
                && (d.answer == Failed(BlockNotFound(id)) <==> o.fullBlock(id) == None))
    ensures (forall e :: !o.fails(FullBlockFetch(id, d.sender), e)) ==>
              d.answer == match o.fullBlock(id) case Some(b) => FoundBlock(b) case None => Failed(BlockNotFound(id))
  {
    OwnAnswerOf(o, s, es, d);
  }

  /** In every run, whoever asks for a transaction is told the provider's, or the report of a failure. */
  lemma TransactionAnswers(o: Oracle, s: State, es: seq<Event>, d: Delivery, h: Hash)
    requires Initial(s) && IsRun(s, es) && HonestRun(o, s, es) && d in Run(s, es).delivered
    requires d.sender in Run(s, es).asked && Run(s, es).asked[d.sender] == Transaction(h, d.sender)
    ensures d.answer == FoundTransaction(o.transaction(h))
            || exists e :: d.answer == Failed(GetTransaction(h, e)) && o.fails(TransactionFetch(h, d.sender), e)
    ensures (forall e :: !o.fails(TransactionFetch(h, d.sender), e)) ==> d.answer == FoundTransaction(o.transaction(h))
  {
    OwnAnswerOf(o, s, es, d);
  }

  /** Whoever brings its own future is told its result. */
  lemma AnyAnswers(o: Oracle, s: State, es: seq<Event>, d: Delivery)
    requires Initial(s) && IsRun(s, es) && HonestRun(o, s, es) && d in Run(s, es).delivered
    requires d.sender in Run(s, es).asked && Run(s, es).asked[d.sender] == AnyRequest(d.sender)
    ensures d.answer == Other(o.other(d.sender))
  {
    OwnAnswerOf(o, s, es, d);
  }

  // ---------- What each reply is turned into ----------

  /** What a reply for `k` means to a client: the value, a missing block being the empty hash, or the cause. */
  predicate IsReplyFor(k: Key, r: Reply, a: Answer) {
    match k
    case AccountKey(address) =>
      (match r.account
       case Ok(raw) =>
         a == Found(AccountValue(AccountInfo(raw.balance, raw.nonce, raw.code,
                                             if |raw.code| == 0 then KECCAK_EMPTY else raw.digest)))
       case Err(e) => a == Failed(GetAccount(address, e)))
    case StorageKey(address, slot) =>
      (match r.word
       case Ok(w) => a == Found(WordValue(w))
       case Err(e) => a == Failed(GetStorage(address, slot, e)))
    case BlockHashKey(number) =>
      (match r.blockHash
       case Ok(h) => a == Found(HashValue(if h.Some? then h.value else KECCAK_EMPTY))
       case Err(e) => a == Failed(GetBlockHash(number, e)))
  }

  /** The answer to every client that waits for an account, a slot or a block hash. */
  lemma KeyedReplyAnswers(s: State, k: Key, r: Reply)
    requires k in s.listeners
    ensures var t, xs, n := CompleteKey(s, k, r), s.listeners[k], |s.delivered|;
            && |t.delivered| == n + |xs| && t.delivered[..n] == s.delivered
            && (forall i :: n <= i < |t.delivered| ==>
                  t.delivered[i].sender == xs[i - n] && IsReplyFor(k, r, t.delivered[i].answer))
  {
    CompleteKeyEffect(s, k, r);
    hide CompleteKey;
  }

  /** The answer of a fetch that carries its own sender. */
  lemma OwnReplyAnswers(s: State, n: nat, r: Reply)
    requires n < |s.pending|
    ensures var told := PollFetch(s, n, Ready(r)).delivered;
            match s.pending[n]
            case FullBlockFetch(id, x) =>
              (match r.fullBlock
               case Ok(Some(block)) => told == s.delivered + [Delivery(x, FoundBlock(block))]
               case Ok(None) => told == s.delivered + [Delivery(x, Failed(BlockNotFound(id)))]
               case Err(e) => told == s.delivered + [Delivery(x, Failed(GetFullBlock(id, e)))])
            case TransactionFetch(h, x) =>
              (match r.transaction
               case Ok(transaction) => told == s.delivered + [Delivery(x, FoundTransaction(transaction))]
               case Err(e) => told == s.delivered + [Delivery(x, Failed(GetTransaction(h, e)))])
            case AnyFetch(x) => told == s.delivered + [Delivery(x, Other(r.other))]
            case _ => true
  {
    hide SwapRemove;
  }
}
