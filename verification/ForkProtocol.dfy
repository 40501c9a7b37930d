/**
 The fork backend's request handler as a state machine over values
 (crates/fork-db/src/backend.rs).

 Clients send requests over a channel. The handler queues them, answers what it can
 from its cache and otherwise attaches the client's one-shot sender to a provider fetch,
 at most one fetch per account, slot or block number. A fetch that is polled ready
 updates the cache and answers everybody attached to it.

 The provider is an oracle: polling a fetch is a step whose result is part of the step.
 */
module ForkProtocol {
  import opened Chain
  import opened Common

  type BlockNumber = nat
  type BlockId = nat
  /** The identity of a one-shot reply channel. */
  type Sender = nat

  /** A provider result; the error is the provider's report. */
  type Fetched<+T> = Result<T, nat>

  /** What the provider returns for an account; `digest` stands for keccak256(code). */
  datatype RawAccount = RawAccount(balance: Word, nonce: nat, code: seq<nat>, digest: Hash)
  datatype AccountInfo = AccountInfo(balance: Word, nonce: nat, code: seq<nat>, codeHash: Hash)

  /** What a cache entry and a listener list are keyed by. */
  datatype Key =
    | AccountKey(address: Address)
    | StorageKey(address: Address, slot: Slot)
    | BlockHashKey(number: BlockNumber)
  datatype Value = AccountValue(info: AccountInfo) | WordValue(word: Word) | HashValue(hash: Hash)

  datatype Request =
    | Basic(address: Address, sender: Sender)
    | Storage(address: Address, slot: Slot, sender: Sender)
    | BlockHash(number: BlockNumber, sender: Sender)
    | FullBlock(id: BlockId, sender: Sender)
    | Transaction(hash: Hash, sender: Sender)
    | SetPinnedBlock(id: BlockId)
    | UpdateAddress(accounts: map<Address, AccountInfo>)
    | UpdateStorage(slots: map<Address, map<Slot, Word>>)
    | UpdateBlockHash(hashes: map<BlockNumber, Hash>)
    | AnyRequest(sender: Sender)

  /** A provider call in progress. Account and storage calls fix the block at creation. */
  datatype Fetch =
    | AccountFetch(address: Address, block: Option<BlockId>)
    | StorageFetch(address: Address, slot: Slot, block: Option<BlockId>)
    | BlockHashFetch(number: BlockNumber)
    | FullBlockFetch(id: BlockId, sender: Sender)
    | TransactionFetch(hash: Hash, sender: Sender)
    | AnyFetch(sender: Sender)

  /** What a ready fetch returns: each kind of fetch reads the component of its own kind. */
  datatype Reply = Reply(
    account: Fetched<RawAccount>,
    word: Fetched<Word>,
    blockHash: Fetched<Option<Hash>>,
    fullBlock: Fetched<Option<nat>>,
    transaction: Fetched<nat>,
    other: nat)

  datatype Poll = NotReady | Ready(reply: Reply)

  datatype DatabaseError =
    | GetAccount(address: Address, cause: nat)
    | GetStorage(address: Address, slot: Slot, cause: nat)
    | GetBlockHash(number: BlockNumber, cause: nat)
    | BlockNotFound(id: BlockId)
    | GetFullBlock(id: BlockId, cause: nat)
    | GetTransaction(hash: Hash, cause: nat)

  datatype Answer =
    | Found(value: Value)
    | FoundBlock(block: nat)
    | FoundTransaction(transaction: nat)
    | Other(other: nat)
    | Failed(error: DatabaseError)

  datatype Delivery = Delivery(sender: Sender, answer: Answer)
  datatype Completion = Completion(key: Key, success: bool)

  /**
   The handler's fields, the channel's contents (`incoming`), and three histories:
   what each sender asked, every answer sent, and every completed keyed fetch.
   The handler's three listener maps are one map here, since their key types are disjoint.
   */
  datatype State = State(
    accounts: map<Address, AccountInfo>,
    storage: map<Address, map<Slot, Word>>,
    blockHashes: map<BlockNumber, Hash>,
    pending: seq<Fetch>,
    listeners: map<Key, seq<Sender>>,
    incoming: seq<Request>,
    queued: seq<Request>,
    blockId: Option<BlockId>,
    asked: map<Sender, Request>,
    delivered: seq<Delivery>,
    completed: seq<Completion>)

  // ---------- Views of requests and fetches ----------

  function SenderOf(r: Request): Option<Sender> {
    match r
    case Basic(_, x) => Some(x)
    case Storage(_, _, x) => Some(x)
    case BlockHash(_, x) => Some(x)
    case FullBlock(_, x) => Some(x)
    case Transaction(_, x) => Some(x)
    case AnyRequest(x) => Some(x)
    case _ => None
  }

  function KeyOf(r: Request): Option<Key> {
    match r
    case Basic(a, _) => Some(AccountKey(a))
    case Storage(a, i, _) => Some(StorageKey(a, i))
    case BlockHash(n, _) => Some(BlockHashKey(n))
    case _ => None
  }

  function FetchKey(f: Fetch): Option<Key> {
    match f
    case AccountFetch(a, _) => Some(AccountKey(a))
    case StorageFetch(a, i, _) => Some(StorageKey(a, i))
    case BlockHashFetch(n) => Some(BlockHashKey(n))
    case _ => None
  }

  function FetchSender(f: Fetch): Option<Sender> {
    match f
    case FullBlockFetch(_, x) => Some(x)
    case TransactionFetch(_, x) => Some(x)
    case AnyFetch(x) => Some(x)
    case _ => None
  }

  function FetchFor(k: Key, block: Option<BlockId>): Fetch {
    match k
    case AccountKey(a) => AccountFetch(a, block)
    case StorageKey(a, i) => StorageFetch(a, i, block)
    case BlockHashKey(n) => BlockHashFetch(n)
  }

  // ---------- Views of the state ----------

  function Cached(s: State, k: Key): Option<Value> {
    match k
    case AccountKey(a) => if a in s.accounts then Some(AccountValue(s.accounts[a])) else None
    case StorageKey(a, i) =>
      if a in s.storage && i in s.storage[a] then Some(WordValue(s.storage[a][i])) else None
    case BlockHashKey(n) => if n in s.blockHashes then Some(HashValue(s.blockHashes[n])) else None
  }

  predicate InFlight(s: State, k: Key) {
    exists i :: 0 <= i < |s.pending| && FetchKey(s.pending[i]) == Some(k)
  }

  // ---------- Updates of the state ----------

  function Store(s: State, k: Key, v: Value): (t: State)
    ensures t.pending == s.pending
  {
    match (k, v)
    case (AccountKey(a), AccountValue(info)) => s.(accounts := s.accounts[a := info])
    case (StorageKey(a, i), WordValue(w)) =>
      s.(storage := s.storage[a := (if a in s.storage then s.storage[a] else map[])[i := w]])
    case (BlockHashKey(n), HashValue(h)) => s.(blockHashes := s.blockHashes[n := h])
    case _ => s
  }

  function Deliveries(listeners: seq<Sender>, a: Answer): seq<Delivery> {
    seq(|listeners|, i requires 0 <= i < |listeners| => Delivery(listeners[i], a))
  }

  function Deliver(s: State, listeners: seq<Sender>, a: Answer): State {
    s.(delivered := s.delivered + Deliveries(listeners, a))
  }

  /** Removes the listener list of `k`, if any, and answers everybody on it. */
  function Notify(s: State, k: Key, a: Answer): (t: State)
    ensures t.pending == s.pending
  {
    if k in s.listeners then Deliver(s.(listeners := s.listeners - {k}), s.listeners[k], a) else s
  }

  // ---------- Handling a request ----------

  /** Attaches a listener to the fetch of `k`, starting the fetch if there is none. */
  function Join(s: State, k: Key, x: Sender): State {
    if k in s.listeners then
      s.(listeners := s.listeners[k := s.listeners[k] + [x]])
    else
      s.(listeners := s.listeners[k := [x]], pending := s.pending + [FetchFor(k, s.blockId)])
  }

  function Lookup(s: State, k: Key, x: Sender): State {
    match Cached(s, k)
    case Some(v) => Deliver(s, [x], Found(v))
    case None => Join(s, k, x)
  }

  function OnRequest(s: State, r: Request): State {
    match r
    case Basic(a, x) => Lookup(s, AccountKey(a), x)
    case Storage(a, i, x) => Lookup(s, StorageKey(a, i), x)
    case BlockHash(n, x) => Lookup(s, BlockHashKey(n), x)
    case FullBlock(id, x) => s.(pending := s.pending + [FullBlockFetch(id, x)])
    case Transaction(h, x) => s.(pending := s.pending + [TransactionFetch(h, x)])
    case AnyRequest(x) => s.(pending := s.pending + [AnyFetch(x)])
    case SetPinnedBlock(id) => s.(blockId := Some(id))
    case UpdateAddress(m) => s.(accounts := s.accounts + m)
    case UpdateStorage(m) => s.(storage := s.storage + m)
    case UpdateBlockHash(m) => s.(blockHashes := s.blockHashes + m)
  }

  // ---------- Completing a fetch ----------

  function ToAccountInfo(raw: RawAccount): AccountInfo {
    AccountInfo(raw.balance, raw.nonce, raw.code, if raw.code == [] then KECCAK_EMPTY else raw.digest)
  }

  function Outcome(k: Key, r: Reply): Fetched<Value> {
    match k
    case AccountKey(_) =>
      (match r.account case Ok(raw) => Ok(AccountValue(ToAccountInfo(raw))) case Err(e) => Err(e))
    case StorageKey(_, _) =>
      (match r.word case Ok(w) => Ok(WordValue(w)) case Err(e) => Err(e))
    case BlockHashKey(_) =>
      (match r.blockHash
       case Ok(Some(h)) => Ok(HashValue(h))
       case Ok(None) => Ok(HashValue(KECCAK_EMPTY))
       case Err(e) => Err(e))
  }

  function KeyError(k: Key, cause: nat): DatabaseError {
    match k
    case AccountKey(a) => GetAccount(a, cause)
    case StorageKey(a, i) => GetStorage(a, i, cause)
    case BlockHashKey(n) => GetBlockHash(n, cause)
  }

  /** What everybody waiting for `k` is told. */
  function KeyAnswer(k: Key, r: Reply): Answer {
    match Outcome(k, r)
    case Ok(v) => Found(v)
    case Err(e) => Failed(KeyError(k, e))
  }

  function CompleteKey(s: State, k: Key, r: Reply): (t: State)
    ensures t.pending == s.pending
  {
    var o := Outcome(k, r);
    var t := if o.Ok? then Store(s, k, o.value) else s;
    Notify(t, k, KeyAnswer(k, r)).(completed := s.completed + [Completion(k, o.Ok?)])
  }

  /** The answer of a fetch that carries its own sender. */
  function OwnAnswer(f: Fetch, r: Reply): Answer {
    match f
    case FullBlockFetch(id, _) =>
      (match r.fullBlock
       case Ok(Some(b)) => FoundBlock(b)
       case Ok(None) => Failed(BlockNotFound(id))
       case Err(e) => Failed(GetFullBlock(id, e)))
    case TransactionFetch(h, _) =>
      (match r.transaction case Ok(t) => FoundTransaction(t) case Err(e) => Failed(GetTransaction(h, e)))
    case _ => Other(r.other)
  }

  function Complete(s: State, f: Fetch, r: Reply): (t: State)
    ensures t.pending == s.pending
  {
    match FetchKey(f)
    case Some(k) => CompleteKey(s, k, r)
    case None =>
      match FetchSender(f)
      case Some(x) => Deliver(s, [x], OwnAnswer(f, r))
      case None => s
  }

  /** `Vec::swap_remove`: the last element takes the place of the removed one. */
  function SwapRemove<T>(v: seq<T>, n: nat): (w: seq<T>)
    requires n < |v|
    ensures |w| == |v| - 1
    ensures forall i :: 0 <= i < |w| ==> w[i] == if i == n then v[|v| - 1] else v[i]
  {
    var last := |v| - 1;
    if n == last then v[..last] else v[..last][n := v[last]]
  }

  /** One iteration of the loop over the fetches in progress. */
  function PollFetch(s: State, n: nat, p: Poll): (t: State)
    requires n < |s.pending|
    ensures n <= |t.pending|
  {
    var f := s.pending[n];
    var rest := s.(pending := SwapRemove(s.pending, n));
    match p
    case NotReady => rest.(pending := rest.pending + [f])
    case Ready(r) => Complete(rest, f, r)
  }

  // ---------- Runs ----------

  datatype Event =
    | Submit(request: Request)        // a client puts a request into the channel
    | Receive                         // the handler moves a request to its queue
    | Handle                          // the handler takes a request from its queue
    | PollOne(index: nat, poll: Poll) // the handler polls one fetch

  /** Every reply channel is created for one request. */
  predicate Enabled(s: State, e: Event) {
    match e
    case Submit(r) => SenderOf(r).Some? ==> SenderOf(r).value !in s.asked
    case Receive => s.incoming != []
    case Handle => s.queued != []
    case PollOne(n, _) => n < |s.pending|
  }

  function Ask(s: State, r: Request): State {
    var t := s.(incoming := s.incoming + [r]);
    match SenderOf(r)
    case Some(x) => t.(asked := s.asked[x := r])
    case None => t
  }

  function Next(s: State, e: Event): State
    requires Enabled(s, e)
  {
    match e
    case Submit(r) => Ask(s, r)
    case Receive => s.(incoming := s.incoming[1..], queued := s.queued + [s.incoming[0]])
    case Handle => OnRequest(s.(queued := s.queued[1..]), s.queued[0])
    case PollOne(n, p) => PollFetch(s, n, p)
  }

  predicate IsRun(s: State, es: seq<Event>)
    decreases |es|
  {
    es == [] || (Enabled(s, es[0]) && IsRun(Next(s, es[0]), es[1..]))
  }

  function Run(s: State, es: seq<Event>): State
    requires IsRun(s, es)
    decreases |es|
  {
    if es == [] then s else Run(Next(s, es[0]), es[1..])
  }

  /** A new handler over a cache that may already hold data. */
  predicate Initial(s: State) {
    && s.pending == [] && s.incoming == [] && s.queued == []
    && s.listeners == map[]
    && s.asked == map[] && s.delivered == [] && s.completed == []
  }
}
