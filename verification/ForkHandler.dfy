/**
 The fork backend's request handler as the object it is in the source, with its three
 cache maps, three listener maps, vector of fetches and queue. Every method is proved
 against the state machine of ForkProtocol, so what is proved about runs holds of it.
 */
module ForkHandler {
  import opened Chain
  import opened Common
  import opened ForkProtocol
  import opened ForkInvariant
  import opened ForkPass

  // ---------- What the environment does during one call of poll ----------

  /**
   One turn of the loop: requests that arrive before the channel is drained, whether it is
   then closed, the polls that follow, and requests that arrive while the fetches are
   polled. The pass does not look at the channel, so these are put at its end; see
   `PassCommutesWithArrival`.
   */
  datatype Round = Round(arrivals: seq<Request>, closed: bool, polls: seq<Poll>, late: seq<Request>) {
    /** Nobody is left to send anything once the channel is closed. */
    function Late(): seq<Request> { if closed then [] else late }
  }

  function RoundAt(rounds: seq<Round>, i: nat): Round {
    if i < |rounds| then rounds[i] else Round([], false, [], [])
  }

  /** The same state with another channel. */
  function WithChannel(s: State, channel: seq<Request>, asked: map<Sender, Request>): State {
    s.(incoming := channel, asked := asked)
  }

  lemma ChannelAgain(s: State, t: State, u: State)
    requires t == WithChannel(s, t.incoming, t.asked) && u == WithChannel(t, u.incoming, u.asked)
    ensures u == WithChannel(s, u.incoming, u.asked)
  {
  }

  lemma StoreIgnoresChannel(s: State, q: seq<Request>, m: map<Sender, Request>, k: Key, v: Value)
    ensures Store(WithChannel(s, q, m), k, v) == WithChannel(Store(s, k, v), q, m)
  {
  }

  lemma NotifyIgnoresChannel(s: State, q: seq<Request>, m: map<Sender, Request>, k: Key, a: Answer)
    ensures Notify(WithChannel(s, q, m), k, a) == WithChannel(Notify(s, k, a), q, m)
  {
    hide Deliveries;
  }

  lemma CompletionIgnoresChannel(s: State, q: seq<Request>, m: map<Sender, Request>, k: Key, r: Reply)
    ensures CompleteKey(WithChannel(s, q, m), k, r) == WithChannel(CompleteKey(s, k, r), q, m)
  {
    var o := Outcome(k, r);
    if o.Ok? { StoreIgnoresChannel(s, q, m, k, o.value); }
    NotifyIgnoresChannel(if o.Ok? then Store(s, k, o.value) else s, q, m, k, KeyAnswer(k, r));
    hide Outcome, KeyAnswer, Store, Notify;
  }

  lemma PollIgnoresChannel(s: State, q: seq<Request>, m: map<Sender, Request>, n: nat, p: Poll)
    requires n < |s.pending|
    ensures PollFetch(WithChannel(s, q, m), n, p) == WithChannel(PollFetch(s, n, p), q, m)
  {
    var rest := s.(pending := SwapRemove(s.pending, n));
    assert WithChannel(s, q, m).(pending := SwapRemove(s.pending, n)) == WithChannel(rest, q, m);
    hide CompleteKey, OwnAnswer, Deliveries, SwapRemove;
    if p.Ready? && FetchKey(s.pending[n]).Some? {
      CompletionIgnoresChannel(rest, q, m, FetchKey(s.pending[n]).value, p.reply);
    }
  }

  lemma {:induction false} PassIgnoresChannel(s: State, q: seq<Request>, m: map<Sender, Request>, n: nat,
                                              polls: seq<Poll>)
    requires n <= |s.pending|
    ensures n <= |WithChannel(s, q, m).pending|
    ensures PollPass(WithChannel(s, q, m), n, polls) == WithChannel(PollPass(s, n, polls), q, m)
    ensures PollPass(s, n, polls).incoming == s.incoming && PollPass(s, n, polls).asked == s.asked
    decreases n
  {
    assert WithChannel(s, q, m).pending == s.pending;
    hide *;
    if n == 0 {
      EmptyPass(s, polls);
      EmptyPass(WithChannel(s, q, m), polls);
    } else {
      var k: nat := n - 1;
      var p := PollAt(polls, k);
      PollIgnoresChannel(s, q, m, k, p);
      PollFetchEffect(s, k, p);
      PassUnfolds(s, k, polls);
      PassUnfolds(WithChannel(s, q, m), k, polls);
      PassIgnoresChannel(PollFetch(s, k, p), q, m, k, polls);
    }
  }

  /** A request that arrives before a pass, or in the middle of one, might as well arrive after it. */
  lemma PassCommutesWithArrival(s: State, r: Request, n: nat, polls: seq<Poll>)
    requires n <= |s.pending|
    ensures n <= |Ask(s, r).pending| && PollPass(Ask(s, r), n, polls) == Ask(PollPass(s, n, polls), r)
  {
    var t := Ask(s, r);
    assert t == WithChannel(s, t.incoming, t.asked);
    PassIgnoresChannel(s, t.incoming, t.asked, n, polls);
    hide PollPass;
  }

  function SendersOf(r: Request): set<Sender> {
    if SenderOf(r).Some? then {SenderOf(r).value} else {}
  }

  /** Reply channels are new: none was used before and none is used twice. */
  predicate Fresh(seen: set<Sender>, rs: seq<Request>)
    decreases |rs|
  {
    rs == [] || (SendersOf(rs[0]) !! seen && Fresh(seen + SendersOf(rs[0]), rs[1..]))
  }

  function Arrivals(rounds: seq<Round>): seq<Request> {
    if rounds == [] then [] else rounds[0].arrivals + rounds[0].Late() + Arrivals(rounds[1..])
  }

  function AllSenders(rs: seq<Request>): set<Sender> {
    if rs == [] then {} else SendersOf(rs[0]) + AllSenders(rs[1..])
  }

  lemma {:induction false} FreshAppend(seen: set<Sender>, a: seq<Request>, b: seq<Request>)
    requires Fresh(seen, a + b)
    ensures Fresh(seen, a)
    ensures Fresh(seen + AllSenders(a), b)
    decreases |a|
  {
    if a == [] {
      assert a + b == b && seen + {} == seen;
    } else {
      assert (a + b)[1..] == a[1..] + b;
      FreshAppend(seen + SendersOf(a[0]), a[1..], b);
      assert seen + SendersOf(a[0]) + AllSenders(a[1..]) == seen + AllSenders(a);
    }
  }

  lemma NextArrival(seen: set<Sender>, arrivals: seq<Request>, i: nat)
    requires i < |arrivals| && Fresh(seen, arrivals[i..])
    ensures SendersOf(arrivals[i]) !! seen && Fresh(seen + SendersOf(arrivals[i]), arrivals[i + 1..])
    ensures arrivals[..i + 1] == arrivals[..i] + [arrivals[i]]
    ensures AllSenders(arrivals[..i + 1]) == AllSenders(arrivals[..i]) + SendersOf(arrivals[i])
  {
    assert arrivals[i..][0] == arrivals[i] && arrivals[i..][1..] == arrivals[i + 1..];
    AllSendersOfConcat(arrivals[..i], [arrivals[i]]);
    assert [arrivals[i]][1..] == [];
  }

  lemma {:induction false} AllSendersOfConcat(a: seq<Request>, b: seq<Request>)
    ensures AllSenders(a + b) == AllSenders(a) + AllSenders(b)
    decreases |a|
  {
    if a == [] {
      assert a + b == b;
    } else {
      assert (a + b)[1..] == a[1..] + b;
      AllSendersOfConcat(a[1..], b);
    }
  }

  /** What arrives from round `i` on. */
  function ArrivalsFrom(rounds: seq<Round>, i: nat): seq<Request> {
    if i < |rounds| then Arrivals(rounds[i..]) else []
  }

  lemma SplitArrivals(rounds: seq<Round>, i: nat)
    ensures ArrivalsFrom(rounds, i) ==
            RoundAt(rounds, i).arrivals + RoundAt(rounds, i).Late() + ArrivalsFrom(rounds, i + 1)
    ensures ArrivalsFrom(rounds, 0) == Arrivals(rounds)
  {
    if i < |rounds| { assert rounds[i..][1..] == rounds[i + 1..]; }
    assert rounds[0..] == rounds;
  }

  /** After the rounds given nothing more arrives. */
  lemma RoundIs(rounds: seq<Round>, i: nat)
    ensures i < |rounds| ==> RoundAt(rounds, i) == rounds[i]
    ensures i >= |rounds| ==>
              RoundAt(rounds, i).arrivals == [] && RoundAt(rounds, i).Late() == [] && !RoundAt(rounds, i).closed
  {
  }

  datatype Status = Pending | Closed

  /**
   One turn: the state it starts in, the one in which the fetches are polled, the one it ends in,
   and what is polled.
   */
  datatype Turn = Turn(start: State, taken: State, end: State, log: seq<Polling>)

  /**
   A turn loses no fetch on its way to the pass; unless the channel is closed, it polls
   every fetch there then is, once; and it keeps in the queue what it received before the
   pass and in the channel what arrived during it.
   */
  ghost predicate Turned(turn: Turn, round: Round) {
    && turn.start.pending <= turn.taken.pending
    && turn.taken.incoming == [] && turn.taken.queued == turn.start.incoming + round.arrivals
    && turn.end.incoming == round.Late() && turn.end.queued == turn.taken.queued
    && (if round.closed then turn.end == turn.taken && turn.log == []
        else
          && PassedOver(turn.taken, turn.end, round.polls)
          && LogsEach(turn.taken.pending, |turn.taken.pending|, round.polls, turn.log))
  }

  /** Turns that follow each other until one leaves the queue empty or finds the channel closed. */
  ghost predicate AreTurns(turns: seq<Turn>, rounds: seq<Round>) {
    && (forall i :: 0 <= i < |turns| ==> Turned(turns[i], RoundAt(rounds, i)))
    && (forall i :: 0 <= i < |turns| - 1 ==> Continues(turns[i], turns[i + 1], RoundAt(rounds, i)))
  }

  /** There is something to go on with after `turn`, and `next` does. */
  ghost predicate Continues(turn: Turn, next: Turn, round: Round) {
    CanContinue(turn, next.start, round)
  }

  ghost predicate CanContinue(turn: Turn, s: State, round: Round) {
    turn.end == s && s.queued != [] && !round.closed
  }

  lemma Continued(turn: Turn, next: Turn, round: Round)
    requires CanContinue(turn, next.start, round)
    ensures Continues(turn, next, round)
  {
  }

  lemma WillContinue(turn: Turn, s: State, round: Round)
    requires turn.end == s && s.queued != [] && !round.closed
    ensures CanContinue(turn, s, round)
  {
  }

  function AllLogs(turns: seq<Turn>): seq<Polling> {
    if turns == [] then [] else AllLogs(turns[..|turns| - 1]) + turns[|turns| - 1].log
  }

  lemma NothingYet(s: State, rounds: seq<Round>)
    ensures AreTurns([], rounds) && Log(s, []) == AllLogs([])
  {
  }

  lemma OneMoreTurn(turns: seq<Turn>, turn: Turn, rounds: seq<Round>)
    requires AreTurns(turns, rounds) && Turned(turn, RoundAt(rounds, |turns|))
    requires turns != [] ==> Continues(turns[|turns| - 1], turn, RoundAt(rounds, |turns| - 1))
    ensures AreTurns(turns + [turn], rounds) && AllLogs(turns + [turn]) == AllLogs(turns) + turn.log
  {
    hide AllLogs, Turned, Continues, RoundAt;
    LogsAddUp(turns, turn);
    var more, n := turns + [turn], |turns|;
    forall i | 0 <= i < |more| ensures Turned(more[i], RoundAt(rounds, i)) {
      if i < n { assert Turned(turns[i], RoundAt(rounds, i)); }
    }
    forall i | 0 <= i < n ensures Continues(more[i], more[i + 1], RoundAt(rounds, i)) {
      if i < n - 1 { assert Continues(turns[i], turns[i + 1], RoundAt(rounds, i)); }
    }
  }

  lemma LogsAddUp(turns: seq<Turn>, turn: Turn)
    ensures AllLogs(turns + [turn]) == AllLogs(turns) + turn.log
  {
    assert (turns + [turn])[..|turns|] == turns;
  }

  lemma NothingArrived(s: State, arrivals: seq<Request>)
    ensures arrivals[0..] == arrivals && arrivals[..0] == [] && AllSenders([]) == {}
    ensures IsRun(s, []) && Run(s, []) == s && NoPolls([])
  {
    hide Next, Enabled;
  }

  lemma NoPollAdded(es: seq<Event>, e: Event)
    requires NoPolls(es) && !e.PollOne?
    ensures NoPolls(es + [e])
  {
  }

  /** Requests only add fetches. */
  lemma RequestsAddFetches(s: State, r: Request)
    ensures s.pending <= ForkProtocol.OnRequest(s, r).pending
  {
    hide Lookup;
    match r
    case Basic(a, x) => LookupAddsFetches(s, AccountKey(a), x);
    case Storage(a, i, x) => LookupAddsFetches(s, StorageKey(a, i), x);
    case BlockHash(n, x) => LookupAddsFetches(s, BlockHashKey(n), x);
    case _ =>
  }

  lemma LookupAddsFetches(s: State, k: Key, x: Sender)
    ensures s.pending <= Lookup(s, k, x).pending
  {
    LookupIs(s, k, x);
    JoinEffect(s, k, x);
    hide Lookup, Join, Cached, FetchFor;
  }

  /** What arrives after the pass does not change what it did. */
  lemma LateChangesNothing(s: State, t: State, u: State, polls: seq<Poll>)
    requires PassedOver(s, t, polls) && u == WithChannel(t, u.incoming, u.asked)
    ensures PassedOver(s, u, polls)
  {
    hide PollAt, Unfinished, KeyAnswer, OwnAnswer, Outcome;
    assert u.delivered == t.delivered && u.completed == t.completed && u.pending == t.pending &&
           u.listeners == t.listeners;
    forall i | 0 <= i < |s.pending| && PollAt(polls, i).Ready?
      ensures Finished(s, u, s.pending[i], PollAt(polls, i).reply)
    {
      assert Finished(s, t, s.pending[i], PollAt(polls, i).reply);
    }
  }

  lemma OfInvariant(s: State)
    requires Invariant(s)
    ensures Coalesced(s)
  {
  }

  /** How a turn gets to its pass. */
  ghost predicate TakenIn(start: State, taken: State, arrivals: seq<Request>) {
    && start.pending <= taken.pending
    && taken.incoming == [] && taken.queued == start.incoming + arrivals
  }

  /** Nothing is late when the channel is closed. */
  lemma LateIs(round: Round)
    ensures round.Late() == if round.closed then [] else round.late
  {
  }

  lemma ClosedTurn(turn: Turn, round: Round)
    requires round.closed && TakenIn(turn.start, turn.taken, round.arrivals) && turn.end == turn.taken && turn.log == []
    ensures Turned(turn, round) && turn.end.incoming == round.Late() == []
  {
  }

  /** A turn with its pass, after which the requests of `round.late` arrived. */
  lemma OpenTurn(turn: Turn, round: Round, passed: State)
    requires !round.closed && TakenIn(turn.start, turn.taken, round.arrivals) && Coalesced(turn.taken)
    requires PassedOver(turn.taken, passed, round.polls)
    requires turn.end == WithChannel(passed, turn.end.incoming, turn.end.asked)
    requires turn.end.incoming == round.late && passed.queued == turn.taken.queued
    requires LogsEach(turn.taken.pending, |turn.taken.pending|, round.polls, turn.log)
    ensures Turned(turn, round) && round.Late() == round.late
  {
    hide PassedOver, LogsEach;
    LateChangesNothing(turn.taken, passed, turn.end, round.polls);
  }

  /** A run without polls, a pass, and a run without polls. */
  lemma JoinRuns(s: State, a: seq<Event>, taken: State, polls: seq<Poll>, passed: State, c: seq<Event>)
    requires IsRun(s, a) && Run(s, a) == taken && NoPolls(a)
    requires passed == PollPass(taken, |taken.pending|, polls) && IsRun(passed, c) && NoPolls(c)
    ensures var b := PassEvents(|taken.pending|, polls);
            && IsRun(s, a + b + c) && Run(s, a + b + c) == Run(passed, c)
            && LogsEach(taken.pending, |taken.pending|, polls, Log(s, a + b + c))
  {
    hide *;
    var b := PassEvents(|taken.pending|, polls);
    PassIsRun(taken, |taken.pending|, polls);
    LogOfPass(taken, |taken.pending|, polls);
    RunConcat(s, a, b);
    RunConcat(s, a + b, c);
    NothingLogged(s, a);
    NothingLogged(passed, c);
    LogOfConcat(s, a, b);
    LogOfConcat(s, a + b, c);
    assert Log(s, a + b + c) == Log(taken, b);
  }

  class BackendHandler {
    var accounts: map<Address, AccountInfo>
    var storage: map<Address, map<Slot, Word>>
    var blockHashes: map<BlockNumber, Hash>
    var pendingRequests: seq<Fetch>
    var accountRequests: map<Address, seq<Sender>>
    var storageRequests: map<(Address, Slot), seq<Sender>>
    var blockRequests: map<BlockNumber, seq<Sender>>
    var incoming: seq<Request>
    var queuedRequests: seq<Request>
    var blockId: Option<BlockId>
    /** Every answer sent so far. */
    var delivered: seq<Delivery>
    ghost var asked: map<Sender, Request>
    ghost var completed: seq<Completion>
    /** The three listener maps as one. */
    ghost var listeners: map<Key, seq<Sender>>

    ghost predicate Valid()
      reads this
    {
      && (forall a: Address :: a in accountRequests <==> AccountKey(a) in listeners)
      && (forall a: Address :: a in accountRequests ==> listeners[AccountKey(a)] == accountRequests[a])
      && (forall a: Address, i: Slot :: (a, i) in storageRequests <==> StorageKey(a, i) in listeners)
      && (forall a: Address, i: Slot :: (a, i) in storageRequests ==>
          listeners[StorageKey(a, i)] == storageRequests[(a, i)])
      && (forall n: BlockNumber :: n in blockRequests <==> BlockHashKey(n) in listeners)
      && (forall n: BlockNumber :: n in blockRequests ==> listeners[BlockHashKey(n)] == blockRequests[n])
    }

    ghost function Model(): State
      reads this
    {
      State(accounts, storage, blockHashes, pendingRequests, listeners,
            incoming, queuedRequests, blockId, asked, delivered, completed)
    }

    constructor (accounts: map<Address, AccountInfo>, storage: map<Address, map<Slot, Word>>,
                 blockHashes: map<BlockNumber, Hash>, blockId: Option<BlockId>)
      ensures Valid() && Initial(Model())
      ensures this.accounts == accounts && this.storage == storage && this.blockHashes == blockHashes &&
              this.blockId == blockId
    {
      this.accounts, this.storage, this.blockHashes, this.blockId := accounts, storage, blockHashes, blockId;
      pendingRequests, incoming, queuedRequests := [], [], [];
      accountRequests, storageRequests, blockRequests := map[], map[], map[];
      delivered, asked, completed, listeners := [], map[], [], map[];
    }

    method RequestAccount(address: Address, listener: Sender)
      requires Valid()
      modifies this
      ensures Valid() && Model() == Join(old(Model()), AccountKey(address), listener)
    {
      if address in accountRequests {
        accountRequests := accountRequests[address := accountRequests[address] + [listener]];
      } else {
        accountRequests := accountRequests[address := [listener]];
        pendingRequests := pendingRequests + [AccountFetch(address, blockId)];
      }
      listeners := listeners[AccountKey(address) := accountRequests[address]];
    }

    method RequestAccountStorage(address: Address, slot: Slot, listener: Sender)
      requires Valid()
      modifies this
      ensures Valid() && Model() == Join(old(Model()), StorageKey(address, slot), listener)
    {
      var key := (address, slot);
      if key in storageRequests {
        storageRequests := storageRequests[key := storageRequests[key] + [listener]];
      } else {
        storageRequests := storageRequests[key := [listener]];
        pendingRequests := pendingRequests + [StorageFetch(address, slot, blockId)];
      }
      listeners := listeners[StorageKey(address, slot) := storageRequests[key]];
    }

    method RequestHash(number: BlockNumber, listener: Sender)
      requires Valid()
      modifies this
      ensures Valid() && Model() == Join(old(Model()), BlockHashKey(number), listener)
    {
      if number in blockRequests {
        blockRequests := blockRequests[number := blockRequests[number] + [listener]];
      } else {
        blockRequests := blockRequests[number := [listener]];
        pendingRequests := pendingRequests + [BlockHashFetch(number)];
      }
      listeners := listeners[BlockHashKey(number) := blockRequests[number]];
    }

    method Send(sender: Sender, answer: Answer)
      modifies this`delivered
      ensures Model() == Deliver(old(Model()), [sender], answer)
    {
      delivered := delivered + [Delivery(sender, answer)];
    }

    // The three arms of `on_request` that answer from the cache or ask the provider.

    method OnBasic(address: Address, sender: Sender)
      requires Valid()
      modifies this
      ensures Valid() && Model() == Lookup(old(Model()), AccountKey(address), sender)
    {
      if address in accounts {
        Send(sender, Found(AccountValue(accounts[address])));
      } else {
        RequestAccount(address, sender);
      }
    }

    method OnStorage(address: Address, slot: Slot, sender: Sender)
      requires Valid()
      modifies this
      ensures Valid() && Model() == Lookup(old(Model()), StorageKey(address, slot), sender)
    {
      if address in storage && slot in storage[address] {
        Send(sender, Found(WordValue(storage[address][slot])));
      } else {
        RequestAccountStorage(address, slot, sender);
      }
    }

    method OnBlockHash(number: BlockNumber, sender: Sender)
      requires Valid()
      modifies this
      ensures Valid() && Model() == Lookup(old(Model()), BlockHashKey(number), sender)
    {
      if number in blockHashes {
        Send(sender, Found(HashValue(blockHashes[number])));
      } else {
        RequestHash(number, sender);
      }
    }

    method Fetch(fetch: Fetch)
      requires Valid()
      modifies this`pendingRequests
      ensures Valid() && Model() == old(Model()).(pending := old(Model()).pending + [fetch])
    {
      pendingRequests := pendingRequests + [fetch];
    }

    method OnRequest(req: Request)
      requires Valid()
      modifies this
      ensures Valid() && Model() == ForkProtocol.OnRequest(old(Model()), req)
    {
      hide Lookup, Join, Cached;
      match req
      case Basic(address, sender) => OnBasic(address, sender);
      case BlockHash(number, sender) => OnBlockHash(number, sender);
      case Storage(address, slot, sender) => OnStorage(address, slot, sender);
      case FullBlock(id, sender) => Fetch(FullBlockFetch(id, sender));
      case Transaction(hash, sender) => Fetch(TransactionFetch(hash, sender));
      case AnyRequest(sender) => Fetch(AnyFetch(sender));
      case _ => OnUpdate(req);
    }

    /** The arms of `on_request` that nobody waits for. */
    method OnUpdate(req: Request)
      requires Valid() && SenderOf(req).None?
      modifies this`blockId, this`accounts, this`storage, this`blockHashes
      ensures Valid() && Model() == ForkProtocol.OnRequest(old(Model()), req)
    {
      match req
      case SetPinnedBlock(id) => blockId := Some(id);
      case UpdateAddress(data) => accounts := InsertAll(accounts, data);
      case UpdateStorage(data) => storage := InsertAll(storage, data);
      case UpdateBlockHash(data) => blockHashes := InsertAll(blockHashes, data);
    }

    // ---------- Completing fetches ----------

    method SendAll(to: seq<Sender>, answer: Answer)
      modifies this`delivered
      ensures delivered == old(delivered) + Deliveries(to, answer)
    {
      for i := 0 to |to|
        invariant delivered == old(delivered) + Deliveries(to[..i], answer)
      {
        delivered := delivered + [Delivery(to[i], answer)];
        assert Deliveries(to[..i + 1], answer) == Deliveries(to[..i], answer) + [Delivery(to[i], answer)];
      }
      assert to[..|to|] == to;
    }

    method NotifyAccount(address: Address, answer: Answer)
      requires Valid()
      modifies this
      ensures Valid() && Model() == Notify(old(Model()), AccountKey(address), answer)
    {
      if address in accountRequests {
        SendAll(accountRequests[address], answer);
        accountRequests := accountRequests - {address};
        listeners := listeners - {AccountKey(address)};
      }
    }

    method FinishAccount(address: Address, reply: Reply)
      requires Valid()
      modifies this
      ensures Valid() && Model() == CompleteKey(old(Model()), AccountKey(address), reply)
    {
      match reply.account {
        case Err(cause) =>
          NotifyAccount(address, Failed(GetAccount(address, cause)));
        case Ok(raw) =>
          var codeHash := if raw.code == [] then KECCAK_EMPTY else raw.digest;
          var acc := AccountInfo(raw.balance, raw.nonce, raw.code, codeHash);
          accounts := accounts[address := acc];
          NotifyAccount(address, Found(AccountValue(acc)));
      }
      completed := completed + [Completion(AccountKey(address), reply.account.Ok?)];
    }

    method NotifyStorage(address: Address, slot: Slot, answer: Answer)
      requires Valid()
      modifies this
      ensures Valid() && Model() == Notify(old(Model()), StorageKey(address, slot), answer)
    {
      if (address, slot) in storageRequests {
        SendAll(storageRequests[(address, slot)], answer);
        storageRequests := storageRequests - {(address, slot)};
        listeners := listeners - {StorageKey(address, slot)};
      }
    }

    method FinishStorage(address: Address, slot: Slot, reply: Reply)
      requires Valid()
      modifies this
      ensures Valid() && Model() == CompleteKey(old(Model()), StorageKey(address, slot), reply)
    {
      match reply.word {
        case Err(cause) =>
          NotifyStorage(address, slot, Failed(GetStorage(address, slot, cause)));
        case Ok(word) =>
          storage := storage[address := (if address in storage then storage[address] else map[])[slot := word]];
          NotifyStorage(address, slot, Found(WordValue(word)));
      }
      completed := completed + [Completion(StorageKey(address, slot), reply.word.Ok?)];
    }

    method NotifyBlockHash(number: BlockNumber, answer: Answer)
      requires Valid()
      modifies this
      ensures Valid() && Model() == Notify(old(Model()), BlockHashKey(number), answer)
    {
      if number in blockRequests {
        SendAll(blockRequests[number], answer);
        blockRequests := blockRequests - {number};
        listeners := listeners - {BlockHashKey(number)};
      }
    }

    method FinishBlockHash(number: BlockNumber, reply: Reply)
      requires Valid()
      modifies this
      ensures Valid() && Model() == CompleteKey(old(Model()), BlockHashKey(number), reply)
    {
      match reply.blockHash {
        case Err(cause) =>
          NotifyBlockHash(number, Failed(GetBlockHash(number, cause)));
        case Ok(found) =>
          var hash := if found.Some? then found.value else KECCAK_EMPTY;
          blockHashes := blockHashes[number := hash];
          NotifyBlockHash(number, Found(HashValue(hash)));
      }
      completed := completed + [Completion(BlockHashKey(number), reply.blockHash.Ok?)];
    }

    method Finish(fetch: Fetch, reply: Reply)
      requires Valid()
      modifies this
      ensures Valid() && Model() == Complete(old(Model()), fetch, reply)
    {
      match fetch
      case AccountFetch(address, _) => FinishAccount(address, reply);
      case StorageFetch(address, slot, _) => FinishStorage(address, slot, reply);
      case BlockHashFetch(number) => FinishBlockHash(number, reply);
      case FullBlockFetch(id, sender) =>
        match reply.fullBlock {
          case Ok(Some(block)) => Send(sender, FoundBlock(block));
          case Ok(None) => Send(sender, Failed(BlockNotFound(id)));
          case Err(cause) => Send(sender, Failed(GetFullBlock(id, cause)));
        }
      case TransactionFetch(hash, sender) =>
        match reply.transaction {
          case Ok(transaction) => Send(sender, FoundTransaction(transaction));
          case Err(cause) => Send(sender, Failed(GetTransaction(hash, cause)));
        }
      case AnyFetch(sender) => Send(sender, Other(reply.other));
    }

    /** The body of the reverse loop over the fetches. */
    method PollAtIndex(n: nat, poll: Poll)
      requires Valid() && n < |pendingRequests|
      modifies this
      ensures Valid() && Model() == PollFetch(old(Model()), n, poll)
    {
      var request := pendingRequests[n];
      pendingRequests := SwapRemove(pendingRequests, n);
      match poll
      case NotReady => pendingRequests := pendingRequests + [request];
      case Ready(reply) => Finish(request, reply);
    }

    method PollPending(polls: seq<Poll>)
      requires Valid()
      modifies this
      ensures Valid() && Model() == PollPass(old(Model()), |old(pendingRequests)|, polls)
      ensures Coalesced(old(Model())) ==> PassedOver(old(Model()), Model(), polls)
      ensures queuedRequests == old(queuedRequests) && incoming == old(incoming) && asked == old(asked)
    {
      hide PollFetch;
      var n: nat := |pendingRequests|;
      if Coalesced(Model()) { PassIsComplete(Model(), polls); }
      hide PassedOver, Coalesced;
      ghost var goal := PollPass(Model(), n, polls);
      while n > 0
        invariant Valid() && n <= |pendingRequests|
        invariant PollPass(Model(), n, polls) == goal
        invariant queuedRequests == old(queuedRequests) && incoming == old(incoming) && asked == old(asked)
      {
        ghost var before := Model();
        n := n - 1;
        PollFetchEffect(before, n, PollAt(polls, n));
        PassUnfolds(before, n, polls);
        PollAtIndex(n, PollAt(polls, n));
      }
    }

    // ---------- One call of poll ----------

    /** Handles what is queued, oldest first, until nothing is. */
    method DrainQueue() returns (ghost events: seq<Event>)
      requires Valid()
      modifies this
      ensures Valid() && queuedRequests == [] && incoming == old(incoming) && asked == old(asked)
      ensures old(pendingRequests) <= pendingRequests
      ensures IsRun(old(Model()), events) && Run(old(Model()), events) == Model() && NoPolls(events)
    {
      events := [];
      while queuedRequests != []
        invariant Valid() && incoming == old(incoming) && asked == old(asked)
        invariant old(pendingRequests) <= pendingRequests && NoPolls(events)
        invariant IsRun(old(Model()), events) && Run(old(Model()), events) == Model()
        decreases |queuedRequests|
      {
        ghost var before := Model();
        var req := queuedRequests[0];
        queuedRequests := queuedRequests[1..];
        OnRequestEffect(Model(), req);
        RequestsAddFetches(Model(), req);
        OnRequest(req);
        RunSnoc(old(Model()), events, before, Handle);
        events := events + [Handle];
      }
    }

    /** The environment: a request arrives in the channel. */
    method ArriveOne(r: Request)
      requires Valid() && SendersOf(r) !! asked.Keys
      modifies this`incoming, this`asked
      ensures Valid() && incoming == old(incoming) + [r] && asked.Keys == old(asked).Keys + SendersOf(r)
      ensures Model() == WithChannel(old(Model()), incoming, asked)
      ensures Enabled(old(Model()), Submit(r)) && Model() == Next(old(Model()), Submit(r))
    {
      hide ForkProtocol.OnRequest, PollFetch;
      incoming := incoming + [r];
      asked := if SenderOf(r).Some? then asked[SenderOf(r).value := r] else asked;
    }

    method Arrive(arrivals: seq<Request>) returns (ghost events: seq<Event>)
      requires Valid() && Fresh(asked.Keys, arrivals)
      modifies this`incoming, this`asked
      ensures Valid() && incoming == old(incoming) + arrivals && Model() == WithChannel(old(Model()), incoming, asked)
      ensures asked.Keys == old(asked).Keys + AllSenders(arrivals)
      ensures IsRun(old(Model()), events) && Run(old(Model()), events) == Model() && NoPolls(events)
    {
      hide *;
      ghost var start := Model();
      events := [];
      var i := 0;
      NothingArrived(start, arrivals);
      ModelFields();
      while i < |arrivals|
        invariant i <= |arrivals| && Fresh(asked.Keys, arrivals[i..])
        invariant Valid() && incoming == old(incoming) + arrivals[..i]
        invariant Model() == WithChannel(start, incoming, asked)
        invariant asked.Keys == old(asked).Keys + AllSenders(arrivals[..i])
        invariant IsRun(start, events) && Run(start, events) == Model() && NoPolls(events)
      {
        ghost var before := Model();
        ModelFields();
        NextArrival(asked.Keys, arrivals, i);
        ArriveOne(arrivals[i]);
        ModelFields();
        ChannelAgain(start, before, Model());
        RunSnoc(start, events, before, Submit(arrivals[i]));
        NoPollAdded(events, Submit(arrivals[i]));
        events := events + [Submit(arrivals[i])];
        i := i + 1;
      }
      assert arrivals[..i] == arrivals;
    }

    /** Moves everything in the channel to the queue. */
    method ReceiveAll() returns (ghost events: seq<Event>)
      requires Valid()
      modifies this`incoming, this`queuedRequests
      ensures Valid() && incoming == [] && queuedRequests == old(queuedRequests + incoming)
      ensures IsRun(old(Model()), events) && Run(old(Model()), events) == Model() && NoPolls(events)
    {
      events := [];
      while incoming != []
        invariant Valid() && queuedRequests + incoming == old(queuedRequests + incoming)
        invariant IsRun(old(Model()), events) && Run(old(Model()), events) == Model() && NoPolls(events)
        decreases |incoming|
      {
        ghost var before := Model();
        queuedRequests := queuedRequests + [incoming[0]];
        incoming := incoming[1..];
        RunSnoc(old(Model()), events, before, Receive);
        events := events + [Receive];
      }
    }

    /** The first part of a turn: handle the queue, then move the channel to it. */
    method TakeIn(arrivals: seq<Request>) returns (ghost events: seq<Event>)
      requires Valid() && Fresh(asked.Keys, arrivals)
      modifies this
      ensures Valid() && asked.Keys == old(asked).Keys + AllSenders(arrivals)
      ensures incoming == [] && queuedRequests == old(incoming) + arrivals
      ensures TakenIn(old(Model()), Model(), arrivals)
      ensures IsRun(old(Model()), events) && Run(old(Model()), events) == Model() && NoPolls(events)
    {
      ghost var start := Model();
      ghost var more;
      events := DrainQueue();
      more := Arrive(arrivals);
      RunConcat(start, events, more);
      events := events + more;
      more := ReceiveAll();
      RunConcat(start, events, more);
      events := events + more;
    }

    /** One turn of the loop of `poll`; a closed channel ends it before the fetches. */
    method PollTurn(round: Round) returns (ghost turn: Turn, ghost events: seq<Event>)
      requires Valid() && Invariant(Model()) && Fresh(asked.Keys, round.arrivals + round.Late())
      modifies this
      ensures Valid() && asked.Keys == old(asked).Keys + AllSenders(round.arrivals + round.Late())
      ensures incoming == round.Late() && queuedRequests == old(incoming) + round.arrivals
      ensures turn.start == old(Model()) && turn.end == Model() && Turned(turn, round)
      ensures IsRun(old(Model()), events) && Run(old(Model()), events) == Model() &&
              Log(old(Model()), events) == turn.log
    {
      ghost var start := Model();
      hide *;
      FreshAppend(asked.Keys, round.arrivals, round.Late());
      AllSendersOfConcat(round.arrivals, round.Late());
      LateIs(round);
      events := TakeIn(round.arrivals);
      ghost var taken := Model();
      ModelFields();
      turn := Turn(start, taken, taken, []);
      if round.closed {
        NothingLogged(start, events);
        ClosedTurn(turn, round);
        assert round.arrivals + round.Late() == round.arrivals;
        return;
      }
      RunKeepsInvariant(start, events);
      OfInvariant(taken);
      PollPending(round.polls);
      ghost var passed := Model();
      ModelFields();
      ghost var more := Arrive(round.late);
      ModelFields();
      JoinRuns(start, events, taken, round.polls, passed, more);
      events := events + PassEvents(|taken.pending|, round.polls) + more;
      turn := Turn(start, taken, Model(), Log(start, events));
      OpenTurn(turn, round, passed);
    }

    lemma ModelFields()
      ensures Model().pending == pendingRequests && Model().incoming == incoming && Model().queued == queuedRequests
      ensures Model().asked == asked && Model() == WithChannel(Model(), incoming, asked)
    {
    }

    lemma EverybodyFound()
      requires Invariant(Model()) && queuedRequests == []
      ensures forall x :: x in asked ==> AnsweredOrAttached(Model(), x) || InTheChannel(Model(), x)
    {
      forall x | x in asked ensures AnsweredOrAttached(Model(), x) || InTheChannel(Model(), x) {
        NobodyForgotten(Model(), x);
      }
    }

    /**
     One call of `poll`: queue, channel and fetches in turn, until a turn leaves the queue
     empty. Every turn polls every fetch there is, once. When `poll` reports that it is
     pending, left are exactly the fetches that the last turn polled not ready, the channel
     holds only what arrived during that pass, and every other sender ever received is
     answered or attached to a fetch in progress. When the channel is closed it returns at
     once, whatever is still queued.
     */
    method Poll(rounds: seq<Round>) returns (status: Status, ghost turns: seq<Turn>, ghost events: seq<Event>)
      requires Valid() && Invariant(Model()) && Fresh(asked.Keys, Arrivals(rounds))
      modifies this
      ensures Valid() && Invariant(Model())
      ensures IsRun(old(Model()), events) && Run(old(Model()), events) == Model()
      ensures AreTurns(turns, rounds) && turns != [] && Log(old(Model()), events) == AllLogs(turns)
      ensures turns[0].start == old(Model()) && turns[|turns| - 1].end == Model()
      ensures status.Pending? <==> !RoundAt(rounds, |turns| - 1).closed
      ensures status.Pending? ==> queuedRequests == []
      ensures status.Pending? ==> forall x :: x in asked ==> AnsweredOrAttached(Model(), x) || InTheChannel(Model(), x)
      ensures status.Closed? ==> exists i :: 0 <= i < |rounds| && rounds[i].closed
    {
      ghost var start := Model();
      hide *;
      turns, events := [], [];
      var i := 0;
      RunOfNone(start);
      NothingYet(start, rounds);
      SplitArrivals(rounds, 0);
      while true
        invariant 0 <= i && Valid() && Invariant(Model())
        invariant Fresh(asked.Keys, ArrivalsFrom(rounds, i))
        invariant IsRun(start, events) && Run(start, events) == Model()
        invariant |turns| == i && AreTurns(turns, rounds) && Log(start, events) == AllLogs(turns)
        invariant i == 0 ==> Model() == start
        invariant i > 0 ==> turns[0].start == start && CanContinue(turns[i - 1], Model(), RoundAt(rounds, i - 1))
        decreases if i < |rounds| then |rounds| - i else 0, |queuedRequests| + |incoming|, |incoming|
      {
        var round := RoundAt(rounds, i);
        SplitArrivals(rounds, i);
        RoundIs(rounds, i);
        FreshAppend(asked.Keys, round.arrivals + round.Late(), ArrivalsFrom(rounds, i + 1));
        ghost var before := Model();
        ghost var turn, more := PollTurn(round);
        RunConcat(start, events, more);
        LogOfConcat(start, events, more);
        if i > 0 { Continued(turns[i - 1], turn, RoundAt(rounds, i - 1)); }
        OneMoreTurn(turns, turn, rounds);
        events := events + more;
        turns := turns + [turn];
        RunKeepsInvariant(start, events);
        ModelFields();
        if round.closed { return Closed, turns, events; }
        if queuedRequests == [] {
          EverybodyFound();
          return Pending, turns, events;
        }
        WillContinue(turn, Model(), round);
        i := i + 1;
      }
    }
  }

  /** The update loops: every pair of `data` is inserted, in whatever order. */
  method InsertAll<K, V>(m: map<K, V>, data: map<K, V>) returns (r: map<K, V>)
    ensures r == m + data
  {
    r := m;
    var todo := data.Keys;
    while todo != {}
      invariant todo <= data.Keys
      invariant r == m + (map k | k in data.Keys - todo :: data[k])
    {
      var k :| k in todo;
      r := r[k := data[k]];
      todo := todo - {k};
    }
    assert (map k | k in data.Keys - todo :: data[k]) == data;
  }
}
