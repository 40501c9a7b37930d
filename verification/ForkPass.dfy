/**
 One pass of the handler over the fetches in progress: the reverse swap-remove loop on the
 vector, what it polls and leaves, and whom it answers.
 */
module ForkPass {
  import opened Chain
  import opened Common
  import opened ForkProtocol
  import opened ForkInvariant

  // ---------- One pass over the fetches ----------

  function PollAt(polls: seq<Poll>, n: nat): Poll {
    if n < |polls| then polls[n] else NotReady
  }

  /** Polling indices n-1 down to 0, as the source's reverse loop does. */
  function PollPass(s: State, n: nat, polls: seq<Poll>): State
    requires n <= |s.pending|
    decreases n
  {
    if n == 0 then s else PollPass(PollFetch(s, n - 1, PollAt(polls, n - 1)), n - 1, polls)
  }

  // The same pass on the vector alone.

  /** One iteration: the fetch at `n` is taken out and, if its poll is not ready, pushed back. */
  function VectorStep<T>(v: seq<T>, n: nat, p: Poll): seq<T>
    requires n < |v|
  {
    SwapRemove(v, n) + (if p.NotReady? then [v[n]] else [])
  }

  function VectorPass<T>(v: seq<T>, n: nat, polls: seq<Poll>): seq<T>
    requires n <= |v|
    decreases n
  {
    if n == 0 then v else VectorPass(VectorStep(v, n - 1, PollAt(polls, n - 1)), n - 1, polls)
  }

  /** What the pass polls, in the order it polls it. */
  function Polled<T>(v: seq<T>, n: nat, polls: seq<Poll>): seq<T>
    requires n <= |v|
    decreases n
  {
    if n == 0 then [] else [v[n - 1]] + Polled(VectorStep(v, n - 1, PollAt(polls, n - 1)), n - 1, polls)
  }

  /** The first `n` elements of `v` that their poll leaves unfinished. */
  function Unfinished<T>(v: seq<T>, n: nat, polls: seq<Poll>): seq<T>
    requires n <= |v|
  {
    if n == 0 then []
    else Unfinished(v, n - 1, polls) + (if PollAt(polls, n - 1).NotReady? then [v[n - 1]] else [])
  }

  lemma PollFetchOnPending(s: State, n: nat, p: Poll)
    requires n < |s.pending|
    ensures PollFetch(s, n, p).pending == VectorStep(s.pending, n, p)
  {
    if p.Ready? && FetchKey(s.pending[n]).Some? {
      CompleteKeyEffect(s.(pending := SwapRemove(s.pending, n)), FetchKey(s.pending[n]).value, p.reply);
    }
  }

  lemma {:induction false} PassOnPending(s: State, n: nat, polls: seq<Poll>)
    requires n <= |s.pending|
    ensures PollPass(s, n, polls).pending == VectorPass(s.pending, n, polls)
    decreases n
  {
    if n == 0 {
      EmptyPass(s, polls);
    } else {
      var k: nat := n - 1;
      PollFetchOnPending(s, k, PollAt(polls, k));
      assert VectorPass(s.pending, k + 1, polls) == VectorPass(VectorStep(s.pending, k, PollAt(polls, k)), k, polls);
      hide *;
      PassUnfolds(s, k, polls);
      PassOnPending(PollFetch(s, k, PollAt(polls, k)), k, polls);
    }
  }

  /** One iteration leaves what is below its index in place, and loses nothing above it. */
  lemma VectorStepBelow<T>(v: seq<T>, n: nat, p: Poll)
    requires n < |v|
    ensures var w := VectorStep(v, n, p);
            && n <= |w| && w[..n] == v[..n]
            && multiset(w[n..]) == multiset(v[n + 1..]) + multiset(if p.NotReady? then [v[n]] else [])
  {
    var rest := SwapRemove(v, n);
    var own := if p.NotReady? then [v[n]] else [];
    SwapRemoveBelow(v, n);
    hide SwapRemove;
    assert (rest + own)[n..] == rest[n..] + own && (rest + own)[..n] == rest[..n];
  }

  /** What is below the removed element stays, and what is above is only moved. */
  lemma SwapRemoveBelow<T>(v: seq<T>, n: nat)
    requires n < |v|
    ensures SwapRemove(v, n)[..n] == v[..n] && multiset(SwapRemove(v, n)[n..]) == multiset(v[n + 1..])
  {
    var rest, last := SwapRemove(v, n), |v| - 1;
    if n < last {
      var middle := v[n + 1..last];
      assert v[n + 1..] == middle + [v[last]];
      assert rest[n..] == [v[last]] + middle;
      hide SwapRemove;
    }
  }

  lemma {:induction false} UnfinishedOfPrefix<T>(v: seq<T>, w: seq<T>, n: nat, polls: seq<Poll>)
    requires n <= |v| && n <= |w| && v[..n] == w[..n]
    ensures Unfinished(v, n, polls) == Unfinished(w, n, polls)
  {
    if n > 0 {
      assert v[..n - 1] == v[..n][..n - 1] && w[..n - 1] == w[..n][..n - 1];
      assert v[n - 1] == v[..n][n - 1] && w[n - 1] == w[..n][n - 1];
      UnfinishedOfPrefix(v, w, n - 1, polls);
    }
  }

  /**
   Reverse swap-remove polling is fair: although removals and pushes permute the vector,
   the iteration at index i polls what was at index i when the pass began, so everything
   pending at the start is polled exactly once, and with the poll meant for it.
   */
  lemma {:induction false} PassPollsEachOnce<T>(v: seq<T>, n: nat, polls: seq<Poll>)
    requires n <= |v|
    ensures |Polled(v, n, polls)| == n
    ensures forall i :: 0 <= i < n ==> Polled(v, n, polls)[i] == v[n - 1 - i]
    decreases n
  {
    if n > 0 {
      var m := n - 1;
      var w := VectorStep(v, m, PollAt(polls, m));
      var rest := Polled(w, m, polls);
      assert Polled(v, n, polls) == [v[m]] + rest;
      assert forall i :: 0 <= i < m ==> w[i] == v[i] by { VectorStepBelow(v, m, PollAt(polls, m)); }
      assert |rest| == m && forall i :: 0 <= i < m ==> rest[i] == w[m - 1 - i] by { PassPollsEachOnce(w, m, polls); }
    }
  }

  /** As a multiset, a pass leaves exactly what its poll left unfinished. */
  lemma {:induction false} PassLeavesUnfinished<T>(v: seq<T>, n: nat, polls: seq<Poll>)
    requires n <= |v|
    ensures multiset(VectorPass(v, n, polls)) == multiset(Unfinished(v, n, polls)) + multiset(v[n..])
    decreases n
  {
    if n == 0 {
      assert v[0..] == v;
    } else {
      var m := n - 1;
      var w := VectorStep(v, m, PollAt(polls, m));
      var own := if PollAt(polls, m).NotReady? then [v[m]] else [];
      assert VectorPass(v, n, polls) == VectorPass(w, m, polls);
      assert Unfinished(v, n, polls) == Unfinished(v, m, polls) + own;
      VectorStepBelow(v, m, PollAt(polls, m));
      assert Unfinished(w, m, polls) == Unfinished(v, m, polls) by { UnfinishedOfPrefix(w, v, m, polls); }
      PassLeavesUnfinished(w, m, polls);
    }
  }

  lemma RunOfNone(s: State)
    ensures IsRun(s, []) && Run(s, []) == s
  {
    hide Next, Enabled;
  }

  lemma EmptyPass(s: State, polls: seq<Poll>)
    ensures PollPass(s, 0, polls) == s
  {
    hide PollFetch;
  }

  lemma PassUnfolds(s: State, n: nat, polls: seq<Poll>)
    requires n < |s.pending|
    ensures n <= |PollFetch(s, n, PollAt(polls, n)).pending|
    ensures PollPass(s, n + 1, polls) == PollPass(PollFetch(s, n, PollAt(polls, n)), n, polls)
  {
    PollFetchEffect(s, n, PollAt(polls, n));
  }

  lemma PollFetchEffect(s: State, n: nat, p: Poll)
    requires n < |s.pending|
    ensures var t := PollFetch(s, n, p);
            t.incoming == s.incoming && t.queued == s.queued && t.asked == s.asked && n <= |t.pending|
  {
    PollFetchOnPending(s, n, p);
    if p.Ready? && FetchKey(s.pending[n]).Some? {
      CompleteKeyEffect(s.(pending := SwapRemove(s.pending, n)), FetchKey(s.pending[n]).value, p.reply);
    }
  }

  // ---------- Runs that grow at the end ----------

  lemma RunOne(s: State, e: Event)
    requires Enabled(s, e)
    ensures IsRun(s, [e]) && Run(s, [e]) == Next(s, e)
  {
    hide Next, Enabled;
    assert [e][1..] == [];
    assert IsRun(Next(s, e), []);
  }

  /** Extends a run by one step. */
  lemma RunSnoc(s: State, es: seq<Event>, t: State, e: Event)
    requires IsRun(s, es) && Run(s, es) == t && Enabled(t, e)
    ensures IsRun(s, es + [e]) && Run(s, es + [e]) == Next(t, e)
  {
    hide *;
    RunOne(t, e);
    RunConcat(s, es, [e]);
  }

  function PassEvents(n: nat, polls: seq<Poll>): seq<Event> {
    if n == 0 then [] else [PollOne(n - 1, PollAt(polls, n - 1))] + PassEvents(n - 1, polls)
  }

  /** A pass is a run of the state machine, one step per iteration. */
  lemma {:induction false} PassIsRun(s: State, n: nat, polls: seq<Poll>)
    requires n <= |s.pending|
    ensures IsRun(s, PassEvents(n, polls)) && Run(s, PassEvents(n, polls)) == PollPass(s, n, polls)
    decreases n
  {
    if n == 0 {
      hide PollFetch;
    } else {
      var k: nat := n - 1;
      var p := PollAt(polls, k);
      var t := PollFetch(s, k, p);
      var rest := PassEvents(k, polls);
      assert PassEvents(n, polls) == [PollOne(k, p)] + rest;
      assert Enabled(s, PollOne(k, p)) && Next(s, PollOne(k, p)) == t by { hide PollFetch; }
      hide *;
      PassUnfolds(s, k, polls);
      RunOne(s, PollOne(k, p));
      PassIsRun(t, k, polls);
      RunConcat(s, [PollOne(k, p)], rest);
    }
  }

  // ---------- What a pass does ----------

  /** What one poll of `f` tells whoever waits for it. */
  function Told(f: Fetch, listeners: map<Key, seq<Sender>>, p: Poll): seq<Delivery> {
    if p.NotReady? then []
    else if FetchKey(f).Some? then
      var k := FetchKey(f).value;
      Deliveries(if k in listeners then listeners[k] else [], KeyAnswer(k, p.reply))
    else [Delivery(FetchSender(f).value, OwnAnswer(f, p.reply))]
  }

  function StillListening(f: Fetch, listeners: map<Key, seq<Sender>>, p: Poll): map<Key, seq<Sender>> {
    if p.Ready? && FetchKey(f).Some? then listeners - {FetchKey(f).value} else listeners
  }

  function Recorded(f: Fetch, p: Poll): seq<Completion> {
    if p.Ready? && FetchKey(f).Some? then
      [Completion(FetchKey(f).value, Outcome(FetchKey(f).value, p.reply).Ok?)]
    else []
  }

  /** What a pass over `v` tells, last fetch first. */
  function AllTold(v: seq<Fetch>, listeners: map<Key, seq<Sender>>, polls: seq<Poll>): seq<Delivery>
    decreases |v|
  {
    if v == [] then []
    else
      var n := |v| - 1;
      Told(v[n], listeners, PollAt(polls, n)) +
      AllTold(v[..n], StillListening(v[n], listeners, PollAt(polls, n)), polls)
  }

  function AllStillListening(v: seq<Fetch>, listeners: map<Key, seq<Sender>>, polls: seq<Poll>): map<Key, seq<Sender>>
    decreases |v|
  {
    if v == [] then listeners
    else
      var n := |v| - 1;
      AllStillListening(v[..n], StillListening(v[n], listeners, PollAt(polls, n)), polls)
  }

  function AllRecorded(v: seq<Fetch>, polls: seq<Poll>): seq<Completion>
    decreases |v|
  {
    if v == [] then [] else Recorded(v[|v| - 1], PollAt(polls, |v| - 1)) + AllRecorded(v[..|v| - 1], polls)
  }

  lemma PollFetchTells(s: State, n: nat, p: Poll)
    requires n < |s.pending|
    ensures var t, f := PollFetch(s, n, p), s.pending[n];
            && t.delivered == s.delivered + Told(f, s.listeners, p)
            && t.listeners == StillListening(f, s.listeners, p)
            && t.completed == s.completed + Recorded(f, p)
  {
    if p.Ready? && FetchKey(s.pending[n]).Some? {
      CompleteKeyEffect(s.(pending := SwapRemove(s.pending, n)), FetchKey(s.pending[n]).value, p.reply);
    }
    hide CompleteKey, Deliveries, Outcome, KeyAnswer, OwnAnswer;
  }

  lemma {:induction false} PassTells(s: State, n: nat, polls: seq<Poll>)
    requires n <= |s.pending|
    ensures var t, v := PollPass(s, n, polls), s.pending[..n];
            && t.delivered == s.delivered + AllTold(v, s.listeners, polls)
            && t.listeners == AllStillListening(v, s.listeners, polls)
            && t.completed == s.completed + AllRecorded(v, polls)
    decreases n
  {
    hide *;
    if n == 0 {
      EmptyPass(s, polls);
      NothingTold(s.listeners, polls);
      assert s.pending[..0] == [];
    } else {
      var k: nat := n - 1;
      var p := PollAt(polls, k);
      var t := PollFetch(s, k, p);
      PollFetchTells(s, k, p);
      PollFetchOnPending(s, k, p);
      VectorStepBelow(s.pending, k, p);
      PassUnfolds(s, k, polls);
      assert s.pending[..n][..k] == s.pending[..k] == t.pending[..k];
      OneMoreTold(s.pending[..n], s.listeners, polls);
      PassTells(t, k, polls);
    }
  }

  lemma NothingTold(listeners: map<Key, seq<Sender>>, polls: seq<Poll>)
    ensures AllTold([], listeners, polls) == [] && AllRecorded([], polls) == []
    ensures AllStillListening([], listeners, polls) == listeners
  {
  }

  lemma OneMoreTold(v: seq<Fetch>, listeners: map<Key, seq<Sender>>, polls: seq<Poll>)
    requires v != []
    ensures var f, w, p := v[|v| - 1], v[..|v| - 1], PollAt(polls, |v| - 1);
            var rest := StillListening(f, listeners, p);
            && AllTold(v, listeners, polls) == Told(f, listeners, p) + AllTold(w, rest, polls)
            && AllStillListening(v, listeners, polls) == AllStillListening(w, rest, polls)
            && AllRecorded(v, polls) == Recorded(f, p) + AllRecorded(w, polls)
  {
    hide Told, StillListening, Recorded, PollAt;
  }

  /** No two fetches are for the same key. */
  predicate DistinctKeys(v: seq<Fetch>) {
    forall i, j :: 0 <= i < j < |v| && FetchKey(v[i]).Some? ==> FetchKey(v[i]) != FetchKey(v[j])
  }

  /** In a pass over distinct fetches everybody is told, whatever is polled before. */
  lemma {:induction false} EverybodyIsTold(v: seq<Fetch>, listeners: map<Key, seq<Sender>>, polls: seq<Poll>, i: nat)
    requires DistinctKeys(v) && i < |v|
    ensures forall d :: d in Told(v[i], listeners, PollAt(polls, i)) ==> d in AllTold(v, listeners, polls)
    ensures forall c :: c in Recorded(v[i], PollAt(polls, i)) ==> c in AllRecorded(v, polls)
    ensures PollAt(polls, i).Ready? && FetchKey(v[i]).Some? ==>
              FetchKey(v[i]).value !in AllStillListening(v, listeners, polls)
    decreases |v|
  {
    var n := |v| - 1;
    var rest := StillListening(v[n], listeners, PollAt(polls, n));
    if i == n {
      NobodyStartsToListen(v[..n], rest, polls);
    } else {
      assert Told(v[i], rest, PollAt(polls, i)) == Told(v[i], listeners, PollAt(polls, i)) by {
        hide Deliveries, KeyAnswer;
      }
      assert v[..n][i] == v[i];
      hide Told, StillListening, Recorded, PollAt;
      EverybodyIsTold(v[..n], rest, polls, i);
    }
  }

  lemma {:induction false} NobodyStartsToListen(v: seq<Fetch>, listeners: map<Key, seq<Sender>>, polls: seq<Poll>)
    ensures AllStillListening(v, listeners, polls).Keys <= listeners.Keys
    decreases |v|
  {
    if v != [] {
      NobodyStartsToListen(v[..|v| - 1], StillListening(v[|v| - 1], listeners, PollAt(polls, |v| - 1)), polls);
    }
  }

  /** And nobody is told anything but by a fetch that is polled. */
  lemma {:induction false} ToldByAFetch(v: seq<Fetch>, listeners: map<Key, seq<Sender>>, polls: seq<Poll>, d: Delivery)
    requires d in AllTold(v, listeners, polls)
    ensures exists i :: 0 <= i < |v| && d in Told(v[i], listeners, PollAt(polls, i))
    decreases |v|
  {
    var n := |v| - 1;
    var p := PollAt(polls, n);
    if d !in Told(v[n], listeners, p) {
      var rest := StillListening(v[n], listeners, p);
      ToldByAFetch(v[..n], rest, polls, d);
      var i :| 0 <= i < n && d in Told(v[..n][i], rest, PollAt(polls, i));
      assert d in Told(v[i], listeners, PollAt(polls, i)) by { hide PollAt, KeyAnswer; }
    }
  }

  /**
   Fetch `f` was polled ready: its completion is recorded, everybody who listened for its
   key was answered and listens no more; or the sender it carries was answered.
   */
  ghost predicate Finished(s: State, t: State, f: Fetch, r: Reply)
    requires s.delivered <= t.delivered && s.completed <= t.completed
  {
    var told, recorded := t.delivered[|s.delivered|..], t.completed[|s.completed|..];
    if FetchKey(f).Some? then
      var k := FetchKey(f).value;
      && Completion(k, Outcome(k, r).Ok?) in recorded
      && k !in t.listeners
      && k in s.listeners && (forall x :: x in s.listeners[k] ==> Delivery(x, KeyAnswer(k, r)) in told)
    else
      FetchSender(f).Some? && Delivery(FetchSender(f).value, OwnAnswer(f, r)) in told
  }

  /** Fetch `f`, polled ready with `r`, is what `d` comes from. */
  ghost predicate ComesFrom(s: State, d: Delivery, f: Fetch, r: Reply) {
    if FetchKey(f).Some? then
      var k := FetchKey(f).value;
      k in s.listeners && d.sender in s.listeners[k] && d.answer == KeyAnswer(k, r)
    else
      FetchSender(f) == Some(d.sender) && d.answer == OwnAnswer(f, r)
  }

  /**
   Every fetch that was pending in `s` was polled: left are exactly those that were not
   ready, every one that was ready is finished, and every answer comes from one.
   */
  ghost predicate PassedOver(s: State, t: State, polls: seq<Poll>) {
    && multiset(t.pending) == multiset(Unfinished(s.pending, |s.pending|, polls))
    && s.delivered <= t.delivered && s.completed <= t.completed
    && (forall i :: 0 <= i < |s.pending| && PollAt(polls, i).Ready? ==>
          Finished(s, t, s.pending[i], PollAt(polls, i).reply))
    && (forall d :: d in t.delivered[|s.delivered|..] ==>
          exists i :: 0 <= i < |s.pending| && PollAt(polls, i).Ready?
                      && ComesFrom(s, d, s.pending[i], PollAt(polls, i).reply))
  }

  lemma PassDelivers(s: State, polls: seq<Poll>)
    requires Coalesced(s)
    ensures var t := PollPass(s, |s.pending|, polls);
            && s.delivered <= t.delivered && s.completed <= t.completed
            && t.delivered[|s.delivered|..] == AllTold(s.pending, s.listeners, polls)
            && t.completed[|s.completed|..] == AllRecorded(s.pending, polls)
            && t.listeners == AllStillListening(s.pending, s.listeners, polls)
  {
    hide *;
    PassTells(s, |s.pending|, polls);
    assert s.pending[..|s.pending|] == s.pending;
  }

  lemma ReadyIsFinished(s: State, polls: seq<Poll>, i: nat)
    requires Coalesced(s) && i < |s.pending| && PollAt(polls, i).Ready?
    ensures var t := PollPass(s, |s.pending|, polls);
            && s.delivered <= t.delivered && s.completed <= t.completed
            && Finished(s, t, s.pending[i], PollAt(polls, i).reply)
  {
    var f, r := s.pending[i], PollAt(polls, i).reply;
    PassDelivers(s, polls);
    EverybodyIsTold(s.pending, s.listeners, polls, i);
    ReadyTells(s, f, r);
    if FetchKey(f).Some? { assert InFlight(s, FetchKey(f).value); }
    hide PollPass, AllTold, AllRecorded, AllStillListening, Told, Recorded, KeyAnswer, OwnAnswer, PollAt, Outcome,
         FetchKey;
  }

  lemma ReadyTells(s: State, f: Fetch, r: Reply)
    ensures FetchKey(f).None? ==>
              && FetchSender(f).Some?
              && Told(f, s.listeners, Ready(r)) == [Delivery(FetchSender(f).value, OwnAnswer(f, r))]
    ensures FetchKey(f).Some? ==>
              var k := FetchKey(f).value;
              && Recorded(f, Ready(r)) == [Completion(k, Outcome(k, r).Ok?)]
              && (k in s.listeners ==> forall x :: x in s.listeners[k] ==>
                    Delivery(x, KeyAnswer(k, r)) in Told(f, s.listeners, Ready(r)))
  {
    hide KeyAnswer, OwnAnswer, Outcome;
    if FetchKey(f).Some? && FetchKey(f).value in s.listeners {
      var xs := s.listeners[FetchKey(f).value];
      forall x | x in xs ensures Delivery(x, KeyAnswer(FetchKey(f).value, r)) in Told(f, s.listeners, Ready(r)) {
        var i :| 0 <= i < |xs| && xs[i] == x;
        assert Told(f, s.listeners, Ready(r))[i] == Delivery(x, KeyAnswer(FetchKey(f).value, r));
      }
    }
  }

  lemma ToldComesFrom(s: State, f: Fetch, p: Poll, d: Delivery)
    requires d in Told(f, s.listeners, p)
    ensures p.Ready? && ComesFrom(s, d, f, p.reply)
  {
    hide KeyAnswer, OwnAnswer;
  }

  /** The whole pass polls every fetch that was pending when it began. */
  lemma PassIsComplete(s: State, polls: seq<Poll>)
    requires Coalesced(s)
    ensures PassedOver(s, PollPass(s, |s.pending|, polls), polls)
  {
    var n, t := |s.pending|, PollPass(s, |s.pending|, polls);
    hide PollPass, Coalesced, Finished, ComesFrom, Unfinished, VectorPass, AllTold, AllRecorded, Told, PollAt;
    assert multiset(t.pending) == multiset(Unfinished(s.pending, n, polls)) by {
      PassOnPending(s, n, polls);
      PassLeavesUnfinished(s.pending, n, polls);
      assert s.pending[n..] == [];
    }
    PassDelivers(s, polls);
    forall i | 0 <= i < n && PollAt(polls, i).Ready? ensures Finished(s, t, s.pending[i], PollAt(polls, i).reply) {
      ReadyIsFinished(s, polls, i);
    }
    forall d | d in t.delivered[|s.delivered|..]
      ensures exists i :: 0 <= i < n && PollAt(polls, i).Ready? && ComesFrom(s, d, s.pending[i], PollAt(polls, i).reply)
    {
      ToldByAFetch(s.pending, s.listeners, polls, d);
      var i :| 0 <= i < n && d in Told(s.pending[i], s.listeners, PollAt(polls, i));
      ToldComesFrom(s, s.pending[i], PollAt(polls, i), d);
    }
  }

  // ---------- What a run polls ----------

  datatype Polling = Polling(fetch: Fetch, poll: Poll)

  /** The fetches a run polls, and with what result, in order. */
  function Log(s: State, es: seq<Event>): seq<Polling>
    requires IsRun(s, es)
    decreases |es|
  {
    if es == [] then []
    else
      (match es[0] case PollOne(n, p) => [Polling(s.pending[n], p)] case _ => []) + Log(Next(s, es[0]), es[1..])
  }

  lemma {:induction false} LogOfConcat(s: State, a: seq<Event>, b: seq<Event>)
    requires IsRun(s, a) && IsRun(Run(s, a), b)
    ensures IsRun(s, a + b) && Log(s, a + b) == Log(s, a) + Log(Run(s, a), b)
    decreases |a|
  {
    hide Next;
    RunConcat(s, a, b);
    if a == [] {
      assert a + b == b;
    } else {
      assert (a + b)[1..] == a[1..] + b;
      LogOfConcat(Next(s, a[0]), a[1..], b);
    }
  }

  predicate NoPolls(es: seq<Event>) {
    forall e :: e in es ==> !e.PollOne?
  }

  lemma {:induction false} NothingLogged(s: State, es: seq<Event>)
    requires IsRun(s, es) && NoPolls(es)
    ensures Log(s, es) == []
    decreases |es|
  {
    hide Next;
    if es != [] { NothingLogged(Next(s, es[0]), es[1..]); }
  }

  /** The log of a pass over `v`: each fetch once, the last one first, with the poll meant for it. */
  ghost predicate LogsEach(v: seq<Fetch>, n: nat, polls: seq<Poll>, log: seq<Polling>)
    requires n <= |v|
  {
    |log| == n && forall j :: 0 <= j < n ==> log[j] == Polling(v[n - 1 - j], PollAt(polls, n - 1 - j))
  }

  lemma LogsOneMore(v: seq<Fetch>, w: seq<Fetch>, k: nat, polls: seq<Poll>, log: seq<Polling>)
    requires k < |v| && k <= |w| && w[..k] == v[..k] && LogsEach(w, k, polls, log)
    ensures LogsEach(v, k + 1, polls, [Polling(v[k], PollAt(polls, k))] + log)
  {
    hide PollAt;
    forall i | 0 <= i < k ensures v[i] == w[i] { assert v[..k][i] == w[..k][i]; }
  }

  lemma LogOfOnePoll(s: State, n: nat, p: Poll, rest: seq<Event>)
    requires n < |s.pending| && IsRun(PollFetch(s, n, p), rest)
    ensures var es := [PollOne(n, p)] + rest;
            IsRun(s, es) && Log(s, es) == [Polling(s.pending[n], p)] + Log(PollFetch(s, n, p), rest)
  {
    hide PollFetch;
    var es := [PollOne(n, p)] + rest;
    assert es[1..] == rest && Next(s, es[0]) == PollFetch(s, n, p);
  }

  lemma EmptyLog(s: State, v: seq<Fetch>, polls: seq<Poll>)
    ensures IsRun(s, PassEvents(0, polls)) && LogsEach(v, 0, polls, Log(s, PassEvents(0, polls)))
  {
    hide Next;
  }

  lemma PassEventsUnfold(k: nat, polls: seq<Poll>)
    ensures PassEvents(k + 1, polls) == [PollOne(k, PollAt(polls, k))] + PassEvents(k, polls)
  {
  }

  lemma {:induction false} LogOfPass(s: State, n: nat, polls: seq<Poll>)
    requires n <= |s.pending|
    ensures IsRun(s, PassEvents(n, polls)) && LogsEach(s.pending, n, polls, Log(s, PassEvents(n, polls)))
    decreases n
  {
    hide *;
    if n == 0 {
      EmptyLog(s, s.pending, polls);
    } else {
      var k: nat := n - 1;
      var p := PollAt(polls, k);
      var t := PollFetch(s, k, p);
      PollFetchOnPending(s, k, p);
      VectorStepBelow(s.pending, k, p);
      PassEventsUnfold(k, polls);
      LogOfPass(t, k, polls);
      LogOfOnePoll(s, k, p, PassEvents(k, polls));
      LogsOneMore(s.pending, t.pending, k, polls, Log(t, PassEvents(k, polls)));
    }
  }
}
