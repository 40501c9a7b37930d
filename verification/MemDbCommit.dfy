/**
 Committing a transaction's changes to the in-memory database
 (crates/fork-db/src/cache.rs): storage reads as zero where nothing is stored. A commit
 itself stores no zero and no empty slot map, so it keeps storage free of them; fetched
 zeros that others put there stay until a commit touches their slot or account.
 */
module MemDbCommit {
  import opened Chain
  import opened Common

  /** Contract code as far as a commit looks at it. */
  datatype Code = Code(isEmpty: bool, hash: Hash)

  datatype Info = Info(balance: nat, nonce: nat, codeHash: Hash, code: Option<Code>)

  /** One changed account: its new state, the present values of its slots, and its status. */
  datatype Account = Account(info: Info, storage: map<Slot, Word>, isEmpty: bool, isSelfdestructed: bool, created: bool)

  type Accounts = map<Address, Info>
  type Storage = map<Address, map<Slot, Word>>
  type Changes = map<Address, Account>

  // ---------- One account ----------

  predicate Deleted(acc: Account) {
    acc.isEmpty || acc.isSelfdestructed
  }

  function Normalized(info: Info): Info {
    if info.code.Some? && !info.code.value.isEmpty then info.(codeHash := info.code.value.hash)
    else if info.codeHash == 0 then info.(codeHash := KECCAK_EMPTY)
    else info
  }

  function SlotsOf(storage: Storage, a: Address): map<Slot, Word> {
    if a in storage then storage[a] else map[]
  }

  function WithSlots(storage: Storage, a: Address, slots: map<Slot, Word>): Storage {
    if slots == map[] then storage - {a} else storage[a := slots]
  }

  /** What one slot reads as. */
  function Read(slots: map<Slot, Word>, k: Slot): Word {
    if k in slots then slots[k] else 0
  }

  /** Stores a word; zero is stored by not storing anything. */
  function Write(slots: map<Slot, Word>, k: Slot, w: Word): map<Slot, Word> {
    if w == 0 then slots - {k} else slots[k := w]
  }

  function SlotsAfter(slots: map<Slot, Word>, acc: Account): map<Slot, Word> {
    if Deleted(acc) then map[]
    else
      var kept := if acc.created then map[] else slots;
      map k | k in kept.Keys + acc.storage.Keys && (if k in acc.storage then acc.storage[k] != 0 else true)
        :: if k in acc.storage then acc.storage[k] else kept[k]
  }

  // ---------- The whole commit, as a value ----------

  function CommitAccounts(accounts: Accounts, changes: Changes): Accounts {
    map a | a in accounts.Keys + changes.Keys && (a in changes ==> !Deleted(changes[a]))
      :: if a in changes then Normalized(changes[a].info) else accounts[a]
  }

  function CommittedSlots(storage: Storage, changes: Changes, a: Address): map<Slot, Word> {
    if a in changes then SlotsAfter(SlotsOf(storage, a), changes[a]) else SlotsOf(storage, a)
  }

  function CommitStorage(storage: Storage, changes: Changes): Storage {
    map a | a in storage.Keys + changes.Keys && (a in changes ==> CommittedSlots(storage, changes, a) != map[])
      :: CommittedSlots(storage, changes, a)
  }

  // ---------- What it means ----------

  /** Storage as a total function: zero where nothing is stored. */
  function View(storage: Storage, a: Address, k: Slot): Word {
    Read(SlotsOf(storage, a), k)
  }

  /** No zero value and no empty slot map. */
  predicate Canonical(storage: Storage) {
    && (forall a :: a in storage ==> storage[a] != map[])
    && (forall a :: a in storage ==> forall k :: k in storage[a] ==> storage[a][k] != 0)
  }

  /** What a slot reads as after a commit. */
  lemma ViewAfterCommit(storage: Storage, changes: Changes, a: Address, k: Slot)
    ensures View(CommitStorage(storage, changes), a, k) ==
            if a !in changes then View(storage, a, k)
            else if changes[a].isEmpty || changes[a].isSelfdestructed then 0
            else if k in changes[a].storage then changes[a].storage[k]
            else if changes[a].created then 0
            else View(storage, a, k)
  {
    assert SlotsOf(CommitStorage(storage, changes), a) == CommittedSlots(storage, changes, a);
  }

  lemma CommitKeepsCanonical(storage: Storage, changes: Changes)
    requires Canonical(storage)
    ensures Canonical(CommitStorage(storage, changes))
  {
    var after := CommitStorage(storage, changes);
    forall a | a in after ensures after[a] != map[] && forall k :: k in after[a] ==> after[a][k] != 0 {
      assert after[a] == CommittedSlots(storage, changes, a);
    }
  }

  /** Canonical maps are determined by what they read as. */
  lemma CanonicalViewsDetermine(s: Storage, t: Storage)
    requires Canonical(s) && Canonical(t)
    requires forall a, k :: View(s, a, k) == View(t, a, k)
    ensures s == t
  {
    forall a ensures SlotsOf(s, a) == SlotsOf(t, a) {
      forall k ensures k in SlotsOf(s, a) <==> k in SlotsOf(t, a) { assert View(s, a, k) == View(t, a, k); }
      forall k | k in SlotsOf(s, a) ensures SlotsOf(s, a)[k] == SlotsOf(t, a)[k] {
        assert View(s, a, k) == View(t, a, k);
      }
    }
    assert forall a :: a in s <==> SlotsOf(s, a) != map[];
    assert forall a :: a in t <==> SlotsOf(t, a) != map[];
  }

  /** Commits that touch different accounts can be made in either order. */
  lemma DisjointCommitsCommute(accounts: Accounts, storage: Storage, c: Changes, d: Changes)
    requires c.Keys !! d.Keys
    ensures CommitStorage(CommitStorage(storage, c), d) == CommitStorage(CommitStorage(storage, d), c)
    ensures CommitAccounts(CommitAccounts(accounts, c), d) == CommitAccounts(CommitAccounts(accounts, d), c)
  {
    var cd, dc := CommitStorage(CommitStorage(storage, c), d), CommitStorage(CommitStorage(storage, d), c);
    hide CommitStorage, SlotsAfter, Normalized, Deleted;
    forall a ensures (a in cd <==> a in dc) && SlotsOf(cd, a) == SlotsOf(dc, a) {
      CommittedAt(storage, c, a);
      CommittedAt(storage, d, a);
      CommittedAt(CommitStorage(storage, c), d, a);
      CommittedAt(CommitStorage(storage, d), c, a);
    }
    SameSlotsSameStorage(cd, dc);
  }

  lemma SameSlotsSameStorage(s: Storage, t: Storage)
    requires forall a :: (a in s <==> a in t) && SlotsOf(s, a) == SlotsOf(t, a)
    ensures s == t
  {
    forall a | a in s ensures s[a] == t[a] { assert s[a] == SlotsOf(s, a); }
  }

  lemma SlotsAfterTwice(slots: map<Slot, Word>, acc: Account)
    ensures SlotsAfter(SlotsAfter(slots, acc), acc) == SlotsAfter(slots, acc)
  {
  }

  /** A commit made again changes nothing. */
  lemma CommitIsIdempotent(accounts: Accounts, storage: Storage, changes: Changes)
    ensures CommitStorage(CommitStorage(storage, changes), changes) == CommitStorage(storage, changes)
    ensures CommitAccounts(CommitAccounts(accounts, changes), changes) == CommitAccounts(accounts, changes)
  {
    var once := CommitStorage(storage, changes);
    var twice := CommitStorage(once, changes);
    hide CommitStorage, SlotsAfter, Normalized, Deleted;
    forall a ensures (a in twice <==> a in once) && SlotsOf(twice, a) == SlotsOf(once, a) {
      CommittedAt(storage, changes, a);
      CommittedAt(once, changes, a);
      if a in changes { SlotsAfterTwice(SlotsOf(storage, a), changes[a]); }
    }
    SameSlotsSameStorage(twice, once);
  }

  /**
   Deleted accounts are gone and others untouched; a stored account carries the hash of its
   code if it has any, else the hash it came with, or the empty hash for a zero one.
   */
  lemma CommittedAccount(accounts: Accounts, changes: Changes, a: Address)
    ensures a !in changes ==>
              (a in CommitAccounts(accounts, changes) <==> a in accounts)
              && (a in accounts ==> CommitAccounts(accounts, changes)[a] == accounts[a])
    ensures a in changes ==>
              (a in CommitAccounts(accounts, changes) <==> !changes[a].isEmpty && !changes[a].isSelfdestructed)
    ensures a in changes && !changes[a].isEmpty && !changes[a].isSelfdestructed ==>
              var given, stored := changes[a].info, CommitAccounts(accounts, changes)[a];
              && stored.balance == given.balance && stored.nonce == given.nonce && stored.code == given.code
              && (HasCode(given) ==> stored.codeHash == given.code.value.hash)
              && (!HasCode(given) && given.codeHash != 0 ==> stored.codeHash == given.codeHash)
              && (!HasCode(given) && given.codeHash == 0 ==> stored.codeHash == KECCAK_EMPTY)
  {}

  predicate HasCode(info: Info) {
    info.code.Some? && !info.code.value.isEmpty
  }

  // ---------- The loops, in any order ----------

  lemma CommittedAt(storage: Storage, changes: Changes, a: Address)
    ensures a in CommitStorage(storage, changes) <==>
            if a in changes then SlotsAfter(SlotsOf(storage, a), changes[a]) != map[] else a in storage
    ensures SlotsOf(CommitStorage(storage, changes), a) ==
            if a in changes then SlotsAfter(SlotsOf(storage, a), changes[a]) else SlotsOf(storage, a)
  {
    hide SlotsAfter;
  }

  lemma StorageStep(storage: Storage, changes: Changes, done: set<Address>, a: Address)
    requires a in changes && a !in done
    ensures CommitStorage(storage, Only(changes, done + {a})) ==
            WithSlots(CommitStorage(storage, Only(changes, done)), a, SlotsAfter(SlotsOf(storage, a), changes[a]))
    ensures SlotsOf(CommitStorage(storage, Only(changes, done)), a) == SlotsOf(storage, a)
  {
    var before, after := CommitStorage(storage, Only(changes, done)), CommitStorage(storage, Only(changes, done + {a}));
    var expected := WithSlots(before, a, SlotsAfter(SlotsOf(storage, a), changes[a]));
    CommittedAt(storage, Only(changes, done), a);
    hide SlotsAfter, CommitStorage;
    forall b ensures (b in after <==> b in expected) && SlotsOf(after, b) == SlotsOf(expected, b) {
      CommittedAt(storage, Only(changes, done), b);
      CommittedAt(storage, Only(changes, done + {a}), b);
    }
    forall b | b in after ensures after[b] == expected[b] { assert after[b] == SlotsOf(after, b); }
  }

  function Only(changes: Changes, done: set<Address>): Changes {
    map a | a in changes && a in done :: changes[a]
  }

  function OnlySlots(acc: Account, done: set<Slot>): Account {
    acc.(storage := map k | k in acc.storage && k in done :: acc.storage[k])
  }

  lemma SlotStep(slots: map<Slot, Word>, acc: Account, done: set<Slot>, k: Slot)
    requires !Deleted(acc) && k in acc.storage && k !in done
    ensures SlotsAfter(slots, OnlySlots(acc, done + {k})) ==
            Write(SlotsAfter(slots, OnlySlots(acc, done)), k, acc.storage[k])
  {}

  lemma AccountStep(accounts: Accounts, changes: Changes, done: set<Address>, a: Address)
    requires a in changes && a !in done
    ensures CommitAccounts(accounts, Only(changes, done + {a})) ==
            if Deleted(changes[a]) then CommitAccounts(accounts, Only(changes, done)) - {a}
            else CommitAccounts(accounts, Only(changes, done))[a := Normalized(changes[a].info)]
  {}

  /** Writes an account's slots over those stored, in any order. */
  method WriteSlots(slots: map<Slot, Word>, acc: Account) returns (r: map<Slot, Word>)
    requires !Deleted(acc)
    ensures r == SlotsAfter(slots, acc)
  {
    r := slots;
    if acc.created { r := map[]; }
    var left := acc.storage.Keys;
    assert r == SlotsAfter(slots, OnlySlots(acc, {}));
    assert acc.storage.Keys - left == {};
    while left != {}
      invariant left <= acc.storage.Keys
      invariant r == SlotsAfter(slots, OnlySlots(acc, acc.storage.Keys - left))
    {
      var k :| k in left;
      SlotStep(slots, acc, acc.storage.Keys - left, k);
      if acc.storage[k] == 0 { r := r - {k}; } else { r := r[k := acc.storage[k]]; }
      assert acc.storage.Keys - left + {k} == acc.storage.Keys - (left - {k});
      left := left - {k};
    }
    assert acc.storage.Keys - left == acc.storage.Keys;
    assert OnlySlots(acc, acc.storage.Keys) == acc;
  }

  class MemDb {
    var accounts: Accounts
    var storage: Storage

    constructor ()
      ensures accounts == map[] && storage == map[]
    {
      accounts, storage := map[], map[];
    }

    method CommitOne(a: Address, acc: Account)
      modifies this
      ensures storage == WithSlots(old(storage), a, SlotsAfter(SlotsOf(old(storage), a), acc))
      ensures accounts == if Deleted(acc) then old(accounts) - {a} else old(accounts)[a := Normalized(acc.info)]
    {
      if acc.isEmpty || acc.isSelfdestructed {
        accounts := accounts - {a};
        storage := storage - {a};
      } else {
        var info := acc.info;
        if info.code.Some? && !info.code.value.isEmpty {
          info := info.(codeHash := info.code.value.hash);
        } else if info.codeHash == 0 {
          info := info.(codeHash := KECCAK_EMPTY);
        }
        accounts := accounts[a := info];
        if a !in storage { storage := storage[a := map[]]; }
        var slots := WriteSlots(storage[a], acc);
        storage := storage[a := slots];
        if slots == map[] { storage := storage - {a}; }
      }
    }

    /** Whatever order the changes are visited in, the result is the same. */
    method DoCommit(changes: Changes)
      modifies this
      ensures accounts == CommitAccounts(old(accounts), changes)
      ensures storage == CommitStorage(old(storage), changes)
    {
      var left := changes.Keys;
      assert Only(changes, {}) == map[] && changes.Keys - left == {};
      while left != {}
        invariant left <= changes.Keys
        invariant accounts == CommitAccounts(old(accounts), Only(changes, changes.Keys - left))
        invariant storage == CommitStorage(old(storage), Only(changes, changes.Keys - left))
      {
        var a :| a in left;
        StorageStep(old(storage), changes, changes.Keys - left, a);
        AccountStep(old(accounts), changes, changes.Keys - left, a);
        CommitOne(a, changes[a]);
        assert changes.Keys - left + {a} == changes.Keys - (left - {a});
        left := left - {a};
      }
      assert changes.Keys - left == changes.Keys && Only(changes, changes.Keys) == changes;
    }
  }
}
