// The end of each transaction of a bundle (bundleapi/api.go): from Byzantium on
// the overlay is only finalised; before, a root is computed, which pushes the
// overlay's words through w3backend/db.go and so into the shared store.
module Flush {
  import opened Wrappers
  import opened ByteStrings
  import opened Accounts
  import opened Records
  import opened Chain
  import opened ReadThrough
  import opened Orders
  import opened PlainState
  import opened Simulation

  /** The methods of the trie that panic. */
  datatype TrieCall = DeleteStorage | HashTrie | UpdateAccount | DeleteAccount

  datatype Ending = Receipt | Panicked(call: TrieCall)

  // ----- what a run leaves to be flushed -----

  /** geth's pending accounts, and the pending words of one of them. */
  function PendingAccounts(run: Run): set<Address> {
    set req | req in run.dirty :: req.a
  }

  predicate Pending(run: Run, a: Address, h: Hash) {
    SlotOf(a, h) in run.dirty && run.dirty[SlotOf(a, h)].WordIs?
  }

  function PendingWords(run: Run, a: Address): set<Hash> {
    set req | req in run.dirty && req.SlotOf? && req.a == a && Pending(run, a, req.h) :: req.h
  }

  function OldWord(run: Run, a: Address, h: Hash): Hash {
    if SlotOf(a, h) in run.origin && run.origin[SlotOf(a, h)].WordIs? then run.origin[SlotOf(a, h)].word else ZERO_HASH
  }

  function NewWord(run: Run, a: Address, h: Hash): Hash {
    if Pending(run, a, h) then run.dirty[SlotOf(a, h)].word else OldWord(run, a, h)
  }

  /** Whether a storage trie was opened for the account: to read a slot of it. */
  predicate TrieOpened(run: Run, a: Address) {
    exists req :: req in run.origin && req.SlotOf? && req.a == a
  }

  /** common.TrimLeftZeroes. */
  function TrimLeft(b: Bytes): Bytes {
    if |b| > 0 && b[0] == 0 then TrimLeft(b[1..]) else b
  }

  lemma {:induction false} TrimmedWord(b: Bytes)
    ensures |b| <= 32 ==> ToHash(TrimLeft(b)) == ToHash(b)
  {
    if |b| > 0 && b[0] == 0 {
      TrimmedWord(b[1..]);
      if |b| <= 32 {
        assert ToHash(b) == ToHash(b[1..]);
      }
    }
  }

  // ----- the flush -----

  datatype WordsEnd = AllWritten | NoRecord | Deleting

  /** updateTrie: the pending words of one account, in the order hs. A word that
      did not change is skipped, a zero word is deleted, which panics, and the
      write of a word fails when there is no record. */
  function FlushWords(s: Store, run: Run, a: Address, hs: seq<Hash>): (r: (Store, WordsEnd))
    requires WellFormed(s)
    ensures WellFormed(r.0)
  {
    if |hs| == 0 then (s, AllWritten) else
      var h := hs[0];
      var v := NewWord(run, a, h);
      if v == OldWord(run, a, h) then FlushWords(s, run, a, hs[1..])
      else if v == ZERO_HASH then (s, Deleting)
      else if a !in s then (s, NoRecord)
      else
        SlotFillKnown(s, a, h, TrimLeft(v), CodeKey(a));
        FlushWords(PutSlot(s, a, h, TrimLeft(v)), run, a, hs[1..])
  }

  /** The orders in which Go walks the pending accounts (twice) and the pending
      words of each account. */
  datatype Walk = Walk(accounts: seq<Address>, words: map<Address, seq<Hash>>, updates: seq<Address>)

  ghost predicate WalkOf(o: Walk, run: Run) {
    && Enumerates(o.accounts, PendingAccounts(run))
    && Enumerates(o.updates, PendingAccounts(run))
    && forall a :: a in o.accounts ==> Enumerates(WordsOf(o, a), PendingWords(run, a))
  }

  function WordsOf(o: Walk, a: Address): seq<Hash> {
    if a in o.words then o.words[a] else []
  }

  /** The first loop of IntermediateRoot, over accounts that were not deleted.
      The hash at the end of an account with pending words panics. */
  function FlushAccounts(s: Store, run: Run, deleted: set<Address>, o: Walk, accounts: seq<Address>)
    : (r: (Store, Option<TrieCall>))
    requires WellFormed(s)
    ensures WellFormed(r.0)
    decreases |accounts|
  {
    if |accounts| == 0 then (s, None) else
      var a := accounts[0];
      if a in deleted then FlushAccounts(s, run, deleted, o, accounts[1..])
      else if |WordsOf(o, a)| == 0 then
        if TrieOpened(run, a) then (s, Some(HashTrie)) else FlushAccounts(s, run, deleted, o, accounts[1..])
      else
        var (t, end) := FlushWords(s, run, a, WordsOf(o, a));
        match end
        case AllWritten => (t, Some(HashTrie))
        case Deleting => (t, Some(DeleteStorage))
        case NoRecord => FlushAccounts(t, run, deleted, o, accounts[1..])
  }

  /** applyTransactionWithResult after the message was applied. `deleted` are the
      accounts that execution removed. */
  function EndTransaction(s: Store, byzantium: bool, run: Run, deleted: set<Address>, o: Walk): (r: (Store, Ending))
    requires WellFormed(s)
    ensures WellFormed(r.0)
  {
    if byzantium then (s, Receipt) else
      var (t, stop) := FlushAccounts(s, run, deleted, o, o.accounts);
      if stop.Some? then (t, Panicked(stop.value))
      else if |o.updates| == 0 then (t, Panicked(HashTrie))
      else (t, Panicked(if o.updates[0] in deleted then DeleteAccount else UpdateAccount))
  }

  // ----- what the flush does to the cache -----

  /** The flush of a in some order reaches slot h and writes it. */
  predicate Overwrites(s: Store, run: Run, deleted: set<Address>, a: Address, h: Hash) {
    && a in s && a !in deleted
    && NewWord(run, a, h) != OldWord(run, a, h) && NewWord(run, a, h) != ZERO_HASH
  }

  lemma WordFlushed(s: Store, run: Run, a: Address, h: Hash, k: Key)
    requires WellFormed(s) && a in s
    ensures
      var t := PutSlot(s, a, h, TrimLeft(NewWord(run, a, h)));
      && WellFormed(t) && t.Keys == s.Keys
      && Known(t, k) == if k == SlotKey(a, h) then Some(Word(NewWord(run, a, h))) else Known(s, k)
  {
    hide Known, PutSlot, WellFormed, ToHash;
    SlotFillKnown(s, a, h, TrimLeft(NewWord(run, a, h)), k);
    TrimmedWord(NewWord(run, a, h));
    WordOfWord(h);
    WordOfWord(NewWord(run, a, h));
  }

  /** Whatever the order, the flush changes a key only to a word it may write. */
  lemma {:induction false} WordsKnown(s: Store, run: Run, deleted: set<Address>, a: Address, hs: seq<Hash>, k: Key)
    requires WellFormed(s) && a !in deleted
    ensures
      var t := FlushWords(s, run, a, hs).0;
      && t.Keys == s.Keys
      && (Known(t, k) == Known(s, k)
          || (k.SlotKey? && Overwrites(s, run, deleted, k.addr, k.slot)
              && Known(t, k) == Some(Word(NewWord(run, k.addr, k.slot)))))
  {
    hide Known, PutSlot, WellFormed, TrimLeft, OldWord;
    if |hs| > 0 {
      var h, v := hs[0], NewWord(run, a, hs[0]);
      if v == OldWord(run, a, h) {
        WordsKnown(s, run, deleted, a, hs[1..], k);
      } else if v != ZERO_HASH && a in s {
        WordFlushed(s, run, a, h, k);
        WordsKnown(PutSlot(s, a, h, TrimLeft(v)), run, deleted, a, hs[1..], k);
      }
    }
  }

  lemma {:induction false} AccountsKnown(
      s: Store, run: Run, deleted: set<Address>, o: Walk, accounts: seq<Address>, k: Key)
    requires WellFormed(s)
    ensures
      var t := FlushAccounts(s, run, deleted, o, accounts).0;
      && t.Keys == s.Keys
      && (Known(t, k) == Known(s, k)
          || (k.SlotKey? && Overwrites(s, run, deleted, k.addr, k.slot)
              && Known(t, k) == Some(Word(NewWord(run, k.addr, k.slot)))))
    decreases |accounts|
  {
    hide Known, WellFormed, FlushWords, TrieOpened, NewWord, WordsOf;
    if |accounts| > 0 {
      var a, rest := accounts[0], accounts[1..];
      if a in deleted || |WordsOf(o, a)| == 0 {
        AccountsKnown(s, run, deleted, o, rest, k);
      } else {
        WordsKnown(s, run, deleted, a, WordsOf(o, a), k);
        AccountsKnown(FlushWords(s, run, a, WordsOf(o, a)).0, run, deleted, o, rest, k);
      }
    }
  }

  /** A word whose turn comes first is written, and not changed afterwards. */
  lemma {:induction false} FirstWordStays(s: Store, run: Run, a: Address, h: Hash, hs: seq<Hash>)
    requires WellFormed(s) && h !in hs
    ensures Known(FlushWords(s, run, a, hs).0, SlotKey(a, h)) == Known(s, SlotKey(a, h))
  {
    hide Known, PutSlot, WellFormed, TrimLeft, OldWord;
    if |hs| > 0 {
      var g, v := hs[0], NewWord(run, a, hs[0]);
      if v == OldWord(run, a, g) {
        FirstWordStays(s, run, a, h, hs[1..]);
      } else if v != ZERO_HASH && a in s {
        WordFlushed(s, run, a, g, SlotKey(a, h));
        FirstWordStays(PutSlot(s, a, g, TrimLeft(v)), run, a, h, hs[1..]);
      }
    }
  }

  lemma {:induction false} WalkFrom(run: Run, a: Address, h: Hash) returns (o: Walk)
    requires Pending(run, a, h)
    ensures WalkOf(o, run)
    ensures |o.accounts| > 0 && o.accounts[0] == a && |WordsOf(o, a)| > 0 && WordsOf(o, a)[0] == h
  {
    assert SlotOf(a, h).a == a && SlotOf(a, h).h == h;
    var accounts := OrderFrom(PendingAccounts(run), a);
    var words := WordOrders(run, PendingAccounts(run), a, h);
    o := Walk(accounts, words, accounts);
  }

  lemma {:induction false} WordOrders(run: Run, accounts: set<Address>, a: Address, h: Hash)
    returns (words: map<Address, seq<Hash>>)
    requires Pending(run, a, h)
    ensures forall b :: b in accounts ==> b in words && Enumerates(words[b], PendingWords(run, b))
    ensures a in accounts ==> |words[a]| > 0 && words[a][0] == h
    decreases |accounts|
  {
    hide Enumerates;
    words := map[];
    if accounts != {} {
      var b :| b in accounts;
      words := WordOrders(run, accounts - {b}, a, h);
      var hs;
      if b == a {
        assert SlotOf(a, h).h in PendingWords(run, a);
        hs := OrderFrom(PendingWords(run, a), h);
      } else {
        hs := SomeOrder(PendingWords(run, b));
      }
      words := words[b := hs];
    }
  }

  /** The word written first shows in the end. */
  lemma OverwrittenShows(s: Store, run: Run, deleted: set<Address>, a: Address, h: Hash, o: Walk)
    requires WellFormed(s) && WalkOf(o, run) && Overwrites(s, run, deleted, a, h)
    requires |o.accounts| > 0 && o.accounts[0] == a && |WordsOf(o, a)| > 0 && WordsOf(o, a)[0] == h
    ensures Known(EndTransaction(s, false, run, deleted, o).0, SlotKey(a, h)) == Some(Word(NewWord(run, a, h)))
  {
    hide Known, PutSlot, WellFormed, TrimLeft, OldWord, NewWord, TrieOpened;
    var hs := WordsOf(o, a);
    assert a in o.accounts && Enumerates(hs, PendingWords(run, a));
    var t := PutSlot(s, a, h, TrimLeft(NewWord(run, a, h)));
    WordFlushed(s, run, a, h, SlotKey(a, h));
    FirstWordStays(t, run, a, h, hs[1..]);
    FirstEnds(t, run, a, hs[1..]);
    assert FlushWords(s, run, a, hs) == FlushWords(t, run, a, hs[1..]);
  }

  lemma {:induction false} FirstEnds(s: Store, run: Run, a: Address, hs: seq<Hash>)
    requires WellFormed(s) && a in s
    ensures !FlushWords(s, run, a, hs).1.NoRecord?
  {
    hide PutSlot, TrimLeft, OldWord, NewWord, WellFormed;
    if |hs| > 0 {
      var h, v := hs[0], NewWord(run, a, hs[0]);
      if v == OldWord(run, a, h) {
        FirstEnds(s, run, a, hs[1..]);
      } else if v != ZERO_HASH {
        WordFlushed(s, run, a, h, CodeKey(a));
        FirstEnds(PutSlot(s, a, h, TrimLeft(v)), run, a, hs[1..]);
      }
    }
  }

  /** Which words are harmless to flush: zero ones, and the chain's own. */
  ghost predicate Harmless(s: Store, w: World, run: Run, deleted: set<Address>) {
    forall a, h | SlotOf(a, h) in run.dirty ::
      Pending(run, a, h) && a in s && a !in deleted && NewWord(run, a, h) != ZERO_HASH ==>
        NewWord(run, a, h) == w.slot(a, h)
  }

  lemma ByzantiumLeavesTheCache(s: Store, run: Run, deleted: set<Address>, o: Walk)
    requires WellFormed(s)
    ensures EndTransaction(s, true, run, deleted, o) == (s, Receipt)
  {
  }

  lemma HarmlessAgrees(s: Store, w: World, run: Run, deleted: set<Address>, o: Walk, keccak: Bytes -> Hash)
    requires WellFormed(s) && AgreesWith(s, w) && LoadedFrom(run, w, keccak)
    requires WalkOf(o, run) && Harmless(s, w, run, deleted)
    ensures AgreesWith(EndTransaction(s, false, run, deleted, o).0, w)
  {
    hide WellFormed, Known, FlushAccounts;
    var t := EndTransaction(s, false, run, deleted, o).0;
    forall k
      ensures Agree(t, k, w)
    {
      AccountsKnown(s, run, deleted, o, o.accounts, k);
      assert Agree(s, k, w);
      if k.SlotKey? && Overwrites(s, run, deleted, k.addr, k.slot) {
        assert SlotOf(k.addr, k.slot) in run.dirty;
      }
    }
  }

  lemma HarmfulOrder(s: Store, w: World, run: Run, deleted: set<Address>, keccak: Bytes -> Hash)
    requires WellFormed(s) && AgreesWith(s, w) && LoadedFrom(run, w, keccak) && !Harmless(s, w, run, deleted)
    ensures exists o :: WalkOf(o, run) && !AgreesWith(EndTransaction(s, false, run, deleted, o).0, w)
  {
    hide WellFormed, Known, EndTransaction, WalkOf;
    var a, h :| SlotOf(a, h) in run.dirty && Pending(run, a, h) && a in s && a !in deleted
                && NewWord(run, a, h) != ZERO_HASH && NewWord(run, a, h) != w.slot(a, h);
    assert run.origin[SlotOf(a, h)] == ChainAnswer(w, keccak, SlotOf(a, h));
    var o := WalkFrom(run, a, h);
    OverwrittenShows(s, run, deleted, a, h, o);
    assert !Agree(EndTransaction(s, false, run, deleted, o).0, SlotKey(a, h), w);
  }

  /** In every order the cache still agrees with the chain after a transaction,
      exactly when the block is at or after Byzantium or no account of the cache
      was left with a word that is neither zero nor the chain's. */
  lemma {:induction false} EndTransactionAgrees(
      s: Store, w: World, byzantium: bool, run: Run, deleted: set<Address>, keccak: Bytes -> Hash)
    requires WellFormed(s) && AgreesWith(s, w) && LoadedFrom(run, w, keccak)
    ensures (forall o :: WalkOf(o, run) ==> AgreesWith(EndTransaction(s, byzantium, run, deleted, o).0, w))
            <==> byzantium || Harmless(s, w, run, deleted)
  {
    hide WellFormed, Known, WalkOf, EndTransaction;
    if byzantium {
      forall o | WalkOf(o, run)
        ensures AgreesWith(EndTransaction(s, byzantium, run, deleted, o).0, w)
      {
        ByzantiumLeavesTheCache(s, run, deleted, o);
      }
    } else if Harmless(s, w, run, deleted) {
      forall o | WalkOf(o, run)
        ensures AgreesWith(EndTransaction(s, byzantium, run, deleted, o).0, w)
      {
        HarmlessAgrees(s, w, run, deleted, o, keccak);
      }
    } else {
      HarmfulOrder(s, w, run, deleted, keccak);
    }
  }

  /** Hence of any program on an agreeing cache: its run, and the records it had filled. */
  lemma {:induction false} SimulationEndAgrees(
      p: Program, n: nat, s: Store, w: World, keccak: Bytes -> Hash, byzantium: bool, deleted: set<Address>)
    requires WellFormed(s) && AgreesWith(s, w)
    ensures
      var (run, t) := RunOnCache(p, n, START, s, w, keccak);
      && (byzantium || Harmless(t, w, run, deleted) <==>
          forall o :: WalkOf(o, run) ==> AgreesWith(EndTransaction(t, byzantium, run, deleted, o).0, w))
      && forall o :: WalkOf(o, run) ==> (EndTransaction(t, byzantium, run, deleted, o).1.Receipt? <==> byzantium)
  {
    hide WellFormed, AgreesWith, RunOnCache, RunOnChain, WalkOf, FlushAccounts, Harmless;
    SimulationRefines(p, n, START, s, w, keccak);
    RunStaysLoaded(p, n, START, w, keccak);
    var (run, t) := RunOnCache(p, n, START, s, w, keccak);
    EndTransactionAgrees(t, w, byzantium, run, deleted, keccak);
  }

  /** A program that stores one word, and halts. */
  function Storing(a: Address, h: Hash, v: Hash): Program {
    log => if log == [] then Write(SlotOf(a, h), WordIs(v)) else Halt
  }

  /** Wherever it stores a new word in a cached account, that word spoils the
      cache, unless it is zero: then the flush panics before it writes. */
  lemma StoringSpoils(s: Store, w: World, a: Address, h: Hash, v: Hash, keccak: Bytes -> Hash)
    requires WellFormed(s) && AgreesWith(s, w) && a in s && v != w.slot(a, h)
    ensures
      var (run, t) := RunOnCache(Storing(a, h, v), 1, START, s, w, keccak);
      var o := Walk([a], map[a := [h]], [a]);
      var (u, end) := EndTransaction(t, false, run, {}, o);
      && WalkOf(o, run)
      && end == Panicked(if v == ZERO_HASH then DeleteStorage else HashTrie)
      && (AgreesWith(u, w) <==> v == ZERO_HASH)
  {
    hide WellFormed, Known, RunOnCache, PutSlot;
    SimulationRefines(Storing(a, h, v), 1, START, s, w, keccak);
    SimulationOnlyFills(Storing(a, h, v), 1, START, s, w, keccak);
    var (run, t) := RunOnCache(Storing(a, h, v), 1, START, s, w, keccak);
    StoringRun(w, a, h, v, keccak);
    var o := Walk([a], map[a := [h]], [a]);
    StoredPending(run, a, h, v);
    if v != ZERO_HASH {
      OverwrittenShows(t, run, {}, a, h, o);
      assert FlushWords(t, run, a, WordsOf(o, a)).1 == AllWritten by {
        WordFlushed(t, run, a, h, CodeKey(a));
      }
      assert !Agree(EndTransaction(t, false, run, {}, o).0, SlotKey(a, h), w);
    } else {
      assert FlushWords(t, run, a, WordsOf(o, a)) == (t, Deleting);
      assert EndTransaction(t, false, run, {}, o).0 == t;
    }
  }

  lemma StoringRun(w: World, a: Address, h: Hash, v: Hash, keccak: Bytes -> Hash)
    requires v != w.slot(a, h)
    ensures RunOnChain(Storing(a, h, v), 1, START, w, keccak) ==
            Run(map[SlotOf(a, h) := WordIs(w.slot(a, h))], map[SlotOf(a, h) := WordIs(v)], [Written])
  {
  }

  lemma StoredPending(run: Run, a: Address, h: Hash, v: Hash)
    requires run.dirty == map[SlotOf(a, h) := WordIs(v)]
    ensures PendingAccounts(run) == {a} && PendingWords(run, a) == {h}
  {
    assert SlotOf(a, h) in run.dirty && SlotOf(a, h).a == a && SlotOf(a, h).h == h;
  }

  /** One such input. */
  lemma SpoiledCache(a: Address, h: Hash, keccak: Bytes -> Hash)
    ensures
      var w := World(b => 1, b => 0, b => [], (b, g) => ZERO_HASH);
      var s := PutAccount(map[], a, Account(Some(0), None, Some(1), None));
      && WellFormed(s) && AgreesWith(s, w)
      && var (run, t) := RunOnCache(Storing(a, h, ToHash([1])), 1, START, s, w, keccak);
         !AgreesWith(EndTransaction(t, false, run, {}, Walk([a], map[a := [h]], [a])).0, w)
  {
    hide RunOnCache, EndTransaction;
    var w := World(b => 1, b => 0, b => [], (b, g) => ZERO_HASH);
    var empty: Store := map[];
    forall k
      ensures Agree(PutAccount(empty, a, Account(Some(0), None, Some(1), None)), k, w)
    {
      PutAccountStored(empty, a, Account(Some(0), None, Some(1), None), k);
    }
    assert ToHash([1])[31] == 1 && ZERO_HASH[31] == 0;
    StoringSpoils(PutAccount(empty, a, Account(Some(0), None, Some(1), None)), w, a, h, ToHash([1]), keccak);
  }

  // ----- many bundles -----

  /** One transaction of a bundle: a program, how long it runs, which accounts it
      deletes, and how Go walks what it leaves pending. */
  datatype Job = Job(p: Program, steps: nat, deleted: set<Address>, walk: Walk)

  /** A bundle shares one overlay between its transactions, and ends early when one panics. */
  function RunBundle(jobs: seq<Job>, run: Run, s: Store, w: World, keccak: Bytes -> Hash, byzantium: bool)
    : (r: (seq<Run>, Store, Ending))
    requires WellFormed(s)
    ensures WellFormed(r.1)
    decreases |jobs|
  {
    if |jobs| == 0 then ([], s, Receipt) else
      var (ran, t) := RunOnCache(jobs[0].p, jobs[0].steps, run, s, w, keccak);
      var (u, end) := EndTransaction(t, byzantium, ran, jobs[0].deleted, jobs[0].walk);
      if end.Panicked? then ([], u, end) else
        var (rest, v, last) := RunBundle(jobs[1..], ran.(log := []), u, w, keccak, byzantium);
        ([ran] + rest, v, last)
  }

  function RunBundleOnChain(jobs: seq<Job>, run: Run, w: World, keccak: Bytes -> Hash): seq<Run>
    decreases |jobs|
  {
    if |jobs| == 0 then [] else
      var ran := RunOnChain(jobs[0].p, jobs[0].steps, run, w, keccak);
      [ran] + RunBundleOnChain(jobs[1..], ran.(log := []), w, keccak)
  }

  /** From Byzantium on every transaction of every bundle sees the chain, one
      after another, and the bundle changes the cache by fills only. */
  lemma {:induction false} BundlesRefine(jobs: seq<Job>, run: Run, s: Store, w: World, keccak: Bytes -> Hash)
    requires WellFormed(s) && AgreesWith(s, w)
    ensures
      var (rs, t, end) := RunBundle(jobs, run, s, w, keccak, true);
      && rs == RunBundleOnChain(jobs, run, w, keccak) && end == Receipt
      && AgreesWith(t, w) && FilledFrom(s, t, w)
    decreases |jobs|
  {
    hide WellFormed, AgreesWith, FilledFrom, RunOnCache, RunOnChain;
    FilledReflexive(s, w);
    if |jobs| > 0 {
      SimulationRefines(jobs[0].p, jobs[0].steps, run, s, w, keccak);
      SimulationOnlyFills(jobs[0].p, jobs[0].steps, run, s, w, keccak);
      var (ran, t) := RunOnCache(jobs[0].p, jobs[0].steps, run, s, w, keccak);
      BundlesRefine(jobs[1..], ran.(log := []), t, w, keccak);
      FilledTransitive(s, t, RunBundle(jobs, run, s, w, keccak, true).1, w);
    }
  }

  function Programs(jobs: seq<Job>): seq<(Program, nat)> {
    seq(|jobs|, i requires 0 <= i < |jobs| => (jobs[i].p, jobs[i].steps))
  }

  lemma {:induction false} BundleStands(jobs: seq<Job>, run: Run, m: Plain, w: World, keccak: Bytes -> Hash)
    requires run.log == [] && StandsFor(run, m.(log := []), w, keccak)
    ensures
      var rs, logs := RunBundleOnChain(jobs, run, w, keccak), RunAllPlain(Programs(jobs), m);
      && |rs| == |logs| == |jobs|
      && forall i :: 0 <= i < |jobs| ==> rs[i].log == logs[i]
    decreases |jobs|
  {
    hide RunOnChain, RunPlain;
    if |jobs| > 0 {
      RunStands(jobs[0].p, jobs[0].steps, run, m.(log := []), w, keccak);
      var ran := RunOnChain(jobs[0].p, jobs[0].steps, run, w, keccak);
      assert Programs(jobs)[1..] == Programs(jobs[1..]);
      BundleStands(jobs[1..], ran.(log := []), RunPlain(jobs[0].p, jobs[0].steps, m.(log := [])), w, keccak);
    }
  }

  /** The transactions of a bundle are answered as on one plain state, which starts
      as the chain's and which each finds as the one before it left it. */
  lemma {:induction false} BundlesArePlain(jobs: seq<Job>, s: Store, w: World, keccak: Bytes -> Hash)
    requires WellFormed(s) && AgreesWith(s, w)
    ensures
      var rs := RunBundle(jobs, START, s, w, keccak, true).0;
      var logs := RunAllPlain(Programs(jobs), OfChain(w, keccak));
      && |rs| == |logs| == |jobs|
      && forall i :: 0 <= i < |jobs| ==> rs[i].log == logs[i]
  {
    hide AgreesWith, WellFormed, RunBundle, RunBundleOnChain, RunAllPlain;
    BundlesRefine(jobs, START, s, w, keccak);
    StartStands(w, keccak);
    BundleStands(jobs, START, OfChain(w, keccak), w, keccak);
  }

  /** A bundle completes exactly from Byzantium on. Before, its first transaction
      never gets a receipt, whatever it does and in whatever order it is flushed. */
  lemma {:induction false} BundlesNeedByzantium(
      jobs: seq<Job>, run: Run, s: Store, w: World, keccak: Bytes -> Hash, byzantium: bool)
    requires WellFormed(s) && |jobs| > 0
    ensures
      var (rs, _, end) := RunBundle(jobs, run, s, w, keccak, byzantium);
      && (end == Receipt <==> byzantium)
      && |rs| == if byzantium then |jobs| else 0
    decreases |jobs|
  {
    hide WellFormed, RunOnCache, FlushAccounts;
    if byzantium && |jobs| > 1 {
      var (ran, t) := RunOnCache(jobs[0].p, jobs[0].steps, run, s, w, keccak);
      BundlesNeedByzantium(jobs[1..], ran.(log := []), t, w, keccak, byzantium);
    }
  }
}
