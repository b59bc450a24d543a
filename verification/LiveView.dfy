// When a cache that is filled from one state of the chain shows another: the
// live view of a block is filled from the newest state, whatever the block.
module LiveView {
  import opened Wrappers
  import opened ByteStrings
  import opened Accounts
  import opened Records
  import opened Chain
  import opened ReadThrough
  import opened Simulation

  /** About k, a cache s filled from w shows v: what s answers without a fetch is
      v's (nonce and balance are answered only together), and what it would still
      fetch, for which one missing number of an account is enough, is the same in
      w and v. */
  predicate Shows(s: Store, w: World, v: World, k: Key) {
    && (Known(s, k).Some? && (k.NonceKey? || k.BalanceKey? ==> Hit(s, k.addr)) ==> Known(s, k).value == At(v, k))
    && (Known(s, k).None? || !Hit(s, k.addr) ==> At(w, k) == At(v, k))
  }

  ghost predicate ShowsAll(s: Store, w: World, v: World) {
    forall k :: Shows(s, w, v, k)
  }

  /** No program can tell the cache from v. */
  ghost predicate LooksLike(s: Store, w: World, v: World, keccak: Bytes -> Hash)
    requires WellFormed(s)
  {
    forall p: Program, n: nat :: RunOnCache(p, n, START, s, w, keccak).0 == RunOnChain(p, n, START, v, keccak)
  }

  // ----- what shows v goes on showing it -----

  lemma HitByKnown(s: Store, t: Store, a: Address)
    requires WellFormed(s) && WellFormed(t)
    ensures Known(s, NonceKey(a)) == Known(t, NonceKey(a)) && Known(s, BalanceKey(a)) == Known(t, BalanceKey(a)) ==>
              (Hit(s, a) <==> Hit(t, a))
  {
    hide Known, Hit, WellFormed;
    HitIsKnown(s, a);
    HitIsKnown(t, a);
  }

  lemma {:induction false} AccountReadShows(s: Store, w: World, v: World, a: Address, keccak: Bytes -> Hash)
    requires WellFormed(s) && ShowsAll(s, w, v)
    ensures
      var (r, t) := ReadAccount(s, a, keccak, ReplyFrom(w, a));
      && r == Ok(StateAccount(v.nonce(a), v.balance(a), keccak(v.code(a))))
      && WellFormed(t) && ShowsAll(t, w, v)
  {
    hide Known, Hit, WellFormed, PutAccount;
    assert Shows(s, w, v, NonceKey(a)) && Shows(s, w, v, BalanceKey(a)) && Shows(s, w, v, CodeKey(a));
    if Hit(s, a) {
      HitKnown(s, a, keccak);
    } else {
      AccountReadDomain(s, a, keccak, ReplyFrom(w, a));
      assert |w.code(a)| == 0 ==> w.code(a) == [];
      var t := ReadAccount(s, a, keccak, ReplyFrom(w, a)).1;
      forall k
        ensures Shows(t, w, v, k)
      {
        FilledKey(s, w, a, k);
        assert Shows(s, w, v, k);
      }
    }
  }

  lemma FilledKey(s: Store, w: World, a: Address, k: Key)
    requires WellFormed(s)
    ensures
      var t := PutAccount(s, a, FilledAccount(w.nonce(a), w.balance(a), w.code(a)));
      && WellFormed(t)
      && (k.addr != a ==> Known(t, k) == Known(s, k) && (Hit(t, k.addr) <==> Hit(s, k.addr)))
      && (k.addr == a ==> Known(t, k).None? || Known(t, k).value == At(w, k))
      && (k == CodeKey(a) ==> Known(t, k).Some?)
      && (k.addr == a && k.SlotKey? ==> Known(t, k).None?)
  {
    hide Known, Hit, WellFormed, PutAccount;
    AccountFillKnown(s, a, w.nonce(a), w.balance(a), w.code(a), k);
    if k.addr != a {
      AccountFillKnown(s, a, w.nonce(a), w.balance(a), w.code(a), NonceKey(k.addr));
      AccountFillKnown(s, a, w.nonce(a), w.balance(a), w.code(a), BalanceKey(k.addr));
      HitByKnown(s, PutAccount(s, a, FilledAccount(w.nonce(a), w.balance(a), w.code(a))), k.addr);
    }
  }

  lemma {:induction false} CodeReadShows(s: Store, w: World, v: World, a: Address)
    requires WellFormed(s) && ShowsAll(s, w, v)
    ensures ReadCode(s, a, Ok(w.code(a))) == (Ok(v.code(a)), s)
  {
    hide Known, Hit, GetCode, WellFormed;
    FillsCreateNothing(s, a, [], Ok(w.code(a)), Err(NotFound));
    ReadKnown(s, a, []);
    assert Shows(s, w, v, CodeKey(a));
  }

  lemma {:induction false} SlotReadShows(s: Store, w: World, v: World, a: Address, h: Hash)
    requires WellFormed(s) && ShowsAll(s, w, v)
    ensures
      var (r, t) := ReadSlot(s, a, h, Ok(w.slot(a, ToHash(h))));
      && r == Ok(v.slot(a, h)) && WellFormed(t) && ShowsAll(t, w, v)
  {
    WordOfWord(h);
    hide Known, Hit, GetSlot, PutSlot, WellFormed, ToHash;
    ReadKnown(s, a, h);
    assert Shows(s, w, v, SlotKey(a, h));
    var (r, t) := ReadSlot(s, a, h, Ok(w.slot(a, h)));
    SlotReadKnown(s, a, h, Ok(w.slot(a, h)), SlotKey(a, h));
    forall k
      ensures Shows(t, w, v, k)
    {
      SlotReadKnown(s, a, h, Ok(w.slot(a, h)), k);
      SlotReadKnown(s, a, h, Ok(w.slot(a, h)), NonceKey(k.addr));
      SlotReadKnown(s, a, h, Ok(w.slot(a, h)), BalanceKey(k.addr));
      HitByKnown(s, t, k.addr);
      assert Shows(s, w, v, k);
    }
  }

  lemma CacheAnswerShows(s: Store, w: World, v: World, keccak: Bytes -> Hash, req: Request)
    requires WellFormed(s) && ShowsAll(s, w, v)
    ensures
      var (answer, t) := CacheAnswer(s, w, keccak, req);
      answer == ChainAnswer(v, keccak, req) && WellFormed(t) && ShowsAll(t, w, v)
  {
    hide WellFormed, ShowsAll, ReadAccount, ReadCode, ReadSlot;
    match req
    case AccountOf(a) => AccountReadShows(s, w, v, a, keccak);
    case CodeOf(a) => CodeReadShows(s, w, v, a);
    case CodeSizeOf(a) => CodeReadShows(s, w, v, a);
    case SlotOf(a, h) => SlotReadShows(s, w, v, a, h);
  }

  lemma {:induction false} ShowsRefines(
      p: Program, n: nat, run: Run, s: Store, w: World, v: World, keccak: Bytes -> Hash)
    requires WellFormed(s) && ShowsAll(s, w, v)
    ensures RunOnCache(p, n, run, s, w, keccak).0 == RunOnChain(p, n, run, v, keccak)
    decreases n
  {
    hide WellFormed, ShowsAll, CacheAnswer, ChainAnswer, Holds, Load, Perform;
    var action := p(run.log);
    if n > 0 && !action.Halt? {
      if Holds(run, action.req) {
        ShowsRefines(p, n - 1, Perform(run, action), s, w, v, keccak);
      } else {
        var (answer, t) := CacheAnswer(s, w, keccak, action.req);
        CacheAnswerShows(s, w, v, keccak, action.req);
        ShowsRefines(p, n - 1, Perform(Load(run, action.req, answer), action), t, w, v, keccak);
      }
    }
  }

  // ----- and what does not can be told apart -----

  /** Reads the given items in turn, and halts. */
  function Reading(reqs: seq<Request>): Program {
    log => if |log| < |reqs| then Read(reqs[|log|]) else Halt
  }

  lemma TellOne(s: Store, w: World, v: World, keccak: Bytes -> Hash, req: Request)
    requires WellFormed(s)
    ensures RunOnCache(Reading([req]), 1, START, s, w, keccak).0.log == [CacheAnswer(s, w, keccak, req).0]
    ensures RunOnChain(Reading([req]), 1, START, v, keccak).log == [ChainAnswer(v, keccak, req)]
  {
    hide CacheAnswer, ChainAnswer, WellFormed;
  }

  lemma TellTwo(s: Store, w: World, v: World, keccak: Bytes -> Hash, first: Request, second: Request)
    requires WellFormed(s) && first != second
    ensures
      var (answer, t) := CacheAnswer(s, w, keccak, first);
      && WellFormed(t)
      && RunOnCache(Reading([first, second]), 2, START, s, w, keccak).0.log
         == [answer, CacheAnswer(t, w, keccak, second).0]
    ensures RunOnChain(Reading([first, second]), 2, START, v, keccak).log
            == [ChainAnswer(v, keccak, first), ChainAnswer(v, keccak, second)]
  {
    hide CacheAnswer, ChainAnswer, WellFormed;
    CacheAnswerWellFormed(s, w, keccak, first);
  }

  lemma AnswersAlike(s: Store, w: World, v: World, keccak: Bytes -> Hash, first: Request, second: Request)
    requires WellFormed(s) && LooksLike(s, w, v, keccak)
    ensures CacheAnswer(s, w, keccak, first).0 == ChainAnswer(v, keccak, first)
    ensures
      var t := CacheAnswer(s, w, keccak, first).1;
      WellFormed(t) && (first != second ==> CacheAnswer(t, w, keccak, second).0 == ChainAnswer(v, keccak, second))
  {
    hide WellFormed, CacheAnswer, ChainAnswer, Reading, RunOnCache, RunOnChain;
    CacheAnswerWellFormed(s, w, keccak, first);
    TellOne(s, w, v, keccak, first);
    var one := Reading([first]);
    assert RunOnCache(one, 1, START, s, w, keccak).0 == RunOnChain(one, 1, START, v, keccak);
    if first != second {
      TellTwo(s, w, v, keccak, first, second);
      var two := Reading([first, second]);
      assert RunOnCache(two, 2, START, s, w, keccak).0 == RunOnChain(two, 2, START, v, keccak);
      var answers := RunOnCache(two, 2, START, s, w, keccak).0.log;
      assert answers[1] == ChainAnswer(v, keccak, second);
    }
  }

  /** Nonce and balance are told apart by one read of the account. */
  lemma NumbersShow(s: Store, w: World, v: World, keccak: Bytes -> Hash, k: Key)
    requires WellFormed(s) && LooksLike(s, w, v, keccak) && (k.NonceKey? || k.BalanceKey?)
    ensures Shows(s, w, v, k)
  {
    var a := k.addr;
    AnswersAlike(s, w, v, keccak, AccountOf(a), CodeOf(a));
    hide LooksLike, Known, Hit, WellFormed, PutAccount;
    HitIsKnown(s, a);
    if Hit(s, a) {
      HitKnown(s, a, keccak);
    }
  }

  /** Code and words are told apart by a read, or by one after a read of the
      account: it may be what has them fetched. */
  lemma CodeShows(s: Store, w: World, v: World, keccak: Bytes -> Hash, a: Address)
    requires WellFormed(s) && LooksLike(s, w, v, keccak)
    ensures Shows(s, w, v, CodeKey(a))
  {
    hide LooksLike, Known, Hit, GetCode, WellFormed, PutAccount;
    AnswersAlike(s, w, v, keccak, CodeOf(a), AccountOf(a));
    ReadKnown(s, a, []);
    CodeIsCode(s, a);
    if Hit(s, a) {
      HitKnown(s, a, keccak);
    } else {
      RefetchedCode(s, w, v, keccak, a);
    }
  }

  lemma RefetchedCode(s: Store, w: World, v: World, keccak: Bytes -> Hash, a: Address)
    requires WellFormed(s) && LooksLike(s, w, v, keccak) && !Hit(s, a)
    ensures w.code(a) == v.code(a)
  {
    hide LooksLike, Known, Hit, GetCode, WellFormed, PutAccount;
    AnswersAlike(s, w, v, keccak, AccountOf(a), CodeOf(a));
    FilledKey(s, w, a, CodeKey(a));
    ReadKnown(CacheAnswer(s, w, keccak, AccountOf(a)).1, a, []);
  }

  lemma SlotShows(s: Store, w: World, v: World, keccak: Bytes -> Hash, a: Address, h: Hash)
    requires WellFormed(s) && LooksLike(s, w, v, keccak)
    ensures Shows(s, w, v, SlotKey(a, h))
  {
    hide LooksLike, Known, Hit, GetSlot, PutSlot, WellFormed, PutAccount, ToHash;
    WordOfWord(h);
    AnswersAlike(s, w, v, keccak, SlotOf(a, h), AccountOf(a));
    ReadKnown(s, a, h);
    KnownNeedsRecord(s, SlotKey(a, h));
    if !Hit(s, a) {
      RefetchedSlot(s, w, v, keccak, a, h);
    }
  }

  lemma RefetchedSlot(s: Store, w: World, v: World, keccak: Bytes -> Hash, a: Address, h: Hash)
    requires WellFormed(s) && LooksLike(s, w, v, keccak) && !Hit(s, a)
    ensures w.slot(a, h) == v.slot(a, h)
  {
    hide LooksLike, Known, Hit, GetSlot, PutSlot, WellFormed, PutAccount, ToHash;
    WordOfWord(h);
    AnswersAlike(s, w, v, keccak, AccountOf(a), SlotOf(a, h));
    FilledKey(s, w, a, SlotKey(a, h));
    ReadKnown(CacheAnswer(s, w, keccak, AccountOf(a)).1, a, h);
  }

  /** Exactly: a cache filled from w looks like v to every program, for any number
      of steps, if and only if it shows v about every key. */
  lemma {:induction false} LooksExactly(s: Store, w: World, v: World, keccak: Bytes -> Hash)
    requires WellFormed(s)
    ensures LooksLike(s, w, v, keccak) <==> ShowsAll(s, w, v)
  {
    hide Shows, WellFormed;
    if ShowsAll(s, w, v) {
      forall p: Program, n: nat
        ensures RunOnCache(p, n, START, s, w, keccak).0 == RunOnChain(p, n, START, v, keccak)
      {
        ShowsRefines(p, n, START, s, w, v, keccak);
      }
    }
    if LooksLike(s, w, v, keccak) {
      forall k
        ensures Shows(s, w, v, k)
      {
        match k
        case NonceKey(_) => NumbersShow(s, w, v, keccak, k);
        case BalanceKey(_) => NumbersShow(s, w, v, keccak, k);
        case CodeKey(a) => CodeShows(s, w, v, keccak, a);
        case SlotKey(a, h) => SlotShows(s, w, v, keccak, a, h);
      }
    }
  }

  /** A cache that agrees with the state it is filled from shows it. */
  lemma AgreementShows(s: Store, w: World)
    requires AgreesWith(s, w)
    ensures ShowsAll(s, w, w)
  {
    hide Known, Hit;
    forall k
      ensures Shows(s, w, w, k)
    {
      assert Agree(s, k, w);
    }
  }
}
