// The whole service as one machine: the chain grows, the poller and the consumer
// move blocks, and any number of threads fill misses, in any interleaving.
module Protocol {
  import opened Wrappers
  import opened ByteStrings
  import opened Accounts
  import opened Records
  import opened Diffs
  import opened Chain
  import opened ReadThrough
  import Stream

  /** A mined block: its traces and the states between its transactions. */
  datatype Block = Block(txs: seq<TxDiff>, worlds: seq<World>)

  /** A miss being served, with what has been fetched so far. */
  datatype Fill =
    | AccountFill(a: Address, nonce: Option<Uint64>, balance: Option<nat>, code: Option<Bytes>)
    | SlotFill(a: Address, key: Bytes, word: Option<Hash>)
    | CodeFill(a: Address, code: Option<Bytes>)

  /** chain[i] is the state after block i, whose traces are blocks[i]; `synced` is
      the block whose diff was folded in last, at the start the block the service
      started at. */
  datatype State = State(
    chain: seq<World>,
    blocks: seq<Block>,
    synced: nat,
    store: Store,
    fills: map<nat, Fill>,
    stream: Stream.State)

  datatype Event =
    | Mine(w: World, block: Block)
    | Poll(reached: bool, traced: bool)
    | HandOver
    | Apply
    | MoveHead
    | Begin(thread: nat, fill: Fill)
    | FetchNonce(thread: nat)
    | FetchBalance(thread: nat)
    | FetchCode(thread: nat)
    | FetchSlot(thread: nat)
    | Commit(thread: nat)
    | Abandon(thread: nat)

  ghost predicate Extends(before: World, block: Block, after: World) {
    && BlockSound(block.txs, block.worlds)
    && block.worlds[0] == before
    && block.worlds[|block.txs|] == after
  }

  ghost predicate ChainSound(s: State) {
    && |s.chain| == |s.blocks| > 0
    && forall i :: 0 < i < |s.chain| ==> Extends(s.chain[i - 1], s.blocks[i], s.chain[i])
  }

  /** The part of soundness that every operation relies on to be defined. */
  predicate Shape(s: State) {
    |s.chain| == |s.blocks| > 0 && WellFormed(s.store)
  }

  function Mined(s: State): nat
    requires |s.chain| > 0
  {
    |s.chain| - 1
  }

  /** What a fill has fetched about k. */
  function Fetched(f: Fill, k: Key): Option<Value> {
    match f
    case AccountFill(a, nonce, balance, code) =>
      if k.addr != a then None
      else if k.NonceKey? && nonce.Some? then Some(Num(nonce.value))
      else if k.BalanceKey? && balance.Some? then Some(Num(balance.value))
      else if k.CodeKey? && code.Some? then Some(Code(code.value))
      else None
    case SlotFill(a, key, word) => if k == SlotKey(a, ToHash(key)) && word.Some? then Some(Word(word.value)) else None
    case CodeFill(a, code) => if k == CodeKey(a) && code.Some? then Some(Code(code.value)) else None
  }

  predicate NothingFetched(f: Fill) {
    match f
    case AccountFill(_, nonce, balance, code) => nonce.None? && balance.None? && code.None?
    case SlotFill(_, _, word) => word.None?
    case CodeFill(_, code) => code.None?
  }

  predicate Complete(f: Fill) {
    match f
    case AccountFill(_, nonce, balance, code) => nonce.Some? && balance.Some? && code.Some?
    case SlotFill(_, _, word) => word.Some?
    case CodeFill(_, code) => code.Some?
  }

  function Committed(s: Store, f: Fill): (t: Store)
    requires WellFormed(s) && Complete(f)
    ensures WellFormed(t)
  {
    CommitWellFormed(s, f);
    match f
    case AccountFill(a, nonce, balance, code) => PutAccount(s, a, FilledAccount(nonce.value, balance.value, code.value))
    case SlotFill(a, key, word) => PutSlot(s, a, key, word.value)
    case CodeFill(a, code) => PutCode(s, a, code.value)
  }

  lemma CommitWellFormed(s: Store, f: Fill)
    requires WellFormed(s) && Complete(f)
    ensures f.AccountFill? ==>
              WellFormed(PutAccount(s, f.a, FilledAccount(f.nonce.value, f.balance.value, f.code.value)))
    ensures f.SlotFill? ==> WellFormed(PutSlot(s, f.a, f.key, f.word.value))
    ensures f.CodeFill? ==> WellFormed(PutCode(s, f.a, f.code.value))
  {
    hide WellFormed, PutAccount, PutSlot, PutCode;
    match f
    case AccountFill(a, nonce, balance, code) =>
      AccountFillKnown(s, a, nonce.value, balance.value, code.value, CodeKey(a));
    case SlotFill(a, key, word) => SlotFillKnown(s, a, key, word.value, CodeKey(a));
    case CodeFill(a, code) => CodeFillKnown(s, a, code.value, CodeKey(a));
  }

  /** The fetch of one field at the newest state. */
  function FetchInto(f: Fill, e: Event, w: World): Option<Fill> {
    match e
    case FetchNonce(_) => if f.AccountFill? && f.nonce.None? then Some(f.(nonce := Some(w.nonce(f.a)))) else None
    case FetchBalance(_) =>
      if f.AccountFill? && f.nonce.Some? && f.balance.None? then Some(f.(balance := Some(w.balance(f.a)))) else None
    case FetchCode(_) =>
      if f.AccountFill? && f.balance.Some? && f.code.None? then Some(f.(code := Some(w.code(f.a))))
      else if f.CodeFill? && f.code.None? then Some(f.(code := Some(w.code(f.a))))
      else None
    case FetchSlot(_) =>
      if f.SlotFill? && f.word.None? then Some(f.(word := Some(w.slot(f.a, ToHash(f.key))))) else None
    case _ => None
  }

  /** Two hypotheses on the moment a diff is folded in: no fill is between its
      first fetch and its write, and no block is skipped. */
  predicate QuietAndNext(s: State, n: nat) {
    && (forall t :: t in s.fills ==> NothingFetched(s.fills[t]))
    && n <= s.synced + 1
  }

  function StreamStep(s: State, e: Stream.Event): Option<State> {
    match Stream.Next(s.stream, e)
    case None => None
    case Some(st) => Some(s.(stream := st))
  }

  /** One event; None when it is not possible. */
  ghost function Next(s: State, e: Event): (t: Option<State>)
    requires Shape(s)
    ensures t.Some? ==> Shape(t.value)
  {
    match e
    case Mine(w, block) =>
      if Extends(s.chain[Mined(s)], block, w) then Some(s.(chain := s.chain + [w], blocks := s.blocks + [block]))
      else None
    case Poll(reached, traced) =>
      StreamStep(s, Stream.Poll(if reached then Ok(Mined(s)) else Err(FetchFailed), traced))
    case HandOver => StreamStep(s, Stream.HandOver)
    case Apply =>
      if s.stream.receiver.Received? && s.stream.receiver.n < |s.blocks| && QuietAndNext(s, s.stream.receiver.n) then
        var n := s.stream.receiver.n;
        StreamStep(s.(store := ProcessBlock(s.store, s.blocks[n].txs), synced := n), Stream.Apply)
      else None
    case MoveHead => StreamStep(s, Stream.MoveHead)
    case Begin(t, f) => if t !in s.fills && NothingFetched(f) then Some(s.(fills := s.fills[t := f])) else None
    case Commit(t) =>
      if t in s.fills && Complete(s.fills[t]) then
        Some(s.(store := Committed(s.store, s.fills[t]), fills := s.fills - {t}))
      else None
    case Abandon(t) => if t in s.fills then Some(s.(fills := s.fills - {t})) else None
    case _ =>
      if e.thread in s.fills && FetchInto(s.fills[e.thread], e, s.chain[Mined(s)]).Some? then
        Some(s.(fills := s.fills[e.thread := FetchInto(s.fills[e.thread], e, s.chain[Mined(s)]).value]))
      else None
  }

  /** v is a value k had after some block between the synced one and the newest. */
  ghost predicate Recent(chain: seq<World>, synced: nat, k: Key, v: Value) {
    exists j :: synced <= j < |chain| && At(chain[j], k) == v
  }

  ghost predicate RecentStore(s: State) {
    forall k :: Known(s.store, k).Some? ==> Recent(s.chain, s.synced, k, Known(s.store, k).value)
  }

  ghost predicate RecentFills(s: State) {
    forall t, k ::
      t in s.fills && Fetched(s.fills[t], k).Some? ==> Recent(s.chain, s.synced, k, Fetched(s.fills[t], k).value)
  }

  /** How the stream stands to the chain and to what was folded in. */
  predicate StreamInStep(s: State)
    requires |s.chain| > 0
  {
    && Stream.Safe(s.stream)
    && s.synced <= Mined(s)
    && (s.stream.sender.Sending? ==> s.synced <= s.stream.sender.n <= Mined(s))
    && (s.stream.receiver.Received? ==> s.synced <= s.stream.receiver.n <= Mined(s))
    && (s.stream.receiver.Applied? ==> s.stream.receiver.n == s.synced)
    && (s.stream.head.Some? ==> s.stream.head.value <= s.synced)
    && (s.stream.head.Some? && s.stream.receiver.Waiting? ==> s.stream.head.value == s.synced)
  }

  ghost predicate Inv(s: State) {
    && ChainSound(s)
    && WellFormed(s.store)
    && StreamInStep(s)
    && RecentStore(s)
    && RecentFills(s)
  }

  /** The service starts at the newest block with an empty cache and an idle stream. */
  ghost predicate Start(s: State) {
    && ChainSound(s)
    && s.synced == Mined(s)
    && s.store == map[] && s.fills == map[]
    && s.stream == Stream.INIT
  }

  lemma StartInv(s: State)
    requires Start(s)
    ensures Inv(s)
  {
  }

  lemma InvShape(s: State)
    requires Inv(s)
    ensures Shape(s) && s.synced <= Mined(s)
  {
  }

  // ----- each event keeps the invariant -----

  lemma RecentGrows(chain: seq<World>, synced: nat, k: Key, v: Value, w: World)
    requires Recent(chain, synced, k, v)
    ensures Recent(chain + [w], synced, k, v)
  {
    var j :| synced <= j < |chain| && At(chain[j], k) == v;
    assert (chain + [w])[j] == chain[j];
  }

  lemma MineKeeps(s: State, w: World, block: Block)
    requires Inv(s) && Extends(s.chain[Mined(s)], block, w)
    ensures Inv(s.(chain := s.chain + [w], blocks := s.blocks + [block]))
  {
    hide Known, Fetched, WellFormed, Recent, Extends, Stream.Safe;
    var t := s.(chain := s.chain + [w], blocks := s.blocks + [block]);
    forall k | Known(s.store, k).Some? {
      RecentGrows(s.chain, s.synced, k, Known(s.store, k).value, w);
    }
    forall i, k | i in s.fills && Fetched(s.fills[i], k).Some? {
      RecentGrows(s.chain, s.synced, k, Fetched(s.fills[i], k).value, w);
    }
  }

  lemma StreamKeeps(s: State, e: Stream.Event)
    requires Inv(s) && Stream.Next(s.stream, e).Some? && !e.Apply?
    requires e.Poll? && e.latest.Ok? ==> e.latest.value == Mined(s)
    ensures Inv(s.(stream := Stream.Next(s.stream, e).value))
  {
    hide RecentStore, RecentFills, WellFormed, ChainSound, Stream.Safe;
    Stream.NextSafe(s.stream, e);
    assert RecentStore(s.(stream := Stream.Next(s.stream, e).value)) by {
      SameData(s, s.(stream := Stream.Next(s.stream, e).value));
    }
    SameData(s, s.(stream := Stream.Next(s.stream, e).value));
  }

  lemma SameData(s: State, t: State)
    requires t.chain == s.chain && t.blocks == s.blocks && t.synced == s.synced
    requires t.store == s.store && t.fills == s.fills
    ensures RecentStore(t) <==> RecentStore(s)
    ensures RecentFills(t) <==> RecentFills(s)
    ensures ChainSound(t) <==> ChainSound(s)
  {
  }

  /** Folding in block n moves the lower bound from the old synced block to n:
      a mentioned key is repaired to n's value, an unmentioned one did not change
      in n, so a value from the block before is also one from n. */
  lemma {:induction false} ApplyRecent(s: State, n: nat, k: Key)
    requires ChainSound(s) && WellFormed(s.store)
    requires s.synced <= n <= s.synced + 1 && 0 < n < |s.chain|
    requires Known(s.store, k).Some? ==> Recent(s.chain, s.synced, k, Known(s.store, k).value)
    ensures
      var t := ProcessBlock(s.store, s.blocks[n].txs);
      Known(t, k).Some? ==> Recent(s.chain, n, k, Known(t, k).value)
  {
    hide Stored, ProcessBlock, At, TxSound, Mentioned;
    var block := s.blocks[n];
    assert Extends(s.chain[n - 1], block, s.chain[n]);
    var t := ProcessBlock(s.store, block.txs);
    BlockRepair(s.store, block.txs, block.worlds, k);
    if Known(t, k).Some? {
      var v := Known(t, k).value;
      if At(s.chain[n], k) != v {
        assert Known(s.store, k) == Some(v);
        var j :| s.synced <= j < |s.chain| && At(s.chain[j], k) == v;
        assert j != n - 1 && j >= n;
      }
    }
  }

  lemma {:induction false} ApplyKeeps(s: State)
    requires Inv(s) && Next(s, Apply).Some?
    ensures Inv(Next(s, Apply).value)
  {
    hide Known, ProcessBlock, Recent, WellFormed, Extends, Fetched;
    var n := s.stream.receiver.n;
    var t := Next(s, Apply).value;
    Stream.NextSafe(s.stream, Stream.Apply);
    Positive(s.stream);
    forall k
      ensures Known(t.store, k).Some? ==> Recent(t.chain, t.synced, k, Known(t.store, k).value)
    {
      ApplyRecent(s, n, k);
    }
    forall i, k | i in t.fills
      ensures Fetched(t.fills[i], k).None?
    {
      assert NothingFetched(s.fills[i]);
      NothingIsNone(s.fills[i], k);
    }
    Ordered(s.stream);
  }

  lemma NothingIsNone(f: Fill, k: Key)
    requires NothingFetched(f)
    ensures Fetched(f, k).None?
  {
  }

  lemma Positive(st: Stream.State)
    requires Stream.Safe(st) && st.receiver.Received?
    ensures st.receiver.n > 0
  {
    assert Stream.InFlight(st)[0] == st.receiver.n;
    assert st.emitted[|st.delivered|] == st.receiver.n;
  }

  lemma Ordered(st: Stream.State)
    requires Stream.Safe(st)
    ensures st.receiver.Received? && st.sender.Sending? ==> st.receiver.n < st.sender.n
    ensures st.receiver.Received? && st.head.Some? ==> st.head.value < st.receiver.n
  {
    if st.receiver.Received? {
      assert st.emitted[|st.delivered|] == Stream.InFlight(st)[0] == st.receiver.n;
      if st.sender.Sending? {
        assert st.emitted[|st.delivered| + 1] == Stream.InFlight(st)[1] == st.sender.n;
      }
      if st.head.Some? {
        assert st.emitted[|st.delivered| - 1] == st.head.value;
      }
    }
  }

  lemma FetchedNow(f: Fill, e: Event, w: World, k: Key)
    requires FetchInto(f, e, w).Some?
    ensures Fetched(FetchInto(f, e, w).value, k).Some? ==>
              || Fetched(FetchInto(f, e, w).value, k) == Some(At(w, k))
              || Fetched(FetchInto(f, e, w).value, k) == Fetched(f, k)
  {
  }

  lemma FetchKeeps(s: State, e: Event)
    requires Inv(s)
    requires e.FetchNonce? || e.FetchBalance? || e.FetchCode? || e.FetchSlot?
    requires Next(s, e).Some?
    ensures Inv(Next(s, e).value)
  {
    hide Known, Fetched, FetchInto, WellFormed, Extends, Stream.Safe, At;
    var t := Next(s, e).value;
    var w := s.chain[Mined(s)];
    forall i, k | i in t.fills && Fetched(t.fills[i], k).Some?
      ensures Recent(t.chain, t.synced, k, Fetched(t.fills[i], k).value)
    {
      if i == e.thread {
        FetchedNow(s.fills[i], e, w, k);
        if Fetched(t.fills[i], k) == Some(At(w, k)) {
          assert At(s.chain[Mined(s)], k) == Fetched(t.fills[i], k).value;
        }
      }
    }
  }

  lemma {:induction false} CommittedKnown(s: Store, f: Fill, k: Key)
    requires WellFormed(s) && Complete(f)
    ensures Known(Committed(s, f), k).Some? ==>
              Known(Committed(s, f), k) == Known(s, k) || Known(Committed(s, f), k) == Fetched(f, k)
    ensures Fetched(f, k).Some? && (f.AccountFill? || f.a in s) && (k.NonceKey? ==> Fetched(f, k) != Some(Num(0))) ==>
              Known(Committed(s, f), k) == Fetched(f, k)
  {
    hide Known, WellFormed, PutAccount, PutSlot, PutCode;
    match f
    case AccountFill(a, nonce, balance, code) => AccountFillKnown(s, a, nonce.value, balance.value, code.value, k);
    case SlotFill(a, key, word) =>
      SlotFillKnown(s, a, key, word.value, k);
      assert ToHash(word.value) == word.value;
    case CodeFill(a, code) => CodeFillKnown(s, a, code.value, k);
  }

  lemma {:induction false} CommitKeeps(s: State, i: nat)
    requires Inv(s) && i in s.fills && Complete(s.fills[i])
    ensures Inv(s.(store := Committed(s.store, s.fills[i]), fills := s.fills - {i}))
  {
    hide Known, Fetched, WellFormed, Extends, Stream.Safe, Recent, Committed;
    var t := s.(store := Committed(s.store, s.fills[i]), fills := s.fills - {i});
    forall k | Known(t.store, k).Some?
      ensures Recent(t.chain, t.synced, k, Known(t.store, k).value)
    {
      CommittedKnown(s.store, s.fills[i], k);
    }
  }

  lemma BeginKeeps(s: State, i: nat, f: Fill)
    requires Inv(s) && i !in s.fills && NothingFetched(f)
    ensures Inv(s.(fills := s.fills[i := f]))
  {
    hide Known, Fetched, WellFormed, Extends, Stream.Safe, Recent, NothingFetched;
    var t := s.(fills := s.fills[i := f]);
    forall j, k | j in t.fills && Fetched(t.fills[j], k).Some?
      ensures Recent(t.chain, t.synced, k, Fetched(t.fills[j], k).value)
    {
      NothingIsNone(f, k);
    }
  }

  lemma {:induction false} NextKeeps(s: State, e: Event)
    requires Inv(s) && Next(s, e).Some?
    ensures Inv(Next(s, e).value)
  {
    hide RecentStore, RecentFills, StreamInStep, WellFormed, ChainSound, Complete, Committed,
      FetchInto, Extends, NothingFetched, Stream.Next;
    match e
    case Mine(w, block) => MineKeeps(s, w, block);
    case Poll(reached, traced) =>
      StreamKeeps(s, Stream.Poll(if reached then Ok(Mined(s)) else Err(FetchFailed), traced));
    case HandOver => StreamKeeps(s, Stream.HandOver);
    case Apply => ApplyKeeps(s);
    case MoveHead => StreamKeeps(s, Stream.MoveHead);
    case Begin(t, f) => BeginKeeps(s, t, f);
    case Commit(t) => CommitKeeps(s, t);
    case Abandon(t) => AbandonKeeps(s, t);
    case _ => FetchKeeps(s, e);
  }

  lemma AbandonKeeps(s: State, i: nat)
    requires Inv(s) && i in s.fills
    ensures Inv(s.(fills := s.fills - {i}))
  {
    hide Known, Fetched, WellFormed, Extends, Stream.Safe, Recent;
  }

  // ----- every run -----

  ghost function Run(s: State, es: seq<Event>): (t: Option<State>)
    requires Shape(s)
    ensures t.Some? ==> Shape(t.value)
    decreases |es|
  {
    if |es| == 0 then Some(s) else
      match Run(s, es[..|es| - 1])
      case None => None
      case Some(t) => Next(t, es[|es| - 1])
  }

  /** A run is a chain of events: ss are the states it passes through. */
  ghost predicate Passes(ss: seq<State>, es: seq<Event>) {
    && |ss| == |es| + 1
    && forall i :: 0 <= i < |es| ==> Shape(ss[i]) && Next(ss[i], es[i]) == Some(ss[i + 1])
  }

  lemma {:induction false} RunPasses(ss: seq<State>, es: seq<Event>)
    requires |ss| > 0 && Shape(ss[0]) && Passes(ss, es)
    ensures Run(ss[0], es) == Some(ss[|es|])
    decreases |es|
  {
    hide Next, Shape;
    if |es| > 0 {
      RunPasses(ss[..|es|], es[..|es| - 1]);
    }
  }

  lemma PassesOn(ss: seq<State>, es: seq<Event>, e: Event, t: State)
    requires Passes(ss, es) && Shape(ss[|es|]) && Next(ss[|es|], e) == Some(t)
    ensures Passes(ss + [t], es + [e])
  {
    hide Next, Shape;
  }

  lemma {:induction false} RunInv(s: State, es: seq<Event>)
    requires Start(s) && Run(s, es).Some?
    ensures Inv(Run(s, es).value)
    decreases |es|
  {
    StartInv(s);
    hide Inv, Next, Start;
    if |es| > 0 {
      RunInv(s, es[..|es| - 1]);
      NextKeeps(Run(s, es[..|es| - 1]).value, es[|es| - 1]);
    }
  }

  /** Bounded staleness: after any run, whatever the cache knows about any key is
      the value the key had after some block from the synced one to the newest,
      whichever blocks the parts of a fill came from. Hence a drained cache agrees
      with the newest state on everything it knows. */
  lemma {:induction false} BoundedStaleness(s: State, es: seq<Event>, k: Key)
    requires Start(s) && Run(s, es).Some?
    ensures
      var t := Run(s, es).value;
      && s.synced <= t.synced <= Mined(t)
      && (Known(t.store, k).Some? ==>
            exists j :: t.synced <= j <= Mined(t) && At(t.chain[j], k) == Known(t.store, k).value)
      && (t.synced == Mined(t) ==> AgreesWith(t.store, t.chain[Mined(t)]))
  {
    RunInv(s, es);
    RunForward(s, es, 0);
    var t := Run(s, es).value;
    if Known(t.store, k).Some? {
      assert Recent(t.chain, t.synced, k, Known(t.store, k).value);
    }
    if t.synced == Mined(t) {
      DrainedAgrees(t);
    }
  }

  lemma DrainedAgrees(s: State)
    requires Inv(s) && s.synced == Mined(s)
    ensures AgreesWith(s.store, s.chain[s.synced])
  {
    hide Known, Stream.Safe, ChainSound, At;
    forall k
      ensures Agree(s.store, k, s.chain[s.synced])
    {
      if Known(s.store, k).Some? {
        assert Recent(s.chain, s.synced, k, Known(s.store, k).value);
      }
    }
  }

  /** Between any two points of a run the chain is only extended, and the synced
      block moves only forward. */
  lemma {:induction false} RunForward(s: State, es: seq<Event>, i: nat)
    requires Start(s) && i <= |es| && Run(s, es).Some?
    ensures Run(s, es[..i]).Some?
    ensures Run(s, es[..i]).value.synced <= Run(s, es).value.synced
    ensures Run(s, es[..i]).value.chain <= Run(s, es).value.chain
    decreases |es|
  {
    hide Next, Inv;
    if i == |es| {
      assert es[..i] == es;
    } else {
      var front := es[..|es| - 1];
      RunForward(s, front, i);
      assert front[..i] == es[..i];
      RunInv(s, front);
      NextForward(Run(s, front).value, es[|es| - 1]);
    }
  }

  /** The chain is only extended and the synced block only moves forward. */
  lemma NextForward(s: State, e: Event)
    requires Inv(s) && Next(s, e).Some?
    ensures s.synced <= Next(s, e).value.synced
    ensures s.chain <= Next(s, e).value.chain
  {
    hide RecentStore, RecentFills, WellFormed, ChainSound, Complete, Committed,
      FetchInto, Extends, NothingFetched, ProcessBlock, Stream.Safe, Stream.Next;
  }

  // ----- a fill that nothing interrupts is a read -----

  /** The service with one more fill. */
  function With(s: State, i: nat, f: Fill): State {
    s.(fills := s.fills[i := f])
  }

  lemma RunThen(s: State, es: seq<Event>, t: State, e: Event)
    requires Shape(s) && Run(s, es) == Some(t)
    ensures Shape(t) && Run(s, es + [e]) == Next(t, e)
  {
    hide Next, Shape;
    assert (es + [e])[..|es|] == es;
  }

  lemma {:induction false} BeginThen(s: State, i: nat, f: Fill)
    requires Shape(s) && i !in s.fills && NothingFetched(f)
    ensures Run(s, [Begin(i, f)]) == Some(With(s, i, f))
  {
    hide WellFormed, NothingFetched;
    assert [Begin(i, f)][..0] == [] && Run(s, []) == Some(s);
  }

  lemma {:induction false} FetchThen(s: State, es: seq<Event>, i: nat, f: Fill, e: Event, g: Fill)
    requires Shape(s) && Run(s, es) == Some(With(s, i, f))
    requires (e.FetchNonce? || e.FetchBalance? || e.FetchCode? || e.FetchSlot?) && e.thread == i
    requires FetchInto(f, e, s.chain[Mined(s)]) == Some(g)
    ensures Run(s, es + [e]) == Some(With(s, i, g))
  {
    hide WellFormed, FetchInto, Run;
    RunThen(s, es, With(s, i, f), e);
    assert With(With(s, i, f), i, g) == With(s, i, g);
  }

  lemma {:induction false} CommitThen(s: State, es: seq<Event>, i: nat, f: Fill)
    requires Shape(s) && i !in s.fills && Run(s, es) == Some(With(s, i, f)) && Complete(f)
    ensures Run(s, es + [Commit(i)]) == Some(s.(store := Committed(s.store, f)))
  {
    hide WellFormed, Complete, Committed, Run;
    RunThen(s, es, With(s, i, f), Commit(i));
    assert With(s, i, f).fills - {i} == s.fills;
  }

  lemma {:induction false} AccountFillIsRead(s: State, i: nat, a: Address, keccak: Bytes -> Hash)
    requires Shape(s) && i !in s.fills && !Hit(s.store, a)
    ensures Run(s, [Begin(i, AccountFill(a, None, None, None))] + [FetchNonce(i)] + [FetchBalance(i)] + [FetchCode(i)]
                   + [Commit(i)])
            == Some(s.(store := ReadAccount(s.store, a, keccak, ReplyFrom(s.chain[Mined(s)], a)).1))
  {
    hide Run, Next, WellFormed, PutAccount, Hit;
    var w := s.chain[Mined(s)];
    var begun := AccountFill(a, None, None, None);
    var once := begun.(nonce := Some(w.nonce(a)));
    var twice := once.(balance := Some(w.balance(a)));
    var full := twice.(code := Some(w.code(a)));
    var es := [Begin(i, begun)];
    BeginThen(s, i, begun);
    FetchThen(s, es, i, begun, FetchNonce(i), once);
    FetchThen(s, es + [FetchNonce(i)], i, once, FetchBalance(i), twice);
    FetchThen(s, es + [FetchNonce(i)] + [FetchBalance(i)], i, twice, FetchCode(i), full);
    CommitThen(s, es + [FetchNonce(i)] + [FetchBalance(i)] + [FetchCode(i)], i, full);
  }

  lemma {:induction false} SlotFillIsRead(s: State, i: nat, a: Address, key: Bytes)
    requires Shape(s) && i !in s.fills && GetSlot(s.store, a, key).Err?
    ensures Run(s, [Begin(i, SlotFill(a, key, None))] + [FetchSlot(i)] + [Commit(i)])
            == Some(s.(store := ReadSlot(s.store, a, key, Ok(s.chain[Mined(s)].slot(a, ToHash(key)))).1))
  {
    hide Run, Next, WellFormed, PutSlot, GetSlot, ToHash;
    var begun := SlotFill(a, key, None);
    var full := SlotFill(a, key, Some(s.chain[Mined(s)].slot(a, ToHash(key))));
    BeginThen(s, i, begun);
    FetchThen(s, [Begin(i, begun)], i, begun, FetchSlot(i), full);
    CommitThen(s, [Begin(i, begun)] + [FetchSlot(i)], i, full);
  }

  lemma {:induction false} CodeFillIsRead(s: State, i: nat, a: Address)
    requires Shape(s) && i !in s.fills && GetCode(s.store, a).Err?
    ensures Run(s, [Begin(i, CodeFill(a, None))] + [FetchCode(i)] + [Commit(i)])
            == Some(s.(store := ReadCode(s.store, a, Ok(s.chain[Mined(s)].code(a))).1))
  {
    hide Run, Next, WellFormed, PutCode, GetCode;
    var begun := CodeFill(a, None);
    var full := CodeFill(a, Some(s.chain[Mined(s)].code(a)));
    BeginThen(s, i, begun);
    FetchThen(s, [Begin(i, begun)], i, begun, FetchCode(i), full);
    CommitThen(s, [Begin(i, begun)] + [FetchCode(i)], i, full);
  }
}
