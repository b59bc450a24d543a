// Choosing the state a request runs on (w3backend/backend.go): the live cache,
// or a fresh one over a fetcher pinned to a past block.
module Backend {
  import opened Wrappers
  import opened ByteStrings
  import opened Accounts
  import opened Records
  import opened Diffs
  import opened Chain
  import KV = BadgerKV
  import LV = LiveView
  import Sim = Simulation
  import P = Protocol

  datatype Header = Header(number: Uint64, hash: Hash)

  /** rpc.BlockNumber: tags are negative numbers, "latest" is -2. */
  type Int64 = n: int | -0x8000_0000_0000_0000 <= n < 0x8000_0000_0000_0000
  const LATEST: Int64 := -2
  const PENDING: Int64 := -1

  datatype BlockRef = ByNumber(n: Int64) | ByHash(h: Hash)

  /** Go's conversion of an int64 to uint64. */
  function ToUint64(n: Int64): Uint64 {
    if n < 0 then n + 0x1_0000_0000_0000_0000 else n
  }

  datatype View = Pinned(n: nat) | Live

  /** Which block a request names, given the head and the node's reply. */
  function Resolve(head: Option<Header>, ref: BlockRef, reply: Result<Header>): Result<Header> {
    match ref
    case ByHash(_) => reply
    case ByNumber(n) =>
      if head.Some? && (n == LATEST || head.value.number == ToUint64(n)) then Ok(head.value) else reply
  }

  function ViewAt(head: Option<Header>, block: Header): View {
    if head.None? || block.number < head.value.number then Pinned(block.number) else Live
  }

  /** The head answers for "latest" and for its own number, taken modulo 2^64, and
      for nothing else: every other number, tag and hash gets the node's reply,
      error or not. */
  lemma HeadAnswersForItself(head: Option<Header>, ref: BlockRef, reply: Result<Header>)
    ensures
      var own := head.Some? && ref.ByNumber?
                 && (ref.n == LATEST || head.value.number == ref.n
                     || head.value.number == ref.n + 0x1_0000_0000_0000_0000);
      Resolve(head, ref, reply) == if own then Ok(head.value) else reply
  {
  }

  class W3Backend {
    var head: Option<Header>

    constructor ()
      ensures head == None
    {
      head := None;
    }

    method SetHead(block: Header)
      modifies this
      ensures head == Some(block)
    {
      head := Some(block);
    }

    method BlockByNumber(ref: BlockRef, reply: Result<Header>) returns (block: Result<Header>)
      requires !ref.ByHash?
      ensures block == Resolve(head, ref, reply)
    {
      if head.Some? && (ref.n == LATEST || head.value.number == ToUint64(ref.n)) {
        return Ok(head.value);
      }
      return reply;
    }

    method StateAtBlock(block: Header) returns (view: View)
      ensures view == ViewAt(head, block)
      ensures view.Live? <==> head.Some? && head.value.number <= block.number
    {
      if head.None? || block.number < head.value.number {
        view := Pinned(block.number);
      } else {
        view := Live;
      }
    }

    method StateAndHeaderByNumberOrHash(ref: BlockRef, reply: Result<Header>) returns (r: Result<(View, Header)>)
      ensures r == match Resolve(head, ref, reply)
                   case Err(e) => Err(e)
                   case Ok(block) => Ok((ViewAt(head, block), block))
    {
      var block := reply;
      if !ref.ByHash? {
        block := BlockByNumber(ref, reply);
      }
      if block.Err? {
        return Err(block.error);
      }
      var view := StateAtBlock(block.value);
      return Ok((view, block.value));
    }
  }

  /** One turn of updateState: fold the diff in, then move the head. */
  method Deliver(kv: KV.BadgerKV, backend: W3Backend, trace: seq<KV.TxTrace>, block: Header)
    requires kv.Valid()
    modifies kv, backend
    ensures kv.Valid()
    ensures kv.bdb == ProcessBlock(old(kv.bdb), old(KV.TraceContents(trace)))
    ensures backend.head == Some(block)
  {
    hide ProcessBlock, WellFormed, KV.TraceContents, KV.StateContents, KV.Refs;
    kv.ProcessState(trace);
    backend.SetHead(block);
  }

  // ----- against the whole service -----

  /** headers[i] is the header of block i; the node answers from them. */
  predicate HeadersOf(headers: seq<Header>, s: P.State) {
    && |headers| == |s.chain|
    && forall i :: 0 <= i < |headers| ==> headers[i].number == i
  }

  /** A pending block is none of the chain's yet. */
  predicate OfTheChain(ref: BlockRef) {
    ref != ByNumber(PENDING)
  }

  /** The node's reply: the named block if it has it, the block of its choice for
      "safe" and "finalized", and some error otherwise. Nothing is assumed of the
      reply to "pending". */
  predicate Replies(headers: seq<Header>, tagged: Int64 -> nat, ref: BlockRef, reply: Result<Header>) {
    reply.Ok? && OfTheChain(ref) ==>
      && reply.value in headers
      && match ref
         case ByNumber(n) =>
           reply.value.number == if n >= 0 then n else if n == LATEST then |headers| - 1 else tagged(n)
         case ByHash(h) => reply.value.hash == h
  }

  function HeadOf(headers: seq<Header>, s: P.State): Option<Header>
    requires s.stream.head.Some? ==> s.stream.head.value < |headers|
  {
    if s.stream.head.None? then None else Some(headers[s.stream.head.value])
  }

  /** What a program sees through a view. */
  function RunOnView(view: View, p: Sim.Program, n: nat, s: P.State, keccak: Bytes -> Hash): Sim.Run
    requires P.Shape(s) && (view.Pinned? ==> view.n < |s.chain|)
  {
    match view
    case Pinned(b) => Sim.RunOnCache(p, n, Sim.START, map[], s.chain[b], keccak).0
    case Live => Sim.RunOnCache(p, n, Sim.START, s.store, s.chain[P.Mined(s)], keccak).0
  }

  /** A request resolves to a block of the chain, whatever it names but "pending",
      and to the one it names by number, by hash, by a tag, or as "latest": the
      head once there is one. */
  lemma ResolvesToNamedBlock(
      s: P.State, headers: seq<Header>, tagged: Int64 -> nat, ref: BlockRef, reply: Result<Header>)
    requires P.Inv(s) && HeadersOf(headers, s) && Replies(headers, tagged, ref, reply)
    ensures s.stream.head.Some? ==> s.stream.head.value < |headers|
    ensures
      var block := Resolve(HeadOf(headers, s), ref, reply);
      block.Ok? && OfTheChain(ref) ==>
        && block.value.number < |headers| && headers[block.value.number] == block.value
        && match ref
           case ByNumber(n) =>
             && (n >= 0 ==> block.value.number == n)
             && (n == LATEST ==>
                   block.value.number == if s.stream.head.Some? then s.stream.head.value else P.Mined(s))
             // a head of that number is taken for the tag
             && (n < 0 && n != LATEST && s.stream.head != Some(n + 0x1_0000_0000_0000_0000) ==>
                   block.value.number == tagged(n))
           case ByHash(h) => block.value.hash == h
  {
    if reply.Ok? && OfTheChain(ref) {
      var i :| 0 <= i < |headers| && headers[i] == reply.value;
    }
  }

  lemma PinnedRefines(p: Sim.Program, n: nat, w: World, keccak: Bytes -> Hash)
    ensures Sim.RunOnCache(p, n, Sim.START, map[], w, keccak).0 == Sim.RunOnChain(p, n, Sim.START, w, keccak)
  {
    Sim.SimulationRefines(p, n, Sim.START, map[], w, keccak);
  }

  /** Through the view every program, for any number of steps, sees the chain
      state after block b. */
  ghost predicate Matches(view: View, b: nat, s: P.State, keccak: Bytes -> Hash)
    requires P.Shape(s) && b < |s.chain| && (view.Pinned? ==> view.n < |s.chain|)
  {
    forall p: Sim.Program, n: nat ::
      RunOnView(view, p, n, s, keccak) == Sim.RunOnChain(p, n, Sim.START, s.chain[b], keccak)
  }

  /** The cache, filled from the newest block, shows block b. */
  ghost predicate ShowsBlock(s: P.State, b: nat)
    requires b < |s.chain|
  {
    LV.ShowsAll(s.store, s.chain[P.Mined(s)], s.chain[b])
  }

  /** The state chosen for a block, in a reachable state of the service: pinned it
      always matches, live exactly when the cache shows the block. */
  lemma {:induction false} ViewMatches(t: P.State, head: Option<Header>, block: Header, keccak: Bytes -> Hash)
    requires P.Inv(t) && block.number < |t.chain|
    ensures P.Shape(t)
    ensures Matches(ViewAt(head, block), block.number, t, keccak)
            <==> ViewAt(head, block).Pinned? || ShowsBlock(t, block.number)
  {
    P.InvShape(t);
    hide P.Inv, Sim.RunOnCache, Sim.RunOnChain, LV.ShowsAll, WellFormed;
    var b := block.number;
    match ViewAt(head, block)
    case Pinned(_) =>
      forall p: Sim.Program, n: nat
        ensures RunOnView(Pinned(b), p, n, t, keccak) == Sim.RunOnChain(p, n, Sim.START, t.chain[b], keccak)
      {
        PinnedRefines(p, n, t.chain[b], keccak);
      }
    case Live =>
      LiveLooksLike(t, b, keccak);
      LV.LooksExactly(t.store, t.chain[P.Mined(t)], t.chain[b], keccak);
  }

  lemma LiveLooksLike(t: P.State, b: nat, keccak: Bytes -> Hash)
    requires P.Shape(t) && b < |t.chain|
    ensures Matches(Live, b, t, keccak) <==> LV.LooksLike(t.store, t.chain[P.Mined(t)], t.chain[b], keccak)
  {
    hide Sim.RunOnCache, Sim.RunOnChain, WellFormed;
    if Matches(Live, b, t, keccak) {
      forall p: Sim.Program, n: nat
        ensures Sim.RunOnCache(p, n, Sim.START, t.store, t.chain[P.Mined(t)], keccak).0
                == Sim.RunOnChain(p, n, Sim.START, t.chain[b], keccak)
      {
        assert RunOnView(Live, p, n, t, keccak) == Sim.RunOnChain(p, n, Sim.START, t.chain[b], keccak);
      }
    }
  }

  /** The cache shows the newest block once it is drained at it. */
  lemma DrainedShows(t: P.State)
    requires P.Inv(t) && t.synced == P.Mined(t)
    ensures ShowsBlock(t, t.synced)
  {
    P.DrainedAgrees(t);
    hide P.Inv;
    LV.AgreementShows(t.store, t.chain[t.synced]);
  }

  /** Resolved in one reachable state of the service, run in a later one. */
  lemma {:induction false} MatchesLater(
      s: P.State, t: P.State, headers: seq<Header>, tagged: Int64 -> nat, ref: BlockRef, reply: Result<Header>,
      keccak: Bytes -> Hash)
    requires P.Inv(s) && P.Inv(t) && s.chain <= t.chain
    requires HeadersOf(headers, t) && Replies(headers[..|s.chain|], tagged, ref, reply)
    ensures P.Shape(t)
    ensures s.stream.head.Some? ==> s.stream.head.value < |s.chain|
    ensures t.stream.head.Some? ==> t.stream.head.value < |t.chain|
    ensures
      var block := Resolve(HeadOf(headers[..|s.chain|], s), ref, reply);
      block.Ok? && OfTheChain(ref) ==>
        var b := block.value.number;
        && b < |headers| && block.value == headers[b]
        && (Matches(ViewAt(HeadOf(headers, t), block.value), b, t, keccak) <==>
            t.stream.head.None? || b < t.stream.head.value || ShowsBlock(t, b))
        && (t.synced == P.Mined(t) == b ==> ShowsBlock(t, b))
  {
    HeadInChain(s);
    HeadInChain(t);
    P.InvShape(t);
    hide P.Inv, Resolve, Matches, ShowsBlock;
    ResolvesToNamedBlock(s, headers[..|s.chain|], tagged, ref, reply);
    var block := Resolve(HeadOf(headers[..|s.chain|], s), ref, reply);
    if block.Ok? && OfTheChain(ref) {
      ViewMatches(t, HeadOf(headers, t), block.value, keccak);
      if t.synced == P.Mined(t) {
        DrainedShows(t);
      }
    }
  }

  /** When header and state match. The block is resolved after i events of a run
      and the state chosen after all of them, the head having moved meanwhile or
      not: every program sees the chain state after that block exactly when there
      is no head, the block is below it, or the cache shows the block, as it does
      when drained at it. */
  lemma {:induction false} HeaderMatchesState(
      start: P.State, es: seq<P.Event>, i: nat, headers: seq<Header>, tagged: Int64 -> nat, ref: BlockRef,
      reply: Result<Header>, keccak: Bytes -> Hash)
    requires P.Start(start) && i <= |es| && P.Run(start, es).Some?
    requires HeadersOf(headers, P.Run(start, es).value)
    // the two conditions below always hold; they only let the next line be read
    requires P.Run(start, es[..i]).Some? && |P.Run(start, es[..i]).value.chain| <= |headers| ==>
               Replies(headers[..|P.Run(start, es[..i]).value.chain|], tagged, ref, reply)
    ensures P.Run(start, es[..i]).Some? && |P.Run(start, es[..i]).value.chain| <= |headers|
    ensures
      var s, t := P.Run(start, es[..i]).value, P.Run(start, es).value;
      && (s.stream.head.Some? ==> s.stream.head.value < |s.chain|)
      && (t.stream.head.Some? ==> t.stream.head.value < |t.chain|)
      && var block := Resolve(HeadOf(headers[..|s.chain|], s), ref, reply);
         block.Ok? && OfTheChain(ref) ==>
           var b := block.value.number;
           && b < |headers| && block.value == headers[b]
           && (Matches(ViewAt(HeadOf(headers, t), block.value), b, t, keccak) <==>
               t.stream.head.None? || b < t.stream.head.value || ShowsBlock(t, b))
           && (t.synced == P.Mined(t) == b ==> ShowsBlock(t, b))
  {
    hide P.Start, P.Run, P.Inv, P.Shape, Replies, Resolve, Matches, ShowsBlock;
    StartShape(start);
    P.RunForward(start, es, i);
    P.RunInv(start, es);
    P.RunInv(start, es[..i]);
    MatchesLater(P.Run(start, es[..i]).value, P.Run(start, es).value, headers, tagged, ref, reply, keccak);
  }

  lemma StartShape(s: P.State)
    requires P.Start(s)
    ensures P.Shape(s)
  {
  }

  lemma HeadInChain(s: P.State)
    requires P.Inv(s)
    ensures |s.chain| > 0 && (s.stream.head.Some? ==> s.stream.head.value < |s.chain|)
  {
  }

  // ----- at a head that is not drained -----

  /** An empty block is mined and delivered, then one that sets a's balance is mined. */
  ghost function EmptyBlockEvents(w: World): seq<P.Event> {
    [P.Mine(w, P.Block([], [w])), P.Poll(true, true), P.HandOver, P.Apply, P.MoveHead]
  }

  ghost function Overtaking(w: World, a: Address, balance: nat): P.Event {
    var after := WithBalance(w, a, balance);
    P.Mine(after, P.Block([BalanceTrace(w, a, balance)], [w, after]))
  }

  /** The states it passes through. */
  ghost function EmptyBlockStates(s: P.State): seq<P.State>
    requires P.Shape(s)
  {
    var w, n := s.chain[P.Mined(s)], |s.chain|;
    var mined := s.(chain := s.chain + [w], blocks := s.blocks + [P.Block([], [w])]);
    var sent := mined.(stream := P.Stream.State(n, P.Stream.Sending(n), P.Stream.Waiting, None, [n], []));
    var received := mined.(stream := P.Stream.State(n, P.Stream.Polling, P.Stream.Received(n), None, [n], []));
    var applied := mined.(
      stream := P.Stream.State(n, P.Stream.Polling, P.Stream.Applied(n), None, [n], []), synced := n);
    var moved := applied.(stream := P.Stream.State(n, P.Stream.Polling, P.Stream.Waiting, Some(n), [n], [n]));
    [s, mined, sent, received, applied, moved]
  }

  lemma EmptyBlockPasses(s: P.State)
    requires P.Start(s)
    ensures P.Shape(s) && P.Passes(EmptyBlockStates(s), EmptyBlockEvents(s.chain[P.Mined(s)]))
  {
    StartShape(s);
    var w, n, es, ss := s.chain[P.Mined(s)], |s.chain|, EmptyBlockEvents(s.chain[P.Mined(s)]), EmptyBlockStates(s);
    assert P.Extends(w, P.Block([], [w]), w);
    var none: seq<nat> := [];
    assert none + [n] == [n];
    assert P.Next(ss[0], es[0]) == Some(ss[1]);
    assert P.Next(ss[1], es[1]) == Some(ss[2]);
    assert P.Next(ss[2], es[2]) == Some(ss[3]);
    assert P.Next(ss[3], es[3]) == Some(ss[4]) by {
      EmptyBlock(s.store, [], CodeKey(seq(20, i => 0)));
    }
    assert P.Next(ss[4], es[4]) == Some(ss[5]);
  }

  lemma Overtakes(t: P.State, a: Address, balance: nat)
    requires P.Shape(t)
    ensures
      var w := t.chain[P.Mined(t)];
      P.Next(t, Overtaking(w, a, balance)) ==
      Some(t.(
             chain := t.chain + [WithBalance(w, a, balance)],
             blocks := t.blocks + [Overtaking(w, a, balance).block]))
  {
    BalanceTraceIsSound(t.chain[P.Mined(t)], a, balance);
  }

  lemma ReadsBalance(s: Store, w: World, v: World, a: Address, keccak: Bytes -> Hash)
    requires s == map[] && w.balance(a) != v.balance(a)
    ensures !LV.ShowsAll(s, v, w)
  {
    assert !LV.Shows(s, v, w, BalanceKey(a));
  }

  /** The condition can fail. From every start there is a run after which the
      head is not drained and a request at the head does not see the state of the
      header it was given, but a newer one. */
  lemma {:induction false} HeadOvertaken(
      s: P.State, headers: seq<Header>, a: Address, balance: nat, keccak: Bytes -> Hash)
    requires P.Start(s) && s.chain[P.Mined(s)].balance(a) != balance
    ensures
      var w := s.chain[P.Mined(s)];
      var run := P.Run(s, EmptyBlockEvents(w) + [Overtaking(w, a, balance)]);
      && run.Some?
      && var t, n := run.value, |s.chain|;
         && t.stream.head == Some(n) && t.synced == n < P.Mined(t)
         && (HeadersOf(headers, t) ==>
               && ViewAt(HeadOf(headers, t), headers[n]) == Live
               && !Matches(Live, n, t, keccak) && Matches(Live, P.Mined(t), t, keccak))
  {
    EmptyBlockPasses(s);
    var w, n, es, ss := s.chain[P.Mined(s)], |s.chain|, EmptyBlockEvents(s.chain[P.Mined(s)]), EmptyBlockStates(s);
    var e := Overtaking(w, a, balance);
    assert ss[5].chain[P.Mined(ss[5])] == w && ss[5].store == map[];
    Overtakes(ss[5], a, balance);
    var t := P.Next(ss[5], e).value;
    assert t.chain[n] == w && t.chain[P.Mined(t)] == WithBalance(w, a, balance);
    assert t.stream.head == Some(n) && t.synced == n && t.store == map[];
    hide P.Next, P.Start, P.Passes, Matches;
    P.PassesOn(ss, es, e, t);
    P.RunPasses(ss + [t], es + [e]);
    EmptyShowsItself(t, n, a, keccak);
  }

  lemma EmptyShowsItself(t: P.State, n: nat, a: Address, keccak: Bytes -> Hash)
    requires P.Shape(t) && t.store == map[] && n < |t.chain|
    requires t.chain[n].balance(a) != t.chain[P.Mined(t)].balance(a)
    ensures !Matches(Live, n, t, keccak) && Matches(Live, P.Mined(t), t, keccak)
  {
    hide Matches, LV.LooksLike;
    var w := t.chain[P.Mined(t)];
    LiveLooksLike(t, n, keccak);
    LiveLooksLike(t, P.Mined(t), keccak);
    LV.LooksExactly(t.store, w, t.chain[n], keccak);
    LV.LooksExactly(t.store, w, w, keccak);
    ReadsBalance(t.store, t.chain[n], w, a, keccak);
    LV.AgreementShows(t.store, w);
  }
}
