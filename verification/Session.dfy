// A simulation that runs while the service goes on around it: blocks are mined
// and delivered, the head moves, other threads fill misses, and the misses of
// the program itself are served one fetch at a time in between.
module Session {
  import opened Wrappers
  import opened ByteStrings
  import opened Accounts
  import opened Records
  import opened Chain
  import opened ReadThrough
  import Sim = Simulation
  import P = Protocol

  /** The synced and the newest block at the moment something was answered. */
  datatype Span = Span(synced: nat, mined: nat)

  /** The service, the program's run, when each of its items was answered, and
      how many actions it has performed. */
  datatype State = State(sys: P.State, run: Sim.Run, asOf: map<Sim.Request, Span>, steps: nat)

  /** The program, its thread, and the hash function. */
  datatype Setup = Setup(p: Sim.Program, me: nat, keccak: Bytes -> Hash)

  /** Service: any event of the service, or a fetch of the program's own fill.
      Program: the program goes on as far as it can. FetchFails: a fetch of its
      own fill fails. */
  datatype Turn = Service(e: P.Event) | Program | FetchFails

  /** The program alone begins, commits and abandons the fills of its thread. */
  predicate Owns(me: nat, e: P.Event) {
    (e.Begin? || e.Commit? || e.Abandon?) && e.thread == me
  }

  /** What the cache answers without a fetch. */
  function FromStore(s: Store, req: Sim.Request, keccak: Bytes -> Hash): Option<Sim.Answer> {
    match req
    case AccountOf(a) =>
      if !Hit(s, a) then None else
        var acc := GetAccount(s, a).value;
        Some(Sim.AccountIs(StateAccount(acc.nonce.value, acc.balance.value, CodeHash(acc, keccak))))
    case CodeOf(a) => if GetCode(s, a).Ok? then Some(Sim.CodeIs(GetCode(s, a).value)) else None
    case CodeSizeOf(a) => if GetCode(s, a).Ok? then Some(Sim.SizeIs(|GetCode(s, a).value|)) else None
    case SlotOf(a, h) => if GetSlot(s, a, h).Ok? then Some(Sim.WordIs(GetSlot(s, a, h).value)) else None
  }

  /** The fill that serves a miss, and whether f is one. */
  function FillFor(req: Sim.Request): P.Fill {
    match req
    case AccountOf(a) => P.AccountFill(a, None, None, None)
    case CodeOf(a) => P.CodeFill(a, None)
    case CodeSizeOf(a) => P.CodeFill(a, None)
    case SlotOf(a, h) => P.SlotFill(a, h, None)
  }

  predicate Serves(f: P.Fill, req: Sim.Request) {
    match req
    case AccountOf(a) => f.AccountFill? && f.a == a
    case CodeOf(a) => f.CodeFill? && f.a == a
    case CodeSizeOf(a) => f.CodeFill? && f.a == a
    case SlotOf(a, h) => f.SlotFill? && f.a == a && f.key == h
  }

  function FromFill(f: P.Fill, req: Sim.Request, keccak: Bytes -> Hash): Sim.Answer
    requires P.Complete(f) && Serves(f, req)
  {
    match req
    case AccountOf(a) => Sim.AccountIs(StateAccount(f.nonce.value, f.balance.value, keccak(f.code.value)))
    case CodeOf(a) => Sim.CodeIs(f.code.value)
    case CodeSizeOf(a) => Sim.SizeIs(|f.code.value|)
    case SlotOf(a, h) => Sim.WordIs(f.word.value)
  }

  /** The fill that serves a miss, with all it fetches at one state. */
  function FilledFor(req: Sim.Request, w: World): P.Fill {
    match req
    case AccountOf(a) => P.AccountFill(a, Some(w.nonce(a)), Some(w.balance(a)), Some(w.code(a)))
    case CodeOf(a) => P.CodeFill(a, Some(w.code(a)))
    case CodeSizeOf(a) => P.CodeFill(a, Some(w.code(a)))
    case SlotOf(a, h) => P.SlotFill(a, h, Some(w.slot(a, ToHash(h))))
  }

  /** Hits and fills together are the reads of the database: a hit is answered and
      changes nothing, and a miss is the fill, committed and answered. */
  lemma {:induction false} HitsAndFillsAreReads(s: Store, w: World, req: Sim.Request, keccak: Bytes -> Hash)
    requires WellFormed(s)
    ensures P.Complete(FilledFor(req, w)) && Serves(FilledFor(req, w), req)
    ensures Sim.CacheAnswer(s, w, keccak, req) ==
            match FromStore(s, req, keccak)
            case Some(answer) => (answer, s)
            case None => (FromFill(FilledFor(req, w), req, keccak), P.Committed(s, FilledFor(req, w)))
  {
    hide WellFormed, PutAccount, PutSlot, PutCode, GetCode, GetSlot, Hit, ToHash;
    match req
    case AccountOf(a) => assert |w.code(a)| == 0 ==> w.code(a) == [];
    case CodeOf(a) =>
    case CodeSizeOf(a) =>
    case SlotOf(a, h) =>
  }

  function Answered(v: State, sys: P.State, action: Sim.Action, answer: Sim.Answer): State
    requires !action.Halt? && |v.sys.chain| > 0
  {
    State(
      sys,
      Sim.Perform(Sim.Load(v.run, action.req, answer), action),
      v.asOf[action.req := Span(v.sys.synced, P.Mined(v.sys))],
      v.steps + 1)
  }

  /** One turn of the program: an item it holds is at hand, a hit is answered by
      the cache; a miss begins a fill, and a complete fill is written and answers. */
  ghost function Step(x: Setup, v: State): (u: Option<State>)
    requires P.Shape(v.sys)
    ensures u.Some? ==> P.Shape(u.value.sys)
  {
    var action := x.p(v.run.log);
    if action.Halt? then Some(v.(steps := v.steps + 1))
    else if x.me in v.sys.fills then
      var f := v.sys.fills[x.me];
      var sys := P.Next(v.sys, P.Commit(x.me));
      if sys.None? || !Serves(f, action.req) then None
      else Some(Answered(v, sys.value, action, FromFill(f, action.req, x.keccak)))
    else if Sim.Holds(v.run, action.req) then Some(v.(run := Sim.Perform(v.run, action), steps := v.steps + 1))
    else
      var answer := FromStore(v.sys.store, action.req, x.keccak);
      if answer.Some? then Some(Answered(v, v.sys, action, answer.value))
      else
        var sys := P.Next(v.sys, P.Begin(x.me, FillFor(action.req)));
        if sys.None? then None else Some(v.(sys := sys.value))
  }

  /** None when the turn is not possible. */
  ghost function Next(x: Setup, v: State, turn: Turn): (u: Option<State>)
    requires P.Shape(v.sys)
    ensures u.Some? ==> P.Shape(u.value.sys)
  {
    match turn
    case Service(e) =>
      if Owns(x.me, e) || P.Next(v.sys, e).None? then None else Some(v.(sys := P.Next(v.sys, e).value))
    case Program => Step(x, v)
    case FetchFails =>
      var sys := P.Next(v.sys, P.Abandon(x.me));
      if sys.None? || x.p(v.run.log).Halt? then None
      else Some(State(sys.value, Sim.Perform(v.run, x.p(v.run.log)), v.asOf, v.steps + 1))
  }

  ghost function Run(x: Setup, s: P.State, turns: seq<Turn>): (v: Option<State>)
    requires P.Shape(s)
    ensures v.Some? ==> P.Shape(v.value.sys)
    decreases |turns|
  {
    if |turns| == 0 then Some(State(s, Sim.START, map[], 0)) else
      match Run(x, s, turns[..|turns| - 1])
      case None => None
      case Some(v) => Next(x, v, turns[|turns| - 1])
  }

  // ----- how old an answer can be -----

  /** v is a value k had after some block of the span. */
  ghost predicate Had(chain: seq<World>, span: Span, k: Key, v: Value) {
    exists j :: span.synced <= j <= span.mined && j < |chain| && At(chain[j], k) == v
  }

  /** Every component of the answer is a value of the span; those of one account
      need not be of the same block. */
  ghost predicate Justified(
      chain: seq<World>, span: Span, req: Sim.Request, answer: Sim.Answer, keccak: Bytes -> Hash)
  {
    match req
    case AccountOf(a) =>
      && answer.AccountIs?
      && Had(chain, span, NonceKey(a), Num(answer.account.nonce))
      && Had(chain, span, BalanceKey(a), Num(answer.account.balance))
      && exists code :: keccak(code) == answer.account.codeHash && Had(chain, span, CodeKey(a), Code(code))
    case CodeOf(a) => answer.CodeIs? && Had(chain, span, CodeKey(a), Code(answer.code))
    case CodeSizeOf(a) =>
      answer.SizeIs? && exists code: Bytes :: |code| == answer.size && Had(chain, span, CodeKey(a), Code(code))
    case SlotOf(a, h) => answer.WordIs? && Had(chain, span, SlotKey(a, h), Word(answer.word))
  }

  lemma RecentIsHad(s: P.State, k: Key, v: Value)
    requires |s.chain| > 0 && P.Recent(s.chain, s.synced, k, v)
    ensures Had(s.chain, Span(s.synced, P.Mined(s)), k, v)
  {
    hide At;
    var j :| s.synced <= j < |s.chain| && At(s.chain[j], k) == v;
    assert j <= P.Mined(s);
  }

  lemma HadGrows(chain: seq<World>, more: seq<World>, span: Span, k: Key, v: Value)
    requires chain <= more && Had(chain, span, k, v)
    ensures Had(more, span, k, v)
  {
    hide At;
    var j :| span.synced <= j <= span.mined && j < |chain| && At(chain[j], k) == v;
    assert more[j] == chain[j];
  }

  lemma JustifiedGrows(
      chain: seq<World>, more: seq<World>, span: Span, req: Sim.Request, answer: Sim.Answer, keccak: Bytes -> Hash)
    requires chain <= more && Justified(chain, span, req, answer, keccak)
    ensures Justified(more, span, req, answer, keccak)
  {
    hide Had;
    match req
    case AccountOf(a) =>
      HadGrows(chain, more, span, NonceKey(a), Num(answer.account.nonce));
      HadGrows(chain, more, span, BalanceKey(a), Num(answer.account.balance));
      var code :| keccak(code) == answer.account.codeHash && Had(chain, span, CodeKey(a), Code(code));
      HadGrows(chain, more, span, CodeKey(a), Code(code));
    case CodeOf(a) => HadGrows(chain, more, span, CodeKey(a), Code(answer.code));
    case CodeSizeOf(a) =>
      var code: Bytes :| |code| == answer.size && Had(chain, span, CodeKey(a), Code(code));
      HadGrows(chain, more, span, CodeKey(a), Code(code));
    case SlotOf(a, h) => HadGrows(chain, more, span, SlotKey(a, h), Word(answer.word));
  }

  /** When nothing is undelivered, a justified answer is the chain's. */
  lemma JustifiedNow(chain: seq<World>, m: nat, req: Sim.Request, answer: Sim.Answer, keccak: Bytes -> Hash)
    requires m < |chain| && Justified(chain, Span(m, m), req, answer, keccak)
    ensures answer == Sim.ChainAnswer(chain[m], keccak, req)
  {
  }

  lemma KnownIsHad(s: P.State, k: Key)
    requires P.Inv(s) && Known(s.store, k).Some?
    ensures Had(s.chain, Span(s.synced, P.Mined(s)), k, Known(s.store, k).value)
  {
    hide Known, Had, P.Recent, P.ChainSound, P.RecentFills, P.Stream.Safe, WellFormed;
    RecentIsHad(s, k, Known(s.store, k).value);
  }

  lemma FetchedIsHad(s: P.State, i: nat, k: Key)
    requires P.Inv(s) && i in s.fills && P.Fetched(s.fills[i], k).Some?
    ensures Had(s.chain, Span(s.synced, P.Mined(s)), k, P.Fetched(s.fills[i], k).value)
  {
    hide P.Fetched, Had, P.Recent, P.ChainSound, P.RecentStore, P.Stream.Safe, WellFormed;
    RecentIsHad(s, k, P.Fetched(s.fills[i], k).value);
  }

  lemma {:induction false} HitJustified(s: P.State, req: Sim.Request, keccak: Bytes -> Hash)
    requires P.Inv(s) && FromStore(s.store, req, keccak).Some?
    ensures Justified(s.chain, Span(s.synced, P.Mined(s)), req, FromStore(s.store, req, keccak).value, keccak)
  {
    hide P.Inv, Had, Known, GetSlot, GetCode, Hit, WellFormed;
    assert WellFormed(s.store) by {
      P.InvShape(s);
    }
    match req
    case AccountOf(a) =>
      HitKnown(s.store, a, keccak);
      KnownIsHad(s, NonceKey(a));
      KnownIsHad(s, BalanceKey(a));
      KnownIsHad(s, CodeKey(a));
    case CodeOf(a) =>
      ReadKnown(s.store, a, []);
      KnownIsHad(s, CodeKey(a));
    case CodeSizeOf(a) =>
      ReadKnown(s.store, a, []);
      KnownIsHad(s, CodeKey(a));
    case SlotOf(a, h) =>
      ReadKnown(s.store, a, h);
      WordOfWord(h);
      KnownIsHad(s, SlotKey(a, h));
  }

  lemma {:induction false} FillJustified(s: P.State, i: nat, req: Sim.Request, keccak: Bytes -> Hash)
    requires P.Inv(s) && i in s.fills && P.Complete(s.fills[i]) && Serves(s.fills[i], req)
    ensures |s.chain| > 0
    ensures Justified(s.chain, Span(s.synced, P.Mined(s)), req, FromFill(s.fills[i], req, keccak), keccak)
  {
    P.InvShape(s);
    hide P.Inv, Had;
    match req
    case AccountOf(a) =>
      FetchedIsHad(s, i, NonceKey(a));
      FetchedIsHad(s, i, BalanceKey(a));
      FetchedIsHad(s, i, CodeKey(a));
    case CodeOf(a) => FetchedIsHad(s, i, CodeKey(a));
    case CodeSizeOf(a) => FetchedIsHad(s, i, CodeKey(a));
    case SlotOf(a, h) =>
      WordOfWord(h);
      FetchedIsHad(s, i, SlotKey(a, h));
  }

  // ----- every turn -----

  predicate Waiting(x: Setup, v: State) {
    x.me in v.sys.fills ==>
      var action := x.p(v.run.log);
      !action.Halt? && !Sim.Holds(v.run, action.req) && Serves(v.sys.fills[x.me], action.req)
  }

  /** Whatever the program was given, since the block that was synced when it
      started: every component of it is the value after some block between the
      synced one and the newest at that moment. */
  ghost predicate AnswersRecent(x: Setup, since: nat, v: State) {
    && v.asOf.Keys == v.run.origin.Keys
    && forall req :: req in v.asOf ==>
         && since <= v.asOf[req].synced <= v.asOf[req].mined < |v.sys.chain|
         && Justified(v.sys.chain, v.asOf[req], req, v.run.origin[req], x.keccak)
  }

  ghost predicate Inv(x: Setup, since: nat, v: State) {
    && P.Inv(v.sys) && since <= v.sys.synced
    && Waiting(x, v)
    && AnswersRecent(x, since, v)
  }

  lemma AnswersGrow(x: Setup, since: nat, v: State, sys: P.State)
    requires AnswersRecent(x, since, v) && v.sys.chain <= sys.chain
    ensures AnswersRecent(x, since, v.(sys := sys))
  {
    hide Justified;
    forall req | req in v.asOf
      ensures Justified(sys.chain, v.asOf[req], req, v.run.origin[req], x.keccak)
    {
      JustifiedGrows(v.sys.chain, sys.chain, v.asOf[req], req, v.run.origin[req], x.keccak);
    }
  }

  lemma ServiceKeepsWaiting(x: Setup, v: State, e: P.Event)
    requires P.Shape(v.sys) && P.Next(v.sys, e).Some? && !Owns(x.me, e) && Waiting(x, v)
    ensures Waiting(x, v.(sys := P.Next(v.sys, e).value))
  {
    hide P.Extends, P.QuietAndNext, P.NothingFetched, P.Complete, P.Committed, P.Stream.Next, Sim.Holds, WellFormed;
  }

  lemma ServiceKeeps(x: Setup, since: nat, v: State, e: P.Event)
    requires Inv(x, since, v) && P.Next(v.sys, e).Some? && !Owns(x.me, e)
    ensures Inv(x, since, v.(sys := P.Next(v.sys, e).value))
  {
    P.InvShape(v.sys);
    hide P.Inv, P.Next, P.Shape, AnswersRecent, Waiting;
    P.NextKeeps(v.sys, e);
    P.NextForward(v.sys, e);
    ServiceKeepsWaiting(x, v, e);
    AnswersGrow(x, since, v, P.Next(v.sys, e).value);
  }

  lemma AnswersExtend(
      x: Setup, since: nat, v: State, sys: P.State, action: Sim.Action, answer: Sim.Answer, u: State)
    requires AnswersRecent(x, since, v) && sys.chain == v.sys.chain
    requires !action.Halt? && |v.sys.chain| > 0 && since <= v.sys.synced <= P.Mined(v.sys)
    requires Justified(v.sys.chain, Span(v.sys.synced, P.Mined(v.sys)), action.req, answer, x.keccak)
    requires u == Answered(v, sys, action, answer)
    ensures AnswersRecent(x, since, u)
  {
    hide Justified;
    assert u.run.origin == v.run.origin[action.req := answer];
    assert u.asOf == v.asOf[action.req := Span(v.sys.synced, P.Mined(v.sys))];
    forall req | req in u.asOf
      ensures Justified(u.sys.chain, u.asOf[req], req, u.run.origin[req], x.keccak)
    {
      if req != action.req {
        assert u.asOf[req] == v.asOf[req] && u.run.origin[req] == v.run.origin[req];
      }
    }
  }

  lemma AnsweredKeeps(x: Setup, since: nat, v: State, sys: P.State, action: Sim.Action, answer: Sim.Answer)
    requires Inv(x, since, v) && P.Inv(sys) && sys.chain == v.sys.chain && sys.synced == v.sys.synced
    requires !action.Halt? && x.me !in sys.fills
    requires Justified(v.sys.chain, Span(v.sys.synced, |v.sys.chain| - 1), action.req, answer, x.keccak)
    ensures |v.sys.chain| > 0
    ensures Inv(x, since, Answered(v, sys, action, answer))
  {
    P.InvShape(v.sys);
    hide Justified, P.Inv, P.Shape, AnswersRecent, Sim.Perform;
    AnswersExtend(x, since, v, sys, action, answer, Answered(v, sys, action, answer));
  }

  lemma CommitOrBegin(s: P.State, i: nat, f: P.Fill)
    requires P.Shape(s)
    ensures i in s.fills && P.Next(s, P.Commit(i)).Some? ==>
              var t := P.Next(s, P.Commit(i)).value;
              P.Complete(s.fills[i]) && i !in t.fills && t.chain == s.chain && t.synced == s.synced
    ensures i !in s.fills && P.NothingFetched(f) ==>
              var t := P.Next(s, P.Begin(i, f));
              t == Some(s.(fills := s.fills[i := f]))
  {
    hide P.Committed, P.Complete, P.NothingFetched, WellFormed;
  }

  lemma Abandoned(s: P.State, i: nat)
    requires P.Shape(s) && P.Next(s, P.Abandon(i)).Some?
    ensures
      var t := P.Next(s, P.Abandon(i)).value;
      i !in t.fills && t.chain == s.chain && t.synced == s.synced
  {
  }

  lemma {:induction false} StepKeeps(x: Setup, since: nat, v: State)
    requires Inv(x, since, v) && P.Shape(v.sys) && Step(x, v).Some?
    ensures Inv(x, since, Step(x, v).value)
  {
    hide P.Inv, P.Next, P.Complete, P.Committed, P.NothingFetched, Justified, FromStore, FromFill, Sim.Holds, Sim.Load,
      WellFormed;
    var action := x.p(v.run.log);
    if !action.Halt? {
      CommitOrBegin(v.sys, x.me, FillFor(action.req));
      if x.me in v.sys.fills {
        P.NextKeeps(v.sys, P.Commit(x.me));
        FillJustified(v.sys, x.me, action.req, x.keccak);
        AnsweredKeeps(
          x, since, v, P.Next(v.sys, P.Commit(x.me)).value, action,
          FromFill(v.sys.fills[x.me], action.req, x.keccak));
      } else if !Sim.Holds(v.run, action.req) {
        var answer := FromStore(v.sys.store, action.req, x.keccak);
        if answer.Some? {
          HitJustified(v.sys, action.req, x.keccak);
          AnsweredKeeps(x, since, v, v.sys, action, answer.value);
        } else {
          FillIsNew(action.req);
          P.NextKeeps(v.sys, P.Begin(x.me, FillFor(action.req)));
        }
      }
    }
  }

  lemma FillIsNew(req: Sim.Request)
    ensures P.NothingFetched(FillFor(req)) && Serves(FillFor(req), req)
  {
  }

  lemma {:induction false} NextKeeps(x: Setup, since: nat, v: State, turn: Turn)
    requires Inv(x, since, v) && P.Shape(v.sys) && Next(x, v, turn).Some?
    ensures Inv(x, since, Next(x, v, turn).value)
  {
    hide P.Inv, P.Next, P.Shape, Step, Justified;
    match turn
    case Service(e) => ServiceKeeps(x, since, v, e);
    case Program => StepKeeps(x, since, v);
    case FetchFails =>
      Abandoned(v.sys, x.me);
      P.NextKeeps(v.sys, P.Abandon(x.me));
  }

  /** Over every interleaving, blocks mined and delivered meanwhile included,
      everything the program is ever given is recent, component by component. */
  lemma {:induction false} AnswersAreRecent(x: Setup, s: P.State, turns: seq<Turn>)
    requires P.Inv(s) && x.me !in s.fills
    ensures P.Shape(s)
    ensures Run(x, s, turns).Some? ==> Inv(x, s.synced, Run(x, s, turns).value)
    decreases |turns|
  {
    P.InvShape(s);
    hide P.Inv, P.Shape, Next, Inv;
    if |turns| == 0 {
      FreshIsRecent(x, s);
    } else {
      var front := turns[..|turns| - 1];
      AnswersAreRecent(x, s, front);
      if Run(x, s, turns).Some? {
        ShapeOfRun(x, s, front);
        NextKeeps(x, s.synced, Run(x, s, front).value, turns[|turns| - 1]);
      }
    }
  }

  lemma FreshIsRecent(x: Setup, s: P.State)
    requires P.Inv(s) && x.me !in s.fills
    ensures Inv(x, s.synced, State(s, Sim.START, map[], 0))
  {
    hide P.Inv;
  }

  lemma ShapeOfRun(x: Setup, s: P.State, turns: seq<Turn>)
    requires P.Shape(s) && Run(x, s, turns).Some?
    ensures P.Shape(Run(x, s, turns).value.sys)
  {
  }

  // ----- while no block is mined -----

  /** No block is mined and no fetch of the program fails. */
  predicate QuietTurn(turn: Turn) {
    !turn.FetchFails? && !(turn.Service? && turn.e.Mine?)
  }

  predicate Quiet(turns: seq<Turn>) {
    forall i :: 0 <= i < |turns| ==> QuietTurn(turns[i])
  }

  lemma NothingMined(s: P.State, e: P.Event)
    requires P.Shape(s) && P.Next(s, e).Some? && !e.Mine?
    ensures P.Next(s, e).value.chain == s.chain
  {
    hide WellFormed, P.Extends, P.Complete, P.Committed, P.FetchInto, P.NothingFetched;
  }

  lemma GivenNow(x: Setup, v: State, req: Sim.Request)
    requires P.Shape(v.sys) && Inv(x, P.Mined(v.sys), v)
    ensures req in v.run.origin ==>
              v.run.origin[req] == Sim.ChainAnswer(v.sys.chain[P.Mined(v.sys)], x.keccak, req)
  {
    hide P.Inv, Justified, Waiting, Sim.ChainAnswer;
    if req in v.run.origin {
      assert v.asOf[req] == Span(P.Mined(v.sys), P.Mined(v.sys));
      JustifiedNow(v.sys.chain, P.Mined(v.sys), req, v.run.origin[req], x.keccak);
    }
  }

  lemma StepOfRun(x: Setup, v: State)
    requires P.Shape(v.sys) && Step(x, v).Some? && Waiting(x, v)
    ensures
      var action, u := x.p(v.run.log), Step(x, v).value;
      && u.sys.chain == v.sys.chain
      && if action.Halt? then u.run == v.run && u.steps == v.steps + 1
         else if Sim.Holds(v.run, action.req) then u.run == Sim.Perform(v.run, action) && u.steps == v.steps + 1
         else
           || (u.run == v.run && u.steps == v.steps)
           || (&& action.req in u.run.origin && u.steps == v.steps + 1
               && u.run == Sim.Perform(Sim.Load(v.run, action.req, u.run.origin[action.req]), action))
  {
    hide P.Complete, P.Committed, Serves, FromStore, FromFill, WellFormed;
  }

  /** A turn of the program on a drained cache is a step on the chain, or only
      begins a fill. */
  lemma {:induction false} StepIsChainStep(x: Setup, v: State)
    requires P.Shape(v.sys) && Inv(x, P.Mined(v.sys), v) && Step(x, v).Some?
    ensures
      var u := Step(x, v).value;
      && u.sys.chain == v.sys.chain
      && if u.steps == v.steps then u.run == v.run
         else u.steps == v.steps + 1
              && u.run == Sim.RunOnChain(x.p, 1, v.run, v.sys.chain[P.Mined(v.sys)], x.keccak)
  {
    hide P.Inv, P.Complete, P.Committed, P.NothingFetched, Serves, FromStore, FromFill, Justified, AnswersRecent,
      WellFormed;
    StepKeeps(x, P.Mined(v.sys), v);
    assert Waiting(x, v);
    StepOfRun(x, v);
    hide Inv, Step, Sim.Load, Sim.Perform, Sim.Holds, Sim.ChainAnswer, Sim.RunOnChain;
    var action, u := x.p(v.run.log), Step(x, v).value;
    Sim.OneStep(x.p, v.run, v.sys.chain[P.Mined(v.sys)], x.keccak);
    if !action.Halt? && u.steps != v.steps && !Sim.Holds(v.run, action.req) {
      GivenNow(x, u, action.req);
    }
  }

  lemma {:induction false} LiveTurn(x: Setup, m: nat, v: State, turn: Turn)
    requires P.Shape(v.sys) && P.Mined(v.sys) == m && Inv(x, m, v) && QuietTurn(turn) && Next(x, v, turn).Some?
    requires v.run == Sim.RunOnChain(x.p, v.steps, Sim.START, v.sys.chain[m], x.keccak)
    ensures
      var u := Next(x, v, turn).value;
      u.sys.chain == v.sys.chain && u.run == Sim.RunOnChain(x.p, u.steps, Sim.START, v.sys.chain[m], x.keccak)
  {
    hide Inv, P.Next, Step, Sim.RunOnChain, WellFormed;
    match turn
    case Service(e) => NothingMined(v.sys, e);
    case Program =>
      StepIsChainStep(x, v);
      Sim.RunSnoc(x.p, v.steps, Sim.START, v.sys.chain[m], x.keccak);
  }

  /** Starting from any reachable state whose cache is drained, and as long as no
      block is mined and no fetch fails, the program sees the newest state of the
      chain at every one of its steps, however its fetches, the service and other
      threads are interleaved. */
  lemma {:induction false} LiveSimulation(x: Setup, s: P.State, turns: seq<Turn>)
    requires P.Inv(s) && x.me !in s.fills && Quiet(turns)
    ensures P.Shape(s)
    ensures s.synced == P.Mined(s) && Run(x, s, turns).Some? ==>
              var v := Run(x, s, turns).value;
              && v.sys.chain == s.chain
              && v.run == Sim.RunOnChain(x.p, v.steps, Sim.START, s.chain[P.Mined(s)], x.keccak)
    decreases |turns|
  {
    P.InvShape(s);
    hide P.Inv, Next, Inv, QuietTurn, Sim.RunOnChain, WellFormed;
    if |turns| == 0 {
      Sim.NoSteps(x.p, Sim.START, s.chain[P.Mined(s)], x.keccak);
    } else if s.synced == P.Mined(s) && Run(x, s, turns).Some? {
      var front := turns[..|turns| - 1];
      LiveSimulation(x, s, front);
      AnswersAreRecent(x, s, front);
      LiveTurn(x, P.Mined(s), Run(x, s, front).value, turns[|turns| - 1]);
    }
  }
}
