// Running programs on an overlay above the cache, compared with running them
// on the chain's own state (bundleapi/api.go over w3backend/db.go).
module Simulation {
  import opened Wrappers
  import opened ByteStrings
  import opened Accounts
  import opened Records
  import opened Chain
  import opened ReadThrough

  datatype Request = AccountOf(a: Address) | CodeOf(a: Address) | CodeSizeOf(a: Address) | SlotOf(a: Address, h: Hash)

  datatype Answer =
    | AccountIs(account: StateAccount)
    | CodeIs(code: Bytes)
    | SizeIs(size: nat)
    | WordIs(word: Hash)
    | Failed
    | Written

  datatype Action = Read(req: Request) | Write(req: Request, value: Answer) | Halt

  /** A deterministic program: what it does next depends on what it was answered so far. */
  type Program = seq<Answer> -> Action

  /** The private side of a run: what it was given from below (geth's origin
      storage and loaded accounts), what it wrote over it, and its log. */
  datatype Run = Run(origin: map<Request, Answer>, dirty: map<Request, Answer>, log: seq<Answer>)

  const START := Run(map[], map[], [])

  predicate Holds(run: Run, req: Request) {
    req in run.dirty || req in run.origin
  }

  /** What the run itself answers. */
  function Seen(run: Run, req: Request): Answer {
    if req in run.dirty then run.dirty[req] else if req in run.origin then run.origin[req] else Failed
  }

  function Load(run: Run, req: Request, answer: Answer): Run {
    run.(origin := run.origin[req := answer])
  }

  /** An action once its item is loaded. Writing a word over itself leaves no trace. */
  function Perform(run: Run, action: Action): Run {
    match action
    case Halt => run
    case Read(req) => run.(log := run.log + [Seen(run, req)])
    case Write(req, v) =>
      var dirty := if req.SlotOf? && Seen(run, req) == v then run.dirty else run.dirty[req := v];
      run.(dirty := dirty, log := run.log + [Written])
  }

  /** Who answers a request that the overlay cannot. */
  function ChainAnswer(w: World, keccak: Bytes -> Hash, req: Request): Answer {
    match req
    case AccountOf(a) => AccountIs(StateAccount(w.nonce(a), w.balance(a), keccak(w.code(a))))
    case CodeOf(a) => CodeIs(w.code(a))
    case CodeSizeOf(a) => SizeIs(|w.code(a)|)
    case SlotOf(a, h) => WordIs(w.slot(a, h))
  }

  function CacheAnswer(s: Store, w: World, keccak: Bytes -> Hash, req: Request): (Answer, Store)
    requires WellFormed(s)
  {
    match req
    case AccountOf(a) =>
      var (r, t) := ReadAccount(s, a, keccak, ReplyFrom(w, a));
      (if r.Ok? then AccountIs(r.value) else Failed, t)
    case CodeOf(a) =>
      var (r, t) := ReadCode(s, a, Ok(w.code(a)));
      (if r.Ok? then CodeIs(r.value) else Failed, t)
    case CodeSizeOf(a) =>
      var (r, t) := ReadCode(s, a, Ok(w.code(a)));
      (if r.Ok? then SizeIs(|r.value|) else Failed, t)
    case SlotOf(a, h) =>
      var (r, t) := ReadSlot(s, a, h, Ok(w.slot(a, ToHash(h))));
      (if r.Ok? then WordIs(r.value) else Failed, t)
  }

  /** Reads and writes alike load their item first: geth asks for the old value
      of whatever it is about to change. */
  function RunOnChain(p: Program, n: nat, run: Run, w: World, keccak: Bytes -> Hash): Run
    decreases n
  {
    var action := p(run.log);
    if n == 0 || action.Halt? then run
    else
      var loaded := if Holds(run, action.req) then run else Load(run, action.req, ChainAnswer(w, keccak, action.req));
      RunOnChain(p, n - 1, Perform(loaded, action), w, keccak)
  }

  function RunOnCache(p: Program, n: nat, run: Run, s: Store, w: World, keccak: Bytes -> Hash): (r: (Run, Store))
    requires WellFormed(s)
    ensures WellFormed(r.1)
    decreases n
  {
    var action := p(run.log);
    if n == 0 || action.Halt? then (run, s)
    else if Holds(run, action.req) then RunOnCache(p, n - 1, Perform(run, action), s, w, keccak)
    else
      var (answer, t) := CacheAnswer(s, w, keccak, action.req);
      CacheAnswerWellFormed(s, w, keccak, action.req);
      RunOnCache(p, n - 1, Perform(Load(run, action.req, answer), action), t, w, keccak)
  }

  lemma CacheAnswerWellFormed(s: Store, w: World, keccak: Bytes -> Hash, req: Request)
    requires WellFormed(s)
    ensures WellFormed(CacheAnswer(s, w, keccak, req).1)
  {
    hide WellFormed, ReadAccount, ReadCode, PutSlot, GetSlot;
    match req
    case AccountOf(a) => AccountReadDomain(s, a, keccak, ReplyFrom(w, a));
    case CodeOf(a) => FillsCreateNothing(s, a, [], Ok(w.code(a)), Err(NotFound));
    case CodeSizeOf(a) => FillsCreateNothing(s, a, [], Ok(w.code(a)), Err(NotFound));
    case SlotOf(a, h) => SlotFillKnown(s, a, h, w.slot(a, ToHash(h)), CodeKey(a));
  }

  lemma CacheAnswerRefines(s: Store, w: World, keccak: Bytes -> Hash, req: Request)
    requires WellFormed(s) && AgreesWith(s, w)
    ensures
      var (answer, t) := CacheAnswer(s, w, keccak, req);
      answer == ChainAnswer(w, keccak, req) && WellFormed(t) && AgreesWith(t, w)
  {
    hide WellFormed, AgreesWith, ReadAccount, ReadCode, ReadSlot;
    match req
    case AccountOf(a) => ReadAccountRefines(s, w, a, keccak);
    case CodeOf(a) => ReadCodeRefines(s, w, a);
    case CodeSizeOf(a) => ReadCodeRefines(s, w, a);
    case SlotOf(a, h) => ReadSlotRefines(s, w, a, h);
      assert ToHash(h) == h;
  }

  /** Any program, for any number of steps and from any overlay, sees on a cache
      that agrees with w exactly what it would see on w itself, and leaves the
      cache agreeing with w. */
  lemma {:induction false} SimulationRefines(p: Program, n: nat, run: Run, s: Store, w: World, keccak: Bytes -> Hash)
    requires WellFormed(s) && AgreesWith(s, w)
    ensures
      var (r, t) := RunOnCache(p, n, run, s, w, keccak);
      r == RunOnChain(p, n, run, w, keccak) && WellFormed(t) && AgreesWith(t, w)
    decreases n
  {
    hide WellFormed, AgreesWith, CacheAnswer, ChainAnswer, Holds, Load, Perform;
    var action := p(run.log);
    if n > 0 && !action.Halt? {
      if Holds(run, action.req) {
        SimulationRefines(p, n - 1, Perform(run, action), s, w, keccak);
      } else {
        var (answer, t) := CacheAnswer(s, w, keccak, action.req);
        CacheAnswerRefines(s, w, keccak, action.req);
        SimulationRefines(p, n - 1, Perform(Load(run, action.req, answer), action), t, w, keccak);
      }
    }
  }

  lemma CacheAnswerFills(s: Store, w: World, keccak: Bytes -> Hash, req: Request)
    requires WellFormed(s) && AgreesWith(s, w)
    ensures FilledFrom(s, CacheAnswer(s, w, keccak, req).1, w)
  {
    hide WellFormed, ReadAccount, ReadCode, ReadSlot, Known, At, Hit;
    match req
    case AccountOf(a) => AccountReadFills(s, w, a, keccak);
    case CodeOf(a) => ReadCodeRefines(s, w, a);
    case CodeSizeOf(a) => ReadCodeRefines(s, w, a);
    case SlotOf(a, h) => SlotReadFills(s, w, a, h);
  }

  lemma FilledReflexive(s: Store, w: World)
    ensures FilledFrom(s, s, w)
  {
  }

  /** And it changes the cache by fills only. */
  lemma {:induction false} SimulationOnlyFills(p: Program, n: nat, run: Run, s: Store, w: World, keccak: Bytes -> Hash)
    requires WellFormed(s) && AgreesWith(s, w)
    ensures FilledFrom(s, RunOnCache(p, n, run, s, w, keccak).1, w)
    decreases n
  {
    hide WellFormed, AgreesWith, CacheAnswer, FilledFrom, Holds, Load, Perform;
    FilledReflexive(s, w);
    var action := p(run.log);
    if n > 0 && !action.Halt? {
      if Holds(run, action.req) {
        SimulationOnlyFills(p, n - 1, Perform(run, action), s, w, keccak);
      } else {
        var (answer, t) := CacheAnswer(s, w, keccak, action.req);
        CacheAnswerRefines(s, w, keccak, action.req);
        CacheAnswerFills(s, w, keccak, action.req);
        SimulationOnlyFills(p, n - 1, Perform(Load(run, action.req, answer), action), t, w, keccak);
        FilledTransitive(s, t, RunOnCache(p, n, run, s, w, keccak).1, w);
      }
    }
  }

  /** Everything below the run is the chain's, and nothing was written unseen. */
  predicate LoadedFrom(run: Run, w: World, keccak: Bytes -> Hash) {
    && run.dirty.Keys <= run.origin.Keys
    && forall req :: req in run.origin ==> run.origin[req] == ChainAnswer(w, keccak, req)
  }

  lemma {:induction false} RunStaysLoaded(p: Program, n: nat, run: Run, w: World, keccak: Bytes -> Hash)
    requires LoadedFrom(run, w, keccak)
    ensures LoadedFrom(RunOnChain(p, n, run, w, keccak), w, keccak)
    decreases n
  {
    hide ChainAnswer;
    var action := p(run.log);
    if n > 0 && !action.Halt? {
      var loaded := if Holds(run, action.req) then run else Load(run, action.req, ChainAnswer(w, keccak, action.req));
      RunStaysLoaded(p, n - 1, Perform(loaded, action), w, keccak);
    }
  }

  lemma NoSteps(p: Program, run: Run, w: World, keccak: Bytes -> Hash)
    ensures RunOnChain(p, 0, run, w, keccak) == run
  {
  }

  lemma OneStep(p: Program, run: Run, w: World, keccak: Bytes -> Hash)
    ensures
      var action := p(run.log);
      RunOnChain(p, 1, run, w, keccak) ==
      if action.Halt? then run
      else if Holds(run, action.req) then Perform(run, action)
      else Perform(Load(run, action.req, ChainAnswer(w, keccak, action.req)), action)
  {
    hide Perform, ChainAnswer, Holds, Load;
  }

  /** Steps can be taken one at a time. */
  lemma {:induction false} RunSnoc(p: Program, n: nat, run: Run, w: World, keccak: Bytes -> Hash)
    ensures RunOnChain(p, n + 1, run, w, keccak) == RunOnChain(p, 1, RunOnChain(p, n, run, w, keccak), w, keccak)
    decreases n
  {
    hide ChainAnswer, Holds, Load, Perform;
    var action := p(run.log);
    if n > 0 && !action.Halt? {
      var loaded := if Holds(run, action.req) then run else Load(run, action.req, ChainAnswer(w, keccak, action.req));
      RunSnoc(p, n - 1, Perform(loaded, action), w, keccak);
    }
  }
}
