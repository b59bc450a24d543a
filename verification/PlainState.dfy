// What a program may believe: that it runs on one plain state, a value per item,
// where a write replaces the value and a read answers it.
module PlainState {
  import opened ByteStrings
  import opened Records
  import opened Chain
  import opened Simulation

  datatype Plain = Plain(values: Request -> Answer, log: seq<Answer>)

  function OfChain(w: World, keccak: Bytes -> Hash): Plain {
    Plain(req => ChainAnswer(w, keccak, req), [])
  }

  function Replaced(values: Request -> Answer, req: Request, v: Answer): Request -> Answer {
    other => if other == req then v else values(other)
  }

  function Act(m: Plain, action: Action): Plain {
    match action
    case Halt => m
    case Read(req) => m.(log := m.log + [m.values(req)])
    case Write(req, v) => Plain(Replaced(m.values, req, v), m.log + [Written])
  }

  function RunPlain(p: Program, n: nat, m: Plain): Plain
    decreases n
  {
    if n == 0 || p(m.log).Halt? then m else RunPlain(p, n - 1, Act(m, p(m.log)))
  }

  /** The programs one after another on the same state, each with a log of its own. */
  function RunAllPlain(ps: seq<(Program, nat)>, m: Plain): seq<seq<Answer>>
    decreases |ps|
  {
    if |ps| == 0 then [] else
      var ran := RunPlain(ps[0].0, ps[0].1, m.(log := []));
      [ran.log] + RunAllPlain(ps[1..], ran)
  }

  /** A run stands for the plain state: where it holds an item it answers its
      value, and elsewhere the value is still the chain's. */
  ghost predicate StandsFor(run: Run, m: Plain, w: World, keccak: Bytes -> Hash) {
    && run.log == m.log
    && forall req :: m.values(req) == if Holds(run, req) then Seen(run, req) else ChainAnswer(w, keccak, req)
  }

  lemma StartStands(w: World, keccak: Bytes -> Hash)
    ensures StandsFor(START, OfChain(w, keccak), w, keccak)
  {
  }

  lemma LoadStands(run: Run, m: Plain, req: Request, w: World, keccak: Bytes -> Hash)
    requires StandsFor(run, m, w, keccak)
    ensures
      var loaded := if Holds(run, req) then run else Load(run, req, ChainAnswer(w, keccak, req));
      StandsFor(loaded, m, w, keccak) && Holds(loaded, req)
  {
    hide ChainAnswer;
  }

  lemma ActStands(run: Run, m: Plain, action: Action, w: World, keccak: Bytes -> Hash)
    requires StandsFor(run, m, w, keccak) && !action.Halt? && Holds(run, action.req)
    ensures StandsFor(Perform(run, action), Act(m, action), w, keccak)
  {
    hide ChainAnswer;
  }

  lemma {:induction false} RunStands(p: Program, n: nat, run: Run, m: Plain, w: World, keccak: Bytes -> Hash)
    requires StandsFor(run, m, w, keccak)
    ensures StandsFor(RunOnChain(p, n, run, w, keccak), RunPlain(p, n, m), w, keccak)
    decreases n
  {
    assert run.log == m.log;
    hide StandsFor, ChainAnswer, Perform, Act, Load, Holds;
    var action := p(run.log);
    if n > 0 && !action.Halt? {
      LoadStands(run, m, action.req, w, keccak);
      var loaded := if Holds(run, action.req) then run else Load(run, action.req, ChainAnswer(w, keccak, action.req));
      ActStands(loaded, m, action, w, keccak);
      RunStands(p, n - 1, Perform(loaded, action), Act(m, action), w, keccak);
    }
  }

  /** On an agreeing cache every program, for any number of steps, is answered as
      on the plain state of the chain: it reads what it last wrote, and what it
      did not write is the chain's. */
  lemma {:induction false} SimulationIsPlain(p: Program, n: nat, s: Store, w: World, keccak: Bytes -> Hash)
    requires WellFormed(s) && AgreesWith(s, w)
    ensures RunOnCache(p, n, START, s, w, keccak).0.log == RunPlain(p, n, OfChain(w, keccak)).log
  {
    hide AgreesWith, WellFormed, RunOnCache, RunOnChain, RunPlain;
    SimulationRefines(p, n, START, s, w, keccak);
    StartStands(w, keccak);
    RunStands(p, n, START, OfChain(w, keccak), w, keccak);
  }
}
