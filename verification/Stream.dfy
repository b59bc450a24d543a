// The poller and its consumer (fetcher/rpc.go, main.go): one traced block at a
// time over an unbuffered channel.
module Stream {
  import opened Wrappers

  /** getLatestState: the newest block is traced when it is above blockHead, and
      only a successful trace moves blockHead. */
  function LatestState<T>(blockHead: nat, latest: Result<nat>, trace: Result<T>): (Result<Option<(nat, T)>>, nat) {
    if latest.Err? then (Err(latest.error), blockHead)
    else if latest.value <= blockHead then (Ok(None), blockHead)
    else if trace.Err? then (Err(trace.error), blockHead)
    else (Ok(Some((latest.value, trace.value))), latest.value)
  }

  class Poller {
    var blockHead: nat

    constructor ()
      ensures blockHead == 0
    {
      blockHead := 0;
    }

    method GetLatestState<T>(latest: Result<nat>, trace: Result<T>) returns (update: Result<Option<(nat, T)>>)
      modifies this
      ensures (update, blockHead) == LatestState(old(blockHead), latest, trace)
      ensures latest.Ok? && latest.value > old(blockHead) && trace.Ok? ==>
                update == Ok(Some((latest.value, trace.value))) && blockHead == latest.value
      ensures latest.Ok? && latest.value > old(blockHead) && trace.Err? ==>
                update == Err(trace.error) && blockHead == old(blockHead)
      ensures latest.Ok? && latest.value <= old(blockHead) ==> update == Ok(None) && blockHead == old(blockHead)
      ensures latest.Err? ==> update == Err(latest.error) && blockHead == old(blockHead)
    {
      if latest.Err? {
        return Err(latest.error);
      }
      if latest.value <= blockHead {
        return Ok(None);
      }
      if trace.Err? {
        return Err(trace.error);
      }
      blockHead := latest.value;
      return Ok(Some((latest.value, trace.value)));
    }
  }

  datatype Sender = Polling | Sending(n: nat)

  datatype Receiver = Waiting | Received(n: nat) | Applied(n: nat)

  /** `emitted` and `delivered` record what getLatestState returned and where the head has been. */
  datatype State = State(
    blockHead: nat,
    sender: Sender,
    receiver: Receiver,
    head: Option<nat>,
    emitted: seq<nat>,
    delivered: seq<nat>)

  const INIT := State(0, Polling, Waiting, None, [], [])

  datatype Event = Poll(latest: Result<nat>, traced: bool) | HandOver | Apply | MoveHead

  /** None: the event is not possible in this state. */
  function Next(s: State, e: Event): Option<State> {
    match e
    case Poll(latest, traced) =>
      if !s.sender.Polling? then None else
        var (update, blockHead) := LatestState(s.blockHead, latest, if traced then Ok(()) else Err(FetchFailed));
        if update.Ok? && update.value.Some? then
          var n := update.value.value.0;
          Some(s.(blockHead := blockHead, sender := Sending(n), emitted := s.emitted + [n]))
        else Some(s.(blockHead := blockHead))
    case HandOver =>
      if s.sender.Sending? && s.receiver.Waiting? then
        Some(s.(sender := Polling, receiver := Received(s.sender.n)))
      else None
    case Apply =>
      if s.receiver.Received? then Some(s.(receiver := Applied(s.receiver.n))) else None
    case MoveHead =>
      if s.receiver.Applied? then
        Some(s.(receiver := Waiting, head := Some(s.receiver.n), delivered := s.delivered + [s.receiver.n]))
      else None
  }

  function Run(s: State, es: seq<Event>): Option<State>
    decreases |es|
  {
    if |es| == 0 then Some(s) else
      match Run(s, es[..|es| - 1])
      case None => None
      case Some(t) => Next(t, es[|es| - 1])
  }

  function InFlight(s: State): seq<nat> {
    (match s.receiver case Waiting => [] case Received(n) => [n] case Applied(n) => [n])
    + (match s.sender case Polling => [] case Sending(n) => [n])
  }

  predicate StrictlyIncreasing(ns: seq<nat>) {
    forall i, j :: 0 <= i < j < |ns| ==> ns[i] < ns[j]
  }

  predicate Positive(ns: seq<nat>) {
    forall i :: 0 <= i < |ns| ==> 0 < ns[i]
  }

  function Last(ns: seq<nat>): Option<nat> {
    if |ns| == 0 then None else Some(ns[|ns| - 1])
  }

  /** What every reachable state satisfies: numbers are emitted in strictly
      increasing order and positive, what was delivered is a prefix of it, and
      at most two updates separate the two. */
  predicate Safe(s: State) {
    && StrictlyIncreasing(s.emitted)
    && Positive(s.emitted)
    && s.blockHead == (if Last(s.emitted).None? then 0 else Last(s.emitted).value)
    && s.emitted == s.delivered + InFlight(s)
    && s.head == Last(s.delivered)
  }

  /** What one event may do to the histories. */
  predicate Grows(s: State, t: State) {
    && s.emitted <= t.emitted && s.delivered <= t.delivered
    && s.blockHead <= t.blockHead
    && (s.head.Some? ==> t.head.Some? && s.head.value <= t.head.value)
  }

  lemma Snoc(ns: seq<nat>, n: nat)
    requires StrictlyIncreasing(ns) && Positive(ns) && 0 < n && (Last(ns).Some? ==> Last(ns).value < n)
    ensures StrictlyIncreasing(ns + [n]) && Positive(ns + [n]) && Last(ns + [n]) == Some(n)
  {
  }

  lemma PollSafe(s: State, latest: Result<nat>, traced: bool)
    requires Safe(s) && s.sender.Polling?
    ensures Safe(Next(s, Poll(latest, traced)).value) && Grows(s, Next(s, Poll(latest, traced)).value)
  {
    hide StrictlyIncreasing, Positive, Last;
    var t := Next(s, Poll(latest, traced)).value;
    if t.sender.Sending? {
      var n := latest.value;
      Snoc(s.emitted, n);
      assert InFlight(t) == InFlight(s) + [n];
      assert t.emitted == s.delivered + (InFlight(s) + [n]);
    }
  }

  lemma MoveHeadSafe(s: State)
    requires Safe(s) && s.receiver.Applied?
    ensures Safe(Next(s, MoveHead).value) && Grows(s, Next(s, MoveHead).value)
  {
    var t, n := Next(s, MoveHead).value, s.receiver.n;
    assert InFlight(s) == [n] + InFlight(t);
    assert s.delivered + ([n] + InFlight(t)) == (s.delivered + [n]) + InFlight(t);
    if s.head.Some? {
      assert s.emitted[|s.delivered| - 1] < s.emitted[|s.delivered|];
    }
  }

  lemma NextSafe(s: State, e: Event)
    requires Safe(s) && Next(s, e).Some?
    ensures Safe(Next(s, e).value)
    ensures Grows(s, Next(s, e).value)
  {
    hide StrictlyIncreasing;
    match e
    case Poll(latest, traced) => PollSafe(s, latest, traced);
    case HandOver => assert InFlight(Next(s, e).value) == InFlight(s);
    case Apply => assert InFlight(Next(s, e).value) == InFlight(s);
    case MoveHead => MoveHeadSafe(s);
  }

  lemma BelowLast(ns: seq<nat>, i: nat)
    requires StrictlyIncreasing(ns) && i < |ns|
    ensures ns[i] <= Last(ns).value
  {
  }

  /** Nothing emitted is above blockHead, nothing delivered above the head, and
      what is in flight is above all that was delivered and at most two updates. */
  lemma SafeBounds(s: State, i: nat)
    requires Safe(s)
    ensures s.delivered <= s.emitted && |s.emitted| - |s.delivered| == |InFlight(s)| <= 2
    ensures i < |s.emitted| ==> s.emitted[i] <= s.blockHead
    ensures i < |s.delivered| ==> s.head.Some? && s.delivered[i] <= s.head.value
    ensures s.head.Some? ==> s.head.value <= s.blockHead
    ensures forall j :: i < |s.delivered| && 0 <= j < |InFlight(s)| ==> s.delivered[i] < InFlight(s)[j]
  {
    var flying := InFlight(s);
    assert |flying| <= 2;
    hide InFlight;
    if i < |s.emitted| {
      BelowLast(s.emitted, i);
    }
    assert StrictlyIncreasing(s.delivered) by {
      assert forall m :: 0 <= m < |s.delivered| ==> s.delivered[m] == s.emitted[m];
    }
    if |s.delivered| > 0 {
      assert s.head.value == s.emitted[|s.delivered| - 1];
      BelowLast(s.emitted, |s.delivered| - 1);
    }
    if i < |s.delivered| {
      BelowLast(s.delivered, i);
      forall j | 0 <= j < |flying|
        ensures s.delivered[i] < flying[j]
      {
        assert flying[j] == s.emitted[|s.delivered| + j];
      }
    }
  }

  lemma {:induction false} Reachable(es: seq<Event>)
    requires Run(INIT, es).Some?
    ensures Safe(Run(INIT, es).value)
  {
    hide Safe, Next;
    if |es| > 0 {
      Reachable(es[..|es| - 1]);
      NextSafe(Run(INIT, es[..|es| - 1]).value, es[|es| - 1]);
    } else {
      InitSafe();
    }
  }

  lemma InitSafe()
    ensures Safe(INIT)
  {
  }

  lemma GrowsTransitive(s: State, t: State, u: State)
    requires Grows(s, t) && Grows(t, u)
    ensures Grows(s, u)
  {
  }

  /** Over every run, from its start and between any two of its points. */
  lemma {:induction false} StreamSafety(es: seq<Event>, i: nat)
    requires i <= |es| && Run(INIT, es).Some?
    ensures Run(INIT, es[..i]).Some?
    ensures Safe(Run(INIT, es[..i]).value) && Safe(Run(INIT, es).value)
    ensures Grows(Run(INIT, es[..i]).value, Run(INIT, es).value)
    decreases |es|
  {
    hide Safe, Next, Grows;
    Reachable(es);
    if i == |es| {
      assert es[..i] == es;
      GrowsReflexive(Run(INIT, es).value);
    } else {
      var front := es[..|es| - 1];
      StreamSafety(front, i);
      assert front[..i] == es[..i];
      NextSafe(Run(INIT, front).value, es[|es| - 1]);
      GrowsTransitive(Run(INIT, es[..i]).value, Run(INIT, front).value, Run(INIT, es).value);
    }
  }

  lemma GrowsReflexive(s: State)
    ensures Grows(s, s)
  {
  }

  // ----- failed polls -----

  /** A poll that finds nothing newer, or cannot reach or trace it. */
  predicate Fruitless(s: State, e: Event) {
    e.Poll? && (e.latest.Err? || e.latest.value <= s.blockHead || !e.traced)
  }

  /** Any number of fruitless polls leaves the machine as it was, so a block whose
      trace failed is emitted by the next poll that still finds and traces it. */
  lemma {:induction false} FailedTraceIsRetried(s: State, es: seq<Event>, n: nat)
    requires s.sender.Polling? && n > s.blockHead
    requires forall i :: 0 <= i < |es| ==> Fruitless(s, es[i])
    ensures Run(s, es) == Some(s)
    ensures Run(s, es + [Poll(Ok(n), true)]) ==
            Some(s.(blockHead := n, sender := Sending(n), emitted := s.emitted + [n]))
    decreases |es|
  {
    assert (es + [Poll(Ok(n), true)])[..|es|] == es;
    if |es| > 0 {
      FailedTraceIsRetried(s, es[..|es| - 1], n);
      assert Fruitless(s, es[|es| - 1]);
    }
  }

  // ----- deliveries -----

  lemma {:induction false} RunConcat(s: State, xs: seq<Event>, ys: seq<Event>)
    requires Run(s, xs).Some?
    ensures Run(s, xs + ys) == Run(Run(s, xs).value, ys)
    decreases |ys|
  {
    hide Next;
    if |ys| == 0 {
      assert xs + ys == xs;
    } else {
      RunConcat(s, xs, ys[..|ys| - 1]);
      assert (xs + ys)[..|xs + ys| - 1] == xs + ys[..|ys| - 1];
    }
  }

  /** What the consumer still does with the update it has. */
  function Consume(s: State): seq<Event> {
    match s.receiver case Waiting => [] case Received(_) => [Apply, MoveHead] case Applied(_) => [MoveHead]
  }

  lemma Consumed(s: State)
    ensures
      Run(s, Consume(s)) ==
      match s.receiver
      case Waiting => Some(s)
      case Received(n) => Some(s.(receiver := Waiting, head := Some(n), delivered := s.delivered + [n]))
      case Applied(n) => Some(s.(receiver := Waiting, head := Some(n), delivered := s.delivered + [n]))
  {
    if s.receiver.Received? {
      assert Consume(s)[..1] == [Apply] && [Apply][..0] == [];
      assert Run(s, []) == Some(s);
      assert Run(s, [Apply]) == Next(s, Apply);
    }
  }

  /** Every update that was emitted can be delivered without another poll, in the
      order of emission: in at most five events the head is the last one emitted. */
  lemma {:induction false} Deliverable(s: State)
    requires Safe(s)
    ensures
      var es := Consume(s) + if s.sender.Sending? then [HandOver, Apply, MoveHead] else [];
      && |es| <= 5
      && Run(s, es) == Some(s.(sender := Polling, receiver := Waiting, head := Last(s.emitted), delivered := s.emitted))
  {
    Consumed(s);
    var t := Run(s, Consume(s)).value;
    assert t.delivered + (if s.sender.Sending? then [s.sender.n] else []) == s.emitted;
    if s.sender.Sending? {
      var taken := t.(sender := Polling, receiver := Received(s.sender.n));
      assert Next(t, HandOver) == Some(taken);
      assert [HandOver][..0] == [] && Run(t, []) == Some(t);
      assert Run(t, [HandOver]) == Some(taken);
      Consumed(taken);
      RunConcat(t, [HandOver], Consume(taken));
      assert [HandOver] + Consume(taken) == [HandOver, Apply, MoveHead];
      RunConcat(s, Consume(s), [HandOver, Apply, MoveHead]);
    } else {
      var none: seq<Event> := [];
      assert Consume(s) + none == Consume(s);
      assert t.delivered + [] == t.delivered == s.emitted;
      assert t.head == Last(t.delivered);
    }
  }
}
