// The accounting loop over a bundle (bundleapi/api.go), above an abstract
// core.ApplyMessage.
module Bundle {
  import opened Wrappers
  import opened ByteStrings
  import opened Digits
  import opened Pricing

  const MAX_UINT64: nat := 0xFFFF_FFFF_FFFF_FFFF

  type Ledger = map<Address, int>

  function Balance(l: Ledger, a: Address): int {
    if a in l then l[a] else 0
  }

  function Credit(l: Ledger, a: Address, amount: int): Ledger {
    l[a := Balance(l, a) + amount]
  }

  /** A value movement inside an execution. */
  datatype Transfer = Transfer(from: Address, to: Address, amount: nat)

  function Moved(l: Ledger, ts: seq<Transfer>): Ledger {
    if |ts| == 0 then l else
      var t := ts[|ts| - 1];
      Credit(Credit(Moved(l, ts[..|ts| - 1]), t.from, -(t.amount as int)), t.to, t.amount)
  }

  /** What execution moved to a, net. */
  function NetTo(a: Address, ts: seq<Transfer>): int {
    if |ts| == 0 then 0 else
      var t := ts[|ts| - 1];
      NetTo(a, ts[..|ts| - 1]) + (if t.to == a then t.amount else 0) - (if t.from == a then t.amount else 0)
  }

  /** Legacy transactions have feeCap == tipCap == gasPrice. */
  datatype Tx = Tx(
    hash: Hash, sender: Address, to: Option<Address>, nonce: Uint64,
    gasLimit: Uint64, feeCap: nat, tipCap: nat, value: nat)

  datatype Block = Block(coinbase: Address, baseFee: Option<nat>, london: bool)

  /** How an execution ends: with its output, reverted, or with another error. */
  datatype Execution = Returned(output: Bytes) | Reverted(output: Bytes) | Aborted

  /** Refused before any gas is bought (the nonce, say), or after (too little gas
      to begin with, or to hand on the value). */
  datatype Verdict = Accepted | RefusedAtOnce | RefusedAfterGas

  /** What the environment does with one transaction: whether the context is
      cancelled before it, whether its sender can be recovered, whether the
      message is otherwise acceptable, what the execution moves and uses and how
      it ends. */
  datatype Outcome = Outcome(
    cancelled: bool, signed: bool, verdict: Verdict, transfers: seq<Transfer>, used: Uint64, execution: Execution)

  datatype Entry = Entry(tx: Tx, outcome: Outcome)

  /** The price of the message: TransactionToMessage's use of the base fee. */
  function MessagePrice(tx: Tx, baseFee: Option<nat>): nat {
    Price(tx.feeCap, tx.tipCap, baseFee)
  }

  /** What a unit of gas pays the coinbase in ApplyMessage. */
  function PaidTip(tx: Tx, b: Block): int {
    if b.london && b.baseFee.Some? then Min(tx.tipCap, tx.feeCap - b.baseFee.value) else MessagePrice(tx, b.baseFee)
  }

  /** tx.EffectiveGasTip(header.BaseFee). */
  function EffectiveTip(tx: Tx, baseFee: Option<nat>): Result<int> {
    if baseFee.None? then Ok(tx.tipCap)
    else if tx.feeCap < baseFee.value then Err(FeeCapTooLow)
    else Ok(Min(tx.tipCap, tx.feeCap - baseFee.value))
  }

  /** State and pool after a message, and the error if it was refused. */
  datatype Applied = Applied(ledger: Ledger, pool: nat, err: Option<Error>)

  /** core.ApplyMessage: checks, buy gas, execute, refund, pay the tip. What the
      sender paid above the tip is burned. A message refused after its gas was
      bought leaves the sender debited and the pool reduced. */
  function ApplyMessage(l: Ledger, pool: nat, b: Block, tx: Tx, o: Outcome): Applied {
    if o.verdict.RefusedAtOnce? then Applied(l, pool, Some(ExecutionRejected))
    else if b.london && tx.feeCap < tx.tipCap then Applied(l, pool, Some(TipAboveFeeCap))
    else if b.london && b.baseFee.Some? && tx.feeCap < b.baseFee.value then Applied(l, pool, Some(FeeCapTooLow))
    else if Balance(l, tx.sender) < tx.gasLimit * tx.feeCap + tx.value then Applied(l, pool, Some(InsufficientFunds))
    else if pool < tx.gasLimit then Applied(l, pool, Some(GasLimitReached))
    else
      var price := MessagePrice(tx, b.baseFee);
      var bought := Credit(l, tx.sender, -(tx.gasLimit * price));
      if o.verdict.RefusedAfterGas? || o.used > tx.gasLimit then
        Applied(bought, pool - tx.gasLimit, Some(ExecutionRejected))
      else
        var executed := Moved(bought, o.transfers);
        var refunded := Credit(executed, tx.sender, (tx.gasLimit - o.used) * price);
        var paid := Credit(refunded, b.coinbase, o.used * PaidTip(tx, b));
        Applied(paid, pool - tx.gasLimit + (tx.gasLimit - o.used), None)
  }

  /** Go's conversion of a uint64 to int64. */
  function ToInt64(n: nat): int {
    var m := n % 0x1_0000_0000_0000_0000;
    if m < 0x8000_0000_0000_0000 then m else m - 0x1_0000_0000_0000_0000
  }

  function AddUint64(a: nat, b: nat): nat {
    (a + b) % 0x1_0000_0000_0000_0000
  }

  /** big.Int.Div: Euclidean, and a panic on zero. */
  function BigDiv(a: int, b: int): Result<int> {
    if b == 0 then Err(DivisionByZero) else Ok(a / b)
  }

  /** The receipt, without logs and bloom. */
  datatype Receipt = Receipt(success: bool, cumulative: nat, used: nat, txHash: Hash, created: Option<Address>)

  /** What a result shows of the execution: its value, or an error with the
      revert data if there is any. */
  datatype Shown = Value(output: Bytes) | Failure(revert: Option<Bytes>)

  function Show(x: Execution): Shown {
    match x
    case Returned(output) => Value(output)
    case Reverted(output) => Failure(if |output| > 0 then Some(output) else None)
    case Aborted => Failure(None)
  }

  datatype TxResult = TxResult(
    txHash: Hash, from: Address, to: Option<Address>, shown: Shown,
    used: nat, cumulative: nat, coinbaseDiff: int, gasFees: int, ethSent: int, gasPrice: int)

  /** The loop's variables: the state, the gas pool, header.GasUsed,
      totalGasUsed, gasFees, what was written to the bundle hash, and results. */
  datatype Loop = Loop(
    ledger: Ledger, pool: nat, headerGas: nat, total: nat, gasFees: int, hashed: Bytes, results: seq<TxResult>)

  function Init(l: Ledger): Loop {
    Loop(l, MAX_UINT64, 0, 0, 0, [], [])
  }

  /** The accounting of a transaction that was applied: `before` is the coinbase
      balance it started from. */
  function Account(v: Loop, before: int, b: Block, e: Entry): (Loop, Option<Error>) {
    var used := e.outcome.used;
    var v1 := v.(total := AddUint64(v.total, used));
    var tip := EffectiveTip(e.tx, b.baseFee);
    if tip.Err? then (v1, Some(tip.error)) else
      var fees := ToInt64(used) * tip.value;
      var diff := Balance(v.ledger, b.coinbase) - before;
      var v2 := v1.(gasFees := v.gasFees + fees, hashed := v.hashed + e.tx.hash);
      var price := BigDiv(diff, ToInt64(used));
      if price.Err? then (v2, Some(price.error)) else
        var r := TxResult(
          e.tx.hash, e.tx.sender, e.tx.to, Show(e.outcome.execution),
          used, v.headerGas, diff, fees, diff - fees, price.value);
        (v2.(results := v.results + [r]), None)
  }

  /** One iteration: the loop's variables afterwards, and the error that ends it
      if any. The sender is recovered to make the message, before anything is
      applied; recovering it again by the same rules gives the same. */
  function Iterate(v: Loop, b: Block, e: Entry): (Loop, Option<Error>) {
    if e.outcome.cancelled then (v, Some(Cancelled))
    else if !e.outcome.signed then (v, Some(BadSignature))
    else
      var m := ApplyMessage(v.ledger, v.pool, b, e.tx, e.outcome);
      if m.err.Some? then (v.(ledger := m.ledger, pool := m.pool), m.err) else
        var applied := v.(ledger := m.ledger, pool := m.pool, headerGas := AddUint64(v.headerGas, e.outcome.used));
        Account(applied, Balance(v.ledger, b.coinbase), b, e)
  }

  function RunLoop(v: Loop, b: Block, es: seq<Entry>): (Loop, Option<Error>)
    decreases |es|
  {
    if |es| == 0 then (v, None) else
      var (u, err) := RunLoop(v, b, es[..|es| - 1]);
      if err.Some? then (u, err) else Iterate(u, b, es[|es| - 1])
  }

  datatype Report = Report(
    results: seq<TxResult>, coinbaseDiff: int, gasFees: int, ethSent: int, bundleGasPrice: int, totalGasUsed: nat,
    bundleHash: Hash)

  function MakeReport(diff: int, total: nat, gasFees: int, hash: Hash, results: seq<TxResult>): Result<Report> {
    match BigDiv(diff, ToInt64(total))
    case Err(e) => Err(e)
    case Ok(price) => Ok(Report(results, diff, gasFees, diff - gasFees, price, total, hash))
  }

  function Finish(l: Ledger, b: Block, v: Loop, keccak: Bytes -> Hash): Result<Report> {
    var diff := Balance(v.ledger, b.coinbase) - Balance(l, b.coinbase);
    MakeReport(diff, v.total, v.gasFees, keccak(v.hashed), v.results)
  }

  // ----- the block the bundle runs in -----

  /** What a caller may override, and the parent it falls back on. */
  datatype Overrides = Overrides(coinbase: Option<Address>, baseFee: Option<nat>)

  datatype Parent = Parent(coinbase: Address, nextBaseFee: nat)

  /** The coinbase is the stated one or the parent's; the base fee the stated one,
      from London on the one the parent implies, and before that none. */
  function BlockFor(o: Overrides, parent: Parent, london: bool): Block {
    Block(
      if o.coinbase.Some? then o.coinbase.value else parent.coinbase,
      if o.baseFee.Some? then o.baseFee else if london then Some(parent.nextBaseFee) else None,
      london)
  }

  // ----- the loop itself -----

  class StateDB {
    var ledger: Ledger

    constructor (ledger: Ledger)
      ensures this.ledger == ledger
    {
      this.ledger := ledger;
    }
  }

  class GasPool {
    var gas: nat

    constructor (gas: nat)
      ensures this.gas == gas
    {
      this.gas := gas;
    }
  }

  class GasMeter {
    var used: nat

    constructor ()
      ensures used == 0
    {
      used := 0;
    }
  }

  /** applyTransactionWithResult from Byzantium on: the part that touches state,
      pool and meter, and the receipt. `create` derives the address of a contract
      from its creator and nonce. */
  method ApplyTransaction(
      state: StateDB, pool: GasPool, meter: GasMeter, b: Block, e: Entry, create: (Address, Uint64) -> Address)
    returns (receipt: Result<Receipt>)
    modifies state, pool, meter
    ensures
      var m := ApplyMessage(old(state.ledger), old(pool.gas), b, e.tx, e.outcome);
      && pool.gas == m.pool && state.ledger == m.ledger
      && (m.err.Some? ==> receipt == Err(m.err.value) && meter.used == old(meter.used))
      && (m.err.None? ==>
            && meter.used == AddUint64(old(meter.used), e.outcome.used)
            && receipt.Ok?
            && var r := receipt.value;
               && (r.success <==> e.outcome.execution.Returned?)
               && r.used == e.outcome.used && r.cumulative == meter.used && r.txHash == e.tx.hash
               && r.created == if e.tx.to.None? then Some(create(e.tx.sender, e.tx.nonce)) else None)
  {
    var m := ApplyMessage(state.ledger, pool.gas, b, e.tx, e.outcome);
    pool.gas, state.ledger := m.pool, m.ledger;
    if m.err.Some? {
      return Err(m.err.value);
    }
    meter.used := AddUint64(meter.used, e.outcome.used);
    var created := if e.tx.to.None? then Some(create(e.tx.sender, e.tx.nonce)) else None;
    return Ok(Receipt(e.outcome.execution.Returned?, meter.used, e.outcome.used, e.tx.hash, created));
  }

  /** The accounting half of the loop body. */
  method AccountEntry(
      ghost v: Loop, coinbaseNow: int, coinbaseBefore: int, receipt: Receipt, b: Block, e: Entry,
      total: nat, gasFees: int, hashed: Bytes, results: seq<TxResult>)
    returns (total': nat, gasFees': int, hashed': Bytes, results': seq<TxResult>, err: Option<Error>)
    requires coinbaseNow == Balance(v.ledger, b.coinbase)
    requires receipt.used == e.outcome.used && receipt.cumulative == v.headerGas
    requires total == v.total && gasFees == v.gasFees && hashed == v.hashed && results == v.results
    ensures (v.(total := total', gasFees := gasFees', hashed := hashed', results := results'), err)
            == Account(v, coinbaseBefore, b, e)
  {
    hide EffectiveTip, ToInt64, AddUint64, BigDiv, Balance, Show;
    total', gasFees', hashed', results' := total, gasFees, hashed, results;
    total' := AddUint64(total, receipt.used);
    var tip := EffectiveTip(e.tx, b.baseFee);
    if tip.Err? {
      return total', gasFees', hashed', results', Some(tip.error);
    }
    var fees := ToInt64(receipt.used) * tip.value;
    gasFees' := gasFees + fees;
    hashed' := hashed + e.tx.hash;
    var diff := coinbaseNow - coinbaseBefore;
    var price := BigDiv(diff, ToInt64(receipt.used));
    if price.Err? {
      return total', gasFees', hashed', results', Some(price.error);
    }
    var r := TxResult(
      e.tx.hash, e.tx.sender, e.tx.to, Show(e.outcome.execution),
      receipt.used, receipt.cumulative, diff, fees, diff - fees, price.value);
    results' := results + [r];
    err := None;
  }

  /** The loop body: the new totals and results, and the error that ends the loop if any. */
  method RunEntry(
      state: StateDB, pool: GasPool, meter: GasMeter, b: Block, e: Entry, create: (Address, Uint64) -> Address,
      total: nat, gasFees: int, hashed: Bytes, results: seq<TxResult>)
    returns (total': nat, gasFees': int, hashed': Bytes, results': seq<TxResult>, err: Option<Error>)
    modifies state, pool, meter
    ensures (Loop(state.ledger, pool.gas, meter.used, total', gasFees', hashed', results'), err)
            == Iterate(Loop(old(state.ledger), old(pool.gas), old(meter.used), total, gasFees, hashed, results), b, e)
  {
    hide ApplyMessage, Account, AddUint64, Balance;
    if e.outcome.cancelled {
      return total, gasFees, hashed, results, Some(Cancelled);
    }
    if !e.outcome.signed {
      return total, gasFees, hashed, results, Some(BadSignature);
    }
    var coinbaseBefore := Balance(state.ledger, b.coinbase);
    var receipt := ApplyTransaction(state, pool, meter, b, e, create);
    if receipt.Err? {
      return total, gasFees, hashed, results, Some(receipt.error);
    }
    total', gasFees', hashed', results', err := AccountEntry(
      Loop(state.ledger, pool.gas, meter.used, total, gasFees, hashed, results),
      Balance(state.ledger, b.coinbase), coinbaseBefore, receipt.value, b, e, total, gasFees, hashed, results);
  }

  /** The loop. */
  method RunEntries(
      state: StateDB, pool: GasPool, meter: GasMeter, b: Block, es: seq<Entry>, create: (Address, Uint64) -> Address)
    returns (total: nat, gasFees: int, hashed: Bytes, results: seq<TxResult>, err: Option<Error>)
    requires pool.gas == MAX_UINT64 && meter.used == 0
    modifies state, pool, meter
    ensures (Loop(state.ledger, pool.gas, meter.used, total, gasFees, hashed, results), err)
            == RunLoop(Init(old(state.ledger)), b, es)
  {
    hide RunLoop, Iterate;
    ghost var start := Init(state.ledger);
    total, gasFees, hashed, results, err := 0, 0, [], [], None;
    RunLoopStarts(start, b, es);
    for i := 0 to |es|
      invariant RunLoop(start, b, es[..i]) ==
                (Loop(state.ledger, pool.gas, meter.used, total, gasFees, hashed, results), None)
    {
      total, gasFees, hashed, results, err :=
        RunEntry(state, pool, meter, b, es[i], create, total, gasFees, hashed, results);
      RunLoopStep(start, b, es, i);
      if err.Some? {
        RunLoopStops(start, b, es, i + 1);
        return;
      }
    }
    assert es[..|es|] == es;
    err := None;
  }

  /** The loop and the report. */
  method ReportEntries(
      state: StateDB, b: Block, es: seq<Entry>, create: (Address, Uint64) -> Address, keccak: Bytes -> Hash)
    returns (r: Result<Report>)
    modifies state
    ensures state.ledger == RunLoop(Init(old(state.ledger)), b, es).0.ledger
    ensures
      var (v, err) := RunLoop(Init(old(state.ledger)), b, es);
      r == if err.Some? then Err(err.value) else Finish(old(state.ledger), b, v, keccak)
  {
    hide RunLoop, MakeReport, Balance, Init;
    var pool := new GasPool(MAX_UINT64);
    var meter := new GasMeter();
    var coinbaseBefore := Balance(state.ledger, b.coinbase);
    var totalGasUsed, gasFees, hashed, results, err := RunEntries(state, pool, meter, b, es, create);
    if err.Some? {
      return Err(err.value);
    }
    var coinbaseDiff := Balance(state.ledger, b.coinbase) - coinbaseBefore;
    return MakeReport(coinbaseDiff, totalGasUsed, gasFees, keccak(hashed), results);
  }

  /** CallBundle once its transactions are decoded and its parent is found. */
  method CallBundle(
      state: StateDB, blockNumber: int, o: Overrides, parent: Parent, london: bool, es: seq<Entry>,
      create: (Address, Uint64) -> Address, keccak: Bytes -> Hash)
    returns (r: Result<Report>)
    modifies state
    ensures |es| == 0 ==> r == Err(MissingTransactions)
    ensures |es| > 0 && blockNumber == 0 ==> r == Err(MissingBlockNumber)
    ensures |es| == 0 || blockNumber == 0 ==> state.ledger == old(state.ledger)
    ensures |es| > 0 && blockNumber != 0 ==>
              var b := BlockFor(o, parent, london);
              var (v, err) := RunLoop(Init(old(state.ledger)), b, es);
              && state.ledger == v.ledger
              && r == if err.Some? then Err(err.value) else Finish(old(state.ledger), b, v, keccak)
  {
    if |es| == 0 {
      return Err(MissingTransactions);
    }
    if blockNumber == 0 {
      return Err(MissingBlockNumber);
    }
    hide RunLoop, Finish, BlockFor, Init;
    r := ReportEntries(state, BlockFor(o, parent, london), es, create, keccak);
  }

  lemma RunLoopStarts(v: Loop, b: Block, es: seq<Entry>)
    ensures RunLoop(v, b, es[..0]) == (v, None)
  {
  }

  lemma RunLoopStep(v: Loop, b: Block, es: seq<Entry>, i: nat)
    requires i < |es|
    ensures RunLoop(v, b, es[..i]).1.None? ==> RunLoop(v, b, es[..i + 1]) == Iterate(RunLoop(v, b, es[..i]).0, b, es[i])
  {
    hide Iterate;
    assert es[..i + 1][..i] == es[..i];
  }

  /** Once an iteration ends the loop, the rest of the bundle is not looked at. */
  lemma {:induction false} RunLoopStops(v: Loop, b: Block, es: seq<Entry>, i: nat)
    requires i <= |es|
    ensures RunLoop(v, b, es[..i]).1.Some? ==> RunLoop(v, b, es) == RunLoop(v, b, es[..i])
    decreases |es|
  {
    hide Iterate;
    if i == |es| {
      assert es[..i] == es;
    } else {
      RunLoopStops(v, b, es[..|es| - 1], i);
      assert es[..|es| - 1][..i] == es[..i];
    }
  }

  // ----- gas -----

  /** pool + total is the initial pool, so no uint64 sum wraps; the header and the
      last receipt agree with the total; cumulative gas never decreases. */
  predicate GasExact(v: Loop) {
    && v.pool + v.total == MAX_UINT64
    && v.headerGas == v.total
    && (|v.results| > 0 ==> v.results[|v.results| - 1].cumulative == v.total)
    && (|v.results| == 0 ==> v.total == 0)
    && (forall i, j :: 0 <= i < j < |v.results| ==> v.results[i].cumulative <= v.results[j].cumulative)
    && v.total == SumUsed(v.results)
  }

  function SumUsed(rs: seq<TxResult>): nat {
    if |rs| == 0 then 0 else SumUsed(rs[..|rs| - 1]) + rs[|rs| - 1].used
  }

  lemma AppliedPool(l: Ledger, pool: nat, b: Block, tx: Tx, o: Outcome)
    ensures
      var m := ApplyMessage(l, pool, b, tx, o);
      if m.err.None? then o.used <= pool && m.pool == pool - o.used else m.pool <= pool
  {
    hide Balance, Moved, Credit, MessagePrice, PaidTip;
  }

  lemma RecordedGas(v: Loop, before: int, b: Block, e: Entry)
    requires GasExact(v.(pool := v.pool + e.outcome.used, headerGas := v.total))
    requires v.headerGas == v.total + e.outcome.used
    ensures
      var (u, err) := Account(v, before, b, e);
      && u.pool == v.pool && u.headerGas == v.headerGas == u.total
      && (err.None? ==> GasExact(u))
  {
    hide EffectiveTip, ToInt64, Balance, BigDiv;
    var (u, err) := Account(v, before, b, e);
    if err.None? {
      assert u.results[..|u.results| - 1] == v.results;
    }
  }

  /** Header and total stay equal, and grow by the gas used or not at all, as
      plain integers. */
  predicate GasStep(v: Loop, u: Loop, used: nat) {
    && u.headerGas == u.total
    && (u.total == v.total || u.total == v.total + used)
    && u.pool + u.total <= MAX_UINT64
  }

  lemma IterateGas(v: Loop, b: Block, e: Entry)
    requires GasExact(v)
    ensures
      var (u, err) := Iterate(v, b, e);
      && (err.None? ==> GasExact(u) && u.total == v.total + e.outcome.used)
      && GasStep(v, u, e.outcome.used)
  {
    hide ApplyMessage, Account, SumUsed, Balance;
    AppliedPool(v.ledger, v.pool, b, e.tx, e.outcome);
    var m := ApplyMessage(v.ledger, v.pool, b, e.tx, e.outcome);
    if !e.outcome.cancelled && e.outcome.signed && m.err.None? {
      var applied := v.(ledger := m.ledger, pool := m.pool, headerGas := AddUint64(v.headerGas, e.outcome.used));
      RecordedGas(applied, Balance(v.ledger, b.coinbase), b, e);
    }
  }

  function SumGas(es: seq<Entry>): nat {
    if |es| == 0 then 0 else SumGas(es[..|es| - 1]) + es[|es| - 1].outcome.used
  }

  /** For every bundle and every point at which its loop stops: header and total
      are equal, and the plain sum of the gas of the completed transactions, or
      that and the gas of the one that ended the loop. */
  lemma {:induction false} GasNeverWraps(l: Ledger, b: Block, es: seq<Entry>)
    ensures
      var (v, err) := RunLoop(Init(l), b, es);
      var n := |v.results|;
      && n <= |es| && (err.None? <==> n == |es|) && (err.None? ==> GasExact(v))
      && var sum := SumGas(es[..n]);
         var last := if n < |es| then es[n].outcome.used else 0;
         && v.headerGas == v.total
         && (v.total == sum || v.total == sum + last)
         && v.pool + v.total <= MAX_UINT64
    decreases |es|
  {
    hide Iterate, GasExact;
    if |es| == 0 {
      InitExact(l);
    } else {
      var front, e := es[..|es| - 1], es[|es| - 1];
      GasNeverWraps(l, b, front);
      var (v, err) := RunLoop(Init(l), b, front);
      assert front[..|v.results|] == es[..|v.results|];
      if err.None? {
        IterateGas(v, b, e);
        IterateCounts(v, b, e);
        assert es[..|es|] == es;
      }
    }
  }

  lemma InitExact(l: Ledger)
    ensures GasExact(Init(l))
  {
  }

  lemma IterateCounts(v: Loop, b: Block, e: Entry)
    ensures
      var (u, err) := Iterate(v, b, e);
      if err.None? then |u.results| == |v.results| + 1 else u.results == v.results
  {
    hide ApplyMessage, EffectiveTip, ToInt64, BigDiv, Balance, AddUint64;
  }

  // ----- what a report is about -----

  function Hashes(es: seq<Entry>): Bytes {
    if |es| == 0 then [] else Hashes(es[..|es| - 1]) + es[|es| - 1].tx.hash
  }

  /** r is about e. */
  predicate ResultOf(r: TxResult, e: Entry) {
    && (r.txHash, r.from, r.to, r.used) == (e.tx.hash, e.tx.sender, e.tx.to, e.outcome.used)
    && (r.shown.Value? <==> e.outcome.execution.Returned?)
    && (r.shown.Value? ==> r.shown.output == e.outcome.execution.output)
    && (r.shown.Failure? ==>
          (r.shown.revert.Some? <==> e.outcome.execution.Reverted? && e.outcome.execution.output != []))
    && (r.shown.Failure? && r.shown.revert.Some? ==> r.shown.revert.value == e.outcome.execution.output)
  }

  lemma ShownResult(v: Loop, b: Block, e: Entry)
    requires Iterate(v, b, e).1.None?
    ensures
      var u := Iterate(v, b, e).0;
      && u.hashed == v.hashed + e.tx.hash
      && |u.results| == |v.results| + 1 && u.results[..|v.results|] == v.results
      && ResultOf(u.results[|v.results|], e)
  {
    hide ApplyMessage, EffectiveTip, ToInt64, BigDiv, Balance, AddUint64;
  }

  /** A completed bundle is reported transaction by transaction in its own order,
      and its hash is that of all transaction hashes in that order. */
  lemma {:induction false} ReportFollowsBundle(l: Ledger, b: Block, es: seq<Entry>, keccak: Bytes -> Hash)
    requires RunLoop(Init(l), b, es).1.None?
    ensures
      var v := RunLoop(Init(l), b, es).0;
      && v.hashed == Hashes(es) && |v.results| == |es|
      && (forall i :: 0 <= i < |es| ==> ResultOf(v.results[i], es[i]))
      && (Finish(l, b, v, keccak).Ok? ==>
            && Finish(l, b, v, keccak).value.results == v.results
            && Finish(l, b, v, keccak).value.bundleHash == keccak(Hashes(es)))
    decreases |es|
  {
    hide Iterate, ResultOf;
    if |es| > 0 {
      var front, e := es[..|es| - 1], es[|es| - 1];
      ReportFollowsBundle(l, b, front, keccak);
      ShownResult(RunLoop(Init(l), b, front).0, b, e);
    }
  }

  // ----- why a bundle stops -----

  /** Go's conversion keeps the low 64 bits, as a signed number. */
  lemma ToInt64Wraps(n: nat)
    ensures -0x8000_0000_0000_0000 <= ToInt64(n) < 0x8000_0000_0000_0000
    ensures ToInt64(n) % 0x1_0000_0000_0000_0000 == n % 0x1_0000_0000_0000_0000
  {
  }

  /** Gas is bought for a message when the sender can pay its whole gas limit at the
      fee cap and its value, the pool holds the gas limit, and under London rules
      the tip cap is at most the fee cap, which covers a base fee. */
  predicate BuysGas(l: Ledger, pool: nat, b: Block, tx: Tx) {
    && tx.gasLimit * tx.feeCap + tx.value <= Balance(l, tx.sender)
    && tx.gasLimit <= pool
    && (b.london ==> tx.tipCap <= tx.feeCap && (b.baseFee.Some? ==> b.baseFee.value <= tx.feeCap))
  }

  /** A message is applied exactly when it is acceptable, its gas is bought and it
      uses no more than that; the sender can then also pay its value. */
  lemma AppliedExactly(l: Ledger, pool: nat, b: Block, tx: Tx, o: Outcome)
    ensures ApplyMessage(l, pool, b, tx, o).err.None? <==>
            o.verdict == Accepted && BuysGas(l, pool, b, tx) && o.used <= tx.gasLimit
    ensures ApplyMessage(l, pool, b, tx, o).err.None? ==>
              tx.gasLimit * MessagePrice(tx, b.baseFee) + tx.value <= Balance(l, tx.sender)
  {
    hide Credit, Moved, PaidTip;
    PriceWithinCap(tx, b.baseFee);
    MulMonotone(MessagePrice(tx, b.baseFee), tx.feeCap, tx.gasLimit);
  }

  lemma PriceWithinCap(tx: Tx, baseFee: Option<nat>)
    ensures MessagePrice(tx, baseFee) <= tx.feeCap
  {
  }

  /** A refused message changes nothing, unless its gas was bought: then the sender
      is debited for the whole limit, and the pool too. */
  lemma RefusedLeaves(l: Ledger, pool: nat, b: Block, tx: Tx, o: Outcome, a: Address)
    ensures
      var m := ApplyMessage(l, pool, b, tx, o);
      m.err.Some? ==>
        if o.verdict.RefusedAtOnce? || !BuysGas(l, pool, b, tx) then m.ledger == l && m.pool == pool
        else
          && m.err == Some(ExecutionRejected) && m.pool == pool - tx.gasLimit
          && Balance(m.ledger, a) ==
             Balance(l, a) - if a == tx.sender then tx.gasLimit * MessagePrice(tx, b.baseFee) else 0
  {
    hide MessagePrice, Moved, PaidTip;
  }

  /** Why an iteration ends the loop, and in which order of precedence: a dead
      context, a sender that cannot be recovered, a refused message, a base fee
      above the fee cap, no gas used. The first two leave everything as it was. */
  lemma IterateEnds(v: Loop, b: Block, e: Entry)
    ensures
      var (u, err) := Iterate(v, b, e);
      var m := ApplyMessage(v.ledger, v.pool, b, e.tx, e.outcome);
      if e.outcome.cancelled then u == v && err == Some(Cancelled)
      else if !e.outcome.signed then u == v && err == Some(BadSignature)
      else if m.err.Some? then u == v.(ledger := m.ledger, pool := m.pool) && err == m.err
      else if b.baseFee.Some? && e.tx.feeCap < b.baseFee.value then err == Some(FeeCapTooLow)
      else if e.outcome.used == 0 then err == Some(DivisionByZero)
      else err == None
  {
    hide ApplyMessage, Balance, AddUint64;
    ToInt64Wraps(e.outcome.used);
  }

  /** A given coinbase or base fee wins. The defaults are the parent's coinbase
      and, from London on, the base fee it implies. */
  lemma OverridesWin(o: Overrides, parent: Parent, london: bool)
    ensures o.coinbase == Some(BlockFor(o, parent, london).coinbase)
            || (o.coinbase.None? && BlockFor(o, parent, london).coinbase == parent.coinbase)
    ensures o.baseFee.Some? ==> BlockFor(o, parent, london).baseFee == o.baseFee
    ensures o.baseFee.None? ==> (BlockFor(o, parent, london).baseFee.Some? <==> london)
    ensures o.baseFee.None? && london ==> BlockFor(o, parent, london).baseFee == Some(parent.nextBaseFee)
    ensures BlockFor(o, parent, london).london == london
  {
  }
}
