// What the numbers a bundle reports add up to.
module BundleAccounting {
  import opened Wrappers
  import opened ByteStrings
  import opened Bundle
  import opened Digits
  import opened Orders

  // ----- one transaction -----

  lemma CreditBalance(l: Ledger, a: Address, amount: int, b: Address)
    ensures Balance(Credit(l, a, amount), b) == Balance(l, b) + if a == b then amount else 0
  {
  }

  lemma {:induction false} MovedBalance(l: Ledger, ts: seq<Transfer>, a: Address)
    ensures Balance(Moved(l, ts), a) == Balance(l, a) + NetTo(a, ts)
  {
    hide Balance, Credit;
    if |ts| > 0 {
      var t := ts[|ts| - 1];
      var m := Moved(l, ts[..|ts| - 1]);
      MovedBalance(l, ts[..|ts| - 1], a);
      CreditBalance(m, t.from, -(t.amount as int), a);
      CreditBalance(Credit(m, t.from, -(t.amount as int)), t.to, t.amount, a);
    }
  }

  lemma RefundIdentity(limit: nat, used: nat, price: int)
    ensures -(limit * price) + (limit - used) * price == -(used * price)
  {
  }

  /** Every account's balance after an applied message, whatever was executed. */
  lemma AppliedBalance(l: Ledger, pool: nat, b: Block, tx: Tx, o: Outcome, a: Address)
    requires ApplyMessage(l, pool, b, tx, o).err.None?
    ensures Balance(ApplyMessage(l, pool, b, tx, o).ledger, a) ==
            Balance(l, a) + NetTo(a, o.transfers)
            - (if a == tx.sender then o.used * MessagePrice(tx, b.baseFee) else 0)
            + (if a == b.coinbase then o.used * PaidTip(tx, b) else 0)
  {
    hide Balance, Credit, NetTo, Moved, PaidTip, MessagePrice;
    var price := MessagePrice(tx, b.baseFee);
    var bought := Credit(l, tx.sender, -(tx.gasLimit * price));
    var executed := Moved(bought, o.transfers);
    var refunded := Credit(executed, tx.sender, (tx.gasLimit - o.used) * price);
    CreditBalance(l, tx.sender, -(tx.gasLimit * price), a);
    MovedBalance(bought, o.transfers, a);
    CreditBalance(executed, tx.sender, (tx.gasLimit - o.used) * price, a);
    CreditBalance(refunded, b.coinbase, o.used * PaidTip(tx, b), a);
    RefundIdentity(tx.gasLimit, o.used, price);
  }

  /** The price of a unit of gas is the fee cap, or less where base fee and tip
      cap together are less. */
  lemma PriceIsTheLesser(tx: Tx, baseFee: Option<nat>)
    ensures baseFee.None? ==> MessagePrice(tx, baseFee) == tx.feeCap
    ensures baseFee.Some? ==>
              var price := MessagePrice(tx, baseFee);
              && price <= tx.feeCap && price <= tx.tipCap + baseFee.value
              && (price == tx.feeCap || price == tx.tipCap + baseFee.value)
  {
  }

  /** The effective tip is the tip cap, or less where a base fee leaves less of the
      fee cap; below the base fee there is none. */
  lemma TipIsTheLesser(tx: Tx, baseFee: Option<nat>)
    ensures baseFee.None? ==> EffectiveTip(tx, baseFee) == Ok(tx.tipCap)
    ensures baseFee.Some? ==> (EffectiveTip(tx, baseFee).Ok? <==> baseFee.value <= tx.feeCap)
    ensures baseFee.Some? && baseFee.value <= tx.feeCap ==>
              var tip := EffectiveTip(tx, baseFee).value;
              && tip <= tx.tipCap && tip <= tx.feeCap - baseFee.value
              && (tip == tx.tipCap || tip == tx.feeCap - baseFee.value)
  {
  }

  /** With a base fee the message price is the base fee plus the effective tip:
      the all-gas cost splits without remainder. */
  lemma PriceSplits(tx: Tx, baseFee: nat, used: nat)
    requires tx.feeCap >= baseFee
    ensures EffectiveTip(tx, Some(baseFee)).Ok?
    ensures MessagePrice(tx, Some(baseFee)) == baseFee + EffectiveTip(tx, Some(baseFee)).value
    ensures used * MessagePrice(tx, Some(baseFee)) == used * baseFee + used * EffectiveTip(tx, Some(baseFee)).value
  {
  }

  function Total(l: Ledger, accounts: seq<Address>): int {
    if |accounts| == 0 then 0 else Total(l, accounts[..|accounts| - 1]) + Balance(l, accounts[|accounts| - 1])
  }

  lemma {:induction false} TotalCredit(l: Ledger, accounts: seq<Address>, a: Address, amount: int)
    requires Distinct(accounts)
    ensures Total(Credit(l, a, amount), accounts) == Total(l, accounts) + if a in accounts then amount else 0
  {
    hide Balance, Credit;
    if |accounts| > 0 {
      var last, front := accounts[|accounts| - 1], accounts[..|accounts| - 1];
      assert accounts == front + [last];
      assert last !in front;
      TotalCredit(l, front, a, amount);
      CreditBalance(l, a, amount, last);
    }
  }

  lemma {:induction false} TotalMoved(l: Ledger, accounts: seq<Address>, ts: seq<Transfer>)
    requires Distinct(accounts)
    requires forall i :: 0 <= i < |ts| ==> ts[i].from in accounts && ts[i].to in accounts
    ensures Total(Moved(l, ts), accounts) == Total(l, accounts)
  {
    hide Credit;
    if |ts| > 0 {
      var t := ts[|ts| - 1];
      var m := Moved(l, ts[..|ts| - 1]);
      TotalMoved(l, accounts, ts[..|ts| - 1]);
      TotalCredit(m, accounts, t.from, -(t.amount as int));
      TotalCredit(Credit(m, t.from, -(t.amount as int)), accounts, t.to, t.amount);
    }
  }

  /** What a unit of gas destroys: the base fee under London rules, else nothing. */
  function Burned(b: Block): nat {
    if b.london && b.baseFee.Some? then b.baseFee.value else 0
  }

  /** Conservation: over any set of accounts that holds everyone involved, an
      applied message destroys exactly the base fee of the gas it used under
      London rules, and nothing otherwise. */
  lemma OnlyTheBaseFeeIsBurned(l: Ledger, pool: nat, b: Block, tx: Tx, o: Outcome, accounts: seq<Address>)
    requires ApplyMessage(l, pool, b, tx, o).err.None?
    requires Distinct(accounts) && tx.sender in accounts && b.coinbase in accounts
    requires forall i :: 0 <= i < |o.transfers| ==> o.transfers[i].from in accounts && o.transfers[i].to in accounts
    ensures Total(ApplyMessage(l, pool, b, tx, o).ledger, accounts) == Total(l, accounts) - o.used * Burned(b)
  {
    hide Balance, Credit, Total, Moved, MessagePrice, EffectiveTip, PaidTip, Burned;
    var price := MessagePrice(tx, b.baseFee);
    var bought := Credit(l, tx.sender, -(tx.gasLimit * price));
    var executed := Moved(bought, o.transfers);
    var refunded := Credit(executed, tx.sender, (tx.gasLimit - o.used) * price);
    TotalCredit(l, accounts, tx.sender, -(tx.gasLimit * price));
    TotalMoved(bought, accounts, o.transfers);
    TotalCredit(executed, accounts, tx.sender, (tx.gasLimit - o.used) * price);
    TotalCredit(refunded, accounts, b.coinbase, o.used * PaidTip(tx, b));
    RefundIdentity(tx.gasLimit, o.used, price);
    BurnIdentity(tx, b, o.used);
  }

  lemma BurnIdentity(tx: Tx, b: Block, used: nat)
    requires b.london && b.baseFee.Some? ==> tx.feeCap >= b.baseFee.value
    ensures used * MessagePrice(tx, b.baseFee) - used * PaidTip(tx, b) == used * Burned(b)
  {
    if b.london && b.baseFee.Some? {
      PriceSplits(tx, b.baseFee.value, used);
      TipIsEffective(tx, b);
    }
  }

  lemma TipIsEffective(tx: Tx, b: Block)
    requires b.baseFee.Some? && tx.feeCap >= b.baseFee.value
    ensures EffectiveTip(tx, b.baseFee).Ok?
    ensures PaidTip(tx, b) == EffectiveTip(tx, b.baseFee).value + if b.london then 0 else b.baseFee.value
  {
  }

  // ----- the reported numbers -----

  function SumDiff(rs: seq<TxResult>): int {
    if |rs| == 0 then 0 else SumDiff(rs[..|rs| - 1]) + rs[|rs| - 1].coinbaseDiff
  }

  function SumFees(rs: seq<TxResult>): int {
    if |rs| == 0 then 0 else SumFees(rs[..|rs| - 1]) + rs[|rs| - 1].gasFees
  }

  function SumSent(rs: seq<TxResult>): int {
    if |rs| == 0 then 0 else SumSent(rs[..|rs| - 1]) + rs[|rs| - 1].ethSent
  }

  /** What one completed iteration records. */
  lemma IterateRecords(v: Loop, b: Block, e: Entry)
    ensures
      var (u, err) := Iterate(v, b, e);
      var used := e.outcome.used;
      err.None? ==>
        && ApplyMessage(v.ledger, v.pool, b, e.tx, e.outcome).err.None?
        && ApplyMessage(v.ledger, v.pool, b, e.tx, e.outcome).ledger == u.ledger
        && EffectiveTip(e.tx, b.baseFee).Ok? && ToInt64(used) != 0
        && |u.results| == |v.results| + 1 && u.results[..|v.results|] == v.results
        && var r := u.results[|v.results|];
           && r.used == used
           && r.coinbaseDiff == Balance(u.ledger, b.coinbase) - Balance(v.ledger, b.coinbase)
           && r.gasFees == ToInt64(used) * EffectiveTip(e.tx, b.baseFee).value
           && r.ethSent == r.coinbaseDiff - r.gasFees
           && r.gasPrice == r.coinbaseDiff / ToInt64(used)
           && u.gasFees == v.gasFees + r.gasFees
  {
    hide ApplyMessage, EffectiveTip, ToInt64, AddUint64, Balance;
  }

  /** Telescoping: at every completed prefix of every bundle the per-transaction
      numbers add up to the running totals. */
  lemma {:induction false} SumsTelescope(l: Ledger, b: Block, es: seq<Entry>)
    requires RunLoop(Init(l), b, es).1.None?
    ensures
      var v := RunLoop(Init(l), b, es).0;
      && |v.results| == |es|
      && SumDiff(v.results) == Balance(v.ledger, b.coinbase) - Balance(l, b.coinbase)
      && SumFees(v.results) == v.gasFees
      && SumSent(v.results) == SumDiff(v.results) - SumFees(v.results)
    decreases |es|
  {
    hide Iterate, Balance;
    if |es| > 0 {
      SumsTelescope(l, b, es[..|es| - 1]);
      IterateRecords(RunLoop(Init(l), b, es[..|es| - 1]).0, b, es[|es| - 1]);
    }
  }

  /** The totals of the report are the sums over its transactions, which are
      those of the loop. */
  lemma {:induction false} ReportAddsUp(l: Ledger, b: Block, es: seq<Entry>, keccak: Bytes -> Hash)
    ensures
      var (v, err) := RunLoop(Init(l), b, es);
      err.None? && Finish(l, b, v, keccak).Ok? ==>
        var r := Finish(l, b, v, keccak).value;
        && r.results == v.results && |r.results| == |es|
        && r.coinbaseDiff == SumDiff(r.results)
        && r.gasFees == SumFees(r.results)
        && r.ethSent == SumSent(r.results)
        && r.totalGasUsed == SumUsed(r.results)
  {
    if RunLoop(Init(l), b, es).1.None? {
      SumsTelescope(l, b, es);
      GasNeverWraps(l, b, es);
      hide RunLoop, Balance, SumDiff, SumFees, SumSent, SumUsed, ToInt64;
    }
  }

  /** The bundle's price is the whole number just below coinbaseDiff per unit of
      gas, also for a negative difference. A bundle has none exactly when its
      gas, as a signed 64-bit number, is zero. */
  lemma {:induction false} BundlePriceIsQuotient(l: Ledger, b: Block, v: Loop, keccak: Bytes -> Hash)
    ensures Finish(l, b, v, keccak).Err? <==> v.total % 0x1_0000_0000_0000_0000 == 0
    ensures 0 < v.total < 0x8000_0000_0000_0000 ==>
              && Finish(l, b, v, keccak).Ok?
              && var r := Finish(l, b, v, keccak).value;
                 && r.totalGasUsed == v.total
                 && r.coinbaseDiff == Balance(v.ledger, b.coinbase) - Balance(l, b.coinbase)
                 && r.bundleGasPrice * r.totalGasUsed <= r.coinbaseDiff < (r.bundleGasPrice + 1) * r.totalGasUsed
  {
    hide Balance;
    ToInt64Wraps(v.total);
    if 0 < v.total < 0x8000_0000_0000_0000 {
      SmallIsItself(v.total);
      var r := Finish(l, b, v, keccak).value;
      FloorBounds(r.coinbaseDiff, v.total, r.bundleGasPrice);
      FloorBounds(r.coinbaseDiff, v.total, r.bundleGasPrice + 1);
    }
  }

  /** The fees of a completed transaction are its gas at the tip cap, or at what a
      base fee leaves of the fee cap where that is less; its price is the whole
      number just below its coinbaseDiff per unit of gas. */
  lemma {:induction false} TransactionPrices(v: Loop, b: Block, e: Entry)
    ensures
      var (u, err) := Iterate(v, b, e);
      var used := e.outcome.used;
      err.None? && used < 0x8000_0000_0000_0000 ==>
        && |u.results| == |v.results| + 1
        && var r := u.results[|v.results|];
           && (b.baseFee.None? ==> r.gasFees == used * e.tx.tipCap)
           && (b.baseFee.Some? ==>
                 && r.gasFees <= used * e.tx.tipCap && r.gasFees <= used * (e.tx.feeCap - b.baseFee.value)
                 && (r.gasFees == used * e.tx.tipCap || r.gasFees == used * (e.tx.feeCap - b.baseFee.value)))
           && r.gasPrice * used <= r.coinbaseDiff < (r.gasPrice + 1) * used
  {
    hide Iterate, EffectiveTip, ToInt64, Balance;
    var used := e.outcome.used;
    if Iterate(v, b, e).1.None? && used < 0x8000_0000_0000_0000 {
      IterateRecords(v, b, e);
      SmallIsItself(used);
      TipIsTheLesser(e.tx, b.baseFee);
      var r := Iterate(v, b, e).0.results[|v.results|];
      FloorBounds(r.coinbaseDiff, used, r.gasPrice);
      FloorBounds(r.coinbaseDiff, used, r.gasPrice + 1);
      if b.baseFee.Some? {
        var tip := EffectiveTip(e.tx, b.baseFee).value;
        MulMonotone(tip, e.tx.tipCap, used);
        MulMonotone(tip, e.tx.feeCap - b.baseFee.value, used);
      }
    }
  }

  /** ethSentToCoinbase of a transaction whose sender is not the coinbase is what
      its execution moved to the coinbase, exactly when London rules apply or no
      base fee was due: before London the base fee reaches the coinbase too, but
      gasFees does not count it. */
  lemma {:induction false} SentIsNet(v: Loop, b: Block, e: Entry)
    requires b.baseFee.Some? && e.tx.sender != b.coinbase
    requires e.outcome.used < 0x8000_0000_0000_0000
    ensures
      var (u, err) := Iterate(v, b, e);
      err.None? ==>
        && |u.results| == |v.results| + 1
        && var r := u.results[|v.results|];
           var used := e.outcome.used;
           && used * MessagePrice(e.tx, b.baseFee) == used * b.baseFee.value + r.gasFees
           && (r.ethSent == NetTo(b.coinbase, e.outcome.transfers) <==> b.london || used * b.baseFee.value == 0)
  {
    if Iterate(v, b, e).1.None? {
      IterateRecords(v, b, e);
      assert e.tx.feeCap >= b.baseFee.value;
      hide Iterate, ApplyMessage, Balance, NetTo;
      AppliedBalance(v.ledger, v.pool, b, e.tx, e.outcome, b.coinbase);
      PriceSplits(e.tx, b.baseFee.value, e.outcome.used);
      TipIsEffective(e.tx, b);
      var tip := EffectiveTip(e.tx, b.baseFee).value;
      assert ToInt64(e.outcome.used) == e.outcome.used;
      Distribute(e.outcome.used, tip, b.baseFee.value);
    }
  }

  /** An input on which it fails: a plain transfer of gas before London. */
  lemma BaseFeeCountsAsSent(sender: Address, coinbase: Address)
    requires sender != coinbase
    ensures
      var tx := Tx(ZERO_HASH, sender, Some(coinbase), 0, 21000, 2, 2, 0);
      var e := Entry(tx, Outcome(false, true, Accepted, [], 21000, Returned([])));
      var (u, err) := Iterate(Init(map[sender := 42000]), Block(coinbase, Some(1), false), e);
      err.None? && u.results[0].ethSent == 21000 && NetTo(coinbase, e.outcome.transfers) == 0
  {
  }

  lemma Distribute(x: int, y: int, z: int)
    ensures x * (y + z) == x * y + x * z
  {
  }

  function SumNet(a: Address, es: seq<Entry>): int {
    if |es| == 0 then 0 else SumNet(a, es[..|es| - 1]) + NetTo(a, es[|es| - 1].outcome.transfers)
  }

  /** The same for a whole bundle. */
  lemma {:induction false} BundleSentIsNet(l: Ledger, b: Block, es: seq<Entry>)
    requires RunLoop(Init(l), b, es).1.None? && b.london && b.baseFee.Some?
    requires forall i :: 0 <= i < |es| ==> es[i].outcome.used < 0x8000_0000_0000_0000 && es[i].tx.sender != b.coinbase
    ensures SumSent(RunLoop(Init(l), b, es).0.results) == SumNet(b.coinbase, es)
    decreases |es|
  {
    hide Iterate, Balance, MessagePrice;
    if |es| > 0 {
      var v, e := RunLoop(Init(l), b, es[..|es| - 1]).0, es[|es| - 1];
      BundleSentIsNet(l, b, es[..|es| - 1]);
      IterateRecords(v, b, e);
      SentIsNet(v, b, e);
    }
  }

  // ----- the bundle price -----

  predicate Priced(r: TxResult) {
    r.used > 0 && r.gasPrice == r.coinbaseDiff / r.used
  }

  lemma {:induction false} AllPriced(l: Ledger, b: Block, es: seq<Entry>)
    requires RunLoop(Init(l), b, es).1.None?
    requires RunLoop(Init(l), b, es).0.total < 0x8000_0000_0000_0000
    ensures forall i :: 0 <= i < |RunLoop(Init(l), b, es).0.results| ==> Priced(RunLoop(Init(l), b, es).0.results[i])
    decreases |es|
  {
    hide Iterate, Balance, EffectiveTip, Priced;
    if |es| > 0 {
      var v, e := RunLoop(Init(l), b, es[..|es| - 1]).0, es[|es| - 1];
      GasNeverWraps(l, b, es[..|es| - 1]);
      IterateGas(v, b, e);
      AllPriced(l, b, es[..|es| - 1]);
      LastPriced(v, b, e);
    }
  }

  lemma LastPriced(v: Loop, b: Block, e: Entry)
    requires GasExact(v) && Iterate(v, b, e).1.None?
    requires Iterate(v, b, e).0.total < 0x8000_0000_0000_0000
    ensures |Iterate(v, b, e).0.results| == |v.results| + 1
    ensures Iterate(v, b, e).0.results[..|v.results|] == v.results
    ensures Priced(Iterate(v, b, e).0.results[|v.results|])
  {
    hide Iterate, Balance, EffectiveTip, ToInt64, SumUsed, GasExact, GasStep;
    IterateRecords(v, b, e);
    IterateGas(v, b, e);
    SmallIsItself(e.outcome.used);
  }

  lemma SmallIsItself(n: nat)
    requires n < 0x8000_0000_0000_0000
    ensures ToInt64(n) == n
  {
  }

  lemma FloorBounds(d: int, g: nat, q: int)
    requires g > 0
    ensures q <= d / g <==> q * g <= d
  {
    assert d == (d / g) * g + d % g;
    if q <= d / g {
      MulMonotone(q, d / g, g);
    } else {
      MulMonotone(d / g + 1, q, g);
    }
  }

  lemma {:induction false} SumLower(rs: seq<TxResult>, q: int)
    requires forall i :: 0 <= i < |rs| ==> Priced(rs[i]) && q <= rs[i].gasPrice
    ensures q * SumUsed(rs) <= SumDiff(rs)
  {
    if |rs| > 0 {
      var r := rs[|rs| - 1];
      SumLower(rs[..|rs| - 1], q);
      FloorBounds(r.coinbaseDiff, r.used, q);
      Distribute(q, SumUsed(rs[..|rs| - 1]), r.used);
    }
  }

  lemma {:induction false} SumUpper(rs: seq<TxResult>, q: int)
    requires forall i :: 0 <= i < |rs| ==> Priced(rs[i]) && rs[i].gasPrice < q
    ensures SumDiff(rs) <= q * SumUsed(rs) && (|rs| > 0 ==> SumDiff(rs) < q * SumUsed(rs))
  {
    if |rs| > 0 {
      var r := rs[|rs| - 1];
      SumUpper(rs[..|rs| - 1], q);
      FloorBounds(r.coinbaseDiff, r.used, q);
      Distribute(q, SumUsed(rs[..|rs| - 1]), r.used);
    }
  }

  lemma {:induction false} Extremes(rs: seq<TxResult>) returns (lo: nat, hi: nat)
    requires |rs| > 0
    ensures lo < |rs| && hi < |rs|
    ensures forall i :: 0 <= i < |rs| ==> rs[lo].gasPrice <= rs[i].gasPrice <= rs[hi].gasPrice
  {
    if |rs| == 1 {
      return 0, 0;
    }
    var n := |rs| - 1;
    lo, hi := Extremes(rs[..n]);
    lo := if rs[n].gasPrice < rs[lo].gasPrice then n else lo;
    hi := if rs[n].gasPrice > rs[hi].gasPrice then n else hi;
  }

  /** The bundle's gas price is a mediant: it lies between the smallest and the
      largest per-transaction price, also for negative differences. */
  lemma {:induction false} BundlePriceIsMediant(l: Ledger, b: Block, es: seq<Entry>, keccak: Bytes -> Hash)
    requires |es| > 0
    ensures
      var (v, err) := RunLoop(Init(l), b, es);
      err.None? && v.total < 0x8000_0000_0000_0000 ==>
        && Finish(l, b, v, keccak).Ok?
        && exists i, j ::
             && 0 <= i < |v.results| && 0 <= j < |v.results|
             && v.results[i].gasPrice <= Finish(l, b, v, keccak).value.bundleGasPrice <= v.results[j].gasPrice
  {
    if RunLoop(Init(l), b, es).1.None? && RunLoop(Init(l), b, es).0.total < 0x8000_0000_0000_0000 {
      GasNeverWraps(l, b, es);
      SumsTelescope(l, b, es);
      AllPriced(l, b, es);
      hide RunLoop, Finish, Balance, Priced, ToInt64, SumDiff, SumFees, SumSent;
      FinishMediant(l, b, RunLoop(Init(l), b, es).0, keccak);
    }
  }

  lemma FinishMediant(l: Ledger, b: Block, v: Loop, keccak: Bytes -> Hash)
    requires |v.results| > 0 && v.total == SumUsed(v.results) && v.total < 0x8000_0000_0000_0000
    requires SumDiff(v.results) == Balance(v.ledger, b.coinbase) - Balance(l, b.coinbase)
    requires forall i :: 0 <= i < |v.results| ==> Priced(v.results[i])
    ensures Finish(l, b, v, keccak).Ok?
    ensures exists i, j ::
              && 0 <= i < |v.results| && 0 <= j < |v.results|
              && v.results[i].gasPrice <= Finish(l, b, v, keccak).value.bundleGasPrice <= v.results[j].gasPrice
  {
    hide Balance, Priced, SumDiff, SumUsed;
    var lo, hi := Mediant(v.results, v.total);
    SmallIsItself(v.total);
    assert Finish(l, b, v, keccak).value.bundleGasPrice == SumDiff(v.results) / v.total;
  }

  lemma Mediant(rs: seq<TxResult>, total: nat) returns (lo: nat, hi: nat)
    requires |rs| > 0 && total == SumUsed(rs)
    requires forall i :: 0 <= i < |rs| ==> Priced(rs[i])
    ensures total > 0 && lo < |rs| && hi < |rs|
    ensures rs[lo].gasPrice <= SumDiff(rs) / total <= rs[hi].gasPrice
  {
    assert Priced(rs[|rs| - 1]);
    lo, hi := Extremes(rs);
    SumLower(rs, rs[lo].gasPrice);
    SumUpper(rs, rs[hi].gasPrice + 1);
    FloorBounds(SumDiff(rs), total, rs[lo].gasPrice);
    FloorBounds(SumDiff(rs), total, rs[hi].gasPrice + 1);
  }
}
