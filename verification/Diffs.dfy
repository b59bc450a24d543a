// Folding a traced block into the store: ProcessState as a function of values.
module Diffs {
  import opened Wrappers
  import opened ByteStrings
  import opened Accounts
  import opened Gob
  import opened Records
  import opened Orders

  type Diff = map<Address, Account>

  /** One transaction's trace in diff mode. */
  datatype TxDiff = TxDiff(pre: Diff, post: Diff)

  function Merged(s: Store, a: Address, n: Account): Account
    requires WellFormed(s)
  {
    if GetAccount(s, a).Ok? then Merge(GetAccount(s, a).value, n) else n
  }

  function MergeInto(s: Store, a: Address, n: Account): Store
    requires WellFormed(s)
  {
    PutAccount(s, a, Merged(s, a, n))
  }

  /** All entries of one map at once: no order is involved. */
  function ApplyDiff(s: Store, d: Diff): Store
    requires WellFormed(s)
  {
    map a | a in s.Keys + d.Keys :: if a in d then Encode(Merged(s, a, d[a])) else s[a]
  }

  function Mention(d: Diff, k: Key): Option<Value> {
    if k.addr in d then Field(d[k.addr], k) else None
  }

  lemma ApplyDiffWellFormed(s: Store, d: Diff)
    requires WellFormed(s)
    ensures WellFormed(ApplyDiff(s, d))
  {
    forall a | a in d {
      EncodedIsWellFormed(Merged(s, a, d[a]));
    }
  }

  lemma {:induction false} ApplyDiffStored(s: Store, d: Diff, k: Key)
    requires WellFormed(s)
    ensures WellFormed(ApplyDiff(s, d))
    ensures Stored(ApplyDiff(s, d), k) ==
            if Mention(d, k).Some? then NormalValue(k, Mention(d, k).value) else Stored(s, k)
  {
    hide Encode, Normal, NormalValue;
    ApplyDiffWellFormed(s, d);
    var a := k.addr;
    if a in d {
      EncodedIsWellFormed(Merged(s, a, d[a]));
      NormalField(Merged(s, a, d[a]), k);
      if a in s {
        MergeField(Decode(s[a]).value, d[a], k);
        StoredIsNormal(s, k);
      }
    }
  }

  function Fold(s: Store, ds: seq<Diff>): (t: Store)
    requires WellFormed(s)
    ensures WellFormed(t)
  {
    if |ds| == 0 then s else
      var t := Fold(s, ds[..|ds| - 1]);
      ApplyDiffWellFormed(t, ds[|ds| - 1]);
      ApplyDiff(t, ds[|ds| - 1])
  }

  /** tx1.pre, tx1.post, tx2.pre, ... */
  function Flatten(txs: seq<TxDiff>): seq<Diff> {
    if |txs| == 0 then [] else
      Flatten(txs[..|txs| - 1]) + [txs[|txs| - 1].pre, txs[|txs| - 1].post]
  }

  function ProcessBlock(s: Store, txs: seq<TxDiff>): (t: Store)
    requires WellFormed(s)
    ensures WellFormed(t)
  {
    Fold(s, Flatten(txs))
  }

  // ----- last writer wins -----

  function LastMention(ds: seq<Diff>, k: Key): Option<Value> {
    if |ds| == 0 then None
    else if Mention(ds[|ds| - 1], k).Some? then Mention(ds[|ds| - 1], k)
    else LastMention(ds[..|ds| - 1], k)
  }

  function Addresses(ds: seq<Diff>): set<Address> {
    if |ds| == 0 then {} else Addresses(ds[..|ds| - 1]) + ds[|ds| - 1].Keys
  }

  lemma {:induction false} FoldStored(s: Store, ds: seq<Diff>, k: Key)
    requires WellFormed(s)
    ensures Stored(Fold(s, ds), k) ==
            match LastMention(ds, k) { case Some(v) => NormalValue(k, v) case None => Stored(s, k) }
  {
    if |ds| > 0 {
      FoldStored(s, ds[..|ds| - 1], k);
      ApplyDiffStored(Fold(s, ds[..|ds| - 1]), ds[|ds| - 1], k);
    }
  }

  lemma {:induction false} FoldDomain(s: Store, ds: seq<Diff>)
    requires WellFormed(s)
    ensures Fold(s, ds).Keys == s.Keys + Addresses(ds)
  {
    if |ds| > 0 {
      FoldDomain(s, ds[..|ds| - 1]);
    }
  }

  /** Last writer wins, as a complete description of the result: t is what
      ProcessState leaves exactly when its domain and every key are as follows. */
  lemma LastWriterWins(s: Store, txs: seq<TxDiff>, t: Store)
    requires WellFormed(s) && WellFormed(t)
    ensures t == ProcessBlock(s, txs) <==>
            && t.Keys == s.Keys + Addresses(Flatten(txs))
            && forall k :: Stored(t, k) ==
                 match LastMention(Flatten(txs), k) { case Some(v) => NormalValue(k, v) case None => Stored(s, k) }
  {
    FoldDomain(s, Flatten(txs));
    forall k {
      FoldStored(s, Flatten(txs), k);
    }
    if t.Keys == s.Keys + Addresses(Flatten(txs))
       && forall k :: Stored(t, k) ==
            match LastMention(Flatten(txs), k) { case Some(v) => NormalValue(k, v) case None => Stored(s, k) }
    {
      SameStore(t, ProcessBlock(s, txs));
    }
  }

  lemma {:induction false} FlattenConcat(xs: seq<TxDiff>, ys: seq<TxDiff>)
    ensures Flatten(xs + ys) == Flatten(xs) + Flatten(ys)
  {
    if |ys| == 0 {
      assert xs + ys == xs;
    } else {
      FlattenConcat(xs, ys[..|ys| - 1]);
      assert (xs + ys)[..|xs + ys| - 1] == xs + ys[..|ys| - 1];
    }
  }

  lemma {:induction false} FoldConcat(s: Store, xs: seq<Diff>, ys: seq<Diff>)
    requires WellFormed(s)
    ensures Fold(s, xs + ys) == Fold(Fold(s, xs), ys)
  {
    hide ApplyDiff, WellFormed;
    if |ys| == 0 {
      assert xs + ys == xs;
    } else {
      FoldConcat(s, xs, ys[..|ys| - 1]);
      assert (xs + ys)[..|xs + ys| - 1] == xs + ys[..|ys| - 1];
    }
  }

  lemma {:induction false} ProcessConcat(s: Store, xs: seq<TxDiff>, ys: seq<TxDiff>)
    requires WellFormed(s)
    ensures ProcessBlock(s, xs + ys) == ProcessBlock(ProcessBlock(s, xs), ys)
  {
    FlattenConcat(xs, ys);
    FoldConcat(s, Flatten(xs), Flatten(ys));
  }

  function ApplyTx(s: Store, tx: TxDiff): (t: Store)
    requires WellFormed(s)
    ensures WellFormed(t)
  {
    ApplyDiffWellFormed(s, tx.pre);
    ApplyDiffWellFormed(ApplyDiff(s, tx.pre), tx.post);
    ApplyDiff(ApplyDiff(s, tx.pre), tx.post)
  }

  lemma FoldTwo(s: Store, ds: seq<Diff>, tx: TxDiff)
    requires WellFormed(s)
    ensures Fold(s, ds + [tx.pre, tx.post]) == ApplyTx(Fold(s, ds), tx)
  {
    hide ApplyDiff, WellFormed;
    var one, two := ds + [tx.pre], ds + [tx.pre, tx.post];
    assert one[..|ds|] == ds;
    assert two[..|ds| + 1] == one;
    assert Fold(s, two) == ApplyDiff(Fold(s, one), tx.post);
  }

  lemma ProcessSnoc(s: Store, txs: seq<TxDiff>, i: nat)
    requires WellFormed(s) && i < |txs|
    ensures ProcessBlock(s, txs[..i + 1]) == ApplyTx(ProcessBlock(s, txs[..i]), txs[i])
  {
    assert txs[..i + 1][..i] == txs[..i];
    FoldTwo(s, Flatten(txs[..i]), txs[i]);
  }

  // ----- iteration order -----

  /** The loop of ProcessState over one map, in a given order. */
  function WalkDiff(s: Store, d: Diff, order: seq<Address>): (t: Store)
    requires WellFormed(s)
    requires forall a :: a in order ==> a in d
    ensures WellFormed(t)
  {
    if |order| == 0 then s else
      var t := WalkDiff(s, d, order[..|order| - 1]);
      var a := order[|order| - 1];
      EncodedIsWellFormed(Merged(t, a, d[a]));
      MergeInto(t, a, d[a])
  }

  /** What a walk leaves at one address: an address seen once is merged with
      the record the walk started from, whenever its turn comes. */
  lemma {:induction false} WalkAt(s: Store, d: Diff, order: seq<Address>, b: Address)
    requires WellFormed(s)
    requires forall a :: a in order ==> a in d
    requires Distinct(order)
    ensures b in WalkDiff(s, d, order) <==> b in s || b in order
    ensures b in order ==> WalkDiff(s, d, order)[b] == Encode(Merged(s, b, d[b]))
    ensures b !in order && b in s ==> WalkDiff(s, d, order)[b] == s[b]
  {
    hide Encode, Decode, WellFormedRecord;
    if |order| > 0 {
      var last, front := order[|order| - 1], order[..|order| - 1];
      assert order == front + [last];
      WalkAt(s, d, front, b);
      if b == last {
        assert GetAccount(WalkDiff(s, d, front), last) == GetAccount(s, last);
      }
    }
  }

  lemma {:induction false} WalkIsApply(s: Store, d: Diff, order: seq<Address>)
    requires WellFormed(s) && Enumerates(order, d.Keys)
    ensures WalkDiff(s, d, order) == ApplyDiff(s, d)
  {
    hide Encode, Decode, WellFormedRecord, Merged;
    var t, u := WalkDiff(s, d, order), ApplyDiff(s, d);
    forall b: Address
      ensures b in t <==> b in u
      ensures b in t ==> t[b] == u[b]
    {
      WalkAt(s, d, order, b);
    }
  }

  /** The block, each of its maps walked in the order given for it. */
  function WalkAll(s: Store, ds: seq<Diff>, orders: seq<seq<Address>>): (t: Store)
    requires WellFormed(s) && |orders| == |ds|
    requires forall i :: 0 <= i < |ds| ==> Enumerates(orders[i], ds[i].Keys)
    ensures WellFormed(t)
    decreases |ds|
  {
    if |ds| == 0 then s else
      assert Enumerates(orders[|ds| - 1], ds[|ds| - 1].Keys);
      WalkDiff(WalkAll(s, ds[..|ds| - 1], orders[..|ds| - 1]), ds[|ds| - 1], orders[|ds| - 1])
  }

  /** Whatever order Go picks for each map, the block leaves the same store. */
  lemma {:induction false} OrderDoesNotMatter(s: Store, ds: seq<Diff>, orders: seq<seq<Address>>)
    requires WellFormed(s) && |orders| == |ds|
    requires forall i :: 0 <= i < |ds| ==> Enumerates(orders[i], ds[i].Keys)
    ensures WalkAll(s, ds, orders) == Fold(s, ds)
  {
    if |ds| > 0 {
      OrderDoesNotMatter(s, ds[..|ds| - 1], orders[..|ds| - 1]);
      WalkIsApply(Fold(s, ds[..|ds| - 1]), ds[|ds| - 1], orders[|ds| - 1]);
    }
  }

  // ----- any sequence of store operations -----

  datatype Op =
    | UpdateAccount(a: Address, acc: Account)
    | ProcessState(txs: seq<TxDiff>)
    | UpdateStorage(a: Address, key: Bytes, value: Bytes)
    | UpdateContractCode(a: Address, code: Bytes)

  function Perform(s: Store, op: Op): (t: Store)
    requires WellFormed(s)
    ensures WellFormed(t)
  {
    match op
    case UpdateAccount(a, acc) =>
      EncodedIsWellFormed(acc);
      PutAccount(s, a, acc)
    case ProcessState(txs) => ProcessBlock(s, txs)
    case UpdateStorage(a, key, value) =>
      PutSlotStored(s, a, key, value, CodeKey(a));
      PutSlot(s, a, key, value)
    case UpdateContractCode(a, code) =>
      PutCodeStored(s, a, code, CodeKey(a));
      PutCode(s, a, code)
  }

  function PerformAll(ops: seq<Op>): (s: Store)
    ensures WellFormed(s)
  {
    if |ops| == 0 then map[] else Perform(PerformAll(ops[..|ops| - 1]), ops[|ops| - 1])
  }

  /** Every record of every reachable store reads back as an account in normal
      form with a slot map that is not nil, so no merge or slot write ever meets
      a nil map. */
  lemma {:induction false} ReachableRecords(ops: seq<Op>, a: Address)
    ensures
      var s := PerformAll(ops);
      a in s ==>
        && GetAccount(s, a).Ok?
        && GetAccount(s, a).value.storage.Some?
        && Normal(GetAccount(s, a).value) == GetAccount(s, a).value
  {
    var s := PerformAll(ops);
    if a in s {
      RoundTrip(Decode(s[a]).value);
    }
  }
}
