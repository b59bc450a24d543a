// The chain the cache stands in for, what a trace must satisfy to describe a
// transition of it, and what folding such traces does to the cache.
module Chain {
  import opened Wrappers
  import opened ByteStrings
  import opened Accounts
  import opened Gob
  import opened Records
  import opened Diffs

  /** The state after some block. */
  datatype World = World(
    nonce: Address -> Uint64,
    balance: Address -> nat,
    code: Address -> Bytes,
    slot: (Address, Hash) -> Hash)

  function At(w: World, k: Key): Value {
    match k
    case NonceKey(a) => Num(w.nonce(a))
    case BalanceKey(a) => Num(w.balance(a))
    case CodeKey(a) => Code(w.code(a))
    case SlotKey(a, h) => Word(w.slot(a, h))
  }

  /** Whatever the cache answers about k is what w holds. */
  predicate Agree(s: Store, k: Key, w: World) {
    Known(s, k).Some? ==> Known(s, k).value == At(w, k)
  }

  ghost predicate AgreesWith(s: Store, w: World) {
    forall k :: Agree(s, k, w)
  }

  /** Hypothesis on the node's tracer: the trace of a transaction that takes the
      state from w to v. Pre values are old, Post values are new, everything that
      changed is in Post, and where code is not given it was empty. */
  ghost predicate TxSound(tr: TxDiff, w: World, v: World) {
    && (forall k :: Mention(tr.pre, k).Some? ==> Mention(tr.pre, k).value == At(w, k))
    && (forall k :: Mention(tr.post, k).Some? ==> Mention(tr.post, k).value == At(v, k))
    && (forall k :: At(w, k) != At(v, k) ==> Mention(tr.post, k).Some?)
    && (forall a :: a in tr.pre && tr.pre[a].code.None? ==> w.code(a) == [])
    && (forall a :: a in tr.post && a !in tr.pre ==> w.code(a) == [])
  }

  function WithBalance(w: World, a: Address, balance: nat): World {
    World(w.nonce, (b: Address) => if b == a then balance else w.balance(b), w.code, w.slot)
  }

  /** What the tracer reports for a changed balance: the whole account before,
      with empty code left out, and the new balance after. */
  function BalanceTrace(w: World, a: Address, balance: nat): TxDiff {
    var code := if w.code(a) == [] then None else Some(w.code(a));
    TxDiff(
      map[a := Account(Some(w.balance(a)), code, Some(w.nonce(a)), None)],
      map[a := Account(Some(balance), None, None, None)])
  }

  /** The hypothesis holds of it. */
  lemma BalanceTraceIsSound(w: World, a: Address, balance: nat)
    ensures TxSound(BalanceTrace(w, a, balance), w, WithBalance(w, a, balance))
  {
  }

  /** worlds[i] is the state before transaction i, the last one the state after the block. */
  ghost predicate BlockSound(txs: seq<TxDiff>, worlds: seq<World>) {
    && |worlds| == |txs| + 1
    && forall i :: 0 <= i < |txs| ==> TxSound(txs[i], worlds[i], worlds[i + 1])
  }

  predicate Touches(tr: TxDiff, k: Key) {
    Mention(tr.pre, k).Some? || Mention(tr.post, k).Some?
  }

  predicate Mentioned(txs: seq<TxDiff>, k: Key) {
    exists i :: 0 <= i < |txs| && Touches(txs[i], k)
  }

  lemma DiffKnown(s: Store, d: Diff, k: Key)
    requires WellFormed(s)
    ensures WellFormed(ApplyDiff(s, d))
    ensures Known(ApplyDiff(s, d), k) ==
            if k.CodeKey? && k.addr in d then
              if Mention(d, k).Some? then Mention(d, k)
              else if k.addr in s then Known(s, k) else Some(Code([]))
            else if Mention(d, k).Some? then NormalValue(k, Mention(d, k).value) else Known(s, k)
  {
    ApplyDiffStored(s, d, k);
    assert GetAccount(ApplyDiff(s, d), k.addr).Ok? <==> k.addr in s || k.addr in d;
  }

  /** A code key that starts to exist is settled by the hypothesis on absent code. */
  predicate FreshCode(s: Store, k: Key) {
    k.CodeKey? && k.addr !in s
  }

  lemma {:induction false} TxRepair(s: Store, tr: TxDiff, w: World, v: World, k: Key)
    requires WellFormed(s) && TxSound(tr, w, v)
    ensures Touches(tr, k) ==> Agree(ApplyTx(s, tr), k, v)
    ensures !Touches(tr, k) ==> At(v, k) == At(w, k)
    ensures !Touches(tr, k) && !FreshCode(s, k) ==> Known(ApplyTx(s, tr), k) == Known(s, k)
    ensures FreshCode(s, k) ==> Agree(ApplyTx(s, tr), k, v)
    ensures Agree(s, k, w) ==> Agree(ApplyTx(s, tr), k, v)
    ensures !FreshCode(s, k) ==> !FreshCode(ApplyTx(s, tr), k)
  {
    hide Encode, Decode, WellFormedRecord;
    DiffKnown(s, tr.pre, k);
    var t := ApplyDiff(s, tr.pre);
    DiffKnown(t, tr.post, k);
    if FreshCode(s, k) {
      assert Known(s, k).None?;
      assert k.addr in tr.pre && Mention(tr.pre, k).None? ==> tr.pre[k.addr].code.None?;
      assert At(w, k) == Code(w.code(k.addr));
      assert k.addr in t <==> k.addr in tr.pre;
      assert Mention(tr.post, k).None? ==> At(w, k) == At(v, k);
    }
  }

  /** Block repair: whatever the cache held before, after a sound block every key
      the block mentions that the cache knows is right, and every other key is as
      it was, the chain not having changed it either. */
  lemma {:induction false} BlockRepair(s: Store, txs: seq<TxDiff>, worlds: seq<World>, k: Key)
    requires WellFormed(s) && BlockSound(txs, worlds)
    ensures Mentioned(txs, k) ==> Agree(ProcessBlock(s, txs), k, worlds[|txs|])
    ensures !Mentioned(txs, k) ==> At(worlds[|txs|], k) == At(worlds[0], k)
    ensures !Mentioned(txs, k) && !FreshCode(s, k) ==> Known(ProcessBlock(s, txs), k) == Known(s, k)
    ensures FreshCode(s, k) ==> Agree(ProcessBlock(s, txs), k, worlds[|txs|])
    ensures !FreshCode(s, k) ==> !FreshCode(ProcessBlock(s, txs), k)
  {
    hide Known, ProcessBlock, ApplyTx, TxSound, Touches, At;
    if |txs| == 0 {
      EmptyBlock(s, txs, k);
    } else {
      var n := |txs| - 1;
      BlockRepair(s, txs[..n], worlds[..n + 1], k);
      ProcessSnoc(s, txs, n);
      assert txs[..n + 1] == txs;
      TxRepair(ProcessBlock(s, txs[..n]), txs[n], worlds[n], worlds[n + 1], k);
      MentionedSnoc(txs, k);
    }
  }

  /** Hence, after a block that need not follow the last one delivered, the cache
      agrees with the chain exactly when it already agreed on every key the block
      does not mention. */
  lemma {:induction false} RepairIsExact(s: Store, txs: seq<TxDiff>, worlds: seq<World>)
    requires WellFormed(s) && BlockSound(txs, worlds)
    ensures AgreesWith(ProcessBlock(s, txs), worlds[|txs|]) <==>
            forall k :: !Mentioned(txs, k) ==> Agree(s, k, worlds[|txs|])
  {
    hide Stored, ProcessBlock, TxSound, Mentioned, At;
    var t, v := ProcessBlock(s, txs), worlds[|txs|];
    forall k
      ensures Mentioned(txs, k) ==> Agree(t, k, v)
      ensures !Mentioned(txs, k) ==> (Agree(t, k, v) <==> Agree(s, k, v))
    {
      BlockRepair(s, txs, worlds, k);
      FreshCodeUnknown(s, k);
    }
  }

  lemma FreshCodeUnknown(s: Store, k: Key)
    ensures FreshCode(s, k) ==> Known(s, k).None?
  {
  }

  lemma EmptyBlock(s: Store, txs: seq<TxDiff>, k: Key)
    requires WellFormed(s) && |txs| == 0
    ensures ProcessBlock(s, txs) == s && !Mentioned(txs, k)
    ensures FreshCode(s, k) ==> Known(s, k).None?
  {
  }

  lemma MentionedSnoc(txs: seq<TxDiff>, k: Key)
    requires |txs| > 0
    ensures Mentioned(txs, k) <==> Mentioned(txs[..|txs| - 1], k) || Touches(txs[|txs| - 1], k)
  {
    var front := txs[..|txs| - 1];
    if Mentioned(front, k) {
      var i :| 0 <= i < |front| && Touches(front[i], k);
      assert Touches(txs[i], k);
    }
    if Mentioned(txs, k) && !Touches(txs[|txs| - 1], k) {
      var i :| 0 <= i < |txs| && Touches(txs[i], k);
      assert Touches(front[i], k);
    }
  }
}
