// The cache object itself (w3backend/kv.go): accounts are heap objects that are
// merged in place, the store is a field. Every method is tied to the value-level
// operation of Records and Diffs.
module BadgerKV {
  import opened Wrappers
  import opened ByteStrings
  import opened Accounts
  import opened Gob
  import opened Records
  import opened Diffs
  import opened Orders

  /** A Go map from slots to words, shared by reference. */
  class SlotTable {
    var slots: Slots

    constructor (slots: Slots)
      ensures this.slots == slots
    {
      this.slots := slots;
    }
  }

  /** fetcher.Account: a nil map is a null table. */
  class AccountRef {
    var balance: Option<nat>
    var code: Option<Bytes>
    var nonce: Option<Uint64>
    var storage: SlotTable?

    ghost function Contents(): Account
      reads this, storage
    {
      Account(balance, code, nonce, if storage == null then None else Some(storage.slots))
    }

    constructor (acc: Account)
      ensures Contents() == acc
      ensures storage != null ==> fresh(storage)
    {
      balance, code, nonce := acc.balance, acc.code, acc.nonce;
      if acc.storage.Some? {
        storage := new SlotTable(acc.storage.value);
      } else {
        storage := null;
      }
    }
  }

  /** The slot loop of mergeAccount: keys come in any order. */
  method CopySlots(o: SlotTable, n: SlotTable)
    requires o != n
    modifies o
    ensures o.slots == old(o.slots) + n.slots
  {
    var todo := n.slots.Keys;
    while todo != {}
      invariant todo <= n.slots.Keys
      invariant o.slots.Keys == old(o.slots).Keys + (n.slots.Keys - todo)
      invariant forall h :: h in o.slots ==>
                              o.slots[h] == if h in n.slots && h !in todo then n.slots[h] else old(o.slots)[h]
    {
      var k :| k in todo;
      o.slots := o.slots[k := n.slots[k]];
      todo := todo - {k};
    }
  }

  /** mergeAccount: writes n's known fields and slots into o, in place. */
  method MergeAccount(o: AccountRef, n: AccountRef) returns (r: AccountRef)
    requires o != n && (o.storage != null ==> o.storage != n.storage)
    requires o.storage != null || SlotsOf(n.Contents()) == map[]
    modifies o, o.storage
    ensures r == o && o.storage == old(o.storage)
    ensures o.Contents() == Merge(old(o.Contents()), old(n.Contents()))
  {
    if n.balance.Some? {
      o.balance := n.balance;
    }
    if n.code.Some? {
      o.code := n.code;
    }
    if n.nonce.Some? {
      o.nonce := n.nonce;
    }
    if n.storage != null && o.storage != null {
      CopySlots(o.storage, n.storage);
    } else if o.storage != null {
      assert o.storage.slots == o.storage.slots + SlotsOf(n.Contents());
    }
    return o;
  }

  /** One transaction's trace result as it arrives: maps of account objects. */
  datatype TxTrace = TxTrace(pre: map<Address, AccountRef>, post: map<Address, AccountRef>)

  ghost function StateContents(m: map<Address, AccountRef>): Diff
    reads m.Values, set r: AccountRef | r in m.Values :: r.storage
  {
    map a | a in m :: m[a].Contents()
  }

  ghost function Refs(trace: seq<TxTrace>): (refs: set<AccountRef>)
    ensures forall i :: 0 <= i < |trace| ==> trace[i].pre.Values <= refs && trace[i].post.Values <= refs
  {
    if |trace| == 0 then {} else
      Refs(trace[..|trace| - 1]) + trace[|trace| - 1].pre.Values + trace[|trace| - 1].post.Values
  }

  ghost function TraceContents(trace: seq<TxTrace>): (txs: seq<TxDiff>)
    reads Refs(trace), set r: AccountRef | r in Refs(trace) :: r.storage
    ensures |txs| == |trace|
    ensures forall i :: 0 <= i < |txs| ==> txs[i] == TxDiff(StateContents(trace[i].pre), StateContents(trace[i].post))
  {
    seq(|trace|,
        i requires 0 <= i < |trace| reads Refs(trace), set r: AccountRef | r in Refs(trace) :: r.storage =>
          TxDiff(StateContents(trace[i].pre), StateContents(trace[i].post)))
  }

  class BadgerKV {
    var bdb: Store

    ghost predicate Valid()
      reads this
    {
      WellFormed(bdb)
    }

    constructor ()
      ensures Valid() && bdb == map[]
    {
      bdb := map[];
    }

    method TxGetAccount(addr: Address) returns (r: Result<AccountRef>)
      ensures r.Ok? == Records.GetAccount(bdb, addr).Ok?
      ensures r.Ok? ==> fresh(r.value) && r.value.Contents() == Records.GetAccount(bdb, addr).value
      ensures r.Ok? && r.value.storage != null ==> fresh(r.value.storage)
    {
      if addr !in bdb {
        return Err(NotFound);
      }
      match Decode(bdb[addr]) {
        case Err(e) => return Err(e);
        case Ok(acc) =>
          var account := new AccountRef(acc);
          return Ok(account);
      }
    }

    method TxUpdateAccount(addr: Address, account: AccountRef)
      modifies this
      ensures bdb == PutAccount(old(bdb), addr, account.Contents())
    {
      var table := if account.storage == null then None else Some(account.storage.slots);
      bdb := bdb[addr := Encode(Account(account.balance, account.code, account.nonce, table))];
    }

    /** One map of the trace, walked in whatever order the keys come. */
    method ApplyState(m: map<Address, AccountRef>)
      requires Valid()
      modifies this
      ensures Valid()
      ensures bdb == ApplyDiff(old(bdb), StateContents(m))
    {
      hide MergeInto, WellFormedRecord, Merged;
      ghost var d := StateContents(m);
      ghost var walked: seq<Address> := [];
      var todo := m.Keys;
      while todo != {}
        invariant StateContents(m) == d
        invariant forall a :: a in m <==> a in todo || a in walked
        invariant forall a :: a in walked ==> a !in todo
        invariant Distinct(walked)
        invariant Valid() && bdb == WalkDiff(old(bdb), d, walked)
      {
        var k :| k in todo;
        MergeEntry(k, m[k]);
        assert (walked + [k])[..|walked|] == walked;
        walked := walked + [k];
        todo := todo - {k};
      }
      assert Enumerates(walked, d.Keys);
      WalkIsApply(old(bdb), d, walked);
    }

    /** The loop body: read, merge into the record read, write. */
    method MergeEntry(k: Address, entry: AccountRef)
      requires Valid()
      modifies this
      ensures Valid()
      ensures bdb == MergeInto(old(bdb), k, old(entry.Contents()))
    {
      hide Encode, Decode, Merge;
      var v := entry;
      var oa := TxGetAccount(k);
      if oa.Ok? {
        v := MergeAccount(oa.value, v);
      }
      TxUpdateAccount(k, v);
      EncodedIsWellFormed(Merged(old(bdb), k, old(entry.Contents())));
    }

    /** Folds a traced block into the store; the trace itself is left as it was. */
    method ProcessState(trace: seq<TxTrace>)
      requires Valid()
      modifies this
      ensures Valid()
      ensures bdb == ProcessBlock(old(bdb), old(TraceContents(trace)))
      ensures TraceContents(trace) == old(TraceContents(trace))
    {
      ghost var txs := TraceContents(trace);
      for i := 0 to |trace|
        invariant TraceContents(trace) == txs
        invariant Valid() && bdb == ProcessBlock(old(bdb), txs[..i])
      {
        ProcessSnoc(old(bdb), txs, i);
        ApplyTransaction(trace[i], txs[i]);
      }
      assert txs[..|trace|] == txs;
    }

    method ApplyTransaction(tr: TxTrace, ghost tx: TxDiff)
      requires Valid()
      requires tx == TxDiff(StateContents(tr.pre), StateContents(tr.post))
      modifies this
      ensures Valid()
      ensures bdb == ApplyTx(old(bdb), tx)
    {
      hide ApplyDiff, WellFormed, StateContents;
      ApplyState(tr.pre);
      assert StateContents(tr.post) == tx.post;
      ApplyState(tr.post);
    }

    method GetAccount(addr: Address) returns (r: Result<Account>)
      ensures r == Records.GetAccount(bdb, addr)
    {
      r := if addr in bdb then Decode(bdb[addr]) else Err(NotFound);
    }

    method UpdateAccount(addr: Address, acc: Account)
      modifies this
      ensures bdb == PutAccount(old(bdb), addr, acc)
      ensures old(Valid()) ==> Valid()
    {
      bdb := bdb[addr := Encode(acc)];
      EncodedIsWellFormed(acc);
    }

    method GetStorage(addr: Address, key: Bytes) returns (v: Result<Hash>)
      ensures v == GetSlot(bdb, addr, key)
    {
      var account := GetAccount(addr);
      match account {
        case Err(e) => v := Err(e);
        case Ok(acc) =>
          if acc.storage.Some? && ToHash(key) in acc.storage.value {
            v := Ok(acc.storage.value[ToHash(key)]);
          } else {
            v := Err(NotFound);
          }
      }
    }

    method UpdateStorage(addr: Address, key: Bytes, value: Bytes) returns (err: Option<Error>)
      requires Valid()
      modifies this
      ensures Valid()
      ensures bdb == PutSlot(old(bdb), addr, key, value)
      ensures err.None? <==> addr in old(bdb)
    {
      var account := TxGetAccount(addr);
      PutSlotStored(bdb, addr, key, value, SlotKey(addr, ToHash(key)));
      if account.Err? {
        return Some(account.error);
      }
      var table := account.value.storage;
      table.slots := table.slots[ToHash(key) := ToHash(value)];
      TxUpdateAccount(addr, account.value);
      return None;
    }

    method ContractCode(addr: Address) returns (code: Result<Bytes>)
      ensures code == GetCode(bdb, addr)
    {
      var account := GetAccount(addr);
      match account {
        case Err(e) => code := Err(e);
        case Ok(acc) => code := Ok(if acc.code.None? then [] else acc.code.value);
      }
    }

    method UpdateContractCode(addr: Address, code: Bytes) returns (err: Option<Error>)
      requires Valid()
      modifies this
      ensures Valid()
      ensures bdb == PutCode(old(bdb), addr, code)
      ensures err.None? <==> addr in old(bdb)
    {
      hide Encode, Decode, WellFormedRecord;
      var account := TxGetAccount(addr);
      Readable(bdb, addr);
      PutCodeStored(bdb, addr, code, CodeKey(addr));
      if account.Err? {
        return Some(account.error);
      }
      account.value.code := Some(code);
      TxUpdateAccount(addr, account.value);
      return None;
    }
  }
}
