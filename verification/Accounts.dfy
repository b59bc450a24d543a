// Account records as the node's tracer and the cache exchange them
// (fetcher/util.go): every field may be absent.
module Accounts {
  import opened Wrappers
  import opened ByteStrings

  type Slots = map<Hash, Hash>

  /** `storage` None is a nil map; the other Nones are nil pointers. */
  datatype Account = Account(balance: Option<nat>, code: Option<Bytes>, nonce: Option<Uint64>, storage: Option<Slots>)

  function SlotsOf(acc: Account): Slots {
    if acc.storage.Some? then acc.storage.value else map[]
  }

  /** What a reader of the record gets for code: nil code reads as empty code. */
  function CodeOf(acc: Account): Bytes {
    if acc.code.Some? then acc.code.value else []
  }

  /** Account.CodeHash, with keccak as a parameter and its value on the empty
      string as types.EmptyCodeHash. */
  function CodeHash(acc: Account, keccak: Bytes -> Hash): Hash {
    if acc.code.None? || |acc.code.value| == 0 then keccak([]) else keccak(acc.code.value)
  }

  /** mergeAccount on values. Writing a slot into a nil map is a panic in the
      program, hence the precondition. */
  function Merge(o: Account, n: Account): Account
    requires o.storage.Some? || SlotsOf(n) == map[]
  {
    Account(
      if n.balance.Some? then n.balance else o.balance,
      if n.code.Some? then n.code else o.code,
      if n.nonce.Some? then n.nonce else o.nonce,
      if o.storage.Some? then Some(o.storage.value + SlotsOf(n)) else None)
  }

  /** One readable item of the chain state. */
  datatype Key =
    | NonceKey(addr: Address)
    | BalanceKey(addr: Address)
    | CodeKey(addr: Address)
    | SlotKey(addr: Address, slot: Hash)

  datatype Value = Num(n: nat) | Code(c: Bytes) | Word(h: Hash)

  /** What the record of k's own account states about k, if anything. */
  function Field(acc: Account, k: Key): Option<Value> {
    match k
    case NonceKey(_) => if acc.nonce.Some? then Some(Num(acc.nonce.value)) else None
    case BalanceKey(_) => if acc.balance.Some? then Some(Num(acc.balance.value)) else None
    case CodeKey(_) => if acc.code.Some? then Some(Code(acc.code.value)) else None
    case SlotKey(_, h) => if h in SlotsOf(acc) then Some(Word(SlotsOf(acc)[h])) else None
  }

  lemma MergeField(o: Account, n: Account, k: Key)
    requires o.storage.Some?
    ensures Field(Merge(o, n), k) == if Field(n, k).Some? then Field(n, k) else Field(o, k)
  {
  }

  /** A record is determined by its fields once its map is not nil. */
  lemma SameFields(a: Account, b: Account, addr: Address)
    requires a.storage.Some? && b.storage.Some?
    requires forall k: Key :: k.addr == addr ==> Field(a, k) == Field(b, k)
    ensures a == b
  {
    assert Field(a, NonceKey(addr)) == Field(b, NonceKey(addr));
    assert Field(a, BalanceKey(addr)) == Field(b, BalanceKey(addr));
    assert Field(a, CodeKey(addr)) == Field(b, CodeKey(addr));
    forall h: Hash
      ensures h in SlotsOf(a) <==> h in SlotsOf(b)
      ensures h in SlotsOf(a) ==> SlotsOf(a)[h] == SlotsOf(b)[h]
    {
      assert Field(a, SlotKey(addr, h)) == Field(b, SlotKey(addr, h));
    }
    assert SlotsOf(a) == SlotsOf(b);
  }
}
