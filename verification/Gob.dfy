// The record codec of the cache (w3backend/kv.go) over a struct encoding that,
// like encoding/gob, transmits only the fields that are not zero values.
module Gob {
  import opened Wrappers
  import opened ByteStrings
  import opened Accounts

  datatype GobValue = BigValue(big: nat) | BytesValue(bytes: Bytes) | UintValue(uint: Uint64) | MapValue(slots: Slots)

  /** Field numbers to transmitted values. */
  type Wire = map<nat, GobValue>

  const BALANCE := 1
  const CODE := 2
  const NONCE := 3
  const STORAGE := 4

  /** accountMarshaling: nil slices and nil maps are None. */
  datatype Marshaling = Marshaling(
    balance: Option<nat>, code: Option<Bytes>, nonce: Option<Uint64>, storage: Option<Slots>)

  function ToMarshaling(acc: Account): Marshaling {
    Marshaling(acc.balance, acc.code, acc.nonce, Some(SlotsOf(acc)))
  }

  function FromMarshaling(m: Marshaling): Account {
    Account(m.balance, m.code, m.nonce, m.storage)
  }

  /** gob follows pointers and omits what it finds to be zero: nil pointers and
      maps, a zero integer behind a pointer, an empty byte slice. A non-nil
      big.Int encodes itself, so zero survives, and so does an empty map. */
  function Transmit(m: Marshaling): Wire {
    (if m.balance.Some? then map[BALANCE := BigValue(m.balance.value)] else map[])
    + (if m.code.Some? && |m.code.value| > 0 then map[CODE := BytesValue(m.code.value)] else map[])
    + (if m.nonce.Some? && m.nonce.value != 0 then map[NONCE := UintValue(m.nonce.value)] else map[])
    + (if m.storage.Some? then map[STORAGE := MapValue(m.storage.value)] else map[])
  }

  /** Fields that were not transmitted keep the zero value of the fresh target. */
  function Receive(w: Wire): Result<Marshaling> {
    if (BALANCE in w && !w[BALANCE].BigValue?) || (CODE in w && !w[CODE].BytesValue?)
       || (NONCE in w && !w[NONCE].UintValue?) || (STORAGE in w && !w[STORAGE].MapValue?)
    then Err(BadRecord)
    else Ok(Marshaling(
              if BALANCE in w then Some(w[BALANCE].big) else None,
              if CODE in w then Some(w[CODE].bytes) else None,
              if NONCE in w then Some(w[NONCE].uint) else None,
              if STORAGE in w then Some(w[STORAGE].slots) else None))
  }

  function Encode(acc: Account): Wire {
    Transmit(ToMarshaling(acc))
  }

  function Decode(w: Wire): Result<Account> {
    match Receive(w)
    case Ok(m) => Ok(FromMarshaling(m))
    case Err(e) => Err(e)
  }

  /** What a record looks like after one write and read. */
  function Normal(acc: Account): Account {
    Account(
      acc.balance,
      if acc.code.Some? && |acc.code.value| > 0 then acc.code else None,
      if acc.nonce.Some? && acc.nonce.value != 0 then acc.nonce else None,
      Some(SlotsOf(acc)))
  }

  lemma RoundTrip(acc: Account)
    ensures Decode(Encode(acc)) == Ok(Normal(acc))
  {
  }

  /** The normal form is idempotent, readers see no difference, and two accounts
      have the same record exactly when they have the same normal form. */
  lemma NormalForm(acc: Account, other: Account, keccak: Bytes -> Hash)
    ensures Normal(Normal(acc)) == Normal(acc) && Encode(Normal(acc)) == Encode(acc)
    ensures Normal(acc).balance == acc.balance && SlotsOf(Normal(acc)) == SlotsOf(acc)
    ensures CodeOf(Normal(acc)) == CodeOf(acc) && CodeHash(Normal(acc), keccak) == CodeHash(acc, keccak)
    ensures Encode(acc) == Encode(other) <==> Normal(acc) == Normal(other)
  {
    RoundTrip(acc);
    RoundTrip(other);
    assert ToMarshaling(acc).storage == ToMarshaling(Normal(acc)).storage;
    if Normal(acc) == Normal(other) {
      assert Encode(acc) == Encode(Normal(acc)) == Encode(other);
    }
  }

  /** The normal form of a single field. */
  function NormalValue(k: Key, v: Value): Option<Value> {
    if (k.NonceKey? && v == Num(0)) || (k.CodeKey? && v == Code([])) then None else Some(v)
  }

  lemma NormalField(acc: Account, k: Key)
    ensures Field(Normal(acc), k) == if Field(acc, k).Some? then NormalValue(k, Field(acc, k).value) else None
  {
  }
}
