// The record store as a value, and what each of its operations does to it
// (w3backend/kv.go).
module Records {
  import opened Wrappers
  import opened ByteStrings
  import opened Accounts
  import opened Gob

  type Store = map<Address, Wire>

  /** The record came out of Encode: reading it back and writing it again
      changes nothing, and its slot map is never nil. */
  predicate WellFormedRecord(w: Wire) {
    Decode(w).Ok? && Decode(w).value.storage.Some? && Encode(Decode(w).value) == w
  }

  predicate WellFormed(s: Store) {
    forall a :: a in s ==> WellFormedRecord(s[a])
  }

  lemma EncodedIsWellFormed(acc: Account)
    ensures WellFormedRecord(Encode(acc))
    ensures Decode(Encode(acc)) == Ok(Normal(acc))
  {
    NormalForm(acc, acc, b => ZERO_HASH);
    RoundTrip(acc);
  }

  function GetAccount(s: Store, a: Address): Result<Account> {
    if a in s then Decode(s[a]) else Err(NotFound)
  }

  function PutAccount(s: Store, a: Address, acc: Account): Store {
    s[a := Encode(acc)]
  }

  function GetSlot(s: Store, a: Address, key: Bytes): Result<Hash> {
    match GetAccount(s, a)
    case Err(e) => Err(e)
    case Ok(acc) => if ToHash(key) in SlotsOf(acc) then Ok(SlotsOf(acc)[ToHash(key)]) else Err(NotFound)
  }

  /** UpdateStorage does nothing when there is no readable record. */
  function PutSlot(s: Store, a: Address, key: Bytes, value: Bytes): Store
    requires WellFormed(s)
  {
    match GetAccount(s, a)
    case Err(_) => s
    case Ok(acc) => PutAccount(s, a, acc.(storage := Some(SlotsOf(acc)[ToHash(key) := ToHash(value)])))
  }

  function GetCode(s: Store, a: Address): Result<Bytes> {
    match GetAccount(s, a)
    case Err(e) => Err(e)
    case Ok(acc) => Ok(CodeOf(acc))
  }

  function PutCode(s: Store, a: Address, code: Bytes): Store {
    match GetAccount(s, a)
    case Err(_) => s
    case Ok(acc) => PutAccount(s, a, acc.(code := Some(code)))
  }

  /** What the stored record says about k. */
  function Stored(s: Store, k: Key): Option<Value> {
    match GetAccount(s, k.addr)
    case Err(_) => None
    case Ok(acc) => Field(acc, k)
  }

  /** What the store answers about k: a record without code answers "empty". */
  function Known(s: Store, k: Key): Option<Value> {
    if k.CodeKey? && GetAccount(s, k.addr).Ok? && Stored(s, k).None? then Some(Code([])) else Stored(s, k)
  }

  lemma Readable(s: Store, a: Address)
    requires WellFormed(s)
    ensures GetAccount(s, a).Ok? <==> a in s
    ensures a !in s ==> forall k: Key :: k.addr == a ==> Stored(s, k).None?
  {
  }

  lemma StoredIsNormal(s: Store, k: Key)
    requires WellFormed(s)
    ensures Stored(s, k).Some? ==> NormalValue(k, Stored(s, k).value) == Stored(s, k)
  {
    if k.addr in s {
      var acc := Decode(s[k.addr]).value;
      RoundTrip(acc);
      NormalField(acc, k);
    }
  }

  lemma PutAccountStored(s: Store, a: Address, acc: Account, k: Key)
    requires WellFormed(s)
    ensures WellFormed(PutAccount(s, a, acc))
    ensures Stored(PutAccount(s, a, acc), k) ==
            if k.addr != a then Stored(s, k)
            else if Field(acc, k).Some? then NormalValue(k, Field(acc, k).value) else None
  {
    EncodedIsWellFormed(acc);
    NormalField(acc, k);
  }

  lemma SlotStored(s: Store, a: Address, key: Bytes)
    requires WellFormed(s)
    ensures GetSlot(s, a, key) ==
            match Stored(s, SlotKey(a, ToHash(key)))
            case Some(Word(h)) => Ok(h)
            case _ => Err(NotFound)
  {
    hide Encode, Decode, ToHash;
    assert a in s ==> WellFormedRecord(s[a]);
  }

  /** The write law of a slot, and the frame around it: exactly the keys with
      the same 32-byte form change. */
  lemma {:induction false} PutSlotStored(s: Store, a: Address, key: Bytes, value: Bytes, k: Key)
    requires WellFormed(s)
    ensures WellFormed(PutSlot(s, a, key, value)) && PutSlot(s, a, key, value).Keys == s.Keys
    ensures Stored(PutSlot(s, a, key, value), k) ==
            if k == SlotKey(a, ToHash(key)) && a in s then Some(Word(ToHash(value))) else Stored(s, k)
  {
    hide Encode, Decode, ToHash;
    if a in s {
      assert WellFormedRecord(s[a]);
      var acc := Decode(s[a]).value;
      var acc' := acc.(storage := Some(SlotsOf(acc)[ToHash(key) := ToHash(value)]));
      PutAccountStored(s, a, acc', k);
      StoredIsNormal(s, k);
      if k.addr == a && k != SlotKey(a, ToHash(key)) {
        assert Field(acc', k) == Field(acc, k);
      }
    }
  }

  /** The read side of the same law, for byte strings of any length. */
  lemma {:induction false} ReadAfterWrite(s: Store, a: Address, key: Bytes, value: Bytes, b: Address, key': Bytes)
    requires WellFormed(s) && a in s
    ensures GetSlot(PutSlot(s, a, key, value), b, key') ==
            if b == a && ToHash(key') == ToHash(key) then Ok(ToHash(value)) else GetSlot(s, b, key')
  {
    hide WellFormed, PutSlot, GetSlot, Stored, ToHash;
    PutSlotStored(s, a, key, value, SlotKey(b, ToHash(key')));
    SlotStored(s, b, key');
    SlotStored(PutSlot(s, a, key, value), b, key');
  }

  lemma {:induction false} PutCodeStored(s: Store, a: Address, code: Bytes, k: Key)
    requires WellFormed(s)
    ensures WellFormed(PutCode(s, a, code)) && PutCode(s, a, code).Keys == s.Keys
    ensures Stored(PutCode(s, a, code), k) ==
            if k == CodeKey(a) && a in s then NormalValue(k, Code(code)) else Stored(s, k)
  {
    hide Encode, Decode;
    if a in s {
      assert WellFormedRecord(s[a]);
      var acc := Decode(s[a]).value;
      PutAccountStored(s, a, acc.(code := Some(code)), k);
      StoredIsNormal(s, k);
      if k.addr == a && k != CodeKey(a) {
        assert Field(acc.(code := Some(code)), k) == Field(acc, k);
      }
    }
  }

  /** A store is determined by its domain and by what it says about each key. */
  lemma {:induction false} SameStore(s: Store, t: Store)
    requires WellFormed(s) && WellFormed(t) && s.Keys == t.Keys
    requires forall k :: Stored(s, k) == Stored(t, k)
    ensures s == t
  {
    forall a | a in s
      ensures s[a] == t[a]
    {
      var x, y := Decode(s[a]).value, Decode(t[a]).value;
      forall k: Key | k.addr == a
        ensures Field(x, k) == Field(y, k)
      {
        assert Stored(s, k) == Stored(t, k);
      }
      SameFields(x, y, a);
    }
  }
}
