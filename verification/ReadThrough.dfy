// The database the EVM reads through (w3backend/db.go): answer from the store,
// or fetch, write the fetched value into the store, and answer with it.
module ReadThrough {
  import opened Wrappers
  import opened ByteStrings
  import opened Accounts
  import opened Gob
  import opened Records
  import opened Chain
  import KV = BadgerKV

  datatype StateAccount = StateAccount(nonce: Uint64, balance: nat, codeHash: Hash)

  /** The replies of the three fetches of db.GetAccount; they need not come from
      the same block. */
  datatype AccountReply = AccountReply(nonce: Result<Uint64>, balance: Result<nat>, code: Result<Bytes>)

  predicate Hit(s: Store, a: Address) {
    GetAccount(s, a).Ok? && GetAccount(s, a).value.nonce.Some? && GetAccount(s, a).value.balance.Some?
  }

  function FilledAccount(nonce: Uint64, balance: nat, code: Bytes): Account {
    Account(Some(balance), Some(code), Some(nonce), None)
  }

  function ReadAccount(s: Store, a: Address, keccak: Bytes -> Hash, reply: AccountReply)
    : (Result<StateAccount>, Store)
  {
    if Hit(s, a) then
      var acc := GetAccount(s, a).value;
      (Ok(StateAccount(acc.nonce.value, acc.balance.value, CodeHash(acc, keccak))), s)
    else if reply.nonce.Err? then (Err(reply.nonce.error), s)
    else if reply.balance.Err? then (Err(reply.balance.error), s)
    else if reply.code.Err? then (Err(reply.code.error), s)
    else
      var code := reply.code.value;
      (Ok(StateAccount(reply.nonce.value, reply.balance.value, if |code| == 0 then keccak([]) else keccak(code))),
       PutAccount(s, a, FilledAccount(reply.nonce.value, reply.balance.value, code)))
  }

  function ReadCode(s: Store, a: Address, reply: Result<Bytes>): (Result<Bytes>, Store) {
    match GetCode(s, a)
    case Ok(code) => (Ok(code), s)
    case Err(_) =>
      match reply
      case Err(_) => (Err(NotFound), s)
      case Ok(code) => (Ok(code), PutCode(s, a, code))
  }

  function ReadSlot(s: Store, a: Address, key: Bytes, reply: Result<Hash>): (Result<Hash>, Store)
    requires WellFormed(s)
  {
    match GetSlot(s, a, key)
    case Ok(v) => (Ok(v), s)
    case Err(_) =>
      match reply
      case Err(e) => (Err(e), s)
      case Ok(v) => (Ok(v), PutSlot(s, a, key, v))
  }

  /** The db object. `online` says that a fetcher is present; what it would reply
      is a parameter of each call. */
  class DB {
    const online: bool
    const kv: KV.BadgerKV
    const keccak: Bytes -> Hash

    constructor (online: bool, kv: KV.BadgerKV, keccak: Bytes -> Hash)
      ensures this.online == online && this.kv == kv && this.keccak == keccak
    {
      this.online, this.kv, this.keccak := online, kv, keccak;
    }

    method GetAccount(addr: Address, reply: AccountReply) returns (r: Result<StateAccount>)
      requires kv.Valid()
      modifies kv
      ensures kv.Valid()
      ensures online ==> (r, kv.bdb) == ReadAccount(old(kv.bdb), addr, keccak, reply)
      ensures !online ==> r == Ok(StateAccount(0, 0, keccak([]))) && kv.bdb == old(kv.bdb)
    {
      if !online {
        return Ok(StateAccount(0, 0, keccak([])));
      }
      var account := kv.GetAccount(addr);
      if account.Ok? && account.value.nonce.Some? && account.value.balance.Some? {
        var acc := account.value;
        return Ok(StateAccount(acc.nonce.value, acc.balance.value, CodeHash(acc, keccak)));
      }
      if reply.nonce.Err? {
        return Err(reply.nonce.error);
      }
      if reply.balance.Err? {
        return Err(reply.balance.error);
      }
      if reply.code.Err? {
        return Err(reply.code.error);
      }
      var code := reply.code.value;
      var codeHash := if |code| == 0 then keccak([]) else keccak(code);
      kv.UpdateAccount(addr, FilledAccount(reply.nonce.value, reply.balance.value, code));
      return Ok(StateAccount(reply.nonce.value, reply.balance.value, codeHash));
    }

    method ContractCode(addr: Address, reply: Result<Bytes>) returns (code: Result<Bytes>)
      requires kv.Valid()
      modifies kv
      ensures kv.Valid()
      ensures online ==> (code, kv.bdb) == ReadCode(old(kv.bdb), addr, reply)
      ensures !online ==> code == Ok([]) && kv.bdb == old(kv.bdb)
    {
      if !online {
        return Ok([]);
      }
      code := kv.ContractCode(addr);
      if code.Ok? {
        return;
      }
      if reply.Err? {
        return Err(NotFound);
      }
      var _ := kv.UpdateContractCode(addr, reply.value);
      return reply;
    }

    method ContractCodeSize(addr: Address, reply: Result<Bytes>) returns (size: Result<nat>)
      requires kv.Valid()
      modifies kv
      ensures kv.Valid()
      ensures online ==>
                var (code, s) := ReadCode(old(kv.bdb), addr, reply);
                kv.bdb == s && size == if code.Ok? then Ok(|code.value|) else Err(code.error)
      ensures !online ==> size == Ok(0) && kv.bdb == old(kv.bdb)
    {
      var code := ContractCode(addr, reply);
      size := if code.Err? then Err(code.error) else Ok(|code.value|);
    }

    method GetStorage(addr: Address, key: Bytes, reply: Result<Hash>) returns (v: Result<Bytes>)
      requires kv.Valid()
      modifies kv
      ensures kv.Valid()
      ensures online ==>
                var (word, s) := ReadSlot(old(kv.bdb), addr, key, reply);
                kv.bdb == s && v == if word.Ok? then Ok(word.value) else Err(word.error)
      ensures !online ==> v == Ok([]) && kv.bdb == old(kv.bdb)
    {
      if !online {
        return Ok([]);
      }
      var cached := kv.GetStorage(addr, key);
      if cached.Ok? {
        return Ok(cached.value);
      }
      if reply.Err? {
        return Err(reply.error);
      }
      var _ := kv.UpdateStorage(addr, key, reply.value);
      return Ok(reply.value);
    }

    /** The trie write, which goes straight to the shared store. */
    method UpdateStorage(addr: Address, key: Bytes, value: Bytes) returns (err: Option<Error>)
      requires kv.Valid()
      modifies kv
      ensures kv.Valid()
      ensures kv.bdb == PutSlot(old(kv.bdb), addr, key, value)
      ensures err.None? <==> addr in old(kv.bdb)
    {
      err := kv.UpdateStorage(addr, key, value);
    }
  }

  // ----- what a fill writes -----

  lemma AccountFillKnown(s: Store, a: Address, nonce: Uint64, balance: nat, code: Bytes, k: Key)
    requires WellFormed(s)
    ensures WellFormed(PutAccount(s, a, FilledAccount(nonce, balance, code)))
    ensures Known(PutAccount(s, a, FilledAccount(nonce, balance, code)), k) ==
            if k.addr != a then Known(s, k)
            else match k
              case NonceKey(_) => if nonce == 0 then None else Some(Num(nonce))
              case BalanceKey(_) => Some(Num(balance))
              case CodeKey(_) => Some(Code(code))
              case SlotKey(_, _) => None
  {
    PutAccountStored(s, a, FilledAccount(nonce, balance, code), k);
    EncodedIsWellFormed(FilledAccount(nonce, balance, code));
  }

  lemma SlotFillKnown(s: Store, a: Address, key: Bytes, value: Bytes, k: Key)
    requires WellFormed(s)
    ensures WellFormed(PutSlot(s, a, key, value)) && PutSlot(s, a, key, value).Keys == s.Keys
    ensures Known(PutSlot(s, a, key, value), k) ==
            if k == SlotKey(a, ToHash(key)) && a in s then Some(Word(ToHash(value))) else Known(s, k)
  {
    PutSlotStored(s, a, key, value, k);
  }

  lemma CodeFillKnown(s: Store, a: Address, code: Bytes, k: Key)
    requires WellFormed(s)
    ensures WellFormed(PutCode(s, a, code)) && PutCode(s, a, code).Keys == s.Keys
    ensures Known(PutCode(s, a, code), k) == if k == CodeKey(a) && a in s then Some(Code(code)) else Known(s, k)
  {
    hide GetAccount, PutCode, WellFormed, Stored;
    PutCodeStored(s, a, code, k);
    Readable(s, k.addr);
    Readable(PutCode(s, a, code), k.addr);
  }

  /** Fills of code and slots never create a record, and the code fill never
      writes at all: code is fetched only when there is no record to put it in. */
  lemma FillsCreateNothing(s: Store, a: Address, key: Bytes, code: Result<Bytes>, word: Result<Hash>)
    requires WellFormed(s)
    ensures ReadCode(s, a, code).1 == s
    ensures ReadSlot(s, a, key, word).1.Keys == s.Keys
  {
    hide Encode, Decode, PutSlot, GetSlot;
    assert a in s ==> WellFormedRecord(s[a]);
    if word.Ok? {
      SlotFillKnown(s, a, key, word.value, CodeKey(a));
    }
  }

  lemma ReadKnown(s: Store, a: Address, key: Bytes)
    requires WellFormed(s)
    ensures GetCode(s, a) == match Known(s, CodeKey(a)) { case Some(Code(c)) => Ok(c) case _ => Err(NotFound) }
    ensures GetSlot(s, a, key) ==
            match Known(s, SlotKey(a, ToHash(key))) { case Some(Word(h)) => Ok(h) case _ => Err(NotFound) }
    ensures Known(s, CodeKey(a)).None? ==> a !in s
  {
    hide Encode, Decode, ToHash, GetSlot;
    SlotStored(s, a, key);
    assert a in s ==> WellFormedRecord(s[a]);
  }

  /** What a slot read that succeeds leaves behind: its answer, if there is a
      record to hold it, and every other key as it was. */
  lemma SlotReadKnown(s: Store, a: Address, key: Bytes, reply: Result<Hash>, k: Key)
    requires WellFormed(s) && ReadSlot(s, a, key, reply).0.Ok?
    ensures
      var (r, t) := ReadSlot(s, a, key, reply);
      && WellFormed(t)
      && Known(t, k) == if k == SlotKey(a, ToHash(key)) && a in s then Some(Word(r.value)) else Known(s, k)
  {
    hide Known, PutSlot, GetSlot, WellFormed, ToHash;
    ReadKnown(s, a, key);
    if GetSlot(s, a, key).Err? {
      SlotFillKnown(s, a, key, reply.value, k);
      WordOfWord(reply.value);
    } else {
      KnownNeedsRecord(s, k);
    }
  }

  lemma WordOfWord(h: Hash)
    ensures ToHash(h) == h
  {
  }

  lemma KnownNeedsRecord(s: Store, k: Key)
    ensures k.addr !in s ==> Known(s, k).None?
    ensures k.SlotKey? && k.addr in s ==> Known(s, k).Some? ==> Known(s, k).value.Word?
  {
  }

  lemma AccountReadDomain(s: Store, a: Address, keccak: Bytes -> Hash, reply: AccountReply)
    requires WellFormed(s)
    ensures WellFormed(ReadAccount(s, a, keccak, reply).1)
    ensures s.Keys <= ReadAccount(s, a, keccak, reply).1.Keys <= s.Keys + {a}
  {
    hide Encode, Decode, WellFormed, Hit, Known;
    if reply.nonce.Ok? && reply.balance.Ok? && reply.code.Ok? {
      AccountFillKnown(s, a, reply.nonce.value, reply.balance.value, reply.code.value, CodeKey(a));
    }
  }

  /** What a record answers, in terms of the keys it answers for. */
  lemma HitKnown(s: Store, a: Address, keccak: Bytes -> Hash)
    requires Hit(s, a)
    ensures
      var acc := GetAccount(s, a).value;
      && Known(s, NonceKey(a)) == Some(Num(acc.nonce.value))
      && Known(s, BalanceKey(a)) == Some(Num(acc.balance.value))
      && Known(s, CodeKey(a)) == Some(Code(CodeOf(acc)))
      && CodeHash(acc, keccak) == keccak(CodeOf(acc))
  {
    hide Encode, Decode, WellFormed;
    var acc := GetAccount(s, a).value;
    assert |CodeOf(acc)| == 0 ==> CodeOf(acc) == [];
  }

  lemma HitIsKnown(s: Store, a: Address)
    requires WellFormed(s)
    ensures Hit(s, a) <==> Known(s, NonceKey(a)).Some? && Known(s, BalanceKey(a)).Some?
  {
    hide Encode, Decode, WellFormed;
  }

  lemma NonceZeroUnknown(s: Store, a: Address)
    requires WellFormed(s)
    ensures Known(s, NonceKey(a)) != Some(Num(0))
  {
    StoredIsNormal(s, NonceKey(a));
  }

  // ----- what each read answers, and what it leaves -----

  /** The first of the three fetches that fails. */
  function FirstError(reply: AccountReply): Option<Error> {
    match reply
    case AccountReply(Err(e), _, _) => Some(e)
    case AccountReply(Ok(_), Err(e), _) => Some(e)
    case AccountReply(Ok(_), Ok(_), Err(e)) => Some(e)
    case _ => None
  }

  /** Known numbers are answered and nothing changes. Otherwise an error of a fetch
      is the answer and nothing changes, and without one the replies are the
      answer and become what is known of the account. */
  lemma {:induction false} AccountReadIs(s: Store, a: Address, keccak: Bytes -> Hash, reply: AccountReply, k: Key)
    requires WellFormed(s)
    ensures
      var (r, t) := ReadAccount(s, a, keccak, reply);
      if Known(s, NonceKey(a)).Some? && Known(s, BalanceKey(a)).Some? then
        && t == s && r.Ok?
        && Known(s, NonceKey(a)) == Some(Num(r.value.nonce)) && Known(s, BalanceKey(a)) == Some(Num(r.value.balance))
        && exists code :: Known(s, CodeKey(a)) == Some(Code(code)) && r.value.codeHash == keccak(code)
      else if FirstError(reply).Some? then
        t == s && r == Err(FirstError(reply).value)
      else
        && r == Ok(StateAccount(reply.nonce.value, reply.balance.value, keccak(reply.code.value)))
        && t.Keys == s.Keys + {a}
        && Known(t, k) ==
           if k.addr != a then Known(s, k)
           else match k
             case NonceKey(_) => if reply.nonce.value == 0 then None else Some(Num(reply.nonce.value))
             case BalanceKey(_) => Some(Num(reply.balance.value))
             case CodeKey(_) => Some(Code(reply.code.value))
             case SlotKey(_, _) => None
  {
    hide Encode, Decode, WellFormed, Known, Hit;
    HitIsKnown(s, a);
    if Hit(s, a) {
      HitKnown(s, a, keccak);
    } else if FirstError(reply).None? {
      var nonce, balance, code := reply.nonce.value, reply.balance.value, reply.code.value;
      AccountFillKnown(s, a, nonce, balance, code, k);
      assert |code| == 0 ==> code == [];
    }
  }

  /** Known code is answered; otherwise the reply is, or "not found" when it is an
      error. Nothing changes. */
  lemma CodeReadIs(s: Store, a: Address, reply: Result<Bytes>)
    requires WellFormed(s)
    ensures ReadCode(s, a, reply).1 == s
    ensures Known(s, CodeKey(a)).Some? ==>
              ReadCode(s, a, reply).0.Ok? && Known(s, CodeKey(a)) == Some(Code(ReadCode(s, a, reply).0.value))
    ensures Known(s, CodeKey(a)).None? ==>
              ReadCode(s, a, reply).0 == if reply.Ok? then reply else Err(NotFound)
  {
    hide Known, GetCode, WellFormed;
    FillsCreateNothing(s, a, [], reply, Err(NotFound));
    ReadKnown(s, a, []);
    CodeIsCode(s, a);
  }

  lemma CodeIsCode(s: Store, a: Address)
    ensures Known(s, CodeKey(a)).Some? ==> Known(s, CodeKey(a)).value.Code?
  {
  }

  /** A known word is answered and nothing changes. Otherwise an error of the fetch
      is the answer and nothing changes, and without one the reply is the answer
      and becomes what is known of that slot of an existing record. */
  lemma {:induction false} SlotReadIs(s: Store, a: Address, key: Bytes, reply: Result<Hash>, k: Key)
    requires WellFormed(s)
    ensures
      var (r, t) := ReadSlot(s, a, key, reply);
      if Known(s, SlotKey(a, ToHash(key))).Some? then
        t == s && r.Ok? && Known(s, SlotKey(a, ToHash(key))) == Some(Word(r.value))
      else if reply.Err? then
        t == s && r == reply
      else
        && r == reply && t.Keys == s.Keys
        && Known(t, k) == if k == SlotKey(a, ToHash(key)) && a in s then Some(Word(reply.value)) else Known(s, k)
  {
    hide Known, GetSlot, PutSlot, WellFormed, ToHash;
    ReadKnown(s, a, key);
    KnownNeedsRecord(s, SlotKey(a, ToHash(key)));
    if reply.Ok? {
      SlotFillKnown(s, a, key, reply.value, k);
      WordOfWord(reply.value);
    }
  }

  /** What the store knows about nonce and balance after a read that succeeds. */
  lemma ReadLeaves(s: Store, a: Address, keccak: Bytes -> Hash, reply: AccountReply)
    requires WellFormed(s) && ReadAccount(s, a, keccak, reply).0.Ok?
    ensures
      var (r, t) := ReadAccount(s, a, keccak, reply);
      && WellFormed(t)
      && Known(t, NonceKey(a)) == (if r.value.nonce == 0 then None else Some(Num(r.value.nonce)))
      && Known(t, BalanceKey(a)) == Some(Num(r.value.balance))
      && exists code :: Known(t, CodeKey(a)) == Some(Code(code)) && r.value.codeHash == keccak(code)
  {
    hide Encode, Decode, WellFormed, PutAccount, Known, Hit;
    if Hit(s, a) {
      HitKnown(s, a, keccak);
      NonceZeroUnknown(s, a);
    } else {
      var nonce, balance, code := reply.nonce.value, reply.balance.value, reply.code.value;
      AccountFillKnown(s, a, nonce, balance, code, NonceKey(a));
      AccountFillKnown(s, a, nonce, balance, code, BalanceKey(a));
      AccountFillKnown(s, a, nonce, balance, code, CodeKey(a));
      assert |code| == 0 ==> code == [];
    }
  }

  /** A second read that gets the same reply repeats the first, and changes
      nothing more. Whatever the fetcher replies meanwhile, it does so exactly
      unless the nonce is zero: the codec drops a zero nonce, so such an account
      is never a hit. */
  lemma {:induction false} SecondRead(s: Store, a: Address, keccak: Bytes -> Hash, first: AccountReply)
    requires WellFormed(s) && ReadAccount(s, a, keccak, first).0.Ok?
    ensures
      var (r, t) := ReadAccount(s, a, keccak, first);
      && ReadAccount(t, a, keccak, first) == (r, t)
      && (r.value.nonce != 0 <==> forall second :: ReadAccount(t, a, keccak, second) == (r, t))
  {
    hide Encode, Decode, WellFormed, Known, Hit;
    var (r, t) := ReadAccount(s, a, keccak, first);
    ReadLeaves(s, a, keccak, first);
    HitIsKnown(t, a);
    if Hit(t, a) {
      HitKnown(t, a, keccak);
    } else {
      assert PutAccount(t, a, FilledAccount(first.nonce.value, first.balance.value, first.code.value)) == t;
      var refused := AccountReply(Err(FetchFailed), Err(FetchFailed), Err(FetchFailed));
      assert ReadAccount(t, a, keccak, refused).0.Err?;
    }
  }

  // ----- reading against a fixed state of the chain -----

  function ReplyFrom(w: World, a: Address): AccountReply {
    AccountReply(Ok(w.nonce(a)), Ok(w.balance(a)), Ok(w.code(a)))
  }

  /** With the chain standing still, hit and miss give the same answer: the
      chain's, provided what the store knows is right. */
  lemma {:induction false} ReadAccountRefines(s: Store, w: World, a: Address, keccak: Bytes -> Hash)
    requires WellFormed(s) && AgreesWith(s, w)
    ensures
      var (r, t) := ReadAccount(s, a, keccak, ReplyFrom(w, a));
      && r == Ok(StateAccount(w.nonce(a), w.balance(a), keccak(w.code(a))))
      && WellFormed(t) && AgreesWith(t, w)
  {
    hide Known, Encode, Decode, WellFormedRecord, PutAccount;
    if Hit(s, a) {
      HitKnown(s, a, keccak);
      assert Agree(s, NonceKey(a), w) && Agree(s, BalanceKey(a), w) && Agree(s, CodeKey(a), w);
    } else {
      AccountReadDomain(s, a, keccak, ReplyFrom(w, a));
      forall k
        ensures Agree(ReadAccount(s, a, keccak, ReplyFrom(w, a)).1, k, w)
      {
        AccountFillKnown(s, a, w.nonce(a), w.balance(a), w.code(a), k);
        assert Agree(s, k, w);
      }
    }
  }

  lemma ReadCodeRefines(s: Store, w: World, a: Address)
    requires WellFormed(s) && AgreesWith(s, w)
    ensures ReadCode(s, a, Ok(w.code(a))) == (Ok(w.code(a)), s)
  {
    hide Known, GetCode, WellFormed;
    FillsCreateNothing(s, a, [], Ok(w.code(a)), Err(NotFound));
    ReadKnown(s, a, []);
    assert Agree(s, CodeKey(a), w);
  }

  lemma {:induction false} ReadSlotRefines(s: Store, w: World, a: Address, key: Bytes)
    requires WellFormed(s) && AgreesWith(s, w)
    ensures
      var (r, t) := ReadSlot(s, a, key, Ok(w.slot(a, ToHash(key))));
      && r == Ok(w.slot(a, ToHash(key)))
      && WellFormed(t) && AgreesWith(t, w)
  {
    hide Known, GetSlot, PutSlot, WellFormed;
    var h := ToHash(key);
    ReadKnown(s, a, key);
    assert Agree(s, SlotKey(a, h), w);
    SlotFillKnown(s, a, key, w.slot(a, h), CodeKey(a));
    forall k
      ensures Agree(s, k, w) && Agree(PutSlot(s, a, key, w.slot(a, h)), k, w)
    {
      SlotFillKnown(s, a, key, w.slot(a, h), k);
    }
  }

  // ----- what reads against a fixed state may do to the store -----

  /** The store grew by fills only: no record is lost, a hit stays a hit, and what
      is known about a key changed only to the chain's value, or was forgotten
      because it was a slot of a record that had to be fetched again. */
  ghost predicate FilledFrom(s: Store, t: Store, w: World) {
    && s.Keys <= t.Keys
    && (forall a :: Hit(s, a) ==> Hit(t, a))
    && forall k :: FilledAt(s, t, w, k)
  }

  predicate FilledAt(s: Store, t: Store, w: World, k: Key) {
    || Known(t, k) == Known(s, k)
    || Known(t, k) == Some(At(w, k))
    || (Known(t, k).None? && k.SlotKey? && !Hit(s, k.addr))
  }

  lemma FilledTransitive(s: Store, t: Store, u: Store, w: World)
    requires FilledFrom(s, t, w) && FilledFrom(t, u, w)
    ensures FilledFrom(s, u, w)
  {
    hide Hit, Known, At;
    forall k
      ensures FilledAt(s, u, w, k)
    {
      assert FilledAt(s, t, w, k) && FilledAt(t, u, w, k);
    }
  }

  lemma AccountReadFills(s: Store, w: World, a: Address, keccak: Bytes -> Hash)
    requires WellFormed(s) && AgreesWith(s, w)
    ensures FilledFrom(s, ReadAccount(s, a, keccak, ReplyFrom(w, a)).1, w)
  {
    hide Known, Encode, Decode, WellFormed, PutAccount, Hit;
    var t := ReadAccount(s, a, keccak, ReplyFrom(w, a)).1;
    AccountReadDomain(s, a, keccak, ReplyFrom(w, a));
    if !Hit(s, a) {
      forall k
        ensures FilledAt(s, t, w, k)
        ensures k.addr != a ==> Known(t, k) == Known(s, k)
      {
        AccountFillKnown(s, a, w.nonce(a), w.balance(a), w.code(a), k);
        assert Agree(s, k, w);
        if k == NonceKey(a) && w.nonce(a) == 0 {
          NonceZeroUnknown(s, a);
        }
      }
      forall b | Hit(s, b)
        ensures Hit(t, b)
      {
        HitIsKnown(s, b);
        HitIsKnown(t, b);
      }
    }
  }

  lemma SlotReadFills(s: Store, w: World, a: Address, h: Hash)
    requires WellFormed(s) && AgreesWith(s, w)
    ensures FilledFrom(s, ReadSlot(s, a, h, Ok(w.slot(a, ToHash(h)))).1, w)
  {
    hide Known, WellFormed, Hit, ReadSlot, ToHash;
    ReadSlotRefines(s, w, a, h);
    FillsCreateNothing(s, a, h, Ok([]), Ok(w.slot(a, ToHash(h))));
    var t := ReadSlot(s, a, h, Ok(w.slot(a, ToHash(h)))).1;
    forall k
      ensures FilledAt(s, t, w, k)
    {
      SlotReadKnown(s, a, h, Ok(w.slot(a, ToHash(h))), k);
    }
    forall b | Hit(s, b)
      ensures Hit(t, b)
    {
      SlotReadKnown(s, a, h, Ok(w.slot(a, ToHash(h))), NonceKey(b));
      SlotReadKnown(s, a, h, Ok(w.slot(a, ToHash(h))), BalanceKey(b));
      HitIsKnown(s, b);
      HitIsKnown(t, b);
    }
  }
}
