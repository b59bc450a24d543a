// The keys under which the fetcher shares requests and caches header hashes
// (fetcher/rpc.go).
module RequestKeys {
  import opened Wrappers
  import opened ByteStrings
  import opened Digits

  function AccountKey(a: Address): Bytes {
    a
  }

  /** append(addr[:], slotBytes[:]...) with slotBytes the 32-byte form of the slot. */
  function StorageKey(a: Address, slot: Uint256): Bytes {
    a + Fixed(slot, 256, 32)
  }

  /** blockNumber.String() for a block number. */
  function HeaderKey(n: nat): Bytes {
    if n == 0 then [48] else
      var ds := Minimal(n, 10);
      seq(|ds|, i requires 0 <= i < |ds| => ds[i] + 48)
  }

  lemma StorageKeyInjective(a: Address, s: Uint256, b: Address, t: Uint256)
    requires StorageKey(a, s) == StorageKey(b, t)
    ensures a == b && s == t
  {
    hide Fixed, Pow, Value;
    assert a == StorageKey(a, s)[..20] && b == StorageKey(b, t)[..20];
    assert Fixed(s, 256, 32) == StorageKey(a, s)[20..];
    assert Fixed(t, 256, 32) == StorageKey(b, t)[20..];
    PowIsTwo256();
    FixedIsMod(s, 256, 32);
    FixedIsMod(t, 256, 32);
  }

  lemma FirstDigit(n: nat)
    ensures n > 0 ==> |Minimal(n, 10)| > 0 && HeaderKey(n)[0] != 48
  {
    ValueOfMinimal(n, 10);
  }

  lemma HeaderKeyInjective(m: nat, n: nat)
    ensures HeaderKey(m) == HeaderKey(n) <==> m == n
  {
    FirstDigit(m);
    FirstDigit(n);
    if HeaderKey(m) == HeaderKey(n) && m > 0 {
      ValueOfMinimal(m, 10);
      ValueOfMinimal(n, 10);
      var x, y := Minimal(m, 10), Minimal(n, 10);
      assert forall i :: 0 <= i < |x| ==> x[i] + 48 == HeaderKey(m)[i] == HeaderKey(n)[i] == y[i] + 48;
      assert x == y;
    }
  }

  /** A header key is as long as some account or storage key exactly for block
      numbers of 20 or 52 digits, and then it is one. */
  lemma HeaderKeyCollides(n: nat)
    ensures (exists a :: AccountKey(a) == HeaderKey(n)) <==> Pow(10, 19) <= n < Pow(10, 20)
    ensures (exists a, s :: StorageKey(a, s) == HeaderKey(n)) <==> Pow(10, 51) <= n < Pow(10, 52)
  {
    var key := HeaderKey(n);
    HeaderKeyLength(n, 19);
    HeaderKeyLength(n, 20);
    HeaderKeyLength(n, 51);
    HeaderKeyLength(n, 52);
    if |key| == 20 {
      assert AccountKey(key) == key;
    }
    if |key| == 52 {
      var a: Address, rest := key[..20], key[20..];
      FixedOfValue(rest, 256);
      ValueBound(rest, 256);
      PowIsTwo256();
      var s: Uint256 := Value(rest, 256);
      assert StorageKey(a, s) == key;
    }
  }

  lemma HeaderKeyLength(n: nat, len: nat)
    requires len > 0
    ensures |HeaderKey(n)| <= len <==> n < Pow(10, len)
  {
    MinimalLength(n, 10, len);
    PowPositive(10, len);
  }

  /** Hence below 10^19 no two different requests ever share a key. */
  lemma KeysNeverCollide(a: Address, b: Address, s: Uint256, t: Uint256, m: nat, n: nat)
    requires m < Pow(10, 19) && n < Pow(10, 19)
    ensures AccountKey(a) == AccountKey(b) <==> a == b
    ensures StorageKey(a, s) == StorageKey(b, t) <==> a == b && s == t
    ensures HeaderKey(m) == HeaderKey(n) <==> m == n
    ensures AccountKey(a) != StorageKey(b, t) && AccountKey(a) != HeaderKey(n) && StorageKey(a, s) != HeaderKey(n)
  {
    if StorageKey(a, s) == StorageKey(b, t) {
      StorageKeyInjective(a, s, b, t);
    }
    HeaderKeyInjective(m, n);
    HeaderKeyLength(n, 19);
  }

  /** The slot asked of the node is the slot the caller named: word to 256-bit
      integer to minimal bytes to word, and to the 32 bytes of the key. */
  lemma SlotSurvives(slot: Hash)
    ensures Value(slot, 256) < TWO_256
    ensures Fixed(Value(slot, 256), 256, 32) == slot
    ensures ToHash(Minimal(Value(slot, 256), 256)) == slot
  {
    PowIsTwo256();
    ValueBound(slot, 256);
    FixedOfValue(slot, 256);
    ToHashIsFixed(Minimal(Value(slot, 256), 256));
    ValueOfMinimal(Value(slot, 256), 256);
  }

  // ----- the header-hash cache -----

  type HashCache = map<nat, Hash>

  const TWO_64: nat := 0x1_0000_0000_0000_0000

  /** The cache is keyed by the low 64 bits of the number. */
  function HeaderHash(cache: HashCache, n: nat, reply: Result<Hash>): (Result<Hash>, HashCache) {
    if n % TWO_64 in cache then (Ok(cache[n % TWO_64]), cache)
    else if reply.Err? then (reply, cache)
    else (reply, cache[n % TWO_64 := reply.value])
  }

  class HeaderHashes {
    var hashes: HashCache

    constructor ()
      ensures hashes == map[]
    {
      hashes := map[];
    }

    method FetchHeaderHash(n: nat, reply: Result<Hash>) returns (hash: Result<Hash>)
      modifies this
      ensures (hash, hashes) == HeaderHash(old(hashes), n, reply)
    {
      var key := n % TWO_64;
      if key in hashes {
        return Ok(hashes[key]);
      }
      if reply.Err? {
        return reply;
      }
      hashes := hashes[key := reply.value];
      return reply;
    }
  }

  /** A run of requests, each answered by the chain's own hash or by an error. */
  function Serve(hashOf: nat -> Hash, requests: seq<(nat, bool)>): (HashCache, seq<Result<Hash>>) {
    if |requests| == 0 then (map[], []) else
      var (cache, answers) := Serve(hashOf, requests[..|requests| - 1]);
      var (n, reached) := requests[|requests| - 1];
      var (answer, cache') := HeaderHash(cache, n, if reached then Ok(hashOf(n)) else Err(FetchFailed));
      (cache', answers + [answer])
  }

  /** The first number with low bits k whose request reached the node. */
  function FirstReached(requests: seq<(nat, bool)>, k: nat): (n: Option<nat>)
    ensures n.Some? ==> n.value % TWO_64 == k && (n.value, true) in requests
  {
    if |requests| == 0 then None else
      var first := FirstReached(requests[..|requests| - 1], k);
      var (n, reached) := requests[|requests| - 1];
      if first.None? && reached && n % TWO_64 == k then Some(n) else first
  }

  lemma {:induction false} CacheOfFirst(hashOf: nat -> Hash, requests: seq<(nat, bool)>, k: nat)
    ensures
      var (cache, answers) := Serve(hashOf, requests);
      && |answers| == |requests|
      && (k in cache <==> FirstReached(requests, k).Some?)
      && (k in cache ==> cache[k] == hashOf(FirstReached(requests, k).value))
  {
    if |requests| > 0 {
      CacheOfFirst(hashOf, requests[..|requests| - 1], k);
    }
  }

  lemma {:induction false} LastAnswer(hashOf: nat -> Hash, requests: seq<(nat, bool)>)
    requires |requests| > 0
    ensures
      var answers := Serve(hashOf, requests).1;
      && |answers| == |requests|
      && answers[..|answers| - 1] == Serve(hashOf, requests[..|requests| - 1]).1
      && answers[|answers| - 1] == match FirstReached(requests, requests[|requests| - 1].0 % TWO_64)
                                   case Some(n) => Ok(hashOf(n))
                                   case None => Err(FetchFailed)
  {
    var last := requests[|requests| - 1].0;
    CacheOfFirst(hashOf, requests[..|requests| - 1], last % TWO_64);
  }

  /** Over every run of requests: a request is answered with the hash of the first
      number with the same low bits that reached the node, itself included, and
      with the error when there is none. */
  lemma {:induction false} AnswersAreTheFirst(hashOf: nat -> Hash, requests: seq<(nat, bool)>, i: nat)
    requires i < |requests|
    ensures
      var answers := Serve(hashOf, requests).1;
      && |answers| == |requests|
      && answers[i] == match FirstReached(requests[..i + 1], requests[i].0 % TWO_64)
                       case Some(n) => Ok(hashOf(n))
                       case None => Err(FetchFailed)
    decreases |requests|
  {
    hide Serve, FirstReached;
    LastAnswer(hashOf, requests);
    if i == |requests| - 1 {
      assert requests[..i + 1] == requests;
    } else {
      var front := requests[..|requests| - 1];
      AnswersAreTheFirst(hashOf, front, i);
      assert front[..i + 1] == requests[..i + 1];
    }
  }

  /** Hence over every run of requests below 2^64, an answer that is not an error
      is the hash of the requested block. */
  lemma {:induction false} AnswersAreRight(hashOf: nat -> Hash, requests: seq<(nat, bool)>)
    requires forall i :: 0 <= i < |requests| ==> requests[i].0 < TWO_64
    ensures
      var (cache, answers) := Serve(hashOf, requests);
      && (forall k :: k in cache ==> cache[k] == hashOf(k))
      && |answers| == |requests|
      && forall i :: 0 <= i < |requests| ==> answers[i].Ok? ==> answers[i] == Ok(hashOf(requests[i].0))
  {
    hide Serve, FirstReached;
    CacheOfFirst(hashOf, requests, 0);
    forall k | k in Serve(hashOf, requests).0
      ensures Serve(hashOf, requests).0[k] == hashOf(k)
    {
      CacheOfFirst(hashOf, requests, k);
      assert (FirstReached(requests, k).value, true) in requests;
    }
    forall i | 0 <= i < |requests| && Serve(hashOf, requests).1[i].Ok?
      ensures Serve(hashOf, requests).1[i] == Ok(hashOf(requests[i].0))
    {
      AnswersAreTheFirst(hashOf, requests, i);
      assert (FirstReached(requests[..i + 1], requests[i].0 % TWO_64).value, true) in requests;
    }
  }

  /** A hash once answered is answered again without the node. */
  lemma AnswersAreKept(cache: HashCache, n: nat, first: Result<Hash>, second: Result<Hash>)
    requires HeaderHash(cache, n, first).0.Ok?
    ensures
      var (hash, after) := HeaderHash(cache, n, first);
      HeaderHash(after, n, second) == (hash, after)
  {
  }

  /** And beyond: after any run that reached some number with the low bits of n,
      n is answered with the hash of the first such number, whether or not it
      reaches the node, and so rightly exactly when the two hashes are equal. */
  lemma {:induction false} HighNumbersAlias(hashOf: nat -> Hash, requests: seq<(nat, bool)>, n: nat, reached: bool)
    ensures
      var first := FirstReached(requests, n % TWO_64);
      var answers := Serve(hashOf, requests + [(n, reached)]).1;
      && |answers| == |requests| + 1
      && (first.Some? ==>
            && answers[|requests|] == Ok(hashOf(first.value))
            && (answers[|requests|] == Ok(hashOf(n)) <==> hashOf(first.value) == hashOf(n)))
  {
    hide Serve;
    var longer := requests + [(n, reached)];
    LastAnswer(hashOf, longer);
    assert longer[..|requests|] == requests;
  }
}
