// The JSON form of a fetched account (fetcher/rpc.go), with the hex texts of
// the Ethereum JSON-RPC API (section "Hex value encoding").
module AccountJson {
  import opened Wrappers
  import opened ByteStrings
  import opened Digits

  type Words = map<Uint256, Uint256>

  /** The fetcher's account: nil code and nil storage are None. */
  datatype RpcAccount = RpcAccount(nonce: Uint64, balance: Uint256, code: Option<Bytes>, storage: Option<Words>)

  /** A value in the document: a text, or anything else, null included. */
  datatype Entry = Text(text: string) | NotText

  /** The document: each field may be missing; storage, where null is as good as
      missing, as name/value pairs in document order. */
  datatype Json = Json(
    nonce: Option<Entry>, balance: Option<Entry>, code: Option<Entry>, storage: Option<seq<(string, Entry)>>)

  const HEX := "0123456789abcdef"

  function HexText(ds: seq<nat>): string
    requires AreDigits(ds, 16)
  {
    seq(|ds|, i requires 0 <= i < |ds| => HEX[ds[i]])
  }

  function Nibble(c: char): Option<nat> {
    if '0' <= c <= '9' then Some(c as nat - '0' as nat)
    else if 'a' <= c <= 'f' then Some(c as nat - 'a' as nat + 10)
    else if 'A' <= c <= 'F' then Some(c as nat - 'A' as nat + 10)
    else None
  }

  function Nibbles(s: string): (ds: Option<seq<nat>>)
    ensures ds.Some? ==> |ds.value| == |s| && AreDigits(ds.value, 16)
  {
    if |s| == 0 then Some([]) else
      var front, d := Nibbles(s[..|s| - 1]), Nibble(s[|s| - 1]);
      if front.None? || d.None? then None else Some(front.value + [d.value])
  }

  /** A quantity: no leading zeros, zero as "0x0". */
  function Quantity(n: nat): string {
    "0x" + if n == 0 then "0" else HexText(Minimal(n, 16))
  }

  predicate Prefixed(s: string) {
    |s| >= 2 && s[0] == '0' && (s[1] == 'x' || s[1] == 'X')
  }

  function ParseQuantity(s: string, digits: nat): Result<nat> {
    if !Prefixed(s) || |s| == 2 then Err(BadSyntax)
    else if |s| > 3 && s[2] == '0' then Err(BadSyntax)
    else if |s| - 2 > digits then Err(OutOfRange)
    else match Nibbles(s[2..])
      case None => Err(BadSyntax)
      case Some(ds) => Ok(Value(ds, 16))
  }

  /** Bytes as two hex digits each. */
  function HexOfBytes(b: Bytes): seq<nat>
  {
    if |b| == 0 then [] else HexOfBytes(b[..|b| - 1]) + [b[|b| - 1] / 16, b[|b| - 1] % 16]
  }

  function BytesOfHex(ds: seq<nat>): Bytes
    requires AreDigits(ds, 16) && |ds| % 2 == 0
  {
    if |ds| == 0 then [] else BytesOfHex(ds[..|ds| - 2]) + [ds[|ds| - 2] * 16 + ds[|ds| - 1]]
  }

  function Data(b: Bytes): string {
    HexOfBytesDigits(b);
    "0x" + HexText(HexOfBytes(b))
  }

  /** The empty text counts as empty bytes. */
  function ParseData(s: string): Result<Bytes> {
    if s == "" then Ok([])
    else if !Prefixed(s) || |s| % 2 != 0 then Err(BadSyntax)
    else match Nibbles(s[2..])
      case None => Err(BadSyntax)
      case Some(ds) => Ok(BytesOfHex(ds))
  }

  // ----- the texts -----

  lemma {:induction false} NibblesOfText(ds: seq<nat>)
    requires AreDigits(ds, 16)
    ensures Nibbles(HexText(ds)) == Some(ds)
  {
    if |ds| > 0 {
      var front, d := ds[..|ds| - 1], ds[|ds| - 1];
      assert HexText(ds)[..|ds| - 1] == HexText(front);
      NibblesOfText(front);
      NibbleOfDigit(d);
      assert ds == front + [d];
    }
  }

  lemma NibbleOfDigit(d: nat)
    requires d < 16
    ensures Nibble(HEX[d]) == Some(d)
  {
  }

  /** A text with its letters made small: what hex readers do not tell apart. */
  function Lower(s: string): string {
    seq(|s|, i requires 0 <= i < |s| => LowerChar(s[i]))
  }

  function LowerChar(c: char): char {
    if 'A' <= c <= 'Z' then 'a' + (c - 'A') else c
  }

  lemma {:induction false} NibblesOfLower(s: string, ds: seq<nat>)
    requires AreDigits(ds, 16)
    ensures Nibbles(s) == Some(ds) <==> Lower(s) == HexText(ds)
  {
    if |s| == 0 || |s| != |ds| {
      assert |Lower(s)| == |s| && |HexText(ds)| == |ds|;
      assert |s| == 0 && |ds| == 0 ==> ds == [];
    } else {
      var n := |s| - 1;
      NibblesOfLower(s[..n], ds[..n]);
      NibbleOfLower(s[n], ds[n]);
      assert Lower(s)[..n] == Lower(s[..n]) && Lower(s)[n] == LowerChar(s[n]);
      assert HexText(ds)[..n] == HexText(ds[..n]) && HexText(ds)[n] == HEX[ds[n]];
      assert Lower(s) == Lower(s)[..n] + [Lower(s)[n]] && HexText(ds) == HexText(ds)[..n] + [HexText(ds)[n]];
      assert ds == ds[..n] + [ds[n]];
    }
  }

  lemma NibbleOfLower(c: char, d: nat)
    requires d < 16
    ensures Nibble(c) == Some(d) <==> LowerChar(c) == HEX[d]
  {
  }

  lemma LowerPrefixed(s: string, text: string)
    ensures Lower(s) == "0x" + text <==> Prefixed(s) && Lower(s[2..]) == text
  {
    var whole := "0x" + text;
    assert |Lower(s)| == |s| && |whole| == 2 + |text|;
    if |s| >= 2 {
      assert Lower(s)[0] == LowerChar(s[0]) && Lower(s)[1] == LowerChar(s[1]) && Lower(s)[2..] == Lower(s[2..]);
      assert whole[0] == '0' && whole[1] == 'x' && whole[2..] == text;
      assert Lower(s) == [Lower(s)[0], Lower(s)[1]] + Lower(s)[2..];
      assert whole == [whole[0], whole[1]] + whole[2..];
    }
  }

  lemma LowerQuantity(s: string, n: nat)
    ensures Lower(s) == Quantity(n) <==>
            Prefixed(s) && Lower(s[2..]) == if n == 0 then "0" else HexText(Minimal(n, 16))
  {
    LowerPrefixed(s, if n == 0 then "0" else HexText(Minimal(n, 16)));
  }

  lemma {:induction false} FirstNibble(s: string, ds: seq<nat>)
    requires AreDigits(ds, 16) && |s| > 0 && Lower(s) == HexText(ds)
    ensures |ds| == |s| && (s[0] == '0' <==> ds[0] == 0)
  {
    assert |Lower(s)| == |s| && |HexText(ds)| == |ds|;
    assert LowerChar(s[0]) == Lower(s)[0] == HEX[ds[0]];
  }

  lemma {:induction false} QuantityParses(s: string, digits: nat, n: nat)
    requires digits > 0 && n < Pow(16, digits) && Lower(s) == Quantity(n)
    ensures ParseQuantity(s, digits) == Ok(n)
  {
    hide Pow, Quantity, Nibbles;
    LowerQuantity(s, n);
    var ds := if n == 0 then [0] else Minimal(n, 16);
    assert n == 0 ==> HexText([0]) == "0";
    NibblesOfLower(s[2..], ds);
    assert |s[2..]| == |Lower(s[2..])| == |ds|;
    FirstNibble(s[2..], ds);
    ValueOfMinimal(n, 16);
    MinimalLength(n, 16, digits);
    assert Value([0], 16) == 0;
  }

  lemma {:induction false} ParsedIsQuantity(s: string, digits: nat, n: nat)
    requires digits > 0 && ParseQuantity(s, digits) == Ok(n)
    ensures Lower(s) == Quantity(n) && n < Pow(16, digits)
  {
    hide Pow, Quantity;
    var ds := Nibbles(s[2..]).value;
    NibblesOfLower(s[2..], ds);
    FirstNibble(s[2..], ds);
    if ds[0] == 0 {
      assert ds == [0] && HexText([0]) == "0";
      PowPositive(16, digits);
    } else {
      MinimalOfValue(ds, 16);
      ValuePositive(ds, 16);
      MinimalLength(n, 16, digits);
    }
    LowerQuantity(s, n);
  }

  /** Exactly: a text reads as n if and only if, but for the case of its letters,
      it is the text of n and not longer than allowed. */
  lemma {:induction false} QuantityExact(s: string, digits: nat, n: nat)
    requires digits > 0
    ensures ParseQuantity(s, digits) == Ok(n) <==> Lower(s) == Quantity(n) && n < Pow(16, digits)
  {
    hide Pow;
    LowerQuantity(s, n);
    if Lower(s) == Quantity(n) && n < Pow(16, digits) {
      QuantityParses(s, digits, n);
    }
    if ParseQuantity(s, digits) == Ok(n) {
      ParsedIsQuantity(s, digits, n);
    }
  }

  lemma {:induction false} LowerHexText(ds: seq<nat>)
    requires AreDigits(ds, 16)
    ensures Lower(HexText(ds)) == HexText(ds)
  {
    assert forall i :: 0 <= i < 16 ==> LowerChar(HEX[i]) == HEX[i];
  }

  lemma {:induction false} QuantityRoundTrip(n: nat, digits: nat)
    requires digits > 0 && n < Pow(16, digits)
    ensures ParseQuantity(Quantity(n), digits) == Ok(n)
  {
    hide Pow, ParseQuantity, HexText, Minimal;
    var text := if n == 0 then "0" else HexText(Minimal(n, 16));
    LowerHexText(Minimal(n, 16));
    assert Lower("0") == "0";
    LowerPrefixed(Quantity(n), text);
    assert Quantity(n)[2..] == text;
    QuantityParses(Quantity(n), digits, n);
  }

  /** No two slots print alike, so none are merged in the document. */
  lemma {:induction false} QuantityInjective(m: nat, n: nat)
    ensures Quantity(m) == Quantity(n) <==> m == n
  {
    hide Quantity, ParseQuantity, Pow;
    var digits := m + n + 1;
    Roomy(m, digits);
    Roomy(n, digits);
    QuantityRoundTrip(m, digits);
    QuantityRoundTrip(n, digits);
  }

  lemma {:induction false} Roomy(n: nat, digits: nat)
    requires n < digits
    ensures n < Pow(16, digits)
    decreases digits
  {
    if digits > 1 && n > 0 {
      Roomy(n - 1, digits - 1);
      MulMonotone(2, 16, Pow(16, digits - 1));
    } else {
      PowPositive(16, digits);
    }
  }

  lemma {:induction false} HexOfBytesDigits(b: Bytes)
    ensures AreDigits(HexOfBytes(b), 16) && |HexOfBytes(b)| == 2 * |b|
  {
    if |b| > 0 {
      HexOfBytesDigits(b[..|b| - 1]);
    }
  }

  lemma {:induction false} BytesOfHexOfBytes(b: Bytes)
    ensures AreDigits(HexOfBytes(b), 16) && |HexOfBytes(b)| == 2 * |b|
    ensures BytesOfHex(HexOfBytes(b)) == b
  {
    HexOfBytesDigits(b);
    if |b| > 0 {
      var front, last := b[..|b| - 1], b[|b| - 1];
      BytesOfHexOfBytes(front);
      HexOfBytesDigits(front);
      DivMod(last, 16);
      assert HexOfBytes(b) == HexOfBytes(front) + [last / 16, last % 16];
      BytesOfHexSnoc(HexOfBytes(front), last / 16, last % 16);
      assert b == front + [last];
    }
  }

  lemma {:induction false} BytesOfHexSnoc(ds: seq<nat>, hi: nat, lo: nat)
    requires AreDigits(ds, 16) && |ds| % 2 == 0 && hi < 16 && lo < 16
    ensures BytesOfHex(ds + [hi, lo]) == BytesOfHex(ds) + [hi * 16 + lo]
  {
    var longer := ds + [hi, lo];
    assert |longer| == |ds| + 2 && longer[|ds|] == hi && longer[|ds| + 1] == lo;
    assert longer[..|longer| - 2] == ds;
  }

  lemma DataRoundTrip(b: Bytes)
    ensures ParseData(Data(b)) == Ok(b)
  {
    BytesOfHexOfBytes(b);
    NibblesOfText(HexOfBytes(b));
    assert Data(b)[2..] == HexText(HexOfBytes(b));
  }

  lemma {:induction false} HexOfBytesOfHex(ds: seq<nat>)
    requires AreDigits(ds, 16) && |ds| % 2 == 0
    ensures HexOfBytes(BytesOfHex(ds)) == ds
  {
    if |ds| > 0 {
      var front, hi, lo := ds[..|ds| - 2], ds[|ds| - 2], ds[|ds| - 1];
      HexOfBytesOfHex(front);
      HexOfBytesSnoc(BytesOfHex(front), hi, lo);
      assert BytesOfHex(ds) == BytesOfHex(front) + [hi * 16 + lo];
      assert ds == front + [hi, lo];
    }
  }

  lemma {:induction false} HexOfBytesSnoc(b: Bytes, hi: nat, lo: nat)
    requires hi < 16 && lo < 16
    ensures HexOfBytes(b + [hi * 16 + lo]) == HexOfBytes(b) + [hi, lo]
  {
    DivModUnique(hi, lo, 16);
    assert (b + [hi * 16 + lo])[..|b|] == b;
  }

  /** Exactly, again: a text reads as b if and only if, but for the case of its
      letters, it is the text of b, or both are empty. */
  lemma {:induction false} DataExact(s: string, b: Bytes)
    ensures ParseData(s) == Ok(b) <==> Lower(s) == Data(b) || (s == "" && b == [])
  {
    hide Nibbles, HexOfBytes, BytesOfHex, HexText;
    BytesOfHexOfBytes(b);
    LowerData(s, b);
    assert |Lower(s)| == |s| && |Data(b)| == 2 + 2 * |b| by {
      HexTextLength(HexOfBytes(b));
    }
    if s != "" && Prefixed(s) && |s| % 2 == 0 {
      NibblesOfLower(s[2..], HexOfBytes(b));
      if Nibbles(s[2..]).Some? {
        HexOfBytesOfHex(Nibbles(s[2..]).value);
      }
    }
  }

  lemma HexTextLength(ds: seq<nat>)
    requires AreDigits(ds, 16)
    ensures |HexText(ds)| == |ds|
  {
  }

  lemma {:induction false} LowerData(s: string, b: Bytes)
    ensures AreDigits(HexOfBytes(b), 16)
    ensures Lower(s) == Data(b) <==> Prefixed(s) && Lower(s[2..]) == HexText(HexOfBytes(b))
  {
    HexOfBytesDigits(b);
    LowerPrefixed(s, HexText(HexOfBytes(b)));
  }

  // ----- the account -----

  function WordsOf(acc: RpcAccount): Words {
    if acc.storage.Some? then acc.storage.value else map[]
  }

  function CodeOf(acc: RpcAccount): Bytes {
    if acc.code.Some? then acc.code.value else []
  }

  /** The pair is the text of a slot of m and of its word. */
  predicate PairOf(pair: (string, Entry), m: Words) {
    var k := ParseWord(pair.0);
    k.Ok? && k.value in m && pair.0 == Quantity(k.value) && pair.1 == Text(Quantity(m[k.value]))
  }

  /** The pairs name every slot of m with its word, and nothing else. */
  ghost predicate Lists(pairs: seq<(string, Entry)>, m: Words) {
    && (forall i, j :: 0 <= i < j < |pairs| ==> pairs[i].0 != pairs[j].0)
    && (forall i :: 0 <= i < |pairs| ==> PairOf(pairs[i], m))
    && (forall k :: k in m ==> (Quantity(k), Text(Quantity(m[k]))) in pairs)
  }

  /** What MarshalJSON may produce: the order of the pairs is left open. */
  ghost predicate Marshals(acc: RpcAccount, j: Json) {
    && j.nonce == Some(Text(Quantity(acc.nonce))) && j.balance == Some(Text(Quantity(acc.balance)))
    && j.code == Some(Text(Data(CodeOf(acc))))
    && (j.storage.None? <==> WordsOf(acc) == map[])
    && (j.storage.Some? ==> Lists(j.storage.value, WordsOf(acc)))
  }

  /** The first loop of MarshalJSON: the slots collected in a map keyed by their texts. */
  method Texts(words: Words) returns (texts: map<string, Entry>)
    ensures forall k :: k in words ==> Quantity(k) in texts && texts[Quantity(k)] == Text(Quantity(words[k]))
    ensures forall t :: t in texts ==> PairOf((t, texts[t]), words)
  {
    hide Quantity, ParseWord;
    texts := map[];
    var todo := words.Keys;
    while todo != {}
      invariant todo <= words.Keys
      invariant forall k ::
                  k in words && k !in todo ==> Quantity(k) in texts && texts[Quantity(k)] == Text(Quantity(words[k]))
      invariant forall t :: t in texts ==> PairOf((t, texts[t]), words)
    {
      var k :| k in todo;
      forall l | l in words && Quantity(l) == Quantity(k)
        ensures l == k
      {
        QuantityInjective(l, k);
      }
      WordRoundTrip(k);
      texts := texts[Quantity(k) := Text(Quantity(words[k]))];
      todo := todo - {k};
    }
  }

  /** MarshalJSON; an empty map is omitted. */
  method MarshalJSON(acc: RpcAccount) returns (j: Json)
    ensures Marshals(acc, j)
  {
    hide Quantity, ParseWord, Data, CodeOf;
    var words := WordsOf(acc);
    var texts := Texts(words);
    var pairs := Pairs(texts);
    j := Json(
      Some(Text(Quantity(acc.nonce))), Some(Text(Quantity(acc.balance))), Some(Text(Data(CodeOf(acc)))),
      if texts == map[] then None else Some(pairs));
    forall i | 0 <= i < |pairs|
      ensures PairOf(pairs[i], words)
    {
      assert pairs[i] == (pairs[i].0, texts[pairs[i].0]);
    }
    if texts == map[] {
      assert words == map[];
    } else {
      var t :| t in texts;
      assert PairOf((t, texts[t]), words);
    }
  }

  method Pairs(texts: map<string, Entry>) returns (pairs: seq<(string, Entry)>)
    ensures forall i, j :: 0 <= i < j < |pairs| ==> pairs[i].0 != pairs[j].0
    ensures forall i :: 0 <= i < |pairs| ==> pairs[i].0 in texts && pairs[i].1 == texts[pairs[i].0]
    ensures forall t :: t in texts ==> (t, texts[t]) in pairs
  {
    pairs := [];
    var todo := texts.Keys;
    while todo != {}
      invariant todo <= texts.Keys
      invariant forall i, j :: 0 <= i < j < |pairs| ==> pairs[i].0 != pairs[j].0
      invariant forall i ::
                  0 <= i < |pairs| ==> pairs[i].0 in texts && pairs[i].0 !in todo && pairs[i].1 == texts[pairs[i].0]
      invariant forall t :: t in texts && t !in todo ==> (t, texts[t]) in pairs
    {
      var t :| t in todo;
      pairs := pairs + [(t, texts[t])];
      todo := todo - {t};
    }
  }

  function ParseWord(s: string): Result<Uint256> {
    match ParseQuantity(s, 64)
    case Err(e) => Err(e)
    case Ok(n) => if n < TWO_256 then Ok(n) else Err(OutOfRange)
  }

  function ParseUint64(s: string): Result<Uint64> {
    match ParseQuantity(s, 16)
    case Err(e) => Err(e)
    case Ok(n) => if n < 0x1_0000_0000_0000_0000 then Ok(n) else Err(OutOfRange)
  }

  /** As values, though not as names, numbers may be the empty text for zero. */
  function WordEntry(e: Entry): Result<Uint256> {
    if e.NotText? then Err(BadSyntax) else if e.text == "" then Ok(0) else ParseWord(e.text)
  }

  function Uint64Entry(e: Entry): Result<Uint64> {
    if e.NotText? then Err(BadSyntax) else if e.text == "" then Ok(0) else ParseUint64(e.text)
  }

  function DataEntry(e: Entry): Result<Bytes> {
    if e.NotText? then Err(BadSyntax) else ParseData(e.text)
  }

  function DecodePairs(pairs: seq<(string, Entry)>): Result<Words> {
    if |pairs| == 0 then Ok(map[]) else
      match DecodePairs(pairs[..|pairs| - 1])
      case Err(e) => Err(e)
      case Ok(m) =>
        match (ParseWord(pairs[|pairs| - 1].0), WordEntry(pairs[|pairs| - 1].1))
        case (Ok(k), Ok(v)) => Ok(m[k := v])
        case (Err(e), _) => Err(e)
        case (_, Err(e)) => Err(e)
  }

  /** A missing field keeps its zero value, which is nil for code. */
  function Unmarshal(j: Json): (r: Result<RpcAccount>)
    ensures r.Ok? ==> r.value.storage.Some? && (r.value.code.Some? <==> j.code.Some?)
  {
    var nonce := if j.nonce.Some? then Uint64Entry(j.nonce.value) else Ok(0);
    var balance := if j.balance.Some? then WordEntry(j.balance.value) else Ok(0);
    var code := if j.code.Some? then DataEntry(j.code.value) else Ok([]);
    var words := DecodePairs(if j.storage.Some? then j.storage.value else []);
    if nonce.Err? || balance.Err? || code.Err? || words.Err? then Err(BadSyntax)
    else Ok(RpcAccount(nonce.value, balance.value, if j.code.Some? then Some(code.value) else None, Some(words.value)))
  }

  /** UnmarshalJSON writes into its receiver, and only after everything parsed. */
  class AccountRef {
    var nonce: Uint64
    var balance: Uint256
    var code: Option<Bytes>
    var storage: Option<Words>

    ghost function Contents(): RpcAccount
      reads this
    {
      RpcAccount(nonce, balance, code, storage)
    }

    constructor ()
      ensures Contents() == RpcAccount(0, 0, None, None)
    {
      nonce, balance, code, storage := 0, 0, None, None;
    }

    method UnmarshalJSON(j: Json) returns (err: Option<Error>)
      modifies this
      ensures err.None? <==> Unmarshal(j).Ok?
      ensures Contents() == if err.None? then Unmarshal(j).value else old(Contents())
    {
      hide Unmarshal;
      var decoded := Unmarshal(j);
      if decoded.Err? {
        return Some(decoded.error);
      }
      nonce, balance, code := decoded.value.nonce, decoded.value.balance, decoded.value.code;
      var words := WordsOf(decoded.value);
      var copied: Words := map[];
      var todo := words.Keys;
      while todo != {}
        invariant todo <= words.Keys
        invariant copied == map k | k in words && k !in todo :: words[k]
        invariant nonce == decoded.value.nonce && balance == decoded.value.balance && code == decoded.value.code
      {
        var k :| k in todo;
        copied := copied[k := words[k]];
        todo := todo - {k};
      }
      storage := Some(copied);
      assert copied == words;
      return None;
    }
  }

  lemma WordRoundTrip(n: Uint256)
    ensures ParseWord(Quantity(n)) == Ok(n)
  {
    SixtyFourDigits();
    QuantityRoundTrip(n, 64);
  }

  /** The readers of the fields, exactly. */
  lemma {:induction false} NumbersExact(s: string, n: nat)
    ensures n < TWO_256 ==> (ParseWord(s) == Ok(n) <==> Lower(s) == Quantity(n))
    ensures n < 0x1_0000_0000_0000_0000 ==> (ParseUint64(s) == Ok(n) <==> Lower(s) == Quantity(n))
  {
    hide ParseQuantity, Quantity, Lower, Pow;
    SixtyFourDigits();
    SixteenDigits();
    QuantityExact(s, 64, n);
    QuantityExact(s, 16, n);
  }

  /** Of names that read alike the last one counts. */
  lemma {:induction false} LastPairCounts(pairs: seq<(string, Entry)>, k: Uint256)
    ensures DecodePairs(pairs).Ok? <==>
            forall i :: 0 <= i < |pairs| ==> ParseWord(pairs[i].0).Ok? && WordEntry(pairs[i].1).Ok?
    ensures DecodePairs(pairs).Ok? ==>
              var m := DecodePairs(pairs).value;
              && (k !in m ==> forall i :: 0 <= i < |pairs| ==> ParseWord(pairs[i].0) != Ok(k))
              && (k in m ==> exists i :: IsLast(pairs, k, i) && WordEntry(pairs[i].1) == Ok(m[k]))
  {
    hide ParseWord, WordEntry;
    if |pairs| > 0 {
      var front, last := pairs[..|pairs| - 1], |pairs| - 1;
      LastPairCounts(front, k);
      assert pairs == front + [pairs[last]];
      if DecodePairs(pairs).Ok? && k in DecodePairs(pairs).value {
        var m := DecodePairs(pairs).value;
        if ParseWord(pairs[last].0) == Ok(k) {
          assert IsLast(pairs, k, last) && WordEntry(pairs[last].1) == Ok(m[k]);
        } else {
          var i :| IsLast(front, k, i) && WordEntry(front[i].1) == Ok(m[k]);
          assert IsLast(pairs, k, i) && WordEntry(pairs[i].1) == Ok(m[k]);
        }
      }
    }
  }

  ghost predicate IsLast(pairs: seq<(string, Entry)>, k: Uint256, i: int) {
    && 0 <= i < |pairs| && ParseWord(pairs[i].0) == Ok(k)
    && forall j :: i < j < |pairs| ==> ParseWord(pairs[j].0) != Ok(k)
  }

  lemma SixtyFourDigits()
    ensures Pow(16, 64) == TWO_256
  {
    PowIsTwo256();
    PowSquare(32);
  }

  lemma {:induction false} PowSquare(e: nat)
    ensures Pow(16, 2 * e) == Pow(256, e)
  {
    if e > 0 {
      PowSquare(e - 1);
      assert Pow(16, 2 * e) == 16 * (16 * Pow(16, 2 * (e - 1)));
    }
  }

  lemma WordEntryRoundTrip(n: Uint256)
    ensures ParseWord(Quantity(n)) == Ok(n) && WordEntry(Text(Quantity(n))) == Ok(n)
  {
    hide ParseWord;
    WordRoundTrip(n);
  }

  /** Whatever the order, decoding the pairs gives back the map: nothing is lost
      or merged. */
  lemma {:induction false} PairsRoundTrip(pairs: seq<(string, Entry)>, m: Words)
    requires forall i :: 0 <= i < |pairs| ==> PairOf(pairs[i], m)
    ensures DecodePairs(pairs).Ok?
    ensures forall k :: k in DecodePairs(pairs).value ==> k in m && DecodePairs(pairs).value[k] == m[k]
    ensures forall k :: k in m && (Quantity(k), Text(Quantity(m[k]))) in pairs ==> k in DecodePairs(pairs).value
  {
    hide Quantity, ParseWord, WordEntry;
    if |pairs| > 0 {
      var front, last := pairs[..|pairs| - 1], pairs[|pairs| - 1];
      PairsRoundTrip(front, m);
      assert PairOf(last, m);
      WordEntryRoundTrip(m[ParseWord(last.0).value]);
      forall k | k in m && (Quantity(k), Text(Quantity(m[k]))) in pairs
        ensures k in DecodePairs(pairs).value
      {
        WordEntryRoundTrip(k);
        assert pairs == front + [last];
      }
    }
  }

  /** A number that is missing or empty reads like the text of zero, and code that
      is empty like "0x"; missing code stays nil. Anything but a text is refused. */
  lemma {:induction false} MissingIsZero(j: Json)
    ensures Unmarshal(j.(nonce := None)) == Unmarshal(j.(nonce := Some(Text("")))) ==
            Unmarshal(j.(nonce := Some(Text("0x0"))))
    ensures Unmarshal(j.(balance := None)) == Unmarshal(j.(balance := Some(Text("")))) ==
            Unmarshal(j.(balance := Some(Text("0x0"))))
    ensures Unmarshal(j.(code := Some(Text("")))) == Unmarshal(j.(code := Some(Text("0x"))))
    ensures Unmarshal(j.(code := None)) ==
            match Unmarshal(j.(code := Some(Text("0x"))))
            case Ok(acc) => Ok(acc.(code := None))
            case Err(e) => Err(e)
    ensures j.nonce == Some(NotText) || j.balance == Some(NotText) || j.code == Some(NotText) ==> Unmarshal(j).Err?
  {
    hide Quantity, DecodePairs, ParseQuantity, ParseData;
    assert Quantity(0) == "0x0" by {
      ZeroText();
    }
    WordRoundTrip(0);
    Uint64RoundTrip(0);
    NothingText();
  }

  lemma ZeroText()
    ensures Quantity(0) == "0x0"
  {
  }

  lemma NothingText()
    ensures ParseData("0x") == Ok([]) == ParseData("")
  {
  }

  /** Every account survives: nil code comes back as empty code and absent
      storage as the empty map. */
  lemma AccountRoundTrip(acc: RpcAccount, j: Json)
    ensures Marshals(acc, j) ==>
              Unmarshal(j) == Ok(RpcAccount(acc.nonce, acc.balance, Some(CodeOf(acc)), Some(WordsOf(acc))))
  {
    hide Quantity, Uint64Entry, WordEntry, ParseWord, DecodePairs, Data, ParseData, CodeOf, WordsOf;
    if Marshals(acc, j) {
      Uint64RoundTrip(acc.nonce);
      WordEntryRoundTrip(acc.balance);
      DataRoundTrip(CodeOf(acc));
      var pairs := if j.storage.Some? then j.storage.value else [];
      PairsRoundTrip(pairs, WordsOf(acc));
      if j.storage.None? {
        EmptyPairs();
      }
      assert DecodePairs(pairs).value == WordsOf(acc);
    }
  }

  lemma Uint64RoundTrip(n: Uint64)
    ensures Uint64Entry(Text(Quantity(n))) == Ok(n)
  {
    hide ParseQuantity, Pow;
    SixteenDigits();
    QuantityRoundTrip(n, 16);
  }

  lemma EmptyPairs()
    ensures DecodePairs([]) == Ok(map[])
  {
  }

  lemma SixteenDigits()
    ensures Pow(16, 16) == 0x1_0000_0000_0000_0000
  {
    assert Pow(16, 8) == 0x1_0000_0000;
  }
}
