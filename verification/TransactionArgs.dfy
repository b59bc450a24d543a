// Two conversions of the same call arguments (bundleapi/transaction_args.go):
// straight to a message, and to a transaction that is then turned into a message.
module TransactionArgs {
  import opened Wrappers
  import opened ByteStrings
  import opened Pricing

  type AccessList = seq<(Address, seq<Hash>)>

  datatype Args = Args(
    from: Option<Address>, to: Option<Address>, gas: Option<Uint64>,
    gasPrice: Option<nat>, maxFee: Option<nat>, maxPriority: Option<nat>,
    value: Option<nat>, nonce: Option<Uint64>,
    data: Option<Bytes>, input: Option<Bytes>,
    accessList: Option<AccessList>, chainId: Option<nat>,
    blobFeeCap: Option<nat>, blobHashes: Option<seq<Hash>>)

  /** core.Message; absent lists are empty. */
  datatype Message = Message(
    from: Address, to: Option<Address>, nonce: Uint64, value: nat, gasLimit: Uint64,
    gasPrice: nat, feeCap: nat, tipCap: nat,
    data: Bytes, accessList: AccessList,
    blobFeeCap: Option<nat>, blobHashes: seq<Hash>,
    skipAccountChecks: bool)

  datatype Tx =
    | LegacyTx(to: Option<Address>, nonce: Uint64, gas: Uint64, price: nat, value: nat, data: Bytes)
    | AccessListTx(to: Option<Address>, nonce: Uint64, gas: Uint64, price: nat, value: nat, data: Bytes,
                   list: AccessList)
    | DynamicFeeTx(to: Option<Address>, nonce: Uint64, gas: Uint64, feeCap: nat, tipCap: nat, value: nat, data: Bytes,
                   list: AccessList)
    | BlobTx(toAddr: Address, nonce: Uint64, gas: Uint64, feeCap: nat, tipCap: nat, value: nat, data: Bytes,
             list: AccessList, blobFeeCap: nat, hashes: seq<Hash>)

  function OrZero(n: Option<nat>): nat {
    if n.Some? then n.value else 0
  }

  /** The sender's address, zero when none is given. */
  function From(args: Args): Address {
    if args.from.Some? then args.from.value else seq(20, i => 0)
  }

  /** Calldata: input is preferred over data. */
  function Data(args: Args): Bytes {
    if args.input.Some? then args.input.value else if args.data.Some? then args.data.value else []
  }

  function List(args: Args): AccessList {
    if args.accessList.Some? then args.accessList.value else []
  }

  function GasFor(args: Args, cap: Uint64): Uint64 {
    var gas := if args.gas.Some? then args.gas.value else if cap == 0 then 0x7FFF_FFFF_FFFF_FFFF else cap;
    if cap != 0 && cap < gas then cap else gas
  }

  /** gasPrice, feeCap and tipCap of the message. */
  function Fees(args: Args, baseFee: Option<nat>): (nat, nat, nat) {
    if baseFee.None? || args.gasPrice.Some? then
      var p := OrZero(args.gasPrice);
      (p, p, p)
    else
      var feeCap, tipCap := OrZero(args.maxFee), OrZero(args.maxPriority);
      (if feeCap > 0 || tipCap > 0 then Price(feeCap, tipCap, baseFee) else 0, feeCap, tipCap)
  }

  function ToMessage(args: Args, cap: Uint64, baseFee: Option<nat>): Result<Message> {
    if args.gasPrice.Some? && (args.maxFee.Some? || args.maxPriority.Some?) then Err(ConflictingFees) else
      var (gasPrice, feeCap, tipCap) := Fees(args, baseFee);
      Ok(Message(
           From(args), args.to, 0, OrZero(args.value), GasFor(args, cap), gasPrice, feeCap, tipCap,
           Data(args), List(args),
           if args.blobFeeCap.Some? then args.blobFeeCap else if args.blobHashes.Some? then Some(0) else None,
           if args.blobHashes.Some? then args.blobHashes.value else [],
           true))
  }

  predicate Fits256(n: Option<nat>) {
    OrZero(n) < TWO_256
  }

  /** toTransaction. Errors are the panics of the program: a nil pointer, or a
      blob field wider than 256 bits. Other absent amounts become zero. */
  function ToTransaction(args: Args): Result<Tx> {
    if args.blobHashes.Some? then
      if args.to.None? || args.nonce.None? || args.gas.None? then Err(NilDereference)
      else if !Fits256(args.chainId) || !Fits256(args.maxFee) || !Fits256(args.maxPriority) || !Fits256(args.value)
              || !Fits256(args.blobFeeCap) then Err(OutOfRange)
      else Ok(BlobTx(args.to.value, args.nonce.value, args.gas.value, OrZero(args.maxFee), OrZero(args.maxPriority),
                     OrZero(args.value), Data(args), List(args), OrZero(args.blobFeeCap), args.blobHashes.value))
    else if args.nonce.None? || args.gas.None? then Err(NilDereference)
    else if args.maxFee.Some? then
      Ok(DynamicFeeTx(args.to, args.nonce.value, args.gas.value, args.maxFee.value, OrZero(args.maxPriority),
                      OrZero(args.value), Data(args), List(args)))
    else if args.accessList.Some? then
      Ok(AccessListTx(args.to, args.nonce.value, args.gas.value, OrZero(args.gasPrice), OrZero(args.value), Data(args),
                      args.accessList.value))
    else Ok(LegacyTx(args.to, args.nonce.value, args.gas.value, OrZero(args.gasPrice), OrZero(args.value), Data(args)))
  }

  /** core.TransactionToMessage for a transaction signed by `sender`. */
  function MessageOf(tx: Tx, sender: Address, baseFee: Option<nat>): Message {
    var (feeCap, tipCap) := if tx.LegacyTx? || tx.AccessListTx? then (tx.price, tx.price) else (tx.feeCap, tx.tipCap);
    Message(
      sender, if tx.BlobTx? then Some(tx.toAddr) else tx.to, tx.nonce, tx.value, tx.gas,
      Price(feeCap, tipCap, baseFee), feeCap, tipCap,
      tx.data, if tx.LegacyTx? then [] else tx.list,
      if tx.BlobTx? then Some(tx.blobFeeCap) else None,
      if tx.BlobTx? then tx.hashes else [],
      false)
  }

  /** A message as a call makes it: without a nonce, and not to be checked
      against the sender's account. */
  function Unchecked(m: Message): Message {
    m.(nonce := 0, skipAccountChecks := true)
  }

  // ----- what each conversion promises on its own -----

  /** The prices of a call's message: without a base fee, or with a gas price, that
      price or zero thrice. Otherwise the stated caps, and as price the fee cap, or
      base fee and tip cap together where that is less. Only both styles at once
      are refused. */
  lemma MessagePrices(args: Args, cap: Uint64, baseFee: Option<nat>)
    ensures ToMessage(args, cap, baseFee).Err? <==>
            args.gasPrice.Some? && (args.maxFee.Some? || args.maxPriority.Some?)
    ensures ToMessage(args, cap, baseFee).Ok? ==>
              var m := ToMessage(args, cap, baseFee).value;
              var feeCap := if args.maxFee.Some? then args.maxFee.value else 0;
              var tipCap := if args.maxPriority.Some? then args.maxPriority.value else 0;
              if baseFee.None? || args.gasPrice.Some? then
                && m.gasPrice == m.feeCap == m.tipCap
                && m.gasPrice == if args.gasPrice.Some? then args.gasPrice.value else 0
              else
                && m.feeCap == feeCap && m.tipCap == tipCap
                && m.gasPrice <= feeCap && m.gasPrice <= tipCap + baseFee.value
                && (m.gasPrice == feeCap || m.gasPrice == tipCap + baseFee.value)
  {
  }

  /** The same of a transaction's message. */
  lemma TransactionPrices(tx: Tx, sender: Address, baseFee: Option<nat>)
    ensures
      var m := MessageOf(tx, sender, baseFee);
      && (tx.LegacyTx? || tx.AccessListTx? ==> m.feeCap == m.tipCap == m.gasPrice == tx.price)
      && (tx.DynamicFeeTx? || tx.BlobTx? ==> m.feeCap == tx.feeCap && m.tipCap == tx.tipCap)
      && (baseFee.None? ==> m.gasPrice == m.feeCap)
      && (baseFee.Some? ==>
            && m.gasPrice <= m.feeCap && m.gasPrice <= m.tipCap + baseFee.value
            && (m.gasPrice == m.feeCap || m.gasPrice == m.tipCap + baseFee.value))
  {
  }

  /** Whom a call is from, what it carries and how much gas it gets: the stated
      sender or zero, the input before the data, and the stated gas within the cap,
      with the cap or half the 64-bit range where nothing is stated. */
  lemma MessageDefaults(args: Args, cap: Uint64, baseFee: Option<nat>)
    ensures ToMessage(args, cap, baseFee).Ok? ==>
              var m := ToMessage(args, cap, baseFee).value;
              && (args.from == Some(m.from) || (args.from.None? && forall i :: 0 <= i < 20 ==> m.from[i] == 0))
              && (args.input == Some(m.data)
                  || (args.input.None? && args.data == Some(m.data))
                  || (args.input.None? && args.data.None? && m.data == []))
              && (cap != 0 ==> m.gasLimit <= cap) && (args.gas.Some? ==> m.gasLimit <= args.gas.value)
              && (args.gas == Some(m.gasLimit)
                  || (cap != 0 && m.gasLimit == cap)
                  || (cap == 0 && args.gas.None? && m.gasLimit == 0x7FFF_FFFF_FFFF_FFFF))
  {
  }

  /** Which kind of transaction the arguments make, and when they make none. */
  lemma KindOfTransaction(args: Args)
    ensures ToTransaction(args).Ok? <==>
            && args.nonce.Some? && args.gas.Some?
            && (args.blobHashes.Some? ==>
                  && args.to.Some?
                  && Fits256(args.chainId) && Fits256(args.maxFee) && Fits256(args.maxPriority)
                  && Fits256(args.value) && Fits256(args.blobFeeCap))
    ensures ToTransaction(args).Ok? ==>
              var tx := ToTransaction(args).value;
              && (tx.BlobTx? <==> args.blobHashes.Some?)
              && (tx.DynamicFeeTx? <==> args.blobHashes.None? && args.maxFee.Some?)
              && (tx.AccessListTx? <==> args.blobHashes.None? && args.maxFee.None? && args.accessList.Some?)
              && tx.nonce == args.nonce.value && tx.gas == args.gas.value
  {
  }

  // ----- where they agree -----

  /** Where the fee fields of the arguments reach both conversions alike. */
  predicate FeesCarry(args: Args, baseFee: Option<nat>) {
    if args.gasPrice.Some? then args.blobHashes.None? || args.gasPrice.value == 0
    else if args.blobHashes.Some? || args.maxFee.Some? then
      baseFee.Some? || (OrZero(args.maxFee) == 0 && OrZero(args.maxPriority) == 0)
    else baseFee.None? || OrZero(args.maxPriority) == 0
  }

  /** The two messages never agree on the nonce check: the call's has no nonce
      and skips it, the transaction's has the stated nonce and does not. In all
      other fields they agree exactly when the transaction is signed by the stated
      sender, the gas is within the cap, a blob fee cap comes only with blob
      hashes, and the fees carry. */
  lemma ConversionsAgree(args: Args, sender: Address, cap: Uint64, baseFee: Option<nat>)
    requires ToMessage(args, cap, baseFee).Ok? && ToTransaction(args).Ok?
    ensures
      var m, t := ToMessage(args, cap, baseFee).value, MessageOf(ToTransaction(args).value, sender, baseFee);
      && (m.nonce, m.skipAccountChecks) == (0, true)
      && args.nonce.Some? && (t.nonce, t.skipAccountChecks) == (args.nonce.value, false)
      && (m == Unchecked(t) <==>
          && sender == From(args)
          && (cap == 0 || args.gas.value <= cap)
          && (args.blobHashes.Some? || args.blobFeeCap.None?)
          && FeesCarry(args, baseFee))
  {
    var m, t := ToMessage(args, cap, baseFee).value, MessageOf(ToTransaction(args).value, sender, baseFee);
    assert m.gasLimit == t.gasLimit <==> cap == 0 || args.gas.value <= cap;
    assert m.blobFeeCap == t.blobFeeCap <==> args.blobHashes.Some? || args.blobFeeCap.None?;
    assert (m.gasPrice, m.feeCap, m.tipCap) == (t.gasPrice, t.feeCap, t.tipCap) <==> FeesCarry(args, baseFee);
  }

  /** What setDefaults leaves behind on a chain with a base fee: nonce and gas,
      and one complete fee style, the 1559 one for blobs. */
  predicate Defaulted(args: Args) {
    && args.nonce.Some? && args.gas.Some?
    && (args.gasPrice.Some? <==> args.maxFee.None?) && (args.maxFee.Some? <==> args.maxPriority.Some?)
    && (args.blobHashes.Some? ==> args.to.Some? && args.maxFee.Some? && args.blobFeeCap.Some?)
    && (args.blobFeeCap.Some? ==> args.blobHashes.Some?)
    && Fits256(args.chainId) && Fits256(args.maxFee) && Fits256(args.maxPriority)
    && Fits256(args.value) && Fits256(args.blobFeeCap)
  }

  /** On those arguments, within the cap, the conversions agree for every kind
      of transaction, all-zero fees included, up to the nonce check. */
  lemma DefaultedAgree(args: Args, cap: Uint64, baseFee: nat)
    requires Defaulted(args) && (cap == 0 || args.gas.value <= cap)
    ensures ToMessage(args, cap, Some(baseFee)).Ok? && ToTransaction(args).Ok?
    ensures ToMessage(args, cap, Some(baseFee)).value
            == Unchecked(MessageOf(ToTransaction(args).value, From(args), Some(baseFee)))
  {
    ConversionsAgree(args, From(args), cap, Some(baseFee));
  }
}
