# A model of w3rpc

w3rpc simulates transactions against a live Ethereum state. It keeps a cache of
account records, fills misses from a node at its newest block, and folds every
new block's traced changes into the cache; requests for past blocks run on a
fresh cache over a fetcher pinned to that block. This project models that cache
and its update protocol, the accounting of a simulated bundle, the two
conversions of call arguments, and the keys and text codec of the fetcher, and
proves what they promise.

| file | models |
|---|---|
| `Wrappers.dfy`, `Digits.dfy`, `ByteStrings.dfy`, `Orders.dfy` | results, positional notation, bytes and 32-byte words, orders of a set |
| `Accounts.dfy`, `Gob.dfy`, `Records.dfy`, `Diffs.dfy` | account records, the record codec, the store and the folding of a block, as values |
| `BadgerKV.dfy` | the store as an object, with accounts merged in place |
| `Chain.dfy` | the chain state, what a sound trace is, what folding one in repairs |
| `ReadThrough.dfy` | the database the EVM reads through |
| `Simulation.dfy`, `PlainState.dfy` | programs run on an overlay above the cache, compared with the chain and with one plain map |
| `Flush.dfy` | the end of each transaction of a bundle, before and from Byzantium on |
| `Stream.dfy` | the poller, its channel and its consumer |
| `Protocol.dfy` | all of it as one machine under any interleaving |
| `Session.dfy` | a simulation interleaved, fetch by fetch, with the running service |
| `LiveView.dfy` | when a cache filled from one state of the chain shows another |
| `Backend.dfy` | the choice between live and pinned state |
| `Pricing.dfy`, `Bundle.dfy`, `BundleAccounting.dfy` | gas prices, the bundle loop and what its numbers add up to |
| `TransactionArgs.dfy` | call arguments to message, and to transaction to message |
| `RequestKeys.dfy`, `AccountJson.dfy` | request keys, header-hash cache, account JSON |

## How to read the model

A key is one readable item of the state: a nonce, a balance, a code or a slot.
`Stored` is what a record states about a key, `Known` what the cache answers
about it (a record without code answers "empty code"). Keccak is a parameter;
replies of the node are parameters of each call.

Hypotheses, all stated in the contracts that use them:

- Traces are sound and complete (`Chain.TxSound`): Pre values are old, Post
  values are new, everything that changed is in Post, and where code is absent
  from a Pre entry, or an address is only in Post, the code was empty before.
  This includes that no account is destroyed and that cleared slots are listed.
- When a diff is folded in no fill is between its first fetch and its write,
  and no block is skipped (`Protocol.QuietAndNext`).
- The chain does not reorganise: a mined block extends the history.
- `ProcessState` commits, and a Badger update is atomic.
- `encoding/gob` omits zero values: an integer 0 behind a non-nil reference and
  empty code come back absent; a zero `big.Int` and an empty map survive.

What the proofs found out about the code:

- An account with nonce 0 is never a cache hit: the codec drops the zero, so
  every read fetches it again (`ReadThrough.SecondRead` says that this is the only
  case in which later replies can change the answer), and each such fill
  replaces the record and forgets its slots (`ReadThrough.AccountFillKnown`).
- The code fill of `db.ContractCode` runs only when there is no record, and then
  there is nothing to put the code into: it writes only if another thread filled
  the record while the code was fetched (`ReadThrough.FillsCreateNothing`, and
  `Protocol.CommittedKnown` for the interleaved case).
- A bundle for a block before Byzantium never completes: computing the root after
  its first transaction always reaches a trie method that panics
  (`Flush.BundlesNeedByzantium`). Before it does, it may write words of the
  overlay into the shared cache. In every order of Go's map walks that is harmless
  exactly when no cached, undeleted account was left with a word that is neither
  zero, which panics unwritten, nor the chain's own (`Flush.EndTransactionAgrees`,
  with an input on which it fails in `Flush.SpoiledCache`).
- A request on the live cache sees the state of its header exactly when the cache
  shows that block: what it answers without a fetch is the block's, and what it
  would still fetch did not change between the block and the newest one
  (`Backend.HeaderMatchesState`). Every start has a run after which this fails at
  the head (`Backend.HeadOvertaken`).
- A gap in the delivered blocks is harmless exactly when the cache was already
  right on every key the next block does not mention (`Chain.RepairIsExact`).
- Before London, but with a base fee given, `ethSentToCoinbase` counts the base
  fee as if execution had sent it (`BundleAccounting.SentIsNet`, with an input in
  `BundleAccounting.BaseFeeCountsAsSent`).
- The two conversions never agree on the nonce and on whether the sender's account
  is checked, and without a base fee they differ in their prices as soon as
  EIP-1559 fees are set (`TransactionArgs.ConversionsAgree`).
- A header key equals some account or storage key exactly for block numbers of
  20 or 52 digits (`RequestKeys.HeaderKeyCollides`), and the header-hash cache
  answers a number with the hash of the first one that has the same low 64 bits
  (`RequestKeys.AnswersAreTheFirst`).

## Model

| member | source | states |
|---|---|---|
| ByteStrings.ToHashIsFixed | w3backend/kv.go:185-207 | the 32-byte form of a byte string is the low 256 bits of its big-endian number |
| ByteStrings.SameWord | w3backend/kv.go:185-207 | two storage keys name the same slot exactly when they are congruent as big-endian numbers modulo 2^256 |
| Accounts.MergeField | w3backend/kv.go:49-63 | merging takes each field and slot from the new record where it has it, else from the old one |
| Gob.RoundTrip | w3backend/kv.go:122-139 | reading back a written record gives its normal form: zero nonce and empty code absent, storage never nil |
| Gob.NormalForm | w3backend/kv.go:95-139 | the normal form is idempotent, changes no balance, slot or code hash, and two accounts share a record exactly when they share it |
| Records.EncodedIsWellFormed | w3backend/kv.go:122-130 | a written record reads back, with a non-nil map, and rewrites to itself |
| Records.PutSlotStored | w3backend/kv.go:192-216 | a slot write changes exactly the slot with the key's 32-byte form, of an existing record, and no other key |
| Records.ReadAfterWrite | w3backend/kv.go:180-216 | a later read returns the 32-byte form of the value exactly for keys with the same 32-byte form, for byte strings of any length |
| Records.PutCodeStored | w3backend/kv.go:229-253 | a code write changes only the code of an existing record, empty code becoming absent |
| Records.SameStore | w3backend/kv.go:155-178 | a store is determined by its addresses and by what it says about each key |
| Diffs.ApplyDiffStored | w3backend/kv.go:68-81 | one map of a trace overwrites exactly the keys it mentions, up to the normal form |
| Diffs.LastWriterWins | w3backend/kv.go:65-86 | a store is the result of ProcessState if and only if its addresses are the old ones and the traced ones and every key holds its last mention in tx1.Pre, tx1.Post, tx2.Pre, …, else its old value |
| Diffs.ProcessConcat | w3backend/kv.go:65-86 | processing a concatenation of traces equals processing them one after another |
| Diffs.WalkIsApply | w3backend/kv.go:68-74 | walking a map in any order of its keys leaves the order-free result |
| Diffs.OrderDoesNotMatter | w3backend/kv.go:67-82 | every choice of an order for every map of the block leaves the same store |
| Diffs.ReachableRecords | w3backend/kv.go:49-253 | after any sequence of store operations every record reads back in normal form with a map that is not nil |
| BadgerKV.MergeAccount | w3backend/kv.go:49-63 | the in-place merge gives the merged value and writes only the old account and its map |
| BadgerKV.BadgerKV.ProcessState | w3backend/kv.go:65-86 | the loops over freely ordered maps leave the specified store, keep it well formed, and leave the trace as it was |
| BadgerKV.BadgerKV.TxGetAccount | w3backend/kv.go:142-153 | a record is decoded into fresh objects |
| BadgerKV.BadgerKV.TxUpdateAccount | w3backend/kv.go:164-171 | the account is encoded under its address |
| BadgerKV.BadgerKV.GetAccount | w3backend/kv.go:155-162 | the record, or the error that there is none |
| BadgerKV.BadgerKV.UpdateAccount | w3backend/kv.go:173-178 | the record is replaced |
| BadgerKV.BadgerKV.GetStorage | w3backend/kv.go:180-190 | the word of the canonical key, or an error when record or slot is missing |
| BadgerKV.BadgerKV.UpdateStorage | w3backend/kv.go:192-216 | writes one canonical slot, fails without a record, never meets a nil map |
| BadgerKV.BadgerKV.ContractCode | w3backend/kv.go:218-227 | nil code of a record reads as empty code, without an error |
| BadgerKV.BadgerKV.UpdateContractCode | w3backend/kv.go:229-253 | writes the code, fails without a record |
| Chain.TxRepair | w3backend/kv.go:67-82 | after a sound transaction trace the keys it touches are right, the others and their chain values are as before |
| Chain.BlockRepair | w3backend/kv.go:65-86 | from any cache contents, after a sound block every key it mentions that is known is right and every other key is as it was |
| Chain.RepairIsExact | w3backend/kv.go:65-86 | the cache then agrees with the chain exactly when it already did on every key the block does not mention |
| Chain.BalanceTraceIsSound | fetcher/util.go:174-191 | the hypothesis on traces holds of the trace of a changed balance |
| ReadThrough.DB.GetAccount | w3backend/db.go:100-149 | hit on known nonce and balance; otherwise three fetches, their errors in order, and a full replacement of the record |
| ReadThrough.DB.ContractCode | w3backend/db.go:46-61 | cached code, else fetched code, with "not found" for a failed fetch |
| ReadThrough.DB.ContractCodeSize | w3backend/db.go:63-69 | the length of that code, or its error |
| ReadThrough.DB.GetStorage | w3backend/db.go:81-98 | the cached word, else the fetched one, which is written back |
| ReadThrough.DB.UpdateStorage | w3backend/db.go:151-153 | trie writes reach the shared store |
| ReadThrough.AccountReadIs | w3backend/db.go:100-149 | known numbers are answered and nothing changes; otherwise the first failing fetch is the answer and nothing changes, or the replies are the answer and become what is known of the account, key by key |
| ReadThrough.CodeReadIs | w3backend/db.go:46-61 | known code is answered, else the reply, or "not found" when it failed; nothing changes |
| ReadThrough.SlotReadIs | w3backend/db.go:81-98 | a known word is answered and nothing changes; otherwise a failed fetch is the answer and nothing changes, or the reply is the answer and becomes known in an existing record |
| ReadThrough.AccountFillKnown | w3backend/db.go:137-142 | what the cache answers about every key after an account fill: slots forgotten, zero nonce unknown |
| ReadThrough.SlotFillKnown | w3backend/db.go:91-97 | a slot fill makes exactly that slot of an existing record known |
| ReadThrough.SlotReadKnown | w3backend/db.go:81-98 | a successful slot read leaves its answer in an existing record and every other key as it was |
| ReadThrough.FillsCreateNothing | w3backend/db.go:46-98 | code and slot fills create no record, and the code fill never writes |
| ReadThrough.AccountReadDomain | w3backend/db.go:100-149 | an account read adds at most its own record and keeps the store well formed |
| ReadThrough.ReadLeaves | w3backend/db.go:100-149 | a successful account read leaves its balance and code known, and its nonce unless that is zero |
| ReadThrough.SecondRead | w3backend/db.go:108-142 | a second read with the same reply repeats the first and changes nothing more; it does so under every other reply if and only if the nonce is not zero |
| ReadThrough.ReadAccountRefines | w3backend/db.go:100-149 | with the chain standing still hit and miss both answer the chain's nonce, balance and code hash and keep the cache right |
| ReadThrough.ReadCodeRefines | w3backend/db.go:46-61 | likewise for code |
| ReadThrough.ReadSlotRefines | w3backend/db.go:81-98 | likewise for storage |
| Simulation.SimulationRefines | bundleapi/api.go:47-56 | any deterministic program of reads and overlay writes, for any number of steps, sees on an agreeing cache what it sees on the chain, and leaves the cache agreeing |
| PlainState.SimulationIsPlain | bundleapi/api.go:47-56 | every program is answered as on one plain map of values that starts as the chain's: it reads what it last wrote, and else the chain's value |
| Simulation.SimulationOnlyFills | bundleapi/api.go:58-62 | and changes the cache by fills only: no record lost, hits stay hits, changed keys take the chain's value, and only slots of refetched records are forgotten |
| Flush.EndTransactionAgrees | w3backend/db.go:151-167 | over all orders of the flush the cache stays right after a transaction exactly from Byzantium on, or when every non-zero word left pending for a cached, undeleted account is the chain's |
| Flush.SimulationEndAgrees | bundleapi/api.go:58-64 | the same for what any program leaves on an agreeing cache; and no order yields a receipt before Byzantium |
| Flush.StoringSpoils | w3backend/db.go:151-167 | a program that stores one new word in a cached account spoils the cache and panics in `Hash`, unless the word is zero: then it panics in `DeleteStorage` and the cache stays right |
| Flush.SpoiledCache | w3backend/db.go:151-153 | one input on which a transaction before Byzantium leaves the cache wrong |
| Flush.BundlesNeedByzantium | bundleapi/api.go:58-64 | a bundle completes exactly from Byzantium on; before, its first transaction gets no receipt whatever it does and in whatever order it is flushed |
| Flush.BundlesRefine | bundleapi/api.go:220-275 | from Byzantium on every transaction of every bundle sees the chain through one shared overlay, and the cache changes by fills only |
| Flush.BundlesArePlain | bundleapi/api.go:220-275 | the transactions of a bundle are answered as on one plain map, which each finds as the one before left it |
| Session.AnswersAreRecent | w3backend/db.go:46-149 | over every interleaving with mining, delivery, other threads and failing fetches, everything the program is given is, component by component, the value after some block between the synced one and the newest at that moment |
| Session.LiveSimulation | bundleapi/api.go:169-275 | on a drained live cache the program sees the newest chain state at every step while its fetches are interleaved with the service, as long as no block is mined and no fetch fails |
| Session.HitsAndFillsAreReads | w3backend/db.go:46-149 | hits and committed fills are together the reads of the database |
| Stream.Poller.GetLatestState | fetcher/rpc.go:78-96 | a newer traced block is returned and becomes the head; an error is returned, and nothing newer is nothing, with the head left alone |
| Stream.FailedTraceIsRetried | fetcher/rpc.go:78-96 | any number of polls that fail or find nothing newer leave the stream as it was, and the next poll that finds and traces a block above the head emits it |
| Stream.NextSafe | fetcher/rpc.go:98-119 | every event keeps the numbers strictly increasing and the delivered ones a prefix of the emitted ones |
| Stream.SafeBounds | main.go:36-50 | head at most blockHead, at most two updates in flight, and these above all that was delivered |
| Stream.StreamSafety | fetcher/rpc.go:78-119 | over every run and between any two of its points: order, prefixes, and heads that never decrease |
| Stream.Deliverable | fetcher/rpc.go:98-119 | from every reachable state at most five events without a poll deliver all that was emitted, in order |
| Protocol.ApplyRecent | main.go:36-50 | folding in the next block raises the staleness bound of every key by one block |
| Protocol.CommittedKnown | w3backend/db.go:81-149 | a fill makes known what it fetched, field by field, and nothing else |
| Protocol.NextKeeps | main.go:36-50 | every event of the machine keeps the invariant |
| Protocol.BoundedStaleness | w3backend/db.go:81-149 | after any run what the cache knows is a value the key had after some block from the delivered one to the newest; a drained cache agrees with the newest state |
| Protocol.RunForward | fetcher/rpc.go:78-96 | between any two points of a run the chain is only extended and the delivered block only moves forward |
| Protocol.AccountFillIsRead | w3backend/db.go:116-142 | an account fill that nothing interrupts leaves the store as the read of the database does |
| Protocol.SlotFillIsRead | w3backend/db.go:91-97 | likewise for a slot |
| Protocol.CodeFillIsRead | w3backend/db.go:55-60 | likewise for code |
| LiveView.LooksExactly | w3backend/db.go:46-149 | a cache filled from one state looks like another to every program for any number of steps if and only if, key by key, what it answers is the other's and what it would fetch is the same in both |
| Backend.W3Backend.SetHead | w3backend/backend.go:95-97 | the head is the given block |
| Backend.W3Backend.BlockByNumber | w3backend/backend.go:107-118 | the head for "latest" and for a number that is the head's as a uint64, else the node's reply; all tags included |
| Backend.W3Backend.StateAtBlock | w3backend/backend.go:160-173 | live cache exactly when there is a head not above the block, else state pinned to the block |
| Backend.W3Backend.StateAndHeaderByNumberOrHash | w3backend/backend.go:186-207 | header and state view of the resolved block, or its error |
| Backend.Deliver | main.go:40-46 | one delivered update: the diff is folded in and the head moved |
| Backend.HeadAnswersForItself | w3backend/backend.go:107-118 | the head answers "latest" and its own number modulo 2^64; every other number, tag and hash gets the node's reply, error or not |
| Backend.ResolvesToNamedBlock | w3backend/backend.go:100-118 | every request but "pending" resolves to a block of the chain, and to the one it names by number, hash, "latest", or the tag as the node understands it |
| Backend.ViewMatches | w3backend/backend.go:160-173 | in every reachable state and for every block a pinned view matches it, and a live one exactly when the cache shows it |
| Backend.HeaderMatchesState | w3backend/backend.go:160-207 | after any run, even if the head moves between resolving the block and choosing the state, every program sees the chain state after the returned header's block if and only if there is no head, the block is below it, or the cache shows the block, as a cache drained at it does |
| Backend.HeadOvertaken | w3backend/backend.go:160-173 | every start has a run after which a request at the head matches the newest block and not its header's |
| Bundle.ApplyTransaction | bundleapi/api.go:47-90 | state, pool and meter after a transaction, also one refused before or after its gas was bought, and its receipt: status, gas, hash and the created contract |
| Bundle.CallBundle | bundleapi/api.go:132-289 | argument checks, the block's coinbase and base fee, then the report of the specified loop or the error that ended it |
| Bundle.OverridesWin | bundleapi/api.go:179-196 | a given coinbase or base fee wins; the defaults are the parent's coinbase and, from London on, the implied base fee |
| Bundle.AppliedExactly | bundleapi/api.go:52-56 | a message is applied if and only if it is acceptable, its gas can be bought and suffices |
| Bundle.RefusedLeaves | bundleapi/api.go:52-56 | a refused message changes nothing, or exactly the price of its gas limit and the pool when its gas was bought |
| Bundle.IterateEnds | bundleapi/api.go:220-273 | every reason that ends the loop, in order of precedence, and that there is no other |
| Bundle.ToInt64Wraps | bundleapi/api.go:250-283 | gas enters the big integers as its low 64 bits, signed |
| Bundle.IterateGas | bundleapi/api.go:229-249 | an iteration keeps pool + total = 2^64 - 1; wherever it ends, header and total are equal and grow by the gas used or not at all, as plain integers |
| Bundle.GasNeverWraps | bundleapi/api.go:211-249 | for every bundle and every point where it stops header and total are equal, and the plain sum of the completed transactions' gas, or that and the gas of the one that stopped it |
| Bundle.ReportFollowsBundle | bundleapi/api.go:234-287 | the report's results name the bundle's transactions in order with what their executions returned or reverted with, and its hash is that of all transaction hashes in order |
| BundleAccounting.AppliedBalance | bundleapi/api.go:52-56 | every account's balance after a message: net transfers, minus gas at the message price for the sender, plus the tip for the coinbase |
| BundleAccounting.PriceIsTheLesser | bundleapi/api.go:92-101 | the price of gas is the lesser of fee cap and base fee plus tip cap |
| BundleAccounting.TipIsTheLesser | bundleapi/api.go:250 | the effective tip is the lesser of tip cap and fee cap minus base fee, the tip cap without a base fee, and none below it |
| BundleAccounting.PriceSplits | bundleapi/api.go:92-101 | gas at the message price is gas at the base fee plus gas at the effective tip |
| BundleAccounting.OnlyTheBaseFeeIsBurned | bundleapi/api.go:52-56 | a message destroys exactly the base fee of the gas it used under London rules, and nothing otherwise |
| BundleAccounting.SumsTelescope | bundleapi/api.go:226-274 | at every completed prefix the per-transaction numbers sum to the running totals |
| BundleAccounting.ReportAddsUp | bundleapi/api.go:277-285 | the report's totals are the sums over its transactions |
| BundleAccounting.BundlePriceIsQuotient | bundleapi/api.go:279-283 | bundleGasPrice times the gas is at most coinbaseDiff and less than one unit per gas below it; there is none exactly when the gas is zero modulo 2^64 |
| BundleAccounting.TransactionPrices | bundleapi/api.go:250-272 | gasFees is the gas at the lesser of tip cap and fee cap minus base fee, and gasPrice the quotient of coinbaseDiff, for every completed transaction |
| BundleAccounting.SentIsNet | bundleapi/api.go:250-271 | gas cost is burned base fee plus gasFees, and ethSentToCoinbase is what execution moved to the coinbase exactly under London rules or when no base fee was due |
| BundleAccounting.BaseFeeCountsAsSent | bundleapi/api.go:250-271 | one transaction before London that sends the coinbase nothing is reported to have sent it 21000 |
| BundleAccounting.BundleSentIsNet | bundleapi/api.go:279-282 | the same for a whole bundle |
| BundleAccounting.BundlePriceIsMediant | bundleapi/api.go:272-283 | bundleGasPrice lies between the smallest and the largest per-transaction gasPrice |
| TransactionArgs.ConversionsAgree | bundleapi/transaction_args.go:60-229 | the messages differ in nonce and account check; in sender, recipient, value, gas limit, prices, data, access list and blob fields they agree if and only if sender, gas cap, blob fee cap and fees meet the stated conditions |
| TransactionArgs.DefaultedAgree | bundleapi/transaction_args.go:81-228 | on defaulted arguments within the cap and with a base fee they agree in those fields for all four kinds, all-zero fees included |
| TransactionArgs.MessagePrices | bundleapi/transaction_args.go:83-136 | only both fee styles at once are refused; the price is the lesser of fee cap and base fee plus tip cap, or the stated gas price |
| TransactionArgs.TransactionPrices | bundleapi/api.go:93 | the same of the message of every kind of transaction |
| TransactionArgs.MessageDefaults | bundleapi/transaction_args.go:60-103 | sender or zero, input before data, and the stated gas within the cap or the defaults |
| TransactionArgs.KindOfTransaction | bundleapi/transaction_args.go:170-228 | which arguments make which kind of transaction, and which make none |
| RequestKeys.KeysNeverCollide | fetcher/rpc.go:161-210 | below block 10^19 no two different requests share a key |
| RequestKeys.HeaderKeyCollides | fetcher/rpc.go:209-210 | a header key is some account or storage key exactly for 20- or 52-digit numbers |
| RequestKeys.SlotSurvives | fetcher/rpc.go:149-197 | the slot asked of the node and put in the key is the slot the caller named |
| RequestKeys.HeaderHashes.FetchHeaderHash | fetcher/rpc.go:209-240 | cached by the low 64 bits, filled only by a successful fetch |
| RequestKeys.AnswersAreTheFirst | fetcher/rpc.go:209-240 | over every run of requests an answer is the hash of the first number with the same low 64 bits that reached the node, and an error when there is none |
| RequestKeys.AnswersAreRight | fetcher/rpc.go:209-240 | over every run of requests below 2^64 an answer is the hash of the requested block |
| RequestKeys.AnswersAreKept | fetcher/rpc.go:213-233 | a hash once answered is answered again without the node |
| RequestKeys.HighNumbersAlias | fetcher/rpc.go:211-218 | after any run that reached a number with the same low 64 bits, a number is answered with the first such number's hash, and rightly if and only if the two hashes are equal |
| AccountJson.MarshalJSON | fetcher/rpc.go:264-275 | the document names every slot once with its word, in some order, and omits an empty map |
| AccountJson.AccountRef.UnmarshalJSON | fetcher/rpc.go:277-291 | the receiver takes the decoded account, missing fields and empty texts as zero values, or is left alone on an error |
| AccountJson.QuantityRoundTrip | fetcher/rpc.go:257-275 | a quantity of at most the allowed digits parses back to itself |
| AccountJson.QuantityExact | fetcher/rpc.go:277-291 | a text reads as a number if and only if it is the number's text, but for the case of letters, and fits |
| AccountJson.NumbersExact | fetcher/rpc.go:277-291 | the same of the 64-bit and the 256-bit reader, within their ranges |
| AccountJson.DataExact | fetcher/rpc.go:277-291 | likewise for bytes, and the empty text |
| AccountJson.MissingIsZero | fetcher/rpc.go:277-291 | missing and empty numbers read like zero, missing code is nil and empty code empty; what is not a text is refused |
| AccountJson.LastPairCounts | fetcher/rpc.go:286-289 | storage is read if and only if every pair is, and of names that read alike the last counts |
| AccountJson.QuantityInjective | fetcher/rpc.go:264-268 | no two slots print alike |
| AccountJson.AccountRoundTrip | fetcher/rpc.go:257-291 | every account survives, nil code as empty code and absent storage as the empty map |

## Left out

- Protocol.BoundedStaleness: holds under the hypotheses above; runs with skipped blocks, with a diff folded in during a fill, or with a reorganising chain are covered only by `Chain.BlockRepair` and `Chain.RepairIsExact`.
- Backend.HeaderMatchesState: the live view is compared at one moment; what a simulation sees while blocks are mined under it is bounded by `Session.AnswersAreRecent`.
- Backend.ResolvesToNamedBlock: says nothing of "pending", whose block is not one of the chain; which block is "safe" or "finalized" is the node's choice, an input.
- Session.LiveSimulation: holds while no block is mined; a block mined during a simulation may show through in what is fetched afterwards, within the bounds of `Session.AnswersAreRecent`.
- Flush.EndTransactionAgrees: follows `IntermediateRoot` and `updateTrie` of go-ethereum 1.13.8, which are not part of the repository; which accounts an execution deleted is an input, and a change undone by a revert counts as pending.
- Simulation.SimulationRefines: programs are any deterministic strategies over account, code, code-size and storage items, each read and written on its own; opcode semantics are not modelled.
- Bundle.ApplyTransaction: `core.ApplyMessage` is an abstract ledger step (buy gas, arbitrary transfers, refund, tip, burn); receipts have no logs and no bloom, and the root of a block before Byzantium is left to `Flush.EndTransaction`.
- Bundle.CallBundle: decoding of the transactions is left out, and so are gas limit, timestamp and difficulty of the block, which only the execution reads; the parent's implied base fee is an input; a timeout is only a possible stop between transactions.
- Gob.RoundTrip: records are maps from field numbers to values, not gob bytes.
- AccountJson.AccountRef.UnmarshalJSON: documents are taken as parsed into named values; JSON syntax and repeated fields are left out.
- The sharing of one in-flight request between callers is not modelled beyond its keys; a shared reply falls under the hypothesis on fills.
- `EstimateGasBundle`, which needs the unimplemented copy of a trie; only its conversion of arguments is modelled.
- `setDefaults`, which the transaction conversion relies on, is not part of the repository; `TransactionArgs.Defaulted` states what it must leave behind.
- Header lookups that only forward to the node (`HeaderByNumber`, `HeaderByHash`, `GetHeader`).
- `mergeState`, which nothing calls, and everything that only panics.
- The node client, Badger, HTTP, logging, request factories and wire structs.
