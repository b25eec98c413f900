# Token-balance event handlers of the fission points indexer

This project models, in Dafny, how the indexer's mapping handlers keep a
per-block history of token balances. The source is
`src/mappings/mappingHandlers.ts`. For every chain `transfer`, `tokenfactory
mint` and `burn` event it runs one handler:

- **Attribute lookup.** The handler reads its attributes with
  `attributes.find(a => a.key === k)?.value`.
- **Early return.** It returns at once when a required attribute is
  `undefined` or empty.
- **Coin loop.** For every coin of the parsed `amount` whose denom passes the
  tracked-denom test, it does three things:
  - it saves a Transfer, Mint or Burn audit record under `${tx.hash}-${idx}`;
  - it reads the latest TokenBalance row of each (address, denom) involved,
    meaning the row of greatest block height;
  - it writes the new balance under `${height}-${address}-${denom}`.

Modules:

- **Attributes** (`attributes.dfy`): first-match attribute lookup and
  JavaScript truthiness.
- **Balances** (`balances.dfy`): the TokenBalance table as a map from
  (height, address, denom) to a balance, and the latest-balance query
  `Latest`. It also holds the facts about how a write changes it.
- **RowIds** (`rowid.dfy`): the string row id, and when it determines its
  triple.
- **Storage** (`storage.dfy`): the entity store as a class with the balance
  table and the three record tables. Its methods are `store.set`,
  `.save()` and the latest-balance query, which is proved to be a scan for
  the row of greatest height.
- **Handlers** (`handlers.dfy`): the three handlers as methods that loop
  over the coins.
  - Each is proved equal to a ghost function that states its whole effect,
    including the partial state it leaves when it throws.
  - A throw happens when it reads `.balance` of the `undefined` that the
    query returns for a pair with no row.
- **HandlerProperties** (`properties.dfy`): what each handler does to every
  latest balance, stated against reference net-change definitions. It also
  states:
  - which rows and records a handler may write;
  - that untracked coins are ignored;
  - conservation for transfers;
  - which audit record survives.
- **Block** (`block.dfy`): a block's calls replayed in order at one height.
  All writes of a block to a pair land on one row, so the deltas coalesce.
- **FirstBalance** (`firstrow.dfy`): as written, no handler ever gives a
  pair its first row. The corrected mint and burn read a missing balance as 0,
  then credit or debit it (see Findings).
- **Registry** and **TrackedDenoms** (`registry.dfy`, `findings.dfy`): the
  `TRACKED_DENOMS` list of `src/config.ts`, the `includes` test as written
  and as intended, and what the handlers do under each (see Findings).

The handlers take the tracked-denom test as a parameter `tracked`. Every
property except the ones in `TrackedDenoms` holds for any test.

What `mappingHandlers.ts` does and does not do with balances:

- It keeps no `isCurrent` flag on balance rows and accrues no points. It
  reads none of `FILTERED_ADDRESSES`, `START_BLOCK` or `POINTS_PER_BLOCK`.
- It rejects no out-of-order height. A write below a pair's top row is
  stored but stays invisible (`LatestShadowedByLaterRow`).
- It does not read a missing prior balance as 0. The query yields
  `undefined`, reading `.balance` of it throws (the `Threw` outcome), and so
  no handler ever writes a pair's first row. This contradicts the comments at
  lines 200 and 274 (see Findings).
- It checks the `denom` attribute of a transfer only for presence. The loop
  uses each coin's own denom.

## Model

| member | source | states |
|---|---|---|
| Attributes.TruthyFind | src/mappings/mappingHandlers.ts:60 | the `!value` test after the lookup is false exactly when the first attribute with the key exists and has a non-empty value, and a found value is that first attribute's value |
| Attributes.Find | src/mappings/mappingHandlers.ts:28-30 | the result is None exactly when no attribute has the key; otherwise it is the value of the first attribute with that key |
| Handlers.TransferParties | src/mappings/mappingHandlers.ts:28-67 | a transfer goes on exactly when the first `denom`, `sender`, `recipient` and `amount` attributes all exist with non-empty values; the parties are the first `sender` and `recipient` values |
| Handlers.MintRecipient | src/mappings/mappingHandlers.ts:147-168 | a mint goes on exactly when the first `amount` and `mint_to_address` attributes exist with non-empty values; the recipient is the first `mint_to_address` value |
| Handlers.BurnSender | src/mappings/mappingHandlers.ts:220-241 | a burn goes on exactly when the first `amount` and `burn_from_address` attributes exist with non-empty values; the sender is the first `burn_from_address` value |
| Balances.Latest | src/mappings/mappingHandlers.ts:95-103 | the latest-balance query: None exactly when the pair has no row; otherwise the balance of a row of greatest height for the pair |
| Balances.LatestAt | src/mappings/mappingHandlers.ts:95-103 | whenever a row of greatest height for the pair is known, the query returns its balance |
| Balances.LatestAfterWrite | src/mappings/mappingHandlers.ts:117-127 | writing a pair's row at a height no existing row exceeds makes that value the pair's latest balance, and keeps every row at or below the height |
| Balances.LatestOfOtherPair | src/mappings/mappingHandlers.ts:128-138 | a write to one (address, denom) leaves the latest balance of every other pair unchanged |
| Balances.LatestShadowedByLaterRow | src/mappings/mappingHandlers.ts:201-211 | a write below the pair's top row is stored, but the latest balance still comes from the higher row: out-of-order heights are not rejected |
| RowIds.Decimal | src/mappings/mappingHandlers.ts:119 | `blockHeight.toString()` is a non-empty string whose every character is a decimal digit (so no dash), with at least two digits from 10 up |
| RowIds.DecimalInjective | src/mappings/mappingHandlers.ts:119 | different heights give different decimal strings |
| RowIds.RowIdInjective | src/mappings/mappingHandlers.ts:119-121 | when neither address contains a dash, equal ids `${height}-${address}-${denom}` mean equal (height, address, denom) triples, so keying rows by the triple loses nothing |
| RowIds.DashedAddressCollides | src/mappings/mappingHandlers.ts:130-132 | an address with a dash lets two different triples share one row id |
| Storage.Store.LatestBalance | src/mappings/mappingHandlers.ts:95-103 | the scan returns exactly `Latest` of the current table: undefined when the pair has no row, otherwise the balance of its top row |
| Storage.Store.SetBalance | src/mappings/mappingHandlers.ts:117-127 | `store.set` inserts or overwrites the one row under its key; the other rows and all records are unchanged |
| Storage.Store.SaveTransfer | src/mappings/mappingHandlers.ts:82-92 | `.save()` inserts or overwrites the Transfer record under its id; nothing else changes |
| Storage.Store.SaveMint | src/mappings/mappingHandlers.ts:179-187 | `.save()` inserts or overwrites the Mint record under its id; nothing else changes |
| Storage.Store.SaveBurn | src/mappings/mappingHandlers.ts:253-261 | `.save()` inserts or overwrites the Burn record under its id; nothing else changes |
| Handlers.TransferOneCoin | src/mappings/mappingHandlers.ts:82-138 | for one tracked coin: save the record (amount 0), read both latest balances, then write sender and recipient rows. It throws on a missing sender row with only the record saved, and on a missing recipient row after the sender row is written |
| Handlers.HandleTransferEvent | src/mappings/mappingHandlers.ts:23-140 | the new store and the outcome are those of `TransferEvent`. A missing or empty `denom`, `sender`, `recipient` or `amount` returns without change; an empty coin list returns without change; otherwise the tracked coins are processed in order until the first throw |
| Handlers.MintOneCoin | src/mappings/mappingHandlers.ts:179-211 | for one tracked coin: save the Mint record, read the recipient's latest balance, then write the recipient row with it plus the amount; a missing row throws with only the record saved |
| Handlers.HandleMintEvent | src/mappings/mappingHandlers.ts:142-213 | the new store and the outcome are those of `MintEvent`. A missing or empty `amount` or `mint_to_address` returns without change; otherwise each tracked coin saves its record and credits the recipient's latest balance, stopping at the first missing balance |
| Handlers.BurnOneCoin | src/mappings/mappingHandlers.ts:253-285 | for one tracked coin: save the Burn record, read the sender's latest balance, then write the sender row with it minus the amount; a missing row throws with only the record saved |
| Handlers.HandleBurnEvent | src/mappings/mappingHandlers.ts:215-287 | the new store and the outcome are those of `BurnEvent`. A missing or empty `amount` or `burn_from_address` returns without change; otherwise each tracked coin saves its record and debits the sender's latest balance, stopping at the first missing balance |
| HandlerProperties.TransferCoinReadsThenWrites | src/mappings/mappingHandlers.ts:94-138 | one coin fails exactly when the sender or the recipient has no row. A missing sender leaves the balances unchanged; a missing recipient leaves only the sender's debit. On success the rows hold sender − amount and recipient + amount, or old + amount for a self-transfer |
| HandlerProperties.TransferCoinEffect | src/mappings/mappingHandlers.ts:94-138 | one coin that goes through shifts the recipient's latest balance by +amount, the sender's (another address) by −amount, and no other pair's |
| HandlerProperties.TransferCoinFrame | src/mappings/mappingHandlers.ts:117-138 | one transfer coin, on any outcome, writes only the sender's and the recipient's rows of that coin's denom at the event height, removes no row, writes only the Transfer record under the event id and leaves mint and burn records alone |
| HandlerProperties.TransferCoinsFrame | src/mappings/mappingHandlers.ts:76-139 | whatever the outcome, the loop writes only rows at the event height for the sender or the recipient whose denom is one of the loop's own tracked coin denoms, removes no row, writes only the record under the event id and leaves mint and burn records alone |
| HandlerProperties.TransferCoinsEffect | src/mappings/mappingHandlers.ts:76-139 | a loop that does not throw shifts every pair's latest balance by `TransferNet`, the tracked sum of its denom, and keeps every row at or below the event height |
| HandlerProperties.TransferSkipsUntracked | src/mappings/mappingHandlers.ts:77-80 | the loop over the coins equals the loop over only the tracked coins |
| HandlerProperties.TransferEventFrame | src/mappings/mappingHandlers.ts:23-140 | handleTransferEvent, on any outcome, writes only the sender's and the recipient's rows at its height, and only for the event's own tracked coin denoms |
| HandlerProperties.TransferEventEffect | src/mappings/mappingHandlers.ts:23-140 | handleTransferEvent, when it does not throw, shifts every latest balance by the event's net change (zero on an early return) |
| HandlerProperties.TransferConserves | src/mappings/mappingHandlers.ts:117-138 | a completed transfer between two distinct addresses leaves the sum of their latest balances of every denom unchanged |
| HandlerProperties.SelfTransferCredits | src/mappings/mappingHandlers.ts:117-138 | a transfer to oneself raises the address's latest balance by the tracked amount, because the recipient write overwrites the sender write |
| HandlerProperties.TransferRecordOfTrackedCoins | src/mappings/mappingHandlers.ts:82-92 | with only tracked coins, the loop leaves under the event id the Transfer record of the last coin, with amount 0 |
| HandlerProperties.TransferRecordOfLastCoin | src/mappings/mappingHandlers.ts:82-92 | a completed loop leaves one Transfer record per event id: the last tracked coin's, with amount 0, its denom, sender and recipient |
| HandlerProperties.MintCoinEffect | src/mappings/mappingHandlers.ts:189-211 | one coin that goes through raises the recipient's latest balance of its denom by the amount, and no other pair's |
| HandlerProperties.MintCoinsFrame | src/mappings/mappingHandlers.ts:174-212 | whatever the outcome, the loop writes only the recipient's rows at the event height whose denom is one of the loop's own tracked coin denoms, only the Mint record under the event id, and no other record |
| HandlerProperties.MintCoinsEffect | src/mappings/mappingHandlers.ts:174-212 | a loop that does not throw shifts every pair's latest balance by `MintNet` and keeps every row at or below the event height |
| HandlerProperties.MintSkipsUntracked | src/mappings/mappingHandlers.ts:174-177 | the loop over the coins equals the loop over only the tracked coins |
| HandlerProperties.MintEventFrame | src/mappings/mappingHandlers.ts:142-213 | handleMintEvent, on any outcome, writes only the recipient's rows at its height, and only for the event's own tracked coin denoms |
| HandlerProperties.MintEventEffect | src/mappings/mappingHandlers.ts:142-213 | handleMintEvent, when it does not throw, raises the recipient's latest balance of each denom by the tracked amount and changes no other pair's |
| HandlerProperties.MintRecordOfTrackedCoins | src/mappings/mappingHandlers.ts:179-187 | with only tracked coins, the loop leaves under the event id the Mint record of the last coin, with its amount |
| HandlerProperties.MintRecordOfLastCoin | src/mappings/mappingHandlers.ts:179-187 | a completed loop leaves one Mint record per event id: the last tracked coin's denom and amount |
| HandlerProperties.BurnCoinEffect | src/mappings/mappingHandlers.ts:263-285 | one coin that goes through lowers the sender's latest balance of its denom by the amount, and no other pair's |
| HandlerProperties.BurnCoinsFrame | src/mappings/mappingHandlers.ts:247-286 | whatever the outcome, the loop writes only the sender's rows at the event height whose denom is one of the loop's own tracked coin denoms, only the Burn record under the event id, and no other record |
| HandlerProperties.BurnCoinsEffect | src/mappings/mappingHandlers.ts:247-286 | a loop that does not throw shifts every pair's latest balance by `BurnNet` and keeps every row at or below the event height |
| HandlerProperties.BurnSkipsUntracked | src/mappings/mappingHandlers.ts:247-250 | the loop over the coins equals the loop over only the tracked coins |
| HandlerProperties.BurnEventFrame | src/mappings/mappingHandlers.ts:215-287 | handleBurnEvent, on any outcome, writes only the sender's rows at its height, and only for the event's own tracked coin denoms |
| HandlerProperties.BurnEventEffect | src/mappings/mappingHandlers.ts:215-287 | handleBurnEvent, when it does not throw, lowers the sender's latest balance of each denom by the tracked amount and changes no other pair's |
| HandlerProperties.BurnRecordOfTrackedCoins | src/mappings/mappingHandlers.ts:253-261 | with only tracked coins, the loop leaves under the event id the Burn record of the last coin, with its amount |
| HandlerProperties.BurnRecordOfLastCoin | src/mappings/mappingHandlers.ts:253-261 | a completed loop leaves one Burn record per event id: the last tracked coin's denom and amount |
| Block.DispatchFrame | src/mappings/mappingHandlers.ts:117-121 | any handler call, whatever its outcome, only adds or changes rows at its event's height |
| Block.DispatchEffect | src/mappings/mappingHandlers.ts:117-138 | any handler call that does not throw shifts every latest balance by its net change |
| Block.BlockWritesOnlyItsHeight | src/mappings/mappingHandlers.ts:202-204 | however a block of calls ends, rows at other heights are kept unchanged and no row is removed |
| Block.SameBlockCoalesces | src/mappings/mappingHandlers.ts:276-278 | after a block that does not throw, every pair's latest balance is the old one plus the sum of the block's deltas, and the pair gains at most the one row at the block's height |
| TrackedDenoms.TrackedAsWrittenNeverHolds | src/mappings/mappingHandlers.ts:78 | `TRACKED_DENOMS.includes(denom)` with a string denom is false for every denom, even one listed in the registry |
| TrackedDenoms.ConfiguredDenomsRejected | src/config.ts:27-82 | each of the nine configured denoms is tracked by the intended test (some entry's `denom` equals it) and rejected by `TRACKED_DENOMS.includes` under SameValueZero |
| TrackedDenoms.NothingTracked | src/mappings/mappingHandlers.ts:175 | under a test that rejects everything, no coin is processed |
| TrackedDenoms.MintAsWrittenChangesNothing | src/mappings/mappingHandlers.ts:174-177 | with the test as written, handleMintEvent leaves the store unchanged and never throws |
| TrackedDenoms.TransferAsWrittenChangesNothing | src/mappings/mappingHandlers.ts:77-80 | with the test as written, handleTransferEvent leaves the store unchanged and never throws |
| TrackedDenoms.BurnAsWrittenChangesNothing | src/mappings/mappingHandlers.ts:247-250 | with the test as written, handleBurnEvent leaves the store unchanged and never throws |
| TrackedDenoms.MintCreditsListedDenom | src/config.ts:27-82 | with the intended test, minting a coin of a listed denom to a recipient holding a row completes and credits the recipient's latest balance by the amount |
| FirstBalance.MintNeverCreatesRow | src/mappings/mappingHandlers.ts:189-211 | as written, handleMintEvent, on any outcome, leaves a pair that has no row without one |
| FirstBalance.BurnNeverCreatesRow | src/mappings/mappingHandlers.ts:263-285 | as written, handleBurnEvent, on any outcome, leaves a pair that has no row without one |
| FirstBalance.TransferNeverCreatesRow | src/mappings/mappingHandlers.ts:94-138 | as written, handleTransferEvent, on any outcome, leaves a pair that has no row without one |
| FirstBalance.FirstMintThrows | src/mappings/mappingHandlers.ts:200-209 | as written, minting a tracked coin to an address with no row of its denom throws `UndefinedBalance` |
| FirstBalance.MintCoinOrZeroEffect | src/mappings/mappingHandlers.ts:200-211 | corrected, one coin gives the recipient's pair a row and moves every balance, read as 0 when absent, by its share of the coin |
| FirstBalance.MintCoinsOrZeroEffect | src/mappings/mappingHandlers.ts:174-212 | corrected, the loop moves every balance, read as 0 when absent, by `MintNet` and keeps every row at or below the height |
| FirstBalance.MintEventOrZeroCredits | src/mappings/mappingHandlers.ts:142-213 | corrected, handleMintEvent never throws, and every balance, read as 0 when absent, rises by the tracked amount minted to it |
| FirstBalance.FirstMintCreatesRow | src/mappings/mappingHandlers.ts:200-211 | corrected, the first mint to an address creates its row holding the minted amount |
| FirstBalance.BurnCoinOrZeroEffect | src/mappings/mappingHandlers.ts:274-285 | corrected, one coin gives the sender's pair a row and lowers every balance, read as 0 when absent, by its share of the coin |
| FirstBalance.BurnCoinsOrZeroEffect | src/mappings/mappingHandlers.ts:247-286 | corrected, the loop moves every balance, read as 0 when absent, by `BurnNet` and keeps every row at or below the height |
| FirstBalance.BurnEventOrZeroDebits | src/mappings/mappingHandlers.ts:215-287 | corrected, handleBurnEvent never throws, and every balance, read as 0 when absent, falls by the tracked amount burned from it |
| FirstBalance.FirstBurnCreatesNegativeRow | src/mappings/mappingHandlers.ts:274-285 | corrected, the first burn from an address creates its row holding the negated amount |

## Left out

- `parseCoins(amount)` from `@cosmjs/proto-signing` is not part of this model. Each handler takes the coin list it would produce as a parameter. The model does not check that the list agrees with the `amount` attribute. `parseCoins` throws on a truthy but malformed `amount`, and the handler then rejects with the store unchanged; the model has no outcome for that case.
- Attribute values that are `Uint8Array` and decoded with `TextDecoder` are taken as already-decoded strings. Attribute keys are taken as strings.
- Store calls are `async` and awaited one at a time; the model runs them in sequence. Concurrency between handler invocations is not modelled.
- The `logger` calls have no effect on state and are left out.
- The `date` field of the audit records comes from the block time, which is an input. It is left out of the records.
- `BigInt` arithmetic is modelled by unbounded `int`. Coin amounts are `nat`, as `parseCoins` yields non-negative amounts.
- The remaining `config.ts` constants are not read by the handlers, nor is `src/index.ts`. These are `FILTERED_ADDRESSES`, `START_BLOCK` and `POINTS_PER_BLOCK`.
- Storage.Store.LatestBalance: models the query as a scan of the whole table, not as the database's ordered index lookup.
- Storage.Store.LatestBalance: two rows of one pair at one height cannot exist, because they would share one id.
- Balances.Latest: the store's tie-break between rows of equal height is not modelled, because the id makes such rows impossible.
- Handlers.HandleTransferEvent: the row id is keyed by the (height, address, denom) triple rather than the id string. `RowIds.RowIdInjective` shows the two agree when no address contains a dash. `RowIds.DashedAddressCollides` shows that an address with a dash could alias another pair's row, and the triple model does not capture that aliasing. Bech32 addresses contain no dash.
- Handlers.HandleMintEvent: same remark on row ids as for transfers.
- Handlers.HandleBurnEvent: same remark on row ids as for transfers.
- Record ids `${tx.hash}-${idx}` are modelled as pairs, so the same caveat applies to a hash containing a dash.
- Block.Replay: stops at each handler's own effects. What the indexing framework keeps, rolls back or retries after a handler throws is not modelled, so the model says nothing about what persists after a throw.
- The handlers are run under an abstract tracked-denom test. The exact test of the code is `TrackedAsWritten`, and its consequences are proved in `TrackedDenoms`.

## Findings

| source | as written | input that shows it | evidently intended | confidence | as-written member | corrected member |
|---|---|---|---|---|---|---|
| src/mappings/mappingHandlers.ts:78 | `TRACKED_DENOMS.includes(denom)` compares the coin's denom string with the `Token` objects of `TRACKED_DENOMS` (src/config.ts:27). Under SameValueZero a string never equals an object, so every coin is skipped, and the handlers never write a record or a balance. Since `TRACKED_DENOMS` is declared as an array of `Token`, passing a string to `includes` is also a TypeScript type error, so a type-checked build would reject these lines. The same test appears at lines 175 and 248 | a mint event whose coin has the denom of the first `TRACKED_DENOMS` entry, `factory/neutron1txq2…/P/240906/xyk/5m/wstETH/axlWETH` | test the denom against the entries' `denom` fields, e.g. `TRACKED_DENOMS.some(t => t.denom === denom)` | high, not executed | TrackedDenoms.MintAsWrittenChangesNothing | TrackedDenoms.MintCreditsListedDenom |
| src/mappings/mappingHandlers.ts:200 | the comments at lines 200 and 274 say the balance row is updated if it exists and created otherwise. But lines 209 and 283 (and 125, 136 for transfers) read `.balance` of the query result, which is `undefined` for a pair with no row, so the handler throws and no handler ever creates a pair's first TokenBalance row | with the intended tracked test, a mint of a listed denom to an address that has no TokenBalance row for that denom | read a missing balance as 0, e.g. `(recipientBalance?.balance ?? BigInt(0)) + BigInt(amount)`, and likewise `senderBalance` in the burn handler (proved as `FirstBalance.BurnEventOrZeroDebits`) | medium, not executed | FirstBalance.MintNeverCreatesRow | FirstBalance.MintEventOrZeroCredits |
