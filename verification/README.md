# EVM batch transfer dispatcher — Dafny model

This project models the core of a small Node.js tool that sends a batch of
native-asset transfers on an EVM chain from a list of private keys to one
recipient, and prints an explorer link for each confirmed transaction.

What is modelled:

- **The batch loop** of `runTransfer` (transaction.js). Index `i` runs from
  `0` to `count - 1`. It is signed with key `i mod k` and sent to the one
  endpoint read before the loop. Each transfer is awaited before the next
  starts. Whatever goes wrong inside `doTransfer` is caught and turned into
  `undefined`, and the loop carries on. A `Transaction Hash: <link> (i+1/n)`
  line is printed only when the returned hash is truthy; its link is the
  chosen chain's `explorer.tx`, a parameter of the batch. The network is an
  oracle `net: nat -> NetOutcome` (wallet failure, send failure, wait failure,
  or mined with a hash and block). The batch is recorded as an event trace of
  `Submitted`/`Settled` pairs plus the printed report lines.
- **The amount policy**. In fixed mode, one amount is parsed before the loop.
  In random mode, a fresh amount is drawn per index. The draw is an oracle
  `draw: nat -> Option<nat>` giving base units after rounding and scaling.
  `parseUnits` is outside every `try`: where it throws (`None`), the run ends
  there. A fixed amount that throws ends the run before any transfer; a
  random amount that throws at index `i` ends the batch after `i` attempts.
- **The prompt gates**. The recipient must pass `isAddress` (an abstract
  predicate). The count must be a positive integer. A fixed amount must be
  `> 0`. A range needs `min > 0` and `max > min`. Each prompt repeats until
  an answer passes. An amount-type menu answer other than "fixed" or
  "random" exits with no transfers.
- **The chain menu grid** of `displayAvailableChains`. It is a column-major
  fill of a `ceil(n/4) × 4` grid, with names padded to the longest one.
- **The Movement EVM chain module** (chains/testnet/movementEVM.js):
  - the rotating endpoint cursor (`provider`, `rotateRpcProvider`);
  - the explorer URL builders;
  - the `ticker` registry lookup with its `'Unknown'` fallback.

Modules:

- `Wrappers`: the `Option` type.
- `Search`: first match, the shape of both `Array.find` and the re-prompt loops.
- `Arith`: facts about division with a remainder.
- `Endpoints`: the cursor over a provider list.
- `Explorer`: the URL builders.
- `Registry`: `ticker`.
- `MovementEvm`: the chain's constants.
- `Signers`: the round-robin key schedule.
- `ChainTable`: the chain menu grid.
- `Dispatch`: `doTransfer` and the batch loop.
- `Session`: the gates and the whole run.
- `CountInput`: the count prompt read at the string level, for one finding.

The model keeps these behaviours of the code as written:

- An empty key list is not rejected. `PRIVATE_KEYS[i % 0]` is `undefined`, so
  `Signers.SignerFor` returns `None` and the batch still makes every attempt.
- A random amount is not promised to lie in `[min, max)`. Rounding with
  `toFixed(6)` can produce `max` itself, so the model takes the draws as given.
- `ticker` is not cached. The code looks it up again inside every
  `doTransfer`. It cannot fail the transfer, because it catches its own errors.
- The endpoint is never rotated on failure. In fact nothing in the dispatch
  path rotates it.
- An answer that passes an amount gate can still crash the run: `Number`
  accepts strings such as `"1e-3"`, `"0x1"` or `"Infinity"` that `parseUnits`
  rejects, and nothing catches that error.

## Model

| member | source | states |
|---|---|---|
| Search.FindFirst | chains/testnet/movementEVM.js:43 | `find` returns the first element satisfying the callback: the index found satisfies it and no earlier one does; `None` exactly when no element satisfies it |
| Search.FindFirstExactly | chains/testnet/movementEVM.js:43 | the result is `Some(i)` if and only if `i` is the first matching position |
| Endpoints.Init | chains/testnet/movementEVM.js:4-8 | the cursor starts at 0 over a non-empty provider list, in range |
| Endpoints.Rotate | chains/testnet/movementEVM.js:14-17 | rotation sets the cursor to `(cursor + 1) mod N`, keeps the list, stays in range, and returns what `provider()` returns afterwards |
| Endpoints.Step | chains/testnet/movementEVM.js:10-17 | each call returns the provider under the resulting cursor; `provider()` leaves the state unchanged |
| Endpoints.Run | chains/testnet/movementEVM.js:10-17 | after any sequence of calls the cursor is still in `[0, N)` over the same list, with one returned provider per call |
| Endpoints.RunMovesByRotations | chains/testnet/movementEVM.js:8-17 | after any call sequence the cursor equals the start plus the number of rotations, mod `N`; reads do not move it |
| Endpoints.RotateTimesCursor | chains/testnet/movementEVM.js:14-17 | `k` consecutive rotations move the cursor to `(cursor + k) mod N` |
| Endpoints.FullCycleReturns | chains/testnet/movementEVM.js:14-17 | any multiple of `N` rotations returns to the starting state and the starting provider |
| Endpoints.SingleEndpointRotationIsNoOp | chains/testnet/movementEVM.js:4-17 | with one endpoint, rotation changes nothing and returns that endpoint |
| Explorer.TxUrl | chains/testnet/movementEVM.js:21-27 | a transaction link is the base, then `/#/txn/`, then the hash unescaped, with no other characters |
| Explorer.AddressUrl | chains/testnet/movementEVM.js:21-30 | an account link is the base, then `/#/account/`, then the address unescaped, with no other characters |
| Explorer.TxUrlRoundTrip | chains/testnet/movementEVM.js:25-27 | stripping the base and route from a transaction link gives back exactly the hash |
| Explorer.TxUrlInjective | chains/testnet/movementEVM.js:25-27 | distinct hashes give distinct transaction links |
| Explorer.TxAndAddressUrlsDiffer | chains/testnet/movementEVM.js:24-31 | a transaction link never equals an account link over the same base |
| Registry.Ticker | chains/testnet/movementEVM.js:36-52 | the symbol of the first registry entry whose `chainId` equals the network's; `'Unknown'` when the fetch or network query failed, when no entry matches, or when the match lacks `nativeCurrency`; never an error |
| Registry.TickerIsFallbackOrMatchingSymbol | chains/testnet/movementEVM.js:43-51 | the answer is `'Unknown'` or the currency symbol of some entry with the requested chain id |
| Registry.LaterEntriesIgnored | chains/testnet/movementEVM.js:43 | entries after the first match do not change the answer |
| MovementEvm.InitialPool | chains/testnet/movementEVM.js:4-12 | at load the cursor is valid and `provider()` is the single configured RPC URL |
| MovementEvm.Tx | chains/testnet/movementEVM.js:21-27 | `explorer.tx(h)` is the Movement explorer base + `/#/txn/` + `h` |
| MovementEvm.Address | chains/testnet/movementEVM.js:21-30 | `explorer.address(a)` is the Movement explorer base + `/#/account/` + `a` |
| MovementEvm.RotationIsNoOp | chains/testnet/movementEVM.js:4-17 | with the one configured endpoint, rotating is a no-op returning that endpoint |
| MovementEvm.EveryCallReturnsTheEndpoint | chains/testnet/movementEVM.js:4-17 | whatever sequence of `provider`/`rotateRpcProvider` calls is made, each returns the one endpoint |
| MovementEvm.OutputsAreProviders | chains/testnet/movementEVM.js:10-17 | every provider handed out by any call sequence is an entry of the list |
| MovementEvm.ReportLinksUseThisExplorer | chains/testnet/movementEVM.js:21-27 | a batch whose links come from this chain's `explorer.tx` prints each confirmed hash as the Movement explorer base + `/#/txn/` + that hash |
| Signers.SignerFor | transaction.js:161 | a key is chosen exactly when the key list is non-empty, and it is one of the loaded keys |
| Signers.SignerIsModular | transaction.js:161 | with `k ≥ 1` keys, index `i` gets `keys[i mod k]`, and indices `i` and `i + k` share a key |
| Signers.FirstRoundInOrder | transaction.js:161 | the first `k` indices use the keys in list order |
| Signers.UsesCount | transaction.js:160-161 | in a batch of `n`, key position `j` signs `n div k` transfers, plus one if `j < n mod k` |
| Signers.LoadIsBalanced | transaction.js:160-161 | no key signs more than one transfer more than any other |
| ChainTable.Rows | transaction.js:38-39 | the row count is the least number of rows whose four columns hold every name |
| ChainTable.MaxLength | transaction.js:40 | the width is at least every name's length and equals some name's length |
| ChainTable.PadEnd | transaction.js:46 | `padEnd` keeps the name as a prefix and fills with spaces to the width; a name already that long is unchanged |
| ChainTable.Layout | transaction.js:38-50 | the grid has `ceil(n/4)` rows of 4 cells; cell `(r, c)` holds padded name `c·rows + r` when that index exists and `''` otherwise |
| ChainTable.FillColumn | transaction.js:44-49 | one pass down column `col` fills exactly that column's cells and advances the name index by the row count, capped at `n` |
| ChainTable.NamePlacement | transaction.js:39-50 | name `k` lands inside the grid at row `k mod rows`, column `k div rows`, padded to the maximum length |
| ChainTable.CellNameIsPlaced | transaction.js:43-50 | the name shown in a cell is the name whose placement is that cell, so each name appears once |
| ChainTable.NamesShareWidth | transaction.js:40-46 | every placed name is padded to the same width |
| Dispatch.DoTransfer | transaction.js:86-103 | `doTransfer` returns the hash exactly when the send succeeded and the one-confirmation wait gave a receipt; every caught failure gives `undefined` |
| Dispatch.RunBatch | transaction.js:160-189 | the loop runs indices in order, one submit-then-settle pair per index, each with its scheduled key, its amount and the batch endpoint; it stops at `count`, or earlier at the first index whose amount throws, and reports whether it finished; the report is the confirmed-only lines of the attempted indices, linked by the chain's `explorer.tx`, as many as confirmed transfers |
| Dispatch.StopIsUnique | transaction.js:182-189 | where the batch stops is determined by the amounts alone |
| Dispatch.FixedModeRunsToTheEnd | transaction.js:149-165 | with a fixed amount the loop always makes all `count` attempts |
| Dispatch.AttemptsAreSequential | transaction.js:160-161 | attempts run at indices below `n` in order, and each submission is followed at once by its own settlement, so no two are in flight |
| Dispatch.AttemptUsesScheduledKey | transaction.js:113-161 | each attempt is signed with `keys[i mod k]`, indices `k` apart share a key, and every attempt uses the endpoint read once before the loop |
| Dispatch.AmountPolicy | transaction.js:145-185 | fixed mode uses the same configured amount at every index; random mode uses the draw for that index |
| Dispatch.AttemptsIndependentOfOutcomes | transaction.js:94-164 | what is submitted at each index does not depend on how any transfer ends (this holds by construction of the model: the per-index inputs do not mention `net`) |
| Dispatch.ReportLinesAreConfirmed | transaction.js:162-164 | every report line has a position `i + 1 ≤ n` whose transfer returned a truthy hash, is the chain's `explorer.tx` of that hash, and carries the batch size as its total |
| Dispatch.ReportIsOrdered | transaction.js:160-164 | report positions strictly increase, so no index is reported twice |
| Dispatch.ConfirmedAreReported | transaction.js:162-164 | every index whose transfer returned a truthy hash has a report line numbered `i + 1` |
| Dispatch.ReportCount | transaction.js:162-164 | the number of report lines equals the number of confirmed (truthy-hash) transfers |
| Session.ReadConfig | transaction.js:122-193 | a run proceeds only with the first valid recipient, the first positive integer count, and the first valid answer of the chosen amount type, whose fixed amount must also parse; a fixed amount that passes the gate but fails to parse crashes the run; a menu answer other than 0/1 exits; otherwise some prompt is still repeating |
| Session.RunTransfer | transaction.js:105-198 | the batch runs exactly when the prompts yield a configuration, and the run is still prompting, has exited, or has crashed on the fixed amount otherwise; the batch uses the provider read once from the cursor, the chain's `explorer.tx`, the accepted recipient, count and amount policy; every submitted attempt uses the key `keys[i mod k]` for its index; fixed mode makes all `count` attempts, random mode stops at the first amount that throws |
| CountInput.NumberOf | transaction.js:135 | a reading `Number(answer)` defined in the model is below 2^53 and comes from an all-digit decimal string or a `0x` hexadecimal literal; other strings are outside the model |
| CountInput.Numeral | transaction.js:135 | the decimal numeral of a number is a non-empty string of decimal digits (the hexadecimal one, of hexadecimal digits) |
| CountInput.NumeralReadsBack | transaction.js:135 | reading a numeral back in its base gives the number it was written from |
| CountInput.NumberOfNumerals | transaction.js:135 | `Number` reads the decimal numeral of any `n < 2^53`, and `0x` followed by its hexadecimal numeral, as exactly `n` |
| CountInput.ParsedCountOfDecimal | transaction.js:135-136 | for a plain decimal answer, `parseInt(answer, 10)` is the value the gate checked |
| CountInput.ParsedCountOfHex | transaction.js:135-136 | for a `0x` answer that passes the gate, `parseInt(answer, 10)` is 0 |
| CountInput.HexAnswerRunsNothing | transaction.js:135-136 | the answer `0x10` passes the gate as 16, but the count used is 0 |
| CountInput.DecimalPrefixWhole | transaction.js:136 | `parseInt` reads a string of decimal digits to its end |
| CountInput.HexPrefixIsZero | transaction.js:136 | `parseInt(_, 10)` reads a `0x` literal as 0, stopping at the `x` |
| CountInput.GateAgreesWithSession | transaction.js:135 | on modelled literals, the string-level gate is exactly the session's gate on the parsed value |
| CountInput.SessionCountIsGateValue | transaction.js:133-136 | with the corrected reading, an answer that passes the gate gives the session a count equal to `Number(answer)`, at least 1; for `0x10` that is 16 |
| Session.GatesHoldBeforeAnyTransfer | transaction.js:133-176 | no transfer starts unless the recipient is valid, the count is `≥ 1`, and a positive fixed amount or a range with `min > 0` and `max > min` was accepted |

## Left out

- Prompts, console output, colours, `moment` timestamps, `loadingAnimation`, `displayHeader`, `utility` and `process.exit`: terminal I/O. Prompt answers are inputs. The rendered grid rows (`row.join('   ')`) and the "Transaction Confirmed" line are not produced.
- Choosing the network and chain (`chooseNetwork`, `chooseChain`): prompts over static configuration. The run starts from a chosen chain's cursor and its `explorer.tx`; `MovementEvm.Tx` is the one chain module modelled.
- Reading `privateKeys.json` and `dotenv`: file and environment I/O. The keys are an input sequence.
- `createWallet`, `sendTransaction`, `wait`, `getNetwork`, `parseUnits`, `formatUnits` and `isAddress`: calls into the ethers library, which is not part of this model. They become the outcome oracle `net`, the `units` field of an amount answer, the draw oracle, and an abstract `isAddress` predicate. What `createWallet` does with an `undefined` key is left to the oracle.
- The axios download of the chain registry: network I/O. The registry is an input, or `None` for a failed download.
- `Math.random`, `toFixed(6)`, and JavaScript string-to-number coercion (`isNaN`, `Number`, `Number.isInteger`, `parseInt`): floating-point and coercion semantics. The gates in `Session` are stated over parsed values (`Option<real>`, with `None` for `NaN`), and the count is the integer value the gate checked. `CountInput` reads only decimal and `0x` integer literals below 2^53. It does not cover whitespace, signs, fractions, exponents (`"1e3"` is another answer where the two readings disagree), `Infinity` or inexact large values.
- Session.ReadConfig: takes the count as the value the count gate checked, which is the corrected reading of the finding below, not the code's `parseInt(answer, 10)`. The code as written is `CountInput.ParsedCount`; the two agree on plain decimal answers (`CountInput.ParsedCountOfDecimal`).
- Session.RunTransfer: runs the batch with the count from `Session.ReadConfig`, so it too follows the corrected count reading, not `parseInt(answer, 10)`.
- Session.ReadConfig: which strings make `parseUnits` throw is left to the answer's `units` field and to the draw oracle; the model does not decide it from the text.
- Dispatch.AmountPolicy: does not claim that random amounts lie in `[min, max)`, because rounding with `toFixed(6)` can produce exactly `max`.
- Registry.Ticker: assumes every registry currency has a `symbol`. An entry with `nativeCurrency` but no `symbol` would make the source return `undefined`. The loss of precision in `Number(chainId)` above 2^53 is not modelled.
- Endpoints.Init: requires a non-empty provider list. The source's list is a one-element literal, and with an empty list `% 0` would give `NaN`.
- The async/await scheduling and the implicit global assignments of `provider`, `explorer` and `ticker`: the batch is a plain sequential loop, and the endpoint and the chain's `explorer.tx` are passed in.
- ChainTable.MaxLength: returns 0 for an empty name list, where the source's `Math.max()` is `-Infinity`. In that case the grid has no rows, so the value is never used.
- ChainTable.MaxLength: counts a name's length in characters, where JavaScript's `length` counts UTF-16 code units; the two differ for names with characters outside the Basic Multilingual Plane.
- ChainTable.PadEnd: pads to a width in characters, not UTF-16 code units, for the same reason; ASCII chain names are unaffected.

## Findings

| source | as written | input that shows it | evidently intended | confidence | as-written member | corrected member |
|---|---|---|---|---|---|---|
| transaction.js:135-136 | the count gate checks `Number(answer)`, but the count used is `parseInt(answer, 10)`, which stops at the first character that is not a decimal digit | `0x10`: the gate sees 16 (a positive integer), the count becomes 0, and the batch loop runs no transfer | the count is the number the gate checked | not executed | CountInput.ParsedCount, shown by CountInput.HexAnswerRunsNothing | CountInput.SessionCountIsGateValue: `Session.ReadConfig` takes the gate's value as the count, which `Session.RunTransfer` hands to the batch |
