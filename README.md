# SecretSwap swap page and token selector, in Dafny

This project models the swap page of the Ethereum bridge frontend
(`src/pages/Swap/SwapTab.tsx`) and the token selector of the exchange page
(`src/pages/Exchange/ERC20Select.tsx`), and proves what they promise.

The swap page is a React component. Its state and the per-symbol height
cache become the fields of the class `SwapPage.SwapTab`. Each handler is a
method that states its whole new state as a function of the old one, and
the properties are proved about those functions:

- `Catalog`: the `reduce` over the factory's pairs in `componentDidMount`. It
  builds `tokens` (symbol to display data, first seen wins, any native asset
  listed as `SCRT`) and `pairFromSymbol` (the pair under `a/b` and `b/a`).
- `EventSync`: `ws.onmessage`. This covers the height filter per symbol, the
  viewing-key retry, the user balance and the pool reserves, and the single
  merge into `balances`, followed by `updateInputs`.
- `ViewingKeys`: the bounded retry loop of `getSecret20ViewingKey`.
- `Subscriptions`: `ws.onopen`, the list of `(id, query)` subscriptions sent,
  with pairs de-duplicated by value.
- `Quotes`: the quote state machine (amount setters, flip arrow, token
  pickers, `updateInputs`), the button message and the end of a swap.
- `ERC20Select`: `selectTokenText`, the option list (slice, sort, map) and the
  `onChange` lookup.
- `JsNumbers`, `Text`, `JsObject`: JavaScript numbers with NaN and the
  infinities, the string operations used (`split`, template keys,
  `startsWith`, `includes`, `toLowerCase`), and objects whose key order is
  insertion order.

Chain, wallet and pricing calls are parameters of the model:

- `Quotes.Env` holds `Number`, `fromToNumberFormat.format`, `compute_swap`
  and `compute_offer_amount`.
- `EventSync.Io` holds the wallet's viewing-key answers and `getBalance`.
- `componentDidMount` receives the factory's pairs, the `token_info` answers
  and the preloaded token list as arguments.

The balance synchronizer and the catalog, as written, behave as follows:

- A height that is not a number is logged, but the event is not dropped. A
  NaN height is never stale, so it is accepted and written into the cache.
  A later lower height then passes the filter
  (`EventSync.NaNHeightAccepted`, `EventSync.NaNHeightLowersCache`).
- Heights are cached per symbol, not per balance key. The first stale symbol
  of an event ends the handler for the rest of that event's symbols.
- Balances are merged without any height check of their own.
- Pair keys are built as `a/b` from token symbols, so a symbol that itself
  contains `/` can make two different pairs write the same key. The symmetry
  of `pairFromSymbol` is proved only when no symbol contains `/`, and
  `Catalog.SlashInSymbolBreaksSymmetry` shows that the key `a/b` and the key
  `b/a` can then map to different pairs.

## Model

| member | source | states |
|---|---|---|
| JsNumbers.Div | src/pages/Swap/SwapTab.tsx:458 | a quotient of finite numbers with a non-zero divisor is the real quotient; any NaN operand gives NaN |
| JsNumbers.Lt | src/pages/Swap/SwapTab.tsx:206 | definition: JavaScript `<` on numbers, false whenever NaN is involved |
| JsNumbers.Le | src/pages/Swap/SwapTab.tsx:509 | definition: JavaScript `<=`, `<` or equal and not NaN |
| JsNumbers.LtIsStrictOrder | src/pages/Swap/SwapTab.tsx:206 | `<` is irreflexive, asymmetric and transitive, and every comparison involving NaN is false |
| JsNumbers.LeTotal | src/pages/Swap/SwapTab.tsx:509 | on non-NaN numbers `a <= b` holds exactly when `b < a` does not |
| JsObject.Dict.Put | src/pages/Swap/SwapTab.tsx:170-171 | assignment sets the value; a new key is appended to the key order, an existing key keeps its place; keys stay listed once |
| JsObject.Empty | src/pages/Swap/SwapTab.tsx:125 | the literal `{}`: a well-formed object with no keys |
| Text.Split | src/pages/Swap/SwapTab.tsx:189 | `split` yields at least one part, and a string without the separator yields itself alone |
| Text.SplitAtFirst | src/pages/Swap/SwapTab.tsx:189 | splitting `a/b…` when `a` has no slash gives `a` followed by the split of the rest |
| Text.SplitPairKey | src/pages/Swap/SwapTab.tsx:277 | splitting the key `a/b` of two slash-free symbols gives exactly `[a, b]` |
| Text.PairKeyInjective | src/pages/Swap/SwapTab.tsx:170-171 | two pair keys of slash-free symbols are equal only when both symbols are equal |
| Text.InvertedPairKey | src/pages/Swap/SwapTab.tsx:277-278 | inverting the key `a/b` gives `b/a` |
| Text.StartsWithPairKey | src/pages/Swap/SwapTab.tsx:254-256 | the key `a/b` starts with `a/` |
| Text.PairKeyPrefix | src/pages/Swap/SwapTab.tsx:254-256 | a key `a/b` of slash-free symbols starts with `s/` only when `s` is `a` |
| Text.PairKey | src/pages/Swap/SwapTab.tsx:170-171 | definition: the template key `${a}/${b}` |
| Text.Inverted | src/pages/Swap/SwapTab.tsx:277-278 | definition: `${b}/${a}` from `const [a, b] = key.split('/')`, where a missing second part reads as "undefined" |
| Text.StartsWith | src/pages/Swap/SwapTab.tsx:254-256 | definition: `startsWith`, the string begins with the prefix |
| Text.Includes | src/pages/Exchange/ERC20Select.tsx:54 | definition: `includes`, the string occurs at some position |
| Text.LowerAscii | src/pages/Exchange/ERC20Select.tsx:54 | lower-casing keeps the length, maps every upper-case ASCII letter to its lower-case letter (code + 32), and keeps every other character |
| ViewingKeys.ResolveViewingKey | src/pages/Swap/SwapTab.tsx:229-242 | the loop makes between 1 and 3 attempts; a non-empty key is the last attempt's answer, and every earlier attempt failed |
| ViewingKeys.KeyFound | src/pages/Swap/SwapTab.tsx:229-242 | the retry returns a key exactly when some remaining attempt gives one, stops at the first such attempt, and makes at most 3 attempts |
| ViewingKeys.ThreeFailures | src/pages/Swap/SwapTab.tsx:238-240 | three failed attempts leave the key empty after exactly 3 tries |
| ViewingKeys.SucceedsOnThirdTry | src/pages/Swap/SwapTab.tsx:229-242 | two failures then a key give that key after 3 tries |
| ViewingKeys.KeyOf | src/pages/Swap/SwapTab.tsx:232-237 | definition: the value `viewingKey` holds after an attempt; a throw leaves the earlier, always falsy, value, written as "" |
| ViewingKeys.KeyFrom | src/pages/Swap/SwapTab.tsx:229-242 | definition: from attempt `i` on, the first non-empty key, or the third attempt's value |
| ViewingKeys.TriesFrom | src/pages/Swap/SwapTab.tsx:229-242 | definition: the value of `tries` when the loop breaks, counting from attempt `i` |
| ViewingKeys.ViewingKey | src/pages/Swap/SwapTab.tsx:229-242 | definition: the key the loop ends with, from the first attempt |
| ViewingKeys.Tries | src/pages/Swap/SwapTab.tsx:229-242 | definition: the number of attempts the loop makes |
| Catalog.BuildCatalog | src/pages/Swap/SwapTab.tsx:125-176 | the loop builds exactly the catalog of the `reduce` over the factory's pairs; both objects list each key once; every pair is findable under both orientations |
| Catalog.EmptyCatalog | src/pages/Swap/SwapTab.tsx:125-176 | definition: the reduce starts from `{}` for `tokens` and for `pairFromSymbol` |
| Catalog.SymbolOf | src/pages/Swap/SwapTab.tsx:141-157 | definition: a native asset is `SCRT`; a token is the symbol of its `token_info` answer |
| Catalog.DisplayOf | src/pages/Swap/SwapTab.tsx:157-165 | definition: the display data of a token: its symbol and decimals, the preloaded logo or `/unknown.png`, its contract address and code hash |
| Catalog.RegisterAsset | src/pages/Swap/SwapTab.tsx:141-167 | definition: a native asset always writes the preloaded SCRT entry; a token symbol not yet listed is added with its display data; a listed one is left as it is |
| Catalog.RegisterPair | src/pages/Swap/SwapTab.tsx:139-174 | definition: one step of the reduce: both assets in order, then the pair under `a/b` and then `b/a` |
| Catalog.RegisterPairs | src/pages/Swap/SwapTab.tsx:127-176 | definition: the reduce over the pairs, in order |
| Catalog.RegisterPairsValid | src/pages/Swap/SwapTab.tsx:129-176 | the reduce keeps every key of `tokens` and `pairFromSymbol` listed once and in step with its values |
| Catalog.RegisterPairsAppend | src/pages/Swap/SwapTab.tsx:129-176 | reducing over `ps + qs` is reducing over `ps`, then over `qs` |
| Catalog.KeysPersist | src/pages/Swap/SwapTab.tsx:157-171 | no key of `tokens` or `pairFromSymbol` is ever removed by later pairs |
| Catalog.EveryPairRegistered | src/pages/Swap/SwapTab.tsx:170-171 | every pair of the factory is in `pairFromSymbol` under both `a/b` and `b/a` of its symbols |
| Catalog.EverySymbolListed | src/pages/Swap/SwapTab.tsx:141-169 | both symbols of every pair end up in `tokens` |
| Catalog.FirstSeenKept | src/pages/Swap/SwapTab.tsx:157-167 | a non-SCRT symbol already listed keeps its display data and its place in the key order |
| Catalog.NativeListedAsScrt | src/pages/Swap/SwapTab.tsx:142-145 | once any native asset is met, `SCRT` is listed with the preloaded SCRT entry |
| Catalog.FirstSeenFrom | src/pages/Swap/SwapTab.tsx:141-169 | starting from any catalog that does not list it, a non-SCRT symbol first met in pair `i` (as the first asset, or as the second when the first carries another symbol) ends up listed with the data built from that asset |
| Catalog.StepListsFirstAsset | src/pages/Swap/SwapTab.tsx:155-167 | one step of the reduce lists a new symbol of the pair's first asset with that asset's data |
| Catalog.StepListsSecondAsset | src/pages/Swap/SwapTab.tsx:155-167 | one step of the reduce lists a new symbol of the pair's second asset with that asset's data, when the first asset carries another symbol |
| Catalog.FirstSeenMetadata | src/pages/Swap/SwapTab.tsx:155-167 | a symbol first met as the first asset of pair `i` is listed with the data from its own `token_info` answer and contract |
| Catalog.FirstSeenAsSecondAsset | src/pages/Swap/SwapTab.tsx:155-167 | a symbol first met as the second asset of pair `i`, whose first asset carries another symbol, is listed with the data from its own `token_info` answer and contract |
| Catalog.ListedOnlyIfMet | src/pages/Swap/SwapTab.tsx:141-169 | a symbol that no pair yields is not listed |
| Catalog.RegisterPairsSymmetric | src/pages/Swap/SwapTab.tsx:170-171 | when no token symbol of the pairs contains '/', the reduce keeps `pairFromSymbol[a/b] == pairFromSymbol[b/a]` whenever either is present |
| Catalog.RegisterPairsSlashFreeKeys | src/pages/Swap/SwapTab.tsx:170-171 | when no token symbol of the pairs contains '/', every key the reduce writes joins two slash-free symbols |
| Catalog.SymmetricAt | src/pages/Swap/SwapTab.tsx:170-171 | in a symmetric `pairFromSymbol`, a present key `a/b` of slash-free symbols has `b/a` present with the same pair |
| Catalog.PutBothPreservesSymmetric | src/pages/Swap/SwapTab.tsx:170-171 | writing one pair under `x/y` and `y/x` of slash-free symbols keeps `pairFromSymbol` symmetric |
| Catalog.BothOrientationsSamePair | src/pages/Swap/SwapTab.tsx:170-171 | when no token symbol of the pairs contains '/', for every factory pair with symbols a and b, `a/b` and `b/a` are present and map to the same pair |
| Catalog.SlashInSymbolBreaksSymmetry | src/pages/Swap/SwapTab.tsx:170-171 | as written: pairs with symbols `(x/y, z)` and then `(x, y/z)` both write the key `x/y/z`, so it ends up naming the second pair while `z/x/y` still names the first |
| Text.PairKeyRegroup | src/pages/Swap/SwapTab.tsx:170-171 | the keys `x/(y/z)` and `(x/y)/z` are the same string |
| Quotes.BalanceNumber | src/pages/Swap/SwapTab.tsx:422-427 | `Number` of a stored amount is that amount; `Number` of a missing balance or of a balance shown as an element (an error message) is NaN |
| Quotes.Cleared | src/pages/Swap/SwapTab.tsx:442-478 | definition: both estimated flags false and the spread, commission and price impact zero |
| Quotes.ReserveKey | src/pages/Swap/SwapTab.tsx:280-283 | definition: the balance key `${symbol}-${pairKey}` of a pool reserve |
| Quotes.IsZeroAmount | src/pages/Swap/SwapTab.tsx:552 | definition: an amount is empty or `Number` of it is 0 |
| Quotes.InsufficientBalance | src/pages/Swap/SwapTab.tsx:504 | definition: the message `Insufficient ${fromToken} balance` |
| Quotes.UpdateInputs | src/pages/Swap/SwapTab.tsx:419-491 | definition: with both reserves numeric, a to-side estimate is recomputed from the from amount with `compute_swap`, or a from-side estimate from the to amount with `compute_offer_amount`; a NaN result or empty typed field clears; a negative result empties the derived field |
| Quotes.TypedFrom | src/pages/Swap/SwapTab.tsx:551-573 | definition: the from-amount setter's `setState`: an empty or zero amount clears the to side and both flags; any other amount marks the to side as estimated |
| Quotes.TypedTo | src/pages/Swap/SwapTab.tsx:627-649 | definition: the to-amount setter's `setState`, the mirror image |
| Quotes.TypeFrom | src/pages/Swap/SwapTab.tsx:551-573 | definition: the from-amount setter, followed by `updateInputs` for a non-zero amount |
| Quotes.TypeTo | src/pages/Swap/SwapTab.tsx:627-649 | definition: the to-amount setter, followed by `updateInputs` for a non-zero amount |
| Quotes.Flipped | src/pages/Swap/SwapTab.tsx:586-599 | definition: tokens, inputs and estimated flags change sides |
| Quotes.Flip | src/pages/Swap/SwapTab.tsx:586-599 | definition: the flip followed by `updateInputs` |
| Quotes.PickFrom | src/pages/Swap/SwapTab.tsx:536-548 | definition: the from token becomes the value; picking the to token swaps the two |
| Quotes.PickTo | src/pages/Swap/SwapTab.tsx:610-622 | definition: the to token becomes the value; picking the from token swaps the two |
| Quotes.ButtonMessage | src/pages/Swap/SwapTab.tsx:497-513 | definition: the first matching case of "Enter an amount", "Insufficient {token} balance", "Trading pair does not exist", "Loading price data", "Insufficient liquidity for this trade", else "Swap" |
| Quotes.ButtonEnabled | src/pages/Swap/SwapTab.tsx:663-665 | definition: the button is enabled when the message is "Swap" and no swap is loading |
| Quotes.NeedsConfirmation | src/pages/Swap/SwapTab.tsx:676 | definition: a price impact of at least 0.15 asks for "confirm" |
| Quotes.AfterSwap | src/pages/Swap/SwapTab.tsx:770-782 | definition: a successful swap empties both fields; a failed one changes nothing |
| Quotes.HandlersKeepSingleAuthority | src/pages/Swap/SwapTab.tsx:419-649 | `updateInputs`, both amount setters, the flip and both pickers never set both estimated flags |
| Quotes.UpdateInputsKeepsSingleAuthority | src/pages/Swap/SwapTab.tsx:419-491 | `updateInputs` never sets both estimated flags |
| Quotes.HandlersKeepDistinctTokens | src/pages/Swap/SwapTab.tsx:419-649 | the handlers keep `fromToken != toToken` |
| Quotes.UpdateInputsKeepsTokens | src/pages/Swap/SwapTab.tsx:419-491 | `updateInputs` never changes the selected tokens |
| Quotes.UpdateInputsKeepsAuthoritative | src/pages/Swap/SwapTab.tsx:433-489 | the field the user typed is never rewritten by `updateInputs` |
| Quotes.UpdateInputsNoChange | src/pages/Swap/SwapTab.tsx:429-431 | a missing or NaN reserve on either side, or neither flag set, leaves the quote unchanged |
| Quotes.UpdateInputsResets | src/pages/Swap/SwapTab.tsx:442-478 | a NaN result or an empty typed field clears both flags, the derived field and the three figures |
| Quotes.NegativeResultEmptiesField | src/pages/Swap/SwapTab.tsx:452-488 | a negative result leaves the derived field empty, and a negative offer also clears `isFromEstimated` |
| Quotes.ZeroAmountClears | src/pages/Swap/SwapTab.tsx:551-638 | an empty or zero amount on either side gives that amount, an empty other side, both flags false and zero figures |
| Quotes.AmountMarksOtherSideDerived | src/pages/Swap/SwapTab.tsx:565-646 | a non-zero amount is stored and marks the other side as estimated and its own side as typed |
| Quotes.FlippedTwice | src/pages/Swap/SwapTab.tsx:586-599 | exchanging tokens, inputs and flags twice restores the quote |
| Quotes.PickOtherSideSwaps | src/pages/Swap/SwapTab.tsx:536-622 | picking the other side's token swaps the two tokens and changes nothing else |
| Quotes.SwapOnlyWhenNothingBlocks | src/pages/Swap/SwapTab.tsx:497-513 | the message is "Swap" exactly when both fields are filled, the balance suffices, the pair exists and the price impact is in [0, 1) |
| Quotes.EnabledOnlyWhenNothingBlocks | src/pages/Swap/SwapTab.tsx:663-665 | the button is enabled exactly when nothing blocks a swap and no swap is loading |
| Quotes.EmptyFieldsAskForAmount | src/pages/Swap/SwapTab.tsx:498-499 | "Enter an amount" is shown exactly when both fields are empty |
| Quotes.BlockingMessages | src/pages/Swap/SwapTab.tsx:497-513 | each blocking message appears exactly when its own condition is the first that holds: insufficient balance, no pair, a field still empty, a price impact outside [0, 1) |
| Quotes.NaNPriceImpactNotBlocked | src/pages/Swap/SwapTab.tsx:509-512 | a NaN price impact passes the liquidity check |
| Quotes.SwapDoneAsksForAmount | src/pages/Swap/SwapTab.tsx:778-782 | after a successful swap the button asks for an amount, and the flags are left as they were |
| EventSync.PoolKeys | src/pages/Swap/SwapTab.tsx:254-256 | the keys kept are keys of `pairFromSymbol` that start with `symbol/` |
| EventSync.PoolKeysComplete | src/pages/Swap/SwapTab.tsx:254-256 | every key of `pairFromSymbol` that starts with `symbol/` is kept |
| EventSync.EveryPoolOfSymbolFetched | src/pages/Swap/SwapTab.tsx:170-171 | after mounting, refreshing either symbol of a factory pair fetches that pair's reserve: the pair's key for that symbol passes the `startsWith` filter of lines 254-256 |
| EventSync.EventHeight | src/pages/Swap/SwapTab.tsx:191-195 | definition: `Number` of the transaction height, else of the block height, else 0 |
| EventSync.Stale | src/pages/Swap/SwapTab.tsx:206 | definition: `height <= cache[symbol]`, false for a symbol never cached and whenever NaN is involved |
| EventSync.KeyReplies | src/pages/Swap/SwapTab.tsx:232-236 | definition: the wallet's answers for a symbol; an unlisted symbol throws when its address is read |
| EventSync.SymbolViewingKey | src/pages/Swap/SwapTab.tsx:212-243 | definition: no viewing key for SCRT, the retry loop's key for any other symbol |
| EventSync.PoolBalance | src/pages/Swap/SwapTab.tsx:257-266 | definition: `getBalance` of the symbol at the pair contract, with the pool viewing key |
| EventSync.ReserveUpdates | src/pages/Swap/SwapTab.tsx:272-284 | definition: each pool's reserve under `symbol-a/b` and `symbol-b/a`, in pool order |
| EventSync.Merge | src/pages/Swap/SwapTab.tsx:290-304 | definition: `Object.assign({}, balances, {[symbol]: user}, reserves)`: the user balance, then the reserves, over the old balances |
| EventSync.RefreshSymbol | src/pages/Swap/SwapTab.tsx:210-304 | definition: cache the height, fetch the viewing key, the user balance and the pool reserves, merge them, then run `updateInputs` |
| EventSync.HandleSymbols | src/pages/Swap/SwapTab.tsx:205-304 | definition: the loop over the event's symbols, returning at the first stale one |
| EventSync.HandleEvent | src/pages/Swap/SwapTab.tsx:185-304 | definition: split the event id on `/`, read the height, then handle the symbols |
| EventSync.CacheAfter | src/pages/Swap/SwapTab.tsx:205-210 | definition: the height cache alone after the event's symbols |
| EventSync.Accepted | src/pages/Swap/SwapTab.tsx:205-210 | the number of symbols refreshed before the first stale one is at most the number of symbols |
| EventSync.ReserveStep | src/pages/Swap/SwapTab.tsx:275-284 | writing one more pool under both keys keeps the reserves of the earlier pools of the same symbol |
| EventSync.OtherPoolUntouched | src/pages/Swap/SwapTab.tsx:275-284 | two different pool keys of one symbol never write the same reserve key in either orientation |
| EventSync.FetchViewingKey | src/pages/Swap/SwapTab.tsx:212-243 | the key obtained is the retry loop's result, and SCRT gets none |
| EventSync.ScrtNeedsNoViewingKey | src/pages/Swap/SwapTab.tsx:213 | the viewing-key lookup is skipped for SCRT |
| EventSync.FetchReserves | src/pages/Swap/SwapTab.tsx:272-284 | the loop builds exactly the reserve entries of the pools fetched |
| EventSync.Raise | src/pages/Swap/SwapTab.tsx:210 | the accepted symbols are cached at the event height and every other entry is kept |
| EventSync.HandleSymbolsCache | src/pages/Swap/SwapTab.tsx:205-210 | the cache after an event depends only on the cache, the symbols and the height |
| EventSync.StaleEventIsNoOp | src/pages/Swap/SwapTab.tsx:205-209 | an event with no symbol, or whose first symbol is stale, accepts nothing and changes nothing: cache, balances and quote |
| EventSync.CacheAfterEvent | src/pages/Swap/SwapTab.tsx:205-210 | the accepted prefix is cached at the height, and the symbol that stopped the event was stale |
| EventSync.HandleSymbolsStopsAtStale | src/pages/Swap/SwapTab.tsx:204-209 | the `return` at the first stale symbol: the whole event (cache, balances and quote) equals handling only the accepted prefix, so no later symbol has any effect |
| EventSync.HandleSymbolsStep | src/pages/Swap/SwapTab.tsx:204-209 | an accepted symbol is refreshed with its cache entry raised to the height, and the loop goes on from that state |
| EventSync.AcceptedStep | src/pages/Swap/SwapTab.tsx:205-210 | a symbol that passes the filter adds one to the accepted prefix, judged against the cache that now holds it |
| EventSync.CacheNeverDecreases | src/pages/Swap/SwapTab.tsx:206-210 | with a numeric height, no numeric cached height decreases |
| EventSync.FirstSeenAccepted | src/pages/Swap/SwapTab.tsx:206 | a symbol never seen before is refreshed |
| EventSync.NaNHeightAccepted | src/pages/Swap/SwapTab.tsx:195-206 | a NaN event height, or a NaN cached height, is never stale |
| EventSync.NaNHeightLowersCache | src/pages/Swap/SwapTab.tsx:195-210 | after a NaN event, height 499 is accepted for a symbol cached at 500 |
| EventSync.HeightOrderIrrelevant | src/pages/Swap/SwapTab.tsx:205-210 | heights `h1 < h2` for one symbol leave `h2` cached in either order |
| EventSync.PoolKeyParts | src/pages/Swap/SwapTab.tsx:277-278 | a pool key of `symbol` is `symbol/b`, and its inversion is `b/symbol` |
| EventSync.ReserveKeyInjective | src/pages/Swap/SwapTab.tsx:280-283 | reserve keys of one symbol are equal only for equal pair keys |
| EventSync.PoolKeysCollide | src/pages/Swap/SwapTab.tsx:275-284 | two pool keys of one symbol write the same reserve key only when they are the same key |
| EventSync.ReservesUnderBothKeys | src/pages/Swap/SwapTab.tsx:275-284 | every pool's reserve is stored under `symbol-a/b` and `symbol-b/a` with the same value |
| EventSync.ReserveUpdatesKeys | src/pages/Swap/SwapTab.tsx:275-284 | the reserve update writes only keys of the pools refreshed |
| EventSync.ReservesOfSymbol | src/pages/Swap/SwapTab.tsx:254-284 | when every pool key of the symbol is two slash-free symbols, the reserve updates hold each pool's balance under `symbol-a/b` and `symbol-b/a`, have no entry under the symbol itself, and hold no key other than those of the symbol's pools |
| EventSync.MergedBalances | src/pages/Swap/SwapTab.tsx:290-304 | under the same condition, the merge puts the user's balance under the symbol and every pool reserve under both keys, and keeps every other balance |
| EventSync.RefreshSymbolEffect | src/pages/Swap/SwapTab.tsx:205-304 | when every pool key of the symbol is two slash-free symbols (for a mounted catalog, whenever no token symbol contains '/', by `EventSync.MountedPoolKeys`), one accepted symbol caches its height, stores the user balance under the symbol and each pool reserve under both keys, keeps every other balance, then runs `updateInputs` |
| EventSync.MountedPoolKeys | src/pages/Swap/SwapTab.tsx:170-171 | for the catalog the page mounts, with no token symbol containing '/', every key that passes a symbol's `startsWith` filter (254-256) joins that symbol to another slash-free symbol: `RefreshSymbolEffect`'s premise |
| Subscriptions.TokenSubscriptions | src/pages/Swap/SwapTab.tsx:319-357 | SCRT gets exactly 3 subscriptions and any other token exactly 2, all with the symbol as id |
| Subscriptions.ScrtQueries | src/pages/Swap/SwapTab.tsx:321-326 | definition: the three SCRT queries on the user's address, as sender, as signer and as recipient |
| Subscriptions.ContractQueries | src/pages/Swap/SwapTab.tsx:340-344 | definition: the two queries on a contract address, `message.contract_address` and `wasm.contract_address` |
| Subscriptions.Each | src/pages/Swap/SwapTab.tsx:328-336 | one subscription per query, in order, all with the given id |
| Subscriptions.TokenPlan | src/pages/Swap/SwapTab.tsx:319-357 | definition: the subscriptions of every listed symbol, in key order |
| Subscriptions.PairPlan | src/pages/Swap/SwapTab.tsx:375-393 | definition: two subscriptions per kept pair key, with the key as id |
| Subscriptions.Plan | src/pages/Swap/SwapTab.tsx:319-393 | definition: the token plan followed by the pair plan of the unique pair keys |
| Subscriptions.Firsts | src/pages/Swap/SwapTab.tsx:362-373 | reference definition: the keys that are the first for their pair, in key order; only keys that were given |
| Subscriptions.Dedup | src/pages/Swap/SwapTab.tsx:362-373 | the de-duplication keeps only keys it was given |
| Subscriptions.UniquePairKeys | src/pages/Swap/SwapTab.tsx:362-373 | the unique pair keys are keys of `pairFromSymbol` |
| Subscriptions.FirstsCover | src/pages/Swap/SwapTab.tsx:362-373 | the first key of each pair represents exactly the pairs that occur |
| Subscriptions.FirstsCoverEvery | src/pages/Swap/SwapTab.tsx:362-373 | every pair that occurs is covered by a kept key |
| Subscriptions.FirstsSnoc | src/pages/Swap/SwapTab.tsx:362-373 | one more key is kept exactly when no kept key already has its pair |
| Subscriptions.DedupIsFirsts | src/pages/Swap/SwapTab.tsx:362-373 | continuing the reduce from the kept keys of a prefix gives the kept keys of the whole list |
| Subscriptions.UniquePairKeysAreFirsts | src/pages/Swap/SwapTab.tsx:362-373 | the reduce keeps exactly the first key seen of each distinct pair, in order |
| Subscriptions.FirstsDistinctPairs | src/pages/Swap/SwapTab.tsx:362-373 | no two kept keys name the same pair |
| Subscriptions.EveryPairWatched | src/pages/Swap/SwapTab.tsx:362-373 | every pair of `pairFromSymbol` is represented by a kept key |
| Subscriptions.Subscribe | src/pages/Swap/SwapTab.tsx:319-393 | the subscriptions sent are the token plan followed by the pair plan |
| Subscriptions.SubscribeTokens | src/pages/Swap/SwapTab.tsx:319-357 | the loop sends the token subscriptions in key order |
| Subscriptions.SendQueries | src/pages/Swap/SwapTab.tsx:328-336 | the inner `for` loop sends one subscription per query, in order, after those already sent |
| Subscriptions.TokenPlanStep | src/pages/Swap/SwapTab.tsx:319-357 | the plan for one more symbol is the plan so far followed by that symbol's subscriptions |
| Subscriptions.SubscribePairs | src/pages/Swap/SwapTab.tsx:375-393 | the loop sends two subscriptions per kept pair key, with the key as id |
| Subscriptions.TokenPlanSize | src/pages/Swap/SwapTab.tsx:319-357 | the token plan has 2 subscriptions per token plus 1 when SCRT is listed |
| Subscriptions.PairPlanSize | src/pages/Swap/SwapTab.tsx:375-393 | the pair plan has 2 subscriptions per kept pair key |
| Subscriptions.PlanSize | src/pages/Swap/SwapTab.tsx:319-393 | the whole plan has `2·tokens + (SCRT ? 1 : 0) + 2·distinct pairs` subscriptions |
| Subscriptions.TokensWatched | src/pages/Swap/SwapTab.tsx:319-357 | every listed token is subscribed to, and every token subscription is for a listed token |
| Subscriptions.PairsWatched | src/pages/Swap/SwapTab.tsx:375-393 | both contract queries of every kept pair are sent, and every pair subscription is for a kept key |
| ERC20Select.TextByMode | src/pages/Exchange/ERC20Select.tsx:12-22 | the four texts, by mode and proxy flag: `Secret {name} (secret{symbol})`, `{label} ({symbol})`, `Secret {label} (secret{label})`, `{label} ({name})` |
| ERC20Select.SelectTokenText | src/pages/Exchange/ERC20Select.tsx:12-22 | definition: the four cases on the mode and the proxy flag, in the order written |
| ERC20Select.NameShownOnlyThere | src/pages/Exchange/ERC20Select.tsx:13-20 | tokens with the same display data get different texts only when their names differ, and only in the two cases that show the name |
| ERC20Select.SortComparatorInconsistent | src/pages/Exchange/ERC20Select.tsx:52-55 | the comparator as written never returns 0, and it gives the same sign for `(a, b)` and `(b, a)` when both or neither contain "scrt" |
| ERC20Select.TwoScrtTokensContradict | src/pages/Exchange/ERC20Select.tsx:52-55 | for SCRT and sSCRT the comparator as written claims each comes before the other |
| ERC20Select.IsScrt | src/pages/Exchange/ERC20Select.tsx:54 | definition: the lower-cased symbol contains "scrt" |
| ERC20Select.SortComparator | src/pages/Exchange/ERC20Select.tsx:52-55 | definition, as written: -1 when the first token's symbol contains "scrt", else 1 |
| ERC20Select.ScrtFirstComparator | src/pages/Exchange/ERC20Select.tsx:52-55 | the corrected comparator is 0 for the same group and negative exactly when only the first token contains "scrt" |
| ERC20Select.ScrtFirstComparatorConsistent | src/pages/Exchange/ERC20Select.tsx:52-55 | the corrected comparator is reflexive, antisymmetric and transitive |
| ERC20Select.Scrts | src/pages/Exchange/ERC20Select.tsx:52-55 | the first group holds only tokens whose symbol contains "scrt" |
| ERC20Select.Others | src/pages/Exchange/ERC20Select.tsx:52-55 | the second group holds only tokens whose symbol does not |
| ERC20Select.ScrtFirst | src/pages/Exchange/ERC20Select.tsx:52-55 | definition of the intended order: the "scrt" tokens, then the others, each group in store order |
| ERC20Select.ScrtFirstPermutes | src/pages/Exchange/ERC20Select.tsx:50-55 | the ordering is a permutation of the store's list |
| ERC20Select.GroupsSplitTheStore | src/pages/Exchange/ERC20Select.tsx:50-55 | each token of the list is in exactly the group its symbol selects |
| ERC20Select.ScrtFirstSorted | src/pages/Exchange/ERC20Select.tsx:52-55 | in the ordered list every "scrt" token comes before every other token |
| ERC20Select.OptionOf | src/pages/Exchange/ERC20Select.tsx:56-61 | definition: one option is the token with its image, its `selectTokenText` and `value = src_address` |
| ERC20Select.OptionList | src/pages/Exchange/ERC20Select.tsx:56-61 | the `map` over a sorted copy gives one option per token, the `i`-th built from the `i`-th token |
| ERC20Select.Options | src/pages/Exchange/ERC20Select.tsx:50-61 | there is one option per token of the list |
| ERC20Select.OptionListIsPermutation | src/pages/Exchange/ERC20Select.tsx:50-61 | for any order the sort may leave (any permutation of the list), the options are the list's tokens, each once, each with `value = src_address`, its text and its image |
| ERC20Select.TokensOf | src/pages/Exchange/ERC20Select.tsx:56-61 | the tokens behind the options, in order |
| ERC20Select.OptionsArePermutation | src/pages/Exchange/ERC20Select.tsx:50-61 | the options are a permutation of the list, each with `value = src_address`, its `selectTokenText` and its image |
| ERC20Select.Find | src/pages/Exchange/ERC20Select.tsx:64-65 | `find` gives nothing exactly when no token has the address, else the first token that has it |
| ERC20Select.ChoosingAnyListedOption | src/pages/Exchange/ERC20Select.tsx:50-72 | for any order the sort may leave, and with distinct source addresses, choosing an option selects its token, and `snip20` becomes its `dst_address` |
| ERC20Select.ChoosingAnOptionSelectsItsToken | src/pages/Exchange/ERC20Select.tsx:63-66 | the same for the intended SCRT-first order |
| ERC20Select.OnChange | src/pages/Exchange/ERC20Select.tsx:63-72 | definition: the token found by `src_address` and its `dst_address`; `None` stands for the TypeError that `.dst_address` of `undefined` throws at line 65 when no token matches |
| ERC20Select.UnknownValueSelectsNothing | src/pages/Exchange/ERC20Select.tsx:64-65 | `onChange` gives `None`, the TypeError thrown by `.dst_address` of `undefined` at line 65, exactly when no token has the value as `src_address` |
| SwapPage.InitialState | src/pages/Swap/SwapTab.tsx:85-103 | the page starts with both fields empty and neither side estimated (both flags false), hence not both estimated |
| SwapPage.SwapTab.constructor | src/pages/Swap/SwapTab.tsx:85-103 | the fields start as the initial state |
| SwapPage.KeyAt | src/pages/Swap/SwapTab.tsx:178-179 | definition: `Object.keys(tokens)[i]`, "undefined" past the end |
| SwapPage.FirstTwoKeysDiffer | src/pages/Swap/SwapTab.tsx:178-179 | with at least two listed tokens, the first and second keys differ |
| SwapPage.Mounted | src/pages/Swap/SwapTab.tsx:178-179 | definition: the state after mounting: the pairs, the catalog, the second listed token on the from side and the first on the to side |
| SwapPage.SwapTab.ComponentDidMount | src/pages/Swap/SwapTab.tsx:125-179 | the catalog is the reduce over the factory's pairs; the second listed token is on the from side and the first on the to side, which differ when at least two tokens are listed |
| SwapPage.SwapTab.Install | src/pages/Swap/SwapTab.tsx:396-402 | the `setState` stores the pairs, the catalog and the two selected tokens and nothing else |
| SwapPage.MountedSelection | src/pages/Swap/SwapTab.tsx:178-179 | after mounting with at least two tokens the two sides differ and both fields are empty |
| SwapPage.SwapTab.UpdateInputs | src/pages/Swap/SwapTab.tsx:419-491 | the quote becomes `updateInputs` of the old one, and neither side is then doubly estimated |
| SwapPage.SwapTab.RefreshSymbol | src/pages/Swap/SwapTab.tsx:205-304 | one accepted symbol: the cache, the balances and the quote become the refresh of that symbol |
| SwapPage.SwapTab.OnMessage | src/pages/Swap/SwapTab.tsx:185-309 | the loop over the event's symbols, stopped at the first stale one, leaves the page in the state of the event handler |
| SwapPage.HandleSymbolsKeepsSingleAuthority | src/pages/Swap/SwapTab.tsx:205-304 | handling an event never sets both estimated flags |
| SwapPage.SwapTab.OnOpen | src/pages/Swap/SwapTab.tsx:311-394 | the subscriptions sent are the plan of the listed tokens and pairs |
| SwapPage.SwapTab.SetFromAmount | src/pages/Swap/SwapTab.tsx:551-573 | the quote becomes the from-amount transition of the old one |
| SwapPage.SwapTab.SetToAmount | src/pages/Swap/SwapTab.tsx:627-649 | the quote becomes the to-amount transition of the old one |
| SwapPage.SwapTab.FlipSides | src/pages/Swap/SwapTab.tsx:586-599 | the quote becomes the flipped quote, then `updateInputs` |
| SwapPage.SwapTab.SetFromToken | src/pages/Swap/SwapTab.tsx:536-548 | the from token becomes the value, switching sides when it is the to token; distinct tokens stay distinct |
| SwapPage.SwapTab.SetToToken | src/pages/Swap/SwapTab.tsx:610-622 | the to token becomes the value, switching sides when it is the from token; distinct tokens stay distinct |
| SwapPage.SwapTab.SetSlippageTolerance | src/pages/Swap/SwapTab.tsx:657-659 | only the slippage tolerance changes |
| SwapPage.SwapTab.BeginSwap | src/pages/Swap/SwapTab.tsx:676-686 | a swap starts exactly when the price impact is under 15% or the user confirmed, and starting sets `loadingSwap` |
| SwapPage.SwapTab.FinishSwap | src/pages/Swap/SwapTab.tsx:770-782 | loading ends; a successful swap empties both fields, a failed one keeps them |

## Left out

- Floating point: numbers are exact reals with NaN and the two infinities. Rounding and `-0` are not modelled.
- `Number` on strings, `fromToNumberFormat.format`, `compute_swap` and `compute_offer_amount` are uninterpreted parameters. Their module is not part of this model.
- The belief price and slippage arithmetic, `reverse_decimal`, `mulDecimals` and `btoa`, which build the transaction, are left out.
- The transaction itself, `queryContractSmart`, `getSecret20ViewingKey`, `getBalance`, `ws.send` and `ws.close` are I/O. Their answers are parameters; `ws.send` is modelled as the list of subscriptions sent.
- The `sleep` polling loops, the waits for `secretjs` and for `user.address`, and the one-second grace after a wrong-viewing-key balance are timing only.
- The `prompt` is left out. `BeginSwap` takes whether the user typed "confirm" as an argument.
- Concurrency: handlers run one after the other. Each `setState` merge is one atomic step; interleaving at the `await`s is not modelled.
- The outer `try`/`catch` of `onmessage` and the swap's error logging are left out. A failed swap is the `succeeded = false` case of `FinishSwap`.
- `componentWillUnmount` is left out. It re-opens the user store's socket and closes the page's socket.
- Rendering is left out: the JSX, `hidePriceRow` and the balances shown. `state.buttonMessage` is never updated by the page, so it is carried unchanged.
- Object key order is insertion order. JavaScript's ordering of integer-like keys first is not modelled.
- `Object.keys(tokens)[i]` past the end is `undefined`; the model uses the string "undefined", which is what the page's template keys turn it into.
- EventSync.RefreshSymbol: `getBalance` is taken to always answer. A rejected promise, which would end the handler inside the `try`, is not modelled.
- `JSON.stringify` equality of pairs in the de-duplication is modelled as equality of pair values.
- `toLowerCase` is modelled for ASCII letters only.
- Catalog.RegisterAsset: only an object's own keys are modelled. JavaScript's `symbol in unwrapedTokensFromPairs` also finds names inherited from `Object.prototype`, so the page never lists a token whose symbol is `constructor`, `toString`, `valueOf` and the like; the model lists it.
- ViewingKeys.KeyOf: `undefined` (no attempt answered, and SCRT's key) and the empty string are both modelled as "". Both are falsy, so the retry loop treats them alike, but `getBalance` receives one or the other, and that difference is not modelled.
- ERC20Select.SelectTokenText: the two `EXCHANGE_MODE` values are modelled as two constructors; their string values are not part of this model.
- ERC20Select.OnChange: the calls to `props.onSelectToken` and `userMetamask.setToken` are I/O and are left out; the model returns the selected token and its `dst_address`.
- ERC20Select.Options: the options follow the corrected SCRT-first order (see Findings). The exact order the browser's sort gives with the comparator as written depends on the sort algorithm and is not modelled; `OptionListIsPermutation` and `ChoosingAnyListedOption` hold for whatever permutation it gives.
- SwapPage.SwapTab: the nine quote keys of the React state are held together in one `quote` field.
- SwapPage.SwapTab.ComponentDidMount: it states the catalog and the quote's two tokens; the socket opening that follows is left out, and its handlers are modelled as `OnMessage` and `OnOpen`.
- src/pages/Cashback/index.tsx, src/pages/Migration/index.tsx, src/pages/DetailProposal/index.tsx, src/components/Head/index.tsx and src/components/Earn/EarnRow/EarnButton.tsx are display, routing and contract-call glue and are not part of this model.

## Findings

| source | as written | input that shows it | evidently intended | confidence | as-written member | corrected member |
|---|---|---|---|---|---|---|
| src/pages/Exchange/ERC20Select.tsx:52-55 | the sort comparator returns -1 when the first token's symbol contains "scrt" and 1 otherwise, whatever the second token is | tokens with symbols "SCRT" and "sSCRT": each compares before the other, and no token compares equal to itself, so the comparator is not a consistent ordering and the result depends on the sort algorithm | SCRT tokens first, then the rest, each group in its original order | not executed | ERC20Select.TwoScrtTokensContradict | ERC20Select.ScrtFirstSorted |
