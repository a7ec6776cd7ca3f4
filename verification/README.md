# Honeypot front-end core, modelled in Dafny

This project models four pieces of the Honeypot front-end:

- **24-hour price change of a token** (`PriceChange`). The function `calculateToken24hPriceChange`:
  - takes a token's hourly price buckets and the current time;
  - anchors the time to the start of the current hour;
  - averages the prices of the buckets that start exactly at the last 24 hourly slots (the "recent" window) and at the 24 slots before those (the "older" window);
  - falls back to the first bucket's price, or to the token's initial price, when a window is empty;
  - turns the two averages into an absolute change and a percentage change. The older window's average being zero is a special case, and so is the recent window's.
- **Transaction history table of a launch** (`TransactionHistory`):
  - the action label of each row ("Sell"/"Buy" for swaps, decided by the sign of the row's own amount text);
  - the amount column, where raw amounts are scaled by the raise token's decimals and rounded to three places;
  - the page counter with its Previous/Next buttons;
  - the load step that fills the table.
- **Network registry** (`Chain`, `Berachain`):
  - the `Network` record and its `init` step, which resolves the native, faucet and validated tokens and appends every validated token to `validatedTokens`;
  - the `networksMap` index, where the last network with a given chain id wins;
  - the Berachain configuration as written, the exported list built from it, and its rule that validated-token keys are written in lower case, which the NECT key breaks (see "## Findings").
- **Wallet singleton** (`Wallet`):
  - the `networksMap` and `currentChain` getters;
  - the guarded `initWallet` step. It takes the network list, refuses a client with no (or zero) chain id, an unindexed chain, no account address or an inactive network, and otherwise sets chain, account, contract wrappers and client, runs `init` on the current network, and marks the wallet initialised once the storage sync succeeds.

The model follows JavaScript's rules where the source relies on them:

- `!x` is true for `0` and `""`, so the code treats decimals 0, chain id 0, an empty address and an empty stored mock account as missing.
- An empty array is truthy, so an empty bucket list reaches `tokenHourData[0]` and fails. That is modelled as `Err(MissingFirstBucket)`.
- `Array.find` returns the first match.
- `reduce` into an object lets a later entry overwrite an earlier one.
- `Object.entries` visits entries in insertion order, so a record is a sequence of key/value entries.

Things outside these functions become parameters:

- the current time;
- the stored mock account;
- the outcome of the storage sync;
- the outcome of the indexer request;
- the Berachain chain description and contract addresses.

## Model

| member | source | states |
|---|---|---|
| PriceChange.HourAnchor | apps/wasabee/lib/algebra/graphql/utils/calculateToken24hChange.ts:15-17 | the anchor is a multiple of 3600 and is the start of the hour that contains `now` (anchor <= now < anchor + 3600) |
| PriceChange.FindBucket | apps/wasabee/lib/algebra/graphql/utils/calculateToken24hChange.ts:34-36 | finds nothing exactly when no bucket starts at the slot; otherwise returns the first bucket that starts there |
| PriceChange.MatchedPricesPerSlot | apps/wasabee/lib/algebra/graphql/utils/calculateToken24hChange.ts:32-41 | a window never matches more prices than it has slots; it matches one per slot iff every slot has a bucket, and none iff no slot has one |
| PriceChange.MatchedPricesComeFromSlots | apps/wasabee/lib/algebra/graphql/utils/calculateToken24hChange.ts:32-58 | every averaged price is the price of some bucket that starts at one of the window's slots |
| PriceChange.MatchedPricesSplit | apps/wasabee/lib/algebra/graphql/utils/calculateToken24hChange.ts:32-58 | the prices matched over a run of slots are those of its first part followed by those of the rest |
| PriceChange.WindowsDisjoint | apps/wasabee/lib/algebra/graphql/utils/calculateToken24hChange.ts:32-58 | for an hour-aligned anchor, no slot of the recent window (i < 24) is a slot of the older window (24 <= j < 48), every slot is hour-aligned, and the prices of the 48 slots are exactly the recent window's followed by the older window's |
| PriceChange.WindowTotal | apps/wasabee/lib/algebra/graphql/utils/calculateToken24hChange.ts:32-41 | the accumulation loop yields the number and the sum of the prices matched in the window, as defined slot by slot |
| PriceChange.ChangeBetween | apps/wasabee/lib/algebra/graphql/utils/calculateToken24hChange.ts:72-88 | older average 0 gives (recent, 100); otherwise recent average 0 gives (-older, 0); otherwise percentage * older = change * 100 |
| PriceChange.CalculateToken24hPriceChange | apps/wasabee/lib/algebra/graphql/utils/calculateToken24hChange.ts:3-89 | missing hourly data gives (0, 0); an empty list fails on the first bucket; otherwise the result is the change between the recent average (fallback: first bucket's price) and the older average (fallback: initial price) |
| PriceChange.AveragesNonNegative | apps/wasabee/lib/algebra/graphql/utils/calculateToken24hChange.ts:42-63 | with non-negative prices and initial price, both window averages, including their fallbacks, are non-negative |
| PriceChange.PercentageSign | apps/wasabee/lib/algebra/graphql/utils/calculateToken24hChange.ts:83-87 | for a non-negative recent and a positive older average the percentage is positive iff recent > older, negative iff recent < older, and never below -100 |
| PriceChange.NonNegativePricesGiveConsistentChange | apps/wasabee/lib/algebra/graphql/utils/calculateToken24hChange.ts:72-88 | with non-negative prices and both averages non-zero, the change and the percentage are positive iff the recent average is above the older one, the percentage is negative iff it is below, and it is never below -100 |
| TransactionHistory.Round3 | apps/pop2pump/pages/launch-detail/components/TransactionHistory.tsx:93-101 | `toFixed(3)` with half-away-from-zero rounding moves a value by at most 0.0005, keeps a non-negative value non-negative, and is non-negative iff the value is above -0.0005 |
| TransactionHistory.ActionLabel | apps/pop2pump/pages/launch-detail/components/TransactionHistory.tsx:68-84 | a swap reads "Sell" iff its amount is >= 0 and "Buy" iff it is < 0; deposit, refund and claim-LP have fixed labels; any other type shows its own name |
| TransactionHistory.AmountByType | apps/pop2pump/pages/launch-detail/components/TransactionHistory.tsx:86-107 | missing or zero decimals give 0; claim-LP and other types give 0; with known decimals a swap shows its first amount0, unscaled, within 0.0005 and non-negative when amount0 is; the amount fails exactly when decimals are known and the leg list it reads is empty |
| TransactionHistory.RowLabel | apps/pop2pump/pages/launch-detail/components/TransactionHistory.tsx:155 | a row's label fails iff its amount fails; only a swap's label depends on the amount, and a swap reads "Sell" iff its amount text is non-negative, "Buy" otherwise |
| TransactionHistory.MissingDecimalsLabelsEverySwapSell | apps/pop2pump/pages/launch-detail/components/TransactionHistory.tsx:68-87 | without known decimals every swap row is labelled "Sell" |
| TransactionHistory.SwapLabelFollowsAmount0 | apps/pop2pump/pages/launch-detail/components/TransactionHistory.tsx:68-93 | with known decimals a swap row reads "Sell" iff its amount0 is above -0.0005, and "Buy" iff it is not |
| TransactionHistory.ScaledAmountIsRawOverPow10 | apps/pop2pump/pages/launch-detail/components/TransactionHistory.tsx:94-101 | deposit and refund amounts are the raw amount divided by 10^decimals, within 0.0005, and keep a non-negative raw amount non-negative |
| TransactionHistory.ClaimLpAmountIsZero | apps/pop2pump/pages/launch-detail/components/TransactionHistory.tsx:102-105 | a claim-LP row shows amount 0, never "-", and the label "Claim LP", whatever the decimals |
| TransactionHistory.Previous | apps/pop2pump/pages/launch-detail/components/TransactionHistory.tsx:229-230 | a disabled button (page 1, or a load running) changes nothing; otherwise the page goes back by one and never drops below 1 |
| TransactionHistory.Next | apps/pop2pump/pages/launch-detail/components/TransactionHistory.tsx:257-258 | the page advances by one iff a next page was reported and no load is running; nothing else changes |
| TransactionHistory.StartLoad | apps/pop2pump/pages/launch-detail/components/TransactionHistory.tsx:37-38 | with a pair that has a launched token a load sets the loading flag, which disables both buttons, and changes nothing else; otherwise it changes nothing |
| TransactionHistory.SettleLoad | apps/pop2pump/pages/launch-detail/components/TransactionHistory.tsx:47-50 | a settling load replaces rows and next-page flag on success, keeps everything on failure, and clears the loading flag either way |
| TransactionHistory.Load | apps/pop2pump/pages/launch-detail/components/TransactionHistory.tsx:35-60 | a whole load, start then settle: without a pair with a launched token nothing changes; otherwise loading ends cleared, the page is kept, rows and next-page flag are replaced on success and kept on failure |
| TransactionHistory.PageNeverBelowOne | apps/pop2pump/pages/launch-detail/components/TransactionHistory.tsx:229-258 | from a page >= 1, no sequence of clicks, load starts and load settlements reaches a page below 1 |
| TransactionHistory.NoPairNeverLeavesInitialState | apps/pop2pump/pages/launch-detail/components/TransactionHistory.tsx:30-60 | without a pair with a launched token the component stays in its initial state (page 1, loading) under any events |
| TransactionHistory.ClicksDuringLoadChangeNothing | apps/pop2pump/pages/launch-detail/components/TransactionHistory.tsx:229-258 | while a load is running, any sequence of Previous and Next clicks leaves the component unchanged |
| Text.ToLower | apps/test-app-2/services/chain.ts:520 | lower-casing keeps the length, lowers each letter A-Z, leaves every other character, and yields a lower-case string |
| Text.ToLowerIdempotent | apps/test-app-2/services/chain.ts:520 | lower-casing twice is lower-casing once |
| Chain.NewNetwork | apps/test-app-2/services/chain.ts:15-73 | the network keeps every given field (chain and its id, HPOT address, contracts, native, raised, faucet and validated token data); it is active unless the arguments say inactive, and each absent list (validated tokens, FTO and meme addresses) starts empty |
| Chain.FreshNetworkInitListsValidatedTokens | apps/test-app-2/services/chain.ts:56-91 | a network configured without a validated-token list lists, after `init`, exactly its validated tokens in configuration order, each resolved with its key as address |
| Chain.NetworksMap | apps/test-app-2/services/chain.ts:736-742 | the index built by folding the list holds exactly the chain ids that occur in it |
| Chain.Lookup | apps/test-app-2/services/chain.ts:57 | a record lookup finds nothing iff the key is absent, and otherwise returns the token of an entry with that key |
| Chain.Init | apps/test-app-2/services/chain.ts:74-92 | `init` keeps chain, activity and contracts; resolves the native token and every faucet token; keeps the validated keys, stores each token with its key as address, and appends the resolved tokens to `validatedTokens` |
| Chain.InitTwiceDuplicatesValidatedTokens | apps/test-app-2/services/chain.ts:84-91 | a second `init` appends every validated token again and changes nothing else, so `init` is not idempotent when validated tokens exist |
| Chain.NetworksMapIndexesLastNetwork | apps/test-app-2/services/chain.ts:736-742 | the index's keys are exactly the networks' chain ids, and each id maps to the last network that carries it |
| Chain.NetworksMapHasEveryChainId | apps/test-app-2/services/chain.ts:736-742 | an id is indexed iff some network carries it |
| Chain.InitKeepsNetworksMap | apps/test-app-2/services/chain.ts:74-92 | running `init` on one network of the list keeps the indexed ids, and each indexed network keeps its chain, activity and contracts |
| Berachain.BerachainNetworkBreaksCasingRule | apps/test-app-2/services/chain.ts:499-683 | the Berachain network as written breaks its own casing rule: its validated-token keys are not all lower case, and looking up the lower-cased NECT address in them finds nothing |
| Berachain.BerachainNetworkAsWritten | apps/test-app-2/services/chain.ts:499-683 | the Berachain network is active by default, has the chain's id and the given contracts, its raised tokens and HPOT address, its validated tokens exactly as written, two faucet tokens, and no resolved validated token before `init` |
| Berachain.Networks | apps/test-app-2/services/chain.ts:730-735 | the exported list holds one network, Berachain as written: its only chain id is Berachain's, it is active, and it carries the validated tokens as written |
| Berachain.NetworksMapHoldsOnlyBerachain | apps/test-app-2/services/chain.ts:730-742 | the exported network index maps Berachain's id to the Berachain network as written, and holds nothing else |
| Berachain.RaisedTokenAddressesLowercase | apps/test-app-2/services/chain.ts:517-551 | every raised-token address is lower case; the HPOT entry is the platform token's address and the NECT entry is the lower-cased NECT address |
| Berachain.NectKeyBreaksCasingRule | apps/test-app-2/services/chain.ts:613-680 | as written, the validated-token keys are not all lower case: the NECT key differs from the lower-cased NECT address |
| Berachain.NectLookupMissesAsWritten | apps/test-app-2/services/chain.ts:613-680 | as written, no validated-token key equals the lower-cased NECT address, so a lookup by that address finds nothing |
| Berachain.LowercaseKeys | apps/test-app-2/services/chain.ts:614 | applying the casing rule lower-cases every key, keeps every token, and yields keys that are all lower case |
| Berachain.ValidatedTokensInfoCorrected | apps/test-app-2/services/chain.ts:613-680 | the validated-token entries with the casing rule applied have only lower-case keys |
| Berachain.BerachainNetworkCorrected | apps/test-app-2/services/chain.ts:613-680 | the corrected Berachain network differs from the one as written only in its validated-token entries, whose keys are all lower case |
| Berachain.CorrectionChangesOnlyNect | apps/test-app-2/services/chain.ts:613-680 | applying the casing rule changes the NECT key and leaves the other eight entries as written |
| Berachain.LowercaseKeysFindEveryToken | apps/test-app-2/services/chain.ts:613-680 | with the casing rule applied, looking up any entry's lower-cased address finds a token, whatever case its key was written in |
| Berachain.CorrectedKeysFindNect | apps/test-app-2/services/chain.ts:613-680 | with the rule applied, looking up the lower-cased NECT address finds an entry |
| Wallet.CurrentChain | apps/wasabee/services/wallet.ts:33-45 | the current chain exists iff some network carries the current id, and is the last such network |
| Wallet.InitialWalletHasNoChain | apps/wasabee/services/wallet.ts:15-32 | a fresh wallet has no account, no current chain and is not initialised |
| Wallet.Accepts | apps/wasabee/services/wallet.ts:59-66 | the guard accepts iff the chain id is present and non-zero, the address is present and non-empty, some network carries the id, and the last network carrying it is active |
| Wallet.InitWallet | apps/wasabee/services/wallet.ts:57-98 | the wallet always takes the network list; each of the four guard failures changes nothing else; an accepted client sets id, account (stored mock account if non-empty, else the client's address), contracts and client, runs `init` on the current network only, and sets `isInit` iff it was set or the sync succeeds |
| Wallet.InitWalletKeepsInitialised | apps/wasabee/services/wallet.ts:57-98 | one call keeps an initialised wallet on an indexed, active chain with an account and contracts, and keeps the indexed ids |
| Wallet.RunInitKeepsInitialised | apps/wasabee/services/wallet.ts:47-98 | any sequence of calls made by the account reaction keeps that invariant, never resets `isInit`, and keeps the indexed ids |
| Wallet.RepeatedInitWalletDuplicatesTokens | apps/wasabee/services/wallet.ts:95 | two accepted calls run `init` twice on the same network, so its validated tokens are appended twice |

## Left out

- Time, logging and rendering:
  - The clock (`dayjs().unix()`) is the parameter `now`.
  - The console logging is left out.
  - The table's rendering, truncated hashes, links, the date column and the empty/loading rows are left out.
- Numbers:
  - Prices are exact reals.
  - JavaScript floating-point sums and divisions are not modelled.
  - The generated GraphQL types are not part of this model, and prices are taken to be numbers.
- PriceChange.CalculateToken24hPriceChange: if the indexer delivers prices as decimal strings, the source can behave differently from the model. The loops convert with `Number()`, but the fallbacks at calculateToken24hChange.ts:43 and :60 do not, so `=== 0` at :72 and :77 is false for the string `"0"`. With a recent average of `"0"` (from the first bucket) and a non-zero older average, the source returns percentage -100 where the model returns 0. With an initial price of `"0"` (older window empty), a recent average of the number 0 reaches :77 and gives (-0, 0), where the model returns (0, 100); a non-zero recent average reaches the division by zero at :86, where the model returns percentage 100. Only the all-numbers reading is modelled.
- TransactionHistory.AmountByType: BigNumber's 20-digit precision for intermediate division is not modelled. The division is exact, and the result is rounded once to three places. The two differ only for decimals above 20.
- TransactionHistory.Load: these parts are left out:
  - the indexer request itself. Only its outcome (rows and next-page flag, or a failure) is modelled.
  - overlapping loads, which can settle out of order. A second start while a load runs just keeps the flag set, and the first settlement clears it.
  - the extra load of page 1 triggered by `refreshTrigger`. It is not modelled as its own event: its start and settlement are like any other load's, and its page argument does not change the `page` state.
- The effect hooks' scheduling is left out: which loads React starts, and when. Load starts and settlements are events in `Run`.
- Wallet:
  - The mobx observable machinery and the account `reaction` are left out. `RunInit` stands for any sequence of calls.
  - The public client created from the chain is left out.
  - `localStorage` is the parameter `mockAccount`.
  - `StorageState.sync` is the parameter `syncSucceeds`.
  - The `accountShort`, `balance` and `publicClient` fields are left out.
- The module list that `wallet.ts` imports is `apps/wasabee/services/chain.ts`, which is not part of this model. It is modelled as `World.networks`, with the `Network` shape of `apps/test-app-2/services/chain.ts`.
- Token records:
  - `Token.getToken` is modelled as marking the record as a token instance. Its cache of instances is left out.
  - The on-chain reads of `token.init()` are left out.
  - Logo, router flags and the other display fields of a token record are left out.
- Network fields left out:
  - `nativeFaucet`, `officialFaucets` and the blacklists;
  - the commented-out test networks;
  - the `movementNetWork` and `sprotoNetWork` definitions, which are not in the exported list;
  - the non-network constants at the end of `chain.ts`.
- Berachain.BerachainNetworkAsWritten: the literal contract addresses and FTO token list of the Berachain configuration are a parameter `contracts`, not literals. The lemmas only carry them through.
- Of the native token and the faucet tokens of the Berachain configuration, only the address, name, symbol and decimals are modelled.
- Text.ToLower: only ASCII letters are lowered. Addresses are hexadecimal, so full Unicode case mapping is not modelled.
- A claim-LP row was possibly meant to show "-": the code writes that text for the case. But the code evaluates `"-"` as a bare statement and falls through to return `"0"` (TransactionHistory.tsx:102-105). Had it returned `"-"`, the Amount cell would show "NaN" (TransactionHistory.tsx:207), so the intent is not clear. The model follows the code; see `TransactionHistory.ClaimLpAmountIsZero`.

## Findings

| source | as written | input that shows it | evidently intended | confidence | as-written member | corrected member |
|---|---|---|---|---|---|---|
| apps/test-app-2/services/chain.ts:668 | the NECT key of Berachain's validated tokens is written in mixed case, against the lower-case rule stated at chain.ts:614 | looking up the lower-cased NECT address `0x1ce0a25d13ce4d52071ae7e02cf1f6606f4c79d3` (the form used for the raised NECT token at chain.ts:535) misses the mixed-case key | the key written in lower case, so lookups by lower-cased address find NECT | medium, not executed | Berachain.NectLookupMissesAsWritten | Berachain.LowercaseKeysFindEveryToken |
