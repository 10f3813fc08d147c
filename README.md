# Bulbasaur Cards dApp: verified model of its decision logic

The application is a browser front end for minting and opening collectible card
packs on PulseChain. Most of it renders pages and calls wallet and contract
libraries. This project models the decision logic inside it, with every network
read, fetch and transaction replaced by a parameter:

- **Tiered mint pricing** (`Minting`). Free packs go to whales first. Discounted
  packs go next, to whales and holders, out of what remains. Anything left pays
  the full price. `mint` submits `mintPacks(amount)` with that price as its value.
- **Holder tier** (`HolderEligibility`). The connected address is matched, ignoring
  case, against the whale list and then the holder list of `holders.json`. The
  result gives (tier, free packs, discounted packs, max mint 10, loading flag).
- **Pack discovery** (`PackMetadata`). Covers the `{id}` substitution of the
  ERC-1155 Multi Token Standard's metadata URI (lower-case hexadecimal, no `0x`,
  zero-padded to 64 characters), the metadata fetch for one pack, and the scan of
  pack ids 1 to 222 with the state it fills.
- **Card discovery** (`OpenedCards`). Covers the scan of card ids from
  `lastFoundCardId` up to 888, and the rescan reset.
- **Pack selection and opening** (`PackAmountTracker`). A state machine over the
  selected ids and the owned packs: toggle, open one, open selected, open all.
  Each open takes the transaction's outcome as a boolean.
- **Mint panel** (`MintControls`, `MintAmountControls`). Covers the benefits shown
  per tier, the mint button's text, action and disabled flag, and the amount
  stepper's clamps.
- **Collection statistics** (`CollectionStats`). Counts burned packs from the
  TransferSingle events and builds the three stat values.

Shared modules: `Opt` (the Option type), `Text` (ASCII case mapping, decimal
rendering, first-occurrence search) and `Chain` (the oracle types, `Owns`, and
`Hits`, the ascending scan over an id range that both scans use).

How the oracles stand in for I/O:

- A balance read is `nat -> Option<nat>`, where None means the read threw.
- A `uri` read is `nat -> Option<string>`.
- A fetch is `string -> Option<Response>`. A `Response` carries the `ok` flag and
  the parsed JSON body, if there is one.
- An opening transaction is a `success` boolean.
- The event log is a sequence of `TransferSingle` values.

The wallet state (`address`, `isConnected`) is passed in as parameters. An address
counts as present only when it is defined and non-empty, as it does in JavaScript.

Two points where the code does something a reader might not expect:

- The code never halves the price. The discount step reads
  `CONTRACT_CONFIG.discountedPrice`, which src/config/contract.ts does not define.
  The model takes both prices as parameters and records the shipped behaviour as a
  finding, below.
- The card scan does not always cover 223–888. It starts at the current
  `lastFoundCardId`, which starts at 223 and moves past each card found.

## Model

| member | source | states |
|---|---|---|
| `Minting.Allocate` | src/hooks/useMinting.ts:16-41 | Every bucket is non-negative and within its cap, and the three buckets add up to the amount (0 when the amount is not positive). Only whales get free packs; public gets no discount. A cheaper bucket is used up before a dearer one is touched, and an eligible bucket is filled as far as the order allows. |
| `Minting.CalculateMintPrice` | src/hooks/useMinting.ts:16-41 | The three guarded steps on `totalPrice`/`remainingAmount` give exactly `MintPrice`: discounted price × discounted count + full price × full-price count. |
| `Minting.Mint` | src/hooks/useMinting.ts:43-56 | Without an address no call is made. Otherwise the call is `mintPacks` with argument `[mintAmount]`, and its value is the computed price. |
| `Minting.MintPriceFormula` | src/hooks/useMinting.ts:21-38 | For amount ≥ 0 the total is `discountedPrice·d + mintPrice·(amount − f − d)`. Here f = min(freePacks, amount) for an eligible whale, else 0. And d = min(discountedPacks, amount − f) for an eligible whale or holder, else 0. |
| `Minting.PublicPaysFullPrice` | src/hooks/useMinting.ts:27-38 | The public tier pays exactly max(amount, 0) × full price. |
| `Minting.HolderNeverFree` | src/hooks/useMinting.ts:21 | A holder's price does not depend on `freePacks`: it never gets a free pack. |
| `Minting.WhaleWithinFreePacksPaysNothing` | src/hooks/useMinting.ts:21-24 | A whale with 0 < amount ≤ freePacks pays 0. |
| `Minting.NonPositiveAmountIsFree` | src/hooks/useMinting.ts:21-35 | An amount ≤ 0 costs 0 for every tier. |
| `Minting.OneMorePack` | src/hooks/useMinting.ts:16-41 | One more pack lands in exactly one of the three buckets and leaves the other two unchanged. |
| `Minting.OneMorePackPrice` | src/hooks/useMinting.ts:16-41 | One more pack adds 0, the discounted price or the full price to the total. |
| `Minting.MintPriceNonNegative` | src/hooks/useMinting.ts:16-41 | With non-negative prices the total is non-negative. |
| `Minting.MintPriceMonotone` | src/hooks/useMinting.ts:16-41 | With non-negative prices the total never decreases as the amount grows. |
| `Minting.WhaleThreePacksExample` | src/hooks/useMinting.ts:16-41 | A whale with 1 free and 5 discounted packs buying 3 gets (1 free, 2 discounted, 0 full). At half price it pays 2 × 45000 = 90000, and likewise with the configured 90,000 PLS price. |
| `Minting.ShippedMintPrice` | src/hooks/useMinting.ts:27-30 | With the configuration as shipped, the price computation throws exactly when the discount step runs. Otherwise it is the full price times the full-price count. |
| `Minting.ShippedDiscountThrows` | src/hooks/useMinting.ts:27-30 | A holder buying 1 pack, and a whale buying 2, make the shipped computation throw. A whale buying its single free pack gets 0. |
| `Minting.MintPrice` | src/hooks/useMinting.ts:16-41 | When the discounted price lies between 0 and the full price, the total lies between 0 and the full price for every requested pack. |
| `HolderEligibility.UseHolderEligibility` | src/hooks/useHolderEligibility.ts:17-44 | Whale if and only if the address is present and listed as a whale, ignoring case. Holder if and only if it is present, not a whale, and listed as a holder. Public otherwise. free = 1 for whales, else 0. discounted = 5 for whales and holders, else 0. maxMintAmount = 10 always. isLoading = !isConnected. |
| `HolderEligibility.WhalePrecedence` | src/hooks/useHolderEligibility.ts:27-34 | An address in both lists is a whale (1 free, 5 discounted). |
| `HolderEligibility.NoAddressIsPublic` | src/hooks/useHolderEligibility.ts:21-26 | No address gives public with 0 free and 0 discounted. |
| `HolderEligibility.CaseInsensitiveAddress` | src/hooks/useHolderEligibility.ts:18 | Addresses equal up to case get the same result. |
| `HolderEligibility.UpperCaseAddress` | src/hooks/useHolderEligibility.ts:18 | Upper-casing the address does not change the result. |
| `HolderEligibility.CaseInsensitiveLists` | src/hooks/useHolderEligibility.ts:27-31 | Changing the case of any list entry does not change the result. |
| `PackMetadata.FormatUri` | src/hooks/usePackMetadata.ts:16-26 | A URI without `{id}` is returned unchanged. Otherwise the first `{id}`, and only it, is replaced by the formatted id, and the text around it is kept. |
| `PackMetadata.ToHex` | src/hooks/usePackMetadata.ts:20 | `toString(16)` gives lower-case hex digits only, at least one, with no leading zero unless the id is 0. |
| `PackMetadata.FormattedIdRoundTrip` | src/hooks/usePackMetadata.ts:20 | The formatted id is lower-case hex without `0x`, at least 64 characters long, exactly 64 below 16^64, and it parses back to the id. |
| `PackMetadata.SubstitutedIdRoundTrip` | src/hooks/usePackMetadata.ts:19-21 | In the formatted URI, the text where the first `{id}` stood is lower-case hex that parses back to `tokenId`. The prefix and suffix are unchanged. |
| `PackMetadata.PlaceholdersDisjoint` | src/hooks/usePackMetadata.ts:21 | Two occurrences of `{id}` never overlap. |
| `PackMetadata.LaterPlaceholdersSurvive` | src/hooks/usePackMetadata.ts:21 | Every `{id}` after the first is still in the result, shifted by the length change. |
| `PackMetadata.FetchPackMetadata` | src/hooks/usePackMetadata.ts:34-70 | The entry always carries the id. A failed `uri` read, an empty URI, a failed request, a non-`ok` response or a non-JSON body give `{id}` alone. Otherwise the entry takes image and name from the JSON fetched at the formatted URI. |
| `PackMetadata.MetadataOf` | src/hooks/usePackMetadata.ts:99-100 | One metadata entry per owned id, in the same order. |
| `PackMetadata.ScanPacks` | src/hooks/usePackMetadata.ts:86-105 | Ids 1..222 are visited in ascending order. `owned` is exactly the ids whose read succeeded with a positive balance, strictly increasing. `totalOwned` is the sum of their balances. The metadata list matches `owned` entry for entry. |
| `PackMetadata.SumOfOwnedAtLeastCount` | src/hooks/usePackMetadata.ts:95-97 | The ids found all have positive balances, so the total is at least their number. |
| `PackMetadata.TotalPositiveIffFound` | src/hooks/usePackMetadata.ts:107-112 | The scan's total is positive exactly when some pack was found. |
| `PackMetadata.PackMetadataHook.CheckAllTokens` | src/hooks/usePackMetadata.ts:73-115 | Without a connected address nothing changes and no notification is raised. Otherwise the list becomes the metadata of the scan, loading ends, and "Packs found" is raised, with the total and the ids, exactly when something was found. |
| `PackMetadata.PackMetadataHook.constructor` | src/hooks/usePackMetadata.ts:29-30 | The hook starts with an empty list, loading. |
| `Chain.HitsMembership` | src/hooks/usePackMetadata.ts:86-101 | An id is collected by a scan exactly when it lies in the scanned range and passes the scan's test. |
| `Chain.HitsIncreasing` | src/components/OpenedCards.tsx:87-96 | A scan collects ids in strictly increasing order. |
| `Chain.HitsSound` | src/components/OpenedCards.tsx:87-96 | Every collected id lies in the range and passes the test. |
| `Chain.HitsComplete` | src/hooks/usePackMetadata.ts:86-101 | Every id of the range that passes the test is collected. |
| `OpenedCards.CheckCardOwnership` | src/components/OpenedCards.tsx:29-43 | A failed read means not owned. A successful read means owned exactly when the balance is positive. |
| `OpenedCards.FetchCardMetadata` | src/components/OpenedCards.tsx:45-67 | Null exactly when the `uri` read fails, the URI is empty, the request fails or the body is not JSON. There is no `{id}` substitution and no `ok` check. A card that is present carries the id, image and name. |
| `OpenedCards.CardsOf` | src/components/OpenedCards.tsx:90-92 | At most one card per id. When every id has metadata, exactly those cards, in order. |
| `OpenedCards.FoundIdsSpec` | src/components/OpenedCards.tsx:87-94 | The ids a scan appends are exactly the owned ids with metadata in [lastFoundCardId, 888], strictly increasing. |
| `OpenedCards.FoundCardsHaveFoundIds` | src/components/OpenedCards.tsx:90-92 | The appended cards carry exactly the found ids, in order. |
| `OpenedCards.ScanRange` | src/components/OpenedCards.tsx:87-96 | The loop collects the found ids and their cards. The last-found id ends up one past the largest id found, or unchanged when none is found. |
| `OpenedCards.OpenedCardsState.ScanCards` | src/components/OpenedCards.tsx:81-100 | Without a connected address nothing changes. Otherwise the found cards are appended, `lastFoundCardId` moves past the last one, and loading ends. The state invariant holds: card ids increase and lie in [223, lastFoundCardId). |
| `OpenedCards.AppendKeepsValid` | src/components/OpenedCards.tsx:87-94 | Appending one scan's cards keeps the card ids strictly increasing, below the new `lastFoundCardId`, and that id within [223, 889]. |
| `OpenedCards.OpenedCardsState.TriggerRescan` | src/components/OpenedCards.tsx:69-74 | Cards are emptied, `lastFoundCardId` is set back to 223 and `scanTrigger` goes up by 1. |
| `OpenedCards.OpenedCardsState.constructor` | src/components/OpenedCards.tsx:19-22 | No cards, loading, `lastFoundCardId` 223, `scanTrigger` 0. |
| `PackAmountTracker.ToggleMembership` | src/components/PackAmountTracker.tsx:20-26 | Toggling a present id removes every copy of it. Toggling an absent id appends it at the end. Other ids keep their membership. |
| `PackAmountTracker.ToggleTwiceAbsent` | src/components/PackAmountTracker.tsx:20-26 | Toggling an absent id twice restores the very same list. |
| `PackAmountTracker.ToggleTwicePresent` | src/components/PackAmountTracker.tsx:20-26 | Toggling a present id twice restores the same set of ids. |
| `PackAmountTracker.ToggleKeepsNoDuplicates` | src/components/PackAmountTracker.tsx:20-26 | Toggle keeps a duplicate-free selection duplicate-free. |
| `PackAmountTracker.WithoutMembership` | src/components/PackAmountTracker.tsx:23 | Filtering out an id keeps exactly the other elements. |
| `PackAmountTracker.WithoutKeepsNoDuplicates` | src/components/PackAmountTracker.tsx:23 | Filtering out an id keeps a duplicate-free list duplicate-free. |
| `PackAmountTracker.RemovePacksMembership` | src/components/PackAmountTracker.tsx:52 | A pack survives the open filter exactly when its id was not sent. |
| `PackAmountTracker.RemovePacksConcat` | src/components/PackAmountTracker.tsx:52 | The filter works piecewise over concatenation, so the packs that stay keep their order. |
| `PackAmountTracker.RemovePacksNoneSent` | src/components/PackAmountTracker.tsx:32 | A list that holds none of the sent ids is left as it is. |
| `PackAmountTracker.RemovePacksAllSent` | src/components/PackAmountTracker.tsx:52 | A list whose ids were all sent is emptied. |
| `PackAmountTracker.OpenAllRemovesEverything` | src/components/PackAmountTracker.tsx:60-66 | Filtering out all current pack ids empties the list, the state that open-all sets directly. |
| `PackAmountTracker.PackTracker.constructor` | src/components/PackAmountTracker.tsx:15-18 | The selection starts empty, over the scanned packs, with no animation. |
| `PackAmountTracker.PackTracker.HandleTogglePack` | src/components/PackAmountTracker.tsx:20-26 | The selection becomes `Toggle` of the old selection and stays duplicate-free. Nothing else changes. |
| `PackAmountTracker.PackTracker.HandleOpenPack` | src/components/PackAmountTracker.tsx:28-38 | The animation starts and `[packId]` is sent. On success exactly that id leaves the pack list, the selection is cleared and a rescan is requested. On failure both lists are unchanged. |
| `PackAmountTracker.PackTracker.HandleOpenSelected` | src/components/PackAmountTracker.tsx:40-58 | An empty selection makes no request and changes nothing. Otherwise the selection is sent with the animation on. On success the selected ids leave the pack list and the selection is cleared. On failure both lists are unchanged. |
| `PackAmountTracker.PackTracker.HandleOpenAll` | src/components/PackAmountTracker.tsx:60-71 | Every current pack id is sent with the animation on. On success both lists are emptied. On failure both are unchanged. |
| `PackAmountTracker.Without` | src/components/PackAmountTracker.tsx:23 | The result never holds the id and is no longer than the list. It is shorter exactly when the id was in the list. |
| `PackAmountTracker.Toggle` | src/components/PackAmountTracker.tsx:21-25 | The id ends up selected exactly when it was not selected before. The list grows by one when the id is added, and shrinks when it is removed. |
| `PackAmountTracker.RemovePacks` | src/components/PackAmountTracker.tsx:52 | Every pack that stays was in the list and has an id that was not sent. The list never grows. |
| `MintAmountControls.Decrement` | src/components/mint/MintAmountControls.tsx:18 | `max(1, m − 1)`: always ≥ 1, equal to m − 1 above 1, and 1 otherwise. |
| `MintAmountControls.Increment` | src/components/mint/MintAmountControls.tsx:26 | `min(max, m + 1)`: always ≤ max, equal to m + 1 below max, and max otherwise. |
| `MintAmountControls.StepsStayInRange` | src/components/mint/MintAmountControls.tsx:18-26 | From [1, max], both buttons stay in [1, max]. |
| `MintAmountControls.EnabledExactlyWhenMoving` | src/components/mint/MintAmountControls.tsx:16-28 | "−" is enabled (m > 1) exactly when pressing it lowers the amount. "+" is enabled (m < max) exactly when pressing it raises it. |
| `MintAmountControls.IncrementUndoesDecrement` | src/components/mint/MintAmountControls.tsx:18-26 | For 1 < m ≤ max, decrement then increment gives back m. |
| `MintAmountControls.DecrementDisabled` | src/components/mint/MintAmountControls.tsx:19 | "−" is disabled (`mintAmount <= 1`) exactly when pressing it would not lower the amount. |
| `MintAmountControls.IncrementDisabled` | src/components/mint/MintAmountControls.tsx:27 | "+" is disabled (`mintAmount >= maxMintAmount`) exactly when pressing it would not raise the amount. |
| `MintControls.GetBenefitsDisplay` | src/components/MintControls.tsx:15-50 | Whales see free and discounted counts, holders the discounted count only, and a public or missing tier sees nothing. |
| `MintControls.MintButton` | src/components/MintControls.tsx:84-89 | Disabled exactly while minting. "Minting..." replaces the label then. Mints when connected, connects otherwise. |
| `MintControls.DisconnectedLabel` | src/components/MintControls.tsx:53 | Disconnected, the label is "Connect Wallet" whatever else holds. |
| `MintControls.LabelNoun` | src/components/MintControls.tsx:55-59 | Connected, the label ends in "Packs" when the amount is above 1, and in " Pack" otherwise. |
| `MintControls.NoFInPlainLabel` | src/components/MintControls.tsx:53-59 | The label parts other than " FREE " contain no 'F'. |
| `MintControls.FreeLabelIff` | src/components/MintControls.tsx:52-60 | The label contains "FREE" exactly when connected, the tier is whale and mintAmount ≤ freePacks. |
| `MintControls.FreeLabelMeansZeroPrice` | src/components/MintControls.tsx:56-58 | A FREE label for at least one pack implies the price computation gives 0 for the same inputs. |
| `MintControls.GetMintButtonText` | src/components/MintControls.tsx:52-60 | Disconnected, the label is "Connect Wallet". Connected, it starts with "Mint ", then the amount in decimal, then a space. |
| `CollectionStats.BurnedPacks` | src/components/CollectionStats.tsx:30-35 | The burned count never exceeds the number of events. |
| `CollectionStats.BurnedPacksCountsEvents` | src/components/CollectionStats.tsx:29-35 | The count equals the number of event positions sent to the zero address with 1 ≤ id ≤ 222. It counts events, not distinct ids. |
| `CollectionStats.BurnedPacksConcat` | src/components/CollectionStats.tsx:30-35 | The count of a concatenation is the sum of the counts. |
| `CollectionStats.NonBurnNeverCounts` | src/components/CollectionStats.tsx:31-32 | An event sent elsewhere than the zero address, or with an id outside 1..222, never changes the count, wherever it stands. |
| `CollectionStats.RepeatedBurnCountsTwice` | src/components/CollectionStats.tsx:29-35 | Two burns of the same pack id count 2. |
| `CollectionStats.HookTotalPacks` | src/hooks/useContractData.ts:30 | The `totalPacks` handed over is always at least 1. It is the read value when that is positive, and 222 when the read is missing or 0. |
| `CollectionStats.CollectionStatsValues` | src/components/CollectionStats.tsx:41-60 | "Minted" is always "222/222". Total supply is the hook's `totalPacks` in decimal: that text is never empty, so the `"222"` fallback never applies. "Burned Packs" is the count in decimal. |
| `CollectionStats.TotalSupplyShown` | src/components/CollectionStats.tsx:44 | From the read to the display: a positive read is shown in decimal, and a missing read or a read of 0 shows "222". |

The stepper clamps in src/components/MintControls.tsx:69-78 are the same
expressions as in src/components/mint/MintAmountControls.tsx:16-28. Both are
modelled by `MintAmountControls.Decrement`, `Increment`, `DecrementDisabled` and
`IncrementDisabled`.

## Findings

| source | as written | input that shows it | evidently intended | confidence | as-written member | corrected member |
|---|---|---|---|---|---|---|
| src/hooks/useMinting.ts:29 | `BigInt(CONTRACT_CONFIG.discountedPrice)` reads an entry that src/config/contract.ts:1-29 does not define, so `BigInt(undefined)` throws a TypeError. `mint` catches it and submits nothing. | A holder (5 discounted packs) minting 1 pack, or a whale (1 free, 5 discounted) minting 2. | A configured discounted price, between 0 and the full price. | not executed; the TypeError follows from the language definition of `BigInt` | `Minting.ShippedDiscountThrows` | `Minting.WhaleThreePacksExample` |

The rest of the model uses `Minting.CalculateMintPrice`, which takes the discounted
price as a parameter and always returns a total.

## Left out

- Minting.Mint: models `mint` with the discounted price as a parameter, so it
  always submits a call when an address is present. As shipped, the discount step
  throws, the `catch` at src/hooks/useMinting.ts:62-69 swallows it, and nothing is
  submitted, for example for a holder buying 1 pack. `Minting.ShippedMintPrice`
  models that shipped computation. The success and error toasts are not modelled.
- Network and wallet I/O: contract reads, `getLogs`, `writeContract`, `fetch` and
  JSON parsing, client creation and wagmi hooks. They become the oracle parameters
  and the `success` flag described above. Console logging is left out, and so are
  the toast texts other than the "Packs found" data.
- React scheduling: effects re-running on their dependencies, batched `setState`,
  and the late `cards.length` log in src/components/OpenedCards.tsx:99. Each scan
  is one atomic call.
- The 5-second delayed rescan: src/hooks/usePackOperations.ts:32-34 is not part of
  this model. `rescan` outputs stand for the immediate `triggerCardRescan` call.
- `PackMetadata.PackMetadataHook.CheckAllTokens` and
  `OpenedCards.OpenedCardsState.ScanCards` update the state once, after the loop.
  The source appends to it at every hit. The states in between are never observed
  in this model.
- The holder lists in `holders.json` are not part of this model. They are a
  parameter.
- `HolderEligibility.UseHolderEligibility`, `Text.Lower`: the model lower-cases
  ASCII letters only, where `toLowerCase` is full Unicode. Wallet addresses are
  hexadecimal, so nothing relevant is lost.
- `PackMetadata.FormatUri`: token ids are natural numbers. A negative or fractional
  JavaScript number, or one beyond 2^53 where `toString(16)` loses precision, is
  not modelled. The scans only pass ids from 1 to 888.
- `PackMetadata.ScanPacks`: `totalOwned += Number(result)` is modelled as exact.
  The loss of precision above 2^53 is left out.
- `Minting.CalculateMintPrice`: amounts and pack counts are integers. JavaScript's
  fractional numbers are not modelled.
- Floating point: the completion percentage (src/components/CardStats.tsx:26) and
  the PLS display (src/pages/Index.tsx:109).
- Hooks outside the modelled core: src/hooks/useNFTs.ts, src/hooks/usePackData.ts,
  src/hooks/usePackOperations.ts. From src/hooks/useContractData.ts, only the
  `totalPacks` mapping at line 30 is modelled (`CollectionStats.HookTotalPacks`).
  Its `totalMinted` and `mintPrice` values are not shown by the modelled components.
- The wallet-connect error-to-toast mapping (src/pages/Index.tsx:31-47).
- Presentation: styling, routing, modals, grids, the duplicate
  src/components/mint/BenefitsDisplay.tsx, and the ABI data.
- The `MintControls` component signature. The file has no imports, its props type
  `MintControlsProps` is defined nowhere, and src/pages/Index.tsx:114 renders it
  without props. Only the bodies of
  its decision functions are modelled.
