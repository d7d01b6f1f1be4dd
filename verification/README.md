# Verified model of the indexer and its web client

The indexer keeps database tables that mirror an on-chain NFT marketplace, rebuilds token ledgers
from transfer logs, and stores profile records in a file. The web client signs wallets in, scans
logs, packs call data by hand, limits request rates and works out how much of a holding may still
be listed. This project models those state machines and proves what they are meant to guarantee,
over whole runs and all interleavings. `dafny verify dfyconfig.toml` checks everything.

## Layout

| module | models |
|---|---|
| `Marketplace` | the contract: storage, calls, events, blocks |
| `SyncRun`, `ExpiryText`, `ListingMirror` | listings: full rescans, event-driven syncs, expiry sweeps, checkpoints and retention, cut off after any database step |
| `OfferChain`, `OfferHistory`, `OfferMirror`, `OfferHistories` | offers: what the chain says about one, how often one is settled, the syncs, and whole histories of them |
| `Holdings`, `SettledHoldings`, `Erc1155Ledger` | settlement of one accepted offer and of a whole history of them; the balance fold of the backfill |
| `LogScanner`, `LogCache`, `ConcurrentMap` | adaptive log scan; cached, de-duplicated, spaced log scan; bounded concurrency |
| `WalletSession` | the wallet sign-in and logout protocol |
| `Wei`, `AbiSpec`, `Abi` | decimal amounts; the ABI encoding of the Solidity Contract ABI Specification, section "Formal Specification of the Encoding", with a decoder; the hand-packed calls |
| `Guestbook`, `RequestRateLimit`, `TimeWindows` | the two rate limiters against reference limiters over the full history |
| `Availability` | the client's and the indexer's availability arithmetic |
| `ProfileNames`, `ProfileStore`, `ProfileWrites` | name normalisation, link and transfer, the serialised write queue |
| `Numerals`, `Texts`, `Options` | numerals and their character order, trimming and letter case |

Code that updates variables in place is written as methods over class fields or loops, each proved
against a function or relation on values. Code that suspends and interleaves is a transition system
whose steps are the stretches between two suspensions.

## Assumptions

The mirrors depend on these, and they are preconditions of the theorems (`SyncRun.Ordered`,
`ListingMirror.Plausible`, `OfferHistories.Plausible`):

- block numbers read by a run, and from run to run, never go backwards, and the chain only grows;
- the clock never goes backwards, and for listings is not behind the block whose number the run asks
  for first;
- expiry texts compare with the clock as numbers do. The contract's longest duration of 365 days makes
  this true as long as block times and clock lie between September 2001 and November 2285
  (`ContractKeepsSweepRight`);
- for offers, a full rescan starts no later than the first acceptance. Neither the clock nor the expiry
  texts matter for how often an offer is settled;
- one row step is atomic, except that an offer's step may also be cut between storing the
  transaction hash and settling;
- a granted log request returns exactly the logs of its range;
- a row's update time is the clock reading of the run that wrote it.

That storage changes emit events is not assumed but proved of the contract, and it has an
exception: relisting a token deactivates its expired listing silently. This is why the clock
condition is needed (`ListingMirror.LaggingClockMisses`).

## Where the code does not do what one would expect

- The expiry sweep compares texts. `SweepAgreesExactly` says when that is right; on the last second with
  a ten-digit time it expires a listing the contract has just accepted (`SweepCanExpireEarly`).
- Retention deletes the row that remembers a settlement. An offer is settled once for each row step that
  stores its hash for the first time since the beginning or since such a deletion and is not cut off
  (`SettledPerOpening`, `SettledTwiceIff`); `RetentionSettlesAgain` is a history that settles one twice.
- A crash between storing an offer's hash and moving the holdings means the holdings never move; so
  does a failure inside the settlement, which the code ignores.
- The balance fold applies all single transfers before all batches, and forgives what a holder is
  not recorded as having. `NothingForgivenIff` says exactly when supply is right, `SinglesFirstCanInflate`
  gives a case where it is not.
- `encodeUint256` accepts integers of 2^256 and more and then yields more than one word
  (`UintIsWordIff`, `OnlyFittingEncode`).
- Amounts with a second dot are accepted and the rest is ignored (`SecondDotIgnored`).
- A route chosen with `routeSlug` is forgotten when the records are read back, because the slug is
  recomputed from the full name: two profiles of one owner can come to share a route
  (`OverrideSharesRoute`). So can a name and the same name behind a dot and a byte order mark, which
  JavaScript trims and ENS normalisation ignores (`DotSharesRoute`). `LinkDistinctIff` is the exact condition.
- Reading the profile records answers with no records when the file cannot be read or parsed; the next
  accepted link then replaces the file by its own record (`FailedReadLosesTheRest`).
- A precomputed reserved amount agrees with a scan exactly when only the first listing with the
  excluded key has an amount (`PathsAgreeIff`); a unique key is the usual case.
- With no items, nothing is found insufficient although no smallest availability is known
  (`SufficientIffSmallestMeets`).

## Model

| member | source | states |
|---|---|---|
| `Marketplace.ExecuteAccounted` | packages/contracts/src/core/Marketplace.sol:159-234 | every call changes a listing only with an event about it, except that an expired listing may go inactive |
| `Marketplace.ChangesAreLogged` | packages/contracts/src/core/Marketplace.sol:427-445 | over any two blocks of any chain: a listing no log between them mentions is the same, or it expired and went inactive silently |
| `Marketplace.OfferEndsAtMostOnce` | packages/contracts/src/core/Marketplace.sol:236-328 | over the whole chain an offer's logs are its creation, then at most one cancellation or acceptance, which fit its storage |
| `Marketplace.LogsTellTheCall` | packages/contracts/src/core/Marketplace.sol:159-328 | each log of a call says who called, about which listing or offer, and with which terms it was stored; a call without logs changed nothing |
| `Marketplace.ListingTermsNeverChange` | packages/contracts/src/core/Marketplace.sol:159-236 | over any two blocks no listing disappears and only its activity changes |
| `Marketplace.OneActivePerSellerAndToken` | packages/contracts/src/core/Marketplace.sol:178-195 | over any chain a seller never has two active listings of one token |
| `Marketplace.ListingEndsAtMostOnce` | packages/contracts/src/core/Marketplace.sol:159-236 | over any chain a listing is created once and ends at most once, by a sale or a cancellation; without such a log it is active or has expired |
| `Marketplace.OneLogEach` | packages/contracts/src/core/Marketplace.sol:159-236 | in any range a listing has at most one creation log and at most one log of its end |
| `Marketplace.ScanOfKind` | services/indexer/src/indexer.ts:3773-3792 | a scan for one event kind finds exactly the logs of that kind in the range |
| `SyncRun.LatestByIdSound` | services/indexer/src/indexer.ts:3794-3817 | the per-id map built from a scan holds the last log of each id, and an id is in it exactly when some log is about it |
| `Numerals.LexIsNumeric` | services/indexer/src/indexer.ts:3601-3620 | for digit texts of equal length, character order is numeric order, both ways |
| `Numerals.LexByPrefix` | services/indexer/src/indexer.ts:3601-3620 | character order of any two digit texts: common prefix as numbers, then length |
| `ExpiryText.SweepAgreesExactly` | services/indexer/src/indexer.ts:3601-3620 | the sweep's text comparison decides as the numbers would if and only if the texts are equally long or the shorter is ordered rightly against the longer's leading digits |
| `ExpiryText.TenDigitTimesAgree` | services/indexer/src/indexer.ts:3601-3620 | the sweep is right for all Unix times from 2001-09-09 to 2286-11-20 |
| `Marketplace.EverythingExpiresWithin` | packages/contracts/src/core/Marketplace.sol:460-463 | over any chain every listing and offer expires after the first block time and within 365 days of the last |
| `ListingMirror.ContractKeepsSweepRight` | packages/contracts/src/core/Marketplace.sol:460-463 | with block times and clock in the stated range the sweep is right for every listing of every chain |
| `ListingMirror.SweepCanExpireEarly` | services/indexer/src/indexer.ts:3601-3620 | beyond the range: a chain whose contract accepts a listing that the sweep of the same second expires |
| `ListingMirror.ListingMirror.ExpireListings` | services/indexer/src/indexer.ts:3601-3620 | per row: columns and settlement stay, and it is active exactly when it was and its expiry text is after the clock's |
| `ListingMirror.ListingMirror.PutRow` | services/indexer/src/indexer.ts:3658-3714 | one row step writes the contract's columns and activity as read, and the table stays consistent with the checkpoint |
| `ListingMirror.ListingMirror.PutAllRows` | services/indexer/src/indexer.ts:3640-3727 | the row steps of a rescan, in any order and cut off anywhere, keep the table consistent; if all ran every listing is up to date and its settlement columns are empty |
| `ListingMirror.ListingMirror.FullSync` | services/indexer/src/indexer.ts:3622-3747 | cut off after any step the checkpoint is unchanged and the table consistent; finished, every listing has a row with exactly the contract's collection, token id, seller, amount, standard, payment token, price and expiry, and no buyer, sale time, cancellation time or transaction |
| `ListingMirror.ListingMirror.PutAffectedRows` | services/indexer/src/indexer.ts:3825-3944 | the row steps of an event-driven sync, in any order and cut off anywhere, keep consistency and touch no other row; if all ran no affected listing is skipped and each row has the settlement columns its logs call for |
| `ListingMirror.ListingMirror.SweepAndAdvance` | services/indexer/src/indexer.ts:3946-3949 | sweeping and then moving the checkpoint loses nothing and leaves the settlement columns alone; cut off between them the old checkpoint still stands |
| `ListingMirror.ListingMirror.SyncListings` | services/indexer/src/indexer.ts:3749-3949 | an event-driven sync establishes the very relation a full rescan at the same head and time establishes, every row with the contract's columns; each sale since the checkpoint leaves buyer, time and transaction, each cancellation its time and transaction, each mere listing its transaction, and unmentioned rows keep theirs; cut off anywhere it leaves a table from which the next run recovers |
| `ListingMirror.ListingMirror.Prune` | services/indexer/src/indexer.ts:4466-4523 | retention drops only inactive outdated rows and keeps consistency |
| `ListingMirror.ReadEvents` | services/indexer/src/indexer.ts:3773-3823 | the three scans affect exactly the listings the logs since the checkpoint mention and hold each of these logs under its id, or a refused request stops the run before any row is written |
| `ListingMirror.OnlyLogOfItsKind` | services/indexer/src/indexer.ts:3794-3817 | the last log per id that a scan keeps is the only one of its kind, so nothing is overwritten |
| `ListingMirror.ReportsTheLogs` | services/indexer/src/indexer.ts:3862-3921 | the settlement columns after the sweep, said of the logs: sold, cancelled, only listed, or not mentioned |
| `ListingMirror.AffectedAreMentioned` | services/indexer/src/indexer.ts:3794-3817 | listed, cancelled and sold logs together cover every mention, and nothing else |
| `ListingMirror.UnmentionedStaysShown` | services/indexer/src/indexer.ts:3765-3823 | a row right at an old block is right at a newer one if no log between is about it and the clock has reached the newer block |
| `ListingMirror.LaggingClockMisses` | packages/contracts/src/core/Marketplace.sol:436-445 | the clock condition cannot be dropped: a concrete chain where an unmentioned row becomes wrong |
| `ListingMirror.WriteTracks` | services/indexer/src/indexer.ts:3658-3714 | writing one row from any block the run may read keeps every row's relation to the chain |
| `ListingMirror.SweepTracks` | services/indexer/src/indexer.ts:3601-3620 | a sweep brings every row's activity from any earlier time to now |
| `ListingMirror.AdvanceTracks` | services/indexer/src/indexer.ts:3946-3949 | the checkpoint may move to the head once the mentioned rows are rewritten and the rest swept |
| `ListingMirror.PresenceAdvances` | services/indexer/src/indexer.ts:3825-3949 | if every listing had a row at the old checkpoint, every listing has one at the new |
| `ListingMirror.TracksMeansRescan` | services/indexer/src/indexer.ts:3622-3747 | that relation fixes the result: a row is active exactly if its listing is active and unexpired at the head, and its columns are the listing's fields one by one, the expiry as a number |
| `ListingMirror.TracksMean` | services/indexer/src/indexer.ts:3622-3949 | when newer blocks answered the run: the columns all the same, and activity as of a block from the head on |
| `ListingMirror.AnyHistory` | services/indexer/src/indexer.ts:4382-4432 | over any history of full, event-driven, repeated and interrupted syncs with retention between, from any table without checkpoint: after each finished sync every row has its listing's fields, and is active exactly if the listing is at a block from the head on; a last run that is only rate-limited and has enough steps finishes |
| `OfferChain.AcceptanceIsUnique` | packages/contracts/src/core/Marketplace.sol:283-328 | an offer has at most one acceptance log in any chain |
| `OfferChain.AcceptanceNamesTheOffer` | packages/contracts/src/core/Marketplace.sol:294-328 | an acceptance log names the stored offer's buyer and quantity, and a seller who is not the buyer |
| `OfferChain.OneEnd` | packages/contracts/src/core/Marketplace.sol:283-328 | an offer has at most one log of its acceptance or cancellation |
| `OfferChain.NothingAfterAcceptance` | packages/contracts/src/core/Marketplace.sol:283-328 | after its acceptance no later block mentions an offer |
| `OfferChain.TermsNeverChange` | packages/contracts/src/core/Marketplace.sol:238-328 | over any two blocks no offer disappears and only its activity changes |
| `OfferChain.EndedIsInactive` | packages/contracts/src/core/Marketplace.sol:283-328 | an offer whose cancellation or acceptance is logged is inactive from then on |
| `OfferChain.UnmentionedOfferStays` | packages/contracts/src/core/Marketplace.sol:238-328 | an offer no log between two blocks mentions is the same at both: offers never change silently |
| `OfferHistory.SettledPerOpening` | services/indexer/src/indexer.ts:4074-4157 | the number of settlements is the number of row steps that store the hash for the first time since the beginning or since a drop of the row and are not cut off |
| `OfferHistory.SettledTwiceIff` | services/indexer/src/indexer.ts:4466-4523 | settled twice if and only if two such steps have a drop of the row between them |
| `OfferHistory.NeverDroppedIsOnce` | services/indexer/src/indexer.ts:4074-4157 | a row never dropped: at most once, and exactly once if the hash was stored and no step cut off |
| `OfferHistory.RunSettles` | services/indexer/src/indexer.ts:4289-4372 | a run of whole steps settles an offer it stores exactly when the row did not hold the hash |
| `OfferMirror.RowStepKeeps` | services/indexer/src/indexer.ts:4074-4157 | a row step, whole or cut between storing the hash and settling, keeps: a row has its offer's terms, a stored hash and seller are the acceptance's, the history says where hashes are stored, and the settlements are those the history counts |
| `OfferMirror.OfferMirror.ExpireOffers` | services/indexer/src/indexer.ts:3951-3971 | per row: active offers whose expiry text is not after the clock's become expired, the rest stays, and so do stored hashes |
| `OfferMirror.OfferMirror.Prune` | services/indexer/src/indexer.ts:4466-4523 | exactly the inactive rows not updated for the retention days go; a row that holds a hash goes exactly when it is old enough |
| `OfferMirror.OfferMirror.PutRow` | services/indexer/src/indexer.ts:4269-4374 | writes the row and settles if and only if the stored hash is not the acceptance's; cut off, nothing happened or the row was stored and not settled; no other row changes |
| `OfferMirror.OfferMirror.TakeStep` | services/indexer/src/indexer.ts:4269-4374 | one more offer is done, or the run ended inside its step |
| `OfferMirror.OfferMirror.PutRows` | services/indexer/src/indexer.ts:4255-4375 | in any order each chosen offer takes exactly one row step; cut off anywhere, every row is as before or freshly written |
| `OfferMirror.VisibleIsSettled` | services/indexer/src/indexer.ts:4074-4157 | a finished run leaves the hash of every acceptance it could see, and settles it exactly when the row did not hold the hash before |
| `OfferMirror.RowReportsMeans` | services/indexer/src/indexer.ts:4046-4132 | a row a finished run wrote, column by column: the offer's terms; accepted with seller and transaction, or cancelled with transaction, if the scanned logs say so; otherwise expired, active or inactive as the offer read and the run's time say |
| `OfferMirror.OfferMirror.FullSync` | services/indexer/src/indexer.ts:3973-4167 | finished: every offer is written and reports its end in the logs scanned, and every acceptance up to the scan is stored in a whole step; cut off: rows as before or fresh, checkpoint unchanged |
| `OfferMirror.OfferMirror.SyncOffers` | services/indexer/src/indexer.ts:4169-4380 | finished: exactly the offers mentioned since the checkpoint are written and report their end in these logs, the others swept, every newer acceptance stored in a whole step and no older one; undisturbed, it finishes; cut off, the checkpoint is unchanged |
| `OfferMirror.ScanAll` | services/indexer/src/indexer.ts:4000-4033 | the rescan's scans find the chain's acceptance of every offer and miss no older one, and hold exactly the ends logged in their range |
| `OfferMirror.ScanSince` | services/indexer/src/indexer.ts:4196-4247 | the scans since the checkpoint affect exactly the offers mentioned, find every newer acceptance and no older one, and hold exactly the ends logged in their range |
| `OfferHistories.FreshIsTracked` | services/indexer/src/indexer.ts:4255-4375 | a row a run writes shows the offer at a block the run read, with its columns and activity |
| `OfferHistories.ContractKeepsSweepRight` | packages/contracts/src/core/Marketplace.sol:460-463 | the sweep is right for every offer of every chain in the stated range of times |
| `OfferHistories.FateIsTracked` | services/indexer/src/indexer.ts:4169-4380 | cut off anywhere, no row loses its relation to the chain |
| `OfferHistories.UnmentionedIsTracked` | services/indexer/src/indexer.ts:4377-4378 | a row without a log since the checkpoint, swept, shows the offer at the head |
| `OfferHistories.CompletedTracks` | services/indexer/src/indexer.ts:3973-4380 | a finished rescan and a finished event-driven run leave rows in the same relation to head and time |
| `OfferHistories.TracksMeansRescan` | services/indexer/src/indexer.ts:3973-4167 | that relation fixes the result: a row is active exactly if its offer is active and unexpired at the head, and its columns are the offer's fields one by one, the expiry as a number |
| `OfferHistories.AnyHistory` | services/indexer/src/indexer.ts:3951-4380 | over every mix of full, event-driven, repeated and interrupted syncs and retention: every settlement repeats an acceptance log of the chain, with the stored offer's token, buyer and quantity and another seller; settlements are counted exactly by the happenings of the steps, once per acceptance log when nothing was disturbed; every row has its offer's terms and every stored hash and seller are an acceptance's; after a finished sync activity is the chain's |
| `OfferHistories.ExplainedMeans` | services/indexer/src/indexer.ts:4269-4374 | what a step of a history adds: retention one drop, a sync at most one row step for each offer, each storing the hash of a logged acceptance, only the last possibly cut off |
| `OfferHistories.RetentionSettlesAgain` | services/indexer/src/indexer.ts:4466-4523 | a history over fifteen days, with retention of fourteen, that settles an offer twice |
| `Holdings.SettlementConserves` | services/indexer/src/indexer.ts:3218-3294 | for distinct seller and buyer: only those two holdings move, no empty row remains, and the total grows by exactly what the seller's record lacked |
| `Holdings.SelfSettlementInflates` | services/indexer/src/indexer.ts:3218-3294 | for a holder settling with itself the total grows by the whole quantity |
| `Holdings.SettlementTracksChain` | services/indexer/src/indexer.ts:3218-3294 | a record that agrees with the token contract agrees after the settlement |
| `SettledHoldings.HoldingsFollowSettlements` | services/indexer/src/indexer.ts:3218-3294 | after any settlements every holder has what it held, plus what it bought, less what it sold, plus what it sold without being recorded as holding it; the total grows by the last alone |
| `SettledHoldings.NothingLacked` | services/indexer/src/indexer.ts:3218-3294 | nothing is lacked if and only if, in this order, no seller sells more than recorded |
| `SettledHoldings.SettleAll` | services/indexer/src/indexer.ts:3180-3298 | the record of an ERC-1155 token after a whole history of settlements: exactly bought less sold, and the same total, if no seller lacked anything |
| `Holdings.TokenRecord.SyncHolding` | services/indexer/src/indexer.ts:3068-3150 | one holding is written, or removed when the quantity is not a positive numeral; ERC-721 keeps one holder |
| `Holdings.TokenRecord.ApplyAcceptedOffer` | services/indexer/src/indexer.ts:3180-3298 | moves the quantity and stores as primary owner a holder of the maximum quantity, the seller among equals |
| `Erc1155Ledger.LowestIsSmallestPrefix` | services/indexer/src/indexer.ts:5364-5375 | `Lowest` is a lower bound of all prefix sums and attained by one |
| `Erc1155Ledger.ClampedClosedForm` | services/indexer/src/indexer.ts:5364-5375 | the clamped running sum equals the net sum less the smallest prefix sum (0 for the empty prefix) |
| `Erc1155Ledger.ClampedIsNetIffNeverNegative` | services/indexer/src/indexer.ts:5364-5375 | it is never below the net sum and equals it if and only if no prefix is negative |
| `Erc1155Ledger.BalanceIsClamped` | services/indexer/src/indexer.ts:5377-5422 | every folded balance is the clamped sum of that holder's changes in processing order |
| `Erc1155Ledger.SupplyAccounted` | services/indexer/src/indexer.ts:5377-5422 | the holders' sum is minted less burned plus what the clamp forgave |
| `Erc1155Ledger.NothingForgivenIff` | services/indexer/src/indexer.ts:5377-5422 | nothing is forgiven if and only if no holder's running sum goes negative, if and only if the holders' sum is minted less burned |
| `Erc1155Ledger.SinglesFirstCanInflate` | services/indexer/src/indexer.ts:5377-5422 | a batch mint followed by a single transfer ends with more recorded tokens than exist |
| `Erc1155Ledger.SinglesInOrder` | services/indexer/src/indexer.ts:5377-5398 | each single log moves its id from its sender to its receiver by its value, in log order |
| `Erc1155Ledger.BatchInOrder` | services/indexer/src/indexer.ts:5399-5422 | entry i of a batch moves the i-th id by the i-th value, or zero where there is none, in order |
| `Erc1155Ledger.Fold.ApplyBalanceDelta` | services/indexer/src/indexer.ts:5364-5375 | one change: the balance plus the delta, removed when not positive, nothing else changes |
| `Erc1155Ledger.Fold.ApplyMovement` | services/indexer/src/indexer.ts:5377-5398 | one transfer: minted total, sender and receiver |
| `Erc1155Ledger.Fold.Run` | services/indexer/src/indexer.ts:5377-5422 | the tables after all logs are the fold of one movement per single log, with its id, sender, receiver and value, and behind them one per batch entry, with the i-th id and value, 0 beyond the end of the values |
| `Erc1155Ledger.RebuildLedgers` | services/indexer/src/indexer.ts:5359-5422 | of these movements: each rebuilt balance is net sum less smallest prefix sum; minted totals are those minted; each token's total is minted less burned plus forgiven |
| `LogScanner.LogsInSplit` | services/indexer/src/indexer.ts:5123-5133 | the logs of adjacent ranges concatenate to the logs of their union, none twice |
| `LogScanner.ChunksNeverGrow` | services/indexer/src/indexer.ts:5123-5148 | in every trace of requests chunk sizes stay at least 1 and never grow |
| `LogScanner.RequestChunk` | services/indexer/src/indexer.ts:5127-5144 | one chunk is asked for again only after a rate-limit reply, with pauses of 2 s, doubling up to 30 s; the last reply is anything else |
| `LogScanner.HalvingsUsed` | services/indexer/src/indexer.ts:5135-5141 | chunks found too large so far and halvings still possible add up to those possible at first |
| `LogScanner.GetLogsChunked` | services/indexer/scripts/run-backfill.ts:198-246 | for every pattern of refusals: what is asked for first, and what follows a granted, a rate-limited and a too large request (the same start, half the chunk); the answer is exactly one unbounded query's logs, and it comes whenever each refusal is a rate limit or a divisible chunk found too large; an error is the last refusal, neither of these |
| `LogCache.CacheKeyInjective` | apps/web/lib/logScan.ts:90-115 | two requests share a cache key only if chain, address, event name, event inputs and range are the same |
| `LogCache.ReadKeepsGood` | apps/web/lib/logScan.ts:117-125 | a read returns only a fresh value, which is the provider's, and keeps the cache good |
| `LogCache.WriteKeepsGood` | apps/web/lib/logScan.ts:127-139 | a write keeps at most 400 entries with distinct keys and provider values |
| `LogCache.ReadReturnsFresh` | apps/web/lib/logScan.ts:117-125 | an entry is returned if and only if it is at most 30 s old; only a stale entry of the key goes |
| `LogCache.WriteStores` | apps/web/lib/logScan.ts:127-139 | the new entry is stored and all others stay, except the oldest of 400 when the key had none |
| `LogCache.StepKeeps` | apps/web/lib/logScan.ts:69-88 | every step of callers, loaders and the request queue keeps cache, in-flight map and spacing invariants |
| `LogCache.StepKeepsCallers` | apps/web/lib/logScan.ts:157-244 | and that each caller has collected its range up to its next block and waits for the loader of its next chunk |
| `LogCache.CallersCollectTheirRange` | apps/web/lib/logScan.ts:157-244 | in every interleaving each caller has collected exactly the logs of its range before its next block, and a finished caller those of its whole range |
| `LogCache.CacheStaysGood` | apps/web/lib/logScan.ts:117-139 | in every interleaving the cache holds at most 400 entries, one for a key, each the provider's answer |
| `LogCache.OneLoaderPerKey` | apps/web/lib/logScan.ts:181-215 | at most one unsettled loader per key |
| `LogCache.RequestsKeepTheirDistance` | apps/web/lib/logScan.ts:69-88 | requests never overlap and start at least 180 ms after the previous one ended |
| `LogCache.CloseSettles` | apps/web/lib/logScan.ts:184-207 | an answer is kept and cached; a refusal or a fifth retryable failure ends the loader; any other waits 750 ms times the attempts made |
| `LogCache.FailedWhy` | apps/web/lib/logScan.ts:184-207 | in every interleaving a loader fails only after a refusal that is not retryable or five retryable ones |
| `LogCache.AbortedWhy` | apps/web/lib/logScan.ts:209-244 | a caller gives up only when the loader of its chunk failed |
| `LogCache.NeverStuck` | apps/web/lib/logScan.ts:69-88 | while a caller is unfinished some step of a caller, a loader or the queue is possible, at the latest after some time |
| `LogCache.GetLogsChunked` | apps/web/lib/logScan.ts:218-244 | the loop of one caller, through the same caller states: the chunks asked for have the chunk size, lie side by side, cover the range if none fails, and their answers are what it has collected; it finishes if and only if none fails |
| `LogCache.ChunkCache.ReadCachedChunk` | apps/web/lib/logScan.ts:117-125 | the map after a read, and the value returned is the provider's |
| `LogCache.ChunkCache.WriteCachedChunk` | apps/web/lib/logScan.ts:127-139 | the map after a write: the key keeps its place, the oldest goes when there are too many, the new entry stays |
| `ConcurrentMap.StepKeeps` | services/indexer/src/indexer.ts:5099-5106 | every step keeps: items are handed out in order, none to two runners, none lost |
| `ConcurrentMap.HandedOutAtMostOnce` | services/indexer/src/indexer.ts:5091-5108 | in every interleaving each item goes to the worker at most once, in order; there are as many runners as items or as the number given, at least one, and never more in flight |
| `ConcurrentMap.NobodyWaits` | services/indexer/src/indexer.ts:5091-5108 | a runner that has neither stopped nor failed can always go on, and one stops only when every item was handed out |
| `ConcurrentMap.AllFinished` | services/indexer/src/indexer.ts:5091-5108 | when all runners ended and no worker failed, exactly the given items were handed out and finished |
| `WalletSession.StepKeeps` | apps/web/lib/walletSession.ts:15-82 | every step of logouts, sign-ins, prompts, the queue and the server keeps the protocol's invariant |
| `WalletSession.RunKeeps` | apps/web/lib/walletSession.ts:15-82 | so does every run |
| `WalletSession.LogoutSafety` | apps/web/lib/walletSession.ts:30-46 | whenever the latest logout succeeded the server's session is empty or of the current generation; challenges and verifications leave only while their generation is current |
| `WalletSession.FailedLogoutBlocks` | apps/web/lib/walletSession.ts:23-29 | if the logout of a generation fails, no challenge or verification of that generation is ever issued, before or after |
| `WalletSession.OneRequestOneSignIn` | apps/web/lib/walletSession.ts:47-81 | at most one mutation in flight; at most one unsettled sign-in per generation |
| `WalletSession.OneInFlight` | apps/web/lib/walletSession.ts:15-19 | the queue never runs two tasks at once |
| `WalletSession.BarrierStays` | apps/web/lib/walletSession.ts:30-46 | a settled barrier stays settled with the same result in every continuation |
| `WalletSession.SessionIsLastWrite` | apps/web/lib/walletSession.ts:30-75 | in every run the server's session is what the last logout or verification it carried out left: none, or the generation of that verification |
| `WalletSession.SucceededIff` | apps/web/lib/walletSession.ts:54-78 | in every run a sign-in has succeeded if and only if, while its generation was current, its read found the wallet signed in or the verification it awaited, its own, had ended well |
| `WalletSession.FailedIff` | apps/web/lib/walletSession.ts:54-78 | and it has failed if and only if its logout barrier failed, its read failed, its challenge or verification failed, its user refused, or its generation was outdated when one of the last four ended |
| `WalletSession.SucceededTookEveryStep` | apps/web/lib/walletSession.ts:54-78 | a success not found signed in went through challenge, signature and verification in this order, its generation current each time |
| `WalletSession.NeverStuck` | apps/web/lib/walletSession.ts:15-82 | in every run a sign-in that has not settled, or the queue it waits for, can go on without another sign-in or logout |
| `WalletSession.Client.Mutate` | apps/web/lib/walletSession.ts:15-19 | one waiting task joins at the end and no other changes |
| `WalletSession.Client.ClearWalletSession` | apps/web/lib/walletSession.ts:30-46 | the new state is that of the protocol step, with a new generation whose barrier is the queued logout |
| `WalletSession.Client.EnsureWalletSession` | apps/web/lib/walletSession.ts:47-53 | joins exactly when a sign-in of the current generation is pending with the same key, refuses exactly when with another, changing nothing; otherwise starts one that becomes the pending one |
| `WalletSession.Client.Resume` | apps/web/lib/walletSession.ts:54-78 | each stretch between two suspensions is the protocol step |
| `WalletSession.Client.ReleasePending` | apps/web/lib/walletSession.ts:79-81 | only a sign-in that is still the pending one clears it |
| `WalletSession.Client.RunTask` | apps/web/lib/walletSession.ts:58-75 | an outdated sign-in request is dropped unsent, any other is issued with the generation current at that moment |
| `AbiSpec.WordFits` | apps/web/lib/abi.ts:3-5 | a padded numeral reads back, and has 64 digits if and only if the number is below 2^256 |
| `AbiSpec.OffsetsAlignedAndDisjoint` | apps/web/lib/abi.ts:47-75 | every offset is word-aligned, lies behind the heads, and no tail reaches into the next |
| `AbiSpec.TupleRoundTrip` | apps/web/lib/abi.ts:16-45 | decoding the head/tail encoding of any fitting argument list returns the list |
| `AbiSpec.EncodingInjective` | apps/web/lib/abi.ts:16-45 | argument lists of the same types with equal encodings are equal |
| `AbiSpec.DecodedFit` | apps/web/lib/abi.ts:16-45 | no data decodes to an out-of-range integer or address |
| `Abi.UintIsWordIff` | apps/web/lib/abi.ts:16-21 | fails exactly on negatives; a single word if and only if below 2^256 |
| `Abi.AddressIsWord` | apps/web/lib/abi.ts:39-45 | an address in any letter case, with or without 0x, becomes the word of its number |
| `Abi.CallSucceedsIff` | apps/web/lib/abi.ts:16-191 | any of the fifteen calls is refused exactly for a negative integer or a malformed address |
| `Abi.CallDecodes` | apps/web/lib/abi.ts:47-191 | any call within the bounds carries its selector and decodes to its arguments |
| `Abi.CallReads` | apps/web/lib/abi.ts:47-191 | for each of the fifteen calls by name: its selector digits and its arguments in order |
| `Abi.WrittenOut` | apps/web/lib/abi.ts:3-37 | two calls digit by digit: numbers are padded on the left, bytes on the right |
| `Abi.DataTellsTheCall` | apps/web/lib/abi.ts:47-191 | two calls within the bounds have the same data if and only if they are the same call with the same arguments, addresses compared without letter case and prefix |
| `Abi.AssembledDecodes` | apps/web/lib/abi.ts:47-191 | parts that are the heads and tails of an argument list decode, behind the selector, to that list |
| `Abi.OnlyFittingEncode` | apps/web/lib/abi.ts:16-45 | call data that decodes to its arguments has only arguments in range |
| `Abi.RegisterSubnameDecodes` | apps/web/lib/abi.ts:47-52 | decodes to (string) |
| `Abi.Publish721Decodes` | apps/web/lib/abi.ts:54-63 | decodes to (string, string) |
| `Abi.Publish1155Decodes` | apps/web/lib/abi.ts:65-75 | decodes to (string, uint256, string) |
| `Abi.CreatorPublish721Decodes` | apps/web/lib/abi.ts:77-84 | decodes to (address, string, bool) |
| `Abi.CreatorPublish1155Decodes` | apps/web/lib/abi.ts:86-101 | decodes to (address, uint256, uint256, string, bool) |
| `Abi.AddressBoolDecodes` | apps/web/lib/abi.ts:103-111 | decodes to (address, bool), for both calls of that shape |
| `Abi.SetModeratorDecodes` | apps/web/lib/abi.ts:113-120 | decodes to (address, string, bool) |
| `Abi.Erc20ApproveDecodes` | apps/web/lib/abi.ts:122-125 | decodes to (address, uint256) |
| `Abi.OrderDecodes` | apps/web/lib/abi.ts:127-179 | listing and offer calls decode to their seven arguments |
| `Abi.IdDecodes` | apps/web/lib/abi.ts:148-191 | the four calls on one id decode to it |
| `Wei.WeiIsFloor` | apps/web/lib/abi.ts:205-213 | every accepted amount gives the floor of its value times 10^18 |
| `Wei.WholeAmount` | apps/web/lib/abi.ts:205-213 | a text without a dot is accepted if and only if it is all digits, and then gives its number times 10^18; the empty text is zero |
| `Wei.DecimalAmount` | apps/web/lib/abi.ts:205-213 | a text with one dot is accepted if and only if both sides are all digits, and then gives the floor of its value times 10^18 |
| `Wei.WeiMonotone` | apps/web/lib/abi.ts:205-213 | a larger decimal value never gives a smaller result |
| `Wei.ParseFormatted` | apps/web/lib/abi.ts:205-213 | parsing inverts printing with 18 fractional digits, for every amount |
| `Wei.HexRoundTrip` | apps/web/lib/abi.ts:193-218 | `hexToBigInt(toHexWei(s))` is `toWeiBigInt(s)`, failing on the same texts |
| `Wei.SecondDotIgnored` | apps/web/lib/abi.ts:205-213 | a second dot and what follows do not change the result |
| `Wei.TwoDotsAccepted` | apps/web/lib/abi.ts:205-213 | "1.2.3" is accepted as 1.2 |
| `Guestbook.AdmittedSpaced` | services/indexer/src/indexer.ts:458-474 | admitted posts of a key are 30 s apart and any four span ten minutes |
| `Guestbook.WindowNeverExceeded` | services/indexer/src/indexer.ts:458-474 | over every timeline, at most three posts of a key in any ten minutes |
| `Guestbook.RecentPartDecides` | services/indexer/src/indexer.ts:461-469 | the recent times alone decide as the full history does |
| `Guestbook.PostLimiter.IsLimited` | services/indexer/src/indexer.ts:458-474 | decides as the limiter that keeps the full history, although it discards old times |
| `Guestbook.DecisionsSaid` | services/indexer/src/indexer.ts:458-474 | the reference limiter's rule in terms of which earlier posts were admitted, both ways |
| `Guestbook.Replay` | services/indexer/src/indexer.ts:458-474 | over whole timelines of any keys, said of the decisions alone: a post is refused if and only if one admitted less than 30 s before it had the same key, or three admitted less than ten minutes before it |
| `RequestRateLimit.CallKeepsWindowed` | apps/web/lib/requestRateLimit.ts:91-125 | each call keeps the relation between a key's admitted times and its current window |
| `RequestRateLimit.AdmittedWindowed` | apps/web/lib/requestRateLimit.ts:91-125 | so does every timeline |
| `RequestRateLimit.AtMostTwiceTheLimit` | apps/web/lib/requestRateLimit.ts:91-125 | any half-open interval of one window length admits at most twice the limit per key |
| `RequestRateLimit.NoMoreThanTwice` | apps/web/lib/requestRateLimit.ts:91-125 | the same said of the calls: admitted calls of a key within less than a window are at most twice the limit |
| `RequestRateLimit.RejectedWasBusy` | apps/web/lib/requestRateLimit.ts:103-124 | a rejected call had as many calls of its key as allowed within the window before it, so with fewer a call is admitted; the seconds returned are at least one and not beyond the window |
| `RequestRateLimit.RejectionsKeepTheWindow` | apps/web/lib/requestRateLimit.ts:103-124 | while a key is only rejected its window does not move |
| `RequestRateLimit.WaitingIsEnough` | apps/web/lib/requestRateLimit.ts:116-124 | a client that waits the returned seconds is admitted, whatever other keys do meanwhile |
| `RequestRateLimit.WaitingLessIsNot` | apps/web/lib/requestRateLimit.ts:116-124 | a client that comes back a second or more too early is rejected again |
| `RequestRateLimit.RateLimiter.PruneExpiredEntries` | apps/web/lib/requestRateLimit.ts:47-59 | only entries that no longer matter are removed |
| `RequestRateLimit.RateLimiter.RateLimitRequest` | apps/web/lib/requestRateLimit.ts:91-125 | decides as the limiter that never prunes |
| `RequestRateLimit.Replay` | apps/web/lib/requestRateLimit.ts:47-125 | over whole timelines pruning never shows in a decision |
| `Availability.GetExcludedListingAmount` | apps/web/lib/listingAvailability.ts:64-90 | the amount of the first active listing of the token with the excluded key, 0 if none or malformed |
| `Availability.FirstIsFirst` | apps/web/lib/listingAvailability.ts:64-90 | said of the listings: the amount of the first active ERC-1155 listing of the token with the key, and 0 without one |
| `Availability.ScanReserved` | apps/web/lib/listingAvailability.ts:127-149 | the sum over the listings of what each adds: its amount if it is an active ERC-1155 listing of the token and not excluded, nothing otherwise or when malformed |
| `Availability.GetErc1155ListingAvailability` | apps/web/lib/listingAvailability.ts:92-166 | both paths; with a known balance, reserved plus available is the balance unless oversubscribed, and oversubscribed means reserved exceeds it |
| `Availability.AvailabilitySaid` | apps/web/lib/listingAvailability.ts:92-166 | balance, reserved and available amount on each path, without a balance too |
| `Availability.QuantityReadsIff` | apps/web/lib/listingAvailability.ts:29-47 | a quantity is read as a number if and only if its trimmed text is that number in decimal digits without leading zeros; zero only where allowed |
| `Availability.SameTokenIff` | apps/web/lib/listingAvailability.ts:49-57 | two token ids are the same if and only if both are digits of one number |
| `Availability.ReservedSplits` | apps/web/lib/listingAvailability.ts:132-149 | what is reserved without the excluded key and what the key withholds make up the total |
| `Availability.FirstIsAllIff` | apps/web/lib/listingAvailability.ts:75-89 | the first excluded amount is all that is excluded if and only if no later excluded listing has an amount |
| `Availability.PathsAgreeIff` | apps/web/lib/listingAvailability.ts:97-166 | a precomputed reserved amount equal to the listings' total gives the scan's answer if and only if only the first excluded listing counts and the balance is known or no available amount was sent |
| `Availability.GetSmallestErc1155AvailableBalance` | apps/web/lib/listingAvailability.ts:168-184 | the least availability, attained by an item; unknown exactly for no items or an unknown one |
| `Availability.FindInsufficientErc1155Availability` | apps/web/lib/listingAvailability.ts:186-199 | the first item that cannot give the request; none if and only if all can |
| `Availability.SufficientIffSmallestMeets` | apps/web/lib/listingAvailability.ts:168-199 | nothing is insufficient if and only if the smallest availability meets the request, or there are no items |
| `Availability.HeldReads` | services/indexer/src/indexer.ts:2651-2676 | the held amount the indexer sends is a positive numeral without leading zeros |
| `Availability.FirstRowCounts` | services/indexer/src/indexer.ts:2651-2676 | the quantity recorded for an owner is that of its first holder row, nothing without one |
| `Availability.FilterKeeps` | services/indexer/src/indexer.ts:2678-2689 | exactly the active rows the owner listed count |
| `Availability.GetOwnerScopedListingAvailability` | services/indexer/src/indexer.ts:2678-2745 | the amounts sent per standard; for ERC-1155 nothing when an amount is malformed, else total and rest in print |
| `Availability.IndexerAgreesIff` | services/indexer/src/indexer.ts:2678-2745 | for the same listings the indexer's amounts are the client's scan if and only if every amount is well-formed |
| `Availability.SentAgreesIff` | apps/web/lib/listingAvailability.ts:92-166 | what the indexer sends leads the client to the scan's answer if and only if an amount is malformed or only the first excluded listing counts |
| `ProfileNames.StableIff` | services/indexer/src/indexer.ts:1881-1906 | a normalised name reads back as itself if and only if it is a wallet or subname, or its full name has no white space at its ends |
| `ProfileNames.SubnameStable` | services/indexer/src/indexer.ts:1881-1893 | subnames always read back as themselves |
| `ProfileStore.OneLabelReads` | services/indexer/src/indexer.ts:1881-1893 | a subname, with or without the site's suffix, has its label as route and the suffixed full name |
| `ProfileStore.TwoLabelsRead` | services/indexer/src/indexer.ts:1894-1906 | the route of a two-label name is its labels in reverse order |
| `ProfileStore.WalletReads` | services/indexer/src/indexer.ts:1881-1890 | a wallet name is an address and its own route |
| `ProfileStore.LinkedReads` | services/indexer/src/indexer.ts:2196-2213 | how a linked record is read back: slug and full name recomputed, the rest kept |
| `ProfileStore.LinkDistinctIff` | services/indexer/src/indexer.ts:7984-8061 | after an accepted link the routes as read are distinct if and only if no other identity has the slug under which the record is read back |
| `ProfileStore.LinkWrittenIff` | services/indexer/src/indexer.ts:7908-8007 | a link is written if and only if the owner is signed in, the name, route and collection are valid and the owner's, and no other identity has the route |
| `ProfileStore.LinkReplacesOne` | services/indexer/src/indexer.ts:7984-8061 | an accepted link leaves other identities' records alone and one record of its own, with owner, source, name and collection as asked and the chosen route, keeping what the request does not say |
| `ProfileStore.SortSorts` | services/indexer/src/indexer.ts:8060-8061 | sorting keeps every record as often as it is there and orders full names |
| `ProfileStore.MergeReplacesBoth` | services/indexer/src/indexer.ts:8172-8234 | where two records share a route, a transfer to the other's owner leaves one record with the transferred page |
| `ProfileStore.NeverMerges` | services/indexer/src/indexer.ts:8151-8158 | while routes are distinct a transfer never finds a record to merge with |
| `ProfileStore.TransferWrittenIff` | services/indexer/src/indexer.ts:8112-8149 | a transfer is written if and only if the current owner is signed in, names another address, and has a record at the slug |
| `ProfileStore.TransferHandsOver` | services/indexer/src/indexer.ts:8144-8238 | a transfer changes the owner of exactly the record at the slug; no route appears or disappears |
| `ProfileStore.RequestKeepsRoutes` | services/indexer/src/indexer.ts:7984-8238 | any request without override and with a name that reads back keeps the routes distinct, accepted or refused, even when it worked on no records |
| `ProfileStore.OverrideSharesRoute` | services/indexer/src/indexer.ts:7944-7949 | from an empty file: one owner links "alice.eth" plainly, then with a collection and a chosen route; both are accepted and then share a route |
| `ProfileStore.DotSharesRoute` | services/indexer/src/indexer.ts:1896-1900 | the same with the name behind a dot and a byte order mark, and no chosen route |
| `ProfileWrites.StepKeeps` | services/indexer/src/indexer.ts:9079-9116 | every arrival, start, read, write, failure and completion keeps the queue's invariant |
| `ProfileWrites.WritesLinearise` | services/indexer/src/indexer.ts:9079-9116 | under every interleaving the file is the settled requests applied one at a time in arrival order, each as its read and its failures let it; at most 50 pending |
| `ProfileWrites.ReplayedInTurn` | services/indexer/src/indexer.ts:9079-9116 | what one settled request makes of the file: the outcome of link or transfer on the stored records, on none, or nothing |
| `ProfileWrites.EveryArrivalCounts` | services/indexer/src/indexer.ts:9079-9092 | every arrival is either accepted or turned away, and turned away exactly while 50 are pending |
| `ProfileWrites.EveryRequestSeesTheRecords` | services/indexer/src/indexer.ts:2196-2257 | as long as no read fails, every request that is not thrown works on the stored records |
| `ProfileWrites.FailedReadLosesTheRest` | services/indexer/src/indexer.ts:2254-2257 | after a failed read an accepted link leaves its own record only |
| `ProfileWrites.FailuresDoNotBlock` | services/indexer/src/indexer.ts:9100-9104 | while requests are pending a step of theirs is possible, and each such step, a failure too, brings the queue closer to empty |
| `ProfileWrites.ReplayKeepsRoutes` | services/indexer/src/indexer.ts:7984-8238 | applying plain requests one at a time keeps the routes distinct, whichever of them fail |
| `ProfileWrites.RoutesStayDistinct` | services/indexer/src/indexer.ts:9079-9116 | in every interleaving of plain requests no two stored records share a route, and the file reads back as written |

## Left out

- `ListingMirror.TracksMeansRescan`: the settlement columns (buyer, sale time, cancellation time, transaction) are not part of the refinement, because a full rescan nulls them while an event-driven sync fills them; `FullSync` and `SyncListings` say what each writes.
- `ListingMirror.AnyHistory`: rolled-back chains, block numbers that go backwards, and the rows of marketplace version 1.
- `OfferHistories.AnyHistory`: the settlement is one recorded step; that two settlements of one batch may interleave on the same holding is not modelled.
- `SettledHoldings.SettleAll`: one token at a time, indexed before its offers settle; an offer on a token that is not indexed moves no holding.
- `OfferMirror.OfferMirror.SyncOffers`: participant activity records and the link from an offer to its token row are left out.
- `LogScanner.GetLogsChunked`: the pauses are recorded but time does not pass; the tests on the provider's error messages are two flags.
- `LogCache.StepKeeps`: the debug counters; which errors count as retryable is a parameter of the step.
- `WalletSession.StepKeeps`: the listeners; a session found when the page loads counts as generation 0.
- `Erc1155Ledger.RebuildLedgers`: mint transaction hashes and the order in which holders are listed.
- `Abi.AssembledDecodes`: strings arrive as their UTF-8 bytes; selectors are constants, their derivation by hashing is not modelled.
- `RequestRateLimit.RateLimiter.RateLimitRequest`: infinite and not-a-number settings; how the client address is read from headers.
- `Guestbook.PostLimiter.IsLimited`: how the key is composed of slug, address and names.
- `Availability.GetOwnerScopedListingAvailability`: which listing is picked as the primary one is a parameter.
- `ProfileStore.LinkDistinctIff`: the identity check's answer is a parameter; the sanitisers of profile text and HTML (one text stands for the fields a transfer copies, one for the others), time stamps, the database update of the selected collection, the per-address rate limit; records are ordered by character code instead of by locale.
- Letter case is changed for ASCII letters only.
- Numbers read with `Number()` are exact; sizes above 2^53 are not modelled.
- Settings, HTTP routing, RPC, database and file errors other than the failures named above.
- The participant, moderation, collection, metadata and presentation code, page components, and the encoders built on viem.
