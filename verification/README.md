# crypto-arbitrage in Dafny

This project models the two computational parts of the crypto-arbitrage
scanner.

- **The exchange adapters' `get_tickers_price`** (`core/exchanges.py`).
  - Binance, KuCoin, Bitget, OKX, Bybit and Gate each build a `PAIRS`
    dictionary, keyed by base symbol, in three in-place stages:
    1. Seed every actively traded base quoted in USDT.
    2. Annotate each seeded base with deposit/withdraw metadata, or delete
       it when the coin is not transferable.
    3. Store a mid price for every liquid ticker, and delete the base of
       every illiquid one. Binance and KuCoin delete a base that resolves
       to the empty text whatever the ticker says.
  - Coinbase, Bitstamp and Bithumb only turn one ticker feed into a flat
    `<BASE>USDT → price` map ("simple mode").
- **`find_arbitrage_pairs`** (`main.py`).
  - It visits the six pairs of the exchanges binance, okx, gate and kucoin.
  - For each pair it compares the USDT prices of the bases both snapshots
    hold, honouring the `bad_bases` exclusions.
  - It sends a signal for every base whose smaller/larger price ratio is
    below `limit` (0.98).

The constants are `Records.SpreadLimit` (0.95) and `Records.Vol24`
(200000), the defaults of `BaseExchange` (`core/exchanges.py:27-28`), and
`Scanner.Limit` (0.98, `main.py:84`).

How the model is organised:

- The three feeds of a full adapter are already-parsed sequences with one
  variant per exchange (`Feeds`).
- What each adapter reads from one entry is factored into views (`Views`).
- One generic pipeline (`Pipeline`) runs the three stages.
  - Each stage is a loop method that inserts and deletes keys exactly as
    the adapters do.
  - Each method is proved equal to a fold over its feed (`SeedAll`,
    `TransferAll`, `PriceAll`).
  - The folds are characterised key by key in `PipelineFacts`.
- Python exceptions are `Err` results.
  - In an adapter: `ZeroDivisionError` on a zero ask, and `IndexError` on a
    Gate pair without `_`. Nothing is written then.
  - In the scanner: a missing snapshot file, a record without a USDT price,
    and a zero price in the division. These end the whole remaining scan.
- The order in which the scanner visits bases is Python's set order, which
  is unspecified. The scanner methods choose one and return it as a ghost
  output.
  - The specification functions take the order as a parameter.
  - The facts in `ScannerFacts` hold whatever order was chosen.

Behaviour of the code worth knowing, which the model keeps:

- **Chain means** (Bitget, Bybit): a positive sum is divided by the number
  of all chains, zero-valued ones included, so fees 0, 2, 4 give 2.
- **Spread filter**: it tests `bid / ask > 0.95`, so a crossed book (bid
  above ask) passes.
- **`bad_bases` exclusion**: `flag_bad_exchanges` is set once per exchange
  pair and never cleared.
  - After the first excluded base, every later base of that pair is
    skipped.
  - Which bases are signalled therefore depends on the set's iteration
    order.
- **Unpriced bases**: a seeded base that no ticker mentions stays in the
  snapshot with an empty `prices` map.
- **Bitstamp**: any pair ending in "usd" in any case qualifies, "/TUSD"
  and "/BUSD" included. Such a pair shares its key with the "/USD" pair,
  and the later one wins.

## Model

| member | source | states |
|---|---|---|
| Common.Find | core/exchanges.py:117-121 | `str.find`: -1 or an index where the text occurs, with no earlier occurrence |
| Common.Before | core/exchanges.py:157 | `split(c)[0]`: a prefix containing no `c`, followed by `c` unless it is the whole text |
| Common.AfterFirst | core/exchanges.py:692-693 | there is a text after the first `c` iff `c` occurs (else `split(c)[1]` raises); the text is then `split(c)[0]`, `c` and that rest, in order |
| Common.Without | core/exchanges.py:201 | `replace(c, "")`: every `c` is removed and every other character kept, as many times as it occurs |
| Common.WithoutConcat | core/exchanges.py:201 | `replace` distributes over concatenation, so the characters stay in order |
| Common.Lower | core/exchanges.py:98 | `lower()`: same length, each character lower-cased |
| Common.SplitAtOnly | core/exchanges.py:201-202 | for a text with exactly one separator, `replace` drops it and `split` returns the part before it |
| Common.AfterOnly | core/exchanges.py:692-693 | for a text with exactly one separator, `split(c)[1]` is the part after it |
| Chains.AggregateChains | core/exchanges.py:336-349 | the chain loop and the averaging loop compute `Summarize`: OR of the per-chain flags, and sums divided by the chain count when positive |
| Chains.AnyEnabledIff | core/exchanges.py:337-343 | the withdraw/deposit flag holds iff some chain is "true" (Bitget) or "1" (Bybit) |
| Chains.NoChainsNoTransfer | core/exchanges.py:334-349 | an asset with no chains is neither withdrawable nor depositable, and its fee mean is 0 |
| Chains.MeanBounds | core/exchanges.py:347-349 | amounts in [0, hi] on every chain give a stored mean in [0, hi] |
| Chains.ZeroFeeChainsCount | core/exchanges.py:347-349 | fees 0, 2, 4 average to 2: zero-valued chains count in the divisor |
| Views.SeedRecord | core/exchanges.py:427-443 | a seed record has empty prices, the quotes tuple, no metadata, and `tradable` True (OKX: the state "live") |
| Views.StatusBase | core/exchanges.py:155-157 | the base a status entry seeds: the base field, except KuCoin's text before the first '-' of the name |
| Views.IsActive | core/exchanges.py:79-85 | the per-exchange tradability test of stage 1: Binance "TRADING", KuCoin `enableTrading`, Bitget "online", OKX "live", Bybit "1", Gate "tradable" |
| Views.CoinViewOf | core/exchanges.py:97-112 | what stage 2 reads from one coin entry: base, keep-or-delete flag, metadata and KuCoin alias; its conditions are stated by `ViewFacts.CoinEnablement`, `EnabledMetaTransfers` and `AliasOnlyForRenamedKucoinCoins` |
| Views.Filter | core/exchanges.py:124-128 | a zero ask raises ZeroDivisionError; otherwise a price is stored, under the given quote, iff bid/ask > 0.95 and volume > 200000 |
| Views.VerdictOf | core/exchanges.py:114-128 | each adapter's stage-3 branches for one ticker: ignore, raise, or act on one base; its outcome is stated by `ViewFacts.StoreIffLiquid` and the examples below |
| ViewFacts.SuffixBaseIsTextBeforeFirstQuote | core/exchanges.py:117-121 | a resolved base is the text before the FIRST occurrence of USDT in a symbol ending with USDT |
| ViewFacts.SuffixBaseOfPlainSymbol | core/exchanges.py:368-374 | B + "USDT" with no earlier "USDT" resolves to B |
| ViewFacts.BtcUsdtResolves | core/exchanges.py:592-598 | "BTCUSDT" resolves to "BTC" |
| ViewFacts.KucoinTickerBase | core/exchanges.py:200-210 | a KuCoin ticker "B-USDT" is about B, or about `reversed_base[B]` when B is an alias |
| ViewFacts.GateTickerVerdict | core/exchanges.py:691-708 | a Gate ticker "B_USDT" is about B and stores the mid price when `last` > 0 and the filter passes |
| ViewFacts.CoinEnablement | core/exchanges.py:97-112 | keep-or-delete conditions: Binance dep∧wd∧trading, KuCoin/OKX dep∧wd, Bitget/Bybit some chain each way, Gate none of five flags |
| ViewFacts.OneTupleAlwaysTruthy | core/exchanges.py:655-671 | a trailing-comma 1-tuple is truthy whatever it holds; unwrapped, its truth is its item's |
| ViewFacts.EnabledMetaTransfers | core/exchanges.py:445-470 | metadata written for a kept base reports deposit and withdraw enabled |
| ViewFacts.AliasOnlyForRenamedKucoinCoins | core/exchanges.py:191-196 | only KuCoin records aliases, and only `currency` when it differs from `name` |
| ViewFacts.StoreIffLiquid | core/exchanges.py:124-128 | for a non-empty base, a ticker stores a price iff it is liquid (spread, volume, Bitget close, Gate last, OKX quote); it stores its mid (Bybit: `lp`); the only exception is a zero ask |
| ViewFacts.EmptyBaseDropped | core/exchanges.py:127-128 | a ticker about the empty base: Bitget and Bybit never act on it; Binance and KuCoin delete it whatever the ticker says |
| ViewFacts.LiquidEmptyBaseDeleted | core/exchanges.py:114-128 | a liquid Binance ticker for "USDT" resolves to the empty base and deletes it |
| ViewFacts.SpreadBoundaryRejected | core/exchanges.py:124-125 | bid 95 / ask 100 is exactly 0.95 and deletes the base |
| ViewFacts.VolumeBoundaryRejected | core/exchanges.py:28 | a volume of exactly 200000 deletes the base |
| ViewFacts.CrossedBookAccepted | core/exchanges.py:124-126 | bid 100 over ask 95 passes and stores 97.5 |
| Pipeline.SeedStage | core/exchanges.py:79-95 | the stage-1 loop computes `SeedAll` |
| Pipeline.ReadCoin | core/exchanges.py:550-574 | reading one coin entry runs the chain aggregation for Bitget/Bybit |
| Pipeline.TransferStage | core/exchanges.py:174-198 | the stage-2 loop (annotate, alias, delete) computes `TransferAll` |
| Pipeline.PriceAllErrSticky | core/exchanges.py:211-213 | after an exception, later tickers change nothing |
| Pipeline.PriceStage | core/exchanges.py:691-708 | the stage-3 loop (store, delete, raise) computes `PriceAll` |
| Pipeline.GetTickersPrice | core/exchanges.py:73-131 | the three stages in sequence compute `Normalized` |
| PipelineFacts.SeedAllSpec | core/exchanges.py:155-172 | after stage 1 a base is present iff some active USDT entry names it, with that entry's record |
| PipelineFacts.SeededRecordShape | core/exchanges.py:634-650 | seeded records: empty prices, `quotes` ("USDT",), no metadata, `tradable` True or "live" |
| PipelineFacts.TransferAllSpec | core/exchanges.py:327-364 | stage 2 keeps a base iff it was present and EVERY coin entry about it is enabled (never adds one); the last entry's metadata wins |
| PipelineFacts.TransferAliases | core/exchanges.py:191-194 | every new `reversed_base` entry was written by an enabled coin entry naming that alias, whose base was in `PAIRS` when the entry was read, and maps to that base |
| PipelineFacts.StoredQuoteIsUsdt | core/exchanges.py:693-697 | every stored price is under "USDT", Gate's parsed quote included |
| PipelineFacts.PriceStepSpec | core/exchanges.py:600-604 | one ticker: other bases unchanged; its base survives iff the outcome is a store, which sets its USDT price |
| PipelineFacts.PriceAllSpec | core/exchanges.py:114-128 | stage 3 keeps a base iff it was present and every ticker about it stores a price (for a non-empty base: is liquid) (never adds one); its price is the last one stored |
| PipelineFacts.PriceAllErrCause | core/exchanges.py:376-380 | stage 3 fails only with the exception of some faulting ticker |
| PipelineFacts.GateMalformedPairAborts | core/exchanges.py:692-693 | a Gate pair without '_' aborts the adapter whatever PAIRS holds |
| PipelineFacts.LastStoredIsLiquid | core/exchanges.py:481-483 | for a non-empty base, a stored price comes from a liquid ticker about that base and is its quoted price |
| PipelineFacts.NormalizedSpec | core/exchanges.py:627-712 | a base is in the snapshot iff seeded, every coin entry about it enabled, every ticker about it stores a price (for a non-empty base: is liquid); record = seed + last metadata + last price |
| PipelineFacts.KeptMetaIsEnabled | core/exchanges.py:683-687 | the metadata of a kept base says deposit and withdraw are enabled |
| PipelineFacts.OkxForeignQuoteDeletes | core/exchanges.py:472-485 | an OKX instrument quoted in anything but USDT deletes its base, whatever the USDT ticker did |
| PipelineFacts.PricelessRecordSurvives | core/exchanges.py:127-128 | a seeded base with no ticker stays, with empty `prices` |
| SimpleMode.CoinbaseTickers | core/exchanges.py:229-233 | every rate key k appears as k + "USDT" with its rate unchanged, no other key, as many keys as rates |
| SimpleMode.BitstampTickers | core/exchanges.py:259-262 | the loop computes `BitstampAll` |
| SimpleMode.BitstampAllSpec | core/exchanges.py:259-262 | a key is present iff some USD-quoted pair yields it; its value is the `last` of the latest such pair |
| SimpleMode.AssignSpec | core/exchanges.py:262 | dictionary assignment in sequence: a key is present iff assigned, with its last value |
| SimpleMode.EntryOfUsdPair | core/exchanges.py:260-261 | "B/Q" with Q ending in usd (any case) is stored under B + "USDT" |
| SimpleMode.TusdOverridesUsd | core/exchanges.py:260-262 | "BTC/USD" then "BTC/TUSD" leaves only BTCUSDT with the TUSD price |
| SimpleMode.BithumbTickers | core/exchanges.py:279-283 | an error iff the rate is 0 and some entry has a closing price; otherwise exactly those keys + "USDT", each at price / rate |
| Scanner.CheckBad | main.py:43-46 | the exclusion loop sets the flag iff it was set or some group of `bad_bases[base]` holds both exchanges |
| Scanner.Ratio | main.py:53-56 | the ratio times the larger price is the smaller price; no ratio (ZeroDivisionError) iff the larger price is 0 |
| Scanner.VisitBase | main.py:42-66 | one base: the flag becomes set iff it was or the base is excluded, and then nothing else changes; otherwise at most one signal is appended, for this pair and base, at a ratio below the limit, or an exception ends the pair |
| Scanner.VisitStep | main.py:42-66 | one base: the exclusion check, then the two price reads, the division and the signal, exactly as `VisitBase` |
| Scanner.ScanPair | main.py:34-66 | one pair visits each common base once (all of them unless it fails) and yields `PairOutcome` for that order |
| Scanner.PairAt | main.py:23-26 | the inner loop at (i, j) scans the pair at position `PairIndex` of `AllPairs` |
| Scanner.PairsBeforeMembers | main.py:23-24 | the pairs before row i are exactly (names[h], names[k]) with h < i, h < k |
| Scanner.ScanRow | main.py:24-26 | one pass of the inner loop extends the scanned pairs until the row ends or a pair fails |
| Scanner.FindArbitragePairs | main.py:18-71 | the pairs are scanned in loop order; the result combines their outcomes; only the last may fail; stopping early means a failure |
| ScannerFacts.RatioSymmetric | main.py:53-56 | the ratio does not depend on which exchange is A |
| ScannerFacts.RatioBounds | main.py:53-56 | for positive prices the ratio is smaller/larger, lies in (0, 1] and is 1 iff the prices agree |
| ScannerFacts.SignalIffBelowLimit | main.py:57 | positive prices signal iff smaller < 0.98 × larger |
| ScannerFacts.ZeroPriceCases | main.py:53-56 | two zero prices raise; a zero against a positive price is ratio 0 |
| ScannerFacts.ScanBasesSound | main.py:42-66 | signals are only appended, each names the pair and a visited common base that is not excluded, with both USDT prices and a ratio below the limit |
| ScannerFacts.FlaggedIsFinal | main.py:41-49 | once the flag is set, the rest of the pair's bases change nothing |
| ScannerFacts.FlagIffSomeMarked | main.py:41-46 | at the end of a pair, the flag is set iff some visited base is excluded for the pair |
| ScannerFacts.ScanBasesComplete | main.py:48-66 | a pair that ends unflagged and without an exception compared every base it visited and signalled every ratio below the limit |
| ScannerFacts.ExclusionDependsOnOrder | main.py:41-49 | with X excluded, order X, Y signals nothing, order Y, X signals Y |
| ScannerFacts.AllPairsMembers | main.py:23-24 | the pairs are exactly (names[h], names[k]) with h < k |
| ScannerFacts.AllPairsLength | main.py:23-24 | n names give n(n-1)/2 pairs |
| ScannerFacts.ExchangePairsInOrder | main.py:19-26 | the six pairs of binance, okx, gate, kucoin in loop order |
| ScannerFacts.CombineNoFailure | main.py:22-71 | the scan fails iff some pair failed |
| ScannerFacts.CombineFailure | main.py:67-71 | the exception ending the scan is that of the last pair scanned |
| ScannerFacts.CombineSignalsFrom | main.py:66 | every signal sent comes from some scanned pair |
| ScannerFacts.CombineSignalsAll | main.py:66 | without an exception, every pair's signals are sent |
| ScannerFacts.ScanSignalsJustified | main.py:18-66 | every signal of a scan is justified for one of the six pairs, whatever the visit order |
| ScannerFacts.ScanCompleteWithoutExclusions | main.py:23-66 | with no exclusions, a scan without an exception covers all six pairs and signals every common base whose ratio is below the limit |
| ScannerFacts.MissingSnapshotStopsScan | main.py:28-32 | binance BTC 60000, okx BTC 58000, no gate file: one signal at ratio 29/30, then the scan stops at gate |
| ScannerFacts.MissingFirstFileEscapes | main.py:67-70 | a missing binance or okx snapshot fails the first pair before any base is visited, so the handler's `print(base)` raises again |

## Left out

- HTTP fetching, request signing (HMAC, base64), reading `keys.json` and
  `endpoints.json`: network and foreign-library I/O. The feeds are method
  parameters.
- Snapshot files: writing `tickers_<name>.json` and `usdt_tickers_<name>.json`,
  and reading them and `bad_bases.json` in the scanner.
  - The scanner takes the snapshots as a map from exchange name to `PAIRS`.
  - An adapter that raises produces `Err` and writes nothing.
- `asyncio.gather`, `import_classes`, the `main` loop with `time.sleep`:
  concurrency and scheduling.
- Telegram delivery (`send_signal`) and the alert text: a signal is a value
  appended to the result's `signals`. Failures inside `send_signal` are
  not modelled.
- The except handler of `find_arbitrage_pairs` (`main.py:67-71`) prints and
  returns, and the next poll starts. The model ends the scan with the
  exception as `failure`. When no base has been visited yet, the handler's
  `print(base)` raises an `UnboundLocalError`, which ends the program
  through `main.py:88-90`. `Scanner.HandlerEscapes` states when that
  happens, but the poll loop and the program's shutdown are not modelled.
- Bithumb's constructor fetches the USD/KRW rate over HTTP. The rate is a
  parameter of `SimpleMode.BithumbTickers`.
- KrakenExchange: its `get_tickers_price` is an empty stub.
- IEEE-754 floating point and `float()` parsing.
  - Prices, volumes and fees are exact reals.
  - A Bybit empty amount string is `None`, read as 0.
  - Bybit stores `lp` as sent; the model stores it as a number.
  - Coinbase and Bitstamp prices are copied as the texts received.
- `Common.Lower`: lower-cases ASCII letters only; Python's `lower()` also
  folds non-ASCII letters.
- `Scanner.CheckBad`: a `bad_bases` group is a list of exchange names. A
  group given as a plain string would make Python's `in` test for
  substrings.
- `Scanner.FindArbitragePairs`: the visit order of each pair is the one the
  method chooses. The facts proved hold for every order, but the model
  does not fix CPython's actual set order.
